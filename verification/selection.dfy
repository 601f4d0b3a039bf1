/** Choosing the gate a press selects while the keeper is waiting.

    Two versions are given. `SelectAsWritten` is the editor's loop as it
    stands: it inactivates every gate, then walks the list while reordering
    it, activating and raising every gate the press hits, and finally raises
    whichever gate it visited last, hit or not. The editor therefore does not
    keep a single active gate. `SelectFirstHit` is the evidently intended
    selection, which the keeper uses: the first gate in list order (the
    topmost) that the press hits becomes the only Active gate and goes on top;
    when nothing is hit, the order is left alone. */
module Selection {
  import opened Outcomes
  import opened Gates
  import opened Layers
  import Geometry

  /** The press hits `g`: `hits` holds the gates whose control artist the
      canvas reports under the pointer. */
  predicate Hits(g: Gate, current: Option<Channels>, hits: set<nat>)
  {
    Contains(g, current, g.id in hits) == Ok(true)
  }

  /** Each visited gate is Active exactly when the press hits it. */
  predicate ActiveIffHit(g: Gate, current: Option<Channels>, hits: set<nat>)
  {
    g.state == (if Hits(g, current, hits) then Active else Inactive)
  }

  // ---------------------------------------------------------------------
  // As written

  /** The loop over the list that is being reordered: the iterator reads
      index `i` of the list as it is now; a gate the press hits is activated
      and brought to the top layer. Also yields the identity of the gate
      visited last. */
  function VisitFrom(L: seq<Gate>, i: nat, last: nat, current: Option<Channels>, hits: set<nat>)
    : (r: Outcome<(seq<Gate>, nat)>)
    ensures |r.value.0| == |L|
    ensures AllPatched(L) ==> r.Returned? && AllPatched(r.value.0)
    ensures UniqueIds(L) ==> UniqueIds(r.value.0)
    ensures r.Returned? && i < |L| ==> Listed(r.value.0, r.value.1)
    decreases |L| - i
  {
    if i >= |L| then Returned((L, last))
    else
      var g := L[i];
      match Contains(g, current, g.id in hits)
      case Err(f) => Raised((L, last), f)
      case Ok(false) => VisitFrom(L, i + 1, g.id, current, hits)
      case Ok(true) =>
        // The control artist exists here, since Contains answered.
        var L' := L[i := Activate(g).value];
        assert L'[i].id == g.id;
        match BringGateToTopLayer(L', g.id)
        case Err(f) => Raised((L', last), f)
        case Ok(L'') =>
          VisitStep(L, i, Activate(g).value, L'');
          VisitFrom(L'', i + 1, g.id, current, hits)
  }

  predicate AllPatched(gs: seq<Gate>)
  {
    forall j :: 0 <= j < |gs| ==> gs[j].patch
  }

  /** Some gate of the list is the object `id`. */
  predicate Listed(gs: seq<Gate>, id: nat)
  {
    exists j :: 0 <= j < |gs| && gs[j].id == id
  }

  /** One hit in the loop: the gate is replaced by its activated self (same
      identity, artists kept) and the list is reordered without losing or
      duplicating anything. */
  lemma VisitStep(L: seq<Gate>, i: nat, g: Gate, L'': seq<Gate>)
    requires i < |L| && g.id == L[i].id && g.patch == L[i].patch
    requires BringGateToTopLayer(L[i := g], g.id) == Ok(L'')
    ensures |L''| == |L|
    ensures AllPatched(L) ==> AllPatched(L'')
    ensures UniqueIds(L) ==> UniqueIds(L'')
    ensures Listed(L'', g.id)
  {
    var L' := L[i := g];
    UpdateKeepsUniqueIds(L, i, g);
    PermutationKeepsPatched(L', L'');
  }

  lemma UpdateKeepsUniqueIds(L: seq<Gate>, i: nat, g: Gate)
    requires i < |L| && g.id == L[i].id
    ensures UniqueIds(L) ==> UniqueIds(L[i := g])
  {
    var L' := L[i := g];
    assert forall a :: 0 <= a < |L'| ==> L'[a].id == L[a].id;
  }

  lemma PermutationKeepsPatched(A: seq<Gate>, B: seq<Gate>)
    requires multiset(A) == multiset(B)
    ensures AllPatched(A) ==> AllPatched(B)
  {
    forall j | 0 <= j < |B|
      ensures B[j] in A
    {
      assert B[j] in multiset(B);
    }
  }

  /** With identities unique, the visited gate is found where the iterator
      reads it. */
  lemma FoundWhereVisited(L: seq<Gate>, i: nat, g: Gate)
    requires UniqueIds(L) && i < |L| && g.id == L[i].id
    ensures IndexOf(L[i := g], g.id) == Some(i)
    ensures BringGateToTopLayer(L[i := g], g.id) == Ok(MoveToTop(L[i := g], i))
  {
    var L' := L[i := g];
    assert L'[i] == g;
    assert forall j :: 0 <= j < i ==> L'[j].id == L[j].id != g.id;
    var k := IndexOf(L', g.id);
    assert k.Some?;
    assert k.value <= i;
  }

  /** The loop's invariant at index `i`: identities are distinct, the visited
      positions hold gates that are Active exactly when hit, and the others
      are still Inactive. */
  predicate VisitInvariant(L: seq<Gate>, i: nat, current: Option<Channels>, hits: set<nat>)
  {
    && UniqueIds(L)
    && (forall j :: 0 <= j < |L| && j < i ==> ActiveIffHit(L[j], current, hits))
    && (forall j :: i <= j < |L| ==> L[j].state == Inactive)
  }

  /** A run of the loop that returns leaves every gate Active exactly when
      the press hits it. */
  predicate EndsActiveIffHit(r: Outcome<(seq<Gate>, nat)>, current: Option<Channels>, hits: set<nat>)
  {
    r.Returned? ==> forall j :: 0 <= j < |r.value.0| ==> ActiveIffHit(r.value.0[j], current, hits)
  }

  /** The loop activates exactly the gates the press hits. Raising a gate
      only permutes the visited positions, so the invariant holds at every
      index and the loop ends with every gate Active exactly when hit. */
  lemma {:induction false} VisitActivatesHits(L: seq<Gate>, i: nat, last: nat,
                                              current: Option<Channels>, hits: set<nat>)
    requires VisitInvariant(L, i, current, hits)
    ensures EndsActiveIffHit(VisitFrom(L, i, last, current, hits), current, hits)
    decreases |L| - i, 1
  {
    if i < |L| {
      if Hits(L[i], current, hits) {
        VisitHitCase(L, i, last, current, hits);
      } else if Contains(L[i], current, L[i].id in hits).Ok? {
        VisitMissStep(L, i, last, current, hits);
        VisitActivatesHits(L, i + 1, L[i].id, current, hits);
      }
    }
  }

  /** The loop from a gate the press hits. */
  lemma {:induction false} VisitHitCase(L: seq<Gate>, i: nat, last: nat,
                                        current: Option<Channels>, hits: set<nat>)
    requires VisitInvariant(L, i, current, hits) && i < |L| && Hits(L[i], current, hits)
    ensures EndsActiveIffHit(VisitFrom(L, i, last, current, hits), current, hits)
    decreases |L| - i, 0
  {
    var L'' := VisitHitNext(L, i, last, current, hits);
    VisitActivatesHits(L'', i + 1, L[i].id, current, hits);
  }

  /** The list the loop goes on with after a hit gate, and the invariant it
      keeps. */
  lemma VisitHitNext(L: seq<Gate>, i: nat, last: nat, current: Option<Channels>, hits: set<nat>)
    returns (L'': seq<Gate>)
    requires VisitInvariant(L, i, current, hits) && i < |L| && Hits(L[i], current, hits)
    ensures |L''| == |L| && VisitInvariant(L'', i + 1, current, hits)
    ensures VisitFrom(L, i, last, current, hits) == VisitFrom(L'', i + 1, L[i].id, current, hits)
  {
    var g' := L[i].(state := Active);
    L'' := MoveToTop(L[i := g'], i);
    VisitHitUnfolds(L, i, last, current, hits);
    VisitHitStep(L, i, g', current, hits);
  }

  /** On a gate the press misses the loop moves on, and the invariant holds
      one index further. */
  lemma VisitMissStep(L: seq<Gate>, i: nat, last: nat, current: Option<Channels>, hits: set<nat>)
    requires VisitInvariant(L, i, current, hits) && i < |L|
    requires Contains(L[i], current, L[i].id in hits) == Ok(false)
    ensures VisitFrom(L, i, last, current, hits) == VisitFrom(L, i + 1, L[i].id, current, hits)
    ensures VisitInvariant(L, i + 1, current, hits)
  {
    assert ActiveIffHit(L[i], current, hits);
  }

  /** On a hit gate the loop goes on from the list with that gate, activated,
      moved to the top. */
  lemma VisitHitUnfolds(L: seq<Gate>, i: nat, last: nat, current: Option<Channels>, hits: set<nat>)
    requires UniqueIds(L) && i < |L| && Hits(L[i], current, hits)
    ensures VisitFrom(L, i, last, current, hits)
            == VisitFrom(MoveToTop(L[i := L[i].(state := Active)], i), i + 1, L[i].id, current, hits)
  {
    var g' := Activate(L[i]).value;
    FoundWhereVisited(L, i, g');
  }

  /** The step of the loop on a hit gate keeps the loop's invariant. */
  lemma VisitHitStep(L: seq<Gate>, i: nat, g': Gate, current: Option<Channels>, hits: set<nat>)
    requires VisitInvariant(L, i, current, hits) && i < |L|
    requires Hits(L[i], current, hits) && g' == L[i].(state := Active)
    ensures VisitInvariant(MoveToTop(L[i := g'], i), i + 1, current, hits)
  {
    var L' := L[i := g'];
    UpdateKeepsUniqueIds(L, i, g');
    var L'' := MoveToTop(L', i);
    forall j | 0 <= j < |L''| && j < i + 1
      ensures ActiveIffHit(L''[j], current, hits)
    {
      if j == 0 {
        assert L''[0] == g' && Hits(g', current, hits);
      } else {
        assert L''[j] == L'[j - 1] == L[j - 1];
      }
    }
    forall j | i + 1 <= j < |L''|
      ensures L''[j].state == Inactive
    {
      assert L''[j] == L'[j] == L[j];
    }
  }

  /** The selection of the waiting keeper as written. */
  function SelectAsWritten(gs: seq<Gate>, current: Option<Channels>, hits: set<nat>)
    : (r: Outcome<seq<Gate>>)
    ensures |r.value| == |gs|
    ensures r.Returned? <==> AllPatched(gs)
    ensures r.Returned? && UniqueIds(gs) ==> UniqueIds(r.value)
    ensures r.Returned? && UniqueIds(gs) ==>
              forall j :: 0 <= j < |r.value| ==> ActiveIffHit(r.value[j], current, hits)
  {
    if |gs| == 0 then Returned(gs)
    else
      match InactivateAllGates(gs)
      case Raised(t, f) => Raised(t, f)
      case Returned(t) =>
        AsWrittenStart(gs, t, current, hits);
        match VisitFrom(t, 0, t[0].id, current, hits)
        case Raised(v, f) => Raised(v.0, f)
        case Returned(v) =>
          match BringGateToTopLayer(v.0, v.1)
          case Err(f) => Raised(v.0, f)
          case Ok(u) => AsWrittenFacts(v.0, u, current, hits); Returned(u)
  }

  lemma AsWrittenStart(gs: seq<Gate>, t: seq<Gate>, current: Option<Channels>, hits: set<nat>)
    requires InactivateAllGates(gs) == Returned(t)
    ensures AllPatched(gs) && AllPatched(t)
    ensures UniqueIds(gs) ==> UniqueIds(t)
    ensures UniqueIds(gs) ==>
              var r := VisitFrom(t, 0, if |t| > 0 then t[0].id else 0, current, hits);
              r.Returned? ==> forall j :: 0 <= j < |r.value.0| ==> ActiveIffHit(r.value.0[j], current, hits)
  {
    assert forall j :: 0 <= j < |gs| ==> t[j].id == gs[j].id;
    if UniqueIds(gs) {
      VisitActivatesHits(t, 0, if |t| > 0 then t[0].id else 0, current, hits);
    }
  }

  lemma AsWrittenFacts(L: seq<Gate>, u: seq<Gate>, current: Option<Channels>, hits: set<nat>)
    requires |u| == |L| && multiset(u) == multiset(L)
    ensures (forall j :: 0 <= j < |L| ==> ActiveIffHit(L[j], current, hits)) ==>
              forall j :: 0 <= j < |u| ==> ActiveIffHit(u[j], current, hits)
  {
    forall j | 0 <= j < |u|
      ensures u[j] in L
    {
      assert u[j] in multiset(u);
    }
  }

  // ---------------------------------------------------------------------
  // Corrected: the topmost gate hit wins

  /** The first gate in list order the press hits; asking a gate whose
      artists are missing raises. */
  function FirstHit(gs: seq<Gate>, current: Option<Channels>, hits: set<nat>): (r: Result<Option<nat>>)
    ensures r == Ok(None) <==> forall j :: 0 <= j < |gs| ==> Contains(gs[j], current, gs[j].id in hits) == Ok(false)
    ensures r.Ok? && r.value.Some? ==>
              && r.value.value < |gs|
              && Hits(gs[r.value.value], current, hits)
              && forall j :: 0 <= j < r.value.value ==> !Hits(gs[j], current, hits)
    ensures r.Err? ==> r.fault == NoPatch && exists j :: 0 <= j < |gs| && !gs[j].patch
  {
    match FirstIndex(gs, (g: Gate) => Contains(g, current, g.id in hits) != Ok(false))
    case None => Ok(None)
    case Some(i) =>
      match Contains(gs[i], current, gs[i].id in hits)
      case Err(f) => Err(f)
      case Ok(_) => Ok(Some(i))
  }

  /** The selection of the waiting keeper, topmost hit first. */
  function SelectFirstHit(gs: seq<Gate>, current: Option<Channels>, hits: set<nat>)
    : (r: Outcome<seq<Gate>>)
    ensures |r.value| == |gs|
    ensures r.Returned? <==> forall j :: 0 <= j < |gs| ==> gs[j].patch
    ensures r.Raised? ==> r.fault == NoPatch
    ensures UniqueIds(gs) ==> UniqueIds(r.value)
  {
    match InactivateAllGates(gs)
    case Raised(t, f) => Raised(t, f)
    case Returned(t) =>
      InactivatedKeepsHits(gs, t, current, hits);
      match FirstHit(t, current, hits)
      case Err(f) => Raised(t, f)
      case Ok(None) => Returned(t)
      case Ok(Some(i)) =>
        TopHitFacts(gs, t, i, current, hits);
        Returned(MoveToTop(t[i := Activate(t[i]).value], i))
  }

  /** What the corrected selection selects. When nothing is hit every gate
      is Inactive and the order is unchanged; otherwise the topmost gate hit
      is the only Active one and goes on top, and the others follow, Inactive,
      in their order. */
  lemma SelectFirstHitChoosesTopmost(gs: seq<Gate>, current: Option<Channels>, hits: set<nat>)
    ensures var r := SelectFirstHit(gs, current, hits);
            r.Returned? && (forall j :: 0 <= j < |gs| ==> !Hits(gs[j], current, hits)) ==>
              forall j :: 0 <= j < |gs| ==> r.value[j] == gs[j].(state := Inactive)
    ensures var r := SelectFirstHit(gs, current, hits);
            forall i :: (0 <= i < |gs| && Hits(gs[i], current, hits)
                         && forall j :: 0 <= j < i ==> !Hits(gs[j], current, hits)) ==>
              r.Returned? ==>
                && r.value[0] == gs[i].(state := Active)
                && forall j :: 0 <= j < |gs| && j != i ==>
                     r.value[if j < i then j + 1 else j] == gs[j].(state := Inactive)
    // At most one gate is Active, and it is on the top layer.
    ensures var r := SelectFirstHit(gs, current, hits);
            r.Returned? ==> forall j :: 0 < j < |r.value| ==> r.value[j].state == Inactive
  {
    var r := SelectFirstHit(gs, current, hits);
    if r.Returned? {
      if forall j :: 0 <= j < |gs| ==> !Hits(gs[j], current, hits) {
        SelectNoHit(gs, current, hits);
      }
      forall i | 0 <= i < |gs| && Hits(gs[i], current, hits)
                 && forall j :: 0 <= j < i ==> !Hits(gs[j], current, hits)
        ensures && r.value[0] == gs[i].(state := Active)
                && forall j :: 0 <= j < |gs| && j != i ==>
                     r.value[if j < i then j + 1 else j] == gs[j].(state := Inactive)
      {
        SelectTopHit(gs, current, hits, i);
      }
      SelectOneActive(gs, current, hits);
    }
  }

  /** A press that hits nothing leaves every gate Inactive, in its place. */
  lemma SelectNoHit(gs: seq<Gate>, current: Option<Channels>, hits: set<nat>)
    requires SelectFirstHit(gs, current, hits).Returned?
    requires forall j :: 0 <= j < |gs| ==> !Hits(gs[j], current, hits)
    ensures forall j :: 0 <= j < |gs| ==>
              SelectFirstHit(gs, current, hits).value[j] == gs[j].(state := Inactive)
  {
    var t := InactivateAllGates(gs).value;
    InactivatedKeepsHits(gs, t, current, hits);
    assert forall j :: 0 <= j < |t| ==> Contains(t[j], current, t[j].id in hits) == Ok(false);
    assert FirstHit(t, current, hits) == Ok(None);
  }

  /** A press whose topmost hit is gate `i`. */
  lemma SelectTopHit(gs: seq<Gate>, current: Option<Channels>, hits: set<nat>, i: nat)
    requires SelectFirstHit(gs, current, hits).Returned?
    requires i < |gs| && Hits(gs[i], current, hits)
    requires forall j :: 0 <= j < i ==> !Hits(gs[j], current, hits)
    ensures var r := SelectFirstHit(gs, current, hits).value;
            && r[0] == gs[i].(state := Active)
            && forall j :: 0 <= j < |gs| && j != i ==>
                 r[if j < i then j + 1 else j] == gs[j].(state := Inactive)
  {
    var t := InactivateAllGates(gs).value;
    InactivatedKeepsHits(gs, t, current, hits);
    var h := FirstHit(t, current, hits);
    assert h.Ok? && h.value.Some?;
    TopHitFacts(gs, t, h.value.value, current, hits);
    assert h.value.value == i;
  }

  /** Only the top gate can be Active after the selection. */
  lemma SelectOneActive(gs: seq<Gate>, current: Option<Channels>, hits: set<nat>)
    requires SelectFirstHit(gs, current, hits).Returned?
    ensures var r := SelectFirstHit(gs, current, hits).value;
            forall j :: 0 < j < |r| ==> r[j].state == Inactive
  {
    var t := InactivateAllGates(gs).value;
    InactivatedKeepsHits(gs, t, current, hits);
    match FirstHit(t, current, hits)
    case Err(_) =>
    case Ok(None) =>
      NoHitFacts(gs, t, current, hits);
      SelectNoHit(gs, current, hits);
    case Ok(Some(i)) =>
      SelectTopHit(gs, current, hits, i);
      BehindTopInactive(gs, SelectFirstHit(gs, current, hits).value, i);
  }

  lemma NoHitFacts(gs: seq<Gate>, t: seq<Gate>, current: Option<Channels>, hits: set<nat>)
    requires |t| == |gs|
    requires forall j :: 0 <= j < |gs| ==> t[j] == gs[j].(state := Inactive)
    requires forall j :: 0 <= j < |gs| ==> (Hits(t[j], current, hits) <==> Hits(gs[j], current, hits))
    requires FirstHit(t, current, hits) == Ok(None)
    ensures forall i :: 0 <= i < |gs| ==> !Hits(gs[i], current, hits)
  {
    assert forall j :: 0 <= j < |gs| ==> Contains(t[j], current, t[j].id in hits) == Ok(false);
  }

  lemma InactivatedKeepsHits(gs: seq<Gate>, t: seq<Gate>, current: Option<Channels>, hits: set<nat>)
    requires InactivateAllGates(gs) == Returned(t)
    ensures |t| == |gs| && AllPatched(gs)
    ensures forall j :: 0 <= j < |gs| ==> t[j] == gs[j].(state := Inactive)
    ensures forall j :: 0 <= j < |gs| ==> (Hits(t[j], current, hits) <==> Hits(gs[j], current, hits))
    ensures forall j :: 0 <= j < |gs| ==> Contains(t[j], current, t[j].id in hits) != Err(NoPatch)
    ensures UniqueIds(gs) ==> UniqueIds(t)
  {
    assert forall j :: 0 <= j < |gs| ==> t[j].id == gs[j].id;
  }

  /** Where the first hit is at `i`: the hit gate, activated, is on top and
      the others follow, Inactive, in their order. */
  lemma TopHitFacts(gs: seq<Gate>, t: seq<Gate>, i: nat, current: Option<Channels>, hits: set<nat>)
    requires |t| == |gs| && i < |gs|
    requires forall j :: 0 <= j < |gs| ==> t[j] == gs[j].(state := Inactive)
    requires forall j :: 0 <= j < |gs| ==> (Hits(t[j], current, hits) <==> Hits(gs[j], current, hits))
    requires Hits(t[i], current, hits) && forall j :: 0 <= j < i ==> !Hits(t[j], current, hits)
    ensures var r := MoveToTop(t[i := Activate(t[i]).value], i);
            && r[0] == gs[i].(state := Active)
            && (forall j :: 0 <= j < |gs| && j != i ==> r[if j < i then j + 1 else j] == gs[j].(state := Inactive))
            && (forall k :: (0 <= k < |gs| && Hits(gs[k], current, hits)
                             && forall j :: 0 <= j < k ==> !Hits(gs[j], current, hits)) ==> k == i)
            && (UniqueIds(gs) ==> UniqueIds(r))
  {
    var t' := t[i := Activate(t[i]).value];
    assert t'[i] == gs[i].(state := Active);
    if UniqueIds(gs) {
      assert forall a, b :: 0 <= a < b < |t'| ==> t'[a].id == gs[a].id && t'[b].id == gs[b].id;
    }
  }

  lemma BehindTopInactive(gs: seq<Gate>, r: seq<Gate>, i: nat)
    requires |r| == |gs| && i < |gs|
    requires forall j :: 0 <= j < |gs| && j != i ==>
               r[if j < i then j + 1 else j] == gs[j].(state := Inactive)
    ensures forall j :: 0 < j < |r| ==> r[j].state == Inactive
  {
    forall j | 0 < j < |r|
      ensures r[j].state == Inactive
    {
      var j' := if j <= i then j - 1 else j;
      assert r[if j' < i then j' + 1 else j'] == gs[j'].(state := Inactive);
    }
  }

  // ---------------------------------------------------------------------
  // Where the two versions part

  /** Two quadrant gates drawn on the displayed channel pair, the gate
      numbered 1 above the gate numbered 2. */
  function TwoGates(): seq<Gate>
  {
    [NewQuadGate(1, ["FSC-A", "SSC-A"], Geometry.Point(0.0, 0.0)),
     NewQuadGate(2, ["FSC-A", "SSC-A"], Geometry.Point(1.0, 1.0))]
  }

  lemma InactivateTwo(gs: seq<Gate>)
    requires |gs| == 2 && gs[0].patch && gs[1].patch
    ensures InactivateAllGates(gs) == Returned([gs[0].(state := Inactive), gs[1].(state := Inactive)])
  {
    var t := InactivateAllGates(gs);
    assert t.Returned?;
    assert t.value[0] == gs[0].(state := Inactive) && t.value[1] == gs[1].(state := Inactive);
    assert t.value == [gs[0].(state := Inactive), gs[1].(state := Inactive)];
  }

  /** A press that hits both gates. As written, both end Active and the lower
      gate ends on top; corrected, only the upper gate is Active and the
      order is kept. */
  lemma PressOnTwoGates()
    ensures var gs := TwoGates();
            SelectAsWritten(gs, Some(["FSC-A", "SSC-A"]), {1, 2})
              == Returned([gs[1].(state := Active), gs[0].(state := Active)])
    ensures var gs := TwoGates();
            SelectFirstHit(gs, Some(["FSC-A", "SSC-A"]), {1, 2})
              == Returned([gs[0].(state := Active), gs[1].(state := Inactive)])
  {
    var gs := TwoGates();
    var cur := Some(["FSC-A", "SSC-A"]);
    var hits := {1, 2};
    var a0, b0 := gs[0].(state := Inactive), gs[1].(state := Inactive);
    InactivateTwo(gs);
    assert Hits(a0, cur, hits) && Hits(b0, cur, hits);
    VisitTwoHits(a0, b0, cur, hits);
    BringTopGateIsIdempotent([b0.(state := Active), a0.(state := Active)]);
    FirstOfTwoHit(gs[0], gs[1], cur, hits);
  }

  lemma FirstOfTwoHit(a: Gate, b: Gate, current: Option<Channels>, hits: set<nat>)
    requires a.patch && b.patch && Hits(a, current, hits)
    ensures SelectFirstHit([a, b], current, hits)
              == Returned([a.(state := Active), b.(state := Inactive)])
  {
    var r := SelectFirstHit([a, b], current, hits);
    assert r.Returned?;
    SelectTopHit([a, b], current, hits, 0);
    assert r.value[1] == b.(state := Inactive);
    assert r.value == [a.(state := Active), b.(state := Inactive)];
  }

  /** The loop over two distinct gates that the press both hits. */
  lemma VisitTwoHits(a: Gate, b: Gate, current: Option<Channels>, hits: set<nat>)
    requires a.id != b.id && Hits(a, current, hits) && Hits(b, current, hits)
    ensures VisitFrom([a, b], 0, a.id, current, hits)
              == Returned(([b.(state := Active), a.(state := Active)], b.id))
  {
    var a1 := a.(state := Active);
    assert [a, b][0 := a1] == [a1, b];
    BringTopGateIsIdempotent([a1, b]);
    assert VisitFrom([a, b], 0, a.id, current, hits) == VisitFrom([a1, b], 1, a.id, current, hits);
    VisitSecondOfTwo(a1, b, a.id, current, hits);
  }

  lemma VisitSecondOfTwo(a: Gate, b: Gate, last: nat, current: Option<Channels>, hits: set<nat>)
    requires a.id != b.id && Hits(b, current, hits)
    ensures VisitFrom([a, b], 1, last, current, hits) == Returned(([b.(state := Active), a], b.id))
  {
    var b1 := b.(state := Active);
    assert UniqueIds([a, b]);
    VisitHitUnfolds([a, b], 1, last, current, hits);
    assert [a, b][1 := b1] == [a, b1];
    MoveSecondToTop(a, b1);
    VisitEnd([b1, a], 2, b.id, current, hits);
  }

  /** Past the last index the loop stops with the list as it is. */
  lemma VisitEnd(L: seq<Gate>, i: nat, last: nat, current: Option<Channels>, hits: set<nat>)
    requires i >= |L|
    ensures VisitFrom(L, i, last, current, hits) == Returned((L, last))
  {
  }

  lemma MoveSecondToTop(a: Gate, b: Gate)
    ensures MoveToTop([a, b], 1) == [b, a]
  {
    assert [a, b][..1] == [a] && [a, b][2..] == [];
  }

  /** A press that hits nothing. As written, the lower gate is still brought
      to the top; corrected, the order is kept. */
  lemma {:induction false} PressBesideTwoGates()
    ensures var gs := TwoGates();
            SelectAsWritten(gs, Some(["FSC-A", "SSC-A"]), {})
              == Returned([gs[1].(state := Inactive), gs[0].(state := Inactive)])
    ensures var gs := TwoGates();
            SelectFirstHit(gs, Some(["FSC-A", "SSC-A"]), {})
              == Returned([gs[0].(state := Inactive), gs[1].(state := Inactive)])
  {
    var gs := TwoGates();
    var cur := Some(["FSC-A", "SSC-A"]);
    var hits: set<nat> := {};
    var a0, b0 := gs[0].(state := Inactive), gs[1].(state := Inactive);
    InactivateTwo(gs);
    assert !Hits(a0, cur, hits) && !Hits(b0, cur, hits);
    VisitTwoMisses(a0, b0, cur, hits);
    RaiseSecondOfTwo(a0, b0);
    SelectNoHit(gs, cur, hits);
  }

  /** The loop over two gates that the press misses, both drawn on the
      displayed pair: nothing moves, and the lower gate is visited last. */
  lemma VisitTwoMisses(a: Gate, b: Gate, current: Option<Channels>, hits: set<nat>)
    requires Contains(a, current, a.id in hits) == Ok(false)
    requires Contains(b, current, b.id in hits) == Ok(false)
    ensures VisitFrom([a, b], 0, a.id, current, hits) == Returned(([a, b], b.id))
  {
    assert VisitFrom([a, b], 0, a.id, current, hits) == VisitFrom([a, b], 1, a.id, current, hits);
    assert VisitFrom([a, b], 1, a.id, current, hits) == VisitFrom([a, b], 2, b.id, current, hits);
  }

  /** Raising the lower of two distinct gates swaps them. */
  lemma RaiseSecondOfTwo(a: Gate, b: Gate)
    requires a.id != b.id
    ensures BringGateToTopLayer([a, b], b.id) == Ok([b, a])
  {
    var r := IndexOf([a, b], b.id);
    assert [a, b][1].id == b.id && [a, b][0].id != b.id;
    assert r.Some? && r.value != 0;
    MoveSecondToTop(a, b);
  }
}
