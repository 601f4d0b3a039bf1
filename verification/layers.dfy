/** The keeper's ordered gate list: index 0 is the top layer. Gates are told
    apart by identity (`id`), as the list operations compare objects. */
module Layers {
  import opened Outcomes
  import opened Gates

  /** No two gates of the list are the same object. */
  predicate UniqueIds(gs: seq<Gate>)
  {
    forall i, j :: 0 <= i < j < |gs| ==> gs[i].id != gs[j].id
  }

  /** The first index whose gate satisfies `p`. */
  function FirstIndex(gs: seq<Gate>, p: Gate -> bool): (r: Option<nat>)
    ensures r.None? <==> forall i :: 0 <= i < |gs| ==> !p(gs[i])
    ensures r.Some? ==> r.value < |gs| && p(gs[r.value])
    ensures r.Some? ==> forall i :: 0 <= i < r.value ==> !p(gs[i])
    decreases |gs|
  {
    if |gs| == 0 then None
    else if p(gs[0]) then Some(0)
    else
      match FirstIndex(gs[1..], p)
      case None => None
      case Some(i) => Some(i + 1)
  }

  /** Where the gate with identity `id` sits, if it is in the list. */
  function IndexOf(gs: seq<Gate>, id: nat): (r: Option<nat>)
    ensures r.None? <==> forall i :: 0 <= i < |gs| ==> gs[i].id != id
    ensures r.Some? ==> r.value < |gs| && gs[r.value].id == id
    ensures r.Some? ==> forall i :: 0 <= i < r.value ==> gs[i].id != id
  {
    FirstIndex(gs, (g: Gate) => g.id == id)
  }

  /** The gates that are not the object `id`, in list order. */
  function Others(gs: seq<Gate>, id: nat): (r: seq<Gate>)
    decreases |gs|
  {
    if |gs| == 0 then []
    else if gs[0].id == id then Others(gs[1..], id)
    else [gs[0]] + Others(gs[1..], id)
  }

  lemma {:induction false} OthersAppend(a: seq<Gate>, b: seq<Gate>, id: nat)
    ensures Others(a + b, id) == Others(a, id) + Others(b, id)
    decreases |a|
  {
    if |a| == 0 {
      assert a + b == b;
    } else {
      assert (a + b)[0] == a[0];
      assert (a + b)[1..] == a[1..] + b;
      OthersAppend(a[1..], b, id);
    }
  }

  lemma {:induction false} OthersOfAbsent(a: seq<Gate>, id: nat)
    requires forall i :: 0 <= i < |a| ==> a[i].id != id
    ensures Others(a, id) == a
    decreases |a|
  {
    if |a| > 0 {
      OthersOfAbsent(a[1..], id);
    }
  }

  /** `add_gate`: the new gate goes on the top layer, above all the others,
      whose order is kept. */
  function AddGate(gs: seq<Gate>, g: Gate): (r: seq<Gate>)
    ensures |r| == |gs| + 1 && r[0] == g
    ensures multiset(r) == multiset(gs) + multiset{g}
    ensures Others(r, g.id) == Others(gs, g.id)
    ensures (forall i :: 0 <= i < |gs| ==> gs[i].id != g.id) ==> Others(r, g.id) == gs
    ensures UniqueIds(gs) && (forall i :: 0 <= i < |gs| ==> gs[i].id != g.id) ==> UniqueIds(r)
  {
    AddGateFacts(gs, g);
    [g] + gs
  }

  lemma AddGateFacts(gs: seq<Gate>, g: Gate)
    ensures (forall i :: 0 <= i < |gs| ==> gs[i].id != g.id) ==> Others(gs, g.id) == gs
  {
    if forall i :: 0 <= i < |gs| ==> gs[i].id != g.id {
      OthersOfAbsent(gs, g.id);
    }
  }

  /** Takes the gate at index `i` out and puts it on top. */
  function MoveToTop(gs: seq<Gate>, i: nat): (r: seq<Gate>)
    requires i < |gs|
    ensures |r| == |gs| && r[0] == gs[i]
    ensures multiset(r) == multiset(gs)
    ensures Others(r, gs[i].id) == Others(gs, gs[i].id)
    ensures forall j :: 0 <= j < |gs| && j != i ==> r[if j < i then j + 1 else j] == gs[j]
    ensures UniqueIds(gs) ==> UniqueIds(r)
  {
    MoveToTopFacts(gs, i);
    [gs[i]] + gs[..i] + gs[i + 1..]
  }

  lemma MoveToTopFacts(gs: seq<Gate>, i: nat)
    requires i < |gs|
    ensures var r := [gs[i]] + gs[..i] + gs[i + 1..];
            && Others(r, gs[i].id) == Others(gs, gs[i].id)
            && multiset(r) == multiset(gs)
            && (UniqueIds(gs) ==> UniqueIds(r))
  {
    assert gs == gs[..i] + [gs[i]] + gs[i + 1..];
    OthersSkip(gs[..i], gs[i], gs[i + 1..], gs[i].id);
    if UniqueIds(gs) {
      MoveToTopUnique(gs, i);
    }
  }

  /** Dropping the gates of one identity does not see where that gate was. */
  lemma OthersSkip(a: seq<Gate>, x: Gate, c: seq<Gate>, id: nat)
    requires x.id == id
    ensures Others(a + [x] + c, id) == Others(a + c, id)
    ensures Others([x] + a + c, id) == Others(a + c, id)
  {
    assert [x][1..] == [];
    assert Others([x], id) == [];
    OthersAppend(a + [x], c, id);
    OthersAppend(a, [x], id);
    OthersAppend(a, c, id);
    OthersAppend([x] + a, c, id);
    OthersAppend([x], a, id);
  }

  lemma MoveToTopUnique(gs: seq<Gate>, i: nat)
    requires i < |gs| && UniqueIds(gs)
    ensures UniqueIds([gs[i]] + gs[..i] + gs[i + 1..])
  {
    var r := [gs[i]] + gs[..i] + gs[i + 1..];
    forall a, b | 0 <= a < b < |r|
      ensures r[a].id != r[b].id
    {
      var a' := if a == 0 then i else if a <= i then a - 1 else a;
      var b' := if b == 0 then i else if b <= i then b - 1 else b;
      assert r[a] == gs[a'] && r[b] == gs[b'] && a' != b';
    }
  }

  /** `bring_gate_to_top_layer`: the gate moves to the top and the others keep
      their order; removing a gate that is not listed raises. */
  function BringGateToTopLayer(gs: seq<Gate>, id: nat): (r: Result<seq<Gate>>)
    ensures r.Err? <==> forall i :: 0 <= i < |gs| ==> gs[i].id != id
    ensures r.Err? ==> r.fault == NotInList
    ensures r.Ok? ==> |r.value| == |gs| && r.value[0].id == id
    ensures r.Ok? ==> multiset(r.value) == multiset(gs)
    ensures r.Ok? ==> Others(r.value, id) == Others(gs, id)
    ensures r.Ok? && UniqueIds(gs) ==> UniqueIds(r.value)
  {
    match IndexOf(gs, id)
    case None => Err(NotInList)
    case Some(i) => Ok(MoveToTop(gs, i))
  }

  /** Bringing the top gate to the top changes nothing. */
  lemma BringTopGateIsIdempotent(gs: seq<Gate>)
    requires |gs| > 0
    ensures BringGateToTopLayer(gs, gs[0].id) == Ok(gs)
  {
    assert [gs[0]] + gs[..0] + gs[1..] == gs;
  }

  /** With identities unique, the gates below the one brought up are exactly
      the rest of the list, in its order. */
  lemma BringToTopKeepsOthers(gs: seq<Gate>, id: nat)
    requires UniqueIds(gs)
    ensures BringGateToTopLayer(gs, id).Ok? ==>
              BringGateToTopLayer(gs, id).value[1..] == Others(gs, id)
  {
    if IndexOf(gs, id).Some? {
      var i := IndexOf(gs, id).value;
      RemoveAtUnique(gs, i);
      var r := MoveToTop(gs, i);
      assert r == [gs[i]] + (gs[..i] + gs[i + 1..]);
      assert r[1..] == gs[..i] + gs[i + 1..];
    }
  }

  /** `GateKeeper.remove_gate`: drops the gate from the list; removing a gate
      that is not listed raises. */
  function RemoveGate(gs: seq<Gate>, id: nat): (r: Result<seq<Gate>>)
    ensures r.Err? <==> forall i :: 0 <= i < |gs| ==> gs[i].id != id
    ensures r.Err? ==> r.fault == NotInList
    ensures r.Ok? ==> |r.value| == |gs| - 1
    ensures r.Ok? ==> Others(r.value, id) == Others(gs, id)
    ensures r.Ok? ==> exists i :: 0 <= i < |gs| && gs[i].id == id
                                  && multiset(r.value) + multiset{gs[i]} == multiset(gs)
    ensures r.Ok? && UniqueIds(gs) ==> r.value == Others(gs, id) && UniqueIds(r.value)
  {
    match IndexOf(gs, id)
    case None => Err(NotInList)
    case Some(i) =>
      RemoveAtFacts(gs, i);
      Ok(gs[..i] + gs[i + 1..])
  }

  lemma RemoveAtFacts(gs: seq<Gate>, i: nat)
    requires i < |gs|
    requires forall j :: 0 <= j < i ==> gs[j].id != gs[i].id
    ensures var r := gs[..i] + gs[i + 1..];
            && Others(r, gs[i].id) == Others(gs, gs[i].id)
            && multiset(r) + multiset{gs[i]} == multiset(gs)
            && (UniqueIds(gs) ==> r == Others(gs, gs[i].id) && UniqueIds(r))
  {
    assert gs == gs[..i] + [gs[i]] + gs[i + 1..];
    OthersSkip(gs[..i], gs[i], gs[i + 1..], gs[i].id);
    if UniqueIds(gs) {
      RemoveAtUnique(gs, i);
    }
  }

  lemma RemoveAtUnique(gs: seq<Gate>, i: nat)
    requires i < |gs| && UniqueIds(gs)
    ensures var r := gs[..i] + gs[i + 1..];
            r == Others(gs, gs[i].id) && UniqueIds(r)
  {
    var id := gs[i].id;
    var r := gs[..i] + gs[i + 1..];
    assert gs == gs[..i] + [gs[i]] + gs[i + 1..];
    OthersSkip(gs[..i], gs[i], gs[i + 1..], id);
    OthersAppend(gs[..i], gs[i + 1..], id);
    OthersOfAbsent(gs[..i], id);
    OthersOfAbsent(gs[i + 1..], id);
    forall a, b | 0 <= a < b < |r|
      ensures r[a].id != r[b].id
    {
      var a' := if a < i then a else a + 1;
      var b' := if b < i then b else b + 1;
      assert r[a] == gs[a'] && r[b] == gs[b'] && a' < b';
    }
  }

  /** `get_active_gate`: the first Active gate in list order, if any. */
  function GetActiveGate(gs: seq<Gate>): (r: Option<nat>)
    ensures r.None? <==> forall i :: 0 <= i < |gs| ==> !IsActive(gs[i])
    ensures r.Some? ==> r.value < |gs| && IsActive(gs[r.value])
    ensures r.Some? ==> forall i :: 0 <= i < r.value ==> !IsActive(gs[i])
  {
    FirstIndex(gs, (g: Gate) => IsActive(g))
  }

  /** The first gate on which `f` raises. */
  function FirstRaising(gs: seq<Gate>, f: Gate -> Outcome<Gate>): (r: Option<nat>)
    ensures r.None? <==> forall i :: 0 <= i < |gs| ==> f(gs[i]).Returned?
    ensures r.Some? ==> r.value < |gs| && f(gs[r.value]).Raised?
    ensures r.Some? ==> forall i :: 0 <= i < r.value ==> f(gs[i]).Returned?
  {
    FirstIndex(gs, (g: Gate) => f(g).Raised?)
  }

  /** Applies a gate operation to every gate in list order. The loop stops at
      the first gate on which it raises: the gates before it and that gate
      itself are updated, the later ones are left as they were. */
  function ForEach(gs: seq<Gate>, f: Gate -> Outcome<Gate>): (r: Outcome<seq<Gate>>)
    ensures |r.value| == |gs|
    ensures r.Returned? <==> FirstRaising(gs, f).None?
    ensures r.Returned? ==> forall i :: 0 <= i < |gs| ==> r.value[i] == f(gs[i]).value
    ensures r.Raised? ==>
              var j := FirstRaising(gs, f).value;
              && r.fault == f(gs[j]).fault
              && (forall i :: 0 <= i <= j ==> r.value[i] == f(gs[i]).value)
              && (forall i :: j < i < |gs| ==> r.value[i] == gs[i])
    decreases |gs|
  {
    if |gs| == 0 then Returned([])
    else if f(gs[0]).Raised? then
      ForEachHeadRaises(gs, f);
      Raised([f(gs[0]).value] + gs[1..], f(gs[0]).fault)
    else
      var tail := ForEach(gs[1..], f);
      ForEachCons(gs, f, tail);
      if tail.Returned? then Returned([f(gs[0]).value] + tail.value)
      else Raised([f(gs[0]).value] + tail.value, tail.fault)
  }

  /** What `ForEach` promises about its result `r`. */
  predicate AppliedInOrder(gs: seq<Gate>, f: Gate -> Outcome<Gate>, r: Outcome<seq<Gate>>)
  {
    && |r.value| == |gs|
    && (r.Returned? <==> FirstRaising(gs, f).None?)
    && (r.Returned? ==> forall i :: 0 <= i < |gs| ==> r.value[i] == f(gs[i]).value)
    && (r.Raised? ==>
          var j := FirstRaising(gs, f).value;
          && r.fault == f(gs[j]).fault
          && (forall i :: 0 <= i <= j ==> r.value[i] == f(gs[i]).value)
          && (forall i :: j < i < |gs| ==> r.value[i] == gs[i]))
  }

  /** A head that raises stops the loop there. */
  lemma ForEachHeadRaises(gs: seq<Gate>, f: Gate -> Outcome<Gate>)
    requires |gs| > 0 && f(gs[0]).Raised?
    ensures AppliedInOrder(gs, f, Raised([f(gs[0]).value] + gs[1..], f(gs[0]).fault))
  {
    FirstRaisingCons(gs, f);
  }

  /** A head that returns is followed by the loop over the tail. */
  lemma ForEachCons(gs: seq<Gate>, f: Gate -> Outcome<Gate>, tail: Outcome<seq<Gate>>)
    requires |gs| > 0 && f(gs[0]).Returned?
    requires AppliedInOrder(gs[1..], f, tail)
    ensures AppliedInOrder(gs, f, if tail.Returned? then Returned([f(gs[0]).value] + tail.value)
                                  else Raised([f(gs[0]).value] + tail.value, tail.fault))
  {
    FirstRaisingCons(gs, f);
    if tail.Returned? {
      ForEachConsReturned(gs, f, tail.value);
    } else {
      ForEachConsRaised(gs, f, tail.value, tail.fault);
    }
  }

  lemma ForEachConsReturned(gs: seq<Gate>, f: Gate -> Outcome<Gate>, rest: seq<Gate>)
    requires |gs| > 0 && |rest| == |gs| - 1
    requires forall i :: 0 <= i < |rest| ==> rest[i] == f(gs[1..][i]).value
    ensures forall i :: 0 <= i < |gs| ==> ([f(gs[0]).value] + rest)[i] == f(gs[i]).value
  {
    var r := [f(gs[0]).value] + rest;
    forall i | 0 <= i < |gs|
      ensures r[i] == f(gs[i]).value
    {
      if i > 0 {
        assert r[i] == rest[i - 1] && gs[1..][i - 1] == gs[i];
      }
    }
  }

  lemma ForEachConsRaised(gs: seq<Gate>, f: Gate -> Outcome<Gate>, rest: seq<Gate>, fault: Fault)
    requires |gs| > 0 && f(gs[0]).Returned? && |rest| == |gs| - 1
    requires FirstRaising(gs[1..], f).Some?
    requires var j := FirstRaising(gs[1..], f).value;
             && fault == f(gs[1..][j]).fault
             && (forall i :: 0 <= i <= j ==> rest[i] == f(gs[1..][i]).value)
             && (forall i :: j < i < |gs| - 1 ==> rest[i] == gs[1..][i])
    ensures AppliedInOrder(gs, f, Raised([f(gs[0]).value] + rest, fault))
  {
    FirstRaisingCons(gs, f);
    var j := FirstRaising(gs[1..], f).value;
    var r := [f(gs[0]).value] + rest;
    forall i | 0 <= i <= j + 1
      ensures r[i] == f(gs[i]).value
    {
      if i > 0 {
        assert r[i] == rest[i - 1] && gs[1..][i - 1] == gs[i];
      }
    }
    forall i | j + 1 < i < |gs|
      ensures r[i] == gs[i]
    {
      assert r[i] == rest[i - 1] && gs[1..][i - 1] == gs[i];
    }
  }

  /** The first raising gate is the head, or the first raising gate of the
      tail one index further down. */
  lemma FirstRaisingCons(gs: seq<Gate>, f: Gate -> Outcome<Gate>)
    requires |gs| > 0
    ensures f(gs[0]).Raised? ==> FirstRaising(gs, f) == Some(0)
    ensures f(gs[0]).Returned? ==>
              FirstRaising(gs, f) == (match FirstRaising(gs[1..], f)
                                      case None => None
                                      case Some(i) => Some(i + 1))
  {
  }

  /** `inactivate_all_gates`: every gate becomes Inactive; a gate whose
      artists are missing raises after its state was set, and the later gates
      are left alone. */
  function InactivateAllGates(gs: seq<Gate>): (r: Outcome<seq<Gate>>)
    ensures |r.value| == |gs|
    ensures r.Returned? <==> forall i :: 0 <= i < |gs| ==> gs[i].patch
    ensures r.Returned? ==> forall i :: 0 <= i < |gs| ==> r.value[i] == gs[i].(state := Inactive)
    ensures r.Raised? ==>
              var j := FirstIndex(gs, (g: Gate) => !g.patch).value;
              && r.fault == NoPatch
              && (forall i :: 0 <= i <= j ==> r.value[i] == gs[i].(state := Inactive))
              && (forall i :: j < i < |gs| ==> r.value[i] == gs[i])
  {
    FirstIndexSamePredicate(gs, (g: Gate) => Inactivate(g).Raised?, (g: Gate) => !g.patch);
    ForEach(gs, Inactivate)
  }

  /** Two predicates that agree on every gate find the same first index. */
  lemma {:induction false} FirstIndexSamePredicate(gs: seq<Gate>, p: Gate -> bool, q: Gate -> bool)
    requires forall g :: p(g) == q(g)
    ensures FirstIndex(gs, p) == FirstIndex(gs, q)
    decreases |gs|
  {
    if |gs| > 0 {
      FirstIndexSamePredicate(gs[1..], p, q);
    }
  }

  /** Whether a gate is shown when `current` is the displayed channel pair. */
  predicate ShownOn(g: Gate, current: Option<Channels>)
  {
    current == Some(g.channels)
  }

  /** `show_visible_gates`: a gate is shown exactly when it is drawn on the
      displayed channel pair and hidden otherwise; showing re-activates it.
      No gate is removed, reordered, or has its vertices changed. */
  function ShowVisibleGates(gs: seq<Gate>, current: Option<Channels>): (r: Outcome<seq<Gate>>)
    ensures |r.value| == |gs|
    ensures forall i :: 0 <= i < |gs| ==>
              r.value[i].(state := gs[i].state, visible := gs[i].visible) == gs[i]
    ensures r.Returned? <==> forall i :: 0 <= i < |gs| ==> gs[i].patch
    ensures r.Returned? ==> forall i :: 0 <= i < |gs| ==>
              && (r.value[i].visible <==> ShownOn(gs[i], current))
              && r.value[i].state == (if ShownOn(gs[i], current) && gs[i].state in {Active, Inactive}
                                      then Active else gs[i].state)
    ensures forall i :: 0 <= i < |gs| && WellFormed(gs[i]) ==> WellFormed(r.value[i])
  {
    var f := (g: Gate) => SetVisible(g, ShownOn(g, current));
    FirstIndexSamePredicate(gs, (g: Gate) => f(g).Raised?, (g: Gate) => !g.patch);
    ForEach(gs, f)
  }
}
