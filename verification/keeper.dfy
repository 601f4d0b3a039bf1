/** The gate keeper: the ordered list of gates, the channel pair on display
    and the keeper's mode, with the handlers the canvas calls on it.

    The canvas delivers every press and key to the keeper and, separately, to
    every connected gate; gates also hear motions and releases, which the
    keeper does not (its motion handler is never subscribed). `Deliver` is the
    route to the gates, one gate at a time. The order in which the canvas
    calls the subscribers is not modelled. */
module Keeper {
  import opened Outcomes
  import opened Geometry
  import opened Gates
  import opened Layers
  import opened Selection

  /** What the keeper is doing; the title of the plot shows it. */
  datatype Mode =
    | Waiting
    | StartDrawing
    | KeepDrawing
    | StartDrawingQuadGate
    | DeleteGate
    | Quitting

  datatype Keeper = Keeper(
    gates: seq<Gate>,           // index 0 is the top layer
    current: Option<Channels>,  // the channel pair on display, None before one is chosen
    mode: Mode,
    nextId: nat)                // the identity the next gate built will get

  /** An identity no gate of the list has. */
  function FreshId(gs: seq<Gate>): (n: nat)
    ensures forall j :: 0 <= j < |gs| ==> gs[j].id < n
    decreases |gs|
  {
    if |gs| == 0 then 0
    else
      var m := FreshId(gs[1..]);
      assert forall j :: 1 <= j < |gs| ==> gs[j] == gs[1..][j - 1];
      if gs[0].id < m then m else gs[0].id + 1
  }

  /** A keeper over an initial gate list: no channel pair yet, waiting. */
  function NewKeeper(gs: seq<Gate>): (k: Keeper)
    ensures k.gates == gs && k.current == None && k.mode == Waiting
    ensures UniqueIds(gs) && (forall j :: 0 <= j < |gs| ==> WellFormed(gs[j])) ==> Valid(k)
  {
    Keeper(gs, None, Waiting, FreshId(gs))
  }

  /** Every listed gate is well formed and was numbered before `next`. */
  predicate AllGood(gs: seq<Gate>, next: nat)
  {
    forall j :: 0 <= j < |gs| ==> gs[j].id < next && WellFormed(gs[j])
  }

  /** The keeper's invariant: distinct gates, each well formed, none numbered
      at or after the next identity. */
  predicate Valid(k: Keeper)
  {
    UniqueIds(k.gates) && AllGood(k.gates, k.nextId)
  }

  function WithGates(k: Keeper, o: Outcome<seq<Gate>>): (r: Outcome<Keeper>)
    ensures r.value == k.(gates := o.value)
    ensures r.Raised? <==> o.Raised?
    ensures r.Raised? ==> r.fault == o.fault
  {
    match o
    case Returned(gs) => Returned(k.(gates := gs))
    case Raised(gs, f) => Raised(k.(gates := gs), f)
  }

  // ---------------------------------------------------------------------
  // Building gates

  /** A polygon gate is built with the displayed channels; before a channel
      pair is chosen, building one raises and nothing is numbered. */
  function BuildPolygonGate(k: Keeper): (r: Result<Gate>)
    ensures r.Err? <==> k.current.None?
    ensures r.Err? ==> r.fault == NoChannels
    ensures r.Ok? ==> r.value == NewPolygonGate(k.nextId, k.current.value) && WellFormed(r.value)
  {
    match k.current
    case None => Err(NoChannels)
    case Some(ch) => Ok(NewPolygonGate(k.nextId, ch))
  }

  /** A quadrant gate is built the same way, centred on the press. */
  function BuildQuadGate(k: Keeper, centre: Point): (r: Result<Gate>)
    ensures r.Err? <==> k.current.None?
    ensures r.Err? ==> r.fault == NoChannels
    ensures r.Ok? ==> r.value == NewQuadGate(k.nextId, k.current.value, centre) && WellFormed(r.value)
  {
    match k.current
    case None => Err(NoChannels)
    case Some(ch) => Ok(NewQuadGate(k.nextId, ch, centre))
  }

  // ---------------------------------------------------------------------
  // The keeper's handlers

  /** `on_mouse_press` of the keeper. Waiting, it selects the topmost gate the
      press hits (`hits` holds the gates whose control artist the canvas
      finds under the pointer); asked to start drawing, it inactivates every
      gate, puts a new polygon gate on top and hands it the press; asked to
      place a quadrant gate, it puts one on top centred on the press. */
  function OnMousePress(k: Keeper, pos: Point, button: int, inAxes: bool, hits: set<nat>): (r: Outcome<Keeper>)
    ensures r.value.current == k.current
    ensures k.mode !in {Waiting, StartDrawing, StartDrawingQuadGate} ==> r == Returned(k)
    ensures k.mode == Waiting ==>
              r == WithGates(k, if |k.gates| == 0 then Returned(k.gates)
                                else SelectFirstHit(k.gates, k.current, hits))
    ensures k.mode == StartDrawing ==> r == StartPolygon(k, pos, button, inAxes)
    ensures k.mode == StartDrawingQuadGate ==> r == PlaceQuadGate(k, pos)
  {
    match k.mode
    case Waiting =>
      if |k.gates| == 0 then Returned(k)
      else WithGates(k, SelectFirstHit(k.gates, k.current, hits))
    case StartDrawing => StartPolygon(k, pos, button, inAxes)
    case StartDrawingQuadGate => PlaceQuadGate(k, pos)
    case _ => Returned(k)
  }

  /** A press while asked to start drawing: every gate is inactivated, a
      new polygon gate goes on top and receives the press, and the keeper
      keeps drawing unless one of these steps raised. */
  function StartPolygon(k: Keeper, pos: Point, button: int, inAxes: bool): (r: Outcome<Keeper>)
    ensures r.value.current == k.current
    ensures k.current.None? ==> r.Raised?
    ensures r.Returned? ==>
              && r.value.mode == KeepDrawing
              && |r.value.gates| == |k.gates| + 1
              && r.value.gates[0].id == k.nextId && r.value.nextId == k.nextId + 1
              && r.value.gates[1..] == InactivateAllGates(k.gates).value
  {
    match InactivateAllGates(k.gates)
    case Raised(t, f) => Raised(k.(gates := t), f)
    case Returned(t) =>
      match BuildPolygonGate(k)
      case Err(f) => Raised(k.(gates := t), f)
      case Ok(g) =>
        var o := Handle(g, Press(pos, button, inAxes), k.current, false);
        var k' := k.(gates := AddGate(t, o.value.gate), nextId := k.nextId + 1);
        if o.Raised? then Raised(k', o.fault) else Returned(k'.(mode := KeepDrawing))
  }

  /** A press while asked to place a quadrant gate: every gate is
      inactivated, a new quadrant gate centred on the press goes on top, and
      the keeper waits again. */
  function PlaceQuadGate(k: Keeper, pos: Point): (r: Outcome<Keeper>)
    ensures r.value.current == k.current
    ensures r.Returned? <==> k.current.Some? && InactivateAllGates(k.gates).Returned?
    ensures r.Returned? ==>
              && r.value.mode == Waiting
              && r.value.gates == [NewQuadGate(k.nextId, k.current.value, pos)]
                                  + InactivateAllGates(k.gates).value
              && r.value.nextId == k.nextId + 1
  {
    match InactivateAllGates(k.gates)
    case Raised(t, f) => Raised(k.(gates := t), f)
    case Returned(t) =>
      match BuildQuadGate(k, pos)
      case Err(f) => Raised(k.(gates := t), f)
      case Ok(g) => Returned(k.(gates := AddGate(t, g), nextId := k.nextId + 1, mode := Waiting))
  }

  /** `on_keyboard_press` of the keeper: `c` starts drawing a polygon gate;
      any other key leaves the keeper alone. */
  function OnKeyboardPress(k: Keeper, key: string): (r: Keeper)
    ensures r.gates == k.gates && r.current == k.current && r.nextId == k.nextId
    ensures r.mode == (if key == "c" then StartDrawing else k.mode)
  {
    if key == "c" then k.(mode := StartDrawing) else k
  }

  /** `Filter.remove_gate` as the keeper's delete mode calls it: the gate
      disconnects, removes its artists (which must exist) and is dropped from
      the list. */
  function DisposeAt(gs: seq<Gate>, i: nat): (r: Outcome<seq<Gate>>)
    requires i < |gs|
    ensures r.Returned? <==> gs[i].patch
    ensures r.Raised? ==> r.fault == NoPatch && r.value == gs[i := gs[i].(connected := false)]
    ensures r.Returned? && UniqueIds(gs) ==> r.value == gs[..i] + gs[i + 1..] && UniqueIds(r.value)
  {
    var gs' := gs[i := Dispose(gs[i]).value.gate];
    if !gs[i].patch then Raised(gs', NoPatch)
    else
      assert gs'[i].id == gs[i].id;
      match RemoveGate(gs', gs[i].id)
      case Err(f) => Raised(gs', f)
      case Ok(r) => RemovedFacts(gs, i, gs'[i]); Returned(r)
  }

  /** `set_state` of the keeper. Asked to delete, it removes the first Active
      gate in list order, if there is one, and waits again; when removing
      raises, the mode is left as it was. Any other mode is simply set. */
  function SetState(k: Keeper, m: Mode): (r: Outcome<Keeper>)
    ensures m != DeleteGate ==> r == Returned(k.(mode := m))
    ensures r.value.current == k.current && r.value.nextId == k.nextId
    ensures r.Returned? ==> r.value.mode == if m == DeleteGate then Waiting else m
    ensures r.Raised? ==> r.value.mode == k.mode
  {
    if m == DeleteGate then
      match GetActiveGate(k.gates)
      case None => Returned(k.(mode := Waiting))
      case Some(i) =>
        match DisposeAt(k.gates, i)
        case Raised(gs, f) => Raised(k.(gates := gs), f)
        case Returned(gs) => Returned(k.(gates := gs, mode := Waiting))
    else Returned(k.(mode := m))
  }

  /** `show_visible_gates` on the keeper's channel pair. */
  function ShowVisible(k: Keeper): (r: Outcome<Keeper>)
    ensures r.value.current == k.current && r.value.mode == k.mode && r.value.nextId == k.nextId
    ensures r.value.gates == ShowVisibleGates(k.gates, k.current).value
  {
    WithGates(k, ShowVisibleGates(k.gates, k.current))
  }

  /** An event reaching gate `i` through its own subscription. A gate that
      disconnected hears nothing. A gate that finished drawing puts the
      keeper back to waiting; a gate that removed itself is dropped. */
  function Deliver(k: Keeper, i: nat, ev: Event, hit: bool): (r: Outcome<Keeper>)
    requires i < |k.gates|
    ensures !k.gates[i].connected ==> r == Returned(k)
    ensures r.value.current == k.current && r.value.nextId == k.nextId
    ensures r.Returned? && k.gates[i].connected ==>
              var o := Handle(k.gates[i], ev, k.current, hit);
              && r.value.mode == (if o.value.request == DrawingFinished then Waiting else k.mode)
              && (o.value.request == RemoveMe ==>
                    UniqueIds(k.gates) ==> r.value.gates == k.gates[..i] + k.gates[i + 1..])
              && (o.value.request != RemoveMe ==> r.value.gates == k.gates[i := o.value.gate])
  {
    var g := k.gates[i];
    if !g.connected then Returned(k)
    else
      var o := Handle(g, ev, k.current, hit);
      var gs := k.gates[i := o.value.gate];
      if o.Raised? then Raised(k.(gates := gs), o.fault)
      else
        match o.value.request
        case NoRequest => Returned(k.(gates := gs))
        case DrawingFinished => Returned(k.(gates := gs, mode := Waiting))
        case RemoveMe =>
          assert gs[i].id == g.id;
          match RemoveGate(gs, g.id)
          case Err(f) => Raised(k.(gates := gs), f)
          case Ok(rest) =>
            RemovedFacts(k.gates, i, o.value.gate);
            Returned(k.(gates := rest))
  }

  /** Removing a changed copy of gate `i` removes gate `i`. */
  lemma RemovedFacts(gs: seq<Gate>, i: nat, g: Gate)
    requires i < |gs| && g.id == gs[i].id
    ensures UniqueIds(gs) ==> RemoveGate(gs[i := g], g.id) == Ok(gs[..i] + gs[i + 1..])
  {
    var gs' := gs[i := g];
    if UniqueIds(gs) {
      assert forall j :: 0 <= j < |gs| ==> gs'[j].id == gs[j].id;
      assert IndexOf(gs', g.id) == Some(i);
      assert gs'[..i] == gs[..i] && gs'[i + 1..] == gs[i + 1..];
    }
  }

  // ---------------------------------------------------------------------
  // The keeper's invariant

  /** Gates taken from a good list form a good list. */
  lemma SubmultisetGood(a: seq<Gate>, b: seq<Gate>, n: nat)
    requires multiset(b) <= multiset(a) && AllGood(a, n)
    ensures AllGood(b, n)
  {
    forall j | 0 <= j < |b|
      ensures b[j] in a
    {
      assert b[j] in multiset(b);
    }
  }

  /** Restyling gates in place keeps a list good and its identities distinct. */
  lemma RestyledGood(gs: seq<Gate>, r: seq<Gate>, n: nat)
    requires |r| == |gs| && AllGood(gs, n)
    requires forall j :: 0 <= j < |gs| ==>
               r[j] == gs[j] || r[j] == gs[j].(state := Inactive) || r[j] == gs[j].(state := Active)
    ensures AllGood(r, n)
    ensures UniqueIds(gs) ==> UniqueIds(r)
  {
    assert forall j :: 0 <= j < |gs| ==> r[j].id == gs[j].id;
  }

  lemma InactivateAllGood(gs: seq<Gate>, n: nat)
    requires AllGood(gs, n)
    ensures AllGood(InactivateAllGates(gs).value, n)
    ensures UniqueIds(gs) ==> UniqueIds(InactivateAllGates(gs).value)
  {
    RestyledGood(gs, InactivateAllGates(gs).value, n);
  }

  lemma SelectGood(gs: seq<Gate>, current: Option<Channels>, hits: set<nat>, n: nat)
    requires AllGood(gs, n)
    ensures AllGood(SelectFirstHit(gs, current, hits).value, n)
  {
    InactivateAllGood(gs, n);
    var t := InactivateAllGates(gs);
    if t.Returned? {
      match FirstHit(t.value, current, hits)
      case Err(_) =>
      case Ok(None) =>
      case Ok(Some(i)) => RaisedToTopGood(t.value, i, n);
    }
  }

  lemma RaisedToTopGood(t: seq<Gate>, i: nat, n: nat)
    requires i < |t| && AllGood(t, n)
    ensures AllGood(MoveToTop(t[i := Activate(t[i]).value], i), n)
  {
    var t' := t[i := Activate(t[i]).value];
    RestyledGood(t, t', n);
    SubmultisetGood(t', MoveToTop(t', i), n);
  }

  lemma PressKeepsValid(k: Keeper, pos: Point, button: int, inAxes: bool, hits: set<nat>)
    requires Valid(k)
    ensures Valid(OnMousePress(k, pos, button, inAxes, hits).value)
  {
    match k.mode
    case Waiting => SelectGood(k.gates, k.current, hits, k.nextId);
    case StartDrawing => StartPolygonKeepsValid(k, pos, button, inAxes);
    case StartDrawingQuadGate => PlaceQuadGateKeepsValid(k, pos);
    case _ =>
  }

  lemma StartPolygonKeepsValid(k: Keeper, pos: Point, button: int, inAxes: bool)
    requires Valid(k)
    ensures Valid(StartPolygon(k, pos, button, inAxes).value)
  {
    InactivateAllGood(k.gates, k.nextId);
    if k.current.Some? {
      var t := InactivateAllGates(k.gates).value;
      var g := NewPolygonGate(k.nextId, k.current.value);
      var g' := Handle(g, Press(pos, button, inAxes), k.current, false).value.gate;
      AddedGood(t, g', k.nextId);
    }
  }

  lemma PlaceQuadGateKeepsValid(k: Keeper, pos: Point)
    requires Valid(k)
    ensures Valid(PlaceQuadGate(k, pos).value)
  {
    InactivateAllGood(k.gates, k.nextId);
    if k.current.Some? {
      AddedGood(InactivateAllGates(k.gates).value, NewQuadGate(k.nextId, k.current.value, pos), k.nextId);
    }
  }

  /** A new well-formed gate numbered `n` on top of a good list numbered
      below `n` gives a good list numbered below `n + 1`. */
  lemma AddedGood(gs: seq<Gate>, g: Gate, n: nat)
    requires AllGood(gs, n) && g.id == n && WellFormed(g)
    ensures AllGood(AddGate(gs, g), n + 1)
    ensures UniqueIds(gs) ==> UniqueIds(AddGate(gs, g))
  {
    var r := AddGate(gs, g);
    assert forall j :: 1 <= j < |r| ==> r[j] == gs[j - 1];
  }

  lemma SetStateKeepsValid(k: Keeper, m: Mode)
    requires Valid(k)
    ensures Valid(SetState(k, m).value)
  {
    if m == DeleteGate {
      match GetActiveGate(k.gates)
      case None =>
      case Some(i) =>
        if k.gates[i].patch {
          RemoveAtGood(k.gates, i, k.nextId);
        } else {
          ReplacedGood(k.gates, i, k.gates[i].(connected := false), k.nextId);
        }
    }
  }

  lemma ShowKeepsValid(k: Keeper)
    requires Valid(k)
    ensures Valid(ShowVisible(k).value)
  {
    var r := ShowVisible(k).value.gates;
    assert forall j :: 0 <= j < |r| ==> r[j].id == k.gates[j].id;
  }

  lemma DeliverKeepsValid(k: Keeper, i: nat, ev: Event, hit: bool)
    requires Valid(k) && i < |k.gates|
    ensures Valid(Deliver(k, i, ev, hit).value)
  {
    if k.gates[i].connected {
      var o := Handle(k.gates[i], ev, k.current, hit);
      ReplacedGood(k.gates, i, o.value.gate, k.nextId);
      if o.Returned? && o.value.request == RemoveMe {
        RemoveAtGood(k.gates, i, k.nextId);
      }
    }
  }

  /** Dropping one gate keeps a list good and its identities distinct. */
  lemma RemoveAtGood(gs: seq<Gate>, i: nat, n: nat)
    requires i < |gs| && AllGood(gs, n)
    ensures AllGood(gs[..i] + gs[i + 1..], n)
    ensures UniqueIds(gs) ==> UniqueIds(gs[..i] + gs[i + 1..])
  {
    assert multiset(gs[..i] + gs[i + 1..]) <= multiset(gs) by {
      assert gs == gs[..i] + [gs[i]] + gs[i + 1..];
    }
    SubmultisetGood(gs, gs[..i] + gs[i + 1..], n);
    if UniqueIds(gs) {
      RemoveAtUnique(gs, i);
    }
  }

  /** Replacing a gate by a well-formed gate with the same identity keeps a
      list good and its identities distinct. */
  lemma ReplacedGood(gs: seq<Gate>, i: nat, g: Gate, n: nat)
    requires i < |gs| && AllGood(gs, n) && g.id == gs[i].id && WellFormed(g)
    ensures AllGood(gs[i := g], n)
    ensures UniqueIds(gs) ==> UniqueIds(gs[i := g])
  {
    assert forall j :: 0 <= j < |gs| ==> gs[i := g][j].id == gs[j].id;
  }

  // ---------------------------------------------------------------------
  // Selecting

  /** A press on the waiting keeper keeps every gate and the mode; unless it
      raised, at most the top gate is Active afterwards, and a press that
      hits nothing only inactivates the gates, in place. */
  lemma WaitingPressSelectsTopmost(k: Keeper, pos: Point, button: int, inAxes: bool, hits: set<nat>)
    requires k.mode == Waiting
    ensures var r := OnMousePress(k, pos, button, inAxes, hits);
            && r.value.mode == Waiting && r.value.nextId == k.nextId
            && |r.value.gates| == |k.gates|
            && (r.Returned? ==> forall j :: 0 < j < |r.value.gates| ==> r.value.gates[j].state == Inactive)
    ensures var r := OnMousePress(k, pos, button, inAxes, hits);
            r.Returned? && (forall j :: 0 <= j < |k.gates| ==> !Hits(k.gates[j], k.current, hits)) ==>
              |k.gates| == 0 || forall j :: 0 <= j < |k.gates| ==> r.value.gates[j] == k.gates[j].(state := Inactive)
  {
    if |k.gates| > 0 && SelectFirstHit(k.gates, k.current, hits).Returned? {
      SelectOneActive(k.gates, k.current, hits);
      if forall j :: 0 <= j < |k.gates| ==> !Hits(k.gates[j], k.current, hits) {
        SelectNoHit(k.gates, k.current, hits);
      }
    }
  }

  // ---------------------------------------------------------------------
  // Deleting

  /** Asked to delete with no Active gate, the keeper only waits again. */
  lemma DeleteWithoutActiveGate(k: Keeper)
    requires forall j :: 0 <= j < |k.gates| ==> !IsActive(k.gates[j])
    ensures SetState(k, DeleteGate) == Returned(k.(mode := Waiting))
  {
  }

  /** Asked to delete, the keeper removes exactly the first Active gate in
      list order and waits again; a gate whose artists are missing is only
      disconnected, the removal raises and the mode stays. */
  lemma DeleteRemovesFirstActive(k: Keeper, i: nat)
    requires Valid(k) && i < |k.gates| && IsActive(k.gates[i])
    requires forall j :: 0 <= j < i ==> !IsActive(k.gates[j])
    ensures var r := SetState(k, DeleteGate);
            && (r.Returned? <==> k.gates[i].patch)
            && (r.Returned? ==>
                  r.value == k.(gates := k.gates[..i] + k.gates[i + 1..], mode := Waiting)
                  && r.value.gates == Others(k.gates, k.gates[i].id))
            && (r.Raised? ==>
                  r.value == k.(gates := k.gates[i := k.gates[i].(connected := false)]))
  {
    assert GetActiveGate(k.gates) == Some(i);
    RemoveAtUnique(k.gates, i);
  }

  // ---------------------------------------------------------------------
  // Runs of events

  /** One thing that happens to the keeper. */
  datatype Step =
    | Click(pos: Point, button: int, inAxes: bool, hits: set<nat>)  // a press, as the keeper hears it
    | Type(key: string)                                              // a key, as the keeper hears it
    | Route(index: nat, ev: Event, hit: bool)                        // an event, as gate `index` hears it
    | Choose(mode: Mode)                                             // the mode set from outside
    | Display(channels: Channels)                                    // a channel pair shown, gates re-shown
    | Load(channels: Channels)                                       // a data file's first two channels

  /** The keeper after one step. An event for a gate the list no longer
      holds reaches nobody. */
  function Apply(k: Keeper, s: Step): (r: Outcome<Keeper>)
    ensures s.Display? ==> r.value.current == Some(s.channels)
    ensures s.Load? ==> r == Returned(if k.current.None? then k.(current := Some(s.channels)) else k)
    ensures !s.Display? && !s.Load? ==> r.value.current == k.current
    ensures r.value.nextId >= k.nextId
  {
    match s
    case Click(pos, button, inAxes, hits) => OnMousePress(k, pos, button, inAxes, hits)
    case Type(key) => Returned(OnKeyboardPress(k, key))
    case Route(i, ev, hit) => if i < |k.gates| then Deliver(k, i, ev, hit) else Returned(k)
    case Choose(m) => SetState(k, m)
    case Display(ch) => ShowVisible(k.(current := Some(ch)))
    case Load(ch) => if k.current.None? then Returned(k.(current := Some(ch))) else Returned(k)
  }

  /** The keeper after a run of steps. A handler that raised leaves the
      state it reached, and the next event is handled from there. */
  function RunSteps(k: Keeper, steps: seq<Step>): (r: Keeper)
    decreases |steps|
  {
    if |steps| == 0 then k
    else RunSteps(Apply(k, steps[0]).value, steps[1..])
  }

  lemma ApplyKeepsValid(k: Keeper, s: Step)
    requires Valid(k)
    ensures Valid(Apply(k, s).value)
  {
    match s
    case Click(pos, button, inAxes, hits) => PressKeepsValid(k, pos, button, inAxes, hits);
    case Type(_) =>
    case Route(i, ev, hit) => if i < |k.gates| { DeliverKeepsValid(k, i, ev, hit); }
    case Choose(m) => SetStateKeepsValid(k, m);
    case Display(ch) => ShowKeepsValid(k.(current := Some(ch)));
    case Load(_) =>
  }

  /** Whatever happens, the gates stay distinct and well formed: in
      particular every drawn polygon keeps a closed ring. */
  lemma {:induction false} RunKeepsValid(k: Keeper, steps: seq<Step>)
    requires Valid(k)
    ensures Valid(RunSteps(k, steps))
    ensures forall j :: 0 <= j < |RunSteps(k, steps).gates| ==>
              var g := RunSteps(k, steps).gates[j];
              g.kind == PolygonGate && g.patch ==> Ring(g.vert)
    decreases |steps|
  {
    if |steps| > 0 {
      ApplyKeepsValid(k, steps[0]);
      RunKeepsValid(Apply(k, steps[0]).value, steps[1..]);
    }
  }

  // ---------------------------------------------------------------------
  // Drawing a polygon gate

  /** Drawing a triangle: `c`, a left click at `p1` (the keeper builds the
      gate and hands it the click), a motion that draws the guide line, a
      left click at `p2` and a right click at `p3`. The keeper hears every
      click first and ignores it while the gate is being drawn. The result
      is an Active gate on top whose ring is p1, p2, p3, p1, and a keeper
      waiting again. */
  lemma DrawTriangle(k: Keeper, ch: Channels, p1: Point, q: Point, p2: Point, p3: Point)
    requires k.current == Some(ch)
    requires forall j :: 0 <= j < |k.gates| ==> k.gates[j].patch
    requires p1 != p3
    ensures var r := RunSteps(k, [Type("c"), Click(p1, LeftClick, true, {})] + TriangleRest(q, p2, p3));
            && r.mode == Waiting && r.nextId == k.nextId + 1
            && r.gates == [NewPolygonGate(k.nextId, ch).(vert := [p1, p2, p3, p1], guide := true,
                                                         patch := true, state := Active)]
                          + InactivateAllGates(k.gates).value
  {
    var t := InactivateAllGates(k.gates).value;
    var g2 := NewPolygonGate(k.nextId, ch).(vert := [p1]);
    var k2 := k.(gates := [g2] + t, nextId := k.nextId + 1, mode := KeepDrawing);
    StartDrawingRun(k, ch, p1, TriangleRest(q, p2, p3));
    FinishTriangleRun(k2, p1, q, p2, p3);
    assert k2.gates[1..] == t;
  }

  /** `c` and a first left click put a new gate holding that click on top. */
  lemma StartDrawingRun(k: Keeper, ch: Channels, p1: Point, rest: seq<Step>)
    requires k.current == Some(ch)
    requires forall j :: 0 <= j < |k.gates| ==> k.gates[j].patch
    ensures RunSteps(k, [Type("c"), Click(p1, LeftClick, true, {})] + rest)
              == RunSteps(k.(gates := [NewPolygonGate(k.nextId, ch).(vert := [p1])] + InactivateAllGates(k.gates).value,
                             nextId := k.nextId + 1, mode := KeepDrawing), rest)
  {
    var k1 := k.(mode := StartDrawing);
    StartPolygonWithClick(k1, ch, p1);
    RunCons(k, Type("c"), [Click(p1, LeftClick, true, {})] + rest, k1);
    assert [Type("c"), Click(p1, LeftClick, true, {})] + rest
           == [Type("c")] + ([Click(p1, LeftClick, true, {})] + rest);
    RunCons(k1, Click(p1, LeftClick, true, {}), rest,
            k1.(gates := [NewPolygonGate(k.nextId, ch).(vert := [p1])] + InactivateAllGates(k.gates).value,
                nextId := k.nextId + 1, mode := KeepDrawing));
  }

  /** The events after the first click of a triangle. */
  function TriangleRest(q: Point, p2: Point, p3: Point): seq<Step>
  {
    [Route(0, Motion(q), false),
     Click(p2, LeftClick, true, {}),
     Route(0, Press(p2, LeftClick, true), false),
     Click(p3, RightClick, true, {}),
     Route(0, Press(p3, RightClick, true), false)]
  }

  /** The keeper drawing a gate that holds its first vertex: a guide line,
      a second vertex and the closing click finish the triangle. */
  lemma FinishTriangleRun(k: Keeper, p1: Point, q: Point, p2: Point, p3: Point)
    requires |k.gates| > 0 && k.mode == KeepDrawing && p1 != p3
    requires k.gates[0].kind == PolygonGate && k.gates[0].state == CreatingGate
    requires k.gates[0].connected && k.gates[0].vert == [p1]
    ensures RunSteps(k, TriangleRest(q, p2, p3))
              == k.(gates := [k.gates[0].(vert := [p1, p2, p3, p1], guide := true,
                                          patch := true, state := Active)] + k.gates[1..],
                    mode := Waiting)
  {
    var g2 := k.gates[0];
    var g3 := g2.(guide := true);
    var k3 := k.(gates := k.gates[0 := g3]);
    RoutedToTop(k, Motion(q), false, g3);
    var g4 := g3.(vert := [p1, p2]);
    var k4 := k3.(gates := k3.gates[0 := g4]);
    LeftClickAppendsVertex(g3, p2, k3.current, false);
    assert k3.gates[0] == g3 && g3.vert + [p2] == [p1, p2];
    RoutedToTop(k3, Press(p2, LeftClick, true), false, g4);
    assert k4.gates[0] == g4;
    FinishTriangle(k4, p1, p2, p3);
    var k5 := k4.(gates := k4.gates[0 := g4.(vert := [p1, p2, p3, p1], patch := true, state := Active)],
                  mode := Waiting);
    var steps := TriangleRest(q, p2, p3);
    RunCons(k4, steps[4], [], k5);
    RunCons(k4, steps[3], steps[4..], k4);
    RunCons(k3, steps[2], steps[3..], k4);
    RunCons(k3, steps[1], steps[2..], k3);
    RunCons(k, steps[0], steps[1..], k3);
    assert [steps[4]] + [] == steps[4..];
    TopReplaced(k.gates, g3, g4, g4.(vert := [p1, p2, p3, p1], patch := true, state := Active));
  }

  /** Replacing the top gate three times leaves the last replacement on top. */
  lemma TopReplaced(gs: seq<Gate>, a: Gate, b: Gate, c: Gate)
    requires |gs| > 0
    ensures gs[0 := a][0 := b][0 := c] == [c] + gs[1..]
  {
  }

  /** Running a step and then the rest. */
  lemma RunCons(k: Keeper, s: Step, rest: seq<Step>, k': Keeper)
    requires Apply(k, s).value == k'
    ensures RunSteps(k, [s] + rest) == RunSteps(k', rest)
  {
    assert ([s] + rest)[1..] == rest;
  }

  /** The first press after `c`: the new gate gets the press as its first
      vertex and goes on top of the inactivated list. */
  lemma StartPolygonWithClick(k: Keeper, ch: Channels, p: Point)
    requires k.current == Some(ch) && k.mode == StartDrawing
    requires forall j :: 0 <= j < |k.gates| ==> k.gates[j].patch
    ensures Apply(k, Click(p, LeftClick, true, {}))
              == Returned(k.(gates := [NewPolygonGate(k.nextId, ch).(vert := [p])] + InactivateAllGates(k.gates).value,
                             nextId := k.nextId + 1, mode := KeepDrawing))
  {
    var g := NewPolygonGate(k.nextId, ch);
    LeftClickAppendsVertex(g, p, k.current, false);
    assert g.vert + [p] == [p];
    assert InactivateAllGates(k.gates).Returned?;
  }

  /** While a gate is being drawn the keeper ignores presses. */
  lemma ClickWhileDrawing(k: Keeper, p: Point, button: int, inAxes: bool, hits: set<nat>)
    requires k.mode == KeepDrawing
    ensures Apply(k, Click(p, button, inAxes, hits)) == Returned(k)
  {
  }

  /** An event the top gate handles without a request changes that gate only. */
  lemma RoutedToTop(k: Keeper, ev: Event, hit: bool, g: Gate)
    requires |k.gates| > 0 && k.gates[0].connected
    requires Handle(k.gates[0], ev, k.current, hit) == Returned(Reaction(g, NoRequest))
    ensures Apply(k, Route(0, ev, hit)) == Returned(k.(gates := k.gates[0 := g]))
  {
  }

  /** The closing right click on the triangle's top gate. */
  lemma FinishTriangle(k: Keeper, p1: Point, p2: Point, p3: Point)
    requires |k.gates| > 0 && k.gates[0].connected && p1 != p3
    requires k.gates[0].kind == PolygonGate && k.gates[0].state == CreatingGate
    requires k.gates[0].guide && k.gates[0].vert == [p1, p2]
    ensures Apply(k, Route(0, Press(p3, RightClick, true), false))
              == Returned(k.(gates := k.gates[0 := k.gates[0].(vert := [p1, p2, p3, p1], patch := true, state := Active)],
                             mode := Waiting))
  {
    var g := k.gates[0];
    assert g.vert + [p3] == [p1, p2, p3];
    assert Close([p1, p2, p3]) == [p1, p2, p3, p1];
    assert Handle(g, Press(p3, RightClick, true), k.current, false)
             == Returned(Reaction(g.(vert := [p1, p2, p3, p1], patch := true, state := Active), DrawingFinished));
  }
}
