/** One gate: a polygon or a quadrant cross-hair, its lifecycle state and the
    handlers that react to the pointer and keyboard events routed to it. */
module Gates {
  import opened Outcomes
  import opened Geometry

  /** Mouse button codes. */
  const LeftClick: int := 1
  const RightClick: int := 3

  datatype Kind = PolygonGate | QuadGate

  datatype GateState = CreatingGate | Active | Inactive | MovingVertix

  /** The channel pair a gate is drawn on, as the list of channel names. */
  type Channels = seq<string>

  datatype Gate = Gate(
    id: nat,                // object identity
    kind: Kind,
    name: string,
    channels: Channels,
    state: GateState,
    vert: seq<Point>,       // polygon: the growing list, then the closed ring; quad: the centre
    info: Option<Closest>,  // the vertex the last move-starting press picked
    patch: bool,            // the gate's artists exist (a quad's from birth, a polygon's once drawn)
    guide: bool,            // the line to the proposed vertex has been drawn
    visible: bool,
    connected: bool)        // still subscribed to canvas events

  /** An event as a gate sees it: presses carry the button and whether the
      pointer is inside the plot axes. */
  datatype Event =
    | Press(pos: Point, button: int, inAxes: bool)
    | Motion(pos: Point)
    | Release(pos: Point)
    | Key(key: string)

  /** What a handler asks of the gate keeper once it returns. */
  datatype Request = NoRequest | DrawingFinished | RemoveMe

  datatype Reaction = Reaction(gate: Gate, request: Request)

  /** A freshly built polygon gate, ready to receive its first vertex. */
  function NewPolygonGate(id: nat, channels: Channels): (g: Gate)
    ensures WellFormed(g) && g.state == CreatingGate && g.kind == PolygonGate
    ensures |g.vert| == 0 && !g.patch && !g.guide && g.info.None?
    ensures g.id == id && g.channels == channels && g.connected
  {
    Gate(id, PolygonGate, "Polygon Gate", channels, CreatingGate, [], None,
         false, false, true, true)
  }

  /** A freshly built quadrant gate centred on `centre`. */
  function NewQuadGate(id: nat, channels: Channels, centre: Point): (g: Gate)
    ensures WellFormed(g) && g.state == Active && g.kind == QuadGate
    ensures g.vert == [centre] && g.patch
    ensures g.id == id && g.channels == channels && g.connected
  {
    Gate(id, QuadGate, "Quad Gate", channels, Active, [centre], None,
         true, false, true, true)
  }

  /** The states a gate can be in: a quad has exactly one centre and its
      artists; a polygon is drawn (has its patch) exactly when its vertices
      form a closed ring, and it can only be moving a vertex it recorded. */
  predicate WellFormed(g: Gate)
  {
    && (g.kind == QuadGate ==> |g.vert| == 1 && g.patch && g.state != CreatingGate)
    && (g.state == CreatingGate ==> !g.patch)
    && (g.kind == PolygonGate && g.patch ==> Ring(g.vert))
    && (g.state == MovingVertix ==>
          g.patch && (g.kind == PolygonGate ==> g.info.Some? && g.info.value.index < |g.vert|))
  }

  /** The parts of a gate no handler changes: which object it is, what it is
      called, the channels it is drawn on and whether it is shown. */
  predicate SameObject(g: Gate, h: Gate)
  {
    && h.id == g.id && h.kind == g.kind && h.name == g.name
    && h.channels == g.channels && h.visible == g.visible
  }

  predicate IsActive(g: Gate)
  {
    g.state == Active
  }

  /** `is_active` reads back the state the last `set_state` wrote: a gate is
      active exactly after it was set Active, whether or not restyling its
      artists then raised. */
  lemma IsActiveAfterSetState(g: Gate, s: GateState)
    ensures IsActive(SetStyledState(g, s).value) <==> s == Active
    ensures IsActive(Activate(g).value) && !IsActive(Inactivate(g).value)
  {
  }

  /** The pick test of a gate: never true when the gate is drawn on another
      channel pair than the one displayed (`current`); otherwise the canvas's
      pick test of the control artist (`hit`), which must exist. */
  function Contains(g: Gate, current: Option<Channels>, hit: bool): (r: Result<bool>)
    ensures current != Some(g.channels) ==> r == Ok(false)
    ensures r.Err? <==> current == Some(g.channels) && !g.patch
    ensures r == Ok(true) <==> current == Some(g.channels) && g.patch && hit
  {
    if current != Some(g.channels) then Ok(false)
    else if !g.patch then Err(NoPatch)
    else Ok(hit)
  }

  /** The state is set first; restyling the missing artists then raises. */
  function SetStyledState(g: Gate, s: GateState): (r: Outcome<Gate>)
    ensures r.value.state == s
    ensures r.value.(state := g.state) == g
    ensures r.Raised? <==> !g.patch
  {
    if g.patch then Returned(g.(state := s)) else Raised(g.(state := s), NoPatch)
  }

  function Inactivate(g: Gate): Outcome<Gate>
  {
    SetStyledState(g, Inactive)
  }

  function Activate(g: Gate): Outcome<Gate>
  {
    SetStyledState(g, Active)
  }

  /** Shows or hides a gate's artists; showing also re-activates a gate that
      is Active or Inactive. */
  function SetVisible(g: Gate, visible: bool): (r: Outcome<Gate>)
    ensures r.Raised? <==> !g.patch
    ensures r.Raised? ==> r.value == g
    ensures r.Returned? ==> r.value.visible == visible
    ensures r.Returned? ==>
              r.value.state == (if visible && g.state in {Active, Inactive} then Active else g.state)
    ensures r.value.(state := g.state, visible := g.visible) == g
    ensures WellFormed(g) ==> WellFormed(r.value)
  {
    if !g.patch then Raised(g, NoPatch)
    else if visible && (g.state == Active || g.state == Inactive) then
      Returned(g.(visible := true, state := Active))
    else Returned(g.(visible := visible))
  }

  /** A gate removing itself: it disconnects from the canvas, removes its
      artists (which must exist) and asks the keeper to drop it. */
  function Dispose(g: Gate): (r: Outcome<Reaction>)
    ensures r.value.gate == g.(connected := false)
    ensures r.Returned? <==> g.patch
    ensures r.Returned? ==> r.value.request == RemoveMe
    ensures r.Raised? ==> r.value.request == NoRequest
  {
    if g.patch then Returned(Reaction(g.(connected := false), RemoveMe))
    else Raised(Reaction(g.(connected := false), NoRequest), NoPatch)
  }

  function NoRequestFrom(o: Outcome<Gate>): (r: Outcome<Reaction>)
    ensures r.value == Reaction(o.value, NoRequest)
    ensures r.Raised? <==> o.Raised?
  {
    match o
    case Returned(g) => Returned(Reaction(g, NoRequest))
    case Raised(g, f) => Raised(Reaction(g, NoRequest), f)
  }

  /** Right click while drawing: the last vertex is appended; the guide line
      is then removed (it must have been drawn), the patch built on the closed
      ring, and the gate becomes Active. */
  function FinishDrawingPolygon(g: Gate, pos: Point): (r: Outcome<Reaction>)
    ensures r.Raised? <==> !g.guide
    ensures r.Raised? ==> r.value == Reaction(g.(vert := g.vert + [pos]), NoRequest)
    ensures r.Returned? ==>
              r.value.request == DrawingFinished
              && r.value.gate == g.(vert := r.value.gate.vert, state := Active, patch := true)
              && r.value.gate.vert == Close(g.vert + [pos])
  {
    var g' := g.(vert := g.vert + [pos]);
    if !g.guide then Raised(Reaction(g', NoRequest), NoGuideLine)
    else Returned(Reaction(g'.(vert := Close(g'.vert), patch := true, state := Active), DrawingFinished))
  }

  /** A press routed to a polygon gate. */
  function PolygonPress(g: Gate, pos: Point, button: int, inAxes: bool,
                        current: Option<Channels>, hit: bool): (r: Outcome<Reaction>)
    ensures SameObject(g, r.value.gate)
    ensures r.value.request != RemoveMe
    ensures r.value.request == DrawingFinished ==> button == RightClick && g.state == CreatingGate
    ensures r.Raised? ==> r.value.request == NoRequest
    ensures WellFormed(g) ==> WellFormed(r.value.gate)
  {
    if !inAxes then Returned(Reaction(g, NoRequest))
    else if g.state == CreatingGate then
      if button == LeftClick then Returned(Reaction(g.(vert := g.vert + [pos]), NoRequest))
      else if button == RightClick then FinishDrawingPolygon(g, pos)
      else Returned(Reaction(g, NoRequest))
    else if g.state == Active then
      match Contains(g, current, hit)
      case Err(f) => Raised(Reaction(g, NoRequest), f)
      case Ok(false) => NoRequestFrom(Inactivate(g))
      case Ok(true) =>
        match GetClosestVertex(pos, g.vert)
        case Err(f) => Raised(Reaction(g, NoRequest), f)
        case Ok(c) => Returned(Reaction(g.(info := Some(c), state := MovingVertix), NoRequest))
    else Returned(Reaction(g, NoRequest))
  }

  /** Pointer motion routed to a polygon gate: while drawing it only draws
      the guide line from the last vertex; while moving a vertex it moves the
      recorded one, both ends of the ring together. */
  function PolygonMotion(g: Gate, pos: Point): (r: Outcome<Gate>)
    ensures SameObject(g, r.value)
    ensures g.state in {Active, Inactive} ==> r == Returned(g)
    ensures g.state == CreatingGate ==>
              && (r.Raised? <==> |g.vert| == 0)
              && r.value == (if |g.vert| == 0 then g else g.(guide := true))
    ensures g.state == MovingVertix && r.Returned? ==>
              r.value == g.(vert := r.value.vert) && |r.value.vert| >= |g.vert|
    ensures WellFormed(g) ==> WellFormed(r.value)
  {
    if g.state == CreatingGate then
      if |g.vert| == 0 then Raised(g, EmptyVertexList)
      else Returned(g.(guide := true))
    else if g.state == MovingVertix then
      if g.info.None? then Raised(g, NoClosestInfo)
      else if !g.patch then Raised(g, NoPatch)
      else if g.info.value.index >= |g.vert| then Raised(g, VertexIndexOutOfRange)
      else Returned(g.(vert := Close(MoveVertex(g.vert, g.info.value.index, pos))))
    else Returned(g)
  }

  /** A release ends a vertex move; it changes nothing in any other state. */
  function EndMove(g: Gate): (r: Gate)
    ensures g.state == MovingVertix ==> r == g.(state := Active)
    ensures g.state != MovingVertix ==> r == g
    ensures r.state != MovingVertix
    ensures WellFormed(g) ==> WellFormed(r)
  {
    if g.state == MovingVertix then g.(state := Active) else g
  }

  /** Keys routed to a polygon gate: `i` inactivates, `a` activates, `d`
      removes the gate when it is Active. */
  function PolygonKey(g: Gate, key: string): (r: Outcome<Reaction>)
    ensures SameObject(g, r.value.gate)
    ensures key == "i" ==> r.value == Reaction(g.(state := Inactive), NoRequest) && (r.Raised? <==> !g.patch)
    ensures key == "a" ==> r.value == Reaction(g.(state := Active), NoRequest) && (r.Raised? <==> !g.patch)
    ensures key !in {"i", "a", "d"} || (key == "d" && g.state != Active) ==>
              r == Returned(Reaction(g, NoRequest))
    ensures r.value.request != DrawingFinished
    ensures r.value.request == RemoveMe ==> key == "d" && g.state == Active
    ensures r.Raised? ==> r.value.request == NoRequest
    ensures WellFormed(g) ==> WellFormed(r.value.gate)
  {
    if key == "i" then NoRequestFrom(Inactivate(g))
    else if key == "a" then NoRequestFrom(Activate(g))
    else if key == "d" && g.state == Active then Dispose(g)
    else Returned(Reaction(g, NoRequest))
  }

  /** A press routed to a quadrant gate: an Active gate starts moving its
      centre when the press hits it, and is inactivated otherwise. */
  function QuadPress(g: Gate, inAxes: bool, current: Option<Channels>, hit: bool): (r: Outcome<Gate>)
    ensures SameObject(g, r.value)
    ensures !inAxes || g.state != Active ==> r == Returned(g)
    ensures g.kind == QuadGate && WellFormed(g) ==> WellFormed(r.value)
  {
    if !inAxes || g.state != Active then Returned(g)
    else
      match Contains(g, current, hit)
      case Err(f) => Raised(g, f)
      case Ok(false) => Inactivate(g)
      case Ok(true) => Returned(g.(state := MovingVertix))
  }

  /** Pointer motion routed to a quadrant gate moves its centre while moving. */
  function QuadMotion(g: Gate, pos: Point): (r: Gate)
    ensures g.state == MovingVertix ==> r == g.(vert := [pos])
    ensures g.state != MovingVertix ==> r == g
    ensures g.kind == QuadGate && WellFormed(g) ==> WellFormed(r)
  {
    if g.state == MovingVertix then g.(vert := [pos]) else g
  }

  /** The gate's own handler for one event. Quadrant gates ignore keys. */
  function Handle(g: Gate, ev: Event, current: Option<Channels>, hit: bool): (r: Outcome<Reaction>)
    ensures SameObject(g, r.value.gate)
    ensures r.value.request == RemoveMe ==> ev == Key("d") && g.state == Active
    ensures r.value.request == DrawingFinished ==> ev.Press? && ev.button == RightClick && g.state == CreatingGate
    ensures r.Raised? ==> r.value.request == NoRequest
    ensures WellFormed(g) ==> WellFormed(r.value.gate)
  {
    match (g.kind, ev)
    case (PolygonGate, Press(pos, button, inAxes)) => PolygonPress(g, pos, button, inAxes, current, hit)
    case (PolygonGate, Motion(pos)) => NoRequestFrom(PolygonMotion(g, pos))
    case (PolygonGate, Release(_)) => Returned(Reaction(EndMove(g), NoRequest))
    case (PolygonGate, Key(key)) => PolygonKey(g, key)
    case (QuadGate, Press(_, _, inAxes)) => NoRequestFrom(QuadPress(g, inAxes, current, hit))
    case (QuadGate, Motion(pos)) => Returned(Reaction(QuadMotion(g, pos), NoRequest))
    case (QuadGate, Release(_)) => Returned(Reaction(EndMove(g), NoRequest))
    case (QuadGate, Key(_)) => Returned(Reaction(g, NoRequest))
  }

  // ---------------------------------------------------------------------
  // Properties of the handlers

  /** While drawing, a left click inside the axes appends exactly one vertex
      and changes nothing else. */
  lemma LeftClickAppendsVertex(g: Gate, pos: Point, current: Option<Channels>, hit: bool)
    requires g.kind == PolygonGate && g.state == CreatingGate
    ensures Handle(g, Press(pos, LeftClick, true), current, hit)
              == Returned(Reaction(g.(vert := g.vert + [pos]), NoRequest))
  {
  }

  /** While drawing, a right click inside the axes appends the final vertex,
      closes the ring, activates the gate and asks the keeper to wait again;
      when the guide line was never drawn, the vertex is appended and the
      removal of the missing line raises. */
  lemma RightClickFinishesPolygon(g: Gate, pos: Point, current: Option<Channels>, hit: bool)
    requires g.kind == PolygonGate && g.state == CreatingGate
    ensures var r := Handle(g, Press(pos, RightClick, true), current, hit);
            && (g.guide ==>
                  && r.Returned?
                  && r.value.request == DrawingFinished
                  && r.value.gate.state == Active
                  && r.value.gate.patch
                  && Ring(r.value.gate.vert)
                  && r.value.gate.vert[..|g.vert| + 1] == g.vert + [pos])
            && (!g.guide ==>
                  r == Raised(Reaction(g.(vert := g.vert + [pos]), NoRequest), NoGuideLine))
  {
  }

  /** A press outside the axes leaves every gate as it was. */
  lemma PressOutsideAxesIgnored(g: Gate, pos: Point, button: int, current: Option<Channels>, hit: bool)
    ensures Handle(g, Press(pos, button, false), current, hit) == Returned(Reaction(g, NoRequest))
  {
  }

  /** A press on an Active polygon that hits its patch records the closest
      vertex and starts moving it; any other press inactivates the gate. */
  lemma ActivePolygonPress(g: Gate, pos: Point, button: int, current: Option<Channels>, hit: bool)
    requires g.kind == PolygonGate && g.state == Active && WellFormed(g)
    ensures var r := Handle(g, Press(pos, button, true), current, hit);
            && (Contains(g, current, hit) == Ok(true) ==>
                  && r.Returned?
                  && r.value.gate.state == MovingVertix
                  && r.value.gate.info.Some?
                  && IsClosest(pos, g.vert, r.value.gate.info.value.index)
                  && r.value.gate.vert == g.vert)
            && (Contains(g, current, hit) == Ok(false) ==>
                  r.value == Reaction(g.(state := Inactive), NoRequest) && (r.Returned? <==> g.patch))
            && (Contains(g, current, hit).Err? ==>
                  r == Raised(Reaction(g, NoRequest), NoPatch))
  {
  }

  /** A press on a polygon that is not Active and not being drawn does nothing. */
  lemma IdlePolygonPressIgnored(g: Gate, pos: Point, button: int, current: Option<Channels>, hit: bool)
    requires g.kind == PolygonGate && g.state in {Inactive, MovingVertix}
    ensures Handle(g, Press(pos, button, true), current, hit) == Returned(Reaction(g, NoRequest))
  {
  }

  /** Moving a vertex of a drawn polygon keeps the ring closed and its length;
      moving either end moves both ends, and moving an inner vertex changes
      that vertex only. */
  lemma MoveKeepsRing(g: Gate, pos: Point, current: Option<Channels>, hit: bool)
    requires g.kind == PolygonGate && g.state == MovingVertix && WellFormed(g)
    ensures var r := Handle(g, Motion(pos), current, hit);
            var i := g.info.value.index;
            var n := |g.vert|;
            && r.Returned?
            && |r.value.gate.vert| == n
            && Ring(r.value.gate.vert)
            && (i == 0 || i == n - 1 ==> r.value.gate.vert[0] == pos && r.value.gate.vert[n - 1] == pos)
            && (i == 0 || i == n - 1 ==> forall j :: 0 < j < n - 1 ==> r.value.gate.vert[j] == g.vert[j])
            && (0 < i < n - 1 ==> r.value.gate.vert == g.vert[i := pos])
            && r.value.gate.state == MovingVertix
  {
  }

  /** A release ends a move and changes nothing in any other state. */
  lemma ReleaseEndsMove(g: Gate, pos: Point, current: Option<Channels>, hit: bool)
    ensures var r := Handle(g, Release(pos), current, hit);
            && r.Returned? && r.value.request == NoRequest
            && (g.state == MovingVertix ==> r.value.gate == g.(state := Active))
            && (g.state != MovingVertix ==> r.value.gate == g)
  {
  }

  /** An Active quadrant gate starts moving when a press hits its centre and
      becomes Inactive on any other press; while moving, motion puts the
      single centre at the pointer. */
  lemma QuadGateMoves(g: Gate, pos: Point, button: int, current: Option<Channels>, hit: bool)
    requires g.kind == QuadGate && WellFormed(g)
    ensures g.state == Active ==>
              var r := Handle(g, Press(pos, button, true), current, hit);
              && r.Returned?
              && r.value.gate.state == (if current == Some(g.channels) && hit then MovingVertix else Inactive)
              && r.value.gate.vert == g.vert
    ensures g.state == MovingVertix ==>
              Handle(g, Motion(pos), current, hit) == Returned(Reaction(g.(vert := [pos]), NoRequest))
  {
  }

  /** Keys on a polygon gate: `i` and `a` set the state whatever it was
      (raising afterwards when the patch is missing); `d` removes the gate
      only when it is Active. Quadrant gates ignore keys. */
  lemma KeysSetState(g: Gate, current: Option<Channels>, hit: bool)
    ensures g.kind == PolygonGate ==> Handle(g, Key("i"), current, hit).value.gate.state == Inactive
    ensures g.kind == PolygonGate ==> Handle(g, Key("a"), current, hit).value.gate.state == Active
    ensures g.kind == PolygonGate ==>
              (Handle(g, Key("d"), current, hit).value.request == RemoveMe <==> g.state == Active && g.patch)
    ensures g.kind == PolygonGate && g.state != Active ==>
              Handle(g, Key("d"), current, hit) == Returned(Reaction(g, NoRequest))
    ensures g.kind == QuadGate ==>
              forall key :: Handle(g, Key(key), current, hit) == Returned(Reaction(g, NoRequest))
  {
  }

  /** One routed event and the canvas's pick-test answer for it. */
  datatype Input = Input(event: Event, hit: bool)

  /** The gate after a run of routed events; a handler that raised leaves the
      state it reached, and the next event is handled from there. */
  function Run(g: Gate, inputs: seq<Input>, current: Option<Channels>): (r: Gate)
    ensures r.id == g.id && r.kind == g.kind && r.channels == g.channels
    decreases |inputs|
  {
    if |inputs| == 0 then g
    else Run(Handle(g, inputs[0].event, current, inputs[0].hit).value.gate, inputs[1..], current)
  }

  /** Any run of events keeps a gate well formed: in particular a drawn
      polygon's ring stays closed through any sequence of vertex moves. */
  lemma {:induction false} RunPreservesWellFormed(g: Gate, inputs: seq<Input>, current: Option<Channels>)
    requires WellFormed(g)
    ensures WellFormed(Run(g, inputs, current))
    ensures g.kind == PolygonGate && g.patch ==> Ring(Run(g, inputs, current).vert)
    decreases |inputs|
  {
    if |inputs| > 0 {
      var g' := Handle(g, inputs[0].event, current, inputs[0].hit).value.gate;
      RunPreservesWellFormed(g', inputs[1..], current);
      assert g.patch ==> g'.patch;
    }
  }
}
