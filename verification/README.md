# Gate editor of the flow-cytometry GUI, modelled in Dafny

The GUI's gate editor (`GUI/gate.py`) lets a user draw gates on a scatter
plot of two channels. A gate is a polygon or a quadrant cross-hair. The user
can then select, move, reshape and delete gates. A `GateKeeper` holds the
ordered gate list, where index 0 is the top layer. It also holds the channel
pair on display and a mode: waiting, start drawing, keep drawing, start
drawing a quad gate, or delete. Each gate (`Filter`, `QuadGate`,
`PolygonGate`) has a lifecycle state and handlers for the presses, motions,
releases and keys the canvas sends it.

This project models that core:

- `outcomes.dfy` (`Outcomes`): options, results, and the exceptions the
  editor can raise. A handler that raises is modelled as
  `Raised(state, fault)`. The state is the one reached after the mutations
  that ran before the exception. The next event is handled from there.
- `geometry.dfy` (`Geometry`): points, the closest-vertex search, the closed
  ring of a drawn polygon, and moving one vertex of that ring.
- `gate.dfy` (`Gates`): the gate record, its pick test, its styling, and
  every handler of both gate kinds. `Handle` routes one event to the right
  handler. `Run` replays a run of events on one gate.
- `layers.dfy` (`Layers`): the keeper's list operations. These are
  `add_gate`, `bring_gate_to_top_layer`, `remove_gate`, `get_active_gate`,
  `inactivate_all_gates` and `show_visible_gates`, with gates told apart by
  identity.
- `selection.dfy` (`Selection`): what a press selects while the keeper
  waits. Both the loop as written and the corrected selection are modelled
  (see Findings).
- `keeper.dfy` (`Keeper`): the keeper's state and handlers, and events
  routed to single gates. `Step`/`RunSteps` replay any mix of these. The
  invariant `Valid` (distinct, well-formed gates) is preserved by every
  step. A scenario shows a triangle being drawn end to end.

Objects are told apart by an `id`, and the keeper numbers new gates from
`nextId`. The canvas's pick test of a gate's control artist is an input:
`hit` for one gate, or `hits` (the identities the canvas reports under the
pointer) for the keeper.

## Model

| member | source | states |
|---|---|---|
| Geometry.SqDist | GUI/gate.py:17-18 | the distance is never negative and is zero from a point to itself (squared; see Left out) |
| Geometry.ClosestIndex | GUI/gate.py:289-291 | the scan returns the index a stable sort by distance puts first: no vertex is closer, and every earlier vertex is strictly farther |
| Geometry.ClosestIndexIsFirstMinimum | GUI/gate.py:289-292 | that index is the only index with this property, in both directions |
| Geometry.GetClosestVertex | GUI/gate.py:287-296 | an empty vertex list raises (indexing the empty sorted list); otherwise it returns the distance, index and position of the first closest vertex |
| Geometry.Close | GUI/gate.py:317-319 | the patch's vertex list keeps the drawn vertices as a prefix and adds at most one point, the first; a non-empty list becomes a closed ring, and a list that is already a ring is unchanged |
| Geometry.MoveVertex | GUI/gate.py:394-398 | moving the first or last vertex moves both ends and nothing else; moving an inner vertex changes that vertex only; a ring stays a ring |
| Gates.NewPolygonGate | GUI/gate.py:260-271 | a new polygon gate is well formed, being drawn, with no vertex, no artists and no guide line, connected, on the given channels |
| Gates.NewQuadGate | GUI/gate.py:177-180 | a new quad gate is well formed and Active, with its artists and its single centre at the given point, connected, on the given channels |
| Gates.IsActiveAfterSetState | GUI/gate.py:99-103 | `is_active` reads back the last `set_state`: a gate is active exactly when it was last set Active, even if restyling then raised; `activate` makes it active and `inactivate` does not |
| Gates.Contains | GUI/gate.py:142-146 | a gate drawn on another channel pair never contains the press; otherwise the control artist's pick test decides, and a missing artist raises |
| Gates.SetStyledState | GUI/gate.py:430-440 | the state is set first, and only the state changes; restyling raises exactly when the artists are missing |
| Gates.SetVisible | GUI/gate.py:149-162 | showing or hiding sets visibility only; showing re-activates Active and Inactive gates; missing artists raise; well-formedness is kept |
| Gates.Dispose | GUI/gate.py:164-172 | the gate is always disconnected; it asks to be dropped exactly when its artists exist, and raises otherwise |
| Gates.FinishDrawingPolygon | GUI/gate.py:305-315 | the final vertex is appended; with no guide line drawn it raises there; otherwise the patch is built on the closed ring and the gate becomes Active, asking the keeper to wait |
| Gates.PolygonPress | GUI/gate.py:341-366 | the gate stays the same object and keeps well-formedness; a press never removes it; only a right click while drawing finishes it; a raise asks nothing |
| Gates.PolygonMotion | GUI/gate.py:368-401 | an Active or Inactive polygon ignores motion; while drawing, motion only marks the guide line drawn, and raises when there is no vertex yet; while moving, only the vertices change; the gate stays the same object and keeps well-formedness, so a moved vertex keeps the ring closed |
| Gates.PolygonKey | GUI/gate.py:421-428 | `i` and `a` change only the state (raising exactly when the artists are missing); only `d` on an Active gate asks to remove it; any other key, and `d` on a gate that is not Active, changes nothing; keys never finish drawing; well-formedness is kept |
| Gates.QuadPress | GUI/gate.py:203-212 | a press outside the axes, or on a quad that is not Active, changes nothing; the quad gate stays the same object and keeps well-formedness |
| Gates.Handle | GUI/gate.py:274-281 | for any routed event: the gate stays the same object; removal happens only on `d` while Active; finishing happens only on a right click while drawing; well-formedness is kept |
| Gates.EndMove | GUI/gate.py:223-230 | a release ends a vertex move by going back to Active; no gate is left moving; other states are unchanged; well-formedness is kept (a quad's artists follow the pointer, but its stored centre is changed only by motion); the polygon's release at lines 415-419 is cited on `Gates.ReleaseEndsMove` |
| Gates.QuadMotion | GUI/gate.py:215-221 | while moving, the quad's single centre follows the pointer; in any other state nothing changes; a well-formed quad stays well formed |
| Gates.LeftClickAppendsVertex | GUI/gate.py:350-353 | while drawing, a left click inside the axes appends exactly that vertex and changes nothing else |
| Gates.RightClickFinishesPolygon | GUI/gate.py:354-357 | while drawing, a right click finishes the gate as an Active closed ring that starts with the drawn vertices and the click, and asks the keeper to wait; with no guide line it raises after appending |
| Gates.PressOutsideAxesIgnored | GUI/gate.py:345 | a press outside the axes changes no gate of either kind |
| Gates.ActivePolygonPress | GUI/gate.py:358-364 | on an Active polygon, a press that hits records the closest vertex of the ring and starts moving it; a miss inactivates; a missing patch raises |
| Gates.IdlePolygonPressIgnored | GUI/gate.py:350-366 | a press on an Inactive or moving polygon does nothing |
| Gates.MoveKeepsRing | GUI/gate.py:388-401 | moving the recorded vertex keeps the ring's length and closure; it moves both ends or only the one inner vertex |
| Gates.ReleaseEndsMove | GUI/gate.py:415-419 | a release ends a move (back to Active) and changes nothing in any other state |
| Gates.QuadGateMoves | GUI/gate.py:203-221 | an Active quad gate starts moving when the press hits its centre, and is inactivated otherwise; while moving, motion puts the single centre at the pointer |
| Gates.KeysSetState | GUI/gate.py:421-440 | `i` and `a` set the state whatever it was; `d` removes exactly an Active gate whose artists exist; quad gates ignore keys |
| Gates.Run | GUI/gate.py:274-281 | a run of events never changes which object a gate is, its kind or its channels |
| Gates.RunPreservesWellFormed | GUI/gate.py:341-428 | any run of routed events keeps a gate well formed, so a drawn polygon's ring stays closed |
| Layers.FirstIndex | GUI/gate.py:594-599 | the first index whose gate satisfies the test: none before it; none at all exactly when no gate does |
| Layers.IndexOf | GUI/gate.py:586-592 | where `list.remove` finds the object: its first position; absent exactly when no listed gate is that object |
| Layers.AddGate | GUI/gate.py:582-584 | the new gate goes on top; the list gains exactly that gate; the other gates keep their order |
| Layers.MoveToTop | GUI/gate.py:586-588 | the chosen gate goes on top; the list is a permutation of the old one; every other gate shifts down by one at most, keeping its order |
| Layers.BringGateToTopLayer | GUI/gate.py:586-588 | an absent gate raises; otherwise the gate is on top, the list is a permutation, and the other gates keep their order |
| Layers.BringTopGateIsIdempotent | GUI/gate.py:586-588 | bringing the top gate to the top changes nothing |
| Layers.BringToTopKeepsOthers | GUI/gate.py:586-588 | with distinct gates, the gates below the raised one are exactly the rest of the list, in order |
| Layers.RemoveGate | GUI/gate.py:590-592 | an absent gate raises; otherwise exactly one copy of that object is dropped and the others keep their order; with distinct gates, the result is the rest of the list |
| Layers.RemoveAtUnique | GUI/gate.py:590-592 | removing a listed gate from distinct gates leaves exactly the others, still distinct |
| Layers.GetActiveGate | GUI/gate.py:594-599 | the first Active gate in list order, or none exactly when no gate is Active |
| Layers.FirstRaising | GUI/gate.py:566-568 | the first gate on which the operation raises, or none exactly when it raises on none |
| Layers.ForEach | GUI/gate.py:566-568 | the loop applies the operation in order; it returns exactly when nothing raises; a raise at gate j leaves gates up to j updated and later gates unchanged |
| Layers.InactivateAllGates | GUI/gate.py:566-568 | every gate becomes Inactive, in place; the first gate without artists raises after its state was set, and later gates keep their state |
| Layers.ShowVisibleGates | GUI/gate.py:556-564 | only visibility and state change; a gate is shown exactly when drawn on the displayed pair; shown gates are re-activated; gates without artists raise; well-formedness is kept |
| Selection.VisitFrom | GUI/gate.py:495-498 | the loop over the list it reorders keeps the list's length, every gate's artists and distinct identities, and the gate it visits last is a listed gate |
| Selection.VisitActivatesHits | GUI/gate.py:495-498 | the loop as written activates every gate the press hits, and only those |
| Selection.SelectAsWritten | GUI/gate.py:490-513 | as written: it returns exactly when every gate has artists; every gate the press hits ends Active, not only one (see Findings) |
| Selection.FirstHit | GUI/gate.py:495-496 | the first gate in list order that the press hits, or none exactly when every pick test answers no; it raises only when some gate has no artists |
| Selection.SelectFirstHit | GUI/gate.py:490-498 | corrected selection: it returns exactly when every gate has artists and keeps identities distinct |
| Selection.SelectFirstHitChoosesTopmost | GUI/gate.py:495-498 | corrected: no hit leaves every gate Inactive in place; otherwise the topmost hit gate goes on top as the only Active gate, and the others follow Inactive, in order |
| Selection.PressOnTwoGates | GUI/gate.py:495-498 | a press on two overlapping gates: as written both end Active and the lower one ends on top; corrected, only the upper one is Active |
| Selection.PressBesideTwoGates | GUI/gate.py:511 | a press that hits nothing: as written the lower gate is still raised; corrected, the order is kept |
| Keeper.NewKeeper | GUI/gate.py:445-454 | a new keeper waits with no channel pair; distinct, well-formed initial gates give a valid keeper |
| Keeper.BuildPolygonGate | GUI/gate.py:517 | building a polygon gate before any channel pair is chosen raises; otherwise a fresh, well-formed gate |
| Keeper.BuildQuadGate | GUI/gate.py:524 | building a quad gate before any channel pair is chosen raises; otherwise a fresh, well-formed gate at the press |
| Keeper.OnMousePress | GUI/gate.py:483-527 | the channel pair never changes; presses in the other modes are ignored; a waiting keeper with gates uses the corrected selection |
| Keeper.StartPolygon | GUI/gate.py:514-520 | with no channel pair it raises; otherwise, unless it raised, the new gate is on top over the inactivated list, numbering advances, and the keeper keeps drawing |
| Keeper.PlaceQuadGate | GUI/gate.py:522-527 | it returns exactly when a channel pair is chosen and every gate has artists; then a new quad gate at the press is on top over the inactivated list, and the keeper waits |
| Keeper.OnKeyboardPress | GUI/gate.py:576-580 | `c` starts drawing; any other key leaves the keeper as it was |
| Keeper.DisposeAt | GUI/gate.py:164-168 | it returns exactly when the gate has artists; then, with distinct gates, exactly that gate is dropped; otherwise the gate is only disconnected |
| Keeper.SetState | GUI/gate.py:601-611 | any mode but delete is simply set; deleting ends waiting unless the removal raised, which keeps the old mode; the channels and numbering never change |
| Keeper.ShowVisible | GUI/gate.py:556-564 | re-showing changes only the gates, as in show_visible_gates on the displayed pair |
| Keeper.Deliver | GUI/gate.py:354-357 | a disconnected gate hears nothing; a gate that finished drawing sets the keeper waiting; a gate that removed itself is dropped; any other outcome replaces that gate |
| Keeper.PressKeepsValid | GUI/gate.py:483-527 | a press keeps the keeper valid in every mode |
| Keeper.StartPolygonKeepsValid | GUI/gate.py:514-520 | starting a polygon keeps the keeper valid |
| Keeper.PlaceQuadGateKeepsValid | GUI/gate.py:522-527 | placing a quad gate keeps the keeper valid |
| Keeper.AddedGood | GUI/gate.py:582-584 | a new well-formed gate with the next identity, placed on top, keeps the list good and distinct |
| Keeper.SetStateKeepsValid | GUI/gate.py:601-611 | setting the mode, including deletion, keeps the keeper valid |
| Keeper.ShowKeepsValid | GUI/gate.py:556-564 | re-showing keeps the keeper valid |
| Keeper.DeliverKeepsValid | GUI/gate.py:164-168 | an event routed to a gate keeps the keeper valid, including when the gate removes itself |
| Keeper.WaitingPressSelectsTopmost | GUI/gate.py:486-513 | a waiting press keeps the number of gates, the mode and the numbering; unless it raised, at most the top gate is Active; a press hitting nothing only inactivates, in place |
| Keeper.DeleteWithoutActiveGate | GUI/gate.py:601-608 | asked to delete with no Active gate, the keeper only waits again |
| Keeper.DeleteRemovesFirstActive | GUI/gate.py:601-608 | asked to delete, it removes exactly the first Active gate and waits; a gate without artists is only disconnected, the removal raises, and the mode stays |
| Keeper.Apply | GUI/gate.py:460-465 | one step changes the channel pair only when a pair is displayed or a file is loaded with no pair chosen yet; loading touches no gate and no mode; the numbering never goes down |
| Keeper.ApplyKeepsValid | GUI/gate.py:460-465 | any single step keeps the keeper valid |
| Keeper.RunKeepsValid | GUI/gate.py:460-465 | any run of steps keeps the keeper valid, so every drawn polygon keeps a closed ring |
| Keeper.DrawTriangle | GUI/gate.py:514-520 | `c`, a click, a guide motion, a click and a right click draw an Active triangle on top, with ring p1 p2 p3 p1, over the inactivated gates; the keeper waits again |
| Keeper.ClickWhileDrawing | GUI/gate.py:483-527 | while a gate is being drawn, the keeper ignores every press, whatever the button, position or hit |

## Left out

- Drawing and styling: colours, `pl.draw`, titles and the border lines. The
  model keeps only which state a gate is in and whether its artists exist.
- Event subscription (`mpl_connect`, `mpl_disconnect`): reduced to a
  `connected` flag. The order in which the canvas calls the keeper and the
  gates for one event is not modelled. `Deliver` routes an event to one gate,
  and `Step` sequences say which subscriber hears what.
- A gate built during a press hears that press only through the keeper's
  explicit call (line 519). Whether the canvas also delivers the same press
  to the new subscription is left out.
- The keeper's `on_mouse_motion` and its `Cursor` widget: that handler is
  never connected (line 462).
- `change_axis`, `on_mouse_pick`, `plot_data`, `load_fcs`, dialogs, and the
  load/save stubs. Only their effect on the keeper is modelled, by two steps.
  - `Display(pair)` stands for `change_axis` (reached through
    `on_mouse_pick`) when the dialog returns a channel. The pair is the
    displayed pair with that one channel replaced, and `show_visible_gates`
    runs. A cancelled dialog is no step at all.
  - `Load(pair)` stands for `load_fcs`. It sets the pair (the file's first two
    channels) only when none is chosen, and it re-shows no gate.
- `change_axis` before any channel pair is chosen: its in-place edit of a
  missing pair raises in the source. `Display` does not model that raise.
- `grayout_all_points` and `highlight_points_inside_gate`: these are data
  plotting, not gate editing.
- The `w` key and every `print`.
- `xdata`/`ydata` being None outside the axes. Every press that is handled
  carries a point.
- `GateKeeper.gateList` is a class attribute shared by every keeper. Only one
  keeper is modelled.
- Geometry.Point: coordinates are exact reals, not the source's
  double-precision floats. Rounding is not modelled. In floating point,
  `sqrt` can map two different squared distances to the same value, and the
  stable sort then keeps the lower index where the model picks the strictly
  closer vertex.
- Geometry.SqDist: gives the squared Euclidean distance, not its square root,
  because real square roots are outside the model. In exact arithmetic the
  root is monotone, so the closest vertex is the same. `Closest.distance` therefore holds the
  squared distance.
- Keeper.Deliver: the clause for a gate that removed itself gives the
  resulting list only when the gates are distinct. For repeated identities,
  `list.remove` may drop an earlier copy.
- Gates.Run: states only that identity, kind and channels survive. The
  well-formedness of the result is `RunPreservesWellFormed`.

## Findings

| source | as written | input that shows it | evidently intended | confidence | as-written member | corrected member |
|---|---|---|---|---|---|---|
| GUI/gate.py:495-498 | the waiting keeper activates and raises every gate the press hits, while iterating over the list it is reordering | `TwoGates()`: two quad gates (1 above 2) on the displayed pair, press hitting both (`hits = {1, 2}`); both end Active and gate 2 ends on top | only the topmost gate hit is activated and raised; the rest stay Inactive in their order | not executed | Selection.SelectAsWritten, Selection.PressOnTwoGates | Selection.SelectFirstHit, Selection.SelectFirstHitChoosesTopmost |
| GUI/gate.py:511 | after the loop, the gate visited last is raised whether or not the press hit it | `TwoGates()` with a press hitting neither (`hits = {}`); gate 2 ends on top | a press that hits nothing leaves the order unchanged | not executed | Selection.SelectAsWritten, Selection.PressBesideTwoGates | Selection.SelectFirstHit, Selection.SelectNoHit |
