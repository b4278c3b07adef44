# Rotary knob custom GUI — Dafny model

This project models the value handling of the rotary knob custom GUI, a
Cinema 4D plugin that shows a REAL parameter as a knob. There are two
objects:

- **`RotaryKnobArea`**, the knob user area. It turns left-mouse drags into
  values. In linear mode the value follows the vertical distance from where
  the drag started. In circular mode it follows the pointer's angle around
  the knob's centre.
  - In linear mode, shift makes the knob ten times slower.
  - In linear mode, ctrl snaps the value to a 0.5 grid.
  - In circular mode, shift and ctrl change nothing.
  - Every value is clamped to the description's `[min, max]`.
  - Every sample that moved sends the parent an in-drag `BFM_ACTION`.
  - A double click asks the parent for a value popup instead.
- **`RotaryKnobCustomGui`**, the custom GUI. It holds the parameter value and
  its tristate flag, mirrors them into the knob, and passes the knob's value
  on to its own parent.

Floats are modelled as `real`. The host's drag pump is a sequence of
`Sample`s, one per round of `MouseDrag` that returned CONTINUE; the end of the
sequence is where the host stopped the drag. Messages sent to a parent are
appended to a `sent` log. Coordinates are already local (`Global2Local` is the
identity here).

Modules:

- `KnobMath` (`knob_math.dfy`): `MapRange`, `RoundGrid`, the clamp, and their
  lemmas.
- `KnobDefs` (`knob_defs.dfy`): the header's constants, the description
  container, and the `DescElementProperties` record.
- `KnobDrag` (`knob_drag.dfy`):
  - the per-sample value rules and the methods that compute them as the loop
    body does;
  - the drag loop as a function `Drag` over the sample sequence;
  - a reference description of which samples count (`Accepted`) and the
    lemmas tying it to `Drag`.
- `KnobGui` (`knob_gui.dfy`): the two classes. `RotaryKnobArea.InputEvent`
  runs the drag loop over its fields and is proved to end in the state
  `Drag` gives.

Two facts about the code that the model keeps:

- Every sample that moved sends an in-drag notification, even when the
  clamped value equals the previous one (cpp:274-283).
- `RotaryKnobArea::SetValue` sends nothing (cpp:299-303).

`CircularDragValue`, `LinearDragValue` and `DragValue` are the statements of
the drag loop's body, written as methods that `InputEvent` calls. Each is
proved equal to the value function beside it (`CircularValue`, `LinearValue`,
`SampleValue`), and every property of a drag's values is proved about those
functions.

## Model

| member | source | states |
|---|---|---|
| KnobMath.MapRange | source/gui/customgui_rotaryknob.cpp:14-20 | a zero-width input range yields minOutput instead of dividing |
| KnobMath.MapRangeEndpoints | source/gui/customgui_rotaryknob.cpp:14-20 | minInput maps to minOutput (even for a degenerate range); maxInput maps to maxOutput when the range is proper |
| KnobMath.MapRangeAffine | source/gui/customgui_rotaryknob.cpp:14-20 | away from the degenerate case, output differences are input differences scaled by the ratio of range widths |
| KnobMath.MapRangeMonotone | source/gui/customgui_rotaryknob.cpp:14-20 | an increasing input range onto a non-decreasing output range keeps the order of values |
| KnobMath.MapRangeWithin | source/gui/customgui_rotaryknob.cpp:14-20 | for an increasing input range (minInput < maxInput) and a non-decreasing output range (minOutput <= maxOutput), a value inside the input range lands inside the output range |
| KnobMath.MapRangeMidpoint | source/gui/customgui_rotaryknob.cpp:14-20 | the middle of the input range goes to the middle of the output range |
| KnobMath.MapRangeInverse | source/gui/customgui_rotaryknob.cpp:14-20 | with both ranges non-degenerate, mapping back with swapped ranges returns the original value |
| KnobMath.RoundGrid | source/gui/customgui_rotaryknob.cpp:28-38 | a zero grid returns 0 |
| KnobMath.RoundGridIsMultiple | source/gui/customgui_rotaryknob.cpp:28-38 | for a non-zero grid the result is an integer multiple of the grid |
| KnobMath.RoundGridError | source/gui/customgui_rotaryknob.cpp:28-38 | the result is within half a grid step, with halves rounding up (value + grid/2 included, value - grid/2 excluded for a positive grid; mirrored for a negative one) |
| KnobMath.RoundGridNearest | source/gui/customgui_rotaryknob.cpp:22-38 | for a non-zero grid of either sign, no multiple of the grid is closer to the value than the result: it is a nearest grid point |
| KnobMath.RoundGridWithinHalfStep | source/gui/customgui_rotaryknob.cpp:28-38 | for a non-zero grid, abs(result - value) <= abs(grid)/2 |
| KnobMath.RoundGridIdempotent | source/gui/customgui_rotaryknob.cpp:28-38 | snapping a snapped value changes nothing (also for a zero grid) |
| KnobMath.RoundGridMonotone | source/gui/customgui_rotaryknob.cpp:28-38 | for a positive grid snapping keeps the order of values |
| KnobMath.Clamp | source/gui/customgui_rotaryknob.cpp:275 | with lower <= upper the result lies in the bounds; an in-range value is returned unchanged; a value at or beyond an end yields that end |
| KnobDefs.DefaultProperties | source/gui/customgui_rotaryknob.h:61-62 | all four flags false, min, max and step 0, empty name |
| KnobDefs.FromContainer | source/gui/customgui_rotaryknob.h:65-75 | each flag is true exactly when its ROTARY_* key holds a true flag; min, max and step are the float stored under their key, and the name the string stored under its key; a key that is absent or holds another kind of data gives 0.0 or the empty name |
| KnobDefs.ToContainer | source/gui/customgui_rotaryknob.h:65-75 | the source has no container writer; this is the partner of the round-trip `FromContainerOfToContainer`, and its contract fixes its keys to exactly the eight the container constructor reads |
| KnobDefs.FromContainerOfToContainer | source/gui/customgui_rotaryknob.h:65-75 | reading back a container written from a record gives the record |
| KnobDefs.FromContainerIgnoresOtherKeys | source/gui/customgui_rotaryknob.h:65-75 | entries under keys the constructor does not read change nothing |
| KnobDefs.EmptyContainerGivesDefaults | source/gui/customgui_rotaryknob.h:61-75 | the container constructor on an empty container equals the default constructor |
| KnobDefs.PreciseIsTenthOfNormal | source/gui/customgui_rotaryknob.h:42-43 | the precise multiplier is a tenth of the normal one, and both are positive |
| KnobDrag.Multiplier | source/gui/customgui_rotaryknob.cpp:253-259 | the speed is positive; it is the precise multiplier exactly when shift is held, and the normal multiplier without shift |
| KnobDrag.SignedAngle | source/gui/customgui_rotaryknob.cpp:232-234 | the angle keeps its magnitude; a positive angle becomes negative exactly when the pointer is left of the centre |
| KnobDrag.CircularDragValue | source/gui/customgui_rotaryknob.cpp:201-242 | the loop body's circular computation equals CircularValue: the signed angle mapped from [-limit, limit] onto [min, max] |
| KnobDrag.LinearDragValue | source/gui/customgui_rotaryknob.cpp:244-272 | the loop body's linear computation equals LinearValue: start value + (startY - y) * (max - min) * multiplier, snapped to 0.5 with ctrl |
| KnobDrag.DragValue | source/gui/customgui_rotaryknob.cpp:200-275 | the value a moved sample sets equals SampleValue: the mode's value, clamped to [min, max] |
| KnobDrag.Notice | source/gui/customgui_rotaryknob.cpp:277-283 | the in-drag message carries the knob's id, the value and INDRAG = true, with no popup tag |
| KnobDrag.Drag | source/gui/customgui_rotaryknob.cpp:187-286 | a drag sends at most one message per sample |
| KnobDrag.FirstStop | source/gui/customgui_rotaryknob.cpp:189-195 | the index of the first sample whose state query failed or whose button reads 0, or the length when there is none |
| KnobDrag.MovedOnly | source/gui/customgui_rotaryknob.cpp:198 | at most as many samples as given, each of them moved and taken from the input |
| KnobDrag.MovedOnlyCounts | source/gui/customgui_rotaryknob.cpp:198 | every moved sample is kept as often as it occurs, and no sample without motion is kept |
| KnobDrag.MovedOnlyAppend | source/gui/customgui_rotaryknob.cpp:198 | the filter keeps order: the moved samples of a concatenation are those of the first part followed by those of the second |
| KnobDrag.DragPerSample | source/gui/customgui_rotaryknob.cpp:187-286 | for any value rule, the messages are exactly one notice per accepted sample (moved, before the first stop) in order, and the final value is the last accepted sample's value or the unchanged start value |
| KnobDrag.DragNotifiesEachAcceptedSample | source/gui/customgui_rotaryknob.cpp:187-198 | for the knob's own rule, one message per accepted sample, each with the knob id, INDRAG set, and that sample's clamped value |
| KnobDrag.DragFinalValue | source/gui/customgui_rotaryknob.cpp:198-275 | the knob's value after the drag is the value set by the last accepted sample; with none, the value is unchanged |
| KnobDrag.DragValueIsLastNotice | source/gui/customgui_rotaryknob.cpp:275-283 | the final value equals the last message's value; with no message the value is unchanged |
| KnobDrag.DragWithinRuleBounds | source/gui/customgui_rotaryknob.cpp:274-283 | if every rule value lies in [lo, hi], so do all notified values, and so does the final value once a message was sent |
| KnobDrag.DragInBounds | source/gui/customgui_rotaryknob.cpp:274-283 | with min <= max every notified value lies in [min, max], and so does the final value once a sample was accepted (moved before the first stop) |
| KnobDrag.DragIgnoresAfterStop | source/gui/customgui_rotaryknob.cpp:189-195 | samples after a failed state query or released button are never looked at |
| KnobDrag.DragIgnoresStillSample | source/gui/customgui_rotaryknob.cpp:198 | a sample without motion that does not stop the drag, anywhere in it, changes neither the value nor the messages |
| KnobDrag.ReleaseFirstDoesNothing | source/gui/customgui_rotaryknob.cpp:189-195 | a drag whose first sample stops sends nothing and keeps the value |
| KnobDrag.SampleValueInBounds | source/gui/customgui_rotaryknob.cpp:275 | with min <= max a moved sample's value lies in [min, max], in both modes |
| KnobDrag.LinearUsesGestureStart | source/gui/customgui_rotaryknob.cpp:175-181 | in linear mode a sample's value depends on the sample only through its y, shift and ctrl: two such samples under the same gesture set the same value. Together with `InputEvent` building the gesture once from the start value and start Y, and `DragPerSample` applying one fixed rule, this means the samples in between do not matter |
| KnobDrag.CircularIgnoresQualifiers | source/gui/customgui_rotaryknob.cpp:201-242 | in circular mode shift and ctrl do not change a sample's value; they are read only in the linear branch |
| KnobDrag.CircularIgnoresAnchor | source/gui/customgui_rotaryknob.cpp:201-242 | in circular mode the start value and start position do not matter |
| KnobDrag.ShiftIsTenTimesSlower | source/gui/customgui_rotaryknob.cpp:253-266 | the same drag distance changes the value ten times less with shift held |
| KnobDrag.CtrlSnapsToGrid | source/gui/customgui_rotaryknob.cpp:269-271 | with ctrl the linear value is a multiple of 0.5 within a quarter (half a step) of the unsnapped value |
| KnobDrag.LinearDragMonotone | source/gui/customgui_rotaryknob.cpp:249-275 | with min <= max, dragging further up never lowers the value in linear mode, with or without ctrl |
| KnobDrag.MarkerAngle | source/gui/customgui_rotaryknob.cpp:378 | the marker of min points to -limit; the marker of max points to +limit when the range is proper |
| KnobDrag.CircularDragAtMarker | source/gui/customgui_rotaryknob.cpp:237 | pointing a circular knob at the marker drawn for an in-range value sets exactly that value, also when min equals max |
| KnobDrag.CircularScaleEnds | source/gui/customgui_rotaryknob.cpp:237 | angle 0 gives the middle of the range; at or beyond -limit gives min, at or beyond +limit gives max |
| KnobDrag.DefaultPropertiesPinToZero | source/gui/customgui_rotaryknob.h:61 | with default-constructed properties every moved sample sets 0 |
| KnobDrag.LinearExamples | source/gui/customgui_rotaryknob.cpp:249-275 | over [0, 10] from 5 at y 100: 20 px up gives 7; 17 px up with ctrl gives 6.5 (snapped from 6.7); 20 px up with shift gives 5.2 |
| KnobGui.RotaryKnobArea.constructor | source/gui/customgui_rotaryknob.cpp:81 | a new knob is not tristate, has value 0, default properties and has sent nothing |
| KnobGui.RotaryKnobArea.GetMinSize | source/gui/customgui_rotaryknob.cpp:103-108 | minimum width and height are both 100, and the call succeeds |
| KnobGui.RotaryKnobArea.SetProperties | source/gui/customgui_rotaryknob.cpp:294-297 | the properties are replaced |
| KnobGui.RotaryKnobArea.SetValue | source/gui/customgui_rotaryknob.cpp:299-303 | value and tristate are replaced; nothing is sent |
| KnobGui.RotaryKnobArea.GetValue | source/gui/customgui_rotaryknob.cpp:305-308 | returns the stored value |
| KnobGui.RotaryKnobArea.InputEvent | source/gui/customgui_rotaryknob.cpp:147-292 | handled exactly for left-mouse events. A double click sends one SHOWPOPUP message with the current value and changes nothing else. Otherwise the final value and the messages are what Drag gives from the value at the start. Other events change nothing. |
| KnobGui.RotaryKnobCustomGui.constructor | source/gui/customgui_rotaryknob.cpp:418-421 | value 0, not tristate, properties read from the settings container; the knob starts with value 0, not tristate, default properties and nothing sent |
| KnobGui.RotaryKnobCustomGui.CreateLayout | source/gui/customgui_rotaryknob.cpp:438-440 | the knob receives the description properties, the value and the tristate |
| KnobGui.RotaryKnobCustomGui.InitValues | source/gui/customgui_rotaryknob.cpp:448-462 | mirrors value and tristate into the knob |
| KnobGui.RotaryKnobCustomGui.SendParentGuiMessage | source/gui/customgui_rotaryknob.cpp:542-551 | appends one BFM_ACTION with the GUI's id and value |
| KnobGui.RotaryKnobCustomGui.Command | source/gui/customgui_rotaryknob.cpp:465-492 | for the knob gadget, a SHOWPOPUP message is acknowledged and changes nothing. Any other knob message takes the knob's value, mirrors it back, and sends it to the parent. Other ids are left to the base dialog, unchanged. |
| KnobGui.RotaryKnobCustomGui.SetData | source/gui/customgui_rotaryknob.cpp:509-520 | stores the float (0 for other data) and the tristate flag, mirrors both into the knob, and returns true |
| KnobGui.RotaryKnobCustomGui.GetData | source/gui/customgui_rotaryknob.cpp:523-530 | returns the value as a float and never reports a tristate |
| KnobGui.RotaryKnobCustomGui.CustomGuiWidth | source/gui/customgui_rotaryknob.cpp:532-535 | the custom GUI is 100 wide |
| KnobGui.RotaryKnobCustomGui.CustomGuiHeight | source/gui/customgui_rotaryknob.cpp:537-540 | the custom GUI is 100 high |

## Left out

- Drawing: `DrawMsg`, `DrawBackground`, `DrawKnob`, `DrawScale`, `DrawMarker` (apart from its angle mapping, `MarkerAngle`), `DrawValue`, `ColorToRGB`, `SetCanvasColor`, `KnobAreaDrawValues`. These are bitmap and trigonometry calls with no value logic; `Redraw` after `SetData` is left out for the same reason.
- The angle computation in circular mode (`Normalize`, `GetAngle`): transcendental float operations. Each sample carries the angle `GetAngle` returned and whether the pointer lies left of the centre.
- `ROTARYKNOBAREA_SCALELIMIT` and the `MSG_KNOBAREAMESSAGE` ids are not defined in the files modelled. The scale limit, already in radians, is a constructor parameter of the knob, and the popup tag is the `ShowPopup` constructor.
- The host's input and messaging: `MouseDragStart`, `MouseDrag`, `GetInputState`, `Global2Local`, `MouseDragEnd`, `SendParentMessage`. They become the sample sequence and the `sent` logs. The parent's synchronous reaction to each in-drag message is not run inside `InputEvent`. In the source that reaction is `RotaryKnobCustomGui::Command` (cpp:479-485), which has three effects:
  - it copies the knob's value into the custom GUI's own value;
  - through `InitValues` (cpp:459) it sets the knob's value and tristate back to the custom GUI's;
  - it sends a `BFM_ACTION` without the INDRAG flag to the custom GUI's own parent (cpp:545-550).

  `Command` models these effects for one message at a time.
- `RotaryKnobArea::Init` and `RotaryKnobArea::InitValues` only return true; they are not modelled.
- KnobGui.RotaryKnobCustomGui.constructor: the knob user area is created here, already carrying the knob gadget id. In the source, `CreateLayout` assigns that id when it adds and attaches the user area (cpp:435-436).
- `RotaryKnobCustomGui::CreateLayout`: only the knob configuration is modelled. The layout group, title text, user-area attachment and the base class's result are host layout glue.
- `RotaryKnobCustomGui::InitValues`: the dummy `TriState` for the number field and the base class's result are left out.
- `RotaryKnobCustomGui::Message` (cursor info and bubble help): host glue with no value logic.
- Registration and plugin lifecycle (`RotaryKnobCustomGuiData`, `RegisterRotaryKnobCustomGui`, `source/main.cpp`, `source/object/testobject.cpp`): boilerplate.
- `GePrint` debug output.
- Floating point: `Float` is `real`, so IEEE rounding is not modelled. `ClampValue` is an SDK helper whose source is not part of this model; it is taken to be the usual clamp.
- The description container's keys:
  - The `ROTARY_*` ids keep their numeric values.
  - The SDK ids `DESC_MIN`, `DESC_MAX`, `DESC_STEP` and `DESC_NAME` are not part of this model and have their own key constructors.
  - A read finds an entry only when it has the matching kind.
- KnobGui.RotaryKnobArea.InputEvent: the Int32 subtraction `startY - currentY` is exact here; wrap-around would need coordinates 2^31 apart.
- KnobGui.RotaryKnobCustomGui.SetData: the SDK's `GeData::GetFloat`, which is not part of this model, is taken to read any non-float data as 0. The custom GUI is registered for `DTYPE_REAL` only (h:35), so the host hands it float data.
