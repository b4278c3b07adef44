/** The value rules of a mouse drag on the knob user area, as functions over
    an abstract sequence of drag samples. The user-area method that runs the
    drag loop is proved against Drag. */
module KnobDrag {
  import opened KnobMath
  import opened KnobDefs

  /** The knob's own message tag, sent along with BFM_ACTION. */
  datatype KnobMessage = NoKnobMessage | ShowPopup

  /** A BFM_ACTION message to the parent element. */
  datatype ActionMessage = ActionMessage(actionId: int, value: real, inDrag: bool, knobMessage: KnobMessage)

  /** One round of the host drag pump that returned CONTINUE: the deltas of
      MouseDrag, the outcome of the left-button state query, the button value
      and local Y position it reported, the shift/ctrl qualifiers, and the
      angle between the knob's up direction and the pointer (non-negative, as
      GetAngle returns it) with whether the pointer lies left of the centre. */
  datatype Sample = Sample(
    deltaX: real, deltaY: real,
    stateOk: bool, button: int, y: int,
    shift: bool, ctrl: bool,
    angle: real, pointerLeft: bool)

  /** What the drag remembers from its start: the properties and the scale
      limit of the knob, its gadget id, the value and the local Y position at
      the moment the button went down. */
  datatype Gesture = Gesture(props: DescElementProperties, scaleLimit: real, id: int, anchorValue: real, startY: int)

  /** A failed state query or a released button ends the drag. */
  predicate Stops(s: Sample)
  {
    !s.stateOk || s.button == 0
  }

  /** Only samples with a non-zero delta change the value. */
  predicate Moved(s: Sample)
  {
    s.deltaX != 0.0 || s.deltaY != 0.0
  }

  /** Knob speed: precise while shift is held. */
  function Multiplier(shift: bool): (m: real)
    ensures m > 0.0
    ensures shift <==> m == MultiplierPrecise
    ensures !shift ==> m == MultiplierNormal
  {
    if shift then MultiplierPrecise else MultiplierNormal
  }

  /** Linear mode without the snap: the total vertical distance from the
      start position, upwards positive, scaled by the value range and the
      speed, added to the start value. */
  function LinearTarget(g: Gesture, y: int, shift: bool): real
  {
    g.anchorValue + (g.startY - y) as real * (g.props.descMax - g.props.descMin) * Multiplier(shift)
  }

  /** The linear target, spelled out. */
  lemma LinearTargetIs(g: Gesture, y: int, shift: bool, v: real)
    requires v == g.anchorValue + (g.startY - y) as real * (g.props.descMax - g.props.descMin) * Multiplier(shift)
    ensures v == LinearTarget(g, y, shift)
  {
  }

  /** Linear mode before the clamp: the target, snapped to the value grid
      while ctrl is held. */
  function LinearValue(g: Gesture, y: int, shift: bool, ctrl: bool): real
  {
    if ctrl then RoundGrid(LinearTarget(g, y, shift), ValueGridSize) else LinearTarget(g, y, shift)
  }

  /** The angle, negated left of the centre. */
  function SignedAngle(s: Sample): (a: real)
    ensures a == s.angle || a == -s.angle
    ensures s.angle > 0.0 ==> (a < 0.0 <==> s.pointerLeft)
  {
    if s.pointerLeft then -s.angle else s.angle
  }

  /** Circular mode before the clamp: the signed angle mapped from the scale
      [-limit, limit] onto the value range. */
  function CircularValue(g: Gesture, s: Sample): real
  {
    MapRange(SignedAngle(s), -g.scaleLimit, g.scaleLimit, g.props.descMin, g.props.descMax)
  }

  /** The value a moved sample sets: the mode's value, clamped. */
  function SampleValue(g: Gesture, s: Sample): real
  {
    Clamp(if g.props.circularMouse then CircularValue(g, s) else LinearValue(g, s.y, s.shift, s.ctrl),
          g.props.descMin, g.props.descMax)
  }

  /** Circular mode as the loop body computes it: the angle's sign is
      restored, then the angle is mapped onto the value range. */
  method CircularDragValue(g: Gesture, s: Sample) returns (newValue: real)
    ensures newValue == CircularValue(g, s)
  {
    var angle := s.angle;
    if s.pointerLeft {
      angle := angle * -1.0;
    }
    newValue := MapRange(angle, -g.scaleLimit, g.scaleLimit, g.props.descMin, g.props.descMax);
  }

  /** Linear mode as the loop body computes it: total delta, multiplier,
      change, new value, and the ctrl snap. */
  method LinearDragValue(g: Gesture, s: Sample) returns (newValue: real)
    ensures newValue == LinearValue(g, s.y, s.shift, s.ctrl)
  {
    var totalDelta := (g.startY - s.y) as real;
    var multiplier := Multiplier(s.shift);
    var valueChange := totalDelta * (g.props.descMax - g.props.descMin) * multiplier;
    newValue := g.anchorValue + valueChange;
    LinearTargetIs(g, s.y, s.shift, newValue);
    if s.ctrl {
      newValue := RoundGrid(newValue, ValueGridSize);
    }
  }

  /** The loop body's computation for a moved sample: the mode's value,
      clamped to the description range. */
  method DragValue(g: Gesture, s: Sample) returns (newValue: real)
    ensures newValue == SampleValue(g, s)
  {
    if g.props.circularMouse {
      newValue := CircularDragValue(g, s);
    } else {
      newValue := LinearDragValue(g, s);
    }
    newValue := Clamp(newValue, g.props.descMin, g.props.descMax);
  }

  /** The value rule of a gesture: what each moved sample sets. */
  function ValueRule(g: Gesture): Sample -> real
  {
    s => SampleValue(g, s)
  }

  /** The in-drag notification sent after a moved sample. */
  function Notice(id: int, v: real): (m: ActionMessage)
    ensures m.actionId == id && m.value == v && m.inDrag && m.knobMessage == NoKnobMessage
  {
    ActionMessage(id, v, true, NoKnobMessage)
  }

  /** The outcome of a drag: the final value and the messages sent, in order. */
  datatype DragResult = DragResult(value: real, sent: seq<ActionMessage>)

  /** The drag loop, one sample at a time from the current value: a stopping
      sample ends it, a sample without motion is skipped, any other sets the
      value its rule gives and notifies the parent. */
  function Drag(rule: Sample -> real, id: int, value: real, samples: seq<Sample>): (r: DragResult)
    ensures |r.sent| <= |samples|
    decreases |samples|
  {
    if |samples| == 0 || Stops(samples[0]) then DragResult(value, [])
    else if !Moved(samples[0]) then Drag(rule, id, value, samples[1..])
    else
      var v := rule(samples[0]);
      var rest := Drag(rule, id, v, samples[1..]);
      DragResult(rest.value, [Notice(id, v)] + rest.sent)
  }

  // ---------------------------------------------------------------------
  // Reference description of a drag

  /** Index of the first stopping sample, or the length when none stops. */
  function FirstStop(samples: seq<Sample>): (i: nat)
    ensures i <= |samples|
    ensures forall j :: 0 <= j < i ==> !Stops(samples[j])
    ensures i < |samples| ==> Stops(samples[i])
  {
    if |samples| == 0 || Stops(samples[0]) then 0 else 1 + FirstStop(samples[1..])
  }

  /** The samples that moved, in order. */
  function MovedOnly(samples: seq<Sample>): (m: seq<Sample>)
    ensures |m| <= |samples|
    ensures forall k :: 0 <= k < |m| ==> Moved(m[k]) && m[k] in samples
  {
    if |samples| == 0 then []
    else if Moved(samples[0]) then [samples[0]] + MovedOnly(samples[1..])
    else MovedOnly(samples[1..])
  }

  /** Every moved sample is kept, as often as it occurs, and no other. */
  lemma {:induction false} MovedOnlyCounts(samples: seq<Sample>)
    ensures forall x :: multiset(MovedOnly(samples))[x] == if Moved(x) then multiset(samples)[x] else 0
  {
    if |samples| > 0 {
      assert samples == [samples[0]] + samples[1..];
      MovedOnlyCounts(samples[1..]);
    }
  }

  /** Filtering keeps the order of the samples: the moved samples of a
      concatenation are those of the first part followed by those of the
      second. */
  lemma {:induction false} MovedOnlyAppend(a: seq<Sample>, b: seq<Sample>)
    ensures MovedOnly(a + b) == MovedOnly(a) + MovedOnly(b)
  {
    if |a| == 0 {
      assert a + b == b;
    } else {
      assert (a + b)[1..] == a[1..] + b;
      MovedOnlyAppend(a[1..], b);
    }
  }

  /** The samples that set the value: those that moved before the first stop. */
  function Accepted(samples: seq<Sample>): seq<Sample>
  {
    MovedOnly(samples[..FirstStop(samples)])
  }

  /** How Accepted peels off the first sample. */
  lemma AcceptedCons(samples: seq<Sample>)
    requires |samples| > 0
    ensures Stops(samples[0]) ==> Accepted(samples) == []
    ensures !Stops(samples[0]) && !Moved(samples[0]) ==> Accepted(samples) == Accepted(samples[1..])
    ensures !Stops(samples[0]) && Moved(samples[0]) ==> Accepted(samples) == [samples[0]] + Accepted(samples[1..])
  {
    if !Stops(samples[0]) {
      var tail := samples[1..];
      assert FirstStop(samples) == 1 + FirstStop(tail);
      var active := samples[..FirstStop(samples)];
      assert active[0] == samples[0];
      assert active[1..] == tail[..FirstStop(tail)];
    }
  }

  lemma {:induction false} DragPerSample(rule: Sample -> real, id: int, value: real, samples: seq<Sample>)
    ensures var r := Drag(rule, id, value, samples); var acc := Accepted(samples);
      |r.sent| == |acc| &&
      (forall k :: 0 <= k < |acc| ==> r.sent[k] == Notice(id, rule(acc[k]))) &&
      r.value == (if |acc| == 0 then value else rule(acc[|acc| - 1]))
    decreases |samples|
  {
    if |samples| > 0 {
      AcceptedCons(samples);
      if Stops(samples[0]) {
      } else if !Moved(samples[0]) {
        DragPerSample(rule, id, value, samples[1..]);
      } else {
        DragPerSample(rule, id, rule(samples[0]), samples[1..]);
      }
    }
  }

  /** There is exactly one notification per accepted sample, in order,
      carrying the value that sample set, the gadget id and the in-drag flag. */
  lemma DragNotifiesEachAcceptedSample(g: Gesture, value: real, samples: seq<Sample>)
    ensures var r := Drag(ValueRule(g), g.id, value, samples); var acc := Accepted(samples);
      |r.sent| == |acc| &&
      forall k :: 0 <= k < |acc| ==>
        r.sent[k].actionId == g.id && r.sent[k].inDrag && r.sent[k].knobMessage == NoKnobMessage &&
        r.sent[k].value == SampleValue(g, acc[k])
  {
    DragPerSample(ValueRule(g), g.id, value, samples);
  }

  /** The final value is the one the last accepted sample set; with no
      accepted sample the value is unchanged. */
  lemma DragFinalValue(g: Gesture, value: real, samples: seq<Sample>)
    ensures var acc := Accepted(samples);
      Drag(ValueRule(g), g.id, value, samples).value == if |acc| == 0 then value else SampleValue(g, acc[|acc| - 1])
  {
    DragPerSample(ValueRule(g), g.id, value, samples);
  }

  /** The final value is also the value of the last notification. */
  lemma DragValueIsLastNotice(rule: Sample -> real, id: int, value: real, samples: seq<Sample>)
    ensures var r := Drag(rule, id, value, samples);
      (|r.sent| == 0 ==> r.value == value) &&
      (|r.sent| > 0 ==> r.value == r.sent[|r.sent| - 1].value)
  {
    DragPerSample(rule, id, value, samples);
  }

  /** A rule whose values lie in [lo, hi] keeps every notified value there,
      and the final value too once any sample was accepted. */
  lemma DragWithinRuleBounds(rule: Sample -> real, id: int, value: real, samples: seq<Sample>, lo: real, hi: real)
    requires forall s :: lo <= rule(s) <= hi
    ensures var r := Drag(rule, id, value, samples);
      (forall k :: 0 <= k < |r.sent| ==> lo <= r.sent[k].value <= hi) &&
      (|r.sent| > 0 ==> lo <= r.value <= hi)
  {
    DragPerSample(rule, id, value, samples);
  }

  /** With descMin <= descMax every value the knob notifies during a drag,
      and the final value once a sample was accepted (moved before the
      first stop), lies in [descMin, descMax]. */
  lemma DragInBounds(g: Gesture, value: real, samples: seq<Sample>)
    requires g.props.descMin <= g.props.descMax
    ensures var r := Drag(ValueRule(g), g.id, value, samples);
      (forall k :: 0 <= k < |r.sent| ==> g.props.descMin <= r.sent[k].value <= g.props.descMax) &&
      (|r.sent| > 0 ==> g.props.descMin <= r.value <= g.props.descMax)
  {
    forall s {
      SampleValueInBounds(g, s);
    }
    DragWithinRuleBounds(ValueRule(g), g.id, value, samples, g.props.descMin, g.props.descMax);
  }

  /** Samples after a stopping one are never looked at. */
  lemma {:induction false} DragIgnoresAfterStop(rule: Sample -> real, id: int, value: real,
                                                before: seq<Sample>, s: Sample, after: seq<Sample>)
    requires Stops(s)
    ensures Drag(rule, id, value, before + [s] + after) == Drag(rule, id, value, before)
    decreases |before|
  {
    var all := before + [s] + after;
    if |before| == 0 {
      assert all[0] == s;
    } else {
      assert all[0] == before[0];
      assert all[1..] == before[1..] + [s] + after;
      if Stops(before[0]) {
      } else if !Moved(before[0]) {
        DragIgnoresAfterStop(rule, id, value, before[1..], s, after);
      } else {
        DragIgnoresAfterStop(rule, id, rule(before[0]), before[1..], s, after);
      }
    }
  }

  /** A sample without motion that does not stop the drag, wherever it
      comes, changes neither the value nor the messages. */
  lemma {:induction false} DragIgnoresStillSample(rule: Sample -> real, id: int, value: real,
                                                  before: seq<Sample>, s: Sample, after: seq<Sample>)
    requires !Stops(s) && !Moved(s)
    ensures Drag(rule, id, value, before + [s] + after) == Drag(rule, id, value, before + after)
    decreases |before|
  {
    var all := before + [s] + after;
    if |before| == 0 {
      assert all[0] == s;
      assert all[1..] == before + after;
    } else {
      assert all[0] == before[0] && (before + after)[0] == before[0];
      assert all[1..] == before[1..] + [s] + after;
      assert (before + after)[1..] == before[1..] + after;
      if Stops(before[0]) {
      } else if !Moved(before[0]) {
        DragIgnoresStillSample(rule, id, value, before[1..], s, after);
      } else {
        DragIgnoresStillSample(rule, id, rule(before[0]), before[1..], s, after);
      }
    }
  }

  /** A drag that opens with a release sends nothing and keeps the value. */
  lemma ReleaseFirstDoesNothing(rule: Sample -> real, id: int, value: real, s: Sample, rest: seq<Sample>)
    requires Stops(s)
    ensures Drag(rule, id, value, [s] + rest) == DragResult(value, [])
  {
  }

  // ---------------------------------------------------------------------
  // The value of one sample

  /** A moved sample's value lies in [descMin, descMax] when that range is proper. */
  lemma SampleValueInBounds(g: Gesture, s: Sample)
    requires g.props.descMin <= g.props.descMax
    ensures g.props.descMin <= SampleValue(g, s) <= g.props.descMax
  {
  }

  /** Linear mode measures from the start of the gesture: under one gesture
      the value of a sample depends on the sample only through its y, shift
      and ctrl, so two samples that agree on those set the same value. */
  lemma LinearUsesGestureStart(g: Gesture, s: Sample, t: Sample)
    requires !g.props.circularMouse
    requires s.y == t.y && s.shift == t.shift && s.ctrl == t.ctrl
    ensures SampleValue(g, s) == SampleValue(g, t)
  {
  }

  /** Shift and ctrl are read only in linear mode: a circular drag ignores
      both qualifiers. */
  lemma CircularIgnoresQualifiers(g: Gesture, s: Sample, shift: bool, ctrl: bool)
    requires g.props.circularMouse
    ensures SampleValue(g, s) == SampleValue(g, s.(shift := shift, ctrl := ctrl))
  {
  }

  /** Circular mode ignores the gesture's start value and start position. */
  lemma CircularIgnoresAnchor(g: Gesture, h: Gesture, s: Sample)
    requires g.props == h.props && g.scaleLimit == h.scaleLimit && g.props.circularMouse
    ensures SampleValue(g, s) == SampleValue(h, s)
  {
  }

  /** The same drag distance changes the value ten times less with shift
      held than without. */
  lemma ShiftIsTenTimesSlower(g: Gesture, y: int)
    ensures (LinearTarget(g, y, true) - g.anchorValue) * 10.0 == LinearTarget(g, y, false) - g.anchorValue
  {
    var d := (g.startY - y) as real * (g.props.descMax - g.props.descMin);
    assert LinearTarget(g, y, true) - g.anchorValue == d * MultiplierPrecise;
    assert LinearTarget(g, y, false) - g.anchorValue == d * MultiplierNormal;
  }

  /** With ctrl held the linear value is a multiple of the 0.5 grid and
      within a quarter of the unsnapped target. */
  lemma CtrlSnapsToGrid(g: Gesture, y: int, shift: bool)
    ensures var v := LinearValue(g, y, shift, true); var u := LinearTarget(g, y, shift);
      v / ValueGridSize == (v / ValueGridSize).Floor as real &&
      u - ValueGridSize / 2.0 < v <= u + ValueGridSize / 2.0
  {
    var u := LinearTarget(g, y, shift);
    RoundGridIsMultiple(u, ValueGridSize);
    RoundGridError(u, ValueGridSize);
  }

  /** Dragging further up never lowers the value in linear mode when the
      range is proper, with or without ctrl. */
  lemma LinearDragMonotone(g: Gesture, s: Sample, t: Sample)
    requires !g.props.circularMouse && g.props.descMin <= g.props.descMax
    requires t.y <= s.y && s.shift == t.shift && s.ctrl == t.ctrl
    ensures SampleValue(g, s) <= SampleValue(g, t)
  {
    LinearTargetMonotone(g, t.y, s.y, s.shift);
    var us := LinearTarget(g, s.y, s.shift);
    var ut := LinearTarget(g, t.y, s.shift);
    if s.ctrl {
      RoundGridMonotone(us, ut, ValueGridSize);
    }
    ClampMonotone(LinearValue(g, s.y, s.shift, s.ctrl), LinearValue(g, t.y, t.shift, t.ctrl), g.props.descMin, g.props.descMax);
  }

  lemma LinearTargetMonotone(g: Gesture, y1: int, y2: int, shift: bool)
    requires y1 <= y2 && g.props.descMin <= g.props.descMax
    ensures LinearTarget(g, y2, shift) <= LinearTarget(g, y1, shift)
  {
    ScaledMonotone((g.startY - y2) as real, (g.startY - y1) as real, g.props.descMax - g.props.descMin, Multiplier(shift));
  }

  lemma ScaledMonotone(a: real, b: real, w: real, m: real)
    requires a <= b && w >= 0.0 && m > 0.0
    ensures a * w * m <= b * w * m
  {
    ProductNonNegative(b - a, w);
    ProductNonNegative((b - a) * w, m);
    assert b * w * m - a * w * m == (b - a) * w * m;
  }

  lemma ClampMonotone(v: real, w: real, lo: real, hi: real)
    requires v <= w && lo <= hi
    ensures Clamp(v, lo, hi) <= Clamp(w, lo, hi)
  {
  }

  // ---------------------------------------------------------------------
  // Circular mode against the marker

  /** The marker angle the knob draws for a value: the value range mapped
      onto the scale [-limit, limit]. */
  function MarkerAngle(props: DescElementProperties, scaleLimit: real, value: real): (a: real)
    ensures value == props.descMin ==> a == -scaleLimit
    ensures props.descMin != props.descMax && value == props.descMax ==> a == scaleLimit
  {
    MapRangeEndpoints(props.descMin, props.descMax, -scaleLimit, scaleLimit);
    MapRange(value, props.descMin, props.descMax, -scaleLimit, scaleLimit)
  }

  /** Pointing at the marker of an in-range value sets exactly that value:
      the circular mapping undoes the marker mapping. */
  lemma CircularDragAtMarker(g: Gesture, s: Sample, value: real)
    requires g.props.circularMouse && g.scaleLimit > 0.0
    requires g.props.descMin <= value <= g.props.descMax
    requires SignedAngle(s) == MarkerAngle(g.props, g.scaleLimit, value)
    ensures SampleValue(g, s) == value
  {
    if g.props.descMin < g.props.descMax {
      MapRangeInverse(value, g.props.descMin, g.props.descMax, -g.scaleLimit, g.scaleLimit);
    }
  }

  /** The centre of the scale is the middle of the value range; the ends of
      the scale and beyond pin to descMin and descMax. */
  lemma CircularScaleEnds(g: Gesture, s: Sample)
    requires g.props.circularMouse && g.scaleLimit > 0.0 && g.props.descMin <= g.props.descMax
    ensures SignedAngle(s) == 0.0 ==> SampleValue(g, s) == (g.props.descMin + g.props.descMax) / 2.0
    ensures SignedAngle(s) <= -g.scaleLimit ==> SampleValue(g, s) == g.props.descMin
    ensures SignedAngle(s) >= g.scaleLimit ==> SampleValue(g, s) == g.props.descMax
  {
    var lo := g.props.descMin;
    var hi := g.props.descMax;
    var a := SignedAngle(s);
    var l := g.scaleLimit;
    MapRangeEndpoints(-l, l, lo, hi);
    if a == 0.0 {
      assert (-l + l) / 2.0 == a;
      MapRangeMidpoint(-l, l, lo, hi);
      assert lo <= (lo + hi) / 2.0 <= hi;
    } else if a <= -l {
      MapRangeMonotone(a, -l, -l, l, lo, hi);
    } else if a >= l {
      MapRangeMonotone(l, a, -l, l, lo, hi);
    }
  }

  // ---------------------------------------------------------------------
  // Defaults and examples

  /** With default-constructed properties every moved sample sets 0. */
  lemma DefaultPropertiesPinToZero(g: Gesture, s: Sample)
    requires g.props == DefaultProperties()
    ensures SampleValue(g, s) == 0.0
  {
  }

  /** A linear knob over [0, 10] started at 5 from y = 100: twenty pixels up
      give 7; seventeen pixels up with ctrl give 6.5 snapped from 6.7; with
      shift, twenty pixels up give 5.2. */
  lemma LinearExamples()
    ensures var g := Gesture(DescElementProperties(false, false, false, false, 0.0, 10.0, 0.0, ""), 1.0, KnobAreaId, 5.0, 100);
      var s := Sample(0.0, -20.0, true, 1, 80, false, false, 0.0, false);
      SampleValue(g, s) == 7.0 &&
      SampleValue(g, s.(y := 83, ctrl := true)) == 6.5 &&
      SampleValue(g, s.(shift := true)) == 5.2
  {
    var g := Gesture(DescElementProperties(false, false, false, false, 0.0, 10.0, 0.0, ""), 1.0, KnobAreaId, 5.0, 100);
    var s := Sample(0.0, -20.0, true, 1, 80, false, false, 0.0, false);
    assert LinearTarget(g, 83, false) == 6.7;
    assert (6.7 / 0.5 + 0.5).Floor == 13;
  }
}
