/** The two objects of the rotary knob custom GUI: the knob user area, which
    runs the mouse drag, and the custom GUI that holds the parameter value
    and mirrors it into the knob. */
module KnobGui {
  import opened KnobMath
  import opened KnobDefs
  import opened KnobDrag

  datatype Device = MouseDevice | OtherDevice
  datatype Channel = MouseLeft | OtherChannel

  /** An input event as the user area receives it; y is the local start
      position of a drag. */
  datatype InputMsg = InputMsg(device: Device, channel: Channel, doubleClick: bool, y: int)

  /** A value with its tristate flag, as the host passes description data. */
  datatype TriState = TriState(data: GeData, tri: bool)

  /** Whether Command handled an element or left it to the base dialog. */
  datatype CommandResult = Handled | PassToBase

  /** The user area drawing the knob and turning mouse drags into values. */
  class RotaryKnobArea {
    const id: int
    /// The scale limit in radians; the marker and circular mode use [-scaleLimit, scaleLimit].
    const scaleLimit: real
    var tristate: bool
    var value: real
    var properties: DescElementProperties
    /// Messages sent to the parent element, oldest first.
    var sent: seq<ActionMessage>

    constructor (id: int, scaleLimit: real)
      ensures this.id == id && this.scaleLimit == scaleLimit
      ensures !tristate && value == 0.0 && properties == DefaultProperties() && sent == []
    {
      this.id := id;
      this.scaleLimit := scaleLimit;
      tristate := false;
      value := 0.0;
      properties := DefaultProperties();
      sent := [];
    }

    /** The user area asks for a square of the standard width. */
    method GetMinSize() returns (w: int, h: int, ok: bool)
      ensures w == KnobAreaWidth && h == KnobAreaWidth && ok
    {
      w := KnobAreaWidth;
      h := w;
      ok := true;
    }

    method SetProperties(p: DescElementProperties)
      modifies this`properties
      ensures properties == p
    {
      properties := p;
    }

    method SetValue(newValue: real, newTristate: bool)
      modifies this`value, this`tristate
      ensures value == newValue && tristate == newTristate
    {
      value := newValue;
      tristate := newTristate;
    }

    method GetValue() returns (v: real)
      ensures v == value
    {
      v := value;
    }

    /** A left-mouse event: a double click asks the parent for the value
        popup; anything else runs the drag over the host's samples, which end
        where the host stops the drag. Other events are not handled. */
    method InputEvent(msg: InputMsg, samples: seq<Sample>) returns (handled: bool)
      modifies this`value, this`sent
      ensures handled <==> msg.device == MouseDevice && msg.channel == MouseLeft
      ensures !handled ==> value == old(value) && sent == old(sent)
      ensures handled && msg.doubleClick ==>
        value == old(value) && sent == old(sent) + [ActionMessage(id, old(value), false, ShowPopup)]
      ensures handled && !msg.doubleClick ==>
        var r := Drag(ValueRule(Gesture(properties, scaleLimit, id, old(value), msg.y)), id, old(value), samples);
        value == r.value && sent == old(sent) + r.sent
    {
      if msg.device == MouseDevice && msg.channel == MouseLeft {
        if msg.doubleClick {
          sent := sent + [ActionMessage(id, value, false, ShowPopup)];
          return true;
        }
        var startY := msg.y;
        var oldValue := value;
        var g := Gesture(properties, scaleLimit, id, oldValue, startY);
        ghost var total := Drag(ValueRule(g), id, value, samples);
        var i := 0;
        while i < |samples|
          invariant 0 <= i <= |samples|
          invariant Drag(ValueRule(g), id, value, samples[i..]).value == total.value
          invariant sent + Drag(ValueRule(g), id, value, samples[i..]).sent == old(sent) + total.sent
          decreases |samples| - i
        {
          var s := samples[i];
          assert samples[i..][1..] == samples[i + 1..];
          if !s.stateOk {
            break;
          }
          if s.button == 0 {
            break;
          }
          if s.deltaX != 0.0 || s.deltaY != 0.0 {
            value := DragValue(g, s);
            sent := sent + [ActionMessage(id, value, true, NoKnobMessage)];
          }
          i := i + 1;
        }
        return true;
      }
      return false;
    }
  }

  /** The custom GUI shown for a REAL parameter. */
  class RotaryKnobCustomGui {
    const id: int
    var value: real
    var tristate: bool
    const knob: RotaryKnobArea
    var descProperties: DescElementProperties
    /// Messages sent to the parent element, oldest first.
    var sent: seq<ActionMessage>

    /** Built from the description settings. The knob user area is created
        here with the knob gadget id, which the source assigns when the
        layout attaches it. */
    constructor (id: int, settings: Container, scaleLimit: real)
      ensures this.id == id && value == 0.0 && !tristate
      ensures descProperties == FromContainer(settings) && sent == []
      ensures fresh(knob) && knob.id == KnobAreaId && knob.scaleLimit == scaleLimit
      ensures knob.value == 0.0 && !knob.tristate && knob.properties == DefaultProperties() && knob.sent == []
    {
      this.id := id;
      tristate := false;
      value := 0.0;
      knob := new RotaryKnobArea(KnobAreaId, scaleLimit);
      descProperties := FromContainer(settings);
      sent := [];
    }

    /** The knob part of building the layout: the knob receives the
        description properties and the current value. */
    method CreateLayout()
      modifies knob`properties, knob`value, knob`tristate
      ensures knob.properties == descProperties && knob.value == value && knob.tristate == tristate
    {
      knob.SetProperties(descProperties);
      knob.SetValue(value, tristate);
    }

    /** Mirrors value and tristate into the knob. */
    method InitValues()
      modifies knob`value, knob`tristate
      ensures knob.value == value && knob.tristate == tristate
    {
      knob.SetValue(value, tristate);
    }

    /** Sends the current value to the parent element. */
    method SendParentGuiMessage()
      modifies this`sent
      ensures sent == old(sent) + [ActionMessage(id, value, false, NoKnobMessage)]
    {
      sent := sent + [ActionMessage(id, value, false, NoKnobMessage)];
    }

    /** A message from an element of the GUI. The knob's popup request is
        only acknowledged; any other knob message takes over the knob's value,
        mirrors it back and forwards it to the parent. Other elements go to the
        base dialog. */
    method Command(elementId: int, msg: ActionMessage) returns (result: CommandResult)
      modifies this`value, this`sent, knob`value, knob`tristate
      ensures elementId != KnobAreaId ==>
        result == PassToBase && value == old(value) && sent == old(sent) &&
        knob.value == old(knob.value) && knob.tristate == old(knob.tristate)
      ensures elementId == KnobAreaId && msg.knobMessage == ShowPopup ==>
        result == Handled && value == old(value) && sent == old(sent) &&
        knob.value == old(knob.value) && knob.tristate == old(knob.tristate)
      ensures elementId == KnobAreaId && msg.knobMessage != ShowPopup ==>
        result == Handled && value == old(knob.value) &&
        knob.value == value && knob.tristate == tristate &&
        sent == old(sent) + [ActionMessage(id, value, false, NoKnobMessage)]
    {
      if elementId == KnobAreaId {
        if msg.knobMessage == ShowPopup {
          return Handled;
        }
        value := knob.GetValue();
        InitValues();
        SendParentGuiMessage();
        return Handled;
      }
      return PassToBase;
    }

    /** Data from outside: a float is stored with its tristate flag (any
        other kind of data reads as 0) and mirrored into the knob. */
    method SetData(t: TriState) returns (ok: bool)
      modifies this`value, this`tristate, knob`value, knob`tristate
      ensures value == (if t.data.FloatData? then t.data.f else 0.0) && tristate == t.tri
      ensures knob.value == value && knob.tristate == tristate
      ensures ok
    {
      value := if t.data.FloatData? then t.data.f else 0.0;
      tristate := t.tri;
      InitValues();
      ok := true;
    }

    /** Data requested from outside: only the value, never a tristate. */
    method GetData() returns (t: TriState)
      ensures t == TriState(FloatData(value), false)
    {
      t := TriState(FloatData(value), false);
    }

    method CustomGuiWidth() returns (w: int)
      ensures w == KnobAreaWidth
    {
      w := KnobAreaWidth;
    }

    method CustomGuiHeight() returns (h: int)
      ensures h == KnobAreaWidth
    {
      h := KnobAreaWidth;
    }
  }
}
