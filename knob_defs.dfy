/** Constants and the description-element record of the rotary knob
    custom GUI header. */
module KnobDefs {

  /// Gadget id of the knob user area inside the custom GUI.
  const KnobAreaId: int := 1001

  /// Custom property ids read from the description container.
  const RotaryHideValue: int := 10000
  const RotaryValueInKnob: int := 10001
  const RotaryHideName: int := 10002
  const RotaryCircularMouse: int := 10003

  /// Standard width (and height) of the custom GUI, in pixels.
  const KnobAreaWidth: int := 100
  /// Value change per pixel of vertical drag, relative to the value range.
  const MultiplierNormal: real := 0.01
  /// The same with shift held: the knob moves slower.
  const MultiplierPrecise: real := 0.001
  /// Grid the value snaps to while ctrl is held during a drag.
  const ValueGridSize: real := 0.5

  /** Keys of a description container. The custom properties carry their
      numeric ids; the host's own DESC_MIN, DESC_MAX, DESC_STEP and DESC_NAME
      ids are not part of this model, so they are kept apart. */
  datatype Key = PropertyId(id: int) | DescMin | DescMax | DescStep | DescName

  /** One entry of a container. */
  datatype GeData = BoolData(b: bool) | FloatData(f: real) | StringData(s: string)

  /** A host container: keys mapped to typed entries. */
  type Container = map<Key, GeData>

  /** Reading a flag: false when the key is absent or holds no flag. */
  function GetBool(src: Container, key: Key): bool
  {
    if key in src && src[key].BoolData? then src[key].b else false
  }

  /** Reading a float with a default for an absent key. */
  function GetFloat(src: Container, key: Key, default: real): real
  {
    if key in src && src[key].FloatData? then src[key].f else default
  }

  /** Reading a string: empty when absent. */
  function GetString(src: Container, key: Key): string
  {
    if key in src && src[key].StringData? then src[key].s else ""
  }

  /** The description properties the knob needs. */
  datatype DescElementProperties = DescElementProperties(
    hideValue: bool,      // hide the value display
    valueInKnob: bool,    // draw the value inside the knob
    hideName: bool,       // do not draw the name above the knob
    circularMouse: bool,  // circular instead of linear mouse movement
    descMin: real,
    descMax: real,
    descStep: real,
    descName: string)

  /** The default constructor: every flag off, every number 0. */
  function DefaultProperties(): (p: DescElementProperties)
    ensures !p.hideValue && !p.valueInKnob && !p.hideName && !p.circularMouse
    ensures p.descMin == 0.0 && p.descMax == 0.0 && p.descStep == 0.0
    ensures p.descName == ""
  {
    DescElementProperties(false, false, false, false, 0.0, 0.0, 0.0, "")
  }

  /** The constructor from a description container. */
  function FromContainer(src: Container): (p: DescElementProperties)
    ensures p.hideValue <==> PropertyId(RotaryHideValue) in src && src[PropertyId(RotaryHideValue)] == BoolData(true)
    ensures p.valueInKnob <==> PropertyId(RotaryValueInKnob) in src && src[PropertyId(RotaryValueInKnob)] == BoolData(true)
    ensures p.hideName <==> PropertyId(RotaryHideName) in src && src[PropertyId(RotaryHideName)] == BoolData(true)
    ensures p.circularMouse <==> PropertyId(RotaryCircularMouse) in src && src[PropertyId(RotaryCircularMouse)] == BoolData(true)
    ensures DescMin in src && src[DescMin].FloatData? ==> p.descMin == src[DescMin].f
    ensures !(DescMin in src && src[DescMin].FloatData?) ==> p.descMin == 0.0
    ensures DescMax in src && src[DescMax].FloatData? ==> p.descMax == src[DescMax].f
    ensures !(DescMax in src && src[DescMax].FloatData?) ==> p.descMax == 0.0
    ensures DescStep in src && src[DescStep].FloatData? ==> p.descStep == src[DescStep].f
    ensures !(DescStep in src && src[DescStep].FloatData?) ==> p.descStep == 0.0
    ensures DescName in src && src[DescName].StringData? ==> p.descName == src[DescName].s
    ensures !(DescName in src && src[DescName].StringData?) ==> p.descName == ""
  {
    DescElementProperties(
      GetBool(src, PropertyId(RotaryHideValue)),
      GetBool(src, PropertyId(RotaryValueInKnob)),
      GetBool(src, PropertyId(RotaryHideName)),
      GetBool(src, PropertyId(RotaryCircularMouse)),
      GetFloat(src, DescMin, 0.0),
      GetFloat(src, DescMax, 0.0),
      GetFloat(src, DescStep, 0.0),
      GetString(src, DescName))
  }

  /** The keys the container constructor reads. */
  predicate IsPropertyKey(k: Key)
  {
    k in {PropertyId(RotaryHideValue), PropertyId(RotaryValueInKnob), PropertyId(RotaryHideName),
          PropertyId(RotaryCircularMouse), DescMin, DescMax, DescStep, DescName}
  }

  /** A container holding every property of p under its own key. */
  function ToContainer(p: DescElementProperties): (c: Container)
    ensures forall k :: k in c <==> IsPropertyKey(k)
  {
    map[PropertyId(RotaryHideValue) := BoolData(p.hideValue),
        PropertyId(RotaryValueInKnob) := BoolData(p.valueInKnob),
        PropertyId(RotaryHideName) := BoolData(p.hideName),
        PropertyId(RotaryCircularMouse) := BoolData(p.circularMouse),
        DescMin := FloatData(p.descMin),
        DescMax := FloatData(p.descMax),
        DescStep := FloatData(p.descStep),
        DescName := StringData(p.descName)]
  }

  /** Reading back a container written from a record gives the record. */
  lemma FromContainerOfToContainer(p: DescElementProperties)
    ensures FromContainer(ToContainer(p)) == p
  {
  }

  /** Entries under keys the constructor does not read change nothing. */
  lemma FromContainerIgnoresOtherKeys(src: Container, k: Key, v: GeData)
    requires !IsPropertyKey(k)
    ensures FromContainer(src[k := v]) == FromContainer(src)
  {
  }

  /** An empty container yields exactly the default-constructed record. */
  lemma EmptyContainerGivesDefaults()
    ensures FromContainer(map[]) == DefaultProperties()
  {
  }

  /** The precise multiplier is a tenth of the normal one. */
  lemma PreciseIsTenthOfNormal()
    ensures MultiplierPrecise * 10.0 == MultiplierNormal
    ensures 0.0 < MultiplierPrecise < MultiplierNormal
  {
  }
}
