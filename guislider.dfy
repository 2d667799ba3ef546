// The GUI slider control: a press / move / release state machine whose value
// is kept inside [MinValue, MaxValue], and its fixed-order serialisation to
// game data and savegames. Streams are sequences of 32-bit words.
module GuiSliderModel {
  import opened Wrappers

  /** GUI data format versions that change the slider record. */
  const kGuiVersion_unkn_104: int := 104
  const kGuiVersion_350: int := 119

  /** The serialised state of a slider. */
  datatype SliderFields = SliderFields(minValue: int, maxValue: int, value: int,
                                       handleImage: int, handleOffset: int, bgImage: int)

  /** Game data order: MinValue, MaxValue, Value, HandleImage, HandleOffset, BgImage. */
  function FileWords(f: SliderFields): (w: seq<int>)
    ensures |w| == 6
  {
    [f.minValue, f.maxValue, f.value, f.handleImage, f.handleOffset, f.bgImage]
  }

  /** Number of words a slider record of the given GUI version occupies. */
  function FileWordCount(version: int): (n: nat)
    ensures version >= kGuiVersion_350 ==> n == 6
    ensures version < kGuiVersion_unkn_104 ==> n == 4
  {
    3 + (if version < kGuiVersion_350 then 1 else 0) + (if version >= kGuiVersion_unkn_104 then 3 else 0)
  }

  /** What ReadFromFile takes from the stream: the fields, the pressed flag
      stored by versions before 3.5.0, and the rest of the stream. */
  datatype FileRecord = FileRecord(fields: SliderFields, pressed: Option<bool>, rest: seq<int>)

  function ParseFile(words: seq<int>, version: int): (r: FileRecord)
    requires |words| >= FileWordCount(version)
    ensures r.rest == words[FileWordCount(version)..]
    ensures r.pressed.Some? <==> version < kGuiVersion_350
    ensures version < kGuiVersion_unkn_104 ==>
      r.fields.handleImage == -1 && r.fields.handleOffset == 0 && r.fields.bgImage == 0
  {
    var pressed := if version < kGuiVersion_350 then Some(words[3] != 0) else None;
    var p := if version < kGuiVersion_350 then 4 else 3;
    var fields :=
      if version >= kGuiVersion_unkn_104 then SliderFields(words[0], words[1], words[2], words[p], words[p + 1], words[p + 2])
      else SliderFields(words[0], words[1], words[2], -1, 0, 0);
    FileRecord(fields, pressed, words[FileWordCount(version)..])
  }

  /** A record written by WriteToFile reads back whole in the current format. */
  lemma FileRoundTrip(f: SliderFields, rest: seq<int>, version: int)
    requires version >= kGuiVersion_350
    ensures ParseFile(FileWords(f) + rest, version) == FileRecord(f, None, rest)
  {
    assert (FileWords(f) + rest)[6..] == rest;
  }

  /** Savegame order: BgImage, HandleImage, HandleOffset, MinValue, MaxValue, Value. */
  function SaveWords(f: SliderFields): (w: seq<int>)
    ensures |w| == 6
  {
    [f.bgImage, f.handleImage, f.handleOffset, f.minValue, f.maxValue, f.value]
  }

  function ParseSave(words: seq<int>): (r: (SliderFields, seq<int>))
    requires |words| >= 6
    ensures r.1 == words[6..]
  {
    (SliderFields(words[3], words[4], words[5], words[1], words[2], words[0]), words[6..])
  }

  lemma SaveRoundTrip(f: SliderFields, rest: seq<int>)
    ensures ParseSave(SaveWords(f) + rest) == (f, rest)
  {
    assert (SaveWords(f) + rest)[6..] == rest;
  }

  function Clamp(v: int, lo: int, hi: int): (r: int)
    requires lo <= hi
    ensures lo <= r <= hi
    ensures lo <= v <= hi ==> r == v
    ensures v < lo ==> r == lo
    ensures v > hi ==> r == hi
  {
    if v < lo then lo else if v > hi then hi else v
  }

  /** Every mutable field of a slider, so that an operation can state that it
      changes the named fields and nothing else. */
  datatype SliderState = SliderState(x: int, y: int, width: int, height: int, fields: SliderFields,
                                     isMousePressed: bool, isActivated: bool, hasChanged: bool,
                                     handleRange: int)

  class GUISlider {
    var x: int
    var y: int
    var width: int
    var height: int
    var minValue: int
    var maxValue: int
    var value: int
    var bgImage: int
    var handleImage: int
    var handleOffset: int
    var isMousePressed: bool
    var isActivated: bool
    /** Set by MarkChanged: the control needs redrawing. */
    var hasChanged: bool
    var handleRange: int

    constructor ()
      ensures minValue == 0 && maxValue == 10 && value == 0
      ensures bgImage == 0 && handleImage == 0 && handleOffset == 0
      ensures !isMousePressed && handleRange == 0
    {
      minValue, maxValue, value := 0, 10, 0;
      bgImage, handleImage, handleOffset := 0, 0, 0;
      isMousePressed := false;
      handleRange := 0;
      x, y, width, height := 0, 0, 0, 0;
      isActivated, hasChanged := false, false;
    }

    function Fields(): (f: SliderFields)
      reads this
      ensures f.minValue == minValue && f.maxValue == maxValue && f.value == value
      ensures f.handleImage == handleImage && f.handleOffset == handleOffset && f.bgImage == bgImage
    {
      SliderFields(minValue, maxValue, value, handleImage, handleOffset, bgImage)
    }

    function State(): (s: SliderState)
      reads this
      ensures s.fields == Fields() && s.isMousePressed == isMousePressed && s.handleRange == handleRange
    {
      SliderState(x, y, width, height, Fields(), isMousePressed, isActivated, hasChanged, handleRange)
    }

    predicate IsHorizontal()
      reads this
      ensures IsHorizontal() <==> width > height
    {
      width > height
    }

    /** The range and handle part of UpdateMetrics: an empty range gets
        MaxValue = MinValue + 1, Value is clamped, a missing handle sprite is
        dropped, and the handle travel is at least 1. */
    method UpdateMetrics(spriteAvailable: int -> bool)
      modifies this
      ensures minValue == old(minValue)
      ensures maxValue == if old(minValue) >= old(maxValue) then old(minValue) + 1 else old(maxValue)
      ensures minValue < maxValue && minValue <= value <= maxValue
      ensures old(minValue) <= old(value) <= maxValue ==> value == old(value)
      ensures value == Clamp(old(value), minValue, maxValue)
      ensures handleImage == if spriteAvailable(old(handleImage)) then old(handleImage) else 0
      ensures handleRange >= 1
      ensures handleRange == if IsHorizontal() then Max(1, width - 4) else Max(1, height - 4)
      ensures State() == old(State()).(fields := Fields(), handleRange := handleRange)
      ensures Fields() == old(Fields()).(maxValue := maxValue, value := value, handleImage := handleImage)
    {
      if minValue >= maxValue {
        maxValue := minValue + 1;
      }
      value := Clamp(value, minValue, maxValue);
      if !spriteAvailable(handleImage) {
        handleImage := 0;
      }
      var range := if IsHorizontal() then width - 4 else height - 4;
      handleRange := Max(1, range);
    }

    method OnMouseDown() returns (r: bool)
      modifies this
      ensures r && isMousePressed
      ensures State() == old(State()).(isMousePressed := true)
    {
      isMousePressed := true;
      return true;
    }

    /** `position` is the value the mouse position maps to along the slider
        (computed in floating point by the source). */
    method OnMouseMove(position: int)
      requires minValue <= maxValue
      modifies this
      ensures !old(isMousePressed) ==> value == old(value) && hasChanged == old(hasChanged) && isActivated == old(isActivated)
      ensures old(isMousePressed) ==>
        minValue <= value <= maxValue && value == Clamp(position, minValue, maxValue) && isActivated &&
        hasChanged == (old(hasChanged) || value != old(value))
      ensures State() == old(State()).(fields := old(Fields()).(value := value), isActivated := isActivated, hasChanged := hasChanged)
    {
      if !isMousePressed {
        return;
      }
      var v := Clamp(position, minValue, maxValue);
      if v != value {
        value := v;
        hasChanged := true;
      }
      isActivated := true;
    }

    method OnMouseUp()
      modifies this
      ensures !isMousePressed
      ensures State() == old(State()).(isMousePressed := false)
    {
      isMousePressed := false;
    }

    method ReadFromFile(words: seq<int>, version: int) returns (rest: seq<int>)
      requires |words| >= FileWordCount(version)
      modifies this
      ensures Fields() == ParseFile(words, version).fields && rest == ParseFile(words, version).rest
      ensures isMousePressed == if version < kGuiVersion_350 then words[3] != 0 else old(isMousePressed)
      ensures State() == old(State()).(fields := Fields(), isMousePressed := isMousePressed)
    {
      var r := ParseFile(words, version);
      minValue, maxValue, value := r.fields.minValue, r.fields.maxValue, r.fields.value;
      if r.pressed.Some? {
        isMousePressed := r.pressed.value;
      }
      handleImage, handleOffset, bgImage := r.fields.handleImage, r.fields.handleOffset, r.fields.bgImage;
      rest := r.rest;
    }

    method WriteToFile(out: seq<int>) returns (out': seq<int>)
      ensures out' == out + [minValue, maxValue, value, handleImage, handleOffset, bgImage]
      ensures ParseFile(out'[|out|..], kGuiVersion_350).fields == Fields()
    {
      out' := out + FileWords(Fields());
      FileRoundTrip(Fields(), [], kGuiVersion_350);
      assert out'[|out|..] == FileWords(Fields()) + [];
    }

    method ReadFromSavegame(words: seq<int>) returns (rest: seq<int>)
      requires |words| >= 6
      modifies this
      ensures Fields() == ParseSave(words).0 && rest == words[6..]
      ensures State() == old(State()).(fields := Fields())
    {
      var r := ParseSave(words);
      minValue, maxValue, value := r.0.minValue, r.0.maxValue, r.0.value;
      handleImage, handleOffset, bgImage := r.0.handleImage, r.0.handleOffset, r.0.bgImage;
      rest := r.1;
    }

    method WriteToSavegame(out: seq<int>) returns (out': seq<int>)
      ensures out' == out + [bgImage, handleImage, handleOffset, minValue, maxValue, value]
      ensures ParseSave(out'[|out|..]).0 == Fields()
    {
      out' := out + SaveWords(Fields());
      SaveRoundTrip(Fields(), []);
      assert out'[|out|..] == SaveWords(Fields()) + [];
    }
  }

  function Max(a: int, b: int): int { if a < b then b else a }
}
