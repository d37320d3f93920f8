/** The shape shared by every countdown label in the application: a list of
    space-separated fields, each a decimal number followed by a unit letter
    ("1d 2h 3m", "4h 5m 6s", "7m 8s"). Rendering is what the components do;
    parsing is the reading a user makes of the label, used to state what a
    label means. */
module Labels {
  import opened Common
  import opened Decimal

  /** One field of a countdown label: `value` followed by its `unit` letter. */
  datatype Field = Field(value: nat, unit: char)

  predicate IsUnit(c: char) { 'a' <= c <= 'z' }

  predicate UnitsAreLetters(fs: seq<Field>) {
    forall k :: 0 <= k < |fs| ==> IsUnit(fs[k].unit)
  }

  /** How many seconds one step of a unit letter stands for. */
  function UnitSeconds(unit: char): nat {
    match unit
    case 'd' => 86400
    case 'h' => 3600
    case 'm' => 60
    case 's' => 1
    case _ => 0
  }

  /** The number of seconds a list of fields reads as. */
  function Seconds(fs: seq<Field>): nat {
    if fs == [] then 0 else fs[0].value * UnitSeconds(fs[0].unit) + Seconds(fs[1..])
  }

  /** The unit letters of a list of fields, in order. */
  function Units(fs: seq<Field>): (r: string)
    ensures |r| == |fs|
    ensures forall k :: 0 <= k < |fs| ==> r[k] == fs[k].unit
  {
    if fs == [] then [] else [fs[0].unit] + Units(fs[1..])
  }

  function RenderField(f: Field): string {
    NatToString(f.value) + [f.unit]
  }

  /** The fields joined by single spaces, as a template literal such as
      `${h}h ${m}m ${sec}s` writes them. */
  function RenderFields(fs: seq<Field>): string
    requires fs != []
  {
    if |fs| == 1 then RenderField(fs[0])
    else RenderField(fs[0]) + " " + RenderFields(fs[1..])
  }

  /** Reads a label back into its fields; `None` when the text does not have
      the shape "number unit ( number unit)*". */
  function ParseFields(s: string): Option<seq<Field>>
    decreases |s|
  {
    var k := DigitPrefixLength(s);
    if k == 0 || k == |s| || !IsUnit(s[k]) then None
    else
      var f := Field(DigitsValue(s[..k]), s[k]);
      if k + 1 == |s| then Some([f])
      else if s[k + 1] != ' ' then None
      else
        match ParseFields(s[k + 2..])
        case None => None
        case Some(fs) => Some([f] + fs)
  }

  /** Parsing one rendered field that is followed by `rest` (nothing, or a
      space and more text) recovers the field and leaves `rest`. */
  lemma ParseHead(f: Field, rest: string)
    requires IsUnit(f.unit)
    ensures var s := RenderField(f) + rest;
      var k := |NatToString(f.value)|;
      DigitPrefixLength(s) == k && k < |s| && s[k] == f.unit && DigitsValue(s[..k]) == f.value
      && s[k + 1..] == rest
  {
    var digits := NatToString(f.value);
    var s := RenderField(f) + rest;
    assert s == digits + ([f.unit] + rest);
    DigitPrefixOfRun(digits, [f.unit] + rest);
    assert s[..|digits|] == digits;
    ReadBack(f.value);
  }

  /** A single rendered field reads back as that field. */
  lemma ParseOne(f: Field)
    requires IsUnit(f.unit)
    ensures ParseFields(RenderField(f)) == Some([f])
  {
    ParseHead(f, []);
    assert RenderField(f) + [] == RenderField(f);
  }

  /** A rendered field followed by a space and `tail` reads as that field
      followed by whatever `tail` reads as. */
  lemma ParseCons(f: Field, tail: string)
    requires IsUnit(f.unit)
    ensures ParseFields(RenderField(f) + " " + tail) ==
      match ParseFields(tail)
      case None => None
      case Some(fs) => Some([f] + fs)
  {
    var s := RenderField(f) + " " + tail;
    assert s == RenderField(f) + (" " + tail);
    ParseHead(f, " " + tail);
    var k := |NatToString(f.value)|;
    assert s[k + 1..] == " " + tail;
    assert s[k + 2..] == tail;
  }

  /** Every non-empty list of fields with letter units reads back unchanged
      from its rendering. */
  lemma {:induction false} ParseRender(fs: seq<Field>)
    requires fs != [] && UnitsAreLetters(fs)
    ensures ParseFields(RenderFields(fs)) == Some(fs)
    decreases |fs|
  {
    if |fs| == 1 {
      ParseOne(fs[0]);
      assert fs == [fs[0]];
    } else {
      var tail := RenderFields(fs[1..]);
      assert RenderFields(fs) == RenderField(fs[0]) + " " + tail;
      ParseRender(fs[1..]);
      ParseCons(fs[0], tail);
      assert fs == [fs[0]] + fs[1..];
    }
  }

  /** A rendered label starts with a digit. */
  lemma RenderStartsWithDigit(fs: seq<Field>)
    requires fs != []
    ensures IsDigit(RenderFields(fs)[0])
  {
    assert RenderFields(fs)[0] == NatToString(fs[0].value)[0];
  }

  /** A character other than a digit, a space or one of the unit letters
      never occurs in a rendered label. */
  lemma {:induction false} RenderAlphabet(fs: seq<Field>, c: char)
    requires fs != []
    requires !IsDigit(c) && c != ' '
    requires forall k :: 0 <= k < |fs| ==> fs[k].unit != c
    ensures c !in RenderFields(fs)
    decreases |fs|
  {
    var digits := NatToString(fs[0].value);
    assert forall i :: 0 <= i < |digits| ==> digits[i] != c;
    if |fs| > 1 {
      RenderAlphabet(fs[1..], c);
      assert RenderFields(fs) == digits + [fs[0].unit] + " " + RenderFields(fs[1..]);
    } else {
      assert RenderFields(fs) == digits + [fs[0].unit];
    }
  }

  /** A unit letter that is one of the fields' units occurs in the label. */
  lemma RenderHasUnit(fs: seq<Field>, i: nat)
    requires i < |fs|
    ensures fs[i].unit in RenderFields(fs)
    decreases |fs|
  {
    if |fs| > 1 {
      var head := RenderField(fs[0]) + " ";
      assert RenderFields(fs) == head + RenderFields(fs[1..]);
      if i > 0 {
        RenderHasUnit(fs[1..], i - 1);
      } else {
        assert RenderFields(fs)[|NatToString(fs[0].value)|] == fs[0].unit;
      }
    } else {
      assert RenderFields(fs)[|NatToString(fs[0].value)|] == fs[0].unit;
    }
  }

  /** What the Home and AuctionDetail `Countdown` components return: the
      "Ended" span, or a live span with its label and its urgent flag. */
  datatype CountdownSpan = EndedSpan | LiveSpan(text: string, urgent: bool)

  /** The text content of a countdown span. */
  function SpanText(span: CountdownSpan): string {
    match span
    case EndedSpan => "Ended"
    case LiveSpan(text, _) => text
  }
}
