/** Field descriptors of the schema engine (app/fall3d/dataclasses.py):
    the Python value a field holds, how a field displays itself
    (`Field._fmt`, `Field.__str__`, `FieldBoolean._fmt`), its `mtype`, and the
    three texts made from a date value (`str(date)`, `CustomDate.__repr__`
    and the YEAR/MONTH/DAY lines of the time section). */
module Fields {
  import opened Wrappers
  import opened PyText

  /** A Python value held by a field. A float is represented by the text that
      `str()` gives for it; the source never computes with floats. */
  datatype Value =
    | NoValue                                // None
    | Str(s: string)
    | Int(i: int)
    | Float(repr: string)
    | Bool(b: bool)
    | Date(year: nat, month: nat, day: nat)

  /** `str(v)` */
  function PyStr(v: Value): string
  {
    match v
    case NoValue => "None"
    case Str(s) => s
    case Int(i) => IntStr(i)
    case Float(r) => r
    case Bool(b) => if b then "True" else "False"
    case Date(y, m, d) => IsoDate(y, m, d)
  }

  /** Python truthiness (`if v:`). */
  predicate Truthy(v: Value)
  {
    match v
    case NoValue => false
    case Str(s) => s != ""
    case Int(i) => i != 0
    case Float(r) => r != "0.0" && r != "-0.0"
    case Bool(b) => b
    case Date(_, _, _) => true
  }

  // ---------------------------------------------------------------------
  // dates

  predicate ValidDate(year: nat, month: nat, day: nat)
  {
    1 <= year <= 9999 && 1 <= month <= 12 && 1 <= day <= 31
  }

  /** `str(d)`, that is `d.isoformat()`: `YYYY-MM-DD`. */
  function IsoDate(year: nat, month: nat, day: nat): string
  {
    ZeroPad(year, 4) + "-" + ZeroPad(month, 2) + "-" + ZeroPad(day, 2)
  }

  /** `CustomDate.__repr__`: `date(Y,M,D)` with unpadded numbers. */
  function DateRepr(year: nat, month: nat, day: nat): string
  {
    "date(" + NatStr(year) + "," + NatStr(month) + "," + NatStr(day) + ")"
  }

  /** `d.strftime("YEAR = %Y \nMONTH = %m\nDAY = %d")`, the text SectionTime
      renders in place of a DATE line. */
  function DateLines(year: nat, month: nat, day: nat): string
  {
    "YEAR = " + ZeroPad(year, 4) + " \nMONTH = " + ZeroPad(month, 2) + "\nDAY = " + ZeroPad(day, 2)
  }

  /** Reads three comma-separated decimal numbers between `date(` and `)`. */
  function ParseDateRepr(s: string): Option<(nat, nat, nat)>
  {
    if |s| >= 6 && s[..5] == "date(" && s[|s| - 1] == ')' then
      var parts := Split(s[5..|s| - 1], ',');
      if |parts| == 3 && forall i :: 0 <= i < 3 ==> parts[i] != [] && AllDigits(parts[i]) then
        Some((DecimalValue(parts[0]), DecimalValue(parts[1]), DecimalValue(parts[2])))
      else None
    else None
  }

  lemma DigitsHaveNoComma(s: string)
    requires AllDigits(s)
    ensures ',' !in s
  {
    forall i | 0 <= i < |s| ensures s[i] != ',' {
      assert IsDigit(s[i]);
    }
  }

  /** `CustomDate.__repr__` can be read back: it determines the date. */
  lemma DateReprRoundTrip(year: nat, month: nat, day: nat)
    ensures ParseDateRepr(DateRepr(year, month, day)) == Some((year, month, day))
  {
    var y, m, d := NatStr(year), NatStr(month), NatStr(day);
    NatStrRoundTrip(year);
    NatStrRoundTrip(month);
    NatStrRoundTrip(day);
    assert DateRepr(year, month, day) == "date(" + (y + "," + m + "," + d) + ")";
    SplitThree(y, m, d);
    ReprBody(y + "," + m + "," + d);
  }

  /** The text between `date(` and `)`. */
  lemma ReprBody(body: string)
    ensures var s := "date(" + body + ")";
      |s| >= 6 && s[..5] == "date(" && s[|s| - 1] == ')' && s[5..|s| - 1] == body
  {
  }

  /** Three numbers joined by commas split back into the three numbers. */
  lemma SplitThree(y: string, m: string, d: string)
    requires AllDigits(y) && AllDigits(m) && AllDigits(d)
    ensures Split(y + "," + m + "," + d, ',') == [y, m, d]
  {
    assert Join(",", [y, m, d]) == y + "," + m + "," + d by {
      assert [y, m, d][1..] == [m, d];
      assert [m, d][1..] == [d];
      assert Join(",", [d]) == d;
      assert Join(",", [m, d]) == m + "," + d;
    }
    DigitsHaveNoComma(y);
    DigitsHaveNoComma(m);
    DigitsHaveNoComma(d);
    SplitJoin([y, m, d], ',');
  }

  lemma Terminated3(a: string, b: string, c: string)
    ensures Terminated([a, b, c]) == a + "\n" + b + "\n" + c + "\n"
  {
    assert [a, b, c][1..] == [b, c];
    assert [b, c][1..] == [c];
    assert [c][1..] == [];
    assert Terminated([c]) == c + "\n";
    assert Terminated([b, c]) == b + "\n" + (c + "\n");
  }

  lemma DateLinesShape(y: string, m: string, d: string)
    ensures "YEAR = " + y + " \nMONTH = " + m + "\nDAY = " + d + "\n" ==
      ("YEAR = " + y + " ") + "\n" + ("MONTH = " + m) + "\n" + ("DAY = " + d) + "\n"
  {
    assert " \nMONTH = " == " " + "\n" + "MONTH = ";
    assert "\nDAY = " == "\n" + "DAY = ";
  }

  /** The three lines of the DATE override, as `splitlines` separates them. */
  lemma DateLinesSplit(year: nat, month: nat, day: nat)
    ensures SplitLines(DateLines(year, month, day) + "\n") ==
      ["YEAR = " + ZeroPad(year, 4) + " ", "MONTH = " + ZeroPad(month, 2), "DAY = " + ZeroPad(day, 2)]
  {
    var y, m, d := ZeroPad(year, 4), ZeroPad(month, 2), ZeroPad(day, 2);
    DateNumbersNoBreak(year, month, day);
    DateLinesShape(y, m, d);
    ThreeLines("YEAR = " + y + " ", "MONTH = " + m, "DAY = " + d);
  }

  lemma DateNumbersNoBreak(year: nat, month: nat, day: nat)
    ensures NoLineBreak("YEAR = " + ZeroPad(year, 4) + " ")
    ensures NoLineBreak("MONTH = " + ZeroPad(month, 2))
    ensures NoLineBreak("DAY = " + ZeroPad(day, 2))
  {
    PaddedNoBreak("YEAR = ", year, 4, " ");
    PaddedNoBreak("MONTH = ", month, 2, "");
    PaddedNoBreak("DAY = ", day, 2, "");
    assert "MONTH = " + ZeroPad(month, 2) + "" == "MONTH = " + ZeroPad(month, 2);
    assert "DAY = " + ZeroPad(day, 2) + "" == "DAY = " + ZeroPad(day, 2);
  }

  /** A zero-padded number between two texts without line breaks has none. */
  lemma PaddedNoBreak(prefix: string, n: nat, width: nat, tail: string)
    requires NoLineBreak(prefix) && NoLineBreak(tail)
    ensures NoLineBreak(prefix + ZeroPad(n, width) + tail)
  {
    ZeroPadRoundTrip(n, width);
    DigitsHaveNoBreak(ZeroPad(n, width));
  }

  /** Three lines, each ended by a newline, split back into the three. */
  lemma ThreeLines(a: string, b: string, c: string)
    requires NoLineBreak(a) && NoLineBreak(b) && NoLineBreak(c)
    ensures SplitLines(a + "\n" + b + "\n" + c + "\n") == [a, b, c]
  {
    Terminated3(a, b, c);
    SplitLinesTerminated([a, b, c]);
  }

  lemma DigitsHaveNoBreak(s: string)
    requires AllDigits(s)
    ensures NoLineBreak(s)
  {
    forall i | 0 <= i < |s| ensures !IsLineBreak(s[i]) {
      assert IsDigit(s[i]);
    }
  }

  /** For a valid date the YEAR, MONTH and DAY numbers have exactly 4, 2 and 2
      digits and read back as the date's year, month and day. */
  lemma DateLinesReadBack(year: nat, month: nat, day: nat)
    requires ValidDate(year, month, day)
    ensures |ZeroPad(year, 4)| == 4 && |ZeroPad(month, 2)| == 2 && |ZeroPad(day, 2)| == 2
    ensures AllDigits(ZeroPad(year, 4)) && DecimalValue(ZeroPad(year, 4)) == year
    ensures AllDigits(ZeroPad(month, 2)) && DecimalValue(ZeroPad(month, 2)) == month
    ensures AllDigits(ZeroPad(day, 2)) && DecimalValue(ZeroPad(day, 2)) == day
  {
    assert Pow10(4) == 10000 by {
      assert Pow10(2) == 100;
    }
    assert Pow10(2) == 100;
    ZeroPadRoundTrip(year, 4);
    ZeroPadRoundTrip(month, 2);
    ZeroPadRoundTrip(day, 2);
  }

  // ---------------------------------------------------------------------
  // fields

  /** The field classes: `Field` itself and its subclasses. */
  datatype FieldKind =
    | PlainField
    | StringField
    | FloatField
    | IntegerField
    | DateField
    | BooleanField
    | ChoiceField(options: Option<seq<string>>)

  /** A field descriptor. `labelText` is the source's `label`; `None` or `""` is not shown. */
  datatype Field = Field(
    variable: string,
    labelText: Option<string>,
    block: Option<string>,
    kind: FieldKind,
    default: Value,
    value: Value)

  /** `Field.__init__`: the value starts out as the default. */
  function NewField(kind: FieldKind, variable: string, labelText: Option<string>, block: Option<string>, default: Value): Field
  {
    Field(variable, labelText, block, kind, default, default)
  }

  /** The `mtype` property, or `None` where reading it raises: the base
      `Field` has no such property, and `FieldChoice.mtype` iterates its
      options. */
  function Mtype(kind: FieldKind): (r: Option<string>)
    ensures r == None <==> kind == PlainField || kind == ChoiceField(None)
    ensures r != Some("db.Boolean")
    ensures kind == BooleanField <==> r == Some("bool")
  {
    match kind
    case PlainField => None
    case StringField => Some("str")
    case FloatField => Some("float")
    case IntegerField => Some("int")
    case DateField => Some("date")
    case BooleanField => Some("bool")
    case ChoiceField(options) => if options.Some? then Some("str") else None
  }

  /** `_fmt()` inside `f'{out}'`: the value's text without the label. */
  function Fmt(f: Field): (r: string)
    ensures f.kind == BooleanField ==>
      && (r == "" <==> f.value == NoValue)
      && (r == "ON" <==> f.value != NoValue && Truthy(f.value))
      && (r == "OFF" <==> f.value != NoValue && !Truthy(f.value))
    ensures f.kind != BooleanField && f.value == NoValue ==> r == "no data"
    ensures f.kind != BooleanField && f.value != NoValue ==> r == PyStr(f.value)
  {
    if f.kind == BooleanField then
      if f.value == NoValue then "" else if Truthy(f.value) then "ON" else "OFF"
    else if f.value == NoValue then "no data"
    else PyStr(f.value)
  }

  predicate Labelled(f: Field)
  {
    f.labelText.Some? && f.labelText.value != ""
  }

  /** `str(field)`: the label and a space before the value's text, when there is a label. */
  function Display(f: Field): (r: string)
    ensures Labelled(f) ==> |r| > |f.labelText.value| && r[..|f.labelText.value| + 1] == f.labelText.value + " " && r[|f.labelText.value| + 1..] == Fmt(f)
    ensures !Labelled(f) ==> r == Fmt(f)
  {
    if Labelled(f) then f.labelText.value + " " + Fmt(f) else Fmt(f)
  }
}
