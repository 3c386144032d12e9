/** How a section renders one (variable, block) pair (`Section._fmt_var` in
    app/fall3d/dataclasses.py and the overrides of its subclasses), and the
    whole text of a section (`Section.__str__`) as a function of its
    `_fields` and `_vars`. Where the source raises, the result is an
    `Err` naming the exception's cause. */
module Overrides {
  import opened Wrappers
  import opened PyText
  import opened OrderedDicts
  import opened Fields
  import opened Grouping
  import opened BlockLayout

  /** The `Section` subclasses; `BaseSection` is `Section` itself. */
  datatype SectionKind =
    | BaseSection
    | TimeSection
    | MeteoSection
    | GridSection
    | SpeciesSection
    | TgsdSection
    | AggregationSection
    | SourceSection
    | PhysicsSection
    | OutputSection

  /** Why rendering raises. */
  datatype RenderError =
    | KeyError(key: string)      // `self[key]` for a name not in `_fields`
    | NotADate(key: string)      // `strftime` on a value that is not a date
    | MtypeError(key: string)    // reading `mtype` raises for this field
    | EmptyBucket                // `self.vars[index][0]` on an empty list
    | OutputUnbound              // `output` read before it is assigned

  /** `self[key]`; `self.fK` is read the same way. */
  function Lookup(fields: FieldMap, key: string): (r: Result<Field, RenderError>)
    ensures r.Ok? <==> key in Keys(fields)
    ensures r.Ok? ==> Get(fields, key) == Some(r.value)
    ensures r.Err? ==> r.error == KeyError(key)
  {
    match Get(fields, key)
    case Some(f) => Ok(f)
    case None => Err(KeyError(key))
  }

  /** `[str(self[k]) for k in keys]`, raising at the first missing name. */
  function Displays(fields: FieldMap, keys: seq<string>): (r: Result<seq<string>, RenderError>)
    ensures r.Ok? <==> forall i :: 0 <= i < |keys| ==> keys[i] in Keys(fields)
    ensures r.Ok? ==> (|r.value| == |keys| &&
      forall i :: 0 <= i < |keys| ==> r.value[i] == Display(Get(fields, keys[i]).value))
    ensures r.Err? ==> exists i :: 0 <= i < |keys| && r.error == KeyError(keys[i]) && keys[i] !in Keys(fields)
  {
    if keys == [] then Ok([])
    else
      match Lookup(fields, keys[0])
      case Err(e) => Err(e)
      case Ok(f) =>
        match Displays(fields, keys[1..])
        case Err(e) => Err(e)
        case Ok(ds) => Ok([Display(f)] + ds)
  }

  /** `Section._fmt_var`: the variable, ` = `, and the displays of the
      pair's fields separated by single spaces. */
  function DefaultLine(fields: FieldMap, entry: (GroupKey, seq<string>)): (r: Result<string, RenderError>)
    ensures r.Ok? <==> forall i :: 0 <= i < |entry.1| ==> entry.1[i] in Keys(fields)
    ensures r.Err? ==> exists i :: 0 <= i < |entry.1| && r.error == KeyError(entry.1[i]) && entry.1[i] !in Keys(fields)
  {
    match Displays(fields, entry.1)
    case Err(e) => Err(e)
    case Ok(ds) => Ok(entry.0.0 + " = " + Join(" ", ds))
  }

  /** A line that holds no space other than those `DefaultLine` puts in
      splits at spaces into the variable, `=`, and one display per field. */
  lemma DefaultLineWords(fields: FieldMap, entry: (GroupKey, seq<string>))
    requires entry.1 != [] && DefaultLine(fields, entry).Ok?
    requires ' ' !in entry.0.0
    requires forall i :: 0 <= i < |entry.1| ==> ' ' !in Display(Get(fields, entry.1[i]).value)
    ensures Split(DefaultLine(fields, entry).value, ' ') == [entry.0.0, "="] + Displays(fields, entry.1).value
  {
    var v, ds := entry.0.0, Displays(fields, entry.1).value;
    var words := [v, "="] + ds;
    JoinWords(v, ds);
    forall i | 0 <= i < |words| ensures ' ' !in words[i] {
      if i >= 2 {
        assert words[i] == ds[i - 2];
      }
    }
    SplitJoin(words, ' ');
  }

  /** The text `DefaultLine` builds is the words joined by single spaces. */
  lemma JoinWords(v: string, ds: seq<string>)
    requires ds != []
    ensures v + " = " + Join(" ", ds) == Join(" ", [v, "="] + ds)
  {
    JoinAppend(" ", [v, "="], ds);
    assert [v, "="][1..] == ["="];
    assert Join(" ", [v, "="]) == v + " " + "=";
    assert " = " == " " + "=" + " ";
  }

  // ---------------------------------------------------------------------
  // the overrides

  /** `SectionTime._fmt_var`: the DATE pair becomes three lines. */
  function TimeLine(fields: FieldMap, entry: (GroupKey, seq<string>)): Result<string, RenderError>
  {
    if entry.0 == ("DATE", None) then
      match Lookup(fields, "f1")
      case Err(e) => Err(e)
      case Ok(f) =>
        if f.value.Date? then Ok(DateLines(f.value.year, f.value.month, f.value.day))
        else Err(NotADate("f1"))
    else DefaultLine(fields, entry)
  }

  /** One branch of `SectionGrid._fmt_var`: with the flag set, the word
      RESOLUTION and the resolution field; otherwise the count field. */
  function ResolutionLine(fields: FieldMap, variable: string, flag: string, resolution: string, count: string): Result<string, RenderError>
  {
    match Lookup(fields, flag)
    case Err(e) => Err(e)
    case Ok(f) =>
      if Truthy(f.value) then
        match Lookup(fields, resolution)
        case Err(e) => Err(e)
        case Ok(r) => Ok(variable + " = " + "RESOLUTION " + Display(r))
      else
        match Lookup(fields, count)
        case Err(e) => Err(e)
        case Ok(c) => Ok(variable + " = " + Display(c))
  }

  /** `SectionGrid._fmt_var` */
  function GridLine(fields: FieldMap, entry: (GroupKey, seq<string>)): Result<string, RenderError>
  {
    if entry.0 == ("NX", None) then ResolutionLine(fields, "NX", "f8", "f9", "f7")
    else if entry.0 == ("NY", None) then ResolutionLine(fields, "NY", "f11", "f12", "f10")
    else DefaultLine(fields, entry)
  }

  /** `SectionAggregation._fmt_var` */
  function AggregationLine(fields: FieldMap, entry: (GroupKey, seq<string>)): Result<string, RenderError>
  {
    if entry.0 == ("PARTICLE_CUT_OFF", None) then
      match Lookup(fields, "f1")
      case Err(e) => Err(e)
      case Ok(f) =>
        if f.value == Str("NONE") then Ok("PARTICLE_CUT_OFF = NONE")
        else DefaultLine(fields, entry)
    else DefaultLine(fields, entry)
  }

  /** `SectionSource._fmt_var` */
  function SourceLine(fields: FieldMap, entry: (GroupKey, seq<string>)): Result<string, RenderError>
  {
    if "f8" in entry.1 then
      match Lookup(fields, "f8")
      case Err(e) => Err(e)
      case Ok(choice) =>
        if choice.value == Str("value") then
          match Lookup(fields, "f9")
          case Err(e) => Err(e)
          case Ok(rate) => Ok("MASS_FLOW_RATE_(KGS) = " + Display(rate))
        else Ok("MASS_FLOW_RATE_(KGS) = " + Display(choice))
    else DefaultLine(fields, entry)
  }

  /** The first field of the pair and its `mtype`, which both
      `SectionPhysics._fmt_var` and `SectionOutput._fmt_var` read first. */
  function FirstWithMtype(fields: FieldMap, entry: (GroupKey, seq<string>)): Result<(string, Field, string), RenderError>
  {
    if entry.1 == [] then Err(EmptyBucket)
    else
      var k := entry.1[0];
      match Lookup(fields, k)
      case Err(e) => Err(e)
      case Ok(f) =>
        match Mtype(f.kind)
        case None => Err(MtypeError(k))
        case Some(m) => Ok((k, f, m))
  }

  /** `SectionPhysics._fmt_var` */
  function PhysicsLine(fields: FieldMap, entry: (GroupKey, seq<string>)): Result<string, RenderError>
  {
    match FirstWithMtype(fields, entry)
    case Err(e) => Err(e)
    case Ok((k, f, m)) =>
      if m == "db.Boolean" then Ok(entry.0.0 + " = " + (if Truthy(f.value) then "YES" else "NO"))
      else if (k == "f6" || k == "f8") && f.value != Str("CONSTANT") then Ok(entry.0.0 + " = " + Display(f))
      else DefaultLine(fields, entry)
  }

  /** One branch of `SectionOutput._fmt_var`: the raw value of the second
      field when the choice is `value`, otherwise the choice itself. */
  function ChoiceOrValue(fields: FieldMap, variable: string, choice: string, raw: string): Result<string, RenderError>
  {
    match Lookup(fields, choice)
    case Err(e) => Err(e)
    case Ok(c) =>
      if c.value == Str("value") then
        match Lookup(fields, raw)
        case Err(e) => Err(e)
        case Ok(r) => Ok(variable + " = " + PyStr(r.value))
      else Ok(variable + " = " + Display(c))
  }

  /** `SectionOutput._fmt_var` */
  function OutputLine(fields: FieldMap, entry: (GroupKey, seq<string>)): Result<string, RenderError>
  {
    match FirstWithMtype(fields, entry)
    case Err(e) => Err(e)
    case Ok((_, f, m)) =>
      if m == "db.Boolean" then Ok(entry.0.0 + " = " + (if Truthy(f.value) then "YES" else "NO"))
      else if "f3" in entry.1 then ChoiceOrValue(fields, entry.0.0, "f3", "f4")
      else if "f7" in entry.1 then ChoiceOrValue(fields, entry.0.0, "f7", "f8")
      else DefaultLine(fields, entry)
  }

  /** `_fmt_var` of the section class `kind`. */
  function FmtVar(kind: SectionKind, fields: FieldMap, entry: (GroupKey, seq<string>)): Result<string, RenderError>
  {
    match kind
    case TimeSection => TimeLine(fields, entry)
    case GridSection => GridLine(fields, entry)
    case AggregationSection => AggregationLine(fields, entry)
    case SourceSection => SourceLine(fields, entry)
    case PhysicsSection => PhysicsLine(fields, entry)
    case OutputSection => OutputLine(fields, entry)
    case _ => DefaultLine(fields, entry)
  }

  /** The classes whose `_fmt_var` is `Section._fmt_var` itself. */
  predicate DefaultFormatted(kind: SectionKind)
  {
    kind == BaseSection || kind == MeteoSection || kind == SpeciesSection || kind == TgsdSection
  }

  lemma FmtVarDefault(kind: SectionKind, fields: FieldMap, entry: (GroupKey, seq<string>))
    requires DefaultFormatted(kind)
    ensures FmtVar(kind, fields, entry) == DefaultLine(fields, entry)
  {
  }

  // ---------------------------------------------------------------------
  // the whole section

  /** Every pair of `_vars` rendered with the class's `_fmt_var`. */
  function Lines(kind: SectionKind, fields: FieldMap, vars: VarIndex): (ls: seq<Result<string, RenderError>>)
    ensures |ls| == |vars|
    ensures forall j :: 0 <= j < |vars| ==> ls[j] == FmtVar(kind, fields, vars[j])
  {
    seq(|vars|, j requires 0 <= j < |vars| => FmtVar(kind, fields, vars[j]))
  }

  /** The first loop of `Section.__str__` before grouping, given each
      pair's rendered line: every pair, in order, with its block; the first
      error raised stops it. */
  function Collect(vars: VarIndex, ls: seq<Result<string, RenderError>>): Result<seq<Entry>, RenderError>
    requires |ls| == |vars|
  {
    if vars == [] then Ok([])
    else
      var n := |vars| - 1;
      match Collect(vars[..n], ls[..n])
      case Err(e) => Err(e)
      case Ok(es) =>
        match ls[n]
        case Err(e) => Err(e)
        case Ok(line) => Ok(es + [(vars[n].0.1, line)])
  }

  /** The first loop of `Section.__str__` over the class's own `_fmt_var`. */
  function FmtAll(kind: SectionKind, fields: FieldMap, vars: VarIndex): Result<seq<Entry>, RenderError>
  {
    Collect(vars, Lines(kind, fields, vars))
  }

  /** One more pair: the first `i + 1` pairs collect as the first `i` do,
      then the line at `i`. */
  lemma CollectNext(vars: VarIndex, ls: seq<Result<string, RenderError>>, i: nat)
    requires |ls| == |vars| && i < |vars|
    ensures Collect(vars[..i + 1], ls[..i + 1]) ==
      match Collect(vars[..i], ls[..i])
      case Err(e) => Err(e)
      case Ok(es) =>
        match ls[i]
        case Err(e) => Err(e)
        case Ok(line) => Ok(es + [(vars[i].0.1, line)])
  {
    assert vars[..i + 1][..i] == vars[..i];
    assert ls[..i + 1][..i] == ls[..i];
  }

  /** The pairs collect exactly when each line was rendered. */
  lemma {:induction false} CollectOk(vars: VarIndex, ls: seq<Result<string, RenderError>>)
    requires |ls| == |vars|
    ensures Collect(vars, ls).Ok? <==> forall j :: 0 <= j < |ls| ==> ls[j].Ok?
  {
    if vars != [] {
      var n := |vars| - 1;
      CollectOk(vars[..n], ls[..n]);
      assert forall j :: 0 <= j < n ==> ls[..n][j] == ls[j];
    }
  }

  /** Collected pairs are, in order, each pair's block with its line. */
  lemma {:induction false} CollectEntries(vars: VarIndex, ls: seq<Result<string, RenderError>>)
    requires |ls| == |vars|
    ensures var r := Collect(vars, ls);
      r.Ok? ==> (|r.value| == |vars| &&
        forall j :: 0 <= j < |vars| ==> r.value[j].0 == vars[j].0.1 && ls[j] == Ok(r.value[j].1))
  {
    if vars != [] {
      var n := |vars| - 1;
      CollectEntries(vars[..n], ls[..n]);
      assert forall j :: 0 <= j < n ==> ls[..n][j] == ls[j] && vars[..n][j] == vars[j];
    }
  }

  /** The error of the pairs is that of the first line that is an error. */
  lemma {:induction false} CollectFirstErr(vars: VarIndex, ls: seq<Result<string, RenderError>>)
    requires |ls| == |vars|
    ensures var r := Collect(vars, ls);
      r.Err? ==> exists j :: 0 <= j < |ls| && ls[j] == Err(r.error) && forall i :: 0 <= i < j ==> ls[i].Ok?
  {
    if vars != [] {
      var n := |vars| - 1;
      CollectFirstErr(vars[..n], ls[..n]);
      CollectOk(vars[..n], ls[..n]);
      assert forall j :: 0 <= j < n ==> ls[..n][j] == ls[j];
    }
  }

  /** Once a prefix of the pairs raises, the whole sequence raises the same error. */
  lemma {:induction false} CollectErrStays(vars: VarIndex, ls: seq<Result<string, RenderError>>, j: nat)
    requires |ls| == |vars| && j <= |vars| && Collect(vars[..j], ls[..j]).Err?
    ensures Collect(vars, ls) == Collect(vars[..j], ls[..j])
  {
    if j < |vars| {
      var n := |vars| - 1;
      assert vars[..n][..j] == vars[..j];
      assert ls[..n][..j] == ls[..j];
      CollectErrStays(vars[..n], ls[..n], j);
    } else {
      assert vars[..j] == vars;
      assert ls[..j] == ls;
    }
  }

  /** When every line that is an error is `e`, so is the error of the pairs. */
  lemma {:induction false} CollectErrIs(vars: VarIndex, ls: seq<Result<string, RenderError>>, e: RenderError)
    requires |ls| == |vars|
    requires forall j :: 0 <= j < |ls| && ls[j].Err? ==> ls[j].error == e
    ensures Collect(vars, ls).Err? ==> Collect(vars, ls).error == e
  {
    if vars != [] {
      var n := |vars| - 1;
      assert forall j :: 0 <= j < n ==> ls[..n][j] == ls[j];
      CollectErrIs(vars[..n], ls[..n], e);
    }
  }

  /** The pairs render exactly when each of them does, and then each entry
      is the pair's block with its rendered text; otherwise the error is that
      of the first pair that raises. */
  lemma FmtAllResult(kind: SectionKind, fields: FieldMap, vars: VarIndex)
    ensures var r := FmtAll(kind, fields, vars);
      && (r.Ok? <==> forall j :: 0 <= j < |vars| ==> FmtVar(kind, fields, vars[j]).Ok?)
      && (r.Ok? ==> (|r.value| == |vars| &&
            forall j :: 0 <= j < |vars| ==> r.value[j] == (vars[j].0.1, FmtVar(kind, fields, vars[j]).value)))
      && (r.Err? ==> exists j :: (0 <= j < |vars| && FmtVar(kind, fields, vars[j]) == Err(r.error) &&
            forall i :: 0 <= i < j ==> FmtVar(kind, fields, vars[i]).Ok?))
  {
    var ls := Lines(kind, fields, vars);
    CollectOk(vars, ls);
    CollectEntries(vars, ls);
    CollectFirstErr(vars, ls);
  }

  /** When every pair that raises raises `e`, so do the pairs together. */
  lemma FmtAllErrIs(kind: SectionKind, fields: FieldMap, vars: VarIndex, e: RenderError)
    requires forall j :: 0 <= j < |vars| && FmtVar(kind, fields, vars[j]).Err? ==> FmtVar(kind, fields, vars[j]).error == e
    ensures FmtAll(kind, fields, vars).Err? ==> FmtAll(kind, fields, vars).error == e
  {
    CollectErrIs(vars, Lines(kind, fields, vars), e);
  }

  /** `str(section)`: the rendered pairs laid out by block. */
  function RenderSpec(kind: SectionKind, fields: FieldMap, vars: VarIndex): Result<string, RenderError>
  {
    match FmtAll(kind, fields, vars)
    case Err(e) => Err(e)
    case Ok(entries) =>
      match Layout(entries)
      case Bound(text) => Ok(text)
      case _ => Err(OutputUnbound)
  }

  /** A section renders exactly when every pair renders and the first pair
      is in the top region; its text is then the expected lines of the
      rendered pairs, joined by newlines. */
  lemma RenderLines(kind: SectionKind, fields: FieldMap, vars: VarIndex)
    ensures RenderSpec(kind, fields, vars).Ok? <==>
      && (forall j :: 0 <= j < |vars| ==> FmtVar(kind, fields, vars[j]).Ok?)
      && vars != [] && vars[0].0.1 == None
    ensures RenderSpec(kind, fields, vars).Ok? ==>
      var entries := FmtAll(kind, fields, vars).value;
      entries != [] && entries[0].0 == None &&
      RenderSpec(kind, fields, vars).value == Join("\n", ExpectedLines(entries))
  {
    var r := FmtAll(kind, fields, vars);
    FmtAllResult(kind, fields, vars);
    if r.Ok? {
      LayoutLines(r.value);
    }
  }

  // ---------------------------------------------------------------------
  // what the overrides promise

  /** No field's `mtype` is `db.Boolean`, so the YES/NO branch of the
      physics and output sections is never taken: a boolean field there
      renders through the default rule, as ON, OFF or the empty text. */
  lemma BooleansRenderOnOff(kind: SectionKind, fields: FieldMap, entry: (GroupKey, seq<string>))
    requires kind == PhysicsSection || kind == OutputSection
    requires |entry.1| == 1 && entry.1[0] in Keys(fields)
    requires Get(fields, entry.1[0]).value.kind == BooleanField
    requires kind == OutputSection ==> entry.1[0] !in ["f3", "f7"]
    ensures var f := Get(fields, entry.1[0]).value;
      FmtVar(kind, fields, entry) == Ok(entry.0.0 + " = " + Display(f))
    ensures Fmt(Get(fields, entry.1[0]).value) in ["ON", "OFF", ""]
  {
    var f := Get(fields, entry.1[0]).value;
    var d := Displays(fields, entry.1);
    assert d.Ok? && |d.value| == 1 && d.value[0] == Display(f);
    assert d.value == [Display(f)];
    assert Join(" ", [Display(f)]) == Display(f);
  }

  /** The DATE pair of the time section renders as three lines, YEAR,
      MONTH and DAY, whose numbers have 4, 2 and 2 digits for a valid date
      and read back as the date; any other value of `f1` raises. */
  lemma DateLineShape(fields: FieldMap, bucket: seq<string>)
    requires "f1" in Keys(fields)
    ensures var f := Get(fields, "f1").value;
      var r := FmtVar(TimeSection, fields, (("DATE", None), bucket));
      && (r.Ok? <==> f.value.Date?)
      && (r.Err? ==> r.error == NotADate("f1"))
      && (r.Ok? ==> (SplitLines(r.value + "\n") ==
            [ "YEAR = " + ZeroPad(f.value.year, 4) + " "
            , "MONTH = " + ZeroPad(f.value.month, 2)
            , "DAY = " + ZeroPad(f.value.day, 2) ]))
      && (r.Ok? && ValidDate(f.value.year, f.value.month, f.value.day) ==>
            && |ZeroPad(f.value.year, 4)| == 4 && AllDigits(ZeroPad(f.value.year, 4))
            && DecimalValue(ZeroPad(f.value.year, 4)) == f.value.year
            && |ZeroPad(f.value.month, 2)| == 2 && AllDigits(ZeroPad(f.value.month, 2))
            && DecimalValue(ZeroPad(f.value.month, 2)) == f.value.month
            && |ZeroPad(f.value.day, 2)| == 2 && AllDigits(ZeroPad(f.value.day, 2))
            && DecimalValue(ZeroPad(f.value.day, 2)) == f.value.day)
  {
    var f := Get(fields, "f1").value;
    if f.value.Date? {
      DateLinesSplit(f.value.year, f.value.month, f.value.day);
      if ValidDate(f.value.year, f.value.month, f.value.day) {
        DateLinesReadBack(f.value.year, f.value.month, f.value.day);
      }
    }
  }

  lemma ResolutionChoice(fields: FieldMap, variable: string, flag: string, res: string, count: string)
    requires flag in Keys(fields) && res in Keys(fields) && count in Keys(fields)
    ensures ResolutionLine(fields, variable, flag, res, count) ==
      if Truthy(Get(fields, flag).value.value) then Ok(variable + " = RESOLUTION " + Display(Get(fields, res).value))
      else Ok(variable + " = " + Display(Get(fields, count).value))
  {
    assert variable + " = " + "RESOLUTION " == variable + " = RESOLUTION ";
  }

  /** The NX line of the grid section does not depend on the fields listed
      for the pair: with the flag `f8` set it shows RESOLUTION and the
      resolution `f9`, otherwise the count `f7`; the flag's own label is
      never shown. */
  lemma GridResolutionNX(fields: FieldMap, bucket: seq<string>)
    requires "f7" in Keys(fields) && "f8" in Keys(fields) && "f9" in Keys(fields)
    ensures FmtVar(GridSection, fields, (("NX", None), bucket)) ==
      if Truthy(Get(fields, "f8").value.value) then Ok("NX" + " = RESOLUTION " + Display(Get(fields, "f9").value))
      else Ok("NX" + " = " + Display(Get(fields, "f7").value))
  {
    FmtVarGrid(fields, (("NX", None), bucket));
    ResolutionChoice(fields, "NX", "f8", "f9", "f7");
  }

  /** The NY line follows the same rule with `f11`, `f12` and `f10`. */
  lemma GridResolutionNY(fields: FieldMap, bucket: seq<string>)
    requires "f10" in Keys(fields) && "f11" in Keys(fields) && "f12" in Keys(fields)
    ensures FmtVar(GridSection, fields, (("NY", None), bucket)) ==
      if Truthy(Get(fields, "f11").value.value) then Ok("NY" + " = RESOLUTION " + Display(Get(fields, "f12").value))
      else Ok("NY" + " = " + Display(Get(fields, "f10").value))
  {
    FmtVarGrid(fields, (("NY", None), bucket));
    ResolutionChoice(fields, "NY", "f11", "f12", "f10");
  }

  /** Whenever the pair holds `f8`, the source section shows the mass flow
      rate: the number `f9` when the choice `f8` is `value`, the choice
      otherwise, whatever else the pair holds. */
  lemma MassFlowRate(fields: FieldMap, entry: (GroupKey, seq<string>))
    requires "f8" in entry.1 && "f8" in Keys(fields) && "f9" in Keys(fields)
    ensures var choice, rate := Get(fields, "f8").value, Get(fields, "f9").value;
      FmtVar(SourceSection, fields, entry) ==
        Ok("MASS_FLOW_RATE_(KGS) = " + (if choice.value == Str("value") then Display(rate) else Display(choice)))
  {
    FmtVarSource(fields, entry);
  }

  /** The value-or-choice rule: the raw value of the second field, shown
      as `str` of the value with no label, when the choice is `value`;
      otherwise the choice's own display. */
  lemma ChoiceOrValueShown(fields: FieldMap, variable: string, choice: string, raw: string)
    requires choice in Keys(fields) && raw in Keys(fields)
    ensures var c, r := Get(fields, choice).value, Get(fields, raw).value;
      ChoiceOrValue(fields, variable, choice, raw) ==
        Ok(variable + " = " + (if c.value == Str("value") then PyStr(r.value) else Display(c)))
  {
  }

  /** The output section shows the restart interval (a pair holding `f3`)
      as the number `f4` when the choice `f3` is `value`, and the choice
      otherwise; a pair holding `f7` but not `f3` shows the output start
      `f8` or the choice `f7` in the same way. */
  lemma OutputChoiceOrValue(fields: FieldMap, entry: (GroupKey, seq<string>))
    requires entry.1 != [] && entry.1[0] in Keys(fields)
    requires Mtype(Get(fields, entry.1[0]).value.kind).Some?
    requires "f3" in entry.1 ==> "f3" in Keys(fields) && "f4" in Keys(fields)
    requires "f3" !in entry.1 && "f7" in entry.1 ==> "f7" in Keys(fields) && "f8" in Keys(fields)
    ensures var c, r := Get(fields, "f3"), Get(fields, "f4");
      "f3" in entry.1 ==>
        FmtVar(OutputSection, fields, entry) ==
          Ok(entry.0.0 + " = " + (if c.value.value == Str("value") then PyStr(r.value.value) else Display(c.value)))
    ensures var c, r := Get(fields, "f7"), Get(fields, "f8");
      "f3" !in entry.1 && "f7" in entry.1 ==>
        FmtVar(OutputSection, fields, entry) ==
          Ok(entry.0.0 + " = " + (if c.value.value == Str("value") then PyStr(r.value.value) else Display(c.value)))
  {
    if "f3" in entry.1 {
      ChoiceOrValueShown(fields, entry.0.0, "f3", "f4");
    } else if "f7" in entry.1 {
      ChoiceOrValueShown(fields, entry.0.0, "f7", "f8");
    }
  }

  /** With the cut-off choice NONE, the aggregation section shows only the
      word NONE, whatever the threshold field holds. */
  lemma CutOffNone(fields: FieldMap, bucket: seq<string>)
    requires "f1" in Keys(fields) && Get(fields, "f1").value.value == Str("NONE")
    ensures FmtVar(AggregationSection, fields, (("PARTICLE_CUT_OFF", None), bucket)) == Ok("PARTICLE_CUT_OFF = NONE")
  {
  }

  /** Any other pair, or a cut-off choice other than NONE, gets the
      aggregation section the default line. */
  lemma AggregationOtherwiseDefault(fields: FieldMap, entry: (GroupKey, seq<string>))
    requires entry.0 != ("PARTICLE_CUT_OFF", None) || ("f1" in Keys(fields) && Get(fields, "f1").value.value != Str("NONE"))
    ensures FmtVar(AggregationSection, fields, entry) == DefaultLine(fields, entry)
  {
  }

  /** Every pair but DATE gets the time section the default line. */
  lemma TimeOtherwiseDefault(fields: FieldMap, entry: (GroupKey, seq<string>))
    requires entry.0 != ("DATE", None)
    ensures FmtVar(TimeSection, fields, entry) == DefaultLine(fields, entry)
  {
  }

  /** Every pair but NX and NY gets the grid section the default line. */
  lemma GridOtherwiseDefault(fields: FieldMap, entry: (GroupKey, seq<string>))
    requires entry.0 != ("NX", None) && entry.0 != ("NY", None)
    ensures FmtVar(GridSection, fields, entry) == DefaultLine(fields, entry)
  {
  }

  /** A pair without the mass-flow choice `f8` gets the source section the
      default line. */
  lemma SourceOtherwiseDefault(fields: FieldMap, entry: (GroupKey, seq<string>))
    requires "f8" !in entry.1
    ensures FmtVar(SourceSection, fields, entry) == DefaultLine(fields, entry)
  {
  }

  /** In the physics section, a pair whose first field has an `mtype` gets
      the default line unless that field is a turbulence choice (`f6`,
      `f8`) other than CONSTANT. */
  lemma PhysicsOtherwiseDefault(fields: FieldMap, entry: (GroupKey, seq<string>))
    requires entry.1 != [] && entry.1[0] in Keys(fields)
    requires Mtype(Get(fields, entry.1[0]).value.kind).Some?
    requires entry.1[0] !in ["f6", "f8"] || Get(fields, entry.1[0]).value.value == Str("CONSTANT")
    ensures FmtVar(PhysicsSection, fields, entry) == DefaultLine(fields, entry)
  {
    var f := Get(fields, entry.1[0]).value;
    assert FirstWithMtype(fields, entry) == Ok((entry.1[0], f, Mtype(f.kind).value));
    FmtVarPhysics(fields, entry);
  }

  /** A pair of two fields renders as both displays after the variable. */
  lemma DefaultLinePair(fields: FieldMap, entry: (GroupKey, seq<string>))
    requires |entry.1| == 2 && entry.1[0] in Keys(fields) && entry.1[1] in Keys(fields)
    ensures DefaultLine(fields, entry) ==
      Ok(entry.0.0 + " = " + Display(Get(fields, entry.1[0]).value) + " " + Display(Get(fields, entry.1[1]).value))
  {
    var x, y := Display(Get(fields, entry.1[0]).value), Display(Get(fields, entry.1[1]).value);
    DisplaysPair(fields, entry.1);
    JoinPair(" ", x, y);
    assert DefaultLine(fields, entry) == Ok(entry.0.0 + " = " + (x + " " + y));
    ConcatAssoc(entry.0.0 + " = ", x + " ", y);
    ConcatAssoc(entry.0.0 + " = ", x, " ");
  }

  lemma DisplaysPair(fields: FieldMap, keys: seq<string>)
    requires |keys| == 2 && keys[0] in Keys(fields) && keys[1] in Keys(fields)
    ensures Displays(fields, keys) == Ok([Display(Get(fields, keys[0]).value), Display(Get(fields, keys[1]).value)])
  {
    var d := Displays(fields, keys);
    assert d.Ok?;
    assert |d.value| == 2;
    var x, y := Display(Get(fields, keys[0]).value), Display(Get(fields, keys[1]).value);
    assert d.value[0] == x;
    assert d.value[1] == y;
    assert d.value == [x, y];
  }

  lemma JoinPair(sep: string, x: string, y: string)
    ensures Join(sep, [x, y]) == x + sep + y
  {
    assert [x, y][1..] == [y];
  }

  lemma ConcatAssoc(a: string, b: string, c: string)
    ensures a + (b + c) == a + b + c
  {
  }

  /** A turbulence model other than CONSTANT is shown alone; with CONSTANT
      the constant's value follows it. */
  lemma TurbulenceModel(fields: FieldMap, entry: (GroupKey, seq<string>))
    requires |entry.1| == 2 && entry.1[0] in ["f6", "f8"]
    requires entry.1[0] in Keys(fields) && entry.1[1] in Keys(fields)
    requires Get(fields, entry.1[0]).value.kind.ChoiceField? && Get(fields, entry.1[0]).value.kind.options.Some?
    ensures var choice, constant := Get(fields, entry.1[0]).value, Get(fields, entry.1[1]).value;
      FmtVar(PhysicsSection, fields, entry) ==
        if choice.value != Str("CONSTANT") then Ok(entry.0.0 + " = " + Display(choice))
        else Ok(entry.0.0 + " = " + Display(choice) + " " + Display(constant))
  {
    FmtVarPhysics(fields, entry);
    PhysicsTurbulence(fields, entry);
  }

  lemma FmtVarGrid(fields: FieldMap, entry: (GroupKey, seq<string>))
    ensures FmtVar(GridSection, fields, entry) == GridLine(fields, entry)
  {
  }

  lemma FmtVarSource(fields: FieldMap, entry: (GroupKey, seq<string>))
    ensures FmtVar(SourceSection, fields, entry) == SourceLine(fields, entry)
  {
  }

  lemma FmtVarPhysics(fields: FieldMap, entry: (GroupKey, seq<string>))
    ensures FmtVar(PhysicsSection, fields, entry) == PhysicsLine(fields, entry)
  {
  }

  lemma PhysicsTurbulence(fields: FieldMap, entry: (GroupKey, seq<string>))
    requires |entry.1| == 2 && entry.1[0] in ["f6", "f8"]
    requires entry.1[0] in Keys(fields) && entry.1[1] in Keys(fields)
    requires Get(fields, entry.1[0]).value.kind.ChoiceField? && Get(fields, entry.1[0]).value.kind.options.Some?
    ensures var choice, constant := Get(fields, entry.1[0]).value, Get(fields, entry.1[1]).value;
      PhysicsLine(fields, entry) ==
        if choice.value != Str("CONSTANT") then Ok(entry.0.0 + " = " + Display(choice))
        else Ok(entry.0.0 + " = " + Display(choice) + " " + Display(constant))
  {
    var choice := Get(fields, entry.1[0]).value;
    assert FirstWithMtype(fields, entry) == Ok((entry.1[0], choice, "str"));
    if choice.value == Str("CONSTANT") {
      DefaultLinePair(fields, entry);
    }
  }
}
