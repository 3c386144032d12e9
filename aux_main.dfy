/** The earlier revision of the schema engine, aux/main.py. Its sections
    hold their fields the same way (`BaseClass.__init__` and the item
    access are unchanged), but a field's label defaults to its variable,
    `_fmt_var` gathers the fields by variable alone, ignoring blocks, and
    `__str__` writes a `++++++ <label>` header followed by one line per
    distinct variable, without indentation. */
module AuxMain {
  import opened Wrappers
  import opened PyText
  import opened OrderedDicts
  import opened Fields
  import opened Grouping
  import opened Catalog

  /** The section classes of this revision: `Section` itself, and
      `SectionTime`, `SectionGrid` and `SectionSpecies`. */
  datatype AuxKind = AuxBase | AuxTime | AuxGrid | AuxSpecies

  datatype AuxError =
    | KeyError(key: string)   // `self.fK` read for a name not bound in `_fields`
    | LabelNotText            // `"++++++ " + self.label` with the label `None`

  // ---------------------------------------------------------------------
  // fields

  /** `Field.label` in this revision: the variable when no label is given. */
  function AuxLabel(f: Field): Option<string>
  {
    if f.labelText.None? then Some(f.variable) else f.labelText
  }

  /** `str(field)`: the label and a space before `_fmt()`, when the label
      is not empty. */
  function AuxDisplay(f: Field): string
  {
    var l := AuxLabel(f);
    if l.Some? && l.value != "" then l.value + " " + Fmt(f) else Fmt(f)
  }

  /** A field built without a label shows its variable before its value,
      where the later revision shows the value alone. */
  lemma LabelDefaultsToVariable(f: Field)
    requires f.labelText == None && f.variable != ""
    ensures AuxDisplay(f) == f.variable + " " + Fmt(f)
    ensures Display(f) == Fmt(f)
  {
  }

  /** A field built with a label shows as in the later revision. */
  lemma LabelledShowsAsLater(f: Field)
    requires f.labelText.Some?
    ensures AuxDisplay(f) == Display(f)
  {
  }

  // ---------------------------------------------------------------------
  // the section classes

  function AuxTail(kind: AuxKind): seq<string>
  {
    match kind
    case AuxBase => ["__init__", "_fmt_var", "__str__"]
    case AuxGrid => ["_fmt_var"]
    case _ => []
  }

  /** The fields `f1`, `f2`, ... of each class, as declared. */
  function AuxFields(kind: AuxKind): seq<Field>
  {
    match kind
    case AuxBase => []
    case AuxTime =>
      [ NewField(DateField, "DATE", None, None, Date(2008, 4, 29))
      , Float_("RUN_START_(HOURS_AFTER_00)", Int(0))
      , Float_("RUN_END_(HOURS_AFTER_00)", Int(10))
      , Choice_("INITIAL_CONDITION", "NONE", ["NONE", "INSERTION", "RESTART"])
      , Str_("RESTART_FILE", "Example-8.0.rst.nc") ]
    case AuxGrid =>
      [ Choice_("HORIZONTAL_MAPPING", "SPHERICAL", ["CARTESIAN", "SPHERICAL"])
      , Choice_("VERTICAL_MAPPING", "SIGMA_LINEAR_DECAY",
          ["SIGMA_NO_DECAY", "SIGMA_LINEAR_DECAY", "SIGMA_EXPONENTIAL_DECAY"])
      , Float_("LONMIN", Float("14.0"))
      , Float_("LONMAX", Float("16.0"))
      , Float_("LATMIN", Float("36.5"))
      , Float_("LATMAX", Float("38.5"))
      , Integer_("NX", 50)
      , Float_("NX", Float("0.1"))
      , WithLabel(Boolean_("NX", true), "RESOLUTION")
      , Integer_("NY", 50)
      , Float_("NY", Float("0.1"))
      , WithLabel(Boolean_("NY", true), "RESOLUTION")
      , Integer_("NZ", 10)
      , Float_("ZMAX_(M)", Int(10000)) ]
    case AuxSpecies =>
      [ Boolean_("TEPHRA", true)
      , Boolean_("DUST", false)
      , Boolean_("H2O", false)
      , WithLabel(Float_("H2O", Int(2)), "MASS_FRACTION_(%)")
      , Boolean_("SO2", true)
      , WithLabel(Float_("SO2", Int(1)), "MASS_FRACTION_(%)") ]
  }

  /** The class body, as `OrderedMeta` records it. */
  function AuxSchema(kind: AuxKind): seq<(string, Attr)>
  {
    Others(["__module__", "__qualname__"]) + AsAttrs(Numbered(1, AuxFields(kind))) + Others(AuxTail(kind))
  }

  /** A class body of this revision binds each name once. */
  lemma AuxSchemaDistinct(kind: AuxKind)
    ensures Distinct(Keys(AuxSchema(kind)))
  {
    TailNames(kind);
    BodyOf(AuxFields(kind), AuxTail(kind));
  }

  /** The methods a class defines: distinct, and named with a leading `_`. */
  lemma TailNames(kind: AuxKind)
    ensures Distinct(AuxTail(kind))
    ensures forall i :: 0 <= i < |AuxTail(kind)| ==> AuxTail(kind)[i] != [] && AuxTail(kind)[i][0] == '_'
    ensures forall i :: 0 <= i < |AuxTail(kind)| ==>
      AuxTail(kind)[i] != "__module__" && AuxTail(kind)[i] != "__qualname__"
  {
    var tail := AuxTail(kind);
    assert "__module__"[1] == '_' && "__module__"[2] == 'm' && "__qualname__"[2] == 'q';
    if kind == AuxBase {
      assert tail[0][2] == 'i' && tail[1][1] == 'f' && tail[2][2] == 's';
    } else if kind == AuxGrid {
      assert tail[0][1] == 'f';
    }
  }

  lemma BodyOf(fields: seq<Field>, tail: seq<string>)
    requires Distinct(tail)
    requires forall i :: 0 <= i < |tail| ==> tail[i] != [] && tail[i][0] == '_'
    requires forall i :: 0 <= i < |tail| ==> tail[i] != "__module__" && tail[i] != "__qualname__"
    ensures Distinct(Keys(Others(["__module__", "__qualname__"]) + AsAttrs(Numbered(1, fields)) + Others(tail)))
  {
    var head := ["__module__", "__qualname__"];
    NumberedNames(1, fields);
    assert head[0][2] == 'm' && head[1][2] == 'q';
    BodyDistinct(head, Numbered(1, fields), tail);
  }

  // ---------------------------------------------------------------------
  // one line per variable

  /** The displays of the fields whose variable is `v`, in field order,
      whatever their blocks. */
  function Matching(fields: FieldMap, v: string): seq<string>
  {
    if fields == [] then []
    else
      var init := Matching(fields[..|fields| - 1], v);
      var f := fields[|fields| - 1].1;
      if f.variable == v then init + [AuxDisplay(f)] else init
  }

  /** The variable of each field, in field order. */
  function Variables(fields: FieldMap): (vs: seq<string>)
    ensures |vs| == |fields| && forall i :: 0 <= i < |fields| ==> vs[i] == fields[i].1.variable
  {
    seq(|fields|, i requires 0 <= i < |fields| => fields[i].1.variable)
  }

  /** The fields of two maps placed one after the other show their
      displays in that order. */
  lemma {:induction false} MatchingAppend(a: FieldMap, b: FieldMap, v: string)
    ensures Matching(a + b, v) == Matching(a, v) + Matching(b, v)
  {
    if b != [] {
      var init := b[..|b| - 1];
      assert (a + b)[..|a + b| - 1] == a + init;
      MatchingAppend(a, init, v);
    } else {
      assert a + b == a;
    }
  }

  /** A variable has displays exactly when some field carries it. */
  lemma {:induction false} MatchingEmpty(fields: FieldMap, v: string)
    ensures Matching(fields, v) == [] <==> v !in Variables(fields)
  {
    if fields != [] {
      var init := fields[..|fields| - 1];
      MatchingEmpty(init, v);
      assert Variables(fields) == Variables(init) + [fields[|fields| - 1].1.variable];
    }
  }

  /** `Section._fmt_var(variable)`: the variable, ` = `, and the displays
      of its fields separated by single spaces. */
  function DefaultLineAux(fields: FieldMap, v: string): string
  {
    v + " = " + Join(" ", Matching(fields, v))
  }

  /** One branch of `SectionGrid._fmt_var`: the display of `res` when the
      value of `count` is truthy, otherwise the display of `flag`. */
  function GridChoice(fields: FieldMap, v: string, count: string, res: string, flag: string): Result<string, AuxError>
  {
    match Get(fields, count)
    case None => Err(KeyError(count))
    case Some(c) =>
      var k := if Truthy(c.value) then res else flag;
      match Get(fields, k)
      case None => Err(KeyError(k))
      case Some(f) => Ok(v + " = " + AuxDisplay(f))
  }

  /** `_fmt_var(variable)` of the section's class. */
  function FmtVarAux(kind: AuxKind, fields: FieldMap, v: string): Result<string, AuxError>
  {
    if kind == AuxGrid && v == "NX" then GridChoice(fields, "NX", "f7", "f8", "f9")
    else if kind == AuxGrid && v == "NY" then GridChoice(fields, "NY", "f10", "f11", "f12")
    else Ok(DefaultLineAux(fields, v))
  }

  /** The NX line of the grid section reads only `f7` and one of `f8`
      and `f9`: with a truthy `f7` (the count) it shows `f8`, otherwise
      `f9`; every field that carries the variable NX but these is left out. */
  lemma GridNX(fields: FieldMap)
    requires "f7" in Keys(fields) && "f8" in Keys(fields) && "f9" in Keys(fields)
    ensures var count := Get(fields, "f7").value;
      FmtVarAux(AuxGrid, fields, "NX") ==
        if Truthy(count.value) then Ok("NX = " + AuxDisplay(Get(fields, "f8").value))
        else Ok("NX = " + AuxDisplay(Get(fields, "f9").value))
  {
    assert FmtVarAux(AuxGrid, fields, "NX") == GridChoice(fields, "NX", "f7", "f8", "f9");
    GridChoiceKeys(fields, "NX", "f7", "f8", "f9");
    assert "NX" + " = " == "NX = ";
  }

  /** The NY line follows the same rule with `f10`, `f11` and `f12`. */
  lemma GridNY(fields: FieldMap)
    requires "f10" in Keys(fields) && "f11" in Keys(fields) && "f12" in Keys(fields)
    ensures var count := Get(fields, "f10").value;
      FmtVarAux(AuxGrid, fields, "NY") ==
        if Truthy(count.value) then Ok("NY = " + AuxDisplay(Get(fields, "f11").value))
        else Ok("NY = " + AuxDisplay(Get(fields, "f12").value))
  {
    FmtVarNY(fields);
    GridChoiceKeys(fields, "NY", "f10", "f11", "f12");
    assert "NY" + " = " == "NY = ";
  }

  /** With all three keys present, the choice shows `res` or `flag` by the truth of `count`. */
  lemma GridChoiceKeys(fields: FieldMap, v: string, count: string, res: string, flag: string)
    requires count in Keys(fields) && res in Keys(fields) && flag in Keys(fields)
    ensures GridChoice(fields, v, count, res, flag) ==
      if Truthy(Get(fields, count).value.value) then Ok(v + " = " + AuxDisplay(Get(fields, res).value))
      else Ok(v + " = " + AuxDisplay(Get(fields, flag).value))
  {
  }

  /** The grid section dispatches the variable NY to its own rule. */
  lemma FmtVarNY(fields: FieldMap)
    ensures FmtVarAux(AuxGrid, fields, "NY") == GridChoice(fields, "NY", "f10", "f11", "f12")
  {
    assert "NY"[1] != "NX"[1];
  }

  /** The NX and NY lines raise for a missing `f7` or `f10`. */
  lemma GridMissingCount(fields: FieldMap)
    ensures "f7" !in Keys(fields) ==> FmtVarAux(AuxGrid, fields, "NX") == Err(KeyError("f7"))
    ensures "f10" !in Keys(fields) ==> FmtVarAux(AuxGrid, fields, "NY") == Err(KeyError("f10"))
  {
    FmtVarNY(fields);
  }

  // ---------------------------------------------------------------------
  // the whole section

  /** The results in order, or the first error among them. */
  function AllOk<T, E>(rs: seq<Result<T, E>>): Result<seq<T>, E>
  {
    if rs == [] then Ok([])
    else
      match AllOk(rs[..|rs| - 1])
      case Err(e) => Err(e)
      case Ok(xs) =>
        match rs[|rs| - 1]
        case Err(e) => Err(e)
        case Ok(x) => Ok(xs + [x])
  }

  lemma {:induction false} AllOkValues<T, E>(rs: seq<Result<T, E>>)
    ensures AllOk(rs).Ok? <==> forall i :: 0 <= i < |rs| ==> rs[i].Ok?
    ensures AllOk(rs).Ok? ==> (|AllOk(rs).value| == |rs| &&
      forall i :: 0 <= i < |rs| ==> rs[i] == Ok(AllOk(rs).value[i]))
  {
    if rs != [] {
      var init := rs[..|rs| - 1];
      AllOkValues(init);
      assert forall i :: 0 <= i < |init| ==> init[i] == rs[i];
    }
  }

  lemma {:induction false} AllOkErrStays<T, E>(rs: seq<Result<T, E>>, n: nat)
    requires n <= |rs| && AllOk(rs[..n]).Err?
    ensures AllOk(rs) == AllOk(rs[..n])
  {
    if n < |rs| {
      var init := rs[..|rs| - 1];
      assert init[..n] == rs[..n];
      AllOkErrStays(init, n);
    } else {
      assert rs[..n] == rs;
    }
  }

  lemma AllOkSnoc<T, E>(rs: seq<Result<T, E>>, r: Result<T, E>)
    ensures AllOk(rs + [r]) ==
      match AllOk(rs)
      case Err(e) => Err(e)
      case Ok(xs) => (match r case Err(e) => Err(e) case Ok(x) => Ok(xs + [x]))
  {
    assert (rs + [r])[..|rs|] == rs;
  }

  /** The line of each variable of `vs`, in order. */
  function LinesOf(kind: AuxKind, fields: FieldMap, vs: seq<string>): (ls: seq<Result<string, AuxError>>)
    ensures |ls| == |vs| && forall i :: 0 <= i < |vs| ==> ls[i] == FmtVarAux(kind, fields, vs[i])
  {
    seq(|vs|, i requires 0 <= i < |vs| => FmtVarAux(kind, fields, vs[i]))
  }

  /** The lines for the variables `vs`, in order; the first error raised stops it. */
  function AuxLines(kind: AuxKind, fields: FieldMap, vs: seq<string>): Result<seq<string>, AuxError>
  {
    AllOk(LinesOf(kind, fields, vs))
  }

  function Header(title: string): string
  {
    "++++++ " + title
  }

  /** `str(section)`: the header, then a line for each distinct variable
      in the order of first appearance, joined by newlines. */
  function AuxRenderSpec(kind: AuxKind, title: Option<string>, fields: FieldMap): Result<string, AuxError>
  {
    if title.None? then Err(LabelNotText)
    else
      match AuxLines(kind, fields, Dedup(Variables(fields)))
      case Err(e) => Err(e)
      case Ok(ls) => Ok(Join("\n", [Header(title.value)] + ls))
  }

  /** The lines are produced exactly when each variable's line is, and
      then they are those lines in order. */
  lemma AuxLinesOk(kind: AuxKind, fields: FieldMap, vs: seq<string>)
    ensures var r := AuxLines(kind, fields, vs);
      && (r.Ok? <==> forall i :: 0 <= i < |vs| ==> FmtVarAux(kind, fields, vs[i]).Ok?)
      && (r.Ok? ==> (|r.value| == |vs| &&
            forall i :: 0 <= i < |vs| ==> FmtVarAux(kind, fields, vs[i]) == Ok(r.value[i])))
  {
    AllOkValues(LinesOf(kind, fields, vs));
  }

  /** Once the lines of a prefix of the variables raise, so do the lines of all. */
  lemma AuxLinesErrStays(kind: AuxKind, fields: FieldMap, vs: seq<string>, n: nat)
    requires n <= |vs| && AuxLines(kind, fields, vs[..n]).Err?
    ensures AuxLines(kind, fields, vs) == AuxLines(kind, fields, vs[..n])
  {
    var ls := LinesOf(kind, fields, vs);
    assert LinesOf(kind, fields, vs[..n]) == ls[..n];
    AllOkErrStays(ls, n);
  }

  /** The distinct elements of a prefix come first among those of the whole. */
  lemma {:induction false} DedupPrefix<T(!new)>(xs: seq<T>, n: nat)
    requires n <= |xs|
    ensures |Dedup(xs[..n])| <= |Dedup(xs)| && Dedup(xs)[..|Dedup(xs[..n])|] == Dedup(xs[..n])
  {
    if n < |xs| {
      var init := xs[..|xs| - 1];
      assert init[..n] == xs[..n];
      DedupPrefix(init, n);
      assert xs == init + [xs[|xs| - 1]];
      DedupSnoc(init, xs[|xs| - 1]);
    } else {
      assert xs[..n] == xs;
    }
  }

  /** A section of a class that does not override `_fmt_var` always
      renders when it has a label: the header, then one default line for
      each distinct variable, in the order of first appearance. */
  lemma DefaultRender(kind: AuxKind, title: string, fields: FieldMap)
    requires kind != AuxGrid
    ensures var vs := Dedup(Variables(fields));
      AuxRenderSpec(kind, Some(title), fields) ==
        Ok(Join("\n", [Header(title)] + seq(|vs|, i requires 0 <= i < |vs| => DefaultLineAux(fields, vs[i]))))
  {
    var vs := Dedup(Variables(fields));
    var rs := LinesOf(kind, fields, vs);
    forall i | 0 <= i < |vs| ensures rs[i] == Ok(DefaultLineAux(fields, vs[i])) {
      FmtVarDefault(kind, fields, vs[i]);
    }
    AllOkValues(rs);
    var ls := AuxLines(kind, fields, vs).value;
    assert ls == seq(|vs|, i requires 0 <= i < |vs| => DefaultLineAux(fields, vs[i]));
  }

  lemma FmtVarDefault(kind: AuxKind, fields: FieldMap, v: string)
    requires kind != AuxGrid
    ensures FmtVarAux(kind, fields, v) == Ok(DefaultLineAux(fields, v))
  {
  }

  /** Without newlines inside the header and the lines, the text splits
      into the header and one line for each distinct variable. */
  lemma RenderedLines(kind: AuxKind, title: string, fields: FieldMap)
    requires AuxRenderSpec(kind, Some(title), fields).Ok?
    requires '\n' !in title
    requires forall i :: 0 <= i < |AuxLines(kind, fields, Dedup(Variables(fields))).value| ==>
      '\n' !in AuxLines(kind, fields, Dedup(Variables(fields))).value[i]
    ensures var ls := AuxLines(kind, fields, Dedup(Variables(fields))).value;
      && Split(AuxRenderSpec(kind, Some(title), fields).value, '\n') == [Header(title)] + ls
      && |Split(AuxRenderSpec(kind, Some(title), fields).value, '\n')| == 1 + |Dedup(Variables(fields))|
  {
    var vs := Dedup(Variables(fields));
    var ls := AuxLines(kind, fields, vs).value;
    AuxLinesOk(kind, fields, vs);
    var parts := [Header(title)] + ls;
    forall i | 0 <= i < |parts| ensures '\n' !in parts[i] {
      if i > 0 {
        assert parts[i] == ls[i - 1];
      }
    }
    SplitJoin(parts, '\n');
  }

  // ---------------------------------------------------------------------
  // blocks play no part

  /** Two field maps that agree on every name, variable, value and display. */
  predicate SameShown(a: FieldMap, b: FieldMap)
  {
    && |a| == |b|
    && forall i :: 0 <= i < |a| ==>
      && a[i].0 == b[i].0
      && a[i].1.variable == b[i].1.variable
      && a[i].1.value == b[i].1.value
      && AuxDisplay(a[i].1) == AuxDisplay(b[i].1)
  }

  lemma {:induction false} GetShown(a: FieldMap, b: FieldMap, k: string)
    requires SameShown(a, b)
    ensures Get(a, k).Some? <==> Get(b, k).Some?
    ensures Get(a, k).Some? ==>
      Get(a, k).value.value == Get(b, k).value.value && AuxDisplay(Get(a, k).value) == AuxDisplay(Get(b, k).value)
  {
    if a != [] {
      assert SameShown(a[1..], b[1..]);
      GetShown(a[1..], b[1..], k);
    }
  }

  lemma {:induction false} MatchingShown(a: FieldMap, b: FieldMap, v: string)
    requires SameShown(a, b)
    ensures Matching(a, v) == Matching(b, v)
  {
    if a != [] {
      var n := |a| - 1;
      assert SameShown(a[..n], b[..n]);
      MatchingShown(a[..n], b[..n], v);
    }
  }

  lemma FmtVarShown(kind: AuxKind, a: FieldMap, b: FieldMap, v: string)
    requires SameShown(a, b)
    ensures FmtVarAux(kind, a, v) == FmtVarAux(kind, b, v)
  {
    if kind == AuxGrid && v == "NX" {
      GetShown(a, b, "f7");
      GetShown(a, b, "f8");
      GetShown(a, b, "f9");
    } else if kind == AuxGrid && v == "NY" {
      GetShown(a, b, "f10");
      GetShown(a, b, "f11");
      GetShown(a, b, "f12");
    } else {
      MatchingShown(a, b, v);
    }
  }

  lemma AuxLinesShown(kind: AuxKind, a: FieldMap, b: FieldMap, vs: seq<string>)
    requires SameShown(a, b)
    ensures AuxLines(kind, a, vs) == AuxLines(kind, b, vs)
  {
    forall i | 0 <= i < |vs| ensures FmtVarAux(kind, a, vs[i]) == FmtVarAux(kind, b, vs[i]) {
      FmtVarShown(kind, a, b, vs[i]);
    }
    assert LinesOf(kind, a, vs) == LinesOf(kind, b, vs);
  }

  /** A section renders the same from two field maps that agree on every
      name, variable, value and display. */
  lemma RenderShown(kind: AuxKind, title: Option<string>, a: FieldMap, b: FieldMap)
    requires SameShown(a, b)
    ensures AuxRenderSpec(kind, title, a) == AuxRenderSpec(kind, title, b)
  {
    assert Variables(a) == Variables(b);
    AuxLinesShown(kind, a, b, Dedup(Variables(a)));
  }

  /** Moving a field to another block changes nothing in the text: this
      revision groups by variable alone. */
  lemma RenderIgnoresBlock(kind: AuxKind, title: Option<string>, fields: FieldMap, i: nat, block: Option<string>)
    requires i < |fields|
    ensures AuxRenderSpec(kind, title, fields[i := (fields[i].0, fields[i].1.(block := block))]) ==
      AuxRenderSpec(kind, title, fields)
  {
    RenderShown(kind, title, fields[i := (fields[i].0, fields[i].1.(block := block))], fields);
  }

  // ---------------------------------------------------------------------
  // the object

  class AuxSection {
    /** The section's class. */
    const kind: AuxKind
    /** `self.label`, the section's title */
    var title: Option<string>
    /** `_fields` */
    var fields: FieldMap

    /** `_fields` binds each name once, as every dictionary does. */
    ghost predicate Valid()
      reads this
    {
      Distinct(Keys(fields))
    }

    /** `Section.__init__(label, fields)`: `BaseClass.__init__` collects the
        fields, then the label is stored; a `fields` argument that is
        `None` is the empty `extra`. */
    constructor (kind: AuxKind, title: Option<string>, extra: FieldMap)
      ensures this.kind == kind && this.title == title
      ensures fields == Collected(AuxSchema(kind), extra)
      ensures Valid()
    {
      this.kind := kind;
      var fs := CollectFields(AuxSchema(kind), extra);
      fields := fs;
      this.title := title;
      AuxSchemaDistinct(kind);
      CollectedFields(AuxSchema(kind), extra);
    }

    /** `iter(section)`: the fields, in creation order. */
    method Iter() returns (fs: seq<Field>)
      ensures |fs| == |fields| && forall i :: 0 <= i < |fields| ==> fs[i] == fields[i].1
    {
      fs := Values(fields);
    }

    /** `name in section` */
    method Contains(name: string) returns (b: bool)
      ensures b <==> name in Keys(fields)
    {
      b := Get(fields, name).Some?;
    }

    /** `section[name]`, raising `KeyError` for a name not bound. */
    method GetItem(name: string) returns (r: Result<Field, AuxError>)
      ensures r.Ok? <==> name in Keys(fields)
      ensures r.Ok? ==> Get(fields, name) == Some(r.value)
      ensures r.Err? ==> r.error == KeyError(name)
    {
      match Get(fields, name)
      case Some(f) => r := Ok(f);
      case None => r := Err(KeyError(name));
    }

    /** `section[name] = field`: afterwards `name in section` holds and
        `section[name]` is `field`. */
    method SetItem(name: string, field: Field)
      requires Valid()
      modifies this
      ensures fields == Set(old(fields), name, field)
      ensures name in Keys(fields) && Get(fields, name) == Some(field)
      ensures title == old(title)
      ensures Valid()
    {
      if name !in Keys(fields) {
        DistinctSnoc(Keys(fields), name);
      }
      GetSet(fields, name, field);
      fields := Set(fields, name, field);
    }

    /** `del section[name]`: removes that entry only, keeping the others
        and their order, or raises `KeyError`. */
    method DelItem(name: string) returns (r: Result<(), AuxError>)
      requires Valid()
      modifies this
      ensures name in Keys(old(fields)) ==> r == Ok(()) && fields == Delete(old(fields), name)
      ensures name in Keys(old(fields)) ==>
        var i := IndexOf(old(fields), name);
        name !in Keys(fields) && Keys(fields) == Keys(old(fields))[..i] + Keys(old(fields))[i + 1..]
      ensures forall k :: k != name ==> Get(fields, k) == Get(old(fields), k)
      ensures name !in Keys(old(fields)) ==> r == Err(KeyError(name)) && fields == old(fields)
      ensures title == old(title)
      ensures Valid()
    {
      if Get(fields, name).None? {
        return Err(KeyError(name));
      }
      DeleteKeepsOthers(fields, name);
      fields := Delete(fields, name);
      r := Ok(());
    }

    /** `str(section)`: the header, then for each field whose variable has
        not been seen yet, a newline and that variable's line. */
    method Render() returns (r: Result<string, AuxError>)
      ensures r == AuxRenderSpec(kind, title, fields)
    {
      if title == None {
        return Err(LabelNotText);
      }
      var seen: set<string> := {};
      var output := Header(title.value);
      ghost var vars := Variables(fields);
      ghost var lines: seq<string> := [];
      for i := 0 to |fields|
        invariant seen == Elements(vars[..i])
        invariant AuxLines(kind, fields, Dedup(vars[..i])) == Ok(lines)
        invariant output == Join("\n", [Header(title.value)] + lines)
      {
        var v := fields[i].1.variable;
        ElementsStep(vars, i);
        if v in seen {
          LinesSeen(kind, fields, vars, i);
        } else {
          seen := seen + {v};
          LinesNew(kind, fields, vars, i, lines);
          var line := FmtVarAux(kind, fields, v);
          if line.Err? {
            LinesStop(kind, fields, vars, i + 1);
            return Err(line.error);
          }
          JoinSnoc(Header(title.value), lines, line.value);
          output := output + "\n" + line.value;
          lines := lines + [line.value];
        }
      }
      assert vars[..|fields|] == vars;
      r := Ok(output);
    }
  }

  /** The elements of a sequence, as a set. */
  function Elements<T>(xs: seq<T>): set<T>
  {
    set x | x in xs
  }

  lemma ElementsStep<T>(xs: seq<T>, i: nat)
    requires i < |xs|
    ensures Elements(xs[..i + 1]) == Elements(xs[..i]) + {xs[i]}
  {
    assert xs[..i + 1] == xs[..i] + [xs[i]];
  }

  /** A field whose variable was seen already adds no line. */
  lemma LinesSeen(kind: AuxKind, fields: FieldMap, vs: seq<string>, i: nat)
    requires i < |vs| && vs[i] in vs[..i]
    ensures AuxLines(kind, fields, Dedup(vs[..i + 1])) == AuxLines(kind, fields, Dedup(vs[..i]))
  {
    assert vs[..i + 1] == vs[..i] + [vs[i]];
    DedupSnoc(vs[..i], vs[i]);
  }

  /** A field with a new variable adds that variable's line, or its error. */
  lemma LinesNew(kind: AuxKind, fields: FieldMap, vs: seq<string>, i: nat, ls: seq<string>)
    requires i < |vs| && vs[i] !in vs[..i]
    requires AuxLines(kind, fields, Dedup(vs[..i])) == Ok(ls)
    ensures AuxLines(kind, fields, Dedup(vs[..i + 1])) ==
      match FmtVarAux(kind, fields, vs[i])
      case Err(e) => Err(e)
      case Ok(l) => Ok(ls + [l])
  {
    var d := Dedup(vs[..i]);
    assert vs[..i + 1] == vs[..i] + [vs[i]];
    DedupSnoc(vs[..i], vs[i]);
    assert LinesOf(kind, fields, d + [vs[i]]) == LinesOf(kind, fields, d) + [FmtVarAux(kind, fields, vs[i])];
    AllOkSnoc(LinesOf(kind, fields, d), FmtVarAux(kind, fields, vs[i]));
  }

  /** When the lines stop with an error after `n` fields, the section raises it. */
  lemma LinesStop(kind: AuxKind, fields: FieldMap, vs: seq<string>, n: nat)
    requires n <= |vs| && AuxLines(kind, fields, Dedup(vs[..n])).Err?
    ensures AuxLines(kind, fields, Dedup(vs)) == AuxLines(kind, fields, Dedup(vs[..n]))
  {
    DedupPrefix(vs, n);
    AuxLinesErrStays(kind, fields, Dedup(vs), |Dedup(vs[..n])|);
  }

  /** `"\n".join` of one more line. */
  lemma JoinSnoc(head: string, lines: seq<string>, line: string)
    ensures Join("\n", [head] + (lines + [line])) == Join("\n", [head] + lines) + "\n" + line
  {
    assert [head] + (lines + [line]) == ([head] + lines) + [line];
    JoinAppend("\n", [head] + lines, [line]);
  }
}
