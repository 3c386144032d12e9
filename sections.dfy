/** A configuration section of app/fall3d/dataclasses.py as an object: the
    class `Section` (with `BaseClass`) whose instances hold `_fields` and
    `_vars`, their dictionary-style access, `update_from_obj`, `__str__`,
    and `get_sections`, which builds one section of each kind. */
module Sections {
  import opened Wrappers
  import opened PyText
  import opened OrderedDicts
  import opened Fields
  import opened Grouping
  import opened BlockLayout
  import opened Overrides
  import opened Catalog

  /** `update_from_obj` on the values: every field whose name is an
      attribute of `obj` takes that attribute as its value; nothing else
      about any field changes. */
  function UpdatedFrom(fields: FieldMap, obj: map<string, Value>): (r: FieldMap)
    ensures Keys(r) == Keys(fields)
    ensures forall i :: 0 <= i < |fields| ==>
      && KeyOf(r[i].1) == KeyOf(fields[i].1)
      && r[i].1.labelText == fields[i].1.labelText
      && r[i].1.kind == fields[i].1.kind
      && r[i].1.default == fields[i].1.default
      && r[i].1.value == (if fields[i].0 in obj then obj[fields[i].0] else fields[i].1.value)
  {
    seq(|fields|, i requires 0 <= i < |fields| =>
      var (key, field) := fields[i];
      if key in obj then (key, field.(value := obj[key])) else (key, field))
  }

  class Section {
    /** The section's class. */
    const kind: SectionKind
    /** `_fields` */
    var fields: FieldMap
    /** `_vars` */
    var vars: VarIndex

    /** `_fields` binds each name once, as every dictionary does. */
    ghost predicate Valid()
      reads this
    {
      Distinct(Keys(fields))
    }

    /** `BaseClass.__init__(fields)`, for a section of class `kind`; a
        `fields` argument that is `None` is the empty `extra`. */
    constructor (kind: SectionKind, extra: FieldMap)
      ensures this.kind == kind
      ensures fields == Collected(Schema(kind), extra)
      ensures vars == GroupIndex(fields)
      ensures Valid()
    {
      this.kind := kind;
      var fs := CollectFields(Schema(kind), extra);
      var vs := BuildGroupIndex(fs);
      fields := fs;
      vars := vs;
      SchemaDistinct(kind);
      CollectedFields(Schema(kind), extra);
    }

    /** `iter(section)`: the fields, in creation order. */
    method Iter() returns (fs: seq<Field>)
      ensures |fs| == |fields| && forall i :: 0 <= i < |fields| ==> fs[i] == fields[i].1
    {
      fs := Values(fields);
    }

    /** `name in section` */
    method Contains(name: string) returns (b: bool)
      ensures b <==> name in Keys(fields)
    {
      b := Get(fields, name).Some?;
    }

    /** `section[name]`, raising `KeyError` for a name not bound. */
    method GetItem(name: string) returns (r: Result<Field, RenderError>)
      ensures r.Ok? <==> name in Keys(fields)
      ensures r.Ok? ==> Get(fields, name) == Some(r.value)
      ensures r.Err? ==> r.error == KeyError(name)
    {
      r := Lookup(fields, name);
    }

    /** `section[name] = field`: binds the name in `_fields` and leaves
        `_vars` as it was. */
    method SetItem(name: string, field: Field)
      requires Valid()
      modifies this
      ensures fields == Set(old(fields), name, field)
      ensures vars == old(vars)
      ensures Valid()
    {
      if name !in Keys(fields) {
        DistinctSnoc(Keys(fields), name);
      }
      fields := Set(fields, name, field);
    }

    /** `del section[name]`: removes the entry, or raises `KeyError`;
        `_vars` is left as it was. */
    method DelItem(name: string) returns (r: Result<(), RenderError>)
      requires Valid()
      modifies this
      ensures name in Keys(old(fields)) ==> r == Ok(()) && fields == Delete(old(fields), name)
      ensures name !in Keys(old(fields)) ==> r == Err(KeyError(name)) && fields == old(fields)
      ensures vars == old(vars)
      ensures Valid()
    {
      if Get(fields, name).None? {
        return Err(KeyError(name));
      }
      DeleteKeepsOthers(fields, name);
      fields := Delete(fields, name);
      r := Ok(());
    }

    /** `update_from_obj(obj)`, where `obj` maps the names of the
        attributes the object has to their values. */
    method UpdateFromObj(obj: map<string, Value>)
      requires Valid()
      modifies this
      ensures fields == UpdatedFrom(old(fields), obj)
      ensures vars == old(vars)
      ensures Valid()
    {
      ghost var start := fields;
      for i := 0 to |fields|
        invariant |fields| == |start| && Keys(fields) == Keys(start)
        invariant forall j :: 0 <= j < i ==> fields[j] == UpdatedFrom(start, obj)[j]
        invariant forall j :: i <= j < |fields| ==> fields[j] == start[j]
        invariant vars == old(vars)
      {
        var key := fields[i].0;
        if key in obj {
          var field := Get(fields, key).value;
          GetAt(fields, i);
          SetAt(fields, i, field.(value := obj[key]));
          fields := Set(fields, key, field.(value := obj[key]));
        }
      }
      assert fields == UpdatedFrom(start, obj);
    }

    /** `str(section)`: renders every pair of `_vars` with the class's
        `_fmt_var`, gathers the lines by block, then lays the blocks out. */
    method Render() returns (r: Result<string, RenderError>)
      ensures r == RenderSpec(kind, fields, vars)
    {
      var blocks := GatherBlocks();
      if blocks.Err? {
        return Err(blocks.error);
      }
      var output := LayOut(blocks.value);
      if output == None {
        return Err(OutputUnbound);
      }
      r := Ok(output.value);
    }

    /** The first loop of `Section.__str__`: the text of each block. */
    method GatherBlocks() returns (r: Result<seq<(Option<string>, string)>, RenderError>)
      ensures FmtAll(kind, fields, vars).Err? ==> r == Err(FmtAll(kind, fields, vars).error)
      ensures FmtAll(kind, fields, vars).Ok? ==> r == Ok(BlockTexts(FmtAll(kind, fields, vars).value))
    {
      var blocksStr: seq<(Option<string>, string)> := [];
      ghost var entries: seq<Entry> := [];
      ghost var lines := Lines(kind, fields, vars);
      for i := 0 to |vars|
        invariant Collect(vars[..i], lines[..i]) == Ok(entries)
        invariant blocksStr == BlockTexts(entries)
      {
        var index := vars[i];
        var line := FmtVar(kind, fields, index);
        CollectNext(vars, lines, i);
        if line.Err? {
          CollectErrStays(vars, lines, i + 1);
          return Err(line.error);
        }
        var block := index.0.1;
        BlockTextsSnoc(entries, (block, line.value));
        blocksStr := AddLine(blocksStr, block, line.value);
        entries := entries + [(block, line.value)];
      }
      assert vars[..|vars|] == vars && lines[..|vars|] == lines;
      r := Ok(blocksStr);
    }
  }

  /** The second loop of `Section.__str__`: the top block indented once,
      then each named block under its indented name. */
  method LayOut(blocksStr: seq<(Option<string>, string)>) returns (output: Option<string>)
    ensures output == match EmitAll(blocksStr) case Bound(text) => Some(text) case _ => None
  {
    output := None;
    for j := 0 to |blocksStr|
      invariant EmitAll(blocksStr[..j]) == if output == None then Unbound else Bound(output.value)
    {
      assert blocksStr[..j + 1][..j] == blocksStr[..j];
      var (block, blockStr) := blocksStr[j];
      if block == None {
        output := Some(IndentLines(Indent1, blockStr));
      } else {
        if output == None {
          EmitAllRaised(blocksStr, j + 1);
          assert blocksStr[..|blocksStr|] == blocksStr;
          return None;
        }
        EmitNamed(output.value, block.value, blockStr);
        output := Some(output.value + ("\n\n" + Indent1 + block.value + "\n"));
        output := Some(output.value + IndentLines(Indent2, blockStr));
      }
    }
    assert blocksStr[..|blocksStr|] == blocksStr;
  }

  /** The body of the first loop of `Section.__str__`: the line joins the
      text of its block, a block not seen before starting empty at the end. */
  method AddLine(blocksStr: seq<(Option<string>, string)>, block: Option<string>, line: string)
    returns (after: seq<(Option<string>, string)>)
    ensures after == Set(blocksStr, block, (if block in Keys(blocksStr) then Get(blocksStr, block).value else "") + (line + "\n"))
  {
    after := blocksStr;
    if Get(after, block).None? {
      after := Set(after, block, "");
    }
    after := Set(after, block, Get(after, block).value + (line + "\n"));
    if block !in Keys(blocksStr) {
      GetSet(blocksStr, block, "");
      SetSet(blocksStr, block, "", "" + (line + "\n"));
      assert "" + (line + "\n") == line + "\n";
    }
  }

  /** The text the second loop of `Render` appends for a named block is the
      one `Emit` appends. */
  lemma EmitNamed(output: string, block: string, text: string)
    ensures Emit(Bound(output), Some(block), text) ==
      Bound(output + ("\n\n" + Indent1 + block + "\n") + IndentLines(Indent2, text))
  {
    var h := "\n\n" + Indent1 + block + "\n";
    assert output + "\n\n" + Indent1 + block + "\n" == output + h;
  }

  /** `SectionX()` for the class `kind`: a section built with no extra fields. */
  method NewSection(kind: SectionKind) returns (s: Section)
    ensures fresh(s) && s.kind == kind
    ensures s.fields == SchemaFields(kind)
    ensures s.vars == GroupIndex(s.fields) && s.Valid()
  {
    s := new Section(kind, []);
    DefaultFields(kind);
  }

  /** One entry of the `get_sections()` dict: the catalog name at `i` and a
      fresh `SectionX()` of the class published under it. */
  method NewEntry(i: nat) returns (e: (string, Section))
    requires i < |CatalogKinds|
    ensures e.0 == CatalogNames[i] && fresh(e.1) && e.1.kind == CatalogKinds[i]
    ensures e.1.vars == GroupIndex(e.1.fields) && e.1.Valid()
  {
    var s := NewSection(CatalogKinds[i]);
    e := (CatalogNames[i], s);
  }

  /** `get_sections()`: one fresh section of each class, under its catalog
      name, in the catalog's order. */
  method GetSections() returns (config: seq<(string, Section)>)
    ensures Keys(config) == CatalogNames
    ensures forall i :: 0 <= i < |config| ==>
      && fresh(config[i].1)
      && config[i].1.kind == CatalogKinds[i]
      && config[i].1.vars == GroupIndex(config[i].1.fields)
      && config[i].1.Valid()
  {
    config := [];
    for i := 0 to |CatalogKinds|
      invariant |config| == i
      invariant forall j :: 0 <= j < i ==>
        && config[j].0 == CatalogNames[j]
        && fresh(config[j].1)
        && config[j].1.kind == CatalogKinds[j]
        && config[j].1.vars == GroupIndex(config[j].1.fields)
        && config[j].1.Valid()
    {
      var e := NewEntry(i);
      config := config + [e];
    }
  }

  /** With no extra fields, a section's fields are its class's fields. */
  lemma DefaultFields(kind: SectionKind)
    ensures Collected(Schema(kind), []) == SchemaFields(kind)
  {
    SchemaFieldsTaken(kind);
    BindAllFresh(SchemaFields(kind));
  }

  // ---------------------------------------------------------------------
  // what the section promises

  /** `update_from_obj` changes values only, so the (variable, block) index
      built at construction still describes the updated fields. */
  lemma UpdateKeepsGroupIndex(fields: FieldMap, obj: map<string, Value>)
    ensures GroupIndex(UpdatedFrom(fields, obj)) == GroupIndex(fields)
  {
    var u := UpdatedFrom(fields, obj);
    assert Tagged(u) == Tagged(fields) by {
      forall i | 0 <= i < |fields| ensures Tagged(u)[i] == Tagged(fields)[i] {
        assert u[i].0 == Keys(u)[i] == Keys(fields)[i] == fields[i].0;
      }
    }
  }

  /** After `update_from_obj`, `section[k]` is the field it was, holding the
      object's attribute `k` when there is one. */
  lemma {:induction false} UpdateGet(fields: FieldMap, obj: map<string, Value>, k: string)
    ensures Get(UpdatedFrom(fields, obj), k) ==
      match Get(fields, k)
      case None => None
      case Some(f) => Some(if k in obj then f.(value := obj[k]) else f)
  {
    if fields != [] {
      var u := UpdatedFrom(fields, obj);
      assert u[1..] == UpdatedFrom(fields[1..], obj) by {
        assert Keys(u)[1..] == Keys(fields)[1..];
        forall i | 0 <= i < |fields| - 1 ensures u[1..][i] == UpdatedFrom(fields[1..], obj)[i] {
          assert u[i + 1].0 == Keys(u)[i + 1];
        }
      }
      assert u[0].0 == Keys(u)[0];
      UpdateGet(fields[1..], obj, k);
    }
  }

  /** Displays read only the fields they name. */
  lemma {:induction false} DisplaysFrame(a: FieldMap, b: FieldMap, keys: seq<string>)
    requires forall i :: 0 <= i < |keys| ==> Get(a, keys[i]) == Get(b, keys[i])
    ensures Displays(a, keys) == Displays(b, keys)
  {
    if keys != [] {
      DisplaysFrame(a, b, keys[1..]);
    }
  }

  /** Every name in a bucket of the index is a field. */
  lemma BucketsAreFields(fields: FieldMap)
    requires Distinct(Keys(fields))
    ensures forall j, i :: 0 <= j < |GroupIndex(fields)| && 0 <= i < |GroupIndex(fields)[j].1| ==>
      GroupIndex(fields)[j].1[i] in Keys(fields)
  {
    GroupIndexPartition(fields);
  }

  /** A section that formats with `Section._fmt_var` renders the same from
      two field maps that agree on every name its buckets hold. */
  lemma RenderFrameDefault(kind: SectionKind, a: FieldMap, b: FieldMap, vars: VarIndex)
    requires DefaultFormatted(kind)
    requires forall j, i :: 0 <= j < |vars| && 0 <= i < |vars[j].1| ==> Get(a, vars[j].1[i]) == Get(b, vars[j].1[i])
    ensures RenderSpec(kind, a, vars) == RenderSpec(kind, b, vars)
  {
    forall j | 0 <= j < |vars| ensures FmtVar(kind, a, vars[j]) == FmtVar(kind, b, vars[j]) {
      DisplaysFrame(a, b, vars[j].1);
      FmtVarDefault(kind, a, vars[j]);
      FmtVarDefault(kind, b, vars[j]);
    }
    assert Lines(kind, a, vars) == Lines(kind, b, vars);
  }

  /** A field bound with `section[name] = field` under a new name is in no
      bucket of `_vars`, and a section that formats with
      `Section._fmt_var` renders exactly as before. */
  lemma SetNewKeepsRender(kind: SectionKind, fields: FieldMap, name: string, field: Field)
    requires DefaultFormatted(kind) && Distinct(Keys(fields)) && name !in Keys(fields)
    ensures forall j :: 0 <= j < |GroupIndex(fields)| ==> name !in GroupIndex(fields)[j].1
    ensures RenderSpec(kind, Set(fields, name, field), GroupIndex(fields)) == RenderSpec(kind, fields, GroupIndex(fields))
  {
    var vars := GroupIndex(fields);
    BucketsAreFields(fields);
    GetSet(fields, name, field);
    RenderFrameDefault(kind, Set(fields, name, field), fields, vars);
  }

  /** `del section[name]` leaves `_vars` naming the deleted field, so a
      section that formats with `Section._fmt_var` can no longer be
      rendered: `str` raises `KeyError` for exactly that name. */
  lemma DeleteBreaksRender(kind: SectionKind, fields: FieldMap, name: string)
    requires DefaultFormatted(kind) && Distinct(Keys(fields)) && name in Keys(fields)
    ensures RenderSpec(kind, Delete(fields, name), GroupIndex(fields)) == Err(KeyError(name))
  {
    var vars := GroupIndex(fields);
    var fs' := Delete(fields, name);
    BucketsAreFields(fields);
    DeleteKeepsOthers(fields, name);
    assert exists j :: 0 <= j < |vars| && name in vars[j].1 by {
      NameHasBucket(fields, name);
    }
    RenderMissingOne(kind, fs', vars, name);
  }

  /** Every field is in some bucket of the index. */
  lemma NameHasBucket(fields: FieldMap, name: string)
    requires Distinct(Keys(fields)) && name in Keys(fields)
    ensures exists j :: 0 <= j < |GroupIndex(fields)| && name in GroupIndex(fields)[j].1
  {
    var vars := GroupIndex(fields);
    GroupIndexPartition(fields);
    var i := IndexOf(fields, name);
    var j :| 0 <= j < |vars| && vars[j].0 == KeyOf(fields[i].1);
    assert fields[i].0 in vars[j].1;
  }

  /** A section that formats with `Section._fmt_var`, whose buckets name
      one missing field and otherwise fields that exist, raises `KeyError`
      for that field. */
  lemma RenderMissingOne(kind: SectionKind, fields: FieldMap, vars: VarIndex, name: string)
    requires DefaultFormatted(kind) && name !in Keys(fields)
    requires forall j, i :: 0 <= j < |vars| && 0 <= i < |vars[j].1| ==> vars[j].1[i] in Keys(fields) || vars[j].1[i] == name
    requires exists j :: 0 <= j < |vars| && name in vars[j].1
    ensures RenderSpec(kind, fields, vars) == Err(KeyError(name))
  {
    forall j | 0 <= j < |vars| && FmtVar(kind, fields, vars[j]).Err?
      ensures FmtVar(kind, fields, vars[j]).error == KeyError(name)
    {
      FmtVarDefault(kind, fields, vars[j]);
    }
    FmtAllErrIs(kind, fields, vars, KeyError(name));
    var j :| 0 <= j < |vars| && name in vars[j].1;
    FmtVarDefault(kind, fields, vars[j]);
    FmtAllResult(kind, fields, vars);
  }

  /** A section that formats with `Section._fmt_var` renders exactly when it
      has a field and its first field is in the top region: every bucket
      names fields that exist, and only the layout can raise. */
  lemma DefaultRenderOk(kind: SectionKind, fields: FieldMap)
    requires DefaultFormatted(kind) && Distinct(Keys(fields))
    ensures RenderSpec(kind, fields, GroupIndex(fields)).Ok? <==> fields != [] && fields[0].1.block == None
  {
    var vars := GroupIndex(fields);
    GroupIndexPartition(fields);
    forall j | 0 <= j < |vars| ensures FmtVar(kind, fields, vars[j]).Ok? {
      assert forall i :: 0 <= i < |vars[j].1| ==> vars[j].1[i] in Keys(fields);
    }
    RenderLines(kind, fields, vars);
    if fields != [] {
      var t := Tagged(fields);
      DedupHead(Keys(t));
      assert Keys(t)[0] == KeyOf(fields[0].1);
      assert Keys(vars)[0] == vars[0].0;
    }
  }
}
