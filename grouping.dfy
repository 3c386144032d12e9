/** How `BaseClass.__init__` (app/fall3d/dataclasses.py) builds a section's
    two dictionaries: `_fields`, the field descriptors by attribute name, and
    `_vars`, the grouping index from each (variable, block) pair to the
    names of the fields that carry it. Each is given as a specification
    function and computed by a method with the source's loop. */
module Grouping {
  import opened Wrappers
  import opened PyText
  import opened OrderedDicts
  import opened Fields

  /** A class attribute, in declaration order: a field descriptor (it has
      `_field`) or anything else (the description string, methods). */
  datatype Attr = FieldAttr(field: Field) | OtherAttr

  /** `_fields`: attribute name to field, in binding order. */
  type FieldMap = seq<(string, Field)>

  /** A (variable, block) pair; a block of `None` is the top region. */
  type GroupKey = (string, Option<string>)

  /** `_vars`: each (variable, block) pair with the names of its fields. */
  type VarIndex = seq<(GroupKey, seq<string>)>

  /** The class attributes taken as fields: names that do not start with
      `__`, bound to an object carrying `_field`. */
  function ClassFields(attrs: seq<(string, Attr)>): FieldMap
  {
    if attrs == [] then []
    else
      var init := ClassFields(attrs[..|attrs| - 1]);
      var (name, attr) := attrs[|attrs| - 1];
      if !StartsWith(name, "__") && attr.FieldAttr? then init + [(name, attr.field)] else init
  }

  /** `_fields` once `__init__` has bound the class fields, then the extra
      `fields` mapping, one key after the other. */
  function Collected(attrs: seq<(string, Attr)>, extra: FieldMap): FieldMap
  {
    BindAll(BindAll([], ClassFields(attrs)), extra)
  }

  /** The names taken as fields are distinct, since the class's own names are. */
  lemma {:induction false} ClassFieldsDistinct(attrs: seq<(string, Attr)>)
    requires Distinct(Keys(attrs))
    ensures Distinct(Keys(ClassFields(attrs)))
    ensures forall k :: k in Keys(ClassFields(attrs)) ==> k in Keys(attrs)
  {
    if attrs != [] {
      var init, last := attrs[..|attrs| - 1], attrs[|attrs| - 1];
      assert Keys(attrs) == Keys(init) + [last.0];
      DistinctSnoc(Keys(init), last.0);
      ClassFieldsDistinct(init);
      var cls := ClassFields(init);
      if ClassFields(attrs) != cls {
        assert Keys(ClassFields(attrs)) == Keys(cls) + [last.0];
        DistinctSnoc(Keys(cls), last.0);
      }
    }
  }

  /** The class fields keep declaration order, an extra field whose name is
      taken replaces that field where it stands, the other extra fields
      follow in their own order, and the last binding of a name wins. */
  lemma CollectedFields(attrs: seq<(string, Attr)>, extra: FieldMap)
    requires Distinct(Keys(attrs))
    ensures Keys(Collected(attrs, extra)) == Dedup(Keys(ClassFields(attrs)) + Keys(extra))
    ensures Distinct(Keys(Collected(attrs, extra)))
    ensures forall k :: (Get(Collected(attrs, extra), k) ==
      if k in Keys(extra) then Some(LastValue(extra, k)) else Get(ClassFields(attrs), k))
  {
    var cls := ClassFields(attrs);
    ClassFieldsDistinct(attrs);
    BindAllFresh(cls);
    BindAllKeys(cls, extra);
    forall k ensures Get(BindAll(cls, extra), k) ==
      if k in Keys(extra) then Some(LastValue(extra, k)) else Get(cls, k)
    {
      BindAllGet(cls, extra, k);
    }
  }

  /** `BaseClass.__init__`, first two loops: collects `_fields`. */
  method CollectFields(attrs: seq<(string, Attr)>, extra: FieldMap) returns (fields: FieldMap)
    ensures fields == Collected(attrs, extra)
  {
    fields := [];
    for i := 0 to |attrs|
      invariant fields == BindAll([], ClassFields(attrs[..i]))
    {
      assert attrs[..i + 1][..i] == attrs[..i];
      var (key, attr) := attrs[i];
      if !StartsWith(key, "__") && attr.FieldAttr? {
        fields := Set(fields, key, attr.field);
        ghost var cls := ClassFields(attrs[..i]);
        assert (cls + [(key, attr.field)])[..|cls|] == cls;
      }
    }
    assert attrs[..|attrs|] == attrs;
    ghost var cls := ClassFields(attrs);
    for i := 0 to |extra|
      invariant fields == BindAll(BindAll([], cls), extra[..i])
    {
      assert extra[..i + 1][..i] == extra[..i];
      var (name, field) := extra[i];
      fields := Set(fields, name, field);
    }
    assert extra[..|extra|] == extra;
  }

  // ---------------------------------------------------------------------
  // the grouping index

  function KeyOf(f: Field): GroupKey
  {
    (f.variable, f.block)
  }

  /** Each field name tagged with its field's (variable, block) pair, in field order. */
  function Tagged(fields: FieldMap): (t: seq<(GroupKey, string)>)
    ensures |t| == |fields| && forall i :: 0 <= i < |fields| ==> t[i] == (KeyOf(fields[i].1), fields[i].0)
  {
    seq(|fields|, i requires 0 <= i < |fields| => (KeyOf(fields[i].1), fields[i].0))
  }

  /** `_vars` as a function of `_fields`: every distinct (variable, block)
      pair in the order it is first seen, with the names of its fields in
      field order. */
  function GroupIndex(fields: FieldMap): VarIndex
  {
    GroupBy(Tagged(fields))
  }

  /** The index partitions the fields: its pairs are distinct and in
      first-seen order, every bucket is non-empty and names only fields
      carrying that pair, and every field is in the bucket of its own pair
      and in no other. */
  lemma GroupIndexPartition(fields: FieldMap)
    requires Distinct(Keys(fields))
    ensures var vars := GroupIndex(fields);
      && Distinct(Keys(vars))
      && (forall i, j :: 0 <= i < |vars| && 0 <= j < |vars| && i != j ==> vars[i].0 != vars[j].0)
      && (forall j :: 0 <= j < |vars| ==> vars[j].1 != [])
      && (forall i :: 0 <= i < |fields| ==> KeyOf(fields[i].1) in Keys(vars))
      && (forall i, j :: 0 <= i < |fields| && 0 <= j < |vars| ==>
            (fields[i].0 in vars[j].1 <==> vars[j].0 == KeyOf(fields[i].1)))
      && (forall j, name :: 0 <= j < |vars| && name in vars[j].1 ==> name in Keys(fields))
  {
    GroupIndexShape(fields);
    GroupIndexMembers(fields);
    GroupIndexNames(fields);
  }

  /** The pairs of the index are distinct, their buckets non-empty, and
      every field's pair is among them. */
  lemma GroupIndexShape(fields: FieldMap)
    ensures var vars := GroupIndex(fields);
      && Distinct(Keys(vars))
      && (forall i, j :: 0 <= i < |vars| && 0 <= j < |vars| && i != j ==> vars[i].0 != vars[j].0)
      && (forall j :: 0 <= j < |vars| ==> vars[j].1 != [])
      && (forall i :: 0 <= i < |fields| ==> KeyOf(fields[i].1) in Keys(vars))
  {
    var vars := GroupIndex(fields);
    var t := Tagged(fields);
    GroupByPartition(t);
    forall i, j | 0 <= i < |vars| && 0 <= j < |vars| && i != j ensures vars[i].0 != vars[j].0 {
      assert Keys(vars)[i] == vars[i].0 && Keys(vars)[j] == vars[j].0;
    }
    forall i | 0 <= i < |fields| ensures KeyOf(fields[i].1) in Keys(vars) {
      assert Keys(t)[i] == KeyOf(fields[i].1);
    }
  }

  /** A field is in the bucket of its own pair and in no other. */
  lemma GroupIndexMembers(fields: FieldMap)
    requires Distinct(Keys(fields))
    ensures var vars := GroupIndex(fields);
      forall i, j :: 0 <= i < |fields| && 0 <= j < |vars| ==>
        (fields[i].0 in vars[j].1 <==> vars[j].0 == KeyOf(fields[i].1))
  {
    var vars := GroupIndex(fields);
    var t := Tagged(fields);
    GroupByPartition(t);
    forall i, j | 0 <= i < |fields| && 0 <= j < |vars|
      ensures fields[i].0 in vars[j].1 <==> vars[j].0 == KeyOf(fields[i].1)
    {
      if fields[i].0 in vars[j].1 {
        var i' :| 0 <= i' < |t| && t[i'] == (vars[j].0, fields[i].0);
        assert Keys(fields)[i] == Keys(fields)[i'];
      }
      if vars[j].0 == KeyOf(fields[i].1) {
        assert t[i] == (vars[j].0, fields[i].0);
      }
    }
  }

  /** Every name in a bucket is a field. */
  lemma GroupIndexNames(fields: FieldMap)
    ensures var vars := GroupIndex(fields);
      forall j, name :: 0 <= j < |vars| && name in vars[j].1 ==> name in Keys(fields)
  {
    var vars := GroupIndex(fields);
    var t := Tagged(fields);
    GroupByPartition(t);
    forall j, name | 0 <= j < |vars| && name in vars[j].1 ensures name in Keys(fields) {
      var i :| 0 <= i < |t| && t[i] == (vars[j].0, name);
      assert Keys(fields)[i] == name;
    }
  }

  /** One more field updates the index as the source's loop does: the
      field's name joins the bucket of its pair, a pair not seen before
      opening a new bucket at the end. */
  lemma IndexStep(fields: FieldMap, i: nat)
    requires i < |fields|
    ensures var g, vars := KeyOf(fields[i].1), GroupIndex(fields[..i]);
      GroupIndex(fields[..i + 1]) ==
        Set(vars, g, (if g in Keys(vars) then Get(vars, g).value else []) + [fields[i].0])
  {
    assert Tagged(fields[..i + 1]) == Tagged(fields[..i]) + [(KeyOf(fields[i].1), fields[i].0)];
    GroupBySnoc(Tagged(fields[..i]), (KeyOf(fields[i].1), fields[i].0));
  }

  /** The body of the loop of `BuildGroupIndex`, in both of its branches. */
  lemma LoopStep(fields: FieldMap, i: nat, before: VarIndex, after: VarIndex)
    requires i < |fields| && before == GroupIndex(fields[..i])
    requires var g := KeyOf(fields[i].1);
      after == if g in Keys(before) then Set(before, g, Get(before, g).value + [fields[i].0])
               else Set(Set(before, g, []), g, Get(Set(before, g, []), g).value + [fields[i].0])
    ensures after == GroupIndex(fields[..i + 1])
  {
    var g := KeyOf(fields[i].1);
    IndexStep(fields, i);
    if g !in Keys(before) {
      GetSet(before, g, []);
      SetSet(before, g, [], [fields[i].0]);
      assert [] + [fields[i].0] == [fields[i].0];
    }
  }

  /** `BaseClass.__init__`, last loop: builds `_vars` with a `seen` set. */
  method BuildGroupIndex(fields: FieldMap) returns (vars: VarIndex)
    ensures vars == GroupIndex(fields)
  {
    vars := [];
    var seen: set<GroupKey> := {};
    for i := 0 to |fields|
      invariant vars == GroupIndex(fields[..i])
      invariant forall g :: g in seen <==> g in Keys(vars)
    {
      var key, item := fields[i].0, fields[i].1;
      var v := (item.variable, item.block);
      ghost var before := vars;
      if v !in seen {
        seen := seen + {v};
        vars := Set(vars, v, []);
      }
      vars := Set(vars, v, Get(vars, v).value + [key]);
      LoopStep(fields, i, before, vars);
    }
    assert fields[..|fields|] == fields;
  }
}
