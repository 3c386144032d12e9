# FALL3D configuration sections, modelled in Dafny

The configuration front end for the FALL3D volcanic-ash model describes each
block of a FALL3D input file as a Python class: a *section*. Each class holds
*fields* declared as class attributes `f1`, `f2`, …. Each field carries the
input-file variable it sets, an optional label, an optional block (a
sub-heading such as `IF_GAUSSIAN`) and a default value. Building a section
collects its fields in declaration order into `_fields`. It also builds
`_vars`, an index from each (variable, block) pair to the names of the fields
that carry it. `str(section)` renders the section as the text that goes
into the input file:
- one line `VARIABLE = displays…` per pair;
- the top region first, indented by three spaces;
- then each named block under its name, its lines indented by six spaces.

Several section classes override how one pair is rendered (`_fmt_var`).
Examples: the date becomes YEAR/MONTH/DAY lines, the grid size becomes a
count or a resolution, the mass flow rate becomes a number or an
estimation method.

This project models that engine, `app/fall3d/dataclasses.py`. It also models
the earlier revision kept in `aux/main.py`. Field values are Dafny
datatypes. `_fields` and `_vars` are ordered dictionaries, written as
sequences of pairs. The section object is a Dafny class whose methods follow
the source's loops. Each method is proved equal to a specification function,
and the lemmas state what those functions promise.

Modules:
- `wrappers.dfy` (Option, Result).
- `py_text.dfy`: the Python string operations the renderer relies on (`join`,
  `split`, `splitlines`, `str` of an integer, zero padding), each with its
  inverse.
- `ordered_dicts.dfy`: `OrderedDict` as a sequence of pairs (lookup, binding,
  deletion), first-seen order and grouping.
- `fields.dfy`: values, field classes, `mtype`, how a field displays itself,
  and the date texts.
- `grouping.dfy`: `BaseClass.__init__`, which collects `_fields` and
  builds `_vars`.
- `layout.dfy`: the layout `Section.__str__` gives the rendered lines.
- `overrides.dfy`: `_fmt_var` of every section class, and `str(section)` as a
  function.
- `catalog.dfy`: every section class's declared schema and the names
  `get_sections` uses.
- `sections.dfy`: the `Section` object, with construction, item access,
  `update_from_obj`, `__str__` and `get_sections`.
- `aux_main.dfy`: the earlier revision, `aux/main.py`.

Where the code's behaviour differs from what its design describes, the
model follows the code:
- The DATE override writes `%m` and `%d`, so MONTH and DAY are zero-padded
  to two digits, and the YEAR line ends with a space before its newline.
- The YES/NO branch of the physics and output sections tests
  `mtype == "db.Boolean"`. No field class of this revision has that
  `mtype` (booleans report `bool`), so boolean fields render as ON/OFF
  through the default rule.
- A line whose block is `None` always goes to the top region, even when
  a named block was seen before it. A section whose first pair is in a
  named block cannot be rendered: `output` is read before it is assigned.

## Model

| member | source | states |
|---|---|---|
| PyText.JoinSplit | app/fall3d/dataclasses.py:143-145 | joining the pieces of `s.split(c)` with `c` gives `s` back |
| PyText.SplitJoin | app/fall3d/dataclasses.py:143-145 | splitting a `c`-join of separator-free pieces gives exactly those pieces |
| PyText.JoinAppend | app/fall3d/dataclasses.py:162-165 | joining two non-empty lists is joining their joins with one separator between |
| PyText.SplitLinesTerminated | app/fall3d/dataclasses.py:156-165 | lines without line boundaries, each followed by a newline, come back from `splitlines` as exactly those lines |
| PyText.SplitLinesHaveNoBreaks | app/fall3d/dataclasses.py:162 | no line returned by `splitlines` holds a line boundary |
| PyText.NatStrRoundTrip | app/fall3d/dataclasses.py:7 | `str(n)` is a non-empty digit string without a leading zero that reads back as `n` |
| PyText.IntStrRoundTrip | app/fall3d/dataclasses.py:82-93 | `str(i)` is digits, after a minus sign when negative, and reads back as `i` |
| PyText.ZeroPadRoundTrip | app/fall3d/dataclasses.py:186 | `%0Nd` padding reads back as the number, is at least N wide, and exactly N wide when the number has at most N digits |
| OrderedDicts.Get | app/fall3d/dataclasses.py:51-53 | a lookup finds a value exactly when the key is bound |
| OrderedDicts.IndexOf | app/fall3d/dataclasses.py:51-53 | a bound key's position is its first and only occurrence |
| OrderedDicts.Set | app/fall3d/dataclasses.py:55-57 | binding keeps the key order, and a new key is appended at the end |
| OrderedDicts.GetSet | app/fall3d/dataclasses.py:55-57 | after binding, the key reads the new value and every other key reads what it did before |
| OrderedDicts.SetSet | app/fall3d/dataclasses.py:32-33 | binding a key twice is binding it once, to the second value |
| OrderedDicts.DeleteKeepsOthers | app/fall3d/dataclasses.py:59-61 | `del` removes exactly that key, keeps the order of the others, keeps the keys distinct, and leaves every other key's value unchanged |
| OrderedDicts.Dedup | app/fall3d/dataclasses.py:35-41 | the first-seen list of keys is duplicate-free and holds exactly the listed keys |
| OrderedDicts.DedupSnoc | app/fall3d/dataclasses.py:38-40 | one more key leaves first-seen order unchanged when it was seen before, and otherwise appends it |
| OrderedDicts.DedupFirstSeenOrder | app/fall3d/dataclasses.py:35-41 | first-seen keys are ordered by their first occurrence in the list |
| OrderedDicts.DedupHead | app/fall3d/dataclasses.py:153-157 | the first key seen is the first key of the list |
| OrderedDicts.BindAllKeys | app/fall3d/dataclasses.py:31-33 | binding pairs into a dictionary keeps its keys in place and appends new keys in first-binding order |
| OrderedDicts.BindAllFresh | app/fall3d/dataclasses.py:25-29 | binding pairs with distinct keys into an empty dictionary gives those pairs |
| OrderedDicts.BindAllGet | app/fall3d/dataclasses.py:31-33 | after binding pairs, a key holds its last bound value, or its old value when no pair binds it |
| OrderedDicts.GroupBySnoc | app/fall3d/dataclasses.py:36-41 | one more pair appends its value to its key's list, and creates the list at the end when the key is new |
| OrderedDicts.GroupByPartition | app/fall3d/dataclasses.py:35-41 | the groups have distinct keys and no empty list, and a value is in a key's list exactly when that (key, value) pair occurs |
| Fields.DateReprRoundTrip | app/fall3d/dataclasses.py:4-7 | `CustomDate.__repr__` parses back to the same year, month and day |
| Fields.DateLinesSplit | app/fall3d/dataclasses.py:184-186 | the DATE text followed by a newline splits into the YEAR line (with its trailing space), the MONTH line and the DAY line |
| Fields.DateLinesReadBack | app/fall3d/dataclasses.py:186 | for a valid date, YEAR, MONTH and DAY have exactly 4, 2 and 2 digits and read back as the date |
| Fields.Mtype | app/fall3d/dataclasses.py:95-137 | `mtype` raises only for a plain `Field` and for a choice without options; it is never `db.Boolean`; it is `bool` exactly for boolean fields |
| Fields.Fmt | app/fall3d/dataclasses.py:82-86 | a boolean shows "" for None, ON when truthy and OFF otherwise; any other field shows "no data" for None and otherwise `str` of its value |
| Fields.Display | app/fall3d/dataclasses.py:88-93 | a labelled field shows its label, a space, then its value; an unlabelled one shows its value alone |
| Grouping.ClassFieldsDistinct | app/fall3d/dataclasses.py:24-29 | the class attributes taken as fields have distinct names, all of them class attributes |
| Grouping.CollectedFields | app/fall3d/dataclasses.py:20-33 | `_fields` keys are the class fields then the new extra names in first-seen order, distinct; an extra field overrides the class field of the same name, and the last extra binding wins |
| Grouping.CollectFields | app/fall3d/dataclasses.py:20-33 | the two loops compute exactly the collected `_fields` |
| Grouping.GroupIndexPartition | app/fall3d/dataclasses.py:35-41 | `_vars` has distinct pairs and non-empty buckets; each field is in the bucket of its own (variable, block) pair and no other; every bucket name is a field |
| Grouping.GroupIndexShape | app/fall3d/dataclasses.py:35-41 | `_vars` has distinct pairs, non-empty buckets, and a bucket for every field's pair |
| Grouping.GroupIndexMembers | app/fall3d/dataclasses.py:36-41 | a field's name is in a bucket exactly when the bucket's pair is the field's (variable, block) pair |
| Grouping.GroupIndexNames | app/fall3d/dataclasses.py:41 | every name in a bucket is a field of the section |
| Grouping.IndexStep | app/fall3d/dataclasses.py:37-41 | one more field appends its name to its pair's bucket, and a new pair opens a bucket at the end |
| Grouping.LoopStep | app/fall3d/dataclasses.py:37-41 | both branches of the loop body (pair seen or not) give the index of one more field |
| Grouping.BuildGroupIndex | app/fall3d/dataclasses.py:35-41 | the loop with its `seen` set computes exactly the grouping index of `_fields` |
| BlockLayout.BlockTexts | app/fall3d/dataclasses.py:153-158 | the keys of `blocks_str` are the blocks of the rendered lines, in first-seen order |
| BlockLayout.BlockTextsSnoc | app/fall3d/dataclasses.py:154-158 | one more line and a newline are appended to its block's text, and a new block starts empty at the end |
| BlockLayout.TopFirst | app/fall3d/dataclasses.py:153-158 | when the first line is in the top region, the top region is the first block, every later block is named, and no block text is empty |
| BlockLayout.EmitAllRaised | app/fall3d/dataclasses.py:160-166 | once a named block comes before any top region has been written, the rendering raises whatever follows |
| BlockLayout.EmitAllPrefix | app/fall3d/dataclasses.py:160-166 | after each round of the second loop, `output` is the lines laid out so far, joined by newlines |
| BlockLayout.LinesAfterStep | app/fall3d/dataclasses.py:163-165 | a named block appends a blank line, its name indented by three spaces, and its lines indented by six |
| BlockLayout.JoinNamed | app/fall3d/dataclasses.py:164-165 | the text appended for a named block is the newline join of a blank line, its header and its lines |
| BlockLayout.LayoutLines | app/fall3d/dataclasses.py:147-166 | `__str__` yields text exactly when there are lines and the first is in the top region; that text is the expected lines joined by newlines |
| BlockLayout.LayoutSplit | app/fall3d/dataclasses.py:147-166 | when no block name holds a newline, splitting the text at newlines gives exactly the expected lines |
| BlockLayout.BlockLines | app/fall3d/dataclasses.py:156-165 | when no line holds a boundary, `splitlines` of a block's text gives that block's lines in order |
| Overrides.Lookup | app/fall3d/dataclasses.py:51-53 | `self[key]` succeeds exactly for a bound key, returning its field, and otherwise raises `KeyError(key)` |
| Overrides.Displays | app/fall3d/dataclasses.py:143 | the list of displays exists exactly when every name is bound; it then holds each field's display in bucket order, and otherwise raises `KeyError` for a missing name |
| Overrides.DefaultLine | app/fall3d/dataclasses.py:141-145 | `Section._fmt_var` succeeds exactly when every name in the bucket is bound, and otherwise raises `KeyError` for a missing one |
| Overrides.DefaultLineWords | app/fall3d/dataclasses.py:141-145 | without spaces inside, the default line splits at spaces into the variable, `=` and one display per field |
| Overrides.DefaultLinePair | app/fall3d/dataclasses.py:141-145 | a two-field pair renders as the variable, ` = `, and the two displays separated by one space |
| Overrides.FmtVarDefault | app/fall3d/dataclasses.py:190-270 | the meteo, species and TGSD sections, and `Section` itself, use `Section._fmt_var` |
| Overrides.CollectOk | app/fall3d/dataclasses.py:154-158 | the first loop gets through every pair exactly when every pair's line was rendered |
| Overrides.CollectEntries | app/fall3d/dataclasses.py:154-158 | the collected lines are, in `_vars` order, each pair's block with its rendered line |
| Overrides.CollectFirstErr | app/fall3d/dataclasses.py:154-158 | the loop raises the error of the first pair that raises |
| Overrides.CollectErrStays | app/fall3d/dataclasses.py:154-158 | once a prefix of the pairs raises, the whole loop raises the same error |
| Overrides.CollectErrIs | app/fall3d/dataclasses.py:154-158 | when every failing pair raises `e`, the loop raises `e` |
| Overrides.FmtAllResult | app/fall3d/dataclasses.py:154-158 | every pair renders exactly when the loop succeeds, and then entry j is pair j's block with its line; otherwise the error is that of the first pair that raises |
| Overrides.FmtAllErrIs | app/fall3d/dataclasses.py:154-158 | when every pair that raises raises `e`, the section raises `e` |
| Overrides.RenderLines | app/fall3d/dataclasses.py:147-166 | a section renders exactly when every pair renders and the first pair is in the top region; the text is then the expected lines of the rendered pairs |
| Overrides.BooleansRenderOnOff | app/fall3d/dataclasses.py:344-411 | in the physics and output sections a pair holding one boolean field renders through the default rule, as ON, OFF or empty, never YES/NO; in the output section this holds for every field except the choices `f3` and `f7`, which take the value-or-choice branch |
| Overrides.DateLineShape | app/fall3d/dataclasses.py:184-188 | the DATE pair renders exactly when `f1` holds a date, as YEAR, MONTH and DAY lines with 4, 2 and 2 digits that read back as the date; otherwise it raises for `f1` |
| Overrides.ResolutionChoice | app/fall3d/dataclasses.py:222-234 | with all three fields bound, the flag's truth chooses `RESOLUTION <resolution>` or the count |
| Overrides.GridResolutionNX | app/fall3d/dataclasses.py:222-228 | NX shows `RESOLUTION` and `f9` when `f8` is truthy, otherwise `f7`, whatever the bucket holds |
| Overrides.GridResolutionNY | app/fall3d/dataclasses.py:229-234 | NY shows `RESOLUTION` and `f12` when `f11` is truthy, otherwise `f10`, whatever the bucket holds |
| Overrides.MassFlowRate | app/fall3d/dataclasses.py:311-316 | any pair holding `f8` shows the rate `f9` when the choice is `value`, otherwise the choice |
| Overrides.OutputChoiceOrValue | app/fall3d/dataclasses.py:398-409 | in the output section a pair holding `f3` shows `str` of `f4`'s raw value, with no label, when the choice `f3` is `value`, and otherwise the display of `f3`; a pair holding `f7` but not `f3` does the same with `f7` and `f8` |
| Overrides.CutOffNone | app/fall3d/dataclasses.py:285-287 | with the cut-off choice NONE the aggregation section shows only `PARTICLE_CUT_OFF = NONE` |
| Overrides.AggregationOtherwiseDefault | app/fall3d/dataclasses.py:285-289 | for any pair other than `PARTICLE_CUT_OFF`, or when the cut-off choice is not NONE, the aggregation section uses `Section._fmt_var` |
| Overrides.TimeOtherwiseDefault | app/fall3d/dataclasses.py:184-188 | every pair but `DATE` gets the time section's default line |
| Overrides.GridOtherwiseDefault | app/fall3d/dataclasses.py:222-236 | every pair but `NX` and `NY` gets the grid section's default line |
| Overrides.SourceOtherwiseDefault | app/fall3d/dataclasses.py:311-318 | a pair whose bucket does not hold `f8` gets the source section's default line |
| Overrides.PhysicsOtherwiseDefault | app/fall3d/dataclasses.py:344-356 | in the physics section, a pair whose first field has an `mtype` gets the default line unless that field is `f6` or `f8` with a choice other than CONSTANT |
| Overrides.TurbulenceModel | app/fall3d/dataclasses.py:344-356 | a turbulence choice other than CONSTANT is shown alone; CONSTANT is followed by the constant's display |
| Overrides.PhysicsTurbulence | app/fall3d/dataclasses.py:344-356 | the same rule, stated on the physics override itself |
| Catalog.NumberedNames | app/fall3d/dataclasses.py:177-182 | the names `fN` of a run of fields are distinct and start with `f` |
| Catalog.RunsDistinct | app/fall3d/dataclasses.py:323-342 | two non-overlapping numbered runs, such as `f1`-`f13` and `f15`-`f20`, give distinct names |
| Catalog.BodyClassFields | app/fall3d/dataclasses.py:24-29 | of a class body, exactly the `fN` attributes are taken as fields, in declaration order |
| Catalog.BodyDistinct | app/fall3d/dataclasses.py:9-17 | a class body whose field and non-field names are each distinct, and apart, binds each name once |
| Catalog.SchemaFieldNames | app/fall3d/dataclasses.py:174-387 | every section class's field names are distinct and start with `f` |
| Catalog.SchemaFieldsTaken | app/fall3d/dataclasses.py:24-29 | the fields a section takes from its class are exactly its declared fields, in order |
| Catalog.SchemaDistinct | app/fall3d/dataclasses.py:9-17 | every class body binds each name once |
| Catalog.NonFieldNames | app/fall3d/dataclasses.py:139-175 | the dunder names, `description` and the method names are distinct, none starts with `f`, and the names before the fields differ from those after them |
| Catalog.PhysicsFieldNames | app/fall3d/dataclasses.py:323-341 | the physics section's fields are named `f1` to `f13`, then `f15` to `f20`; `f14` is not among them |
| Sections.UpdatedFrom | app/fall3d/dataclasses.py:168-172 | `update_from_obj` keeps every name, variable, block, label, class and default, and sets exactly the values of the fields `obj` has an attribute for |
| Sections.Section.constructor | app/fall3d/dataclasses.py:20-41 | a new section's `_fields` are its collected fields, with distinct names, and `_vars` is their grouping index |
| Sections.Section.Iter | app/fall3d/dataclasses.py:43-45 | iteration yields the fields in creation order |
| Sections.Section.Contains | app/fall3d/dataclasses.py:47-49 | `name in section` holds exactly when the name is bound |
| Sections.Section.GetItem | app/fall3d/dataclasses.py:51-53 | `section[name]` returns the bound field, or raises `KeyError(name)` |
| Sections.Section.SetItem | app/fall3d/dataclasses.py:55-57 | binding updates `_fields` as the dictionary does and leaves `_vars` as it was |
| Sections.Section.DelItem | app/fall3d/dataclasses.py:59-61 | `del` removes the entry and leaves `_vars` as it was, or raises `KeyError` and changes nothing |
| Sections.Section.UpdateFromObj | app/fall3d/dataclasses.py:168-172 | the loop leaves exactly the updated fields, with `_vars` unchanged |
| Sections.Section.Render | app/fall3d/dataclasses.py:147-166 | the two loops of `__str__` compute exactly the rendered text, or the error it raises |
| Sections.Section.GatherBlocks | app/fall3d/dataclasses.py:153-158 | the first loop yields the block texts of the rendered pairs, or raises the first pair's error |
| Sections.LayOut | app/fall3d/dataclasses.py:160-166 | the second loop yields the laid-out text, or nothing where `output` is read unassigned |
| Sections.AddLine | app/fall3d/dataclasses.py:156-158 | the line and a newline join its block's text, and a new block starts empty at the end |
| Sections.EmitNamed | app/fall3d/dataclasses.py:164-165 | the two appends for a named block add the block header and its indented lines |
| Sections.NewSection | app/fall3d/dataclasses.py:415-423 | `SectionX()` is a fresh section of that class holding exactly its class's declared fields, with their defaults, and whose `_vars` indexes them |
| Sections.NewEntry | app/fall3d/dataclasses.py:414-424 | one entry of the `get_sections` dict: the catalog name at that position, paired with a fresh section of the class published under it, whose `_vars` indexes its fields |
| Sections.GetSections | app/fall3d/dataclasses.py:413-425 | `get_sections` returns the nine catalog names in order, each with a fresh section of its class whose `_vars` indexes its fields |
| Sections.DefaultFields | app/fall3d/dataclasses.py:20-33 | with no extra fields, a section's `_fields` are exactly its class's declared fields |
| Sections.UpdateKeepsGroupIndex | app/fall3d/dataclasses.py:168-172 | updating values leaves the (variable, block) index unchanged |
| Sections.UpdateGet | app/fall3d/dataclasses.py:168-172 | after the update, `section[k]` is the same field with the object's attribute `k` as its value, when the object has one |
| Sections.DisplaysFrame | app/fall3d/dataclasses.py:143 | the displays read only the fields the bucket names |
| Sections.BucketsAreFields | app/fall3d/dataclasses.py:35-41 | every name in every bucket is a bound field |
| Sections.NameHasBucket | app/fall3d/dataclasses.py:35-41 | every field is in some bucket |
| Sections.RenderFrameDefault | app/fall3d/dataclasses.py:141-166 | a section using the default `_fmt_var` renders the same from field maps that agree on every name in its buckets |
| Sections.SetNewKeepsRender | app/fall3d/dataclasses.py:55-57 | for a class using the default `_fmt_var`, a field bound under a new name is in no bucket, and the text does not change |
| Sections.DeleteBreaksRender | app/fall3d/dataclasses.py:59-61 | for a class using the default `_fmt_var`, after `del section[name]` the stale `_vars` makes `str` raise `KeyError(name)` |
| Sections.RenderMissingOne | app/fall3d/dataclasses.py:141-158 | for a class using the default `_fmt_var`, when the buckets name one missing field and otherwise bound fields, the section raises `KeyError` for that field |
| Sections.DefaultRenderOk | app/fall3d/dataclasses.py:141-166 | a section using the default `_fmt_var` renders exactly when it has a field and its first field is in the top region |
| AuxMain.LabelDefaultsToVariable | aux/main.py:56-61 | a field built without a label shows its variable before its value, where the later revision shows the value alone |
| AuxMain.LabelledShowsAsLater | aux/main.py:56-78 | a field built with a label shows as in the later revision |
| AuxMain.AuxSchemaDistinct | aux/main.py:124-193 | every class body of this revision binds each name once |
| AuxMain.MatchingAppend | aux/main.py:129-132 | the displays of two consecutive runs of fields are the displays of each, in order |
| AuxMain.MatchingEmpty | aux/main.py:129-132 | a variable has displays exactly when some field carries it |
| AuxMain.GridNX | aux/main.py:171-177 | NX shows `f8` when the count `f7` is truthy, otherwise `f9` |
| AuxMain.GridNY | aux/main.py:178-183 | NY shows `f11` when the count `f10` is truthy, otherwise `f12` |
| AuxMain.GridMissingCount | aux/main.py:171-183 | NX and NY raise `KeyError` for a missing count field |
| AuxMain.AuxLinesOk | aux/main.py:137-142 | the lines are produced exactly when each variable's line is, and are then those lines in order |
| AuxMain.AuxLinesErrStays | aux/main.py:137-142 | once the lines of a prefix of the variables raise, the lines of all variables raise the same error |
| AuxMain.DefaultRender | aux/main.py:129-143 | a section with a label, of a class without a `_fmt_var` override, renders as the header, then one default line for each distinct variable in first-seen order |
| AuxMain.RenderedLines | aux/main.py:134-143 | when nothing holds a newline, the text splits into the header plus one line per distinct variable |
| AuxMain.FmtVarShown | aux/main.py:129-132 | a variable's line depends only on names, variables, values and displays |
| AuxMain.RenderShown | aux/main.py:129-143 | two field maps that agree on names, variables, values and displays render the same |
| AuxMain.RenderIgnoresBlock | aux/main.py:129-143 | moving a field to another block does not change the text |
| AuxMain.LinesSeen | aux/main.py:138-139 | a field whose variable was already seen adds no line |
| AuxMain.LinesNew | aux/main.py:139-142 | a field with a new variable adds that variable's line, or its error |
| AuxMain.AuxSection.constructor | aux/main.py:125-127 | a new section's `_fields` are its collected fields, with distinct names, and its label is the one given |
| AuxMain.AuxSection.Iter | aux/main.py:29-31 | iteration yields the fields in creation order |
| AuxMain.AuxSection.Contains | aux/main.py:33-35 | `name in section` holds exactly when the name is bound |
| AuxMain.AuxSection.GetItem | aux/main.py:37-39 | `section[name]` returns the bound field, or raises `KeyError(name)` |
| AuxMain.AuxSection.SetItem | aux/main.py:41-43 | after binding, the name is bound to the new field |
| AuxMain.AuxSection.DelItem | aux/main.py:45-47 | `del` removes only that entry and keeps the others and their order, or raises `KeyError` and changes nothing |
| AuxMain.AuxSection.Render | aux/main.py:134-143 | the loop with its `seen` set computes exactly the header plus one line per distinct variable, or raises for a label of `None` or a missing field |

## Left out

- Field objects are values owned by their section. In the source, sections of the same class share the class-level `Field` objects, so `update_from_obj` on one section changes the others. That aliasing is not modelled.
- Fields.Field: `variable` is always a string. The source's constructors default it to `None` (app/fall3d/dataclasses.py:74, aux/main.py:56). A field built that way, and passed in through the constructor's `fields` argument, renders in Python as the line `None = …`. In aux/main.py its label also defaults to `None`, so it shows without a label. Every field the catalogs declare names its variable, so only such extra fields are affected, and the model cannot express them.
- `self.fK`, read by the overrides of both revisions, is modelled as the lookup `self['fK']`. It raises `KeyError` when the name is not bound in `_fields`. In Python it reads the class attribute, which always exists. The two differ whenever `_fields['fK']` is not the class's own field: after `section['fK']` is rebound or deleted, and when the constructor's `fields` argument binds an `fK` (for example `SectionGrid(fields={'f8': ...})`, whose NX line Python still computes from the class's `f8`).
- Floats are not computed with. A float value is carried as the text Python's `str()` gives for it (for example `1E7` as `10000000.0`).
- `%Y` below year 1000 is modelled as zero-padded to four digits (glibc's `strftime` does not pad). `ValidDate` is the only date check.
- A `fields` argument without `items()` is ignored by the source; the model takes the empty sequence for it.
- `update_from_obj` takes the object as a map from attribute names to values. `hasattr`/`getattr` on arbitrary objects is not modelled.
- Sections.GetSections: the contract states the names, classes and freshness of the nine sections. It does not state that the nine objects are pairwise distinct, because each comes from its own `new`.
- Sections.GetSections: the contract does not restate each section's fields. Each section comes from `Sections.NewSection`, whose contract states that it holds exactly its class's declared fields. Carrying the nine field tables through the loop makes the proof too costly.
- Sections.NewEntry: the contract does not restate the section's fields, for the same reason; they are stated by `Sections.NewSection`, which builds it.
- The `__main__` blocks of both files, the Jinja template rendering and file output are not modelled: they are I/O.
- `FieldChoice.mtype` raising when `options` is `None` is modelled as an error. The list it builds from the options is not modelled, because it is discarded.
- `aux/main.py`: a section label that is neither `None` nor a string is not modelled. The label is `Option<string>`.
- `aux/main.py`: the `data` property and the `mtype` strings `db.*` of this revision are not modelled, because rendering does not read them.
