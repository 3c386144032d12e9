/** The layout `Section.__str__` (app/fall3d/dataclasses.py) gives the lines
    of a section once every (variable, block) pair has been rendered. The
    lines are grouped by block into `blocks_str`, blocks in first-seen order.
    The top region (block `None`) comes first, indented by three spaces. Each
    named block follows after a blank line and its name, with its lines
    indented by six spaces. */
module BlockLayout {
  import opened Wrappers
  import opened PyText
  import opened OrderedDicts

  /** A rendered line with the block of the pair it renders. */
  type Entry = (Option<string>, string)

  const Indent1: string := "   "
  const Indent2: string := "      "

  /** Each group's lines, each followed by a newline. */
  function TerminatedGroups(g: seq<(Option<string>, seq<string>)>): (bt: seq<(Option<string>, string)>)
    ensures |bt| == |g| && forall j :: 0 <= j < |g| ==> bt[j] == (g[j].0, Terminated(g[j].1))
  {
    seq(|g|, i requires 0 <= i < |g| => (g[i].0, Terminated(g[i].1)))
  }

  /** `blocks_str` after the first loop: each block, in first-seen order,
      with its lines, each followed by a newline. */
  function BlockTexts(entries: seq<Entry>): (bt: seq<(Option<string>, string)>)
    ensures Keys(bt) == Dedup(Keys(entries))
  {
    TerminatedGroups(GroupBy(entries))
  }

  lemma TerminatedOne(l: string)
    ensures Terminated([l]) == l + "\n"
  {
    assert [l][1..] == [];
  }

  lemma {:induction false} BlockTextsSnocSeen(entries: seq<Entry>, e: Entry, j: nat)
    requires j < |BlockTexts(entries)| && BlockTexts(entries)[j].0 == e.0
    ensures var bt := BlockTexts(entries);
      BlockTexts(entries + [e]) == bt[j := (e.0, bt[j].1 + (e.1 + "\n"))]
  {
    var g := GroupBy(entries);
    GroupBySnocSeen(entries, e, j);
    TerminatedSnoc(g[j].1, e.1);
    var g' := g[j := (e.0, g[j].1 + [e.1])];
    var bt, bt' := TerminatedGroups(g), TerminatedGroups(g');
    assert Terminated(g[j].1) + e.1 + "\n" == Terminated(g[j].1) + (e.1 + "\n");
    forall i | 0 <= i < |bt| ensures bt'[i] == bt[j := (e.0, bt[j].1 + (e.1 + "\n"))][i] {
    }
  }

  lemma {:induction false} BlockTextsSnocNew(entries: seq<Entry>, e: Entry)
    requires e.0 !in Keys(BlockTexts(entries))
    ensures BlockTexts(entries + [e]) == BlockTexts(entries) + [(e.0, e.1 + "\n")]
  {
    var g := GroupBy(entries);
    GroupBySnocNew(entries, e);
    TerminatedOne(e.1);
    var bt, bt' := TerminatedGroups(g), TerminatedGroups(g + [(e.0, [e.1])]);
    forall i | 0 <= i < |bt'| ensures bt'[i] == (bt + [(e.0, e.1 + "\n")])[i] {
    }
  }

  /** One more line updates `blocks_str` as the first loop does: the line
      and a newline are appended to its block's text, a block not seen
      before starting from the empty text at the end. */
  lemma {:induction false} BlockTextsSnoc(entries: seq<Entry>, e: Entry)
    ensures var bt := BlockTexts(entries);
      BlockTexts(entries + [e]) == Set(bt, e.0, (if e.0 in Keys(bt) then Get(bt, e.0).value else "") + (e.1 + "\n"))
  {
    var bt := BlockTexts(entries);
    var v := e.1 + "\n";
    if e.0 in Keys(bt) {
      var j :| 0 <= j < |bt| && bt[j].0 == e.0;
      BlockTextsSnocSeen(entries, e, j);
      GetAt(bt, j);
      SetAt(bt, j, bt[j].1 + v);
    } else {
      BlockTextsSnocNew(entries, e);
      assert "" + v == v;
      SetNew(bt, e.0, v);
    }
  }

  function Prefixed(prefix: string, lines: seq<string>): (r: seq<string>)
    ensures |r| == |lines| && forall i :: 0 <= i < |lines| ==> r[i] == prefix + lines[i]
  {
    seq(|lines|, i requires 0 <= i < |lines| => prefix + lines[i])
  }

  /** `nl.join([prefix + item for item in text.splitlines()])` */
  function IndentLines(prefix: string, text: string): string
  {
    Join("\n", Prefixed(prefix, SplitLines(text)))
  }

  /** The local `output` of `Section.__str__`: not yet assigned, assigned,
      or read before assignment (which raises `UnboundLocalError`). */
  datatype Output = Unbound | Bound(text: string) | Raised

  /** One round of the second loop of `Section.__str__`, over one block. */
  function Emit(output: Output, block: Option<string>, text: string): Output
  {
    if output == Raised then Raised
    else if block == None then Bound(IndentLines(Indent1, text))
    else if output == Unbound then Raised
    else Bound(output.text + "\n\n" + Indent1 + block.value + "\n" + IndentLines(Indent2, text))
  }

  /** The second loop of `Section.__str__`, over the blocks in order. */
  function EmitAll(bt: seq<(Option<string>, string)>): Output
  {
    if bt == [] then Unbound
    else Emit(EmitAll(bt[..|bt| - 1]), bt[|bt| - 1].0, bt[|bt| - 1].1)
  }

  /** What `Section.__str__` returns for the rendered lines `entries`;
      `Unbound` and `Raised` are the cases where it raises. */
  function Layout(entries: seq<Entry>): Output
  {
    EmitAll(BlockTexts(entries))
  }

  // ---------------------------------------------------------------------
  // the lines of the result

  /** The blank line, header and indented lines of each named block. */
  function NamedLines(bs: seq<(Option<string>, string)>): seq<string>
    requires forall i :: 0 <= i < |bs| ==> bs[i].0.Some?
  {
    if bs == [] then []
    else
      var last := bs[|bs| - 1];
      NamedLines(bs[..|bs| - 1]) + ["", Indent1 + last.0.value] + Prefixed(Indent2, SplitLines(last.1))
  }

  /** The blocks when the first line is in the top region: the top region
      is the first block, every other block is named, and no block is
      empty. */
  lemma TopFirst(entries: seq<Entry>)
    requires entries != [] && entries[0].0 == None
    ensures WellLaid(BlockTexts(entries))
  {
    var bt := BlockTexts(entries);
    DedupHead(Keys(entries));
    assert Keys(bt)[0] == None;
    forall i | 1 <= i < |bt| ensures bt[i].0.Some? {
      assert Keys(bt)[i] != Keys(bt)[0];
    }
    GroupByPartition(entries);
    forall i | 0 <= i < |bt| ensures bt[i].1 != [] {
      var ls := GroupBy(entries)[i].1;
      assert ls != [];
      assert bt[i].1 == ls[0] + "\n" + Terminated(ls[1..]);
    }
  }

  /** The lines of the result: the top region's lines indented by three
      spaces, then each named block as `NamedLines` gives it. */
  function ExpectedLines(entries: seq<Entry>): seq<string>
    requires entries != [] && entries[0].0 == None
  {
    TopFirst(entries);
    var bt := BlockTexts(entries);
    LinesAfter(bt, |bt|)
  }

  lemma {:induction false} EmitAllRaised(bt: seq<(Option<string>, string)>, j: nat)
    requires j <= |bt| && EmitAll(bt[..j]) == Raised
    ensures EmitAll(bt) == Raised
    decreases |bt| - j
  {
    if j < |bt| {
      assert bt[..j + 1][..j] == bt[..j];
      EmitAllRaised(bt, j + 1);
    } else {
      assert bt[..j] == bt;
    }
  }

  /** Appending a named block to the lines appends a blank line, its
      header and its lines to the joined text. */
  lemma JoinNamed(head: seq<string>, name: string, body: seq<string>)
    requires head != [] && body != []
    ensures Join("\n", head + (["", Indent1 + name] + body)) ==
      Join("\n", head) + "\n\n" + Indent1 + name + "\n" + Join("\n", body)
  {
    var h := Indent1 + name;
    var a, b := Join("\n", head), Join("\n", body);
    JoinAppend("\n", head, ["", h] + body);
    assert (["", h] + body)[1..] == [h] + body;
    JoinAppend("\n", [h], body);
    assert Join("\n", ["", h] + body) == "" + "\n" + (h + "\n" + b);
    assert "" + "\n" + (h + "\n" + b) == "\n" + h + "\n" + b;
    assert a + "\n" + ("\n" + h + "\n" + b) == a + "\n\n" + Indent1 + name + "\n" + b;
  }

  predicate WellLaid(bt: seq<(Option<string>, string)>)
  {
    && |bt| >= 1 && bt[0].0 == None
    && (forall i :: 1 <= i < |bt| ==> bt[i].0.Some?)
    && (forall i :: 0 <= i < |bt| ==> bt[i].1 != [])
  }

  /** The lines `output` holds after `j` rounds of the second loop. */
  function LinesAfter(bt: seq<(Option<string>, string)>, j: nat): seq<string>
    requires WellLaid(bt) && 1 <= j <= |bt|
  {
    Prefixed(Indent1, SplitLines(bt[0].1)) + NamedLines(bt[1..j])
  }

  lemma NamedLinesSnoc(bt: seq<(Option<string>, string)>, j: nat)
    requires WellLaid(bt) && 2 <= j <= |bt|
    ensures NamedLines(bt[1..j]) == NamedLines(bt[1..j - 1]) + ["", Indent1 + bt[j - 1].0.value] + Prefixed(Indent2, SplitLines(bt[j - 1].1))
  {
    assert bt[1..j][..j - 2] == bt[1..j - 1];
  }

  lemma EmitStep(bt: seq<(Option<string>, string)>, j: nat)
    requires WellLaid(bt) && 2 <= j <= |bt|
    requires EmitAll(bt[..j - 1]) == Bound(Join("\n", LinesAfter(bt, j - 1)))
    ensures EmitAll(bt[..j]) == Bound(Join("\n", LinesAfter(bt, j)))
  {
    assert bt[..j][..j - 1] == bt[..j - 1];
    LinesAfterStep(bt, j);
  }

  /** One more named block appends a blank line, its header and its lines. */
  lemma LinesAfterStep(bt: seq<(Option<string>, string)>, j: nat)
    requires WellLaid(bt) && 2 <= j <= |bt|
    ensures Join("\n", LinesAfter(bt, j)) ==
      Join("\n", LinesAfter(bt, j - 1)) + "\n\n" + Indent1 + bt[j - 1].0.value + "\n" + IndentLines(Indent2, bt[j - 1].1)
  {
    var top := Prefixed(Indent1, SplitLines(bt[0].1));
    SplitLinesNonEmpty(bt[0].1);
    var name, text := bt[j - 1].0.value, bt[j - 1].1;
    var named := NamedLines(bt[1..j - 1]);
    var body := Prefixed(Indent2, SplitLines(text));
    SplitLinesNonEmpty(text);
    NamedLinesSnoc(bt, j);
    assert LinesAfter(bt, j) == (top + named) + (["", Indent1 + name] + body);
    JoinNamed(top + named, name, body);
  }

  /** After `j` rounds of the second loop, `output` holds the first lines. */
  lemma {:induction false} EmitAllPrefix(bt: seq<(Option<string>, string)>, j: nat)
    requires WellLaid(bt) && 1 <= j <= |bt|
    ensures EmitAll(bt[..j]) == Bound(Join("\n", LinesAfter(bt, j)))
  {
    if j == 1 {
      var top := Prefixed(Indent1, SplitLines(bt[0].1));
      assert bt[..1][..0] == [];
      assert NamedLines(bt[1..1]) == [];
      assert LinesAfter(bt, 1) == top;
    } else {
      EmitAllPrefix(bt, j - 1);
      EmitStep(bt, j);
    }
  }

  /** `Section.__str__` returns a text exactly when the first rendered line
      is in the top region. The text is then the expected lines joined by
      newlines. */
  lemma LayoutLines(entries: seq<Entry>)
    ensures Layout(entries).Bound? <==> entries != [] && entries[0].0 == None
    ensures Layout(entries).Bound? ==> Layout(entries).text == Join("\n", ExpectedLines(entries))
  {
    var bt := BlockTexts(entries);
    if entries == [] {
      assert bt == [];
    } else if entries[0].0 != None {
      DedupHead(Keys(entries));
      assert Keys(bt)[0] == entries[0].0;
      assert bt[..1][..0] == [];
      assert EmitAll(bt[..1]) == Raised;
      EmitAllRaised(bt, 1);
    } else {
      TopFirst(entries);
      EmitAllPrefix(bt, |bt|);
      assert bt[..|bt|] == bt;
    }
  }

  lemma NoBreakNoNewline(s: string)
    requires NoLineBreak(s)
    ensures '\n' !in s
  {
    forall i | 0 <= i < |s| ensures s[i] != '\n' {
      assert !IsLineBreak(s[i]);
    }
  }

  lemma PrefixedNoNewline(prefix: string, text: string)
    requires '\n' !in prefix
    ensures forall i :: 0 <= i < |Prefixed(prefix, SplitLines(text))| ==> '\n' !in Prefixed(prefix, SplitLines(text))[i]
  {
    var ls := SplitLines(text);
    SplitLinesHaveNoBreaks(text);
    forall i | 0 <= i < |ls| ensures '\n' !in prefix + ls[i] {
      NoBreakNoNewline(ls[i]);
    }
  }

  lemma {:induction false} NamedLinesNoNewline(bs: seq<(Option<string>, string)>)
    requires forall i :: 0 <= i < |bs| ==> bs[i].0.Some? && '\n' !in bs[i].0.value
    ensures forall i :: 0 <= i < |NamedLines(bs)| ==> '\n' !in NamedLines(bs)[i]
  {
    if bs != [] {
      var last := bs[|bs| - 1];
      NamedLinesNoNewline(bs[..|bs| - 1]);
      PrefixedNoNewline(Indent2, last.1);
      assert '\n' !in Indent1 + last.0.value;
    }
  }

  /** When no block name holds a newline, splitting the text at newlines
      gives back exactly the expected lines. */
  lemma LayoutSplit(entries: seq<Entry>)
    requires entries != [] && entries[0].0 == None
    requires forall i :: 0 <= i < |entries| && entries[i].0.Some? ==> '\n' !in entries[i].0.value
    ensures Layout(entries).Bound?
    ensures Split(Layout(entries).text, '\n') == ExpectedLines(entries)
  {
    LayoutLines(entries);
    TopFirst(entries);
    var bt := BlockTexts(entries);
    forall i | 1 <= i < |bt| ensures '\n' !in bt[i].0.value {
      assert bt[i].0 in Keys(entries);
      var k :| 0 <= k < |entries| && Keys(entries)[k] == bt[i].0;
    }
    var top := Prefixed(Indent1, SplitLines(bt[0].1));
    PrefixedNoNewline(Indent1, bt[0].1);
    NamedLinesNoNewline(bt[1..]);
    SplitLinesNonEmpty(bt[0].1);
    var lines := ExpectedLines(entries);
    assert bt[1..|bt|] == bt[1..];
    assert lines == top + NamedLines(bt[1..]);
    SplitJoin(lines, '\n');
  }

  /** When no line holds a line boundary, the lines `splitlines` finds in a
      block's text are that block's lines, in order. */
  lemma BlockLines(entries: seq<Entry>)
    requires forall i :: 0 <= i < |entries| ==> NoLineBreak(entries[i].1)
    ensures forall j :: 0 <= j < |BlockTexts(entries)| ==>
      SplitLines(BlockTexts(entries)[j].1) == ValuesOf(entries, BlockTexts(entries)[j].0)
  {
    var g := GroupBy(entries);
    forall j | 0 <= j < |g| ensures SplitLines(Terminated(g[j].1)) == g[j].1 {
      GroupByPartition(entries);
      forall i | 0 <= i < |g[j].1| ensures NoLineBreak(g[j].1[i]) {
        var k :| 0 <= k < |entries| && entries[k] == (g[j].0, g[j].1[i]);
      }
      SplitLinesTerminated(g[j].1);
    }
  }
}
