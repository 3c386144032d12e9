/** The parts of Python's string behaviour that the configuration renderer
    relies on: `sep.join(parts)`, `s.split(c)` on one character,
    `s.splitlines()`, `str()` of an integer and `%0Nd` zero padding. Each
    operation is paired with the operation that undoes it, and the pair is
    proved to round-trip. */
module PyText {

  // ---------------------------------------------------------------------
  // join and split

  /** `sep.join(parts)` */
  function Join(sep: string, parts: seq<string>): string
  {
    if |parts| == 0 then ""
    else if |parts| == 1 then parts[0]
    else parts[0] + sep + Join(sep, parts[1..])
  }

  /** `s.split(c)` for a one-character separator; it never returns an empty list. */
  function Split(s: string, c: char): (r: seq<string>)
    ensures |r| >= 1
  {
    if s == [] then [""]
    else
      var rest := Split(s[1..], c);
      if s[0] == c then [""] + rest
      else [[s[0]] + rest[0]] + rest[1..]
  }

  /** Joining the pieces of a split restores the string. */
  lemma {:induction false} JoinSplit(s: string, c: char)
    ensures Join([c], Split(s, c)) == s
  {
    if s != [] {
      var rest := Split(s[1..], c);
      JoinSplit(s[1..], c);
      if s[0] == c {
        assert Split(s, c) == [""] + rest;
        assert ([""] + rest)[1..] == rest;
      } else {
        var r := Split(s, c);
        assert r == [[s[0]] + rest[0]] + rest[1..];
        if |rest| > 1 {
          assert r[1..] == rest[1..];
          assert Join([c], rest) == rest[0] + [c] + Join([c], rest[1..]);
        }
      }
    }
  }

  /** Splitting `p + t` where `p` holds no separator glues `p` to the first piece of `t`. */
  lemma {:induction false} SplitPrefix(p: string, t: string, c: char)
    requires c !in p
    ensures Split(p + t, c) == [p + Split(t, c)[0]] + Split(t, c)[1..]
  {
    if p != [] {
      assert (p + t)[1..] == p[1..] + t;
      SplitPrefix(p[1..], t, c);
      assert p[0] != c;
      assert [p[0]] + (p[1..] + Split(t, c)[0]) == p + Split(t, c)[0];
    } else {
      assert p + t == t;
      assert p + Split(t, c)[0] == Split(t, c)[0];
    }
  }

  /** Splitting a join of separator-free pieces gives the pieces back. */
  lemma {:induction false} SplitJoin(parts: seq<string>, c: char)
    requires |parts| >= 1
    requires forall i :: 0 <= i < |parts| ==> c !in parts[i]
    ensures Split(Join([c], parts), c) == parts
  {
    var p := parts[0];
    if |parts| == 1 {
      SplitPrefix(p, "", c);
      assert p + "" == p;
    } else {
      var j := Join([c], parts[1..]);
      SplitJoin(parts[1..], c);
      assert Join([c], parts) == p + ([c] + j);
      SplitPrefix(p, [c] + j, c);
      assert ([c] + j)[1..] == j;
      assert Split([c] + j, c) == [""] + parts[1..];
      assert p + "" == p;
    }
  }

  /** Joining two non-empty lists is joining their joins. */
  lemma {:induction false} JoinAppend(sep: string, a: seq<string>, b: seq<string>)
    requires |a| >= 1 && |b| >= 1
    ensures Join(sep, a + b) == Join(sep, a) + sep + Join(sep, b)
  {
    if |a| > 1 {
      assert (a + b)[1..] == a[1..] + b;
      JoinAppend(sep, a[1..], b);
    } else {
      assert (a + b)[1..] == b;
    }
  }

  // ---------------------------------------------------------------------
  // splitlines

  /** The characters `str.splitlines` treats as line boundaries. */
  predicate IsLineBreak(c: char)
  {
    || c == '\n' || c == '\r' || c == '\U{0B}' || c == '\U{0C}'
    || c == '\U{1C}' || c == '\U{1D}' || c == '\U{1E}' || c == '\U{85}'
    || c == '\U{2028}' || c == '\U{2029}'
  }

  predicate NoLineBreak(s: string)
  {
    forall i :: 0 <= i < |s| ==> !IsLineBreak(s[i])
  }

  /** Index of the first line boundary in `s`, or `|s|` when there is none. */
  function LineEnd(s: string): (k: nat)
    ensures k <= |s|
    ensures forall i :: 0 <= i < k ==> !IsLineBreak(s[i])
    ensures k < |s| ==> IsLineBreak(s[k])
  {
    if s == [] || IsLineBreak(s[0]) then 0 else 1 + LineEnd(s[1..])
  }

  /** Width of the boundary at `k`: `\r\n` is one boundary. */
  function BreakWidth(s: string, k: nat): nat
    requires k < |s|
  {
    if s[k] == '\r' && k + 1 < |s| && s[k + 1] == '\n' then 2 else 1
  }

  /** `s.splitlines()` */
  function SplitLines(s: string): seq<string>
    decreases |s|
  {
    if s == [] then []
    else
      var k := LineEnd(s);
      if k == |s| then [s]
      else [s[..k]] + SplitLines(s[k + BreakWidth(s, k)..])
  }

  /** `"".join(l + "\n" for l in lines)`: each line followed by a newline. */
  function Terminated(lines: seq<string>): string
  {
    if lines == [] then "" else lines[0] + "\n" + Terminated(lines[1..])
  }

  lemma {:induction false} TerminatedSnoc(lines: seq<string>, l: string)
    ensures Terminated(lines + [l]) == Terminated(lines) + l + "\n"
  {
    if lines != [] {
      assert (lines + [l])[1..] == lines[1..] + [l];
      TerminatedSnoc(lines[1..], l);
    } else {
      assert [] + [l] == [l];
    }
  }

  /** No line produced by `splitlines` contains a boundary. */
  lemma {:induction false} SplitLinesHaveNoBreaks(s: string)
    ensures forall i :: 0 <= i < |SplitLines(s)| ==> NoLineBreak(SplitLines(s)[i])
    decreases |s|
  {
    if s != [] {
      var k := LineEnd(s);
      if k < |s| {
        SplitLinesHaveNoBreaks(s[k + BreakWidth(s, k)..]);
      }
    }
  }

  lemma {:induction false} LineEndAfterPlainText(l: string, t: string)
    requires NoLineBreak(l)
    ensures LineEnd(l + t) == |l| + LineEnd(t)
  {
    if l != [] {
      assert (l + t)[1..] == l[1..] + t;
      LineEndAfterPlainText(l[1..], t);
    } else {
      assert l + t == t;
    }
  }

  /** A boundary-free line followed by a newline splits off as one line,
      whatever follows it. */
  lemma SplitLinesLine(l: string, y: string)
    requires NoLineBreak(l)
    ensures SplitLines(l + "\n" + y) == [l] + SplitLines(y)
  {
    var s := l + "\n" + y;
    assert s == l + ("\n" + y);
    LineEndAfterPlainText(l, "\n" + y);
    assert LineEnd(s) == |l|;
    assert s[|l|] == '\n';
    assert s[..|l|] == l;
    assert s[|l| + 1..] == y;
  }

  /** Boundary-free lines, each followed by a newline, split back into exactly those lines. */
  lemma {:induction false} SplitLinesTerminated(lines: seq<string>)
    requires forall i :: 0 <= i < |lines| ==> NoLineBreak(lines[i])
    ensures SplitLines(Terminated(lines)) == lines
  {
    if lines != [] {
      SplitLinesLine(lines[0], Terminated(lines[1..]));
      SplitLinesTerminated(lines[1..]);
    }
  }

  /** Non-empty text always yields at least one line. */
  lemma SplitLinesNonEmpty(s: string)
    requires s != []
    ensures |SplitLines(s)| >= 1
  {
  }

  /** `s.startswith(prefix)` */
  predicate StartsWith(s: string, prefix: string)
  {
    |prefix| <= |s| && s[..|prefix|] == prefix
  }

  // ---------------------------------------------------------------------
  // decimal numbers

  predicate IsDigit(c: char)
  {
    '0' <= c <= '9'
  }

  predicate AllDigits(s: string)
  {
    forall i :: 0 <= i < |s| ==> IsDigit(s[i])
  }

  function DigitChar(d: nat): (c: char)
    requires d < 10
    ensures IsDigit(c)
  {
    ('0' as int + d) as char
  }

  function DigitValue(c: char): nat
    requires IsDigit(c)
  {
    c as int - '0' as int
  }

  /** `str(n)` for a non-negative integer. */
  function NatStr(n: nat): string
  {
    if n < 10 then [DigitChar(n)] else NatStr(n / 10) + [DigitChar(n % 10)]
  }

  /** `str(i)` for an integer. */
  function IntStr(i: int): string
  {
    if i < 0 then "-" + NatStr(-i) else NatStr(i)
  }

  /** Reads a string of decimal digits as a number. */
  function DecimalValue(s: string): nat
    requires AllDigits(s)
  {
    if s == [] then 0 else 10 * DecimalValue(s[..|s| - 1]) + DigitValue(s[|s| - 1])
  }

  /** Reads Python's `str()` of an integer back. */
  function IntValue(s: string): int
    requires AllDigits(s) || (|s| >= 1 && s[0] == '-' && AllDigits(s[1..]))
  {
    if AllDigits(s) then DecimalValue(s) else -(DecimalValue(s[1..]) as int)
  }

  function Zeros(k: nat): (z: string)
    ensures |z| == k && AllDigits(z)
  {
    seq(k, _ => '0')
  }

  /** `"%0*d" % (width, n)`: the decimal digits of `n`, padded with leading zeros to `width`. */
  function ZeroPad(n: nat, width: nat): string
  {
    var d := NatStr(n);
    if |d| < width then Zeros(width - |d|) + d else d
  }

  function Pow10(w: nat): nat
  {
    if w == 0 then 1 else 10 * Pow10(w - 1)
  }

  /** `str(n)` is a non-empty digit string without a leading zero that reads back as `n`. */
  lemma {:induction false} NatStrRoundTrip(n: nat)
    ensures AllDigits(NatStr(n)) && |NatStr(n)| >= 1
    ensures DecimalValue(NatStr(n)) == n
    ensures n > 0 ==> NatStr(n)[0] != '0'
  {
    if n >= 10 {
      NatStrRoundTrip(n / 10);
      var s := NatStr(n);
      assert s[..|s| - 1] == NatStr(n / 10);
    }
  }

  /** `str(i)` reads back as `i`. */
  lemma IntStrRoundTrip(i: int)
    ensures var s := IntStr(i);
      (AllDigits(s) || (|s| >= 1 && s[0] == '-' && AllDigits(s[1..]))) && IntValue(s) == i
  {
    if i < 0 {
      NatStrRoundTrip(-i);
      assert ("-" + NatStr(-i))[1..] == NatStr(-i);
    } else {
      NatStrRoundTrip(i);
    }
  }

  lemma {:induction false} ZerosValue(k: nat)
    ensures DecimalValue(Zeros(k)) == 0
  {
    if k > 0 {
      assert Zeros(k)[..k - 1] == Zeros(k - 1);
      ZerosValue(k - 1);
    }
  }

  /** Leading zeros do not change the value read back. */
  lemma {:induction false} LeadingZeros(k: nat, s: string)
    requires AllDigits(s)
    ensures AllDigits(Zeros(k) + s) && DecimalValue(Zeros(k) + s) == DecimalValue(s)
    decreases |s|
  {
    var t := Zeros(k) + s;
    if s == [] {
      assert t == Zeros(k);
      ZerosValue(k);
    } else {
      assert t[..|t| - 1] == Zeros(k) + s[..|s| - 1];
      LeadingZeros(k, s[..|s| - 1]);
    }
  }

  /** A number below `10^w` has at most `w` digits. */
  lemma {:induction false} NatStrLength(n: nat, w: nat)
    requires w >= 1 && n < Pow10(w)
    ensures |NatStr(n)| <= w
    decreases n
  {
    if n >= 10 {
      assert Pow10(1) == 10;
      assert w >= 2;
      assert n / 10 < Pow10(w - 1);
      NatStrLength(n / 10, w - 1);
    }
  }

  /** Zero padding reads back as the number, and has exactly `width` characters
      when the number fits in that many digits. */
  lemma ZeroPadRoundTrip(n: nat, width: nat)
    ensures AllDigits(ZeroPad(n, width)) && DecimalValue(ZeroPad(n, width)) == n
    ensures width >= 1 && n < Pow10(width) ==> |ZeroPad(n, width)| == width
    ensures |ZeroPad(n, width)| >= width
  {
    NatStrRoundTrip(n);
    var d := NatStr(n);
    if |d| < width {
      LeadingZeros(width - |d|, d);
    }
    if width >= 1 && n < Pow10(width) {
      NatStrLength(n, width);
    }
  }
}
