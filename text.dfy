/** The string operations the dashboard relies on: `str.replace(ch, "")`,
    `str.strip()`, `str.splitlines()`, `str.lower()` and substring search. */
module Text {

  /** `s.replace(ch, "")`: every occurrence of `ch` is dropped, everything else is
      kept in order (`RemoveCounts`, `RemoveAppend`). */
  function Remove(s: string, ch: char): (r: string)
    ensures ch !in r
    ensures |r| <= |s|
  {
    if s == [] then []
    else (if s[0] == ch then [] else [s[0]]) + Remove(s[1..], ch)
  }

  /** Removal keeps every other character with the same count. */
  lemma {:induction false} RemoveCounts(s: string, ch: char)
    ensures multiset(Remove(s, ch)) == multiset(s)[ch := 0]
  {
    if s != [] {
      assert s == [s[0]] + s[1..];
      RemoveCounts(s[1..], ch);
    }
  }

  /** Removal works character by character, so it distributes over concatenation. */
  lemma {:induction false} RemoveAppend(a: string, b: string, ch: char)
    ensures Remove(a + b, ch) == Remove(a, ch) + Remove(b, ch)
  {
    if a == [] {
      assert a + b == b;
    } else {
      assert (a + b)[0] == a[0];
      assert (a + b)[1..] == a[1..] + b;
      RemoveAppend(a[1..], b, ch);
    }
  }

  /** The cleaning of a money cell before parsing on CSV import:
      `.replace('$', '').replace(',', '')`. */
  function Clean(s: string): (r: string)
    ensures '$' !in r && ',' !in r
    ensures multiset(r) == multiset(s)['$' := 0][',' := 0]
  {
    var once := Remove(s, '$');
    var r := Remove(once, ',');
    RemoveCounts(s, '$');
    RemoveCounts(once, ',');
    assert multiset(r)['$'] == multiset(once)['$'] == 0;
    r
  }

  /** Python's `str.isspace()` characters. */
  predicate IsSpace(c: char) {
    var n := c as int;
    (9 <= n <= 13) || (28 <= n <= 32) || n == 0x85 || n == 0xA0 || n == 0x1680
    || (0x2000 <= n <= 0x200A) || n == 0x2028 || n == 0x2029 || n == 0x202F
    || n == 0x205F || n == 0x3000
  }

  /** The line boundaries of Python's `str.splitlines()` ("\r\n" counts as one). */
  predicate IsLineBreak(c: char) {
    var n := c as int;
    (10 <= n <= 13) || (28 <= n <= 30) || n == 0x85 || n == 0x2028 || n == 0x2029
  }

  /** Number of leading whitespace characters. */
  function LeadingSpaces(s: string): (n: nat)
    ensures n <= |s|
    ensures forall k :: 0 <= k < n ==> IsSpace(s[k])
    ensures n < |s| ==> !IsSpace(s[n])
  {
    if s == [] || !IsSpace(s[0]) then 0 else 1 + LeadingSpaces(s[1..])
  }

  /** Number of trailing whitespace characters. */
  function TrailingSpaces(s: string): (n: nat)
    ensures n <= |s|
    ensures forall k :: |s| - n <= k < |s| ==> IsSpace(s[k])
    ensures n < |s| ==> !IsSpace(s[|s| - 1 - n])
  {
    if s == [] || !IsSpace(s[|s| - 1]) then 0 else 1 + TrailingSpaces(s[..|s| - 1])
  }

  /** `s.strip()`: the slice of `s` left after dropping the whitespace at both ends. */
  function Strip(s: string): (r: string)
    ensures LeadingSpaces(s) + |r| <= |s|
    ensures r == s[LeadingSpaces(s)..LeadingSpaces(s) + |r|]
    ensures forall k :: 0 <= k < |s| && !(LeadingSpaces(s) <= k < LeadingSpaces(s) + |r|) ==> IsSpace(s[k])
    ensures r != [] ==> !IsSpace(r[0]) && !IsSpace(r[|r| - 1])
  {
    var a := LeadingSpaces(s);
    var rest := s[a..];
    rest[..|rest| - TrailingSpaces(rest)]
  }

  /** Index of the first line boundary of `s`, or `|s|` when there is none. */
  function FirstBreak(s: string): (n: nat)
    ensures n <= |s|
    ensures forall k :: 0 <= k < n ==> !IsLineBreak(s[k])
    ensures n < |s| ==> IsLineBreak(s[n])
  {
    if s == [] || IsLineBreak(s[0]) then 0 else 1 + FirstBreak(s[1..])
  }

  /** `s.splitlines()`: the text between line boundaries; an empty string has no
      lines and a final boundary does not start another line. What it yields is
      stated by `SplitLinesShape`, `SplitLinesNoBreaks`, `SplitLinesJoin` and
      the lemmas about `LineEnds` below. */
  function SplitLines(s: string): seq<string>
    decreases |s|
  {
    if s == [] then []
    else
      var n := FirstBreak(s);
      if n == |s| then [s]
      else [s[..n]] + SplitLines(s[n + BreakWidth(s, n)..])
  }

  /** The length of the line boundary at `n`: "\r\n" counts as one boundary. */
  function BreakWidth(s: string, n: nat): (w: nat)
    requires n < |s|
    ensures 1 <= w <= |s| - n
  {
    if s[n] == '\r' && n + 1 < |s| && s[n + 1] == '\n' then 2 else 1
  }

  /** The boundary that ends each line of `SplitLines(s)`; the last line may end
      the text with none. */
  function LineEnds(s: string): seq<string>
    decreases |s|
  {
    if s == [] then []
    else
      var n := FirstBreak(s);
      if n == |s| then [[]]
      else [s[n..n + BreakWidth(s, n)]] + LineEnds(s[n + BreakWidth(s, n)..])
  }

  /** A single line boundary. */
  predicate IsSeparator(sep: string) {
    sep == "\r\n" || (|sep| == 1 && IsLineBreak(sep[0]))
  }

  /** A line holds no line boundary. */
  predicate NoBreak(line: string) {
    forall k :: 0 <= k < |line| ==> !IsLineBreak(line[k])
  }

  /** Each line followed by its boundary, in order. */
  function Join(lines: seq<string>, ends: seq<string>): string {
    if lines == [] || ends == [] then [] else lines[0] + ends[0] + Join(lines[1..], ends[1..])
  }

  /** A text with a line boundary at `n` splits into the line before it and the
      lines after it. */
  lemma SplitLinesStep(s: string, n: nat, w: nat)
    requires n == FirstBreak(s) && n < |s| && w == BreakWidth(s, n)
    ensures SplitLines(s) == [s[..n]] + SplitLines(s[n + w..])
  {
  }

  lemma LineEndsStep(s: string, n: nat, w: nat)
    requires n == FirstBreak(s) && n < |s| && w == BreakWidth(s, n)
    ensures LineEnds(s) == [s[n..n + w]] + LineEnds(s[n + w..])
  {
  }

  /** The empty text has no lines, a non-empty one has at least one, there are
      never more lines than characters, and a text without a boundary is one line. */
  lemma {:induction false} SplitLinesShape(s: string)
    decreases |s|
    ensures s == [] <==> SplitLines(s) == []
    ensures |SplitLines(s)| <= |s|
    ensures s != [] && NoBreak(s) ==> SplitLines(s) == [s]
  {
    if s != [] {
      var n := FirstBreak(s);
      if n < |s| {
        var w := BreakWidth(s, n);
        SplitLinesShape(s[n + w..]);
        SplitLinesStep(s, n, w);
        assert !NoBreak(s);
      }
    }
  }

  /** There is one boundary entry per line. */
  lemma {:induction false} LineEndsLength(s: string)
    decreases |s|
    ensures |LineEnds(s)| == |SplitLines(s)|
  {
    if s != [] {
      var n := FirstBreak(s);
      if n < |s| {
        var w := BreakWidth(s, n);
        LineEndsLength(s[n + w..]);
        SplitLinesStep(s, n, w);
        LineEndsStep(s, n, w);
      }
    }
  }

  lemma NoBreakCons(line: string, lines: seq<string>)
    requires NoBreak(line)
    requires forall i :: 0 <= i < |lines| ==> NoBreak(lines[i])
    ensures forall i :: 0 <= i < |[line] + lines| ==> NoBreak(([line] + lines)[i])
  {
    forall i | 0 < i < |[line] + lines|
      ensures NoBreak(([line] + lines)[i])
    {
      assert ([line] + lines)[i] == lines[i - 1];
    }
  }

  /** No line holds a line boundary. */
  lemma {:induction false} SplitLinesNoBreaks(s: string)
    decreases |s|
    ensures forall i :: 0 <= i < |SplitLines(s)| ==> NoBreak(SplitLines(s)[i])
  {
    if s != [] {
      var n := FirstBreak(s);
      if n < |s| {
        var w := BreakWidth(s, n);
        var rest := s[n + w..];
        SplitLinesNoBreaks(rest);
        SplitLinesStep(s, n, w);
        assert NoBreak(s[..n]);
        NoBreakCons(s[..n], SplitLines(rest));
      } else {
        assert NoBreak(s);
      }
    }
  }

  lemma JoinCons(line: string, end: string, lines: seq<string>, ends: seq<string>)
    ensures Join([line] + lines, [end] + ends) == line + end + Join(lines, ends)
  {
    assert ([line] + lines)[1..] == lines && ([end] + ends)[1..] == ends;
  }

  lemma SliceThree(s: string, i: nat, j: nat)
    requires i <= j <= |s|
    ensures s[..i] + s[i..j] + s[j..] == s
  {
  }

  /** `splitlines()` loses nothing but the boundaries: the text is its lines,
      each followed by its boundary. */
  lemma {:induction false} SplitLinesJoin(s: string)
    decreases |s|
    ensures Join(SplitLines(s), LineEnds(s)) == s
  {
    if s != [] {
      var n := FirstBreak(s);
      if n == |s| {
        assert Join([s], [[]]) == s + [] + Join([], []);
      } else {
        var w := BreakWidth(s, n);
        var rest := s[n + w..];
        SplitLinesJoin(rest);
        SplitLinesStep(s, n, w);
        LineEndsStep(s, n, w);
        JoinCons(s[..n], s[n..n + w], SplitLines(rest), LineEnds(rest));
        SliceThree(s, n, n + w);
      }
    }
  }

  /** Every line ends with one boundary, except that the last line may end the
      text with none. */
  lemma {:induction false} LineEndsSeparate(s: string)
    decreases |s|
    ensures forall k :: 0 <= k < |LineEnds(s)| ==>
      IsSeparator(LineEnds(s)[k]) || (k == |LineEnds(s)| - 1 && LineEnds(s)[k] == [])
  {
    if s != [] {
      var n := FirstBreak(s);
      if n < |s| {
        var w := BreakWidth(s, n);
        var rest := s[n + w..];
        LineEndsSeparate(rest);
        LineEndsStep(s, n, w);
        var ends := LineEnds(s);
        assert IsSeparator(ends[0]);
        forall k | 0 < k < |ends|
          ensures IsSeparator(ends[k]) || (k == |ends| - 1 && ends[k] == [])
        {
          assert ends[k] == LineEnds(rest)[k - 1];
        }
      }
    }
  }

  /** A text whose first line is empty and ended by "\n" starts with "\n". */
  lemma EmptyLineStart(s: string)
    ensures SplitLines(s) != [] && SplitLines(s)[0] == [] && LineEnds(s) != [] && LineEnds(s)[0] == "\n" ==>
      s != [] && s[0] == '\n'
  {
    if s != [] {
      var n := FirstBreak(s);
      if n < |s| {
        SplitLinesStep(s, n, BreakWidth(s, n));
        LineEndsStep(s, n, BreakWidth(s, n));
      }
    }
  }

  /** "\r\n" is one boundary: no "\r" boundary is followed by an empty line ended
      by "\n". */
  predicate CrLfKept(lines: seq<string>, ends: seq<string>) {
    forall k :: 0 <= k < |ends| - 1 && k + 1 < |lines| && ends[k] == "\r" ==>
      !(lines[k + 1] == [] && ends[k + 1] == "\n")
  }

  lemma CrLfCons(line: string, end: string, lines: seq<string>, ends: seq<string>)
    requires CrLfKept(lines, ends)
    requires end == "\r" && ends != [] && lines != [] ==> !(lines[0] == [] && ends[0] == "\n")
    ensures CrLfKept([line] + lines, [end] + ends)
  {
    var ls, es := [line] + lines, [end] + ends;
    forall k | 0 <= k < |es| - 1 && k + 1 < |ls| && es[k] == "\r"
      ensures !(ls[k + 1] == [] && es[k + 1] == "\n")
    {
      assert ls[k + 1] == lines[k] && es[k + 1] == ends[k];
      if k > 0 {
        assert es[k] == ends[k - 1];
      }
    }
  }

  /** A lone "\r" boundary is not followed by "\n", so the text after it does not
      start with an empty line ended by "\n". */
  lemma CrLfHead(s: string, n: nat, w: nat)
    requires n == FirstBreak(s) && n < |s| && w == BreakWidth(s, n)
    ensures s[n..n + w] == "\r" && SplitLines(s[n + w..]) != [] && LineEnds(s[n + w..]) != [] ==>
      !(SplitLines(s[n + w..])[0] == [] && LineEnds(s[n + w..])[0] == "\n")
  {
    var rest := s[n + w..];
    if s[n..n + w] == "\r" {
      assert w == 1 && s[n] == '\r';
      assert rest == [] || rest[0] != '\n';
      EmptyLineStart(rest);
    }
  }

  /** `splitlines()` treats "\r\n" as one boundary. */
  lemma {:induction false} LineEndsCrLf(s: string)
    decreases |s|
    ensures CrLfKept(SplitLines(s), LineEnds(s))
  {
    if s != [] {
      var n := FirstBreak(s);
      if n < |s| {
        var w := BreakWidth(s, n);
        var rest := s[n + w..];
        LineEndsCrLf(rest);
        SplitLinesStep(s, n, w);
        LineEndsStep(s, n, w);
        CrLfHead(s, n, w);
        CrLfCons(s[..n], s[n..n + w], SplitLines(rest), LineEnds(rest));
      }
    }
  }

  /** A final boundary does not start another line: only a non-empty line may end
      the text without a boundary. */
  predicate LastLineFilled(lines: seq<string>, ends: seq<string>) {
    forall k :: 0 <= k < |ends| && k < |lines| && ends[k] == [] ==> lines[k] != []
  }

  lemma LastLineCons(line: string, end: string, lines: seq<string>, ends: seq<string>)
    requires LastLineFilled(lines, ends)
    requires end != []
    ensures LastLineFilled([line] + lines, [end] + ends)
  {
    var ls, es := [line] + lines, [end] + ends;
    forall k | 0 < k < |es| && k < |ls| && es[k] == []
      ensures ls[k] != []
    {
      assert ls[k] == lines[k - 1] && es[k] == ends[k - 1];
    }
  }

  /** `splitlines()` yields no empty last line for a text ending in a boundary. */
  lemma {:induction false} LineEndsFilled(s: string)
    decreases |s|
    ensures LastLineFilled(SplitLines(s), LineEnds(s))
  {
    if s != [] {
      var n := FirstBreak(s);
      if n == |s| {
        assert SplitLines(s) == [s] && LineEnds(s) == [[]];
      } else {
        var w := BreakWidth(s, n);
        var rest := s[n + w..];
        LineEndsFilled(rest);
        SplitLinesStep(s, n, w);
        LineEndsStep(s, n, w);
        LastLineCons(s[..n], s[n..n + w], SplitLines(rest), LineEnds(rest));
      }
    }
  }

  /** A non-empty text that does not end in a boundary has its last line end the
      text: the last entry of `LineEnds` is empty. */
  lemma {:induction false} LastLineUnended(s: string)
    requires s != [] && !IsLineBreak(s[|s| - 1])
    decreases |s|
    ensures LineEnds(s) != [] && LineEnds(s)[|LineEnds(s)| - 1] == []
  {
    var n := FirstBreak(s);
    if n < |s| {
      var w := BreakWidth(s, n);
      var rest := s[n + w..];
      assert n + w < |s|;
      assert rest[|rest| - 1] == s[|s| - 1];
      LastLineUnended(rest);
      LineEndsStep(s, n, w);
    }
  }

  /** `c.lower()` on ASCII letters; every other character is left as it is. */
  function LowerChar(c: char): char {
    if 'A' <= c <= 'Z' then (c as int - 'A' as int + 'a' as int) as char else c
  }

  /** `s.lower()`, character by character. */
  function Lower(s: string): (r: string)
    ensures |r| == |s|
    ensures forall k :: 0 <= k < |s| ==> r[k] == LowerChar(s[k])
  {
    seq(|s|, k requires 0 <= k < |s| => LowerChar(s[k]))
  }

  /** Lower-casing commutes with taking a slice. */
  lemma LowerSlice(s: string, i: nat, j: nat)
    requires i <= j <= |s|
    ensures Lower(s)[i..j] == Lower(s[i..j])
  {
    var a, b := Lower(s)[i..j], Lower(s[i..j]);
    forall k | 0 <= k < |a|
      ensures a[k] == b[k]
    {
      assert s[i..j][k] == s[i + k];
    }
  }

  /** Python's `needle in hay` on strings. */
  predicate Contains(hay: string, needle: string)
    decreases |hay|
  {
    needle <= hay || (hay != [] && Contains(hay[1..], needle))
  }

  /** `needle` occurs in `hay` starting at offset `i`. */
  predicate OccursAt(hay: string, needle: string, i: nat) {
    i + |needle| <= |hay| && hay[i..i + |needle|] == needle
  }

  /** An occurrence in the tail of `hay` is an occurrence in `hay`, one further on. */
  lemma OccursShift(hay: string, needle: string, i: nat)
    requires hay != []
    ensures OccursAt(hay[1..], needle, i) <==> OccursAt(hay, needle, i + 1)
  {
    if i + |needle| <= |hay[1..]| {
      assert hay[1..][i..i + |needle|] == hay[i + 1..i + 1 + |needle|];
    }
  }

  /** `needle in hay` holds exactly when `needle` occurs at some offset of `hay`. */
  lemma {:induction false} ContainsAt(hay: string, needle: string)
    decreases |hay|
    ensures Contains(hay, needle) <==> exists i: nat :: OccursAt(hay, needle, i)
  {
    if needle <= hay {
      assert OccursAt(hay, needle, 0);
    } else if hay != [] {
      ContainsAt(hay[1..], needle);
      if exists i: nat :: OccursAt(hay, needle, i) {
        var i: nat :| OccursAt(hay, needle, i);
        assert i != 0;
        OccursShift(hay, needle, i - 1);
      }
      if Contains(hay[1..], needle) {
        var i: nat :| OccursAt(hay[1..], needle, i);
        OccursShift(hay, needle, i);
      }
    }
  }
}
