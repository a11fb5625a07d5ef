/** Python `str` operations used by both renderers, with Python's exact semantics.
    A Python `str` is a `string` (a sequence of Unicode scalar values) here. */
module PyStr {

  /** `c.isspace()`: the characters `str.rstrip()` removes by default. */
  predicate IsSpace(c: char) {
    c == ' ' || ('\t' <= c <= '\r') || ('\U{1c}' <= c <= '\U{1f}') || c == '\U{85}'
    || c == '\U{a0}' || c == '\U{1680}' || ('\U{2000}' <= c <= '\U{200a}')
    || c == '\U{2028}' || c == '\U{2029}' || c == '\U{202f}' || c == '\U{205f}'
    || c == '\U{3000}'
  }

  /** The characters at which `str.splitlines()` ends a line ("\r\n" counts as one break). */
  predicate IsLineBreak(c: char) {
    c == '\n' || c == '\r' || c == '\U{0b}' || c == '\U{0c}' || ('\U{1c}' <= c <= '\U{1e}')
    || c == '\U{85}' || c == '\U{2028}' || c == '\U{2029}'
  }

  /** `line.endswith("\n")` */
  predicate EndsWithNewline(s: string) {
    |s| > 0 && s[|s| - 1] == '\n'
  }

  /** Text in which "\n" is the only line break. */
  predicate NewlineOnly(s: string) {
    forall i :: 0 <= i < |s| && IsLineBreak(s[i]) ==> s[i] == '\n'
  }

  /** Text without any line break. */
  predicate NoLineBreak(s: string) {
    forall i :: 0 <= i < |s| ==> !IsLineBreak(s[i])
  }

  /** `" " * n` */
  function Spaces(n: nat): (r: string)
    ensures |r| == n
    ensures forall i :: 0 <= i < n ==> r[i] == ' '
  {
    if n == 0 then "" else Spaces(n - 1) + " "
  }

  /** `s.rstrip()`: the longest prefix of `s` that does not end in whitespace. */
  function RStrip(s: string): (r: string)
    ensures r <= s
    ensures r == [] || !IsSpace(r[|r| - 1])
    ensures forall i :: |r| <= i < |s| ==> IsSpace(s[i])
    decreases |s|
  {
    if s != [] && IsSpace(s[|s| - 1]) then RStrip(s[..|s| - 1]) else s
  }

  /** `s.ljust(width)`: `s` padded with spaces on the right to at least `width` characters. */
  function LJust(s: string, width: int): (r: string)
    ensures |r| == if width > |s| then width else |s|
    ensures r[..|s|] == s
    ensures forall i :: |s| <= i < |r| ==> r[i] == ' '
  {
    if width > |s| then s + Spaces(width - |s|) else s
  }

  /** How Python normalises one bound of a slice of a sequence of length `n`:
      a negative bound counts from the end, and the result is clamped to `0..n`. */
  function SliceBound(i: int, n: nat): (k: nat)
    ensures k <= n
    ensures 0 <= i <= n ==> k == i
    ensures i < 0 <= i + n ==> k == n + i
    ensures i + n < 0 ==> k == 0
    ensures n < i ==> k == n
  {
    if i < 0 then (if i + n < 0 then 0 else i + n) else if i > n then n else i
  }

  /** `s[start:stop]` */
  function Slice(s: string, start: int, stop: int): string {
    var i, j := SliceBound(start, |s|), SliceBound(stop, |s|);
    if i < j then s[i..j] else []
  }

  /** `s[:stop]` */
  function Prefix(s: string, stop: int): (r: string)
    ensures 0 <= stop <= |s| ==> r == s[..stop]
    ensures |s| < stop ==> r == s
    ensures stop < 0 <= |s| + stop ==> r == s[..|s| + stop]
    ensures |s| + stop < 0 ==> r == ""
  {
    Slice(s, 0, stop)
  }

  /** `s[start:]`; note that `s[-0:]` is all of `s`. */
  function Suffix(s: string, start: int): (r: string)
    ensures 0 <= start <= |s| ==> r == s[start..]
    ensures start < 0 <= |s| + start ==> r == s[|s| + start..]
    ensures |s| + start < 0 ==> r == s
    ensures |s| < start ==> r == ""
  {
    Slice(s, start, |s|)
  }

  /** `s.expandtabs()` started at column `column`: each tab becomes the spaces up to the next
      multiple of 8, and "\n" and "\r" reset the column. */
  function ExpandTabsFrom(s: string, column: nat): (r: string)
    ensures forall i :: 0 <= i < |r| ==> r[i] != '\t'
    ensures (forall i :: 0 <= i < |s| ==> s[i] != '\t') ==> r == s
    decreases |s|
  {
    if s == [] then []
    else if s[0] == '\t' then
      var n := 8 - column % 8;
      Spaces(n) + ExpandTabsFrom(s[1..], column + n)
    else
      [s[0]] + ExpandTabsFrom(s[1..], if s[0] == '\n' || s[0] == '\r' then 0 else column + 1)
  }

  /** `s.expandtabs()` */
  function ExpandTabs(s: string): string {
    ExpandTabsFrom(s, 0)
  }

  /** `"".join(parts)` */
  function Concat(parts: seq<string>): string {
    if parts == [] then "" else parts[0] + Concat(parts[1..])
  }

  lemma {:induction false} ConcatAppend(a: seq<string>, b: seq<string>)
    ensures Concat(a + b) == Concat(a) + Concat(b)
    decreases |a|
  {
    if a == [] {
      assert a + b == b;
    } else {
      assert (a + b)[1..] == a[1..] + b;
      ConcatAppend(a[1..], b);
    }
  }

  lemma ConcatSnoc(a: seq<string>, s: string)
    ensures Concat(a + [s]) == Concat(a) + s
  {
    ConcatAppend(a, [s]);
    assert Concat([s]) == s + Concat([]);
  }

  lemma ConcatLast(parts: seq<string>)
    requires parts != []
    ensures Concat(parts) == Concat(parts[..|parts| - 1]) + parts[|parts| - 1]
  {
    ConcatSnoc(parts[..|parts| - 1], parts[|parts| - 1]);
    assert parts[..|parts| - 1] + [parts[|parts| - 1]] == parts;
  }

  lemma ConcatOne(s: string)
    ensures Concat([s]) == s
  {
    assert [s][1..] == [];
  }

  /** `sep.join(parts)` */
  function Join(sep: string, parts: seq<string>): string
    decreases |parts|
  {
    if parts == [] then ""
    else if |parts| == 1 then parts[0]
    else parts[0] + sep + Join(sep, parts[1..])
  }

  /** The elements of `parts` that are not empty, in order: `[p for p in parts if p]`. */
  function NonEmpty(parts: seq<string>): (r: seq<string>)
    ensures forall i :: 0 <= i < |r| ==> r[i] != ""
    ensures |r| <= |parts|
    ensures r == [] <==> forall i :: 0 <= i < |parts| ==> parts[i] == ""
    ensures forall x :: x in r <==> x in parts && x != ""
  {
    if parts == [] then []
    else if parts[0] == "" then NonEmpty(parts[1..])
    else [parts[0]] + NonEmpty(parts[1..])
  }

  /** The filter keeps the order of the entries: filtering `a + b` is filtering `a`, then `b`. */
  lemma {:induction false} NonEmptyAppend(a: seq<string>, b: seq<string>)
    ensures NonEmpty(a + b) == NonEmpty(a) + NonEmpty(b)
    decreases |a|
  {
    if a == [] {
      assert a + b == b;
    } else {
      assert (a + b)[1..] == a[1..] + b;
      NonEmptyAppend(a[1..], b);
    }
  }

  /** Joining non-empty parts gives "" exactly when there are no parts. */
  lemma {:induction false} JoinEmpty(sep: string, parts: seq<string>)
    requires forall i :: 0 <= i < |parts| ==> parts[i] != ""
    ensures Join(sep, parts) == "" <==> parts == []
    decreases |parts|
  {
    if |parts| > 1 {
      JoinEmpty(sep, parts[1..]);
    }
  }

  /** The length of the first line of `s[i..]`, counted from 0, including its line break:
      the position just after the first break at or after `i`, or `|s|`. */
  function LineEnd(s: string, i: nat): (n: nat)
    requires i <= |s|
    ensures i <= n <= |s|
    ensures i < |s| ==> i < n
    ensures forall k :: i <= k < n - 1 ==> s[k] != '\n'
    ensures forall k :: i <= k < n - 1 ==> !IsLineBreak(s[k]) || (k == n - 2 && s[k] == '\r')
    ensures i + 2 <= n && IsLineBreak(s[n - 2]) ==> s[n - 1] == '\n'
    ensures n < |s| ==> IsLineBreak(s[n - 1])
    ensures i < n < |s| && s[n - 1] == '\r' ==> s[n] != '\n'
    decreases |s| - i
  {
    if i == |s| then |s|
    else if IsLineBreak(s[i]) then
      (if s[i] == '\r' && i + 1 < |s| && s[i + 1] == '\n' then i + 2 else i + 1)
    else LineEnd(s, i + 1)
  }

  /** A line as `splitlines(True)` cuts it: not empty, and without a line break before its end
      except the "\r" of a closing "\r\n". */
  predicate LinePiece(p: string) {
    && p != ""
    && (forall k :: 0 <= k < |p| - 1 ==> p[k] != '\n')
    && (forall k :: 0 <= k < |p| - 1 ==> !IsLineBreak(p[k]) || (k == |p| - 2 && p[k] == '\r'))
    && (2 <= |p| && IsLineBreak(p[|p| - 2]) ==> p[|p| - 1] == '\n')
  }

  /** `p` is ended by a line break, and `next` does not start with a "\n" that would have
      made a "\r" ending `p` into "\r\n". */
  predicate LineBoundary(p: string, next: string) {
    p != "" && next != "" && IsLineBreak(p[|p| - 1]) && (p[|p| - 1] == '\r' ==> next[0] != '\n')
  }

  /** The first line of `s` as `LineEnd` finds it, and where it ends. */
  lemma FirstLinePiece(s: string)
    requires s != ""
    ensures var n := LineEnd(s, 0);
      && LinePiece(s[..n])
      && (n < |s| ==> IsLineBreak(s[n - 1]) && (s[n - 1] == '\r' ==> s[n] != '\n'))
  {
  }

  /** `s.splitlines(True)`: the lines of `s`, each keeping its line break. */
  function SplitLines(s: string): (r: seq<string>)
    ensures Concat(r) == s
    ensures forall j :: 0 <= j < |r| ==> LinePiece(r[j])
    ensures forall j :: 0 <= j < |r| - 1 ==> LineBoundary(r[j], r[j + 1])
    decreases |s|
  {
    if s == [] then []
    else
      var n := LineEnd(s, 0);
      FirstLinePiece(s);
      assert s[..n] + s[n..] == s;
      var rest := SplitLines(s[n..]);
      assert rest != [] ==> rest[0][0] == s[n] by {
        if rest != [] {
          assert Concat(rest) == rest[0] + Concat(rest[1..]);
        }
      }
      [s[..n]] + rest
  }

  // ---------------------------------------------------------------- text with "\n" as its only break

  /** The position of the first "\n" of `s`. */
  function FirstNewline(s: string): (i: nat)
    requires '\n' in s
    ensures i < |s| && s[i] == '\n' && '\n' !in s[..i]
  {
    if s[0] == '\n' then 0
    else
      assert s == [s[0]] + s[1..];
      var i := 1 + FirstNewline(s[1..]);
      assert s[..i] == [s[0]] + s[1..][..i - 1];
      i
  }

  /** The first "\n" is the "\n" with none before it. */
  lemma {:induction false} FirstNewlineAt(s: string, k: nat)
    requires k < |s| && s[k] == '\n' && '\n' !in s[..k]
    ensures FirstNewline(s) == k
    decreases k
  {
    if k > 0 {
      assert s[0] == s[..k][0];
      assert s[1..][..k - 1] == s[1..k];
      forall c | c in s[1..k] ensures c in s[..k] {
      }
      FirstNewlineAt(s[1..], k - 1);
    }
  }

  lemma FirstNewlineAppend(a: string, b: string)
    ensures '\n' in a ==> '\n' in a + b && FirstNewline(a + b) == FirstNewline(a)
    ensures '\n' !in a && '\n' in b ==> FirstNewline(a + b) == |a| + FirstNewline(b)
  {
    if '\n' in a {
      var i := FirstNewline(a);
      assert (a + b)[..i] == a[..i];
      FirstNewlineAt(a + b, i);
    } else if '\n' in b {
      var j := FirstNewline(b);
      assert (a + b)[..|a| + j] == a + b[..j];
      FirstNewlineAt(a + b, |a| + j);
    }
  }

  lemma NewlineOnlyAppend(a: string, b: string)
    requires NewlineOnly(a) && NewlineOnly(b)
    ensures NewlineOnly(a + b)
  {
    forall i | 0 <= i < |a + b| && IsLineBreak((a + b)[i]) ensures (a + b)[i] == '\n' {
      if i >= |a| {
        assert (a + b)[i] == b[i - |a|];
      }
    }
  }

  lemma NewlineOnlySlice(s: string, i: nat, j: nat)
    requires NewlineOnly(s) && i <= j <= |s|
    ensures NewlineOnly(s[i..j])
  {
    forall k | 0 <= k < j - i && IsLineBreak(s[i..j][k]) ensures s[i..j][k] == '\n' {
      assert s[i..j][k] == s[i + k];
    }
  }

  /** In text whose only break is "\n", a line ends just after the first "\n". */
  lemma {:induction false} LineEndNewlineOnly(s: string, k: nat)
    requires NewlineOnly(s) && k <= |s|
    ensures '\n' in s[k..] ==> LineEnd(s, k) == k + FirstNewline(s[k..]) + 1
    ensures '\n' !in s[k..] ==> LineEnd(s, k) == |s|
    decreases |s| - k
  {
    if k < |s| {
      if s[k] != '\n' {
        assert !IsLineBreak(s[k]);
        LineEndNewlineOnly(s, k + 1);
        assert s[k..] == [s[k]] + s[k + 1..];
      }
    }
  }

  /** `splitlines(True)` of such text: the first line, then the lines of the rest. */
  lemma SplitFirstLine(s: string)
    requires NewlineOnly(s) && '\n' in s
    ensures var i := FirstNewline(s); SplitLines(s) == [s[..i + 1]] + SplitLines(s[i + 1..])
  {
    LineEndNewlineOnly(s, 0);
    assert s[0..] == s;
    assert s != [] && LineEnd(s, 0) == FirstNewline(s) + 1;
  }

  /** Such text without "\n" is a single piece. */
  lemma SplitNoNewline(s: string)
    requires NewlineOnly(s) && '\n' !in s && s != ""
    ensures SplitLines(s) == [s]
  {
    LineEndNewlineOnly(s, 0);
    assert s[0..] == s;
    assert s[..|s|] == s;
    assert s[|s|..] == "";
  }

  lemma {:induction false} ConcatNoNewline(parts: seq<string>)
    requires forall i :: 0 <= i < |parts| ==> '\n' !in parts[i]
    ensures '\n' !in Concat(parts)
    decreases |parts|
  {
    if parts != [] {
      ConcatNoNewline(parts[1..]);
    }
  }

  lemma {:induction false} ConcatNewlineOnly(parts: seq<string>)
    requires forall i :: 0 <= i < |parts| ==> NewlineOnly(parts[i])
    ensures NewlineOnly(Concat(parts))
    decreases |parts|
  {
    if parts != [] {
      ConcatNewlineOnly(parts[1..]);
      NewlineOnlyAppend(parts[0], Concat(parts[1..]));
    }
  }

  /** The first line of `a + b` when `a` holds no "\n": `a` and the first line of `b`. */
  lemma FirstLineAfter(a: string, b: string)
    requires '\n' !in a && '\n' in b
    ensures var j, k := FirstNewline(b), FirstNewline(a + b);
      && (a + b)[..k + 1] == a + b[..j + 1]
      && (a + b)[k + 1..] == b[j + 1..]
  {
    FirstNewlineAppend(a, b);
    var j := FirstNewline(b);
    assert (a + b)[..|a| + j + 1] == a + b[..j + 1];
  }

  lemma LineThenRest(prefix: string, text: string, i: nat)
    requires i < |text|
    ensures prefix + text[..i + 1] + text[i + 1..] == prefix + text
  {
    assert text[..i + 1] + text[i + 1..] == text;
  }
}
