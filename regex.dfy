/** Regular expressions as the renderers use them. The regex engine itself is not modelled:
    `search(regex, line)` stands for `re.search(regex, line)` being truthy. */
module Regex {
  import opened PyStr

  datatype Option<T> = None | Some(value: T)

  /** `re.search(regex, line)` for a non-empty `regex`; the engine is a parameter. */
  type Search = (string, string) -> bool

  /** `regex and re.search(regex, line)`: an empty pattern never matches. */
  predicate Matches(search: Search, regex: string, line: string) {
    regex != "" && search(regex, line)
  }

  /** The index of the first pattern of `regexes[from..]` that matches `line`. */
  function FirstMatchFrom(search: Search, regexes: seq<string>, line: string, from: nat): (r: Option<nat>)
    requires from <= |regexes|
    ensures r.Some? ==> from <= r.value < |regexes| && Matches(search, regexes[r.value], line)
    ensures r.Some? ==> forall j :: from <= j < r.value ==> !Matches(search, regexes[j], line)
    ensures r.None? ==> forall j :: from <= j < |regexes| ==> !Matches(search, regexes[j], line)
    decreases |regexes| - from
  {
    if from == |regexes| then None
    else if Matches(search, regexes[from], line) then Some(from)
    else FirstMatchFrom(search, regexes, line, from + 1)
  }

  /** `for i, regex in enumerate(regexes): if regex and re.search(regex, line): ...; break`:
      the first matching pattern wins. */
  function FirstMatch(search: Search, regexes: seq<string>, line: string): (r: Option<nat>)
    ensures r.Some? ==> r.value < |regexes| && Matches(search, regexes[r.value], line)
    ensures r.Some? ==> forall j :: 0 <= j < r.value ==> !Matches(search, regexes[j], line)
    ensures r.None? ==> forall j :: 0 <= j < |regexes| ==> !Matches(search, regexes[j], line)
  {
    FirstMatchFrom(search, regexes, line, 0)
  }

  /** `regex_join(*regexes)`: the non-empty patterns joined with the alternation "|". */
  function RegexJoin(regexes: seq<string>): (r: string)
    ensures r == "" <==> forall i :: 0 <= i < |regexes| ==> regexes[i] == ""
  {
    JoinEmpty("|", NonEmpty(regexes));
    Join("|", NonEmpty(regexes))
  }

  /** Joining an existing combined pattern with one more pattern, as `append_*_regex` do:
      an empty side is dropped, otherwise the two become alternatives. */
  lemma RegexJoinPair(a: string, b: string)
    ensures a == "" ==> RegexJoin([a, b]) == b
    ensures b == "" ==> RegexJoin([a, b]) == a
    ensures a != "" && b != "" ==> RegexJoin([a, b]) == a + "|" + b
  {
    assert [a, b][1..] == [b];
    assert [b][1..] == [];
    assert NonEmpty([b]) == if b == "" then [] else [b];
    assert NonEmpty([a, b]) == if a == "" then NonEmpty([b]) else [a] + NonEmpty([b]);
    assert Join("|", [a, b]) == a + "|" + Join("|", [b]);
  }

  /** `s.split(sep)` for a one-character separator. */
  function SplitAt(sep: char, s: string): (r: seq<string>)
    ensures |r| >= 1
    decreases |s|
  {
    if s == [] then [""]
    else
      var rest := SplitAt(sep, s[1..]);
      if s[0] == sep then [""] + rest else [[s[0]] + rest[0]] + rest[1..]
  }

  lemma {:induction false} SplitAtPlain(sep: char, a: string, t: string)
    requires sep !in a
    ensures SplitAt(sep, a + t) == [a + SplitAt(sep, t)[0]] + SplitAt(sep, t)[1..]
    decreases |a|
  {
    if a != [] {
      assert (a + t)[1..] == a[1..] + t;
      SplitAtPlain(sep, a[1..], t);
      assert [a[0]] + (a[1..] + SplitAt(sep, t)[0]) == a + SplitAt(sep, t)[0];
    } else {
      var r := SplitAt(sep, t);
      assert a + t == t;
      assert a + r[0] == r[0];
      assert [a + r[0]] + r[1..] == [r[0]] + r[1..] == r;
    }
  }

  lemma {:induction false} SplitJoin(sep: char, parts: seq<string>)
    requires |parts| >= 1
    requires forall i :: 0 <= i < |parts| ==> sep !in parts[i]
    ensures SplitAt(sep, Join([sep], parts)) == parts
    decreases |parts|
  {
    if |parts| == 1 {
      SplitAtPlain(sep, parts[0], "");
      assert SplitAt(sep, "") == [""];
      assert parts[0] + "" == parts[0];
      assert Join([sep], parts) == parts[0];
      assert parts == [parts[0]];
    } else {
      var tail := Join([sep], parts[1..]);
      SplitJoin(sep, parts[1..]);
      assert parts[0] + [sep] + tail == parts[0] + ([sep] + tail);
      assert Join([sep], parts) == parts[0] + [sep] + tail;
      SplitAtPlain(sep, parts[0], [sep] + tail);
      assert ([sep] + tail)[1..] == tail;
      assert SplitAt(sep, [sep] + tail) == [""] + SplitAt(sep, tail);
      assert parts[0] + "" == parts[0];
      assert parts == [parts[0]] + parts[1..];
    }
  }

  /** The combined pattern splits back, at "|", into exactly the non-empty patterns that were
      joined, provided none of them contains "|" itself. */
  lemma RegexJoinSplits(regexes: seq<string>)
    requires forall i :: 0 <= i < |regexes| ==> '|' !in regexes[i]
    requires exists i :: 0 <= i < |regexes| && regexes[i] != ""
    ensures SplitAt('|', RegexJoin(regexes)) == NonEmpty(regexes)
  {
    var parts := NonEmpty(regexes);
    assert parts != [];
    forall i | 0 <= i < |parts| ensures '|' !in parts[i] {
      assert parts[i] in regexes;
    }
    SplitJoin('|', parts);
  }
}
