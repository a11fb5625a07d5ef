/** Properties of the `Tee` renderer of ptee.py, stated about the state transitions of `TeeSpec`
    (which the class `TeeEngine.Tee` is proved to follow). */
module TeeProps {
  import opened PyStr
  import opened Regex
  import opened Status
  import opened TeeSpec

  // ---------------------------------------------------------------- status line

  /** What `keep_status` writes for a status `last`: one "\n" ending the line the status was
      drawn on, preceded by the status itself when stripping (it was never drawn). */
  function Kept(cfg: Config, last: string): string {
    if last == "" then "" else (if cfg.strip then last else "") + "\n"
  }

  /** Keeping the status writes one line end at most, clears the status, and keeping it again
      writes nothing more. */
  lemma KeepStatusOnce(cfg: Config, st: State)
    ensures KeepStatus(cfg, st) == st.(out := st.out + Kept(cfg, st.lastStatusLine), lastStatusLine := "")
    ensures KeepStatus(cfg, KeepStatus(cfg, st)) == KeepStatus(cfg, st)
  {
  }

  /** A line as `readline()` returns it: "\n" at most at its end. `readline()` cuts only at
      "\n", so unlike `LinePiece` this allows other line breaks inside the line. */
  predicate OneLine(line: string) {
    forall k :: 0 <= k < |line| - 1 ==> line[k] != '\n'
  }

  /** Right-stripping a line removes its "\n". */
  lemma RStripNoNewline(line: string)
    requires OneLine(line)
    ensures '\n' !in RStrip(line)
  {
    var r := RStrip(line);
    forall k | 0 <= k < |r| ensures r[k] != '\n' {
      assert r[k] == line[k];
      if k == |line| - 1 {
        assert r == line;
      }
    }
  }

  /** Redrawing a status without "\n" writes no "\n". */
  lemma RedrawNoNewline(previous: string, status: string)
    requires '\n' !in status
    ensures '\n' !in Redraw(previous, status)
  {
    var r := Redraw(previous, status);
    forall k | 0 <= k < |r| ensures r[k] != '\n' {
      if k < |status| {
        assert r[k] == r[..|status|][k];
      }
    }
  }

  /** `write_status` draws the right-stripped status padded over the previous one and never
      ends the line: what it writes holds no "\n". */
  lemma WriteStatusStaysOnLine(cfg: Config, st: State, line: string)
    requires OneLine(line)
    ensures var r := WriteStatus(cfg, st, line);
      && r.lastStatusLine == RStrip(line)
      && '\n' !in r.out[|st.out|..]
  {
    RStripNoNewline(line);
    RedrawNoNewline(st.lastStatusLine, RStrip(line));
    var r := WriteStatus(cfg, st, line);
    if !cfg.strip {
      assert r.out[|st.out|..] == Redraw(st.lastStatusLine, RStrip(line));
    } else {
      assert r.out[|st.out|..] == "";
    }
  }

  // ---------------------------------------------------------------- classification

  /** A heading takes precedence over the status pattern: whatever that pattern is, the heading
      is drawn as a status and kept at once, so it stays on screen followed by a line end and no
      status is pending afterwards. */
  lemma HeadingPrecedence(cfg: Config, st: State, line: string, otherRegex: string)
    requires Matches(cfg.search, cfg.headingRegex, line)
    ensures PutLine(cfg.(regex := otherRegex), st, line) == PutLine(cfg, st, line)
    ensures var r := PutLine(cfg, st, line);
      && r.lastStatusLine == ""
      && r.out == st.out + (if cfg.strip then "" else Redraw(st.lastStatusLine, RStrip(line)))
                         + Kept(cfg, RStrip(line))
  {
  }

  /** A status line only redraws the status: what it writes stays on the current line. */
  lemma StatusLine(cfg: Config, st: State, line: string)
    requires OneLine(line)
    requires !Matches(cfg.search, cfg.headingRegex, line) && Matches(cfg.search, cfg.regex, line)
    ensures var r := PutLine(cfg, st, line);
      && r.lastStatusLine == RStrip(line)
      && r.out[..|st.out|] == st.out && '\n' !in r.out[|st.out|..]
  {
    var copied := st.(dittoFiles := Ditto(st.dittoFiles, line));
    WriteStatusStaysOnLine(cfg, copied, line);
  }

  /** A regular line first keeps the pending status, then is written verbatim. */
  lemma RegularLine(cfg: Config, st: State, line: string)
    requires !Matches(cfg.search, cfg.headingRegex, line) && !Matches(cfg.search, cfg.regex, line)
    ensures var r := PutLine(cfg, st, line);
      r.lastStatusLine == "" && r.out == st.out + Kept(cfg, st.lastStatusLine) + line
  {
  }

  // ---------------------------------------------------------------- ditto files

  /** Copying `a` and then `b` to every file is copying `a + b`. */
  lemma DittoAppend(files: seq<string>, a: string, b: string)
    ensures Ditto(Ditto(files, a), b) == Ditto(files, a + b)
  {
    forall i | 0 <= i < |files| ensures Ditto(Ditto(files, a), b)[i] == Ditto(files, a + b)[i] {
      assert files[i] + a + b == files[i] + (a + b);
    }
  }

  lemma DittoNothing(files: seq<string>)
    ensures Ditto(files, "") == files
  {
    forall i | 0 <= i < |files| ensures Ditto(files, "")[i] == files[i] {
      assert files[i] + "" == files[i];
    }
  }

  /** `put_line` copies the line to every ditto file whichever way it is displayed, and closes
      none. */
  lemma PutLineDitto(cfg: Config, st: State, line: string)
    ensures PutLine(cfg, st, line).dittoFiles == Ditto(st.dittoFiles, line)
    ensures PutLine(cfg, st, line).closedFiles == st.closedFiles
  {
  }

  /** Every open ditto file receives every line unchanged: after a run of lines each holds its
      former contents followed by all of them. */
  lemma {:induction false} PutLinesDitto(cfg: Config, st: State, lines: seq<string>)
    ensures PutLines(cfg, st, lines).dittoFiles == Ditto(st.dittoFiles, Concat(lines))
    ensures PutLines(cfg, st, lines).closedFiles == st.closedFiles
    decreases |lines|
  {
    if lines == [] {
      DittoNothing(st.dittoFiles);
    } else {
      var init, last := lines[..|lines| - 1], lines[|lines| - 1];
      PutLinesDitto(cfg, st, init);
      PutLineDitto(cfg, PutLines(cfg, st, init), last);
      DittoAppend(st.dittoFiles, Concat(init), last);
      ConcatLast(lines);
    }
  }

  // ---------------------------------------------------------------- flush and close

  /** `flush()` erases a drawn status with spaces and "\r", and leaves no status pending. */
  lemma FlushErases(cfg: Config, st: State)
    ensures Flush(cfg, st)
         == st.(out := st.out + (if cfg.strip then "" else Erasure(st.lastStatusLine)), lastStatusLine := "")
  {
    RedrawEmptyErases(st.lastStatusLine);
    assert RStrip("") == "";
  }

  /** `close()` erases the status and closes every ditto file, the last added first, leaving
      none open. */
  lemma CloseEmpties(cfg: Config, st: State)
    ensures var r := Close(cfg, st);
      && r.lastStatusLine == "" && r.dittoFiles == []
      && r.out == st.out + (if cfg.strip then "" else Erasure(st.lastStatusLine))
      && r.closedFiles == st.closedFiles + Reverse(st.dittoFiles)
  {
    FlushErases(cfg, st);
  }

  // ---------------------------------------------------------------- runs of lines

  /** With no status pending and no line matching either pattern, `Tee` is a plain `tee`: the
      output gains exactly the input. */
  lemma {:induction false} PassThrough(cfg: Config, st: State, lines: seq<string>)
    requires st.lastStatusLine == ""
    requires forall i :: 0 <= i < |lines| ==>
      !Matches(cfg.search, cfg.headingRegex, lines[i]) && !Matches(cfg.search, cfg.regex, lines[i])
    ensures var r := PutLines(cfg, st, lines);
      r.lastStatusLine == "" && r.out == st.out + Concat(lines)
    decreases |lines|
  {
    if lines != [] {
      PassThrough(cfg, st, lines[..|lines| - 1]);
      ConcatLast(lines);
    }
  }

  /** When stripping, a run of status lines writes nothing: only the last of them is pending. */
  lemma {:induction false} StripStatusRun(cfg: Config, st: State, lines: seq<string>)
    requires cfg.strip && lines != []
    requires forall i :: 0 <= i < |lines| ==>
      !Matches(cfg.search, cfg.headingRegex, lines[i]) && Matches(cfg.search, cfg.regex, lines[i])
    ensures var r := PutLines(cfg, st, lines);
      r.out == st.out && r.lastStatusLine == RStrip(lines[|lines| - 1])
    decreases |lines|
  {
    if |lines| > 1 {
      StripStatusRun(cfg, st, lines[..|lines| - 1]);
    }
  }

  // ---------------------------------------------------------------- drain

  lemma {:induction false} LinesBeforeEmpty(lines: seq<string>, rest: seq<string>)
    requires forall i :: 0 <= i < |lines| ==> lines[i] != ""
    ensures LinesBeforeEnd(lines + [""] + rest) == |lines|
    ensures LinesBeforeEnd(lines) == |lines|
    decreases |lines|
  {
    if lines != [] {
      LinesBeforeEmpty(lines[1..], rest);
      assert (lines + [""] + rest)[1..] == lines[1..] + [""] + rest;
    }
  }

  /** `drain` puts every line up to the end of the input, which is the first empty read: what
      follows it is never read. */
  lemma DrainStopsAtEnd(cfg: Config, st: State, lines: seq<string>, rest: seq<string>)
    requires forall i :: 0 <= i < |lines| ==> lines[i] != ""
    ensures Drain(cfg, st, lines + [""] + rest) == PutLines(cfg, st, lines)
    ensures Drain(cfg, st, lines) == PutLines(cfg, st, lines)
  {
    LinesBeforeEmpty(lines, rest);
    assert (lines + [""] + rest)[..|lines|] == lines;
    assert lines[..|lines|] == lines;
  }

  /** Draining input that ends after `lines` and then closing: the lines are put, and the
      status left pending is erased. */
  lemma DrainClose(cfg: Config, st: State, lines: seq<string>, rest: seq<string>)
    requires forall i :: 0 <= i < |lines| ==> lines[i] != ""
    ensures var r := PutLines(cfg, st, lines);
      Close(cfg, Drain(cfg, st, lines + [""] + rest)).out
        == r.out + (if cfg.strip then "" else Erasure(r.lastStatusLine))
  {
    DrainStopsAtEnd(cfg, st, lines, rest);
    CloseEmpties(cfg, PutLines(cfg, st, lines));
  }

  // ---------------------------------------------------------------- the tests' scenarios

  /** A line whose text ends in a non-space, right-stripped, loses exactly its "\n". */
  lemma RStripLine(text: string)
    requires Stripped(text)
    ensures RStrip(text + "\n") == text
  {
    assert (text + "\n")[..|text|] == text;
  }

  /** A status line at least as long as the previous status, when not stripping, is drawn as
      itself followed by "\r". */
  lemma StatusStep(cfg: Config, st: State, text: string)
    requires !cfg.strip && Stripped(text)
    requires !Matches(cfg.search, cfg.headingRegex, text + "\n") && Matches(cfg.search, cfg.regex, text + "\n")
    requires |st.lastStatusLine| <= |text|
    ensures PutLine(cfg, st, text + "\n").out == st.out + text + "\r"
    ensures PutLine(cfg, st, text + "\n").lastStatusLine == text
  {
    RStripLine(text);
    assert LJust(text, |st.lastStatusLine|) == text;
  }

  /** A status text as the tests write it: non-empty, ending in a non-space. */
  predicate Stripped(text: string) {
    text != [] && !IsSpace(text[|text| - 1])
  }

  /** A last status line, then `close()`: it is drawn, then erased with spaces. */
  lemma StatusThenClose(cfg: Config, st: State, text: string)
    requires !cfg.strip && Stripped(text) && |st.lastStatusLine| <= |text|
    requires !Matches(cfg.search, cfg.headingRegex, text + "\n") && Matches(cfg.search, cfg.regex, text + "\n")
    ensures Close(cfg, PutLine(cfg, st, text + "\n")).out == st.out + text + "\r" + Spaces(|text|) + "\r"
  {
    var r := PutLine(cfg, st, text + "\n");
    StatusStep(cfg, st, text);
    CloseEmpties(cfg, r);
    assert Close(cfg, r).out == r.out + (Spaces(|text|) + "\r");
  }

  /** Two status lines, then `close()`, as in the test "just status": the second status is
      drawn over the first, and closing erases it with spaces. */
  lemma TwoStatuses(cfg: Config, a: string, b: string)
    requires !cfg.strip && Stripped(a) && Stripped(b) && |a| <= |b|
    requires !Matches(cfg.search, cfg.headingRegex, a + "\n") && Matches(cfg.search, cfg.regex, a + "\n")
    requires !Matches(cfg.search, cfg.headingRegex, b + "\n") && Matches(cfg.search, cfg.regex, b + "\n")
    ensures Close(cfg, PutLine(cfg, PutLine(cfg, Initial(), a + "\n"), b + "\n")).out
         == a + "\r" + b + "\r" + Spaces(|b|) + "\r"
  {
    var one := PutLine(cfg, Initial(), a + "\n");
    StatusStep(cfg, Initial(), a);
    assert one.out == a + "\r";
    StatusThenClose(cfg, one, b);
  }

  /** A heading at least as long as the previous status, when not stripping, is drawn as
      itself and kept: it is followed by "\r\n". */
  lemma HeadingStep(cfg: Config, st: State, text: string)
    requires !cfg.strip && Stripped(text)
    requires Matches(cfg.search, cfg.headingRegex, text + "\n")
    requires |st.lastStatusLine| <= |text|
    ensures PutLine(cfg, st, text + "\n").out == st.out + text + "\r\n"
    ensures PutLine(cfg, st, text + "\n").lastStatusLine == ""
  {
    RStripLine(text);
    assert LJust(text, |st.lastStatusLine|) == text;
  }

  /** A heading, a status line and a regular line, then `close()`, as in the test "heading":
      the heading and the status are each kept on their own line before the regular line is
      written, and closing then has nothing to erase. */
  lemma HeadingStatusLine(cfg: Config, h: string, s: string, line: string)
    requires !cfg.strip && Stripped(h) && Stripped(s)
    requires Matches(cfg.search, cfg.headingRegex, h + "\n")
    requires !Matches(cfg.search, cfg.headingRegex, s + "\n") && Matches(cfg.search, cfg.regex, s + "\n")
    requires !Matches(cfg.search, cfg.headingRegex, line) && !Matches(cfg.search, cfg.regex, line)
    ensures Close(cfg, PutLine(cfg, PutLine(cfg, PutLine(cfg, Initial(), h + "\n"), s + "\n"), line)).out
         == h + "\r\n" + s + "\r" + "\n" + line
  {
    var one := PutLine(cfg, Initial(), h + "\n");
    HeadingStep(cfg, Initial(), h);
    assert one.out == h + "\r\n";
    var two := PutLine(cfg, one, s + "\n");
    StatusStep(cfg, one, s);
    var three := PutLine(cfg, two, line);
    RegularLine(cfg, two, line);
    assert three.out == two.out + "\n" + line;
    CloseEmpties(cfg, three);
    assert Close(cfg, three).out == three.out;
  }
}
