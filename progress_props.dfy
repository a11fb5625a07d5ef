/** Properties of the `Progress` renderer of src/ptee.py, stated about the state transitions of
    `ProgressSpec` (which the class `ProgressEngine.Progress` is proved to follow). */
module ProgressProps {
  import opened PyStr
  import opened Regex
  import opened Status
  import opened ProgressSpec

  // ---------------------------------------------------------------- status line

  /** Erasing twice writes no more than erasing once. */
  lemma EraseIdempotent(st: State)
    ensures EraseStatus(EraseStatus(st)) == EraseStatus(st)
    ensures EraseStatus(EraseStatus(st)).out == st.out + Erasure(st.lastStatus)
  {
  }

  // ---------------------------------------------------------------- classification

  /** A heading clears the context before the level rules are consulted: afterwards the stack
      holds at most the heading itself (at its level, on blank levels), and a heading that is
      no level is written without showing the context it discarded. */
  lemma HeadingClearsContext(cfg: Config, st: State, line: string)
    requires Matches(cfg.search, cfg.headingRegex, line)
    ensures var r := WriteCompleteLine(cfg, st, line);
      match FirstMatch(cfg.search, cfg.levelRegexes, line)
      case Some(level) =>
        r.contextLines == Blanks(level) + [line] && r.displayLevel == 0
      case None =>
        r.contextLines == [] && r.displayLevel == 0 && r.lastStatus == ""
        && r.out == st.out + Erasure(st.lastStatus) + line
  {
    var cleared := ClearContext(st);
    match FirstMatch(cfg.search, cfg.levelRegexes, line)
    case Some(level) =>
      var r := SetContext(cfg, cleared, level, line);
      assert r.contextLines == Blanks(level) + [line];
    case None =>
      assert Unshown(cleared) == [];
  }

  /** A complete line that is neither a heading nor a level is REGULAR: the context not yet
      shown is written, then the line itself, verbatim; the stack is kept. */
  lemma RegularLine(cfg: Config, st: State, line: string)
    requires !Matches(cfg.search, cfg.headingRegex, line)
    requires FirstMatch(cfg.search, cfg.levelRegexes, line).None?
    ensures var r := WriteCompleteLine(cfg, st, line);
      && r.out == st.out + Erasure(st.lastStatus) + Concat(Unshown(st)) + line
      && r.contextLines == st.contextLines
      && r.displayLevel == |st.contextLines| && r.lastStatus == ""
  {
  }

  /** A line without "\n", or any line while a partial line is in progress, is written in
      context without being classified or counted; the partial-line flag then says whether the
      line lacked its "\n". */
  lemma PartialLineUnclassified(cfg: Config, st: State, line: string)
    requires st.withinPartialLine || !EndsWithNewline(line)
    ensures var r := WriteLine(cfg, st, line);
      && r.out == st.out + Erasure(st.lastStatus) + Concat(Unshown(st)) + line
      && r.contextLines == st.contextLines && r.linesToSkip == st.linesToSkip
      && r.withinPartialLine == !EndsWithNewline(line)
  {
  }

  /** The skip counter is consulted before the heading rule: a complete line that is skipped
      leaves the stack, the display level, the status and the output alone even when it is a
      heading. */
  lemma SkipBeforeHeading(cfg: Config, st: State, line: string)
    requires EndsWithNewline(line) && !st.withinPartialLine
    requires st.linesToSkip > 0 || (st.linesToSkip == 0 && SkipCount(cfg, line) > 0)
    ensures var r := WriteLine(cfg, st, line);
      && r.contextLines == st.contextLines && r.displayLevel == st.displayLevel
      && r.lastStatus == st.lastStatus && r.out == st.out
  {
  }

  // ---------------------------------------------------------------- skip counter

  /** Running the loop of `_write_text_parts` over `a + b` is running it over `a`, then `b`. */
  lemma {:induction false} ProcessPiecesAppend(cfg: Config, st: State, a: seq<string>, b: seq<string>, flush: bool)
    ensures ProcessPieces(cfg, st, a + b, flush)
         == ProcessPieces(cfg, ProcessPieces(cfg, st, a, flush), b, flush)
    decreases |b|
  {
    if b == [] {
      assert a + b == a;
    } else {
      ProcessPiecesAppend(cfg, st, a, b[..|b| - 1], flush);
      assert (a + b)[..|a + b| - 1] == a + b[..|b| - 1];
    }
  }

  lemma ProcessPiecesCons(cfg: Config, st: State, piece: string, rest: seq<string>, flush: bool)
    ensures ProcessPieces(cfg, st, [piece] + rest, flush)
         == ProcessPieces(cfg, ProcessPiece(cfg, st, piece, flush), rest, flush)
  {
    ProcessPiecesAppend(cfg, st, [piece], rest, flush);
    assert [piece][..0] == [];
  }

  /** While the counter is at least the number of complete lines, each of them only counts
      down. */
  lemma {:induction false} SkipDown(cfg: Config, st: State, lines: seq<string>, flush: bool)
    requires !st.withinPartialLine
    requires forall i :: 0 <= i < |lines| ==> EndsWithNewline(lines[i])
    requires |lines| <= st.linesToSkip
    ensures ProcessPieces(cfg, st, lines, flush) == st.(linesToSkip := st.linesToSkip - |lines|)
    decreases |lines|
  {
    if lines != [] {
      SkipDown(cfg, st, lines[..|lines| - 1], flush);
    }
  }

  /** A skip rule with count `c` that matches a complete line while the counter is 0 swallows
      exactly that line and the `c - 1` complete lines after it: the state, output included,
      is as if they had never arrived. */
  lemma SkipRun(cfg: Config, st: State, lines: seq<string>, flush: bool)
    requires !st.withinPartialLine && st.linesToSkip == 0
    requires forall i :: 0 <= i < |lines| ==> EndsWithNewline(lines[i])
    requires |lines| >= 1 && SkipCount(cfg, lines[0]) == |lines|
    ensures ProcessPieces(cfg, st, lines, flush) == st
  {
    ProcessPiecesCons(cfg, st, lines[0], lines[1..], flush);
    var counting := st.(linesToSkip := |lines| - 1);
    assert EndsWithNewline(lines[0]);
    assert WriteLine(cfg, st, lines[0]) == counting;
    assert ProcessPiece(cfg, st, lines[0], flush) == counting;
    assert [lines[0]] + lines[1..] == lines;
    SkipDown(cfg, counting, lines[1..], flush);
    assert counting.(linesToSkip := 0) == st;
  }

  // ---------------------------------------------------------------- invariant

  lemma WriteLineValid(cfg: Config, st: State, line: string)
    requires ValidConfig(cfg) && Valid(st)
    requires !EndsWithNewline(line) ==> st.textParts == []
    ensures Valid(WriteLine(cfg, st, line))
  {
  }

  /** The loop of `_write_text_parts` keeps the invariant; when flushing it keeps nothing back. */
  lemma {:induction false} ProcessPiecesValid(cfg: Config, st: State, pieces: seq<string>, flush: bool)
    requires ValidConfig(cfg) && Valid(st)
    requires forall i :: 0 <= i < |pieces| ==> LinePiece(pieces[i])
    requires flush ==> st.textParts == []
    ensures Valid(ProcessPieces(cfg, st, pieces, flush))
    ensures flush ==> ProcessPieces(cfg, st, pieces, flush).textParts == []
    decreases |pieces|
  {
    if pieces != [] {
      var before := ProcessPieces(cfg, st, pieces[..|pieces| - 1], flush);
      ProcessPiecesValid(cfg, st, pieces[..|pieces| - 1], flush);
      var p := pieces[|pieces| - 1];
      assert LinePiece(p);
      if flush || before.withinPartialLine || EndsWithNewline(p) {
        WriteLineValid(cfg, before, p);
      } else {
        assert '\n' !in p;
      }
    }
  }

  lemma WriteTextPartsValid(cfg: Config, st: State, flush: bool)
    requires ValidConfig(cfg) && Valid(st.(textParts := []))
    ensures Valid(WriteTextParts(cfg, st, flush))
    ensures flush ==> WriteTextParts(cfg, st, flush).textParts == []
  {
    if st.textParts != [] {
      var pieces := SplitLines(Concat(st.textParts));
      ProcessPiecesValid(cfg, st.(textParts := []), pieces, flush);
    }
  }

  /** `write` keeps the invariant: the counter never goes negative, the display level stays
      within the stack, buffered pieces hold no "\n", and a partial line buffers nothing. */
  lemma WriteValid(cfg: Config, st: State, text: string)
    requires ValidConfig(cfg) && Valid(st)
    ensures Valid(Write(cfg, st, text))
  {
    if text != "" {
      var appended := st.(textParts := st.textParts + [text]);
      if st.withinPartialLine || '\n' in text {
        WriteTextPartsValid(cfg, appended, false);
      }
    }
  }

  /** `close()` keeps the invariant and leaves no buffered text and no status behind. */
  lemma CloseValid(cfg: Config, st: State)
    requires ValidConfig(cfg) && Valid(st)
    ensures Valid(Close(cfg, st))
    ensures Close(cfg, st).textParts == [] && Close(cfg, st).lastStatus == ""
  {
    WriteTextPartsValid(cfg, st, true);
  }

  /** The loop of `_write_text_parts` with `flush` set never buffers a piece. */
  lemma {:induction false} FlushKeepsParts(cfg: Config, st: State, pieces: seq<string>)
    ensures ProcessPieces(cfg, st, pieces, true).textParts == st.textParts
    decreases |pieces|
  {
    if pieces != [] {
      FlushKeepsParts(cfg, st, pieces[..|pieces| - 1]);
    }
  }

  /** After `close()` nothing is buffered and no status is drawn, from any state. */
  lemma CloseEmpties(cfg: Config, st: State)
    ensures Close(cfg, st).textParts == [] && Close(cfg, st).lastStatus == ""
  {
    if st.textParts != [] {
      FlushKeepsParts(cfg, st.(textParts := []), SplitLines(Concat(st.textParts)));
    }
  }
}
