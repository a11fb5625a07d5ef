/** How `Progress.write` reassembles lines, for text whose only line break is "\n": however the
    input is cut into chunks, the renderer ends up in the same state and, after `close()`,
    has written the same output. With no rule matching any line, that output is the input. */
module ProgressChunks {
  import opened PyStr
  import opened Regex
  import opened Status
  import opened ProgressSpec
  import opened ProgressProps
  import opened Reassembly

  // ---------------------------------------------------------------- the renderer's steps

  /** A complete line goes to `_write_line`. */
  function Writer(cfg: Config): Emit {
    (st: State, line: string) => WriteLine(cfg, st, line)
  }

  /** Text within a partial line goes to `_write_in_context`. */
  function InContext(): Emit {
    (st: State, text: string) => WriteInContext(st, text)
  }

  /** Writing in context twice is writing the concatenation once. */
  lemma WriteInContextTwice(st: State, a: string, b: string)
    ensures WriteInContext(WriteInContext(st, a), b) == WriteInContext(st, a + b)
  {
    var once := WriteInContext(st, a);
    assert Unshown(once) == [];
    assert Erasure(once.lastStatus) == "";
    assert once.out + "" + Concat([]) + b == st.out + Erasure(st.lastStatus) + Concat(Unshown(st)) + (a + b);
  }

  lemma InContextWriter()
    ensures ContextWriter(InContext())
  {
    forall s: State, a: string, b: string
      ensures InContext()(InContext()(s, a), b) == InContext()(s, a + b)
    {
      WriteInContextTwice(s, a, b);
    }
  }

  lemma WriterKeepsParts(cfg: Config)
    ensures KeepsParts(Writer(cfg))
  {
    forall s: State, x: string ensures Writer(cfg)(s, x).textParts == s.textParts {
      assert Writer(cfg)(s, x) == WriteLine(cfg, s, x);
    }
  }

  /** A complete line, with nothing buffered, is one step of the reassembly. */
  lemma PieceCompletes(cfg: Config, st: State, line: string)
    requires st.textParts == [] && EndsWithNewline(line)
    ensures ProcessPiece(cfg, st, line, false) == CompleteLine(Writer(cfg), InContext(), st, line)
  {
    assert st.(textParts := []) == st;
    assert Concat(st.textParts) + line == line;
  }

  /** The text after the last "\n", with nothing buffered, is held. */
  lemma PieceHeld(cfg: Config, st: State, text: string)
    requires st.textParts == [] && text != "" && '\n' !in text
    ensures Norm(ProcessPiece(cfg, st, text, false)) == Hold(InContext(), st, text)
  {
    assert text[|text| - 1] in text;
    assert st.(textParts := []) == st;
    if st.withinPartialLine {
      var r := WriteInContext(st, text);
      assert r.withinPartialLine && r.textParts == [];
      assert ProcessPiece(cfg, st, text, false) == r;
    } else {
      ConcatOne(text);
      assert !EndsWithNewline(text);
      assert Concat(st.textParts) + text == text;
      assert st.textParts + [text] == [text];
    }
  }

  /** The loop of `_write_text_parts` over the lines of `text`, started with nothing buffered,
      reassembles `text`. */
  lemma {:induction false} ProcessLinesReassemble(cfg: Config, st: State, text: string)
    requires st.textParts == [] && NewlineOnly(text)
    ensures Norm(ProcessPieces(cfg, st, SplitLines(text), false)) == Reassemble(Writer(cfg), InContext(), st, text)
    decreases |text|
  {
    if text != "" {
      if '\n' !in text {
        LastLine(cfg, st, text);
      } else {
        var i := FirstNewline(text);
        var next := ProcessPiece(cfg, st, text[..i + 1], false);
        FirstLineProcessed(cfg, st, text);
        ProcessLinesReassemble(cfg, next, text[i + 1..]);
        ReassembleStep(Writer(cfg), InContext(), st, text);
      }
    }
  }

  lemma LastLine(cfg: Config, st: State, text: string)
    requires st.textParts == [] && NewlineOnly(text) && text != "" && '\n' !in text
    ensures Norm(ProcessPieces(cfg, st, SplitLines(text), false)) == Reassemble(Writer(cfg), InContext(), st, text)
  {
    SplitNoNewline(text);
    ProcessPiecesCons(cfg, st, text, [], false);
    assert [text] + [] == [text];
    PieceHeld(cfg, st, text);
  }

  lemma FirstLineProcessed(cfg: Config, st: State, text: string)
    requires st.textParts == [] && NewlineOnly(text) && '\n' in text
    ensures var i := FirstNewline(text);
      var next := ProcessPiece(cfg, st, text[..i + 1], false);
      && ProcessPieces(cfg, st, SplitLines(text), false) == ProcessPieces(cfg, next, SplitLines(text[i + 1..]), false)
      && next == CompleteLine(Writer(cfg), InContext(), st, text[..i + 1])
      && next.textParts == [] && NewlineOnly(text[i + 1..])
  {
    var i := FirstNewline(text);
    var line, rest := text[..i + 1], text[i + 1..];
    SplitFirstLine(text);
    ProcessPiecesCons(cfg, st, line, SplitLines(rest), false);
    PieceCompletes(cfg, st, line);
    NewlineOnlySlice(text, i + 1, |text|);
  }

  /** `write(text)` reassembles `text`. */
  lemma WriteReassembles(cfg: Config, st: State, text: string)
    requires Valid(st) && Plain(st) && NewlineOnly(text)
    ensures Norm(Write(cfg, st, text)) == Reassemble(Writer(cfg), InContext(), st, text)
  {
    if text != "" {
      var pending := Concat(st.textParts);
      ConcatSnoc(st.textParts, text);
      if st.withinPartialLine || '\n' in text {
        var start := st.(textParts := []);
        NewlineOnlyAppend(pending, text);
        ProcessLinesReassemble(cfg, start, pending + text);
        assert Norm(Write(cfg, st, text)) == Reassemble(Writer(cfg), InContext(), start, pending + text);
        if st.withinPartialLine {
          assert start == st && pending + text == text;
        } else {
          ConcatNoNewline(st.textParts);
          ReassembleBuffered(Writer(cfg), InContext(), st, text);
        }
      } else {
        ConcatOne(pending + text);
      }
    }
  }

  // ---------------------------------------------------------------- chunking

  /** A sequence of `write` calls, one per chunk. */
  function WriteAll(cfg: Config, st: State, chunks: seq<string>): State
    decreases |chunks|
  {
    if chunks == [] then st else WriteAll(cfg, Write(cfg, st, chunks[0]), chunks[1..])
  }

  lemma {:induction false} WriteAllReassembles(cfg: Config, st: State, chunks: seq<string>)
    requires ValidConfig(cfg) && Valid(st) && Plain(st)
    requires forall i :: 0 <= i < |chunks| ==> NewlineOnly(chunks[i])
    ensures Norm(WriteAll(cfg, st, chunks)) == Reassemble(Writer(cfg), InContext(), st, Concat(chunks))
    decreases |chunks|
  {
    if chunks != [] {
      var c := chunks[0];
      var next := Write(cfg, st, c);
      WriteValid(cfg, st, c);
      WriteReassembles(cfg, st, c);
      WriterKeepsParts(cfg);
      InContextWriter();
      ReassemblePlain(Writer(cfg), InContext(), st, c);
      assert Plain(next);
      WriteAllReassembles(cfg, next, chunks[1..]);
      ReassembleNorm(Writer(cfg), InContext(), next, Concat(chunks[1..]));
      InContextWriter();
      ReassembleAppend(Writer(cfg), InContext(), st, c, Concat(chunks[1..]));
    }
  }

  /** `flush()` and `close()` see only the concatenation of the buffered pieces. */
  lemma CloseNorm(cfg: Config, st: State)
    ensures Close(cfg, Norm(st)) == Close(cfg, st)
  {
  }

  /** Cutting the input into chunks changes nothing: the state after the writes agrees with the
      state after writing it all at once (up to how the buffered text is split into pieces),
      and `close()` then leaves the same state and the same output. */
  lemma ChunkingInvisible(cfg: Config, st: State, chunks: seq<string>)
    requires ValidConfig(cfg) && Valid(st) && Plain(st)
    requires forall i :: 0 <= i < |chunks| ==> NewlineOnly(chunks[i])
    ensures Norm(WriteAll(cfg, st, chunks)) == Norm(Write(cfg, st, Concat(chunks)))
    ensures Close(cfg, WriteAll(cfg, st, chunks)) == Close(cfg, Write(cfg, st, Concat(chunks)))
  {
    WriteAllReassembles(cfg, st, chunks);
    ConcatNewlineOnly(chunks);
    WriteReassembles(cfg, st, Concat(chunks));
    CloseNorm(cfg, WriteAll(cfg, st, chunks));
    CloseNorm(cfg, Write(cfg, st, Concat(chunks)));
  }

  // ---------------------------------------------------------------- pass-through

  /** No skip, heading or level rule matches `line`. */
  predicate Transparent(cfg: Config, line: string) {
    && SkipCount(cfg, line) == 0
    && !Matches(cfg.search, cfg.headingRegex, line)
    && FirstMatch(cfg.search, cfg.levelRegexes, line).None?
  }

  /** No rule of the configuration matches any line. */
  ghost predicate Silent(cfg: Config) {
    forall line :: Transparent(cfg, line)
  }

  /** A configuration without any non-empty pattern is silent. */
  lemma NoRulesSilent(cfg: Config)
    requires cfg.headingRegex == "" && cfg.skipRules == []
    requires forall i :: 0 <= i < |cfg.levelRegexes| ==> cfg.levelRegexes[i] == ""
    ensures Silent(cfg)
  {
    forall line ensures Transparent(cfg, line) {
      assert SkipRegexes(cfg.skipRules) == [];
    }
  }

  /** With no rule matching `line`, the line is written as it is. */
  lemma WriteLineSilent(cfg: Config, st: State, line: string)
    requires Transparent(cfg, line) && Quiet(st)
    ensures Quiet(WriteLine(cfg, st, line))
    ensures WriteLine(cfg, st, line).out == st.out + line
  {
    assert Unshown(st) == [];
  }

  /** With a silent configuration, `_write_line` and `_write_in_context` pass text through. */
  lemma SilentPassesThrough(cfg: Config)
    requires Silent(cfg)
    ensures PassingThrough(Writer(cfg), InContext())
  {
    WriterKeepsParts(cfg);
    InContextWriter();
    forall s: State, line: string | Quiet(s) && !s.withinPartialLine && EndsWithNewline(line)
      ensures Quiet(Writer(cfg)(s, line)) && !Writer(cfg)(s, line).withinPartialLine
      ensures Writer(cfg)(s, line).out == s.out + line
    {
      assert Transparent(cfg, line);
      WriteLineSilent(cfg, s, line);
    }
    forall s: State, x: string | Quiet(s)
      ensures Quiet(InContext()(s, x)) && InContext()(s, x).out == s.out + x
    {
      assert Unshown(s) == [];
    }
  }

  /** With a silent configuration, flushing writes every piece as it is. */
  lemma {:induction false} FlushSilent(cfg: Config, st: State, pieces: seq<string>)
    requires Silent(cfg) && Quiet(st)
    ensures Quiet(ProcessPieces(cfg, st, pieces, true))
    ensures ProcessPieces(cfg, st, pieces, true).out == st.out + Concat(pieces)
    decreases |pieces|
  {
    if pieces != [] {
      var init := pieces[..|pieces| - 1];
      var last := pieces[|pieces| - 1];
      FlushSilent(cfg, st, init);
      var before := ProcessPieces(cfg, st, init, true);
      assert Transparent(cfg, last);
      WriteLineSilent(cfg, before, last);
      assert ProcessPieces(cfg, st, pieces, true) == WriteLine(cfg, before, last);
      ConcatSnoc(init, last);
      assert init + [last] == pieces;
    }
  }

  lemma CloseSilent(cfg: Config, st: State)
    requires Silent(cfg) && Quiet(st)
    ensures Close(cfg, st).out == st.out + Concat(st.textParts)
  {
    if st.textParts != [] {
      FlushSilent(cfg, st.(textParts := []), SplitLines(Concat(st.textParts)));
    }
  }

  /** When no rule matches any line and skip counts are positive, `ptee` passes text whose
      only line break is "\n" through unchanged, however it arrives in chunks. */
  lemma PassThrough(cfg: Config, chunks: seq<string>)
    requires ValidConfig(cfg) && Silent(cfg)
    requires forall i :: 0 <= i < |chunks| ==> NewlineOnly(chunks[i])
    ensures Close(cfg, WriteAll(cfg, Initial(), chunks)).out == Concat(chunks)
  {
    var text := Concat(chunks);
    ChunkingInvisible(cfg, Initial(), chunks);
    ConcatNewlineOnly(chunks);
    WriteReassembles(cfg, Initial(), text);
    var r := Reassemble(Writer(cfg), InContext(), Initial(), text);
    SilentPassesThrough(cfg);
    ReassembleVerbatim(Writer(cfg), InContext(), Initial(), text);
    CloseNorm(cfg, Write(cfg, Initial(), text));
    CloseSilent(cfg, r);
  }

  // ---------------------------------------------------------------- other line breaks

  lemma SplitCarriageReturn()
    ensures SplitLines("a\rb\n") == ["a\r", "b\n"]
  {
    var text := "a\rb\n";
    assert IsLineBreak(text[1]) && !IsLineBreak(text[0]) && text[2] != '\n';
    assert LineEnd(text, 1) == 2;
    assert LineEnd(text, 0) == 2;
    assert text[..2] == "a\r";
    var rest := text[2..];
    assert rest == "b\n";
    assert rest[..2] == rest;
    assert LineEnd(rest, 1) == 2;
    assert LineEnd(rest, 0) == 2;
    assert rest[2..] == "";
    assert SplitLines(rest) == ["b\n"];
  }

  /** The "\r" piece is buffered and the "\n" piece goes to `_write_line`. */
  lemma CarriageReturnPieces(cfg: Config)
    ensures Write(cfg, Initial(), "a\rb\n") == WriteLine(cfg, Initial().(textParts := ["a\r"]), "b\n")
  {
    CarriageReturnSplit(cfg);
    ProcessPiecesCons(cfg, Initial(), "a\r", ["b\n"], false);
    CarriageReturnHeld(cfg);
    ProcessPiecesCons(cfg, Initial().(textParts := ["a\r"]), "b\n", [], false);
    assert ["b\n"] + [] == ["b\n"];
  }

  lemma CarriageReturnSplit(cfg: Config)
    ensures Write(cfg, Initial(), "a\rb\n") == ProcessPieces(cfg, Initial(), ["a\r"] + ["b\n"], false)
  {
    var text := "a\rb\n";
    var appended := Initial().(textParts := Initial().textParts + [text]);
    assert text[3] == '\n';
    assert Write(cfg, Initial(), text) == WriteTextParts(cfg, appended, false);
    assert appended.textParts == [text];
    ConcatOne(text);
    SplitCarriageReturn();
    assert appended.(textParts := []) == Initial();
    assert ["a\r"] + ["b\n"] == ["a\r", "b\n"];
  }

  lemma CarriageReturnHeld(cfg: Config)
    ensures ProcessPiece(cfg, Initial(), "a\r", false) == Initial().(textParts := ["a\r"])
  {
    assert !EndsWithNewline("a\r");
    assert Initial().textParts + ["a\r"] == ["a\r"];
  }

  /** `splitlines(True)` also breaks at "\r", and a piece that does not end in "\n" is held
      back even when complete lines follow it: a carriage return inside the input moves the
      text before it behind the next line. */
  lemma CarriageReturnReorders(cfg: Config)
    requires Silent(cfg)
    ensures Write(cfg, Initial(), "a\rb\n").out == "b\n"
    ensures Write(cfg, Initial(), "a\rb\n").textParts == ["a\r"]
    ensures Close(cfg, Write(cfg, Initial(), "a\rb\n")).out == "b\na\r"
  {
    var held := Initial().(textParts := ["a\r"]);
    CarriageReturnPieces(cfg);
    assert Transparent(cfg, "b\n");
    WriteLineSilent(cfg, held, "b\n");
    ConcatOne("a\r");
    CloseSilent(cfg, WriteLine(cfg, held, "b\n"));
  }
}
