/** The line reassembly that `Progress.write` performs (src/ptee.py:187-194, 283-293), defined on
    the text itself rather than on the chunks it arrives in, for text whose only line break is
    "\n". What a complete line does and what writing in context does are parameters here, so
    that the laws below hold for any renderer that writes in context by appending. */
module Reassembly {
  import opened PyStr
  import opened ProgressSpec

  /** A step of the renderer that consumes a piece of text. */
  type Emit = (State, string) -> State

  /** A step that leaves the buffered pieces alone, as `_write_line` and `_write_in_context` do. */
  ghost predicate KeepsParts(e: Emit) {
    forall s: State, x: string :: e(s, x).textParts == s.textParts
  }

  /** Writing in context as `_write_in_context` does: it leaves the buffered pieces and the
      partial-line flag alone, and writing twice is writing the concatenation once. */
  ghost predicate ContextWriter(c: Emit) {
    && KeepsParts(c)
    && (forall s: State, x: string :: c(s, x).withinPartialLine == s.withinPartialLine)
    && (forall s: State, a: string, b: string :: c(c(s, a), b) == c(s, a + b))
  }

  /** The state with its buffered pieces merged into one; states that agree up to this behave
      alike from then on. */
  function Norm(st: State): (r: State)
    ensures Concat(r.textParts) == Concat(st.textParts)
    ensures r.(textParts := st.textParts) == st
  {
    if st.textParts == [] then st
    else
      ConcatOne(Concat(st.textParts));
      st.(textParts := [Concat(st.textParts)])
  }

  /** A line ending at a "\n" of the text: within a partial line it is written in context and
      ends the partial line; otherwise the buffered text and the line go to the line writer `w`
      as one complete line. */
  function CompleteLine(w: Emit, c: Emit, st: State, line: string): State {
    if st.withinPartialLine then c(st.(textParts := []), line).(withinPartialLine := false)
    else w(st.(textParts := []), Concat(st.textParts) + line)
  }

  /** Text after the last "\n": within a partial line it is written in context, otherwise it
      is added to the buffered text. */
  function Hold(c: Emit, st: State, text: string): State {
    if st.withinPartialLine then c(st.(textParts := []), text)
    else st.(textParts := [Concat(st.textParts) + text])
  }

  /** Every line up to and including a "\n" is a complete line, and what follows the last "\n"
      is held. */
  function Reassemble(w: Emit, c: Emit, st: State, text: string): State
    decreases |text|
  {
    if text == "" then Norm(st)
    else if '\n' !in text then Hold(c, st, text)
    else
      var i := FirstNewline(text);
      Reassemble(w, c, CompleteLine(w, c, st, text[..i + 1]), text[i + 1..])
  }

  lemma ReassembleStep(w: Emit, c: Emit, st: State, text: string)
    requires '\n' in text
    ensures var i := FirstNewline(text);
      Reassemble(w, c, st, text) == Reassemble(w, c, CompleteLine(w, c, st, text[..i + 1]), text[i + 1..])
  {
  }

  /** Merging the buffered pieces makes no difference to what follows. */
  lemma ReassembleNorm(w: Emit, c: Emit, st: State, text: string)
    ensures Reassemble(w, c, Norm(st), text) == Reassemble(w, c, st, text)
  {
    if text != "" {
      assert Norm(st).(textParts := []) == st.(textParts := []);
      if '\n' in text {
        var i := FirstNewline(text);
        assert CompleteLine(w, c, Norm(st), text[..i + 1]) == CompleteLine(w, c, st, text[..i + 1]);
      } else {
        assert Hold(c, Norm(st), text) == Hold(c, st, text);
      }
    }
  }

  /** Within a partial line, holding `a` writes it in context and buffers nothing. */
  lemma HoldWithin(c: Emit, st: State, a: string)
    requires ContextWriter(c) && st.withinPartialLine
    ensures var h := Hold(c, st, a);
      h == c(st.(textParts := []), a) && h.withinPartialLine && h.textParts == []
      && h.(textParts := []) == h
  {
  }

  lemma HoldTwice(c: Emit, st: State, a: string, b: string)
    requires ContextWriter(c)
    ensures Hold(c, Hold(c, st, a), b) == Hold(c, st, a + b)
  {
    if st.withinPartialLine {
      HoldWithin(c, st, a);
    } else {
      ConcatOne(Concat(st.textParts) + a);
      assert Concat(st.textParts) + a + b == Concat(st.textParts) + (a + b);
    }
  }

  lemma CompleteAfterHold(w: Emit, c: Emit, st: State, a: string, line: string)
    requires ContextWriter(c)
    ensures CompleteLine(w, c, Hold(c, st, a), line) == CompleteLine(w, c, st, a + line)
  {
    if st.withinPartialLine {
      HoldWithin(c, st, a);
    } else {
      ConcatOne(Concat(st.textParts) + a);
      assert Concat(st.textParts) + a + line == Concat(st.textParts) + (a + line);
      assert Hold(c, st, a).(textParts := []) == st.(textParts := []);
    }
  }

  /** Holding text without "\n" and then reassembling more is reassembling both. */
  lemma HoldAppend(w: Emit, c: Emit, st: State, a: string, b: string)
    requires ContextWriter(c) && a != "" && '\n' !in a
    ensures Reassemble(w, c, Hold(c, st, a), b) == Reassemble(w, c, st, a + b)
  {
    if b == "" {
      assert a + b == a;
      HoldThenNothing(c, st, a);
    } else if '\n' !in b {
      HoldThenHold(w, c, st, a, b);
    } else {
      HoldThenLine(w, c, st, a, b);
    }
  }

  lemma HoldThenNothing(c: Emit, st: State, a: string)
    requires ContextWriter(c)
    ensures Norm(Hold(c, st, a)) == Hold(c, st, a)
  {
    if st.withinPartialLine {
      HoldWithin(c, st, a);
    } else {
      ConcatOne(Concat(st.textParts) + a);
    }
  }

  lemma HoldThenHold(w: Emit, c: Emit, st: State, a: string, b: string)
    requires ContextWriter(c) && a != "" && '\n' !in a && b != "" && '\n' !in b
    ensures Reassemble(w, c, Hold(c, st, a), b) == Reassemble(w, c, st, a + b)
  {
    assert '\n' !in a + b;
    HoldTwice(c, st, a, b);
  }

  lemma HoldThenLine(w: Emit, c: Emit, st: State, a: string, b: string)
    requires ContextWriter(c) && '\n' !in a && '\n' in b
    ensures Reassemble(w, c, Hold(c, st, a), b) == Reassemble(w, c, st, a + b)
  {
    var j := FirstNewline(b);
    CompleteAfterHold(w, c, st, a, b[..j + 1]);
    ReassembleStep(w, c, Hold(c, st, a), b);
    StepAfter(w, c, st, a, b);
  }

  /** When `a` holds no "\n", the first line of `a + b` runs into `b`. */
  lemma StepAfter(w: Emit, c: Emit, st: State, a: string, b: string)
    requires '\n' !in a && '\n' in b
    ensures var j := FirstNewline(b);
      Reassemble(w, c, st, a + b) == Reassemble(w, c, CompleteLine(w, c, st, a + b[..j + 1]), b[j + 1..])
  {
    FirstLineAfter(a, b);
    ReassembleStep(w, c, st, a + b);
  }

  /** Reassembling `a`, then `b`, is reassembling `a + b`. */
  lemma {:induction false} ReassembleAppend(w: Emit, c: Emit, st: State, a: string, b: string)
    requires ContextWriter(c)
    ensures Reassemble(w, c, Reassemble(w, c, st, a), b) == Reassemble(w, c, st, a + b)
    decreases |a|
  {
    if a == "" {
      assert a + b == b;
      ReassembleNorm(w, c, st, b);
    } else if '\n' in a {
      var i := FirstNewline(a);
      var next := CompleteLine(w, c, st, a[..i + 1]);
      FirstNewlineAppend(a, b);
      assert (a + b)[..i + 1] == a[..i + 1];
      assert (a + b)[i + 1..] == a[i + 1..] + b;
      ReassembleStep(w, c, st, a);
      ReassembleStep(w, c, st, a + b);
      ReassembleAppend(w, c, next, a[i + 1..], b);
    } else {
      HoldAppend(w, c, st, a, b);
    }
  }

  /** Buffered text without "\n" may as well be the start of the text that follows it. */
  lemma ReassembleBuffered(w: Emit, c: Emit, st: State, text: string)
    requires !st.withinPartialLine && '\n' !in Concat(st.textParts) && '\n' in text
    ensures Reassemble(w, c, st.(textParts := []), Concat(st.textParts) + text)
         == Reassemble(w, c, st, text)
  {
    StepAfter(w, c, st.(textParts := []), Concat(st.textParts), text);
    BufferedLine(w, c, st, text);
    ReassembleStep(w, c, st, text);
  }

  /** The buffered text and the first line of `text` are one complete line. */
  lemma BufferedLine(w: Emit, c: Emit, st: State, text: string)
    requires !st.withinPartialLine && '\n' in text
    ensures var line := text[..FirstNewline(text) + 1];
      CompleteLine(w, c, st.(textParts := []), Concat(st.textParts) + line) == CompleteLine(w, c, st, line)
  {
    var start := st.(textParts := []);
    var line := text[..FirstNewline(text) + 1];
    assert Concat(start.textParts) + (Concat(st.textParts) + line) == Concat(st.textParts) + line;
    assert start.(textParts := []) == start;
  }

  // ---------------------------------------------------------------- buffered text

  /** Buffered text whose only line break is "\n". */
  predicate Plain(st: State) {
    NewlineOnly(Concat(st.textParts))
  }

  /** A complete line leaves nothing buffered. */
  lemma CompleteLineEmpties(w: Emit, c: Emit, st: State, line: string)
    requires KeepsParts(w) && KeepsParts(c)
    ensures CompleteLine(w, c, st, line).textParts == []
  {
  }

  lemma HoldPlain(c: Emit, st: State, text: string)
    requires KeepsParts(c) && Plain(st) && NewlineOnly(text)
    ensures Plain(Hold(c, st, text))
  {
    if !st.withinPartialLine {
      NewlineOnlyAppend(Concat(st.textParts), text);
      ConcatOne(Concat(st.textParts) + text);
    }
  }

  /** Reassembly keeps "\n" the only line break in the buffered text. */
  lemma {:induction false} ReassemblePlain(w: Emit, c: Emit, st: State, text: string)
    requires KeepsParts(w) && KeepsParts(c) && Plain(st) && NewlineOnly(text)
    ensures Plain(Reassemble(w, c, st, text))
    decreases |text|
  {
    if text != "" {
      if '\n' !in text {
        HoldPlain(c, st, text);
      } else {
        var i := FirstNewline(text);
        NewlineOnlySlice(text, i + 1, |text|);
        CompleteLineEmpties(w, c, st, text[..i + 1]);
        ReassemblePlain(w, c, CompleteLine(w, c, st, text[..i + 1]), text[i + 1..]);
      }
    }
  }

  // ---------------------------------------------------------------- pass-through

  /** Nothing on the stack, no status drawn and no lines to skip. */
  predicate Quiet(st: State) {
    st.contextLines == [] && st.displayLevel == 0 && st.lastStatus == "" && st.linesToSkip == 0
  }

  /** A line writer that, from a quiet state outside a partial line, writes a complete line as
      it is and stays quiet. */
  ghost predicate Verbatim(w: Emit) {
    forall s: State, line: string :: Quiet(s) && !s.withinPartialLine && EndsWithNewline(line) ==>
      Quiet(w(s, line)) && !w(s, line).withinPartialLine && w(s, line).out == s.out + line
  }

  /** Writing in context from a quiet state writes the text as it is and stays quiet. */
  ghost predicate VerbatimInContext(c: Emit) {
    forall s: State, x: string :: Quiet(s) ==> Quiet(c(s, x)) && c(s, x).out == s.out + x
  }

  /** The steps of a renderer that writes everything as it is. */
  ghost predicate PassingThrough(w: Emit, c: Emit) {
    KeepsParts(w) && KeepsParts(c) && Verbatim(w) && VerbatimInContext(c)
  }

  /** A quiet state in which a partial line buffers nothing. */
  predicate Idle(st: State) {
    Quiet(st) && (st.withinPartialLine ==> st.textParts == [])
  }

  lemma CompleteLineVerbatim(w: Emit, c: Emit, st: State, line: string)
    requires PassingThrough(w, c) && Idle(st) && EndsWithNewline(line)
    ensures var r := CompleteLine(w, c, st, line);
      Idle(r) && r.textParts == [] && !r.withinPartialLine
      && r.out == st.out + Concat(st.textParts) + line
  {
    if !st.withinPartialLine {
      var whole := Concat(st.textParts) + line;
      assert whole[|whole| - 1] == line[|line| - 1];
      assert Quiet(st.(textParts := []));
    }
  }

  lemma HoldVerbatim(w: Emit, c: Emit, st: State, text: string)
    requires PassingThrough(w, c) && Idle(st)
    ensures var r := Hold(c, st, text);
      Idle(r) && r.out + Concat(r.textParts) == st.out + Concat(st.textParts) + text
  {
    if !st.withinPartialLine {
      ConcatOne(Concat(st.textParts) + text);
    }
  }

  /** A renderer that writes everything as it is reassembles text into the output, except for
      what it still holds after the last "\n". */
  lemma {:induction false} ReassembleVerbatim(w: Emit, c: Emit, st: State, text: string)
    requires PassingThrough(w, c) && Idle(st)
    ensures var r := Reassemble(w, c, st, text);
      Idle(r) && r.out + Concat(r.textParts) == st.out + Concat(st.textParts) + text
    decreases |text|
  {
    if text == "" {
      assert st.out + Concat(st.textParts) + text == st.out + Concat(st.textParts);
    } else if '\n' !in text {
      HoldVerbatim(w, c, st, text);
    } else {
      var i := FirstNewline(text);
      var next := CompleteLine(w, c, st, text[..i + 1]);
      VerbatimStep(w, c, st, text);
      ReassembleVerbatim(w, c, next, text[i + 1..]);
      ReassembleStep(w, c, st, text);
    }
  }

  lemma VerbatimStep(w: Emit, c: Emit, st: State, text: string)
    requires PassingThrough(w, c) && Idle(st) && '\n' in text
    ensures var i := FirstNewline(text);
      var next := CompleteLine(w, c, st, text[..i + 1]);
      Idle(next) && next.out + Concat(next.textParts) + text[i + 1..] == st.out + Concat(st.textParts) + text
  {
    var i := FirstNewline(text);
    var next := CompleteLine(w, c, st, text[..i + 1]);
    CompleteLineVerbatim(w, c, st, text[..i + 1]);
    assert Concat(next.textParts) == "";
    LineThenRest(st.out + Concat(st.textParts), text, i);
  }
}
