/** The `Progress` renderer of src/ptee.py as pure state transitions. Every method of the
    class that writes output or moves the renderer's state is a function from the
    configuration and the old state to the new state; the rule setters, `have_unwritten_data`
    and `_raw_write` are specified in the class itself. The output file is the string `out`,
    which only ever grows. */
module ProgressSpec {
  import opened PyStr
  import opened Regex
  import opened Status

  /** `min_width` in `_write_status`: a status shorter than this is cut without an ellipsis. */
  const MinWidth: nat := 10
  /** The marker that replaces the middle of an over-long status. */
  const Ellipsis: string := " ... "
  /** The terminal width assumed until the terminal reports another one. */
  const DefaultTerminalWidth: int := 80

  /** One `(count, skip_regex)` pair of `_count_skip_regexes`. */
  datatype SkipRule = SkipRule(count: int, regex: string)

  /** The fields of `Progress` that are set up before any input arrives. `terminalWidth` is
      what `get_terminal_width()` reports; `search` is the regex engine. */
  datatype Config = Config(
    strip: bool,
    width: int,
    terminalWidth: int,
    levelRegexes: seq<string>,
    headingRegex: string,
    skipRules: seq<SkipRule>,
    search: Search)

  /** The fields of `Progress` that change while input is rendered, and the output so far. */
  datatype State = State(
    lastStatus: string,
    contextLines: seq<string>,
    displayLevel: nat,
    textParts: seq<string>,
    withinPartialLine: bool,
    linesToSkip: int,
    out: string)

  /** The state `Progress.__init__` creates. */
  function Initial(): State {
    State("", [], 0, [], false, 0, "")
  }

  /** What the command line guarantees of the skip rules: every count is positive. */
  predicate ValidConfig(cfg: Config) {
    forall i :: 0 <= i < |cfg.skipRules| ==> cfg.skipRules[i].count > 0
  }

  /** The invariant every reachable state keeps. */
  predicate Valid(st: State) {
    && st.displayLevel <= |st.contextLines|
    && st.linesToSkip >= 0
    && (forall i :: 0 <= i < |st.textParts| ==> st.textParts[i] != "" && '\n' !in st.textParts[i])
    && (st.withinPartialLine ==> st.textParts == [])
  }

  function Blanks(n: nat): (r: seq<string>)
    ensures |r| == n
    ensures forall i :: 0 <= i < n ==> r[i] == ""
  {
    seq(n, _ => "")
  }

  // ---------------------------------------------------------------- configuration

  /** `append_level_regex(level, regex)`: grow the list with empty patterns up to `level`,
      then join `regex` into the pattern of that level. A negative `level` counts from the end,
      as Python's indexing does; `None` is the `IndexError` raised when it reaches past the
      start, and the list is then left as it was. */
  function AddLevelRegex(regexes: seq<string>, level: int, regex: string): (r: Option<seq<string>>)
    ensures r.None? <==> level < -|regexes|
    ensures r.Some? ==> var k := if level >= 0 then level else |regexes| + level;
      && |r.value| == (if level < |regexes| then |regexes| else level + 1)
      && 0 <= k < |r.value|
      && r.value[k] == RegexJoin([if k < |regexes| then regexes[k] else "", regex])
      && forall i :: 0 <= i < |r.value| && i != k ==> r.value[i] == if i < |regexes| then regexes[i] else ""
  {
    var padded := if level < |regexes| then regexes else regexes + Blanks(level + 1 - |regexes|);
    var k := if level >= 0 then level else |padded| + level;
    if k < 0 then None else Some(padded[k := RegexJoin([padded[k], regex])])
  }

  /** The skip patterns, in registration order. */
  function SkipRegexes(rules: seq<SkipRule>): (r: seq<string>)
    ensures |r| == |rules|
    ensures forall i :: 0 <= i < |rules| ==> r[i] == rules[i].regex
  {
    seq(|rules|, i requires 0 <= i < |rules| => rules[i].regex)
  }

  /** The count of the first skip rule that matches `line`, or 0 when none does. */
  function SkipCount(cfg: Config, line: string): (c: int)
    ensures ValidConfig(cfg) ==> c >= 0
    ensures c != 0 ==> exists i :: 0 <= i < |cfg.skipRules| && Matches(cfg.search, cfg.skipRules[i].regex, line)
    ensures forall i :: 0 <= i < |cfg.skipRules| && Matches(cfg.search, cfg.skipRules[i].regex, line)
                     && (forall j :: 0 <= j < i ==> !Matches(cfg.search, cfg.skipRules[j].regex, line))
                     ==> c == cfg.skipRules[i].count
    ensures (forall i :: 0 <= i < |cfg.skipRules| ==> !Matches(cfg.search, cfg.skipRules[i].regex, line)) ==> c == 0
  {
    match FirstMatch(cfg.search, SkipRegexes(cfg.skipRules), line)
    case Some(i) => cfg.skipRules[i].count
    case None => 0
  }

  // ---------------------------------------------------------------- status line

  /** `self.width or get_terminal_width()` */
  function EffectiveWidth(cfg: Config): int {
    if cfg.width != 0 then cfg.width else cfg.terminalWidth
  }

  /** The cut `_write_status` makes to a status longer than `width`: for at least `MinWidth`
      characters, the middle is replaced by `Ellipsis`, three quarters of the remaining room
      going to the front; then the result is cut to `width`. Python's `//` rounds down, as
      Dafny's `/` does for a positive divisor. */
  function Elide(s: string, width: int): string {
    var t :=
      if |s| >= MinWidth then
        var room := width - |Ellipsis|;
        var preRoom := (room * 3) / 4;
        var postRoom := room - preRoom;
        Prefix(s, preRoom) + Ellipsis + Suffix(s, -postRoom)
      else s;
    Prefix(t, width)
  }

  /** The status `_write_status` remembers and draws: right-stripped, tabs expanded, and cut to
      `width` when `width` is set and the status is longer. */
  function FitStatus(status: string, width: int): (r: string)
    ensures var s := ExpandTabs(RStrip(status)); width == 0 || |s| <= width ==> r == s
    ensures var s := ExpandTabs(RStrip(status)); 0 < width < |s| ==> |r| == width
  {
    var s := ExpandTabs(RStrip(status));
    if width != 0 && |s| > width then
      var cut := Elide(s, width);
      assert 0 < width ==> |cut| == width by {
        if 0 < width { ElideLength(s, width); }
      }
      cut
    else s
  }

  /** A positive width is met exactly by the cut. */
  lemma ElideLength(s: string, width: int)
    requires 0 < width < |s|
    ensures |Elide(s, width)| == width
  {
    if |s| >= MinWidth {
      var room := width - |Ellipsis|;
      var preRoom := (room * 3) / 4;
      var postRoom := room - preRoom;
      var t := Prefix(s, preRoom) + Ellipsis + Suffix(s, -postRoom);
      if width >= 6 {
        assert 0 <= preRoom < room && 1 <= postRoom;
        assert |t| == width;
      } else {
        assert |t| >= |Ellipsis|;
      }
    }
  }

  /** From width 6 on, an elided status keeps `(width - 5) * 3 // 4` leading characters and at
      least one trailing character around the ellipsis. */
  lemma ElideShape(s: string, width: int)
    requires 6 <= width < |s| && MinWidth <= |s|
    ensures var preRoom := ((width - |Ellipsis|) * 3) / 4;
            var postRoom := width - |Ellipsis| - preRoom;
            && 1 <= postRoom
            && preRoom + |Ellipsis| + postRoom == width
            && Elide(s, width) == s[..preRoom] + Ellipsis + s[|s| - postRoom..]
  {
    ElideRoom(width);
    ElideParts(s, width);
  }

  /** Three quarters of the room, rounded down, leave at least one character for the end. */
  lemma ElideRoom(width: int)
    requires 6 <= width
    ensures var preRoom := ((width - |Ellipsis|) * 3) / 4;
            0 <= preRoom && 1 <= width - |Ellipsis| - preRoom
  {
  }

  lemma ElideParts(s: string, width: int)
    requires 6 <= width < |s| && MinWidth <= |s|
    ensures var preRoom := ((width - |Ellipsis|) * 3) / 4;
            var postRoom := width - |Ellipsis| - preRoom;
            Elide(s, width) == s[..preRoom] + Ellipsis + s[|s| - postRoom..]
  {
    ElideRoom(width);
    var preRoom := ((width - |Ellipsis|) * 3) / 4;
    ElideAround(s, width, preRoom, width - |Ellipsis| - preRoom);
  }

  /** Keeping `preRoom` leading and `postRoom` trailing characters around the ellipsis. */
  lemma ElideAround(s: string, width: int, preRoom: int, postRoom: int)
    requires 0 <= preRoom && 1 <= postRoom && preRoom + |Ellipsis| + postRoom == width < |s|
    ensures Prefix(Prefix(s, preRoom) + Ellipsis + Suffix(s, -postRoom), width)
         == s[..preRoom] + Ellipsis + s[|s| - postRoom..]
  {
    var t := s[..preRoom] + Ellipsis + s[|s| - postRoom..];
    assert Prefix(s, preRoom) + Ellipsis + Suffix(s, -postRoom) == t;
    assert |t| == width;
  }

  /** `_write_status(status)` */
  function WriteStatus(cfg: Config, st: State, status: string): (r: State)
    ensures cfg.strip ==> r == st
    ensures !cfg.strip ==> r.lastStatus == FitStatus(status, EffectiveWidth(cfg))
    ensures !cfg.strip ==> r.out == st.out + Redraw(st.lastStatus, r.lastStatus)
    ensures r.(out := st.out, lastStatus := st.lastStatus) == st
  {
    if cfg.strip then st
    else
      var s := FitStatus(status, EffectiveWidth(cfg));
      st.(out := st.out + Redraw(st.lastStatus, s), lastStatus := s)
  }

  /** `_erase_status()` */
  function EraseStatus(st: State): (r: State)
    ensures r.lastStatus == ""
    ensures r.out == st.out + Erasure(st.lastStatus)
    ensures r.(out := st.out, lastStatus := st.lastStatus) == st
  {
    if st.lastStatus != "" then st.(out := st.out + Erasure(st.lastStatus), lastStatus := "") else st
  }

  // ---------------------------------------------------------------- context stack

  /** `_clear_context()` */
  function ClearContext(st: State): (r: State)
    ensures r.contextLines == [] && r.displayLevel == 0
    ensures r.(contextLines := st.contextLines, displayLevel := st.displayLevel) == st
  {
    st.(contextLines := [], displayLevel := 0)
  }

  /** The stack after `_set_context(level, context)`: levels above `level` are dropped, missing
      levels below it are empty, and `level` holds `context`. */
  function SetContextLines(lines: seq<string>, level: nat, context: string): (r: seq<string>)
    ensures |r| == level + 1 && r[level] == context
    ensures forall i :: 0 <= i < level ==> r[i] == if i < |lines| then lines[i] else ""
  {
    var kept := if level + 1 < |lines| then lines[..level + 1] else lines;
    var padded := kept + Blanks(level + 1 - |kept|);
    padded[level := context]
  }

  /** `[s.rstrip() for s in lines]` */
  function RStripAll(lines: seq<string>): (r: seq<string>)
    ensures |r| == |lines|
    ensures forall i :: 0 <= i < |lines| ==> r[i] == RStrip(lines[i])
  {
    seq(|lines|, i requires 0 <= i < |lines| => RStrip(lines[i]))
  }

  /** The status `_set_context` draws: the non-blank levels, right-stripped, joined by two
      spaces. */
  function ContextStatus(lines: seq<string>): (r: string)
    ensures r == "" <==> forall i :: 0 <= i < |lines| ==> RStrip(lines[i]) == ""
  {
    JoinEmpty("  ", NonEmpty(RStripAll(lines)));
    Join("  ", NonEmpty(RStripAll(lines)))
  }

  /** `_set_context(level, context)` */
  function SetContext(cfg: Config, st: State, level: nat, context: string): (r: State)
    ensures |r.contextLines| == level + 1 && r.contextLines[level] == context
    ensures forall i :: 0 <= i < level ==>
      r.contextLines[i] == if i < |st.contextLines| then st.contextLines[i] else ""
    ensures r.displayLevel <= level
    ensures st.displayLevel <= level ==> r.displayLevel == st.displayLevel
    ensures r.out == st.out + (if cfg.strip then "" else Redraw(st.lastStatus, r.lastStatus))
    ensures !cfg.strip ==>
      r.lastStatus == FitStatus(ContextStatus(r.contextLines), EffectiveWidth(cfg))
    ensures cfg.strip ==> r.lastStatus == st.lastStatus
    ensures r.textParts == st.textParts && r.withinPartialLine == st.withinPartialLine
    ensures r.linesToSkip == st.linesToSkip
  {
    var displayLevel := if st.displayLevel > level then level else st.displayLevel;
    var lines := SetContextLines(st.contextLines, level, context);
    WriteStatus(cfg, st.(displayLevel := displayLevel, contextLines := lines), ContextStatus(lines))
  }

  /** The levels `_show_context` has still to write: `range(display_level, len(lines))`. */
  function Unshown(st: State): seq<string> {
    if st.displayLevel <= |st.contextLines| then st.contextLines[st.displayLevel..] else []
  }

  /** `_show_context()`: erase the status, then write every level not yet written, in order. */
  function ShowContext(st: State): (r: State)
    ensures r.out == st.out + Erasure(st.lastStatus) + Concat(Unshown(st))
    ensures r.lastStatus == "" && r.displayLevel == |st.contextLines|
    ensures r.(out := st.out, lastStatus := st.lastStatus, displayLevel := st.displayLevel) == st
  {
    var erased := EraseStatus(st);
    erased.(out := erased.out + Concat(Unshown(erased)), displayLevel := |erased.contextLines|)
  }

  /** `_write_in_context(s)` */
  function WriteInContext(st: State, s: string): (r: State)
    ensures r.out == st.out + Erasure(st.lastStatus) + Concat(Unshown(st)) + s
    ensures r.lastStatus == "" && r.displayLevel == |st.contextLines|
    ensures r.(out := st.out, lastStatus := st.lastStatus, displayLevel := st.displayLevel) == st
  {
    var shown := ShowContext(st);
    shown.(out := shown.out + s)
  }

  // ---------------------------------------------------------------- classification

  /** `_write_complete_line(line)`: a heading clears the context; then the first matching level
      receives the line as its context, and a line matching no level is written in context. */
  function WriteCompleteLine(cfg: Config, st: State, line: string): (r: State)
    ensures r.textParts == st.textParts && r.withinPartialLine == st.withinPartialLine
    ensures r.linesToSkip == st.linesToSkip
  {
    var cleared := if Matches(cfg.search, cfg.headingRegex, line) then ClearContext(st) else st;
    match FirstMatch(cfg.search, cfg.levelRegexes, line)
    case Some(level) => SetContext(cfg, cleared, level, line)
    case None => WriteInContext(cleared, line)
  }

  /** `_write_line(line)`: a complete line (ending in "\n" outside a partial line) goes through
      the skip counter and then the classifier; anything else is written in context
      unclassified, and decides whether a partial line is in progress. */
  function WriteLine(cfg: Config, st: State, line: string): (r: State)
    ensures r.textParts == st.textParts
    ensures !st.withinPartialLine && EndsWithNewline(line) ==> !r.withinPartialLine
  {
    var hasNewline := EndsWithNewline(line);
    if hasNewline && !st.withinPartialLine then
      var toSkip := if st.linesToSkip == 0 then SkipCount(cfg, line) else st.linesToSkip;
      if toSkip > 0 then st.(linesToSkip := toSkip - 1)
      else WriteCompleteLine(cfg, st.(linesToSkip := toSkip), line)
    else
      WriteInContext(st, line).(withinPartialLine := !hasNewline)
  }

  // ---------------------------------------------------------------- line reassembly

  /** One iteration of the loop in `_write_text_parts`: a piece is written when flushing,
      within a partial line, or when it ends in "\n"; otherwise it is kept for later. */
  function ProcessPiece(cfg: Config, st: State, piece: string, flush: bool): State {
    if flush || st.withinPartialLine || EndsWithNewline(piece) then WriteLine(cfg, st, piece)
    else st.(textParts := st.textParts + [piece])
  }

  /** The loop of `_write_text_parts` run over `pieces`. */
  function ProcessPieces(cfg: Config, st: State, pieces: seq<string>, flush: bool): State
    decreases |pieces|
  {
    if pieces == [] then st
    else ProcessPiece(cfg, ProcessPieces(cfg, st, pieces[..|pieces| - 1], flush), pieces[|pieces| - 1], flush)
  }

  lemma ProcessPiecesSnoc(cfg: Config, st: State, pieces: seq<string>, i: nat, flush: bool)
    requires i < |pieces|
    ensures ProcessPieces(cfg, st, pieces[..i + 1], flush)
         == ProcessPiece(cfg, ProcessPieces(cfg, st, pieces[..i], flush), pieces[i], flush)
  {
    assert pieces[..i + 1][..i] == pieces[..i];
  }

  /** `_write_text_parts(flush)` */
  function WriteTextParts(cfg: Config, st: State, flush: bool): State {
    if st.textParts == [] then st
    else ProcessPieces(cfg, st.(textParts := []), SplitLines(Concat(st.textParts)), flush)
  }

  /** `write(text)` */
  function Write(cfg: Config, st: State, text: string): (r: State)
    ensures text == "" ==> r == st
  {
    if text == "" then st
    else
      var appended := st.(textParts := st.textParts + [text]);
      if st.withinPartialLine || '\n' in text then WriteTextParts(cfg, appended, false) else appended
  }

  /** `flush()` */
  function Flush(cfg: Config, st: State): State {
    WriteTextParts(cfg, st, true)
  }

  /** `close()` */
  function Close(cfg: Config, st: State): State {
    EraseStatus(Flush(cfg, st))
  }
}
