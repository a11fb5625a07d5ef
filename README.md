# ptee, modelled in Dafny

`ptee` is a "progress tee": it copies its input to its output, but shows lines that match
status patterns as a single overwritable status line (drawn with `"\r"` and padded to erase
the previous one), keeps heading lines, and can swallow runs of lines. The repository holds
two generations of the renderer, and both are modelled here:

- `Progress` in `src/ptee.py`, the current engine. It reassembles lines from text fragments.
  It keeps a partial line back until its `"\n"` arrives, or streams it verbatim once it has
  been forced out. It applies a skip counter, then a heading rule, then a stack of context
  levels whose non-blank entries make up the status line. The status is fitted to the
  terminal width with a `" ... "` ellipsis.
- `Tee` in `ptee.py`, the older single-level renderer. Each line is copied to every ditto
  file. Then it is either kept as a heading, drawn as the status, or written after the
  pending status has been kept.

The model's modules:

- `PyStr` (`pystr.dfy`): the Python `str` operations the code relies on, with Python's exact
  semantics. These are `rstrip`, `ljust`, slicing with negative bounds, `expandtabs`,
  `"".join`, `sep.join` and `splitlines(True)` with every Unicode line boundary.
- `Regex` (`regex.dfy`): `regex_join`, and the `regex and re.search(regex, line)` guard.
  The regex engine is a function parameter `search`.
- `Status` (`status.dfy`): the text that draws and erases an overwritable status line.
- `ProgressSpec` (`progress_spec.dfy`): every method of `Progress` that writes output or
  moves the renderer's state, as a pure transition from the configuration and the old state
  to the new state; the rule setters, `have_unwritten_data` and `_raw_write` are specified in
  the class itself. The output file is the string
  `out`, which only ever grows.
- `ProgressEngine` (`progress.dfy`): the class `Progress`, with the source's fields and
  loops. Most methods are proved to change the state exactly as the `ProgressSpec` function
  of the same name does, and `AppendLevelRegex` as `AddLevelRegex` does.
  `AppendHeadingRegex`, `AppendCountSkipRegex`, `HaveUnwrittenData` and `RawWrite` have no
  such function, so their contracts state their effect directly.
- `ProgressProps` (`progress_props.dfy`): the classifier, the skip counter, the invariant
  every reachable state keeps, and `close()`.
- `Reassembly` and `ProgressChunks` (`reassembly.dfy`, `progress_chunks.dfy`): an
  independent definition of line reassembly, and a proof that `write` implements it for text
  whose only line break is "\n". For such text, cutting the input into chunks does not change
  the output. With no rule matching, `ptee` passes such text through unchanged. Text holding
  another line break, such as a lone "\r", can come out reordered
  (`ProgressChunks.CarriageReturnReorders`).
- `TeeSpec`, `TeeEngine` and `TeeProps` (`tee_spec.dfy`, `tee.dfy`, `tee_props.dfy`): the
  same three layers for `Tee`.

## Model

| member | source | states |
|---|---|---|
| PyStr.Spaces | src/ptee.py:220 | `" " * n` is exactly `n` spaces |
| PyStr.RStrip | src/ptee.py:202 | `s.rstrip()` is a prefix of `s` that is empty or ends in a non-space, and everything it drops is whitespace |
| PyStr.LJust | ptee.py:98 | `s.ljust(width)` is `s` followed by spaces, up to `width` characters |
| PyStr.Prefix | src/ptee.py:211-212 | `s[:stop]` for any `stop`, a negative one counting from the end |
| PyStr.Suffix | src/ptee.py:211 | `s[start:]` for any `start`, a negative one counting from the end |
| PyStr.ExpandTabsFrom | src/ptee.py:202 | `expandtabs()` leaves no tab, and leaves text without tabs unchanged |
| PyStr.ConcatAppend | src/ptee.py:285 | joining two lists of parts is joining each and concatenating |
| PyStr.SplitLines | src/ptee.py:287 | `splitlines(True)` gives non-empty pieces that join back to the text; every piece but the last ends in a line break, no piece holds a break before its end except the "\r" of a closing "\r\n", and a piece ending in "\r" is never followed by one starting with "\n" |
| PyStr.NonEmpty | src/ptee.py:235 | the filter `if line` keeps exactly the non-empty entries, and is empty exactly when every entry is |
| PyStr.NonEmptyAppend | src/ptee.py:235 | the filter keeps the entries' order: filtering `a + b` is filtering `a`, then `b` |
| PyStr.JoinEmpty | src/ptee.py:236 | joining non-empty entries is empty exactly when there are none |
| Regex.FirstMatch | src/ptee.py:254-258 | the first pattern that is non-empty and matches wins; `None` means no pattern matches |
| Regex.RegexJoin | src/ptee.py:89-99 | `regex_join` is empty exactly when every pattern is empty |
| Regex.RegexJoinPair | src/ptee.py:171 | joining into an existing pattern drops an empty side, otherwise joins with "\|" |
| Regex.RegexJoinSplits | src/ptee.py:98 | when no pattern contains "\|" and at least one is non-empty, the joined pattern splits at "\|" back into exactly the non-empty patterns |
| Status.Redraw | src/ptee.py:213-215 | a redraw writes the new status padded with spaces to the old one's length, then "\r"; it writes nothing only when both are empty |
| Status.Erasure | src/ptee.py:218-221 | erasing writes one space per character of the status, then "\r"; it writes nothing for an empty status |
| Status.RedrawEmptyErases | ptee.py:111-112 | redrawing an empty status is erasing the old one |
| ProgressSpec.AddLevelRegex | src/ptee.py:168-171 | the level list grows with empty patterns to reach `level` and only that level changes; a negative level counts from the end, and one past the start raises `IndexError` |
| ProgressSpec.SkipCount | src/ptee.py:270-274 | the count of the first skip rule that matches, 0 when none matches, never negative for positive counts, and non-zero only if a rule matches |
| ProgressSpec.FitStatus | src/ptee.py:202-212 | the drawn status is the stripped, tab-expanded text; when it is wider than a positive width it is cut to exactly that width |
| ProgressSpec.ElideLength | src/ptee.py:204-212 | for a positive width below the status length, the cut meets the width exactly |
| ProgressSpec.ElideShape | src/ptee.py:205-211 | for a status of at least 10 characters and a width from 6 up to below its length, the cut keeps `(width - 5) * 3 // 4` leading characters, " ... " and at least one trailing character |
| ProgressSpec.WriteStatus | src/ptee.py:200-216 | when stripping nothing changes; otherwise the fitted status is redrawn over the last one and becomes the last status |
| ProgressSpec.EraseStatus | src/ptee.py:218-221 | the last status is erased and cleared; nothing else changes |
| ProgressSpec.ClearContext | src/ptee.py:223-225 | the stack is emptied and nothing is shown; nothing else changes |
| ProgressSpec.SetContextLines | src/ptee.py:228-233 | levels above `level` are dropped, missing ones below it are blank, and `level` holds the line |
| ProgressSpec.RStripAll | src/ptee.py:234 | each level is right-stripped |
| ProgressSpec.ContextStatus | src/ptee.py:234-236 | the context status is empty exactly when every level is blank |
| ProgressSpec.SetContext | src/ptee.py:227-236 | the new stack, a display level lowered to `level` at most, and the joined context drawn as the status |
| ProgressSpec.ShowContext | src/ptee.py:238-243 | the status is erased, then every level not yet shown is written in order, and all are then shown |
| ProgressSpec.WriteInContext | src/ptee.py:245-247 | the output gains the erasure, the unshown levels, then the text |
| ProgressSpec.WriteCompleteLine | src/ptee.py:249-259 | classifying a line never touches the buffer, the partial-line flag or the skip counter |
| ProgressSpec.WriteLine | src/ptee.py:261-281 | `_write_line` never touches the buffer, and a complete line leaves no partial line |
| ProgressSpec.Write | src/ptee.py:190-194 | writing "" changes nothing |
| ProgressEngine.Progress.constructor | src/ptee.py:127-142 | a fresh renderer: empty state, no rules, width 0, not stripping |
| ProgressEngine.Progress.AppendLevelRegex | src/ptee.py:168-171 | the growing loop and the join give `AddLevelRegex`; an `IndexError` leaves the patterns alone |
| ProgressEngine.Progress.AppendHeadingRegex | src/ptee.py:173-174 | the heading pattern becomes `regex_join(old, regex)` |
| ProgressEngine.Progress.AppendCountSkipRegex | src/ptee.py:176-177 | the rule is added after the existing ones |
| ProgressEngine.Progress.HaveUnwrittenData | src/ptee.py:183-185 | true exactly when fragments are buffered, which in a reachable state means some text is |
| ProgressEngine.Progress.Write | src/ptee.py:190-194 | the new state is `ProgressSpec.Write` of the old one |
| ProgressEngine.Progress.Flush | src/ptee.py:187-188 | the new state is `ProgressSpec.Flush` of the old one |
| ProgressEngine.Progress.Close | src/ptee.py:179-181 | the new state is `ProgressSpec.Close` of the old one |
| ProgressEngine.Progress.WriteTextParts | src/ptee.py:283-293 | joining the buffer, emptying it, splitting the text with `splitlines(True)` and processing the pieces give `ProgressSpec.WriteTextParts` |
| ProgressEngine.Progress.ProcessPieces | src/ptee.py:288-293 | the loop over the pieces, one at a time and in order, gives `ProgressSpec.ProcessPieces` |
| ProgressEngine.Progress.ProcessPiece | src/ptee.py:288-293 | one iteration of that loop: the piece is written, or kept back |
| ProgressEngine.Progress.WriteLine | src/ptee.py:261-281 | the loop over the skip rules and the branches give `ProgressSpec.WriteLine` |
| ProgressEngine.Progress.WriteCompleteLine | src/ptee.py:249-259 | the loop over the level patterns and its `else` give `ProgressSpec.WriteCompleteLine` |
| ProgressEngine.Progress.ClearContext | src/ptee.py:223-225 | the new state is `ProgressSpec.ClearContext` of the old one |
| ProgressEngine.Progress.SetContext | src/ptee.py:227-236 | the truncation, the padding loop and the status give `ProgressSpec.SetContext` |
| ProgressEngine.Progress.ShowContext | src/ptee.py:238-243 | the loop over the unshown levels gives `ProgressSpec.ShowContext` |
| ProgressEngine.Progress.WriteInContext | src/ptee.py:245-247 | the new state is `ProgressSpec.WriteInContext` of the old one |
| ProgressEngine.Progress.WriteStatus | src/ptee.py:200-216 | the new state is `ProgressSpec.WriteStatus` of the old one |
| ProgressEngine.Progress.EraseStatus | src/ptee.py:218-221 | the new state is `ProgressSpec.EraseStatus` of the old one |
| ProgressEngine.Progress.RawWrite | src/ptee.py:196-198 | the output gains exactly the string |
| ProgressProps.EraseIdempotent | src/ptee.py:218-221 | erasing twice writes no more than erasing once |
| ProgressProps.HeadingClearsContext | src/ptee.py:252-259 | a heading clears the stack first; afterwards it holds at most the heading at its level, and a heading that is no level is written without the discarded context |
| ProgressProps.RegularLine | src/ptee.py:254-259 | a line that is no heading and no level is written after the unshown context; the stack is kept and fully shown |
| ProgressProps.PartialLineUnclassified | src/ptee.py:279-281 | a line without "\n", or any line inside a partial line, is written in context unclassified and uncounted; the flag then says whether it lacked "\n" |
| ProgressProps.SkipBeforeHeading | src/ptee.py:269-278 | a complete line outside a partial line, when the counter is running or a skip rule matches it, changes nothing visible, even when it is a heading |
| ProgressProps.ProcessPiecesAppend | src/ptee.py:287-293 | the loop over `a + b` is the loop over `a`, then over `b` |
| ProgressProps.SkipDown | src/ptee.py:275-276 | outside a partial line, while the counter covers them, complete lines only count it down |
| ProgressProps.SkipRun | src/ptee.py:270-278 | outside a partial line and with no skip pending, a skip rule with count `c` swallows its line and the next `c - 1` complete lines, leaving the state as before them |
| ProgressProps.WriteLineValid | src/ptee.py:261-281 | for positive skip counts, `_write_line` keeps the invariant when the buffer is empty or the line ends in "\n" (as at every call in `_write_text_parts`) |
| ProgressProps.ProcessPiecesValid | src/ptee.py:287-293 | for positive skip counts, the loop over pieces cut as `splitlines(True)` cuts them keeps the invariant, and keeps nothing back when flushing an empty buffer |
| ProgressProps.WriteTextPartsValid | src/ptee.py:283-293 | for positive skip counts, `_write_text_parts` keeps the invariant from a state that is valid apart from its buffer |
| ProgressProps.WriteValid | src/ptee.py:190-194 | for positive skip counts, `write` keeps the invariant: display level within the stack, counter non-negative, buffered pieces without "\n", nothing buffered inside a partial line |
| ProgressProps.CloseValid | src/ptee.py:179-181 | for positive skip counts, `close` keeps the invariant and leaves no text and no status behind |
| ProgressProps.FlushKeepsParts | src/ptee.py:187-188 | the loop with `flush` set never keeps a piece back |
| ProgressProps.CloseEmpties | src/ptee.py:179-181 | after `close()` nothing is buffered and no status is drawn, from any state |
| Reassembly.ReassembleAppend | src/ptee.py:190-194 | for a writer in context that keeps the buffer and the partial-line flag and writes twice as it writes once: reassembling `a` and then `b` is reassembling `a + b` |
| Reassembly.ReassembleNorm | src/ptee.py:285 | only the concatenation of the buffered fragments matters |
| Reassembly.ReassembleBuffered | src/ptee.py:285-293 | outside a partial line, buffered text without "\n" is the start of the next line of text holding a "\n" |
| Reassembly.HoldAppend | src/ptee.py:190-194 | for a writer in context that keeps the buffer and the partial-line flag and writes twice as it writes once: holding non-empty text without "\n", then reassembling more, is reassembling both |
| Reassembly.ReassemblePlain | src/ptee.py:287-293 | for steps that keep the buffer, from a buffer holding no line break but "\n", reassembling text whose only line break is "\n" keeps it so |
| Reassembly.ReassembleVerbatim | src/ptee.py:283-293 | for steps that write lines and text in context as they are, from a quiet state with nothing buffered inside a partial line: the output gains the text, except what is held after its last "\n" |
| ProgressChunks.WriteInContextTwice | src/ptee.py:245-247 | writing in context twice is writing the concatenation once |
| ProgressChunks.ProcessLinesReassemble | src/ptee.py:287-293 | for text whose only line break is "\n", written from an empty buffer, the loop over its lines reassembles it |
| ProgressChunks.WriteReassembles | src/ptee.py:190-194 | from a valid state whose buffer holds no line break but "\n", `write(text)` reassembles `text` when its only line break is "\n" |
| ProgressChunks.WriteAllReassembles | src/ptee.py:190-194 | for positive skip counts, from a valid state whose buffer holds no line break but "\n", successive writes of chunks whose only line break is "\n" reassemble their concatenation |
| ProgressChunks.ChunkingInvisible | src/ptee.py:190-194 | for positive skip counts, from a valid state whose buffer holds no line break but "\n", and for chunks whose only line break is "\n": writing the chunks one by one and writing their concatenation agree, and `close()` then gives the same state and output |
| ProgressChunks.NoRulesSilent | src/ptee.py:252-272 | with every pattern empty, no rule matches any line |
| ProgressChunks.WriteLineSilent | src/ptee.py:261-281 | with no rule matching the line, from a state with no context, no status and no pending skip, the line is written as it is and that state stays so |
| ProgressChunks.FlushSilent | src/ptee.py:187-188 | with no rule matching any line, from a state with no context, no status and no pending skip, flushing writes every piece as it is |
| ProgressChunks.CloseSilent | src/ptee.py:179-181 | with no rule matching any line, from a state with no context, no status and no pending skip, `close()` writes exactly the buffered text |
| ProgressChunks.PassThrough | src/ptee.py:190-194 | with positive skip counts and no rule matching any line, a fresh renderer's output after `close()` is the input whose only line break is "\n", however it was cut into chunks |
| ProgressChunks.SplitCarriageReturn | src/ptee.py:287 | `splitlines(True)` also breaks after "\r" |
| ProgressChunks.CarriageReturnReorders | src/ptee.py:288-293 | when no rule matches any line, for "a\rb\n" the piece "a\r" is kept back and "b\n" is written first; `close()` then writes "a\r" after it |
| TeeSpec.WriteStatus | ptee.py:96-101 | the last status becomes the stripped status; unless stripping it is redrawn over the old one; nothing else changes |
| TeeSpec.Ditto | ptee.py:115-116 | every ditto file gains the line |
| TeeSpec.Reverse | ptee.py:134-135 | popping until empty visits the files last first |
| TeeSpec.ReversePrepend | ptee.py:134-135 | for a non-empty list, the first file is visited last |
| TeeSpec.LinesBeforeEnd | ptee.py:142-147 | the lines read before the first empty `readline()` result |
| TeeEngine.Tee.constructor | ptee.py:46-53 | a fresh `Tee`: no status, no ditto files, empty patterns, not stripping |
| TeeEngine.Tee.Write | ptee.py:93-94 | the output gains exactly the string |
| TeeEngine.Tee.WriteStatus | ptee.py:96-101 | the new state is `TeeSpec.WriteStatus` of the old one |
| TeeEngine.Tee.KeepStatus | ptee.py:103-109 | the new state is `TeeSpec.KeepStatus` of the old one |
| TeeEngine.Tee.Flush | ptee.py:111-112 | the new state is `TeeSpec.Flush` of the old one |
| TeeEngine.Tee.PutLine | ptee.py:114-124 | the copying loop and the three branches give `TeeSpec.PutLine` |
| TeeEngine.Tee.AddDittoFile | ptee.py:126-127 | the file is added after the others |
| TeeEngine.Tee.CloseDittoFiles | ptee.py:133-135 | the pop loop closes the files last first and leaves none open |
| TeeEngine.Tee.Close | ptee.py:137-139 | the new state is `TeeSpec.Close` of the old one |
| TeeEngine.Tee.Drain | ptee.py:141-147 | the read loop puts every line before the first empty read, in order |
| TeeProps.KeepStatusOnce | ptee.py:103-109 | keeping writes "\n", preceded by the status when stripping, and only when a status is pending; it clears the status, and keeping again writes nothing |
| TeeProps.RStripNoNewline | ptee.py:97 | right-stripping a line with "\n" at most at its end leaves no "\n" |
| TeeProps.RedrawNoNewline | ptee.py:98-100 | redrawing a status without "\n" writes no "\n" |
| TeeProps.WriteStatusStaysOnLine | ptee.py:96-101 | `write_status` of a line with "\n" at most at its end never ends the output line |
| TeeProps.HeadingPrecedence | ptee.py:117-119 | a heading is handled the same whatever the status pattern; its stripped text is drawn over the last status and then kept, so no status is pending; a heading that strips to "" writes at most the erasure of the last status, and no "\n" |
| TeeProps.StatusLine | ptee.py:120-121 | a status line (no heading, "\n" at most at its end) only redraws the status: the output gains no "\n" and the line becomes the pending status |
| TeeProps.RegularLine | ptee.py:122-124 | a line matching neither pattern keeps the pending status, then is written verbatim |
| TeeProps.PutLineDitto | ptee.py:115-116 | every ditto file gains the line whichever branch is taken, and none is closed |
| TeeProps.PutLinesDitto | ptee.py:114-116 | after a run of lines every ditto file holds its old contents followed by all of them |
| TeeProps.FlushErases | ptee.py:111-112 | `flush()` erases a drawn status with spaces and "\r" and leaves none pending |
| TeeProps.CloseEmpties | ptee.py:137-139 | `close()` erases the status and closes every ditto file, the last added first, leaving none open |
| TeeProps.PassThrough | ptee.py:122-124 | when no status is pending and no line matches either pattern, the output gains exactly the input (a pending status would first be kept with a "\n") |
| TeeProps.StripStatusRun | ptee.py:96-101 | when stripping, a non-empty run of status lines that are no headings writes nothing and leaves the last one pending |
| TeeProps.DrainStopsAtEnd | ptee.py:141-147 | for non-empty lines, `drain` puts them and stops at the first empty read, never reading beyond it |
| TeeProps.DrainClose | ptee.py:137-147 | for non-empty lines followed by an empty read, draining then closing writes the lines' output, then erases the pending status |
| TeeProps.StatusStep | ptee.py:96-101 | when not stripping, a status line (no heading) whose text is non-empty, ends in a non-space and is at least as long as the last status is drawn as its text followed by "\r" |
| TeeProps.HeadingStep | ptee.py:117-119 | when not stripping, a heading whose text is non-empty, ends in a non-space and is at least as long as the last status is drawn as its text followed by "\r\n" |
| TeeProps.TwoStatuses | test/test_ptee.py:72-80 | when not stripping, two status lines `a` and `b` (no headings, non-empty, ending in a non-space, `|a| <= |b|`), then `close()`: the output is `a`, "\r", `b`, "\r", then `b` erased with spaces |
| TeeProps.HeadingStatusLine | test/test_ptee.py:102-118 | when not stripping, a heading, a status line and a line matching neither pattern (texts non-empty and ending in a non-space), then `close()`: the heading and the status each stay on their own line |

## Left out

- The regex engine. `re.search` is the parameter `search`, and nothing is assumed about it. The model only keeps the code's `regex and ...` guard, so an empty pattern never matches.
- Concurrency and timing. The reader thread, the queue and the partial-line timeout in `inner_main` (`src/ptee.py:440-497`) are not modelled. A timeout there only calls `flush()`, which is modelled.
- Encoding. The codec writer `stdout_writer` and the incremental decoder are not modelled. Input is already-decoded text.
- Terminal width. `get_terminal_width`, `blessed` and the `SIGWINCH` handler are not modelled. What the terminal reports is the field `terminalWidth`, 80 until it is set.
- The command line. `make_parser`, `make_progress`, `readme`, `main` and `inner_main` in both files, and `setup.py`, are not modelled.
  - `make_progress` rejects non-positive skip counts (`src/ptee.py:423-430`). The invariant lemmas assume this through `ValidConfig`; the methods themselves accept any count, as the source does.
- Files. The output file of each renderer is the string it has received, and `fwrite`'s flush is not modelled.
  - A ditto file is modelled by its contents, and closing it by moving those contents to `closedFiles`.
  - `open_ditto_file` (`io.open`) is not modelled.
  - A ditto file added twice is two entries here, not one file object shared by both.
- The property getters and setters of both classes are plain fields. The `outfile` setter is not modelled, since the output is a string.
- The field `_heading` of `Progress` is never read by the source, so it is not modelled.
- `drain` reads from a file object. Here its input is the sequence of strings that successive `readline()` calls return.
- ProgressChunks.ChunkingInvisible: stated only for configurations whose skip counts are positive and for text whose only line break is "\n". `splitlines(True)` also breaks at "\r" and other separators, and then a piece that does not end in "\n" is held back behind the line after it; ProgressChunks.CarriageReturnReorders shows this.
- ProgressChunks.PassThrough: stated for configurations in which no rule matches any line, not for a particular input whose lines happen to match nothing. It is also stated only for text whose only line break is "\n": `"a\rb\n"` comes out as `"b\na\r"` (ProgressChunks.CarriageReturnReorders).
- TeeProps.TwoStatuses: the scenario is stated over successive `put_line` calls and `close()`. Reading the lines with `drain` is the separate lemma TeeProps.DrainStopsAtEnd.
- TeeProps.HeadingStatusLine: it covers the first, second and last lines of the test's input, not the whole input.
