/** The `Progress` class of src/ptee.py: the line-oriented renderer, as a class whose methods
    update its fields in place. Each method is proved to change the rendering state exactly as
    the matching function of `ProgressSpec` says; the output file is the field `output`, to
    which `RawWrite` appends. */
module ProgressEngine {
  import opened PyStr
  import opened Regex
  import opened Status
  import Spec = ProgressSpec

  class Progress {
    var lastStatus: string
    var strip: bool
    var regexes: seq<string>
    var headingRegex: string
    var countSkipRegexes: seq<Spec.SkipRule>
    var contextLines: seq<string>
    var displayLevel: nat
    var width: int
    var textParts: seq<string>
    var withinPartialLine: bool
    var numLinesToSkip: int
    /** Everything written to the output file so far. */
    var output: string
    /** What `get_terminal_width()` reports; kept up to date by whoever tracks the terminal. */
    var terminalWidth: int
    /** The regex engine behind `re.search`. */
    const search: Search

    /** The configuration the rendering methods read. */
    function Config(): Spec.Config
      reads this`strip, this`width, this`terminalWidth, this`regexes, this`headingRegex,
            this`countSkipRegexes
    {
      Spec.Config(strip, width, terminalWidth, regexes, headingRegex, countSkipRegexes, search)
    }

    /** The rendering state the rendering methods update. */
    function State(): Spec.State
      reads this`lastStatus, this`contextLines, this`displayLevel, this`textParts,
            this`withinPartialLine, this`numLinesToSkip, this`output
    {
      Spec.State(lastStatus, contextLines, displayLevel, textParts, withinPartialLine,
                 numLinesToSkip, output)
    }

    constructor (search: Search)
      ensures State() == Spec.Initial()
      ensures !strip && width == 0 && terminalWidth == Spec.DefaultTerminalWidth
      ensures regexes == [] && headingRegex == "" && countSkipRegexes == []
      ensures this.search == search
    {
      lastStatus := "";
      strip := false;
      regexes := [];
      headingRegex := "";
      countSkipRegexes := [];
      contextLines := [];
      displayLevel := 0;
      width := 0;
      textParts := [];
      withinPartialLine := false;
      numLinesToSkip := 0;
      output := "";
      terminalWidth := Spec.DefaultTerminalWidth;
      this.search := search;
    }

    // ------------------------------------------------------------ configuration

    /** `append_level_regex(level, regex)`; `indexError` says that Python's indexing raised
        `IndexError`, which leaves the patterns as they were. */
    method AppendLevelRegex(level: int, regex: string) returns (indexError: bool)
      modifies this`regexes
      ensures var r := Spec.AddLevelRegex(old(regexes), level, regex);
        && indexError == r.None?
        && regexes == if r.Some? then r.value else old(regexes)
    {
      while level >= |regexes|
        invariant regexes == old(regexes) + Spec.Blanks(|regexes| - |old(regexes)|)
        invariant |regexes| <= if level < |old(regexes)| then |old(regexes)| else level + 1
        decreases level + 1 - |regexes|
      {
        regexes := regexes + [""];
      }
      var k := if level >= 0 then level else |regexes| + level;
      if k < 0 {
        return true;
      }
      regexes := regexes[k := RegexJoin([regexes[k], regex])];
      return false;
    }

    method AppendHeadingRegex(regex: string)
      modifies this`headingRegex
      ensures headingRegex == RegexJoin([old(headingRegex), regex])
    {
      headingRegex := RegexJoin([headingRegex, regex]);
    }

    method AppendCountSkipRegex(count: int, skipRegex: string)
      modifies this`countSkipRegexes
      ensures countSkipRegexes == old(countSkipRegexes) + [Spec.SkipRule(count, skipRegex)]
    {
      countSkipRegexes := countSkipRegexes + [Spec.SkipRule(count, skipRegex)];
    }

    // ------------------------------------------------------------ input

    /** `have_unwritten_data`: some text is buffered that has not been written yet. */
    function HaveUnwrittenData(): (r: bool)
      reads this`textParts, this`lastStatus, this`contextLines, this`displayLevel,
            this`withinPartialLine, this`numLinesToSkip, this`output
      ensures r <==> textParts != []
      ensures Spec.Valid(State()) ==> (r <==> Concat(textParts) != "")
    {
      assert textParts != [] ==> Concat(textParts) == textParts[0] + Concat(textParts[1..]);
      |textParts| != 0
    }

    method Write(text: string)
      modifies this`lastStatus, this`contextLines, this`displayLevel, this`textParts,
               this`withinPartialLine, this`numLinesToSkip, this`output
      ensures State() == Spec.Write(Config(), old(State()), text)
    {
      if text != "" {
        textParts := textParts + [text];
        if withinPartialLine || '\n' in text {
          WriteTextParts(false);
        }
      }
    }

    method Flush()
      modifies this`lastStatus, this`contextLines, this`displayLevel, this`textParts,
               this`withinPartialLine, this`numLinesToSkip, this`output
      ensures State() == Spec.Flush(Config(), old(State()))
    {
      WriteTextParts(true);
    }

    method Close()
      modifies this`lastStatus, this`contextLines, this`displayLevel, this`textParts,
               this`withinPartialLine, this`numLinesToSkip, this`output
      ensures State() == Spec.Close(Config(), old(State()))
    {
      Flush();
      EraseStatus();
    }

    method WriteTextParts(flush: bool)
      modifies this`lastStatus, this`contextLines, this`displayLevel, this`textParts,
               this`withinPartialLine, this`numLinesToSkip, this`output
      ensures State() == Spec.WriteTextParts(Config(), old(State()), flush)
    {
      if textParts != [] {
        var joinedText := Concat(textParts);
        textParts := [];
        var lines := SplitLines(joinedText);
        ProcessPieces(lines, flush);
      }
    }

    /** The loop over the pieces in `_write_text_parts`. */
    method ProcessPieces(pieces: seq<string>, flush: bool)
      modifies this`lastStatus, this`contextLines, this`displayLevel, this`textParts,
               this`withinPartialLine, this`numLinesToSkip, this`output
      ensures State() == Spec.ProcessPieces(Config(), old(State()), pieces, flush)
    {
      ghost var start := State();
      for i := 0 to |pieces|
        invariant State() == Spec.ProcessPieces(Config(), start, pieces[..i], flush)
      {
        Spec.ProcessPiecesSnoc(Config(), start, pieces, i, flush);
        ProcessPiece(pieces[i], flush);
      }
      assert pieces[..|pieces|] == pieces;
    }

    /** One iteration of the loop in `_write_text_parts`. */
    method ProcessPiece(piece: string, flush: bool)
      modifies this`lastStatus, this`contextLines, this`displayLevel, this`textParts,
               this`withinPartialLine, this`numLinesToSkip, this`output
      ensures State() == Spec.ProcessPiece(Config(), old(State()), piece, flush)
    {
      if flush || withinPartialLine || EndsWithNewline(piece) {
        WriteLine(piece);
      } else {
        textParts := textParts + [piece];
      }
    }

    // ------------------------------------------------------------ classification

    method WriteLine(line: string)
      modifies this`lastStatus, this`contextLines, this`displayLevel,
               this`withinPartialLine, this`numLinesToSkip, this`output
      ensures State() == Spec.WriteLine(Config(), old(State()), line)
    {
      var hasNewline := EndsWithNewline(line);
      var isCompleteLine := hasNewline && !withinPartialLine;
      if isCompleteLine {
        if numLinesToSkip == 0 {
          ghost var skipRegexes := Spec.SkipRegexes(countSkipRegexes);
          var i := 0;
          while i < |countSkipRegexes|
            invariant i <= |countSkipRegexes| && numLinesToSkip == 0
            invariant forall j :: 0 <= j < i ==> !Matches(search, skipRegexes[j], line)
          {
            var rule := countSkipRegexes[i];
            if rule.regex != "" && search(rule.regex, line) {
              numLinesToSkip := rule.count;
              assert Spec.SkipCount(Config(), line) == rule.count;
              break;
            }
            i := i + 1;
          }
          assert numLinesToSkip == Spec.SkipCount(Config(), line);
        }
        if numLinesToSkip > 0 {
          numLinesToSkip := numLinesToSkip - 1;
        } else {
          WriteCompleteLine(line);
        }
      } else {
        WriteInContext(line);
        withinPartialLine := !hasNewline;
      }
    }

    method WriteCompleteLine(line: string)
      modifies this`lastStatus, this`contextLines, this`displayLevel, this`output
      ensures State() == Spec.WriteCompleteLine(Config(), old(State()), line)
    {
      if headingRegex != "" && search(headingRegex, line) {
        ClearContext();
      }
      ghost var cleared := State();
      var level := 0;
      while level < |regexes|
        invariant level <= |regexes| && State() == cleared
        invariant forall j :: 0 <= j < level ==> !Matches(search, regexes[j], line)
      {
        if regexes[level] != "" && search(regexes[level], line) {
          assert FirstMatch(search, regexes, line) == Some(level);
          SetContext(level, line);
          return;
        }
        level := level + 1;
      }
      WriteInContext(line);
    }

    // ------------------------------------------------------------ context stack

    method ClearContext()
      modifies this`contextLines, this`displayLevel
      ensures State() == Spec.ClearContext(old(State()))
    {
      contextLines := [];
      displayLevel := 0;
    }

    method SetContext(level: nat, context: string)
      modifies this`lastStatus, this`contextLines, this`displayLevel, this`output
      ensures State() == Spec.SetContext(Config(), old(State()), level, context)
    {
      if displayLevel > level {
        displayLevel := level;
      }
      var lines := contextLines;
      if level + 1 < |lines| {
        lines := lines[..level + 1];
      }
      ghost var kept := lines;
      while level >= |lines|
        invariant lines == kept + Spec.Blanks(|lines| - |kept|)
        invariant |lines| <= if level < |kept| then |kept| else level + 1
        decreases level + 1 - |lines|
      {
        lines := lines + [""];
      }
      assert lines == kept + Spec.Blanks(level + 1 - |kept|);
      contextLines := lines[level := context];
      assert contextLines == Spec.SetContextLines(old(contextLines), level, context);
      assert State() == old(State()).(displayLevel := displayLevel, contextLines := contextLines);
      WriteStatus(Spec.ContextStatus(contextLines));
    }

    method ShowContext()
      modifies this`lastStatus, this`displayLevel, this`output
      ensures State() == Spec.ShowContext(old(State()))
    {
      EraseStatus();
      ghost var erased := State();
      var endLevel := |contextLines|;
      var level := displayLevel;
      while level < endLevel
        modifies this`output
        invariant displayLevel <= endLevel ==> displayLevel <= level <= endLevel
        invariant endLevel < displayLevel ==> level == displayLevel
        invariant output == erased.out + Concat(Spec.Unshown(erased)[..level - displayLevel])
      {
        ghost var todo := Spec.Unshown(erased);
        assert todo[..level + 1 - displayLevel] == todo[..level - displayLevel] + [contextLines[level]];
        ConcatSnoc(todo[..level - displayLevel], contextLines[level]);
        RawWrite(contextLines[level]);
        level := level + 1;
      }
      assert Spec.Unshown(erased)[..level - displayLevel] == Spec.Unshown(erased);
      displayLevel := endLevel;
    }

    method WriteInContext(s: string)
      modifies this`lastStatus, this`displayLevel, this`output
      ensures State() == Spec.WriteInContext(old(State()), s)
    {
      ShowContext();
      RawWrite(s);
    }

    // ------------------------------------------------------------ status line

    method WriteStatus(status: string)
      modifies this`lastStatus, this`output
      ensures State() == Spec.WriteStatus(Config(), old(State()), status)
    {
      if !strip {
        var w := if width != 0 then width else terminalWidth;
        var s := Spec.FitStatus(status, w);
        var paddedStatus := LJust(s, |lastStatus|);
        if paddedStatus != "" {
          RawWrite(paddedStatus + "\r");
        }
        lastStatus := s;
      }
    }

    method EraseStatus()
      modifies this`lastStatus, this`output
      ensures State() == Spec.EraseStatus(old(State()))
    {
      if lastStatus != "" {
        RawWrite(Spaces(|lastStatus|) + "\r");
        lastStatus := "";
      }
    }

    /** `_raw_write(string)`: append to the output file. */
    method RawWrite(s: string)
      modifies this`output
      ensures output == old(output) + s
    {
      output := output + s;
    }
  }
}
