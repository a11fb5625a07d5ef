/** Class `Tee` of ptee.py: each method is proved to move the object from one state to the
    next exactly as the transition of the same name in `TeeSpec` does. */
module TeeEngine {
  import opened PyStr
  import opened Regex
  import Spec = TeeSpec

  class Tee {
    /** Holds the contents of the most recent status line. */
    var lastStatusLine: string
    /** The contents of the open ditto files, in the order they were added. */
    var dittoFiles: seq<string>
    /** The contents of the ditto files closed so far, in the order they were closed. */
    var closedFiles: seq<string>
    var strip: bool
    var regex: string
    var headingRegex: string
    /** What has been written to `outfile`. */
    var output: string
    /** `re.search`, which the model does not interpret. */
    const search: Search

    function State(): Spec.State
      reads this`lastStatusLine, this`dittoFiles, this`closedFiles, this`output
    {
      Spec.State(lastStatusLine, dittoFiles, closedFiles, output)
    }

    function Config(): Spec.Config
      reads this`strip, this`regex, this`headingRegex
    {
      Spec.Config(strip, regex, headingRegex, search)
    }

    constructor (search: Search)
      ensures State() == Spec.Initial()
      ensures Config() == Spec.Config(false, "", "", search)
    {
      lastStatusLine := "";
      dittoFiles := [];
      closedFiles := [];
      strip := false;
      regex := "";
      headingRegex := "";
      output := "";
      this.search := search;
    }

    /** `write(s)`: a flushed write to `outfile`. */
    method Write(s: string)
      modifies this`output
      ensures output == old(output) + s
    {
      output := output + s;
    }

    method WriteStatus(status: string)
      modifies this`lastStatusLine, this`output
      ensures State() == Spec.WriteStatus(Config(), old(State()), status)
    {
      var stripped := RStrip(status);
      var paddedStatus := LJust(stripped, |lastStatusLine|);
      if paddedStatus != "" && !strip {
        Write(paddedStatus + "\r");
      }
      lastStatusLine := stripped;
    }

    method KeepStatus()
      modifies this`lastStatusLine, this`output
      ensures State() == Spec.KeepStatus(Config(), old(State()))
    {
      if lastStatusLine != "" {
        if strip {
          Write(lastStatusLine + "\n");
        } else {
          Write("\n");
        }
        lastStatusLine := "";
      }
    }

    method Flush()
      modifies this`lastStatusLine, this`output
      ensures State() == Spec.Flush(Config(), old(State()))
    {
      WriteStatus("");
    }

    method PutLine(line: string)
      modifies this`lastStatusLine, this`output, this`dittoFiles
      ensures State() == Spec.PutLine(Config(), old(State()), line)
    {
      var i := 0;
      while i < |dittoFiles|
        modifies this`dittoFiles
        invariant i <= |dittoFiles| == |old(dittoFiles)|
        invariant forall j :: 0 <= j < i ==> dittoFiles[j] == old(dittoFiles)[j] + line
        invariant forall j :: i <= j < |dittoFiles| ==> dittoFiles[j] == old(dittoFiles)[j]
      {
        dittoFiles := dittoFiles[i := dittoFiles[i] + line];
        i := i + 1;
      }
      assert dittoFiles == Spec.Ditto(old(dittoFiles), line);
      if headingRegex != "" && search(headingRegex, line) {
        WriteStatus(line);
        KeepStatus();
      } else if regex != "" && search(regex, line) {
        WriteStatus(line);
      } else {
        KeepStatus();
        Write(line);
      }
    }

    /** `add_ditto_file(ditto_file)`, for a file that already holds `contents`. */
    method AddDittoFile(contents: string)
      modifies this`dittoFiles
      ensures State() == Spec.AddDittoFile(old(State()), contents)
    {
      dittoFiles := dittoFiles + [contents];
    }

    method CloseDittoFiles()
      modifies this`dittoFiles, this`closedFiles
      ensures State() == Spec.CloseDittoFiles(old(State()))
    {
      while dittoFiles != []
        invariant |dittoFiles| <= |old(dittoFiles)| && dittoFiles == old(dittoFiles)[..|dittoFiles|]
        invariant closedFiles == old(closedFiles) + Spec.Reverse(old(dittoFiles)[|dittoFiles|..])
      {
        var n := |dittoFiles|;
        var f := dittoFiles[n - 1];
        Spec.ReversePrepend(old(dittoFiles)[n - 1..]);
        assert old(dittoFiles)[n - 1..][1..] == old(dittoFiles)[n..];
        dittoFiles := dittoFiles[..n - 1];
        closedFiles := closedFiles + [f];
      }
      assert old(dittoFiles)[0..] == old(dittoFiles);
    }

    method Close()
      modifies this`lastStatusLine, this`output, this`dittoFiles, this`closedFiles
      ensures State() == Spec.Close(Config(), old(State()))
    {
      Flush();
      CloseDittoFiles();
    }

    /** `drain(infile)`, where `lines` are what successive `readline()` calls return. */
    method Drain(lines: seq<string>)
      modifies this`lastStatusLine, this`output, this`dittoFiles
      ensures State() == Spec.Drain(Config(), old(State()), lines)
    {
      ghost var start := State();
      var i := 0;
      while i < |lines| && lines[i] != ""
        invariant i <= Spec.LinesBeforeEnd(lines)
        invariant State() == Spec.PutLines(Config(), start, lines[..i])
      {
        Spec.LinesBeforeEndStep(lines, i);
        Spec.PutLinesSnoc(Config(), start, lines, i);
        PutLine(lines[i]);
        i := i + 1;
      }
      Spec.LinesBeforeEndStep(lines, i);
    }
  }
}
