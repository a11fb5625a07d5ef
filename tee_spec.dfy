/** The older, single-level renderer: class `Tee` of ptee.py (ptee.py:45-147), as state
    transitions. A line is a HEADING (it matches the heading pattern), a STATUS line (it
    matches the status pattern) or REGULAR; a status line is drawn over the previous one with
    "\r", and is kept on screen when a heading or regular line follows it. Every line is also
    copied to each ditto file, whose contents are modelled as strings. */
module TeeSpec {
  import opened PyStr
  import opened Regex
  import opened Status

  /** The settings a caller gives a `Tee` through its properties. */
  datatype Config = Config(strip: bool, regex: string, headingRegex: string, search: Search)

  /** `last_status_line`, the contents of the open ditto files in the order they were added,
      the contents of the ditto files already closed in the order they were closed, and the
      output written so far. */
  datatype State = State(lastStatusLine: string, dittoFiles: seq<string>, closedFiles: seq<string>,
                         out: string)

  /** A fresh `Tee` (ptee.py:46-53). */
  function Initial(): State {
    State("", [], [], "")
  }

  /** `write_status(status)` (ptee.py:96-101): the right-stripped status is drawn padded to
      the previous one and followed by "\r", unless stripping or there is nothing to draw; it
      becomes the last status either way. */
  function WriteStatus(cfg: Config, st: State, status: string): (r: State)
    ensures r.lastStatusLine == RStrip(status)
    ensures r.out == st.out + (if cfg.strip then "" else Redraw(st.lastStatusLine, RStrip(status)))
    ensures r.(out := st.out, lastStatusLine := st.lastStatusLine) == st
  {
    var stripped := RStrip(status);
    var paddedStatus := LJust(stripped, |st.lastStatusLine|);
    var out := if paddedStatus != "" && !cfg.strip then st.out + paddedStatus + "\r" else st.out;
    st.(out := out, lastStatusLine := stripped)
  }

  /** `keep_status()` (ptee.py:103-109): a drawn status is left on screen by moving to the next
      line; when stripping, it was never drawn and is written now. */
  function KeepStatus(cfg: Config, st: State): State {
    if st.lastStatusLine != "" then
      var kept := if cfg.strip then st.lastStatusLine + "\n" else "\n";
      st.(out := st.out + kept, lastStatusLine := "")
    else st
  }

  /** `flush()` (ptee.py:111-112) */
  function Flush(cfg: Config, st: State): State {
    WriteStatus(cfg, st, "")
  }

  /** Every ditto file with `line` appended. */
  function Ditto(files: seq<string>, line: string): (r: seq<string>)
    ensures |r| == |files|
    ensures forall i :: 0 <= i < |files| ==> r[i] == files[i] + line
  {
    seq(|files|, i requires 0 <= i < |files| => files[i] + line)
  }

  /** `put_line(line)` (ptee.py:114-124): copy the line to every ditto file, then draw and keep
      it if it is a heading, draw it if it is a status line, or keep the status and write it
      otherwise. */
  function PutLine(cfg: Config, st: State, line: string): State {
    var copied := st.(dittoFiles := Ditto(st.dittoFiles, line));
    if Matches(cfg.search, cfg.headingRegex, line) then
      KeepStatus(cfg, WriteStatus(cfg, copied, line))
    else if Matches(cfg.search, cfg.regex, line) then
      WriteStatus(cfg, copied, line)
    else
      var kept := KeepStatus(cfg, copied);
      kept.(out := kept.out + line)
  }

  /** `add_ditto_file(ditto_file)` (ptee.py:126-127), for a file holding `contents`. */
  function AddDittoFile(st: State, contents: string): State {
    st.(dittoFiles := st.dittoFiles + [contents])
  }

  /** `s` backwards. */
  function Reverse(s: seq<string>): (r: seq<string>)
    ensures |r| == |s|
    ensures forall i :: 0 <= i < |s| ==> r[i] == s[|s| - 1 - i]
    decreases |s|
  {
    if s == [] then [] else [s[|s| - 1]] + Reverse(s[..|s| - 1])
  }

  /** Reversing puts the first element last. */
  lemma ReversePrepend(s: seq<string>)
    requires s != []
    ensures Reverse(s) == Reverse(s[1..]) + [s[0]]
  {
    var r, t := Reverse(s), Reverse(s[1..]) + [s[0]];
    forall i | 0 <= i < |s| ensures r[i] == t[i] {
      if i < |s| - 1 {
        calc {
          t[i];
          Reverse(s[1..])[i];
          s[1..][|s| - 2 - i];
          s[|s| - 1 - i];
        }
      }
    }
  }

  /** `close_ditto_files()` (ptee.py:133-135): the files are popped and closed, last first. */
  function CloseDittoFiles(st: State): State {
    st.(dittoFiles := [], closedFiles := st.closedFiles + Reverse(st.dittoFiles))
  }

  /** `close()` (ptee.py:137-139) */
  function Close(cfg: Config, st: State): State {
    CloseDittoFiles(Flush(cfg, st))
  }

  /** `put_line` for each of `lines` in turn. */
  function PutLines(cfg: Config, st: State, lines: seq<string>): State
    decreases |lines|
  {
    if lines == [] then st else PutLine(cfg, PutLines(cfg, st, lines[..|lines| - 1]), lines[|lines| - 1])
  }

  lemma PutLinesSnoc(cfg: Config, st: State, lines: seq<string>, i: nat)
    requires i < |lines|
    ensures PutLines(cfg, st, lines[..i + 1]) == PutLine(cfg, PutLines(cfg, st, lines[..i]), lines[i])
  {
    assert lines[..i + 1][..i] == lines[..i];
  }

  /** The number of lines before the first empty one: `readline()` returns "" only at the end
      of the input. */
  function LinesBeforeEnd(lines: seq<string>): (n: nat)
    ensures n <= |lines|
    ensures forall i :: 0 <= i < n ==> lines[i] != ""
    ensures n < |lines| ==> lines[n] == ""
    decreases |lines|
  {
    if lines == [] || lines[0] == "" then 0 else 1 + LinesBeforeEnd(lines[1..])
  }

  /** `drain(infile)` (ptee.py:141-147), where `lines` are what successive `readline()` calls
      return. */
  function Drain(cfg: Config, st: State, lines: seq<string>): State {
    PutLines(cfg, st, lines[..LinesBeforeEnd(lines)])
  }

  /** Up to the end of the input, a line read is the end exactly when it is empty. */
  lemma LinesBeforeEndStep(lines: seq<string>, i: nat)
    requires i <= LinesBeforeEnd(lines)
    ensures i < LinesBeforeEnd(lines) <==> i < |lines| && lines[i] != ""
  {
  }
}
