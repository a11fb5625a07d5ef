/** The terminal text both renderers use to draw and erase an overwritable status line. */
module Status {
  import opened PyStr

  /** What redrawing `status` over a previously drawn `previous` writes:
      `status.ljust(len(previous)) + "\r"`, or nothing when that padded text is empty. */
  function Redraw(previous: string, status: string): (r: string)
    ensures r == "" <==> status == "" && previous == ""
    ensures r != "" ==> |r| == (if |previous| > |status| then |previous| else |status|) + 1
    ensures r != "" ==> r[|r| - 1] == '\r' && r[..|status|] == status
    ensures forall i :: |status| <= i < |r| - 1 ==> r[i] == ' '
  {
    var padded := LJust(status, |previous|);
    if padded != "" then padded + "\r" else ""
  }

  /** What erasing a drawn `previous` writes: `" " * len(previous) + "\r"`, or nothing. */
  function Erasure(previous: string): (r: string)
    ensures previous == "" ==> r == ""
    ensures previous != "" ==> |r| == |previous| + 1 && r[|previous|] == '\r'
    ensures forall i :: 0 <= i < |previous| ==> r[i] == ' '
  {
    if previous != "" then Spaces(|previous|) + "\r" else ""
  }

  /** Redrawing an empty status is the same as erasing the previous one. */
  lemma RedrawEmptyErases(previous: string)
    ensures Redraw(previous, "") == Erasure(previous)
  {
    assert LJust("", |previous|) == Spaces(|previous|);
  }
}
