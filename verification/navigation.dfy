/**
 * The cursor moves of the viewer's toolbar: "Previous", "Next" and "Jump to
 * row". Each is a guarded update of the 0-based cursor; the toolbar labels the
 * cursor 1-based as "Row {cursor + 1} of {total}".
 */
module Navigation {
  import opened Basics

  /** The cursor lies on a row of the table. */
  predicate InRange(cur: nat, total: int) {
    cur < total
  }

  /** "Previous": step back one row unless already on the first. */
  function Previous(cur: nat): (r: nat)
    ensures r <= cur && cur - r <= 1
    ensures r < cur <==> cur > 0
  {
    if cur > 0 then cur - 1 else cur
  }

  /** "Next": step forward one row unless already on the last. */
  function Next(cur: nat, total: int): (r: nat)
    ensures cur <= r <= cur + 1
    ensures r > cur <==> cur < total - 1
  {
    if cur < total - 1 then cur + 1 else cur
  }

  /**
   * "Jump to row" with the text box already parsed as an unsigned integer
   * (`None` when it does not parse): a 1-based row in `[1, total]` moves the
   * cursor onto it, anything else leaves the cursor where it is.
   */
  function Jump(cur: nat, total: int, parsed: Option<nat>): (r: nat)
    ensures r != cur ==> parsed.Some? && 1 <= parsed.value <= total && r == parsed.value - 1
    ensures parsed.Some? && 1 <= parsed.value <= total ==> r + 1 == parsed.value
  {
    match parsed
    case Some(row) => if row > 0 && row <= total then row - 1 else cur
    case None => cur
  }

  /** The 1-based row number the toolbar shows for a cursor. */
  function Label(cur: nat): (shown: nat) {
    cur + 1
  }

  /** Every move keeps a cursor that is on a row of the table on one. */
  lemma MovesStayInRange(cur: nat, total: int, parsed: Option<nat>)
    requires InRange(cur, total)
    ensures InRange(Previous(cur), total)
    ensures InRange(Next(cur, total), total)
    ensures InRange(Jump(cur, total, parsed), total)
  {
  }

  /**
   * A jump can bring a cursor that was out of range (an unclamped saved
   * position) back onto the table, and every accepted row lands in range;
   * "Next" never moves an out-of-range cursor.
   */
  lemma JumpRecovers(cur: nat, total: int, row: nat)
    requires 1 <= row <= total
    ensures InRange(Jump(cur, total, Some(row)), total)
    ensures !InRange(cur, total) ==> Next(cur, total) == cur
  {
  }

  /** "Next" then "Previous" returns to the same row whenever "Next" moved. */
  lemma NextThenPrevious(cur: nat, total: int)
    requires cur < total - 1
    ensures Previous(Next(cur, total)) == cur
  {
  }

  /** "Previous" then "Next" returns to the same row whenever "Previous" moved and the row was in range. */
  lemma PreviousThenNext(cur: nat, total: int)
    requires 0 < cur < total
    ensures Next(Previous(cur), total) == cur
  {
  }

  /** Typing the row number the toolbar shows jumps to the current row. */
  lemma JumpToLabel(cur: nat, total: int)
    requires InRange(cur, total)
    ensures Jump(cur, total, Some(Label(cur))) == cur
    ensures forall other: nat :: Jump(other, total, Some(Label(cur))) == cur
  {
  }

  /** A rejected entry (unparsable, zero, or past the end) is a no-op. */
  lemma JumpRejects(cur: nat, total: int, parsed: Option<nat>)
    requires parsed.None? || parsed.value == 0 || parsed.value > total
    ensures Jump(cur, total, parsed) == cur
  {
  }
}
