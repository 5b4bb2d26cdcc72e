/**
 * Row-group arithmetic: the total row count, the cumulative start of each row
 * group, and the locator that maps a global row index to the row group that
 * owns it and the offset inside that group.
 */
module Locator {
  import opened Basics
  import opened ParquetTable

  /**
   * The table's row count: the sum of the row groups' metadata row counts.
   * It is the number of rows in the table's flat layout, so global row
   * numbers run from 0 up to it.
   */
  function TotalRows(groups: seq<RowGroup>): (n: nat)
    decreases |groups|
  {
    if |groups| == 0 then 0 else |groups[0]| + TotalRows(groups[1..])
  }

  /** All rows of the table in global order: the row groups laid end to end. */
  function Flatten(groups: seq<RowGroup>): (flat: seq<RowResult>)
    decreases |groups|
  {
    if |groups| == 0 then [] else groups[0] + Flatten(groups[1..])
  }

  /** Laying out two runs of row groups one after the other concatenates their rows. */
  lemma {:induction false} FlattenAppend(a: seq<RowGroup>, b: seq<RowGroup>)
    ensures Flatten(a + b) == Flatten(a) + Flatten(b)
    decreases |a|
  {
    if |a| == 0 {
      assert a + b == b;
    } else {
      assert (a + b)[1..] == a[1..] + b;
      FlattenAppend(a[1..], b);
    }
  }

  /** The row count is the length of the flat layout. */
  lemma {:induction false} FlattenLength(groups: seq<RowGroup>)
    ensures |Flatten(groups)| == TotalRows(groups)
    decreases |groups|
  {
    if |groups| > 0 {
      FlattenLength(groups[1..]);
    }
  }

  /** The row count is additive over consecutive runs of row groups. */
  lemma TotalRowsAppend(a: seq<RowGroup>, b: seq<RowGroup>)
    ensures TotalRows(a + b) == TotalRows(a) + TotalRows(b)
  {
    FlattenAppend(a, b);
    FlattenLength(a);
    FlattenLength(b);
    FlattenLength(a + b);
  }

  /** The global index of the first row of group `g` (the cumulative count before it). */
  function GroupStart(groups: seq<RowGroup>, g: nat): (start: nat)
    requires g <= |groups|
  {
    TotalRows(groups[..g])
  }

  /** One past the global index of the last row of group `g`. */
  function GroupEnd(groups: seq<RowGroup>, g: nat): (end: nat)
    requires g < |groups|
  {
    GroupStart(groups, g) + |groups[g]|
  }

  /** Each row group starts where the previous one ends. */
  lemma GroupStartStep(groups: seq<RowGroup>, g: nat)
    requires g < |groups|
    ensures GroupStart(groups, g + 1) == GroupEnd(groups, g)
  {
    assert groups[..g + 1] == groups[..g] + [groups[g]];
    TotalRowsAppend(groups[..g], [groups[g]]);
    assert TotalRows([groups[g]]) == |groups[g]| + TotalRows([]);
  }

  /** The cumulative start past the last group is the total row count. */
  lemma GroupStartTotal(groups: seq<RowGroup>)
    ensures GroupStart(groups, |groups|) == TotalRows(groups)
  {
    assert groups[..|groups|] == groups;
  }

  /** Cumulative starts never decrease. */
  lemma {:induction false} GroupStartMono(groups: seq<RowGroup>, a: nat, b: nat)
    requires a <= b <= |groups|
    ensures GroupStart(groups, a) <= GroupStart(groups, b)
    decreases b - a
  {
    if a < b {
      GroupStartStep(groups, a);
      GroupStartMono(groups, a + 1, b);
    }
  }

  /** A row group ends no later than any later group starts, nor after the table ends. */
  lemma GroupEndBound(groups: seq<RowGroup>, g: nat, h: nat)
    requires g < h <= |groups|
    ensures GroupEnd(groups, g) <= GroupStart(groups, h)
    ensures GroupEnd(groups, g) <= TotalRows(groups)
  {
    GroupStartStep(groups, g);
    GroupStartMono(groups, g + 1, h);
    GroupStartMono(groups, h, |groups|);
    GroupStartTotal(groups);
  }

  /** Offset `off` of group `g` is global row `GroupStart(g) + off`. */
  lemma RowInGroup(groups: seq<RowGroup>, g: nat, off: nat)
    requires g < |groups|
    requires off < |groups[g]|
    ensures GroupStart(groups, g) + off < |Flatten(groups)|
    ensures Flatten(groups)[GroupStart(groups, g) + off] == groups[g][off]
  {
    assert groups == groups[..g] + ([groups[g]] + groups[g + 1..]);
    FlattenAppend(groups[..g], [groups[g]] + groups[g + 1..]);
    FlattenAppend([groups[g]], groups[g + 1..]);
    assert Flatten([groups[g]]) == groups[g] + Flatten([]);
    FlattenLength(groups[..g]);
  }

  /** Where a global row lives: its row group and its offset inside that group. */
  datatype Location = Location(group: nat, offset: nat)

  /**
   * The walk over row groups with a cumulative counter, starting at group `g`:
   * the first group whose cumulative end exceeds `i` owns row `i`.
   */
  function LocateFrom(groups: seq<RowGroup>, i: nat, g: nat): (r: Option<Location>)
    requires g <= |groups|
    requires GroupStart(groups, g) <= i
    ensures r.Some? <==> i < TotalRows(groups)
    ensures r.Some? ==> g <= r.value.group < |groups|
    ensures r.Some? ==> r.value.offset < |groups[r.value.group]|
    ensures r.Some? ==> GroupStart(groups, r.value.group) + r.value.offset == i
    decreases |groups| - g
  {
    if g == |groups| then
      GroupStartTotal(groups);
      None
    else if i < GroupEnd(groups, g) then
      GroupEndBound(groups, g, |groups|);
      Some(Location(g, i - GroupStart(groups, g)))
    else
      GroupStartStep(groups, g);
      LocateFrom(groups, i, g + 1)
  }

  /** The row locator: where global row `i` lives, or None past the end of the table. */
  function Locate(groups: seq<RowGroup>, i: nat): (r: Option<Location>)
    ensures r.Some? <==> i < TotalRows(groups)
    ensures r.Some? ==> r.value.group < |groups| && r.value.offset < |groups[r.value.group]|
    ensures r.Some? ==> GroupStart(groups, r.value.group) + r.value.offset == i
  {
    LocateFrom(groups, i, 0)
  }

  /** The group whose cumulative range contains `i` is the one the locator picks. */
  lemma LocateOwner(groups: seq<RowGroup>, g: nat, i: nat)
    requires g < |groups|
    requires GroupStart(groups, g) <= i < GroupEnd(groups, g)
    ensures Locate(groups, i) == Some(Location(g, i - GroupStart(groups, g)))
  {
    GroupEndBound(groups, g, |groups|);
    var loc := Locate(groups, i).value;
    if loc.group < g {
      GroupEndBound(groups, loc.group, g);
    } else if loc.group > g {
      GroupEndBound(groups, g, loc.group);
    }
  }

  /** The locator agrees with the flat layout: it finds exactly global row `i`. */
  lemma LocateAgreesWithFlatten(groups: seq<RowGroup>, i: nat)
    requires i < |Flatten(groups)|
    ensures Locate(groups, i).Some?
    ensures groups[Locate(groups, i).value.group][Locate(groups, i).value.offset] == Flatten(groups)[i]
  {
    FlattenLength(groups);
    var loc := Locate(groups, i).value;
    RowInGroup(groups, loc.group, loc.offset);
  }
}
