/**
 * The viewer's windowed row cache: at most `CACHE_SIZE` materialised rows,
 * starting at an index aligned down to a multiple of `CACHE_SIZE`, refilled
 * wholesale by one sequential pass over the owning row group.
 */
module RowCache {
  import opened Basics
  import opened ParquetTable
  import opened Materializer
  import opened Locator

  /** Number of rows the cache holds at most. */
  const CACHE_SIZE: nat := 1000

  /** The aligned start of the cache window that contains row `i`. */
  function WindowStart(i: nat): (s: nat)
    ensures s % CACHE_SIZE == 0
    ensures s <= i < s + CACHE_SIZE
  {
    i - i % CACHE_SIZE
  }

  /** The aligned window containing a row is unique. */
  lemma WindowStartUnique(i: nat, s: nat)
    requires s % CACHE_SIZE == 0
    requires s <= i < s + CACHE_SIZE
    ensures s == WindowStart(i)
  {
  }

  /** A start is the window start of row `i` exactly when it is aligned and within `CACHE_SIZE` below `i`. */
  lemma WindowStartIff(i: nat, s: nat)
    ensures s == WindowStart(i) <==> s % CACHE_SIZE == 0 && s <= i < s + CACHE_SIZE
  {
    if s % CACHE_SIZE == 0 && s <= i < s + CACHE_SIZE {
      WindowStartUnique(i, s);
    }
  }

  /**
   * The results a row group's iterator hands out when it is first advanced
   * `skip` times and then asked `count` more times; past the end of the group
   * it hands out nothing.
   */
  function IteratorRun(grp: RowGroup, skip: nat, count: nat): (r: seq<RowResult>)
    ensures |r| == Min(count, |grp| - Min(skip, |grp|))
    ensures skip + count <= |grp| ==> r == grp[skip..skip + count]
  {
    var first := Min(skip, |grp|);
    grp[first..Min(|grp|, first + count)]
  }

  /** The k-th result of the run is the group's row at `skip + k`. */
  lemma IteratorRunAt(grp: RowGroup, skip: nat, count: nat, k: nat)
    requires k < |IteratorRun(grp, skip, count)|
    ensures skip + k < |grp|
    ensures IteratorRun(grp, skip, count)[k] == grp[skip + k]
  {
  }

  lemma IteratorRunFits(width: nat, grp: RowGroup, skip: nat, count: nat)
    requires RowsFit(width, grp)
    ensures RowsFit(width, IteratorRun(grp, skip, count))
  {
    RowsFitSlice(width, grp, Min(skip, |grp|), Min(|grp|, Min(skip, |grp|) + count));
  }

  /**
   * The iterator results one refill at `start` pulls from the row group that
   * owns `start`. The iterator is first advanced past the rows before `start`;
   * the loop's counter then restarts at the group's cumulative start, so it is
   * asked for `end - groupStart` further results, where `end` is the window end
   * clipped to the table. No other row group contributes.
   */
  function OwnerRun(groups: seq<RowGroup>, start: nat): (run: seq<RowResult>)
    requires start < TotalRows(groups)
    ensures 0 < |run|
    ensures start + |run| <= TotalRows(groups)
  {
    var loc := Locate(groups, start).value;
    var end := Min(start + CACHE_SIZE, TotalRows(groups));
    GroupEndBound(groups, loc.group, |groups|);
    IteratorRun(groups[loc.group], loc.offset, end - GroupStart(groups, loc.group))
  }

  /** Result `k` of the owner's run is global row `start + k`, read from the owning group. */
  lemma OwnerRunAt(groups: seq<RowGroup>, start: nat, k: nat)
    requires start < TotalRows(groups)
    requires k < |OwnerRun(groups, start)|
    ensures var loc := Locate(groups, start).value;
            && loc.offset + k < |groups[loc.group]|
            && OwnerRun(groups, start)[k] == groups[loc.group][loc.offset + k]
    ensures start + k < |Flatten(groups)|
    ensures OwnerRun(groups, start)[k] == Flatten(groups)[start + k]
  {
    var loc := Locate(groups, start).value;
    var end := Min(start + CACHE_SIZE, TotalRows(groups));
    IteratorRunAt(groups[loc.group], loc.offset, end - GroupStart(groups, loc.group), k);
    RowInGroup(groups, loc.group, loc.offset + k);
  }

  /**
   * The owner's run stays inside the owning row group: it covers global rows
   * `start` up to the group's end or `end + offset`, whichever comes first.
   */
  lemma OwnerRunLength(groups: seq<RowGroup>, start: nat)
    requires start < TotalRows(groups)
    ensures var loc := Locate(groups, start).value;
            var end := Min(start + CACHE_SIZE, TotalRows(groups));
            start + |OwnerRun(groups, start)| == Min(GroupEnd(groups, loc.group), end + loc.offset)
    ensures start + |OwnerRun(groups, start)| <= TotalRows(groups)
  {
    var loc := Locate(groups, start).value;
    GroupEndBound(groups, loc.group, |groups|);
  }

  lemma OwnerRunFits(t: Table, start: nat)
    requires t.WellFormed()
    requires start < TotalRows(t.groups)
    ensures RowsFit(|t.schema|, OwnerRun(t.groups, start))
  {
    var loc := Locate(t.groups, start).value;
    var end := Min(start + CACHE_SIZE, TotalRows(t.groups));
    IteratorRunFits(|t.schema|, t.groups[loc.group], loc.offset, end - GroupStart(t.groups, loc.group));
  }

  /**
   * What a refill at `start` leaves in the cache: the owner's run with failed
   * rows dropped and decoded rows materialised in order, at most `CACHE_SIZE`
   * of them. A window starting past the end of the table is empty.
   */
  function Refill(t: Table, start: nat): (rows: seq<Row>)
    requires t.WellFormed()
    ensures |rows| <= CACHE_SIZE
    ensures TotalRows(t.groups) <= start ==> rows == []
  {
    if TotalRows(t.groups) <= start then []
    else
      OwnerRunFits(t, start);
      Take(CACHE_SIZE, MaterializeAll(t.schema, OwnerRun(t.groups, start)))
  }

  /** Refill in terms of the owning group `g` found by the cumulative walk. */
  lemma RefillFromOwner(t: Table, start: nat, g: nat)
    requires t.WellFormed()
    requires g < |t.groups|
    requires GroupStart(t.groups, g) <= start < GroupEnd(t.groups, g)
    ensures Locate(t.groups, start) == Some(Location(g, start - GroupStart(t.groups, g)))
    ensures start < TotalRows(t.groups)
    ensures GroupStart(t.groups, g) < Min(start + CACHE_SIZE, TotalRows(t.groups))
    ensures RowsFit(|t.schema|, t.groups[g])
    ensures Refill(t, start)
         == Take(CACHE_SIZE, MaterializeAll(t.schema, IteratorRun(t.groups[g], start - GroupStart(t.groups, g),
                                                     Min(start + CACHE_SIZE, TotalRows(t.groups)) - GroupStart(t.groups, g))))
  {
    LocateOwner(t.groups, g, start);
    GroupEndBound(t.groups, g, |t.groups|);
    OwnerRunFits(t, start);
    var end := Min(start + CACHE_SIZE, TotalRows(t.groups));
    var run := IteratorRun(t.groups[g], start - GroupStart(t.groups, g), end - GroupStart(t.groups, g));
    assert OwnerRun(t.groups, start) == run;
    assert RowsFit(|t.schema|, t.groups[g]);
    assert Refill(t, start) == Take(CACHE_SIZE, MaterializeAll(t.schema, OwnerRun(t.groups, start)));
  }

  /** Global row `i` of the table, as the flat layout of its row groups places it. */
  function GlobalRow(t: Table, i: nat): (r: RowResult)
    requires i < |Flatten(t.groups)|
  {
    Flatten(t.groups)[i]
  }

  /**
   * A table of one row group whose first row fails to decode: the refill of
   * window 0 drops that row and caches global rows 1 and 2 in slots 0 and 1.
   */
  lemma RefillDropsFailedRow(t: Table, a: RawRow, b: RawRow)
    requires t.WellFormed()
    requires t.groups == [[RowErr, RowOk(a), RowOk(b)]]
    ensures Flatten(t.groups) == [RowErr, RowOk(a), RowOk(b)] && TotalRows(t.groups) == 3
    ensures |a| == |t.schema| && |b| == |t.schema|
    ensures Refill(t, 0) == [Materialize(t.schema, a), Materialize(t.schema, b)]
  {
    var groups := t.groups;
    var fields := t.schema;
    var grp := groups[0];
    assert groups[1..] == [];
    assert Flatten(groups) == grp + Flatten([]);
    FlattenLength(groups);
    assert RowsFit(|fields|, grp);
    assert grp[1].RowOk? && grp[2].RowOk?;
    assert groups[..0] == [];
    LocateOwner(groups, 0, 0);
    assert OwnerRun(groups, 0) == grp;
    RowsFitSlice(|fields|, grp, 0, 1);
    RowsFitSlice(|fields|, grp, 0, 2);
    assert grp[..1] == [RowErr] && grp[..2] == [RowErr, RowOk(a)];
    assert [RowErr][..0] == [];
    assert MaterializeAll(fields, [RowErr]) == [];
    assert MaterializeAll(fields, grp[..2]) == [Materialize(fields, a)];
    assert MaterializeAll(fields, grp) == [Materialize(fields, a), Materialize(fields, b)];
  }

  /**
   * A refill never reaches past the end of the row group that owns `start`,
   * so neither past the end of the table.
   */
  lemma RefillWithinOwner(t: Table, start: nat)
    requires t.WellFormed()
    requires start < TotalRows(t.groups)
    ensures start + |Refill(t, start)| <= GroupEnd(t.groups, Locate(t.groups, start).value.group)
    ensures start + |Refill(t, start)| <= TotalRows(t.groups)
  {
    OwnerRunLength(t.groups, start);
    OwnerRunFits(t, start);
  }

  /**
   * Whatever the decoder yields, a refill caches the materialised rows among
   * the global rows from `start` up to the owner's run length (which
   * `OwnerRunLength` pins down), failed rows dropped, at most `CACHE_SIZE`.
   * So each failed row shifts the later rows down one slot in the cache, and
   * when the owning group is entered mid-way the run may reach past `end`.
   */
  lemma RefillFromFlat(t: Table, start: nat)
    requires t.WellFormed()
    requires start < TotalRows(t.groups)
    ensures var n := |OwnerRun(t.groups, start)|;
            && start + n <= |Flatten(t.groups)|
            && RowsFit(|t.schema|, Flatten(t.groups)[start..start + n])
            && Refill(t, start) == Take(CACHE_SIZE, MaterializeAll(t.schema, Flatten(t.groups)[start..start + n]))
  {
    var run := OwnerRun(t.groups, start);
    OwnerRunLength(t.groups, start);
    OwnerRunFits(t, start);
    FlattenLength(t.groups);
    var flat := Flatten(t.groups)[start..start + |run|];
    forall k | 0 <= k < |run|
      ensures run[k] == flat[k]
    {
      OwnerRunAt(t.groups, start, k);
    }
    assert run == flat;
  }

  /**
   * A single 3000-row group whose row 1000 fails: the refill of the window
   * starting at 1000 pulls rows 1000 up to the group's end and drops row 1000.
   */
  lemma RefillSkipsFirstOfLongRun(t: Table)
    requires t.WellFormed()
    requires |t.groups| == 1 && |t.groups[0]| == 3000
    requires t.groups[0][1000] == RowErr
    ensures Flatten(t.groups) == t.groups[0]
    ensures RowsFit(|t.schema|, t.groups[0][1001..])
    ensures Refill(t, 1000) == Take(CACHE_SIZE, MaterializeAll(t.schema, t.groups[0][1001..]))
  {
    var groups := t.groups;
    var grp := groups[0];
    assert groups[1..] == [];
    assert Flatten(groups) == grp + Flatten([]);
    FlattenLength(groups);
    assert groups[..0] == [];
    LocateOwner(groups, 0, 1000);
    OwnerRunLength(groups, 1000);
    RefillFromFlat(t, 1000);
    assert |OwnerRun(groups, 1000)| == 2000;
    var tail := grp[1001..];
    assert grp[1000..3000] == [RowErr] + tail;
    assert RowsFit(|t.schema|, grp);
    RowsFitSlice(|t.schema|, grp, 1001, 3000);
    assert [] + [RowErr] + tail == [RowErr] + tail && [] + tail == tail;
    MaterializeAllDropsFailed(t.schema, [], tail);
  }

  /**
   * A refill entered mid-way through its owning group pulls more results than
   * the window holds. In a 3000-row group whose row 1000 fails, the window
   * starting at 1000 drops that row and caches rows 1001 up to 2000, the last
   * of which lies past the window.
   */
  lemma RefillReachesPastWindow(t: Table)
    requires t.WellFormed()
    requires |t.groups| == 1 && |t.groups[0]| == 3000
    requires t.groups[0][1000] == RowErr
    requires AllOk(t.groups[0][1001..])
    ensures |Flatten(t.groups)| == 3000
    ensures |Refill(t, 1000)| == CACHE_SIZE
    ensures forall j :: 1001 <= j <= 2000 ==>
              && GlobalRow(t, j).RowOk?
              && |GlobalRow(t, j).row| == |t.schema|
              && Refill(t, 1000)[j - 1001] == Materialize(t.schema, GlobalRow(t, j).row)
  {
    RefillSkipsFirstOfLongRun(t);
    var tail := t.groups[0][1001..];
    MaterializeAllOk(t.schema, tail);
    var all := MaterializeAll(t.schema, tail);
    assert |Refill(t, 1000)| == CACHE_SIZE;
    forall j | 1001 <= j <= 2000
      ensures && GlobalRow(t, j).RowOk?
              && |GlobalRow(t, j).row| == |t.schema|
              && Refill(t, 1000)[j - 1001] == Materialize(t.schema, GlobalRow(t, j).row)
    {
      assert GlobalRow(t, j) == tail[j - 1001];
      assert tail[j - 1001].RowOk?;
      assert Refill(t, 1000)[j - 1001] == all[j - 1001];
    }
  }

  /** When every row decodes, so does every result of the owner's run. */
  lemma OwnerRunAllOk(t: Table, start: nat)
    requires t.WellFormed() && t.AllDecode()
    requires start < TotalRows(t.groups)
    ensures RowsFit(|t.schema|, OwnerRun(t.groups, start))
    ensures AllOk(OwnerRun(t.groups, start))
  {
    OwnerRunFits(t, start);
    var run := OwnerRun(t.groups, start);
    var loc := Locate(t.groups, start).value;
    assert AllOk(t.groups[loc.group]);
    forall k | 0 <= k < |run| ensures run[k].RowOk? {
      OwnerRunAt(t.groups, start, k);
    }
  }

  /**
   * When every row decodes, the refill at `start` runs up to the window end or
   * the end of the owning row group, whichever comes first; a window that lies
   * inside one row group is filled completely.
   */
  lemma RefillLengthAllDecoded(t: Table, start: nat)
    requires t.WellFormed() && t.AllDecode()
    requires start < TotalRows(t.groups)
    ensures var owner := Locate(t.groups, start).value.group;
            var end := Min(start + CACHE_SIZE, TotalRows(t.groups));
            |Refill(t, start)| == Min(end, GroupEnd(t.groups, owner)) - start
  {
    OwnerRunAllOk(t, start);
    OwnerRunLength(t.groups, start);
    MaterializeAllOk(t.schema, OwnerRun(t.groups, start));
    var loc := Locate(t.groups, start).value;
    GroupEndBound(t.groups, loc.group, |t.groups|);
  }

  /**
   * When every row decodes, entry `k` of the refill at `start` is global row
   * `start + k`, materialised.
   */
  lemma RefillRowAllDecoded(t: Table, start: nat, k: nat)
    requires t.WellFormed() && t.AllDecode()
    requires start < TotalRows(t.groups)
    requires k < |Refill(t, start)|
    ensures start + k < |Flatten(t.groups)|
    ensures GlobalRow(t, start + k).RowOk?
    ensures |GlobalRow(t, start + k).row| == |t.schema|
    ensures Refill(t, start)[k] == Materialize(t.schema, GlobalRow(t, start + k).row)
  {
    OwnerRunAllOk(t, start);
    var run := OwnerRun(t.groups, start);
    MaterializeAllOk(t.schema, run);
    var all := MaterializeAll(t.schema, run);
    assert k < |run|;
    OwnerRunAt(t.groups, start, k);
    calc {
      Refill(t, start)[k];
      all[k];
      Materialize(t.schema, run[k].row);
    }
  }

  /** Entry `k` of the refill at `start` is global row `start + k`, materialised. */
  predicate EntryIsGlobalRow(t: Table, start: nat, k: nat)
    requires t.WellFormed()
  {
    && k < |Refill(t, start)|
    && start + k < |Flatten(t.groups)|
    && GlobalRow(t, start + k).RowOk?
    && |GlobalRow(t, start + k).row| == |t.schema|
    && Refill(t, start)[k] == Materialize(t.schema, GlobalRow(t, start + k).row)
  }

  /**
   * When every row decodes, the refill at `start` holds global rows `start`,
   * `start + 1`, ... materialised, in order.
   */
  lemma RefillAllDecoded(t: Table, start: nat)
    requires t.WellFormed() && t.AllDecode()
    requires start < TotalRows(t.groups)
    ensures forall k :: 0 <= k < |Refill(t, start)| ==> EntryIsGlobalRow(t, start, k)
  {
    forall k | 0 <= k < |Refill(t, start)|
      ensures EntryIsGlobalRow(t, start, k)
    {
      RefillRowAllDecoded(t, start, k);
    }
  }

  /** Advancing a fresh row iterator `skip` times (it stops at the end of the group). */
  method SkipRows(grp: RowGroup, skip: nat) returns (pos: nat)
    ensures pos == Min(skip, |grp|)
  {
    pos := 0;
    var n := 0;
    while n < skip
      invariant n <= skip
      invariant pos == Min(n, |grp|)
    {
      if pos < |grp| {
        pos := pos + 1;
      }
      n := n + 1;
    }
  }

  /**
   * The body of the refill loop for one opened row group: advance a fresh row
   * iterator `skip` times, then, while fewer than `CACHE_SIZE` rows are cached
   * and the counter is below `end`, pull one result, cache it if it decoded,
   * and bump the counter.
   */
  method ReadGroup(fields: seq<Field>, grp: RowGroup, skip: nat, rows0: seq<Row>, current0: nat, end: nat)
    returns (rows: seq<Row>, current: nat)
    requires RowsFit(|fields|, grp)
    requires |rows0| <= CACHE_SIZE
    ensures |rows| <= CACHE_SIZE
    ensures |rows0| == CACHE_SIZE ==> rows == rows0 && current == current0
    ensures |rows0| < CACHE_SIZE && current0 <= end ==>
              && RowsFit(|fields|, IteratorRun(grp, skip, end - current0))
              && rows == rows0 + Take(CACHE_SIZE - |rows0|, MaterializeAll(fields, IteratorRun(grp, skip, end - current0)))
              && current0 <= current <= end
              && (current == end || |rows| == CACHE_SIZE)
  {
    var pos := SkipRows(grp, skip);
    rows, current := ReadRows(fields, grp, pos, rows0, current0, end);
    if |rows0| < CACHE_SIZE && current0 <= end {
      IteratorRunFits(|fields|, grp, skip, end - current0);
      assert IteratorRun(grp, skip, end - current0) == grp[pos..Min(|grp|, pos + (end - current0))];
    }
  }

  /**
   * The reading loop of the refill, on an iterator already advanced to `first`:
   * while fewer than `CACHE_SIZE` rows are cached and the counter is below
   * `end`, pull one result, cache it if it decoded, and bump the counter.
   */
  method ReadRows(fields: seq<Field>, grp: RowGroup, first: nat, rows0: seq<Row>, current0: nat, end: nat)
    returns (rows: seq<Row>, current: nat)
    requires RowsFit(|fields|, grp)
    requires first <= |grp|
    requires |rows0| <= CACHE_SIZE
    ensures |rows| <= CACHE_SIZE
    ensures |rows0| == CACHE_SIZE ==> rows == rows0 && current == current0
    ensures |rows0| < CACHE_SIZE && current0 <= end ==>
              var stop := Min(|grp|, first + (end - current0));
              && RowsFit(|fields|, grp[first..stop])
              && rows == rows0 + Take(CACHE_SIZE - |rows0|, MaterializeAll(fields, grp[first..stop]))
              && current0 <= current <= end
              && (current == end || |rows| == CACHE_SIZE)
  {
    // The iterator's position: how many results it has handed out so far.
    var pos := first;
    rows := rows0;
    current := current0;
    ghost var read: seq<RowResult> := [];
    ghost var produced: seq<Row> := [];
    while |rows| < CACHE_SIZE && current < end
      invariant first <= pos <= |grp|
      invariant current0 <= current
      invariant current0 <= end ==> current <= end
      invariant pos == Min(first + (current - current0), |grp|)
      invariant read == grp[first..pos]
      invariant RowsFit(|fields|, read)
      invariant produced == MaterializeAll(fields, read)
      invariant rows == rows0 + produced
      invariant |rows| <= CACHE_SIZE
      invariant current == current0 || |rows0| < CACHE_SIZE
      decreases end - current
    {
      if pos < |grp| {
        var next := grp[pos];
        assert grp[first..pos + 1] == read + [next];
        RowsFitSlice(|fields|, grp, first, pos + 1);
        MaterializeAllSnoc(fields, read, next);
        if next.RowOk? {
          var row := Materialize(fields, next.row);
          rows := rows + [row];
          produced := produced + [row];
        }
        read := read + [next];
        pos := pos + 1;
      }
      current := current + 1;
    }
    if |rows0| < CACHE_SIZE && current0 <= end {
      ReadUpTo(fields, grp, first, pos, Min(|grp|, first + (end - current0)), CACHE_SIZE - |rows0|);
    }
  }

  /**
   * The rows read from `first` up to `pos` are what `Take` keeps of the rows up
   * to `stop`, when the loop stopped either at `stop` or with `room` rows read.
   */
  lemma ReadUpTo(fields: seq<Field>, grp: RowGroup, first: nat, pos: nat, stop: nat, room: nat)
    requires RowsFit(|fields|, grp)
    requires first <= pos <= stop <= |grp|
    requires RowsFit(|fields|, grp[first..pos])
    requires |MaterializeAll(fields, grp[first..pos])| <= room
    requires pos == stop || |MaterializeAll(fields, grp[first..pos])| == room
    ensures RowsFit(|fields|, grp[first..stop])
    ensures Take(room, MaterializeAll(fields, grp[first..stop])) == MaterializeAll(fields, grp[first..pos])
  {
    var window := grp[first..stop];
    RowsFitSlice(|fields|, grp, first, stop);
    assert window[..pos - first] == grp[first..pos];
    TakeOfPrefix(fields, window, pos - first, room);
  }

  /**
   * The refill: walk the row groups with a cumulative counter, open the groups
   * whose cumulative end exceeds `start`, and read rows from them until the
   * counter reaches `end` (the window end clipped to the table). `groupsRead` lists
   * the row groups whose reader was opened, in order.
   */
  method UpdateCache(t: Table, start: nat) returns (rows: seq<Row>, groupsRead: seq<nat>)
    requires t.WellFormed()
    ensures rows == Refill(t, start)
    ensures OpenedPastStart(t.groups, start, groupsRead)
    ensures Increasing(groupsRead)
    ensures groupsRead == [] <==> Locate(t.groups, start).None?
    ensures groupsRead != [] ==> groupsRead[0] == Locate(t.groups, start).value.group
  {
    ghost var window := Refill(t, start);
    ghost var owner := Locate(t.groups, start);
    var groups := t.groups;
    var end := Min(start + CACHE_SIZE, TotalRows(groups));
    rows := [];
    groupsRead := [];
    var current: nat := 0;
    var g := 0;
    while g < |groups|
      invariant g <= |groups|
      invariant OpenedPastStart(groups, start, groupsRead)
      invariant Increasing(groupsRead)
      invariant forall j :: 0 <= j < |groupsRead| ==> groupsRead[j] < g
      invariant groupsRead == [] ==> rows == [] && current == GroupStart(groups, g) <= start
      invariant groupsRead != [] ==> owner.Some? && groupsRead[0] == owner.value.group
      invariant groupsRead != [] ==> rows == window && |rows| == CACHE_SIZE
    {
      var groupRows := |groups[g]|;
      if current + groupRows > start {
        ghost var before := groupsRead;
        if before == [] {
          LocateOwner(groups, g, start);
        } else {
          GroupEndBound(groups, before[0], g);
        }
        groupsRead := groupsRead + [g];
        OpenOneMore(groups, start, before, g);
        rows, current := VisitGroup(t, start, end, g, rows, current, before == []);
        if current >= end {
          break;
        }
      }
      if groupsRead == [] {
        GroupStartStep(groups, g);
      }
      current := current + groupRows;
      g := g + 1;
    }
    if groupsRead == [] {
      GroupStartTotal(groups);
    }
    assert rows == window;
  }

  /**
   * Reading the opened row group `g`: skip to the window start, then read.
   * For the first group opened (the owner of `start`) this fills the window;
   * for any later one the window is already full and nothing changes.
   */
  method VisitGroup(t: Table, start: nat, end: nat, g: nat, rows0: seq<Row>, current0: nat, ghost owner: bool)
    returns (rows: seq<Row>, current: nat)
    requires t.WellFormed()
    requires g < |t.groups|
    requires end == Min(start + CACHE_SIZE, TotalRows(t.groups))
    requires owner ==> rows0 == [] && current0 == GroupStart(t.groups, g) <= start < GroupEnd(t.groups, g)
    requires !owner ==> |rows0| == CACHE_SIZE
    ensures owner ==> rows == Refill(t, start) && (current >= end || |rows| == CACHE_SIZE)
    ensures !owner ==> rows == rows0
  {
    if owner {
      RefillFromOwner(t, start, g);
    }
    var skip := if start > current0 then start - current0 else 0;
    rows, current := ReadGroup(t.schema, t.groups[g], skip, rows0, current0, end);
    if owner {
      var offset := start - GroupStart(t.groups, g);
      assert skip == offset;
      var run := IteratorRun(t.groups[g], offset, end - current0);
      var read := MaterializeAll(t.schema, run);
      assert rows == rows0 + Take(CACHE_SIZE, read);
      assert rows0 + Take(CACHE_SIZE, read) == Take(CACHE_SIZE, read);
      assert Refill(t, start) == Take(CACHE_SIZE, read);
    }
  }

  /** Every row group in `gs` ends after `start`: none of them lies wholly before the window. */
  predicate OpenedPastStart(groups: seq<RowGroup>, start: nat, gs: seq<nat>) {
    forall j :: 0 <= j < |gs| ==> gs[j] < |groups| && start < GroupEnd(groups, gs[j])
  }

  /** The indices in `gs` are strictly increasing. */
  predicate Increasing(gs: seq<nat>) {
    forall i, j :: 0 <= i < j < |gs| ==> gs[i] < gs[j]
  }

  lemma OpenOneMore(groups: seq<RowGroup>, start: nat, gs: seq<nat>, g: nat)
    requires OpenedPastStart(groups, start, gs) && Increasing(gs)
    requires forall j :: 0 <= j < |gs| ==> gs[j] < g
    requires g < |groups| && start < GroupEnd(groups, g)
    ensures OpenedPastStart(groups, start, gs + [g]) && Increasing(gs + [g])
    ensures forall j :: 0 <= j < |gs + [g]| ==> (gs + [g])[j] < g + 1
  {
  }
}
