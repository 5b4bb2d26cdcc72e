/**
 * The viewer's state as far as reading rows goes: the open table, the cursor,
 * the cached total row count and the row cache. `ensure_cache` and
 * `get_row_data` are modelled as pure transitions on this state.
 */
module ParquetViewer {
  import opened Basics
  import opened ParquetTable
  import opened Materializer
  import opened Locator
  import opened RowCache

  datatype Viewer = Viewer(
    table: Table,
    currentRow: nat,
    totalRows: int,
    cachedRows: seq<Row>,
    cacheStart: nat,
    dataset: string)
  {
    /**
     * The states the viewer can reach: the decoder's rows fit the schema, the
     * total is the summed row count, and a non-empty cache holds exactly what
     * a refill at its start produces.
     */
    predicate Valid() {
      && table.WellFormed()
      && totalRows == TotalRows(table.groups)
      && (|cachedRows| > 0 ==> cachedRows == Refill(table, cacheStart))
    }
  }

  /**
   * The viewer at startup: the total is summed once over the row-group
   * metadata, the cursor is whatever position was loaded (0 when none was),
   * unclamped, and the cache is empty.
   */
  function NewViewer(t: Table, saved: Option<nat>, dataset: string): (v: Viewer)
    requires t.WellFormed()
    ensures v.Valid()
    ensures v.table == t && v.dataset == dataset
    ensures v.cachedRows == [] && v.cacheStart == 0
    ensures v.totalRows == |Flatten(t.groups)|
    ensures saved.Some? ==> v.currentRow == saved.value
    ensures saved.None? ==> v.currentRow == 0
    ensures NeedsRefill(v)
  {
    FlattenLength(t.groups);
    Viewer(t, saved.GetOr(0), TotalRows(t.groups), [], 0, dataset)
  }

  /** `ensure_cache` refills when the cursor's aligned window is not the cached one, or the cache is empty. */
  predicate NeedsRefill(v: Viewer)
    ensures !NeedsRefill(v) <==>
              && |v.cachedRows| > 0
              && v.cacheStart % CACHE_SIZE == 0
              && v.cacheStart <= v.currentRow < v.cacheStart + CACHE_SIZE
  {
    WindowStartIff(v.currentRow, v.cacheStart);
    WindowStart(v.currentRow) != v.cacheStart || |v.cachedRows| == 0
  }

  /**
   * `ensure_cache`: afterwards the cache is tagged with the cursor's aligned
   * window and holds what a refill of that window produces, whether it was
   * refilled or not; on a hit the state is left exactly as it was.
   */
  function EnsureCache(v: Viewer): (w: Viewer)
    requires v.Valid()
    ensures w.Valid()
    ensures w.table == v.table && w.currentRow == v.currentRow
    ensures w.totalRows == v.totalRows && w.dataset == v.dataset
    ensures w.cacheStart % CACHE_SIZE == 0 && w.cacheStart <= v.currentRow < w.cacheStart + CACHE_SIZE
    ensures w.cachedRows == Refill(v.table, w.cacheStart)
    ensures !NeedsRefill(v) ==> w == v
  {
    var start := WindowStart(v.currentRow);
    if start != v.cacheStart || |v.cachedRows| == 0 then
      v.(cachedRows := Refill(v.table, start), cacheStart := start)
    else
      v
  }

  /**
   * `ensure_cache` run against the decoder: the refill is the loop of
   * `update_cache`. No row group is opened on a hit, and a refill whose
   * window starts inside the table opens at least the owning group.
   */
  method RunEnsureCache(v: Viewer) returns (w: Viewer, groupsRead: seq<nat>)
    requires v.Valid()
    ensures w == EnsureCache(v)
    ensures !NeedsRefill(v) ==> groupsRead == []
    ensures NeedsRefill(v) && WindowStart(v.currentRow) < v.totalRows ==> |groupsRead| > 0
  {
    var start := WindowStart(v.currentRow);
    if start != v.cacheStart || |v.cachedRows| == 0 {
      var rows;
      rows, groupsRead := UpdateCache(v.table, start);
      w := v.(cachedRows := rows, cacheStart := start);
    } else {
      w := v;
      groupsRead := [];
    }
  }

  /** Row `index` is held by the cache: `index - cache_start` is a valid position in `cached_rows`. */
  predicate InWindow(v: Viewer, index: nat) {
    v.cacheStart <= index < v.cacheStart + |v.cachedRows|
  }

  /**
   * `get_row_data(index)`: make sure the cache holds the cursor's window, then
   * return the cached row at `index - cache_start`. The source indexes the
   * vector unchecked, so `index` must lie in the window that is then loaded.
   */
  function GetRowData(v: Viewer, index: nat): (res: (Viewer, Row))
    requires v.Valid()
    requires InWindow(EnsureCache(v), index)
    ensures res.0 == EnsureCache(v)
    ensures res.1 in res.0.cachedRows
    ensures res.1 == Refill(v.table, WindowStart(v.currentRow))[index - WindowStart(v.currentRow)]
  {
    var w := EnsureCache(v);
    (w, w.cachedRows[index - w.cacheStart])
  }

  /** Whatever the decoder yields, a row the cache serves is a row of the table. */
  lemma InWindowBelowTotal(v: Viewer, index: nat)
    requires v.Valid()
    requires InWindow(EnsureCache(v), index)
    ensures index < v.totalRows
  {
    var w := EnsureCache(v);
    if w.cacheStart < TotalRows(v.table.groups) {
      RefillWithinOwner(v.table, w.cacheStart);
    }
  }

  /**
   * `ensure_cache` is idempotent, and a second call decodes nothing exactly
   * when the first one left a non-empty window; when every row decodes and the
   * cursor is inside the table, that is always the case.
   */
  lemma EnsureCacheTwice(v: Viewer)
    requires v.Valid()
    ensures EnsureCache(EnsureCache(v)) == EnsureCache(v)
    ensures NeedsRefill(EnsureCache(v)) <==> |EnsureCache(v).cachedRows| == 0
    ensures v.table.AllDecode() && v.currentRow < v.totalRows ==> !NeedsRefill(EnsureCache(v))
  {
    var w := EnsureCache(v);
    if v.table.AllDecode() && v.currentRow < v.totalRows {
      RefillLengthAllDecoded(v.table, w.cacheStart);
      var owner := Locate(v.table.groups, w.cacheStart).value.group;
      assert w.cacheStart < GroupEnd(v.table.groups, owner);
    }
  }

  /**
   * When every row decodes, the window at `start` covers row `i` (at or past
   * `start`, within the batch size) exactly when `i` lies in the same row
   * group as `start`: the refill stops at the end of that group.
   */
  lemma WindowCoversSameGroup(t: Table, start: nat, i: nat)
    requires t.WellFormed() && t.AllDecode()
    requires start <= i < TotalRows(t.groups) && i < start + CACHE_SIZE
    ensures i < start + |Refill(t, start)| <==>
              Locate(t.groups, start).value.group == Locate(t.groups, i).value.group
  {
    RefillLengthAllDecoded(t, start);
    var owner := Locate(t.groups, start).value.group;
    GroupEndBound(t.groups, owner, |t.groups|);
    if i < GroupEnd(t.groups, owner) {
      LocateOwner(t.groups, owner, i);
    } else {
      var here := Locate(t.groups, i).value.group;
      if here == owner {
        assert false;
      }
    }
  }

  /**
   * Reading the cursor's row when every row decodes: it succeeds exactly when
   * the cursor lies in the same row group as its window's start, and then
   * yields that global row, materialised.
   */
  lemma CursorRowRead(v: Viewer)
    requires v.Valid() && v.table.AllDecode()
    requires v.currentRow < v.totalRows
    ensures var groups := v.table.groups;
            InWindow(EnsureCache(v), v.currentRow) <==>
              Locate(groups, WindowStart(v.currentRow)).value.group == Locate(groups, v.currentRow).value.group
    ensures InWindow(EnsureCache(v), v.currentRow) ==>
              && v.currentRow < |Flatten(v.table.groups)|
              && GlobalRow(v.table, v.currentRow).RowOk?
              && |GlobalRow(v.table, v.currentRow).row| == |v.table.schema|
              && GetRowData(v, v.currentRow).1 == Materialize(v.table.schema, GlobalRow(v.table, v.currentRow).row)
  {
    CursorWindow(v);
    if InWindow(EnsureCache(v), v.currentRow) {
      CursorRowValue(v);
    }
  }

  /** The cursor's window after `ensure_cache` covers it exactly when it shares the window start's row group. */
  lemma CursorWindow(v: Viewer)
    requires v.Valid() && v.table.AllDecode()
    requires v.currentRow < v.totalRows
    ensures var groups := v.table.groups;
            InWindow(EnsureCache(v), v.currentRow) <==>
              Locate(groups, WindowStart(v.currentRow)).value.group == Locate(groups, v.currentRow).value.group
  {
    var w := EnsureCache(v);
    WindowStartUnique(v.currentRow, w.cacheStart);
    WindowCoversSameGroup(v.table, w.cacheStart, v.currentRow);
  }

  /** A cursor row served from the cache is the cursor's global row, materialised. */
  lemma CursorRowValue(v: Viewer)
    requires v.Valid() && v.table.AllDecode()
    requires v.currentRow < v.totalRows
    requires InWindow(EnsureCache(v), v.currentRow)
    ensures v.currentRow < |Flatten(v.table.groups)|
    ensures GlobalRow(v.table, v.currentRow).RowOk?
    ensures |GlobalRow(v.table, v.currentRow).row| == |v.table.schema|
    ensures GetRowData(v, v.currentRow).1 == Materialize(v.table.schema, GlobalRow(v.table, v.currentRow).row)
  {
    var w := EnsureCache(v);
    var start := w.cacheStart;
    WindowStartUnique(v.currentRow, start);
    RefillRowAllDecoded(v.table, start, v.currentRow - start);
  }

  /**
   * With every row decoding, the window `ensure_cache` loads for a cursor
   * whose window start lies in row group `g` holds the rows from that start to
   * the end of the window, the table or group `g`, whichever comes first.
   */
  lemma WindowInGroup(v: Viewer, g: nat)
    requires v.Valid() && v.table.AllDecode()
    requires g < |v.table.groups|
    requires GroupStart(v.table.groups, g) <= WindowStart(v.currentRow) < GroupEnd(v.table.groups, g)
    ensures EnsureCache(v).cacheStart == WindowStart(v.currentRow)
    ensures var start := WindowStart(v.currentRow);
            |EnsureCache(v).cachedRows|
              == Min(Min(start + CACHE_SIZE, v.totalRows), GroupEnd(v.table.groups, g)) - start
  {
    var w := EnsureCache(v);
    var start := w.cacheStart;
    WindowStartUnique(v.currentRow, start);
    GroupEndBound(v.table.groups, g, |v.table.groups|);
    LocateOwner(v.table.groups, g, start);
    RefillLengthAllDecoded(v.table, start);
  }

  /** The cumulative layout of row groups of 500, 500 and 200 rows. */
  lemma ThreeGroupLayout(groups: seq<RowGroup>)
    requires |groups| == 3
    requires |groups[0]| == 500 && |groups[1]| == 500 && |groups[2]| == 200
    ensures GroupStart(groups, 0) == 0 && GroupEnd(groups, 0) == 500
    ensures GroupStart(groups, 2) == 1000 && GroupEnd(groups, 2) == 1200
    ensures TotalRows(groups) == 1200
  {
    assert groups[..0] == [];
    GroupStartStep(groups, 0);
    GroupStartStep(groups, 1);
    GroupStartStep(groups, 2);
    GroupStartTotal(groups);
  }

  /**
   * The boundary case of a table with row groups of 500, 500 and 200 rows,
   * every row decoding: at row 999 the window [0, 1000) is cut at the end of
   * the first group after 500 rows, so row 999 is not in it and
   * `get_row_data(999)` would index past the end of the cache; at row 1000 the
   * window [1000, 1200) holds the 200 rows of the last group.
   */
  lemma BoundaryWindows(v: Viewer)
    requires v.Valid() && v.table.AllDecode()
    requires |v.table.groups| == 3
    requires |v.table.groups[0]| == 500 && |v.table.groups[1]| == 500 && |v.table.groups[2]| == 200
    ensures v.totalRows == 1200
    ensures var w := EnsureCache(v.(currentRow := 999));
            w.cacheStart == 0 && |w.cachedRows| == 500 && !InWindow(w, 999)
    ensures var w := EnsureCache(v.(currentRow := 1000));
            w.cacheStart == 1000 && |w.cachedRows| == 200 && InWindow(w, 1000)
  {
    ThreeGroupLayout(v.table.groups);
    assert WindowStart(999) == 0;
    assert WindowStart(1000) == 1000;
    WindowInGroup(v.(currentRow := 999), 0);
    WindowInGroup(v.(currentRow := 1000), 2);
  }

  /**
   * A row that fails to decode shifts the cache. With one row group whose
   * first row fails, the window at 0 caches the two rows that decode, so the
   * cursor on row 0 is served global row 1, the cursor on row 1 is served
   * global row 2, and row 2, though inside the table, is not in its window.
   */
  lemma FailedRowShiftsCache(v: Viewer, a: RawRow, b: RawRow)
    requires v.Valid()
    requires v.table.groups == [[RowErr, RowOk(a), RowOk(b)]]
    ensures Flatten(v.table.groups) == [RowErr, RowOk(a), RowOk(b)] && v.totalRows == 3
    ensures |a| == |v.table.schema| && |b| == |v.table.schema|
    ensures EnsureCache(v.(currentRow := 0)).cachedRows == [Materialize(v.table.schema, a), Materialize(v.table.schema, b)]
    ensures GetRowData(v.(currentRow := 0), 0).1 == Materialize(v.table.schema, GlobalRow(v.table, 1).row)
    ensures GetRowData(v.(currentRow := 1), 1).1 == Materialize(v.table.schema, GlobalRow(v.table, 2).row)
    ensures !InWindow(EnsureCache(v.(currentRow := 2)), 2)
  {
    RefillDropsFailedRow(v.table, a, b);
    assert GlobalRow(v.table, 1).row == a && GlobalRow(v.table, 2).row == b;
    var w := EnsureCache(v.(currentRow := 0));
    assert w.cacheStart == 0;
    assert EnsureCache(v.(currentRow := 1)) == w.(currentRow := 1);
    assert EnsureCache(v.(currentRow := 2)).cacheStart == 0;
  }
}
