# Parquet dataset viewer — a Dafny model of its row cache

The viewer opens one Parquet file and shows one row at a time. Its core is
`ParquetViewer` in `src/main.rs`, which has four parts:

- **Windowed row cache.** The cursor is aligned down to a multiple of
  `CACHE_SIZE` (1000). `ensure_cache` refills when that window is not the
  cached one, or when the cache is empty. `update_cache` walks the row groups
  with a cumulative counter. It opens the first group whose cumulative end lies
  past the window start, then skips to the start inside that group. Next it
  materialises rows until `CACHE_SIZE` rows are cached or the counter reaches
  the window end, which is clipped to the table. `get_row_data(index)` serves
  `cached_rows[index - cache_start]`.
- **Row materialiser.** Each schema field becomes a `(name, value)` pair, in
  schema order. The value is the field's string coercion. When that fails, the
  value is the debug rendering of the field's map lookup.
- **Navigation.** Previous, Next and Jump are guarded updates of the 0-based
  cursor.
- **Export log.** Each "Save to Global JSON" appends the serialised current
  row to a log meant to hold one JSON array. Closing the viewer appends the
  closing bracket.

The model has one module per part, plus the table and locator the cache reads
from:

| file | module | contents |
|---|---|---|
| `basics.dfy` | `Basics` | `Option`, `Min`, `Take` |
| `table.dfy` | `ParquetTable` | the decoder's view of the file: row groups of decode results (`RowOk(cells)` / `RowErr`), cells with their string and map lookups, the schema |
| `materializer.dfy` | `Materializer` | one row (`Materialize`) and one iterator run (`MaterializeAll`, which drops failed rows) |
| `locator.dfy` | `Locator` | the summed row count, the flat layout of all groups, cumulative group starts, and the locator of a global row |
| `row_cache.dfy` | `RowCache` | `Refill`, the reference for what one refill caches, and the refill loop itself (`UpdateCache`, `VisitGroup`, `ReadGroup`, `ReadRows`), proved equal to it |
| `viewer.dfy` | `ParquetViewer` | the viewer state, startup, `ensure_cache` and `get_row_data` |
| `navigation.dfy` | `Navigation` | Previous, Next and Jump |
| `export_log.dfy` | `ExportLog` | the log-file framing and "Save to Global JSON" |

How the refill behaves, in the code as written:

- Inside the owning group, the loop counter restarts at the group's cumulative
  start. The skipped rows are not counted, so the loop asks the group's
  iterator for `end - groupStart` results past the skip.
- The loop counts every pull of the iterator, including the `None`s a drained
  group hands out past its end (src/main.rs:112-125). So the counter reaches
  `end` even when the owning group runs out first, and the `break` at
  src/main.rs:127-129 ends the walk. The refill therefore never reads past the
  end of the owning row group (`RefillWithinOwner`).
- A window that spans a group boundary is truncated. For groups of 500, 500 and
  200 rows that all decode, the window for row 999 holds only rows 0..499, so
  `get_row_data(999)` indexes past the end of the cache (`BoundaryWindows`).
- A row that fails to decode is dropped silently, while the counter still
  advances. Every later row moves one slot down in the cache, and the slots are
  no longer global row minus window start. In one group of rows
  `[failed, a, b]`, `get_row_data(0)` serves global row 1, `get_row_data(1)`
  serves global row 2, and row 2 cannot be served at all
  (`FailedRowShiftsCache`). In general a refill caches the materialised global
  rows from `start` up to the owner's run, failed rows dropped, truncated to
  `CACHE_SIZE` (`RefillFromFlat`).
- When the window start lies inside its owning group, the pulled run can reach
  past `end`: the skipped rows are not counted, so the loop asks for
  `end - groupStart` results after the skip. In one group of 3000 rows whose
  row 1000 fails and every later row decodes, the window starting at 1000
  caches rows 1001 up to 2000, and row 2000 belongs to the next window
  (`RefillReachesPastWindow`).

## Model

| member | source | states |
|---|---|---|
| RowCache.WindowStart | src/main.rs:86 | The window start is a multiple of `CACHE_SIZE` (1000) with `start <= row < start + CACHE_SIZE`. |
| RowCache.WindowStartUnique | src/main.rs:86 | The aligned window containing a row is unique: any multiple of `CACHE_SIZE` within `CACHE_SIZE` below the row is its window start. |
| RowCache.WindowStartIff | src/main.rs:85-86 | A cache start is the cursor's window start exactly when it is a multiple of `CACHE_SIZE` and the cursor lies in `[start, start + CACHE_SIZE)`. |
| RowCache.IteratorRun | src/main.rs:105-113 | A group iterator advanced `skip` times and then pulled `count` times yields `min(count, groupLength - min(skip, groupLength))` results, and nothing past the group's end. When the group has them, these are exactly the group's results `skip..skip+count`. |
| RowCache.IteratorRunAt | src/main.rs:105-113 | For every input, result `k` of the pulled run is the group's result at `skip + k`, which lies inside the group. |
| Locator.FlattenLength | src/main.rs:49 | The total row count, the sum of the groups' row counts, is the number of rows in the table's flat layout. |
| Locator.LocateFrom | src/main.rs:100-103 | The cumulative walk finds an owning group exactly when the row is below the total. The owner has the row at offset `row - groupStart` within its bounds. |
| Locator.Locate | src/main.rs:100-107 | The locator finds a row exactly when it is below the total. The group it names exists, the offset lies inside it, and group start plus offset is the row. |
| Locator.LocateOwner | src/main.rs:101-107 | The first group whose cumulative end passes `start` is the unique group with `groupStart <= start < groupEnd`. The skip is `start - groupStart`. |
| Locator.LocateAgreesWithFlatten | src/main.rs:101-109 | The located group and offset hold exactly global row `i` of the flat layout. |
| Materializer.Materialize | src/main.rs:114-122 | A materialised row has one entry per schema field, in schema order. Each entry carries the field's name and the cell's text. |
| Materializer.CellText | src/main.rs:116-119 | A successful string coercion is used verbatim, and a failed one gives the fallback rendering of the map lookup. An empty value arises only from an empty string, never from the fallback. |
| Materializer.Fallback | src/main.rs:118 | The fallback text is the debug form of the map lookup: never empty, closed by `)`, and starting with `Ok(` exactly when the lookup succeeded. |
| Materializer.FallbackInjective | src/main.rs:118 | Distinct map lookups render to distinct fallback texts. |
| Materializer.MaterializeAllOk | src/main.rs:112-124 | When every pulled result decodes, none is dropped. The k-th cached row is the materialisation of the k-th result. |
| Materializer.MaterializeAllPrefix | src/main.rs:112-124 | Pulling fewer results yields a prefix of the cached rows, so stopping early never reorders or changes rows. |
| Materializer.MaterializeIsLocal | src/main.rs:115-121 | A cell that fails coercion affects only its own entry, which keeps its field name. |
| Materializer.MaterializeAll | src/main.rs:112-124 | Draining a run pushes exactly one row per result that decodes: the cache grows by the number of decoded results, whatever fails. |
| Materializer.MaterializeAllDropsFailed | src/main.rs:113-124 | A result that fails to decode, at any position of the run, leaves no trace: the rows pushed are exactly those pushed for the run without it. |
| RowCache.Refill | src/main.rs:93-95 | A refill caches at most `CACHE_SIZE` rows. A window starting at or past the end of the table is empty. |
| RowCache.OwnerRun | src/main.rs:104-125 | The results one refill pulls from its owning group are never empty and end at or before the end of the table. |
| RowCache.OwnerRunLength | src/main.rs:104-125 | The pulled run covers global rows from `start` up to the first of the owning group's end and `end + offset`, where `offset` is the skip into that group. |
| RowCache.RefillFromFlat | src/main.rs:101-132 | For every table, whether or not its rows decode, a refill caches the materialised global rows from `start` over the owner's run, failed rows dropped, truncated to `CACHE_SIZE`. |
| RowCache.RefillReachesPastWindow | src/main.rs:104-125 | In one 3000-row group whose row 1000 fails and every later row decodes, the window starting at 1000 is full and caches global rows 1001 to 2000, in order, one of them past the window. |
| RowCache.RefillWithinOwner | src/main.rs:103-131 | A refill never reaches past the end of the group that owns its start, so it never reaches past the end of the table. |
| RowCache.RefillLengthAllDecoded | src/main.rs:95-132 | When every row decodes, a refill at `start` holds `min(end, ownerGroupEnd) - start` rows, with `end = min(start + CACHE_SIZE, total)`. |
| RowCache.RefillRowAllDecoded | src/main.rs:101-132 | When every row decodes, cached row `k` is the materialisation of global row `start + k`. |
| RowCache.RefillAllDecoded | src/main.rs:101-132 | Every cached row is the materialised global row at its position, when every row decodes. |
| RowCache.SkipRows | src/main.rs:107-110 | Advancing a group iterator `skip` times leaves it at `min(skip, groupLength)`. |
| RowCache.ReadRows | src/main.rs:112-125 | The reading loop appends the materialisation of the results it pulls, keeping at most `CACHE_SIZE` rows in total. It stops with the counter at `end` or with a full cache. A full cache reads nothing. |
| RowCache.ReadGroup | src/main.rs:104-125 | Skipping then reading one group appends, to the rows cached so far, the materialised run of that group, truncated to the room left. |
| RowCache.UpdateCache | src/main.rs:92-133 | The loop caches exactly `Refill(start)`. It opens only groups that end past `start`, in increasing order, starting with the owning group. It opens none when `start` is past the table. |
| RowCache.VisitGroup | src/main.rs:101-131 | Visiting the owning group fills the cache with the refill's rows. Visiting any later group leaves a full cache unchanged. |
| ParquetViewer.NewViewer | src/main.rs:46-64 | At startup the viewer reads the given table and dataset name, the cache is empty and tagged with start 0, and the total is the flat row count. The cursor is the loaded position (0 when none), unclamped. The empty cache forces a refill on first use. |
| ParquetViewer.NeedsRefill | src/main.rs:86 | `ensure_cache` hits exactly when the cache is non-empty, its start is a multiple of `CACHE_SIZE`, and the cursor lies in `[start, start + CACHE_SIZE)`. |
| ParquetViewer.EnsureCache | src/main.rs:85-90 | Afterwards the cache is tagged with the cursor's aligned window and holds that window's refill. On a hit the state is unchanged. Nothing else in the viewer changes. |
| ParquetViewer.RunEnsureCache | src/main.rs:85-90 | Running the refill loop produces `EnsureCache`'s state. A hit opens no row group, and a refill of a window inside the table opens at least one. |
| ParquetViewer.EnsureCacheTwice | src/main.rs:85-90 | `ensure_cache` is idempotent. A second call refills only if the first left the cache empty, which cannot happen when every row decodes and the cursor is in range. |
| ParquetViewer.GetRowData | src/main.rs:135-139 | The served row is a cached row. It is the refill of the cursor's window (not `index`'s) at position `index - windowStart`. |
| ParquetViewer.InWindowBelowTotal | src/main.rs:135-139 | Any row that can be served lies below the total row count. |
| ParquetViewer.WindowCoversSameGroup | src/main.rs:103-131 | When every row decodes, a row within the batch size after the window start is cached exactly when it is in the same row group as that start. |
| ParquetViewer.CursorRowRead | src/main.rs:135-139 | When every row decodes, the cursor's row can be served exactly when it is in its window start's row group. The row served is then the cursor's global row, materialised. |
| ParquetViewer.WindowInGroup | src/main.rs:92-132 | When every row decodes, a window starting in group `g` caches up to the first of: the window end, the table end, the end of `g`. |
| ParquetViewer.BoundaryWindows | src/main.rs:86-138 | When every row decodes, with groups of 500, 500 and 200 rows: row 999's window holds 500 rows and does not contain row 999. Row 1000's window starts at 1000, holds 200 rows and contains row 1000. |
| ParquetViewer.FailedRowShiftsCache | src/main.rs:112-138 | In one group `[failed, a, b]`, the cache holds `a` and `b`. `get_row_data(0)` serves global row 1, `get_row_data(1)` serves global row 2, and row 2 cannot be served. |
| Navigation.Previous | src/main.rs:201-203 | The cursor steps back by one exactly when it is above 0, and never changes otherwise. |
| Navigation.Next | src/main.rs:209-211 | The cursor steps forward by one exactly when it is below `total - 1`, and never changes otherwise. |
| Navigation.Jump | src/main.rs:217-232 | The cursor moves only for a parsed row in `[1, total]`, and then lands on `row - 1`. Any accepted row lands there. |
| Navigation.MovesStayInRange | src/main.rs:201-232 | Previous, Next and Jump keep a cursor on a row of the table. |
| Navigation.NextThenPrevious | src/main.rs:201-211 | Previous undoes a Next that moved. |
| Navigation.PreviousThenNext | src/main.rs:201-211 | Next undoes a Previous that moved, for a cursor in range. |
| Navigation.JumpToLabel | src/main.rs:204-208 | Typing the shown 1-based row number jumps to that row, from any cursor. |
| ExportLog.Append | src/main.rs:150-167 | A save keeps the old contents and ends the file with the record. It writes a 2-character separator, except for an existing empty file, which gets none. |
| ExportLog.Close | src/main.rs:172-183 | Closing appends 2 characters to an existing file and does not create an absent one. |
| ExportLog.ExtendNonEmpty | src/main.rs:158-167 | Saves to a non-empty file add a comma, a newline and the record, one save after another. |
| ExportLog.SessionFromAbsentFile | src/main.rs:150-183 | Starting with no file, n saves then a close give `"[\n" + r1 + ",\n" + … + rn + "]\n"`. With no save, no file is created. |
| ExportLog.SessionFromEmptyFile | src/main.rs:158-167 | An existing empty file gets no opening bracket: the session leaves the joined records and `"]\n"`. |
| ExportLog.SecondSession | src/main.rs:158-183 | A second session appends `",\n"` and its records after the first closed array, so the file no longer holds one array. |
| ExportLog.SaveToGlobalJson | src/main.rs:141-167 | A save first runs `ensure_cache`. It then appends the encoding of the sample (cursor, dataset, the cursor's cached row). |
| ExportLog.SavedSampleIsCursorRow | src/main.rs:141-148 | When every row decodes, the saved sample carries the cursor's global row, materialised. |

## Left out

- The egui/eframe user interface, `App::update`'s layout and focus handling, `on_exit` and `main` (src/main.rs:186-278): only the cursor arithmetic of the buttons is modelled.
- Parquet decoding: `get_row_group`, `get_row_iter`, `get_string` and `get_map` are foreign library calls. They are abstracted as a table of row groups of decode results, whose cells carry the outcome of the string and map lookups. A group's metadata row count is taken to be its number of results.
- `Materializer.Fallback` renders the map lookup as the tag `Ok(`/`Err(` around an opaque debug string. Rust's `Debug` formatting of the value itself is not modelled.
- serde JSON: the `LastPosition` load and save (src/main.rs:66-83) and the encoding of `GlobalSample`. A loaded position is a parameter of `NewViewer`, and the encoder is the opaque parameter `encode` of `SaveToGlobalJson`.
- File-system calls (`exists`, `OpenOptions`, `metadata().len()`), `println!` and the `unwrap` panics. The log file is modelled as its contents, or `None` when absent.
- WindowInGroup: proved only for tables whose rows all decode. Otherwise the window is shorter by the failed rows, or it reaches past its end when it starts mid-group. `RefillFromFlat` states the general case.
- BoundaryWindows: proved only for tables whose rows all decode. Each failed row in group 0 or group 2 shortens the 500- or 200-row window by one; `RefillFromFlat` states the general case.
- RefillReachesPastWindow: the 3000-row example also assumes that every row after row 1000 decodes, so the 1000 slots map to rows 1001 to 2000 one for one. With further failures the window reaches further, as `RefillFromFlat` states.
- ParquetViewer.GetRowData: requires the index to lie in the window loaded by `ensure_cache`. Outside it the source indexes past the cache and panics; that panic is not modelled (`ExportLog.SaveToGlobalJson` requires the same of the cursor).
- `Navigation.Jump` takes the text box already parsed by `str::parse::<usize>` (`None` when it fails). The parser, and the clearing of the text box afterwards, are not modelled.
- `Navigation.Next` and `Navigation.Jump`: the `i64`/`usize` casts are not modelled. Cursor, total and row are mathematical integers, so a row of 2^63 or more typed into the jump box, which `row as i64` would wrap to a negative number, is not represented. Nor is the overflow of `current_row + 1` at `usize::MAX`.
- `RowCache.UpdateCache` computes `end` from the summed row count as an unbounded integer. The `total_rows as usize` cast of a negative total is not represented, since a sum of row counts is never negative here.
- src/file_write.rs (a demo file generator) and src/dataset_handler.rs (a wrapper that opens the reader and clones its metadata) are not part of this model.
