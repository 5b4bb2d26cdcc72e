/**
 * The global sample log: "Save to Global JSON" appends the current row as a
 * serialised record to a file meant to hold one JSON array, and closing the
 * viewer terminates that array. The file is modelled as its contents, or
 * `None` while it does not exist; a serialised record is an opaque string.
 */
module ExportLog {
  import opened Basics
  import opened Materializer
  import opened Locator
  import opened RowCache
  import opened ParquetViewer

  /** The log file: `None` when absent, otherwise its whole contents. */
  type LogFile = Option<string>

  /**
   * One save: the record is written after a separator that depends on the
   * file — the opening `[` and a newline when it did not exist, a comma and a
   * newline when it already held something, and nothing when it existed but
   * was empty. The old contents are kept and the file now exists.
   */
  function Append(file: LogFile, json: string): (r: LogFile)
    ensures r.Some?
    ensures file.Some? ==> file.value <= r.value
    ensures |r.value| >= |json| && r.value[|r.value| - |json|..] == json
    ensures var before := if file.Some? then |file.value| else 0;
            |r.value| == before + |json| + (if file == Some("") then 0 else 2)
  {
    match file
    case None => Some("[\n" + json)
    case Some(c) => if |c| > 0 then Some(c + ",\n" + json) else Some(json)
  }

  /** Closing the viewer: a newline-terminated `]` is appended when the file exists; an absent file stays absent. */
  function Close(file: LogFile): (r: LogFile)
    ensures r.Some? <==> file.Some?
    ensures file.Some? ==> file.value <= r.value && |r.value| == |file.value| + 2
  {
    match file
    case None => None
    case Some(c) => Some(c + "]\n")
  }

  /** A run of saves, oldest first. */
  function AppendAll(file: LogFile, records: seq<string>): (r: LogFile)
    decreases |records|
  {
    if |records| == 0 then file
    else Append(AppendAll(file, records[..|records| - 1]), records[|records| - 1])
  }

  /** Each record preceded by a comma and a newline. */
  function Separated(records: seq<string>): (s: string)
    decreases |records|
  {
    if |records| == 0 then ""
    else Separated(records[..|records| - 1]) + ",\n" + records[|records| - 1]
  }

  /** The records joined by a comma and a newline. */
  function Join(records: seq<string>): (s: string)
    requires |records| > 0
  {
    records[0] + Separated(records[1..])
  }

  /** A run of saves split in two is the first part followed by the second. */
  lemma {:induction false} AppendAllConcat(file: LogFile, a: seq<string>, b: seq<string>)
    ensures AppendAll(file, a + b) == AppendAll(AppendAll(file, a), b)
    decreases |b|
  {
    if |b| == 0 {
      assert a + b == a;
    } else {
      var ab := a + b;
      assert ab[..|ab| - 1] == a + b[..|b| - 1];
      assert ab[|ab| - 1] == b[|b| - 1];
      AppendAllConcat(file, a, b[..|b| - 1]);
    }
  }

  /** Saves to a file that already holds something each add a comma, a newline and the record. */
  lemma {:induction false} ExtendNonEmpty(c: string, records: seq<string>)
    requires |c| > 0
    ensures AppendAll(Some(c), records) == Some(c + Separated(records))
    decreases |records|
  {
    if |records| > 0 {
      var init := records[..|records| - 1];
      var last := records[|records| - 1];
      ExtendNonEmpty(c, init);
      var before := c + Separated(init);
      calc {
        AppendAll(Some(c), records);
        Append(AppendAll(Some(c), init), last);
        Append(Some(before), last);
        Some(before + ",\n" + last);
        { assert before + ",\n" + last == c + (Separated(init) + ",\n" + last); }
        Some(c + (Separated(init) + ",\n" + last));
        Some(c + Separated(records));
      }
    } else {
      assert c + Separated(records) == c;
    }
  }

  /** Regrouping a three-part concatenation; stated once so that the session proofs stay small. */
  lemma ConcatAssoc(a: string, b: string, c: string)
    ensures a + b + c == a + (b + c)
  {
  }

  /** The first save of a run decides the framing; the rest extend what it wrote. */
  lemma AppendAllFirst(file: LogFile, records: seq<string>)
    requires |records| > 0
    ensures AppendAll(file, records) == AppendAll(Append(file, records[0]), records[1..])
  {
    var first := records[..1];
    assert records == first + records[1..];
    AppendAllConcat(file, first, records[1..]);
    assert first[..0] == [];
  }

  /**
   * A session that starts without a log file and saves `records` leaves,
   * once closed, exactly one JSON array holding the records in order; with no
   * save no file is created.
   */
  lemma SessionFromAbsentFile(records: seq<string>)
    ensures |records| == 0 ==> Close(AppendAll(None, records)) == None
    ensures |records| > 0 ==> Close(AppendAll(None, records)) == Some("[\n" + Join(records) + "]\n")
  {
    if |records| > 0 {
      var rest := records[1..];
      var header := "[\n" + records[0];
      AppendAllFirst(None, records);
      assert Append(None, records[0]) == Some(header);
      ExtendNonEmpty(header, rest);
      assert AppendAll(None, records) == Some(header + Separated(rest));
      ConcatAssoc("[\n", records[0], Separated(rest));
    }
  }

  /**
   * A log file that exists but is empty gets no opening bracket: after the
   * session it holds the records joined and the closing `]`, which is not a
   * JSON array. (A serialised record is never empty.)
   */
  lemma SessionFromEmptyFile(records: seq<string>)
    requires |records| > 0 && |records[0]| > 0
    ensures Close(AppendAll(Some(""), records)) == Some(Join(records) + "]\n")
  {
    AppendAllFirst(Some(""), records);
    ExtendNonEmpty(records[0], records[1..]);
  }

  /**
   * A second session appends to the closed array of the first: the file then
   * holds the first array, a comma, and the second session's records with
   * their own closing bracket — two sessions do not make one JSON array.
   */
  lemma SecondSession(first: seq<string>, second: seq<string>)
    requires |first| > 0
    ensures Close(AppendAll(Close(AppendAll(None, first)), second))
            == Some("[\n" + Join(first) + "]\n" + Separated(second) + "]\n")
  {
    SessionFromAbsentFile(first);
    ExtendNonEmpty("[\n" + Join(first) + "]\n", second);
  }

  /** The record "Save to Global JSON" serialises: the cursor, the dataset path and the cursor's row. */
  datatype Sample = Sample(index: nat, dataset: string, sample: Row)

  /**
   * "Save to Global JSON": read the cursor's row through the cache (the source
   * indexes the cache unchecked, so the cursor must be in its window), then
   * append its serialisation `encode(sample)` to the log.
   */
  function SaveToGlobalJson(v: Viewer, file: LogFile, encode: Sample -> string): (res: (Viewer, LogFile))
    requires v.Valid()
    requires InWindow(EnsureCache(v), v.currentRow)
    ensures res.0 == EnsureCache(v)
    ensures var start := WindowStart(v.currentRow);
            var s := Sample(v.currentRow, v.dataset, Refill(v.table, start)[v.currentRow - start]);
            res.1 == Append(file, encode(s))
  {
    var (w, row) := GetRowData(v, v.currentRow);
    (w, Append(file, encode(Sample(v.currentRow, v.dataset, row))))
  }

  /**
   * When every row decodes and the cursor's row is in its window, the saved
   * sample carries the cursor's global row, materialised against the schema.
   */
  lemma SavedSampleIsCursorRow(v: Viewer, file: LogFile, encode: Sample -> string)
    requires v.Valid() && v.table.AllDecode() && v.currentRow < v.totalRows
    requires InWindow(EnsureCache(v), v.currentRow)
    ensures v.currentRow < |Flatten(v.table.groups)|
    ensures GlobalRow(v.table, v.currentRow).RowOk?
    ensures |GlobalRow(v.table, v.currentRow).row| == |v.table.schema|
    ensures var row := Materialize(v.table.schema, GlobalRow(v.table, v.currentRow).row);
            SaveToGlobalJson(v, file, encode).1 == Append(file, encode(Sample(v.currentRow, v.dataset, row)))
  {
    CursorRowRead(v);
  }
}
