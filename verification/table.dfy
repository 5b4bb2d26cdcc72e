/**
 * The columnar file as the viewer sees it: an ordered sequence of row groups,
 * each of which can only be read front to back through a row iterator, and a
 * schema of named top-level fields. The Parquet decoder itself is not modelled;
 * a row group is simply the sequence of results its row iterator yields.
 */
module ParquetTable {
  import opened Basics

  /** Outcome of the reader's `get_map(i)` on a row, kept only for its debug rendering. */
  datatype MapLookup = MapFound(debug: string) | MapError(debug: string)

  /**
   * One field value of a decoded row, seen through the two accessors the viewer
   * calls on it: `get_string(i)` (Some exactly when the value is a string) and
   * `get_map(i)`.
   */
  datatype Cell = Cell(asString: Option<string>, asMap: MapLookup)

  /** A decoded row: one cell per top-level schema field. */
  type RawRow = seq<Cell>

  /** A schema field; only its name reaches the viewer. */
  datatype Field = Field(name: string)

  /** What the row iterator yields for one row: a decoded row or a decoding error. */
  datatype RowResult = RowOk(row: RawRow) | RowErr

  /** A row group is what its row iterator yields; its metadata row count is its length. */
  type RowGroup = seq<RowResult>

  /** Every decoded row in `s` carries exactly `width` cells. */
  predicate RowsFit(width: nat, s: seq<RowResult>) {
    forall i :: 0 <= i < |s| && s[i].RowOk? ==> |s[i].row| == width
  }

  /** How many entries of `s` decoded successfully. */
  function DecodedCount(s: seq<RowResult>): (n: nat)
    ensures n <= |s|
    decreases |s|
  {
    if |s| == 0 then 0
    else DecodedCount(s[..|s| - 1]) + (if s[|s| - 1].RowOk? then 1 else 0)
  }

  /** Every entry of `s` decodes successfully. */
  predicate AllOk(s: seq<RowResult>) {
    forall i :: 0 <= i < |s| ==> s[i].RowOk?
  }

  datatype Table = Table(groups: seq<RowGroup>, schema: seq<Field>) {

    /** The row iterator is built from the schema, so decoded rows have one cell per field. */
    predicate WellFormed() {
      forall g :: 0 <= g < |groups| ==> RowsFit(|schema|, groups[g])
    }

    /** No row of the table fails to decode. */
    predicate AllDecode() {
      forall g :: 0 <= g < |groups| ==> AllOk(groups[g])
    }
  }

  lemma RowsFitSlice(width: nat, s: seq<RowResult>, a: nat, b: nat)
    requires RowsFit(width, s)
    requires a <= b <= |s|
    ensures RowsFit(width, s[a..b])
  {
    forall i | 0 <= i < b - a && s[a..b][i].RowOk?
      ensures |s[a..b][i].row| == width
    {
      assert s[a..b][i] == s[a + i];
    }
  }
}
