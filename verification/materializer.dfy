/**
 * Row materialisation: turning one decoded row into the ordered list of
 * `(field name, text)` pairs the viewer displays and exports.
 */
module Materializer {
  import opened Basics
  import opened ParquetTable

  /** One displayed pair: a schema field's name and its value as text. */
  datatype Entry = Entry(name: string, value: string)

  /** A materialised row, in schema order. */
  type Row = seq<Entry>

  /**
   * Rust's debug rendering (`{:?}`) of the `Result` that `get_map(i)` returns:
   * the payload's own rendering is opaque, but it is always wrapped in `Ok(..)`
   * or `Err(..)`.
   */
  function Fallback(m: MapLookup): (s: string)
    ensures |s| >= 4 && s[|s| - 1] == ')'
    ensures s[0] == 'O' <==> m.MapFound?
    ensures m.MapFound? <==> s[..3] == "Ok("
  {
    match m
    case MapFound(d) => "Ok(" + d + ")"
    case MapError(d) => "Err(" + d + ")"
  }

  /** Distinct lookups render differently: the fallback text loses nothing of the lookup. */
  lemma FallbackInjective(m1: MapLookup, m2: MapLookup)
    requires Fallback(m1) == Fallback(m2)
    ensures m1 == m2
  {
    var s := Fallback(m1);
    var tag := if m1.MapFound? then 3 else 4;
    assert m1.MapFound? == m2.MapFound?;
    assert s[tag..|s| - 1] == m1.debug;
    assert Fallback(m2)[tag..|s| - 1] == m2.debug;
  }

  /**
   * The text shown for one cell: the string coercion when it succeeds,
   * otherwise the debug fallback. A cell renders as the empty text only when
   * it really is the empty string.
   */
  function CellText(c: Cell): (s: string)
    ensures c.asString.Some? ==> s == c.asString.value
    ensures c.asString.None? ==> s == Fallback(c.asMap)
    ensures |s| == 0 ==> c.asString == Some("")
  {
    match c.asString
    case Some(text) => text
    case None => Fallback(c.asMap)
  }

  /**
   * The materialisation of a decoded row: one entry per schema field, in
   * schema order, named after the field and carrying that field's cell text.
   * It is total: no cell can make it fail.
   */
  function Materialize(fields: seq<Field>, row: RawRow): (r: Row)
    requires |row| == |fields|
    ensures |r| == |fields|
    ensures forall k :: 0 <= k < |fields| ==> r[k] == Entry(fields[k].name, CellText(row[k]))
    decreases |fields|
  {
    if |fields| == 0 then []
    else
      var n := |fields| - 1;
      Materialize(fields[..n], row[..n]) + [Entry(fields[n].name, CellText(row[n]))]
  }

  /**
   * The rows the refill loop pushes while draining the iterator results `s`:
   * decoded rows are materialised in order, rows that fail to decode are dropped.
   */
  function MaterializeAll(fields: seq<Field>, s: seq<RowResult>): (r: seq<Row>)
    requires RowsFit(|fields|, s)
    ensures |r| == DecodedCount(s)
    decreases |s|
  {
    if |s| == 0 then []
    else
      var n := |s| - 1;
      assert RowsFit(|fields|, s[..n]) by { RowsFitSlice(|fields|, s, 0, n); }
      MaterializeAll(fields, s[..n]) + (if s[n].RowOk? then [Materialize(fields, s[n].row)] else [])
  }

  /**
   * When every result decodes, nothing is dropped: the k-th materialised row
   * is the materialisation of the k-th result.
   */
  lemma {:induction false} MaterializeAllOk(fields: seq<Field>, s: seq<RowResult>)
    requires RowsFit(|fields|, s)
    requires AllOk(s)
    ensures |MaterializeAll(fields, s)| == |s|
    ensures forall k :: 0 <= k < |s| ==> MaterializeAll(fields, s)[k] == Materialize(fields, s[k].row)
    decreases |s|
  {
    if |s| > 0 {
      var n := |s| - 1;
      RowsFitSlice(|fields|, s, 0, n);
      assert AllOk(s[..n]) by {
        forall i | 0 <= i < n ensures s[..n][i].RowOk? {
          assert s[..n][i] == s[i];
        }
      }
      MaterializeAllOk(fields, s[..n]);
      assert s[n].RowOk?;
      var prefix := MaterializeAll(fields, s[..n]);
      var r := MaterializeAll(fields, s);
      var last := Materialize(fields, s[n].row);
      assert |prefix| == n;
      assert r == prefix + [last];
      forall k | 0 <= k < |s| ensures r[k] == Materialize(fields, s[k].row) {
        if k == n {
          assert r[k] == last;
        } else {
          calc {
            r[k];
            prefix[k];
            Materialize(fields, s[..n][k].row);
            { assert s[..n][k] == s[k]; }
            Materialize(fields, s[k].row);
          }
        }
      }
    }
  }

  /** Pushing one more iterator result extends the materialised rows by at most that row. */
  lemma MaterializeAllSnoc(fields: seq<Field>, s: seq<RowResult>, x: RowResult)
    requires RowsFit(|fields|, s + [x])
    ensures RowsFit(|fields|, s)
    ensures x.RowOk? ==> |x.row| == |fields|
    ensures MaterializeAll(fields, s + [x])
         == MaterializeAll(fields, s) + (if x.RowOk? then [Materialize(fields, x.row)] else [])
  {
    assert (s + [x])[..|s|] == s;
    assert (s + [x])[|s|] == x;
    RowsFitSlice(|fields|, s + [x], 0, |s|);
  }

  /**
   * A result that fails to decode leaves no trace, wherever it sits in the
   * run: the rows materialised around it are the ones materialised without
   * it, so every row after it lands one slot earlier than its result.
   */
  lemma {:induction false} MaterializeAllDropsFailed(fields: seq<Field>, a: seq<RowResult>, b: seq<RowResult>)
    requires RowsFit(|fields|, a + b)
    ensures RowsFit(|fields|, a + [RowErr] + b)
    ensures MaterializeAll(fields, a + [RowErr] + b) == MaterializeAll(fields, a + b)
    decreases |b|
  {
    var e := a + [RowErr] + b;
    forall i | 0 <= i < |e| && e[i].RowOk?
      ensures |e[i].row| == |fields|
    {
      if i < |a| {
        assert e[i] == (a + b)[i];
      } else {
        assert e[i] == (a + b)[i - 1];
      }
    }
    if |b| == 0 {
      assert e == a + [RowErr] && a + b == a;
      MaterializeAllSnoc(fields, a, RowErr);
    } else {
      var n := |b| - 1;
      assert (a + b)[..|a| + n] == a + b[..n];
      RowsFitSlice(|fields|, a + b, 0, |a| + n);
      MaterializeAllDropsFailed(fields, a, b[..n]);
      assert e == (a + [RowErr] + b[..n]) + [b[n]];
      MaterializeAllSnoc(fields, a + [RowErr] + b[..n], b[n]);
      assert a + b == (a + b[..n]) + [b[n]];
      MaterializeAllSnoc(fields, a + b[..n], b[n]);
    }
  }

  /** Reading fewer iterator results yields a prefix of the materialised rows. */
  lemma {:induction false} MaterializeAllPrefix(fields: seq<Field>, s: seq<RowResult>, n: nat)
    requires RowsFit(|fields|, s)
    requires n <= |s|
    ensures RowsFit(|fields|, s[..n])
    ensures MaterializeAll(fields, s[..n]) <= MaterializeAll(fields, s)
    decreases |s| - n
  {
    RowsFitSlice(|fields|, s, 0, n);
    if n < |s| {
      var m := |s| - 1;
      RowsFitSlice(|fields|, s, 0, m);
      assert s[..m][..n] == s[..n];
      MaterializeAllPrefix(fields, s[..m], n);
    } else {
      assert s[..n] == s;
    }
  }

  /**
   * The loop that stops after `room` rows or after `n` results keeps exactly
   * what it materialised from the first `n` results.
   */
  lemma TakeOfPrefix(fields: seq<Field>, s: seq<RowResult>, n: nat, room: nat)
    requires RowsFit(|fields|, s)
    requires n <= |s|
    requires RowsFit(|fields|, s[..n])
    requires |MaterializeAll(fields, s[..n])| <= room
    requires n == |s| || |MaterializeAll(fields, s[..n])| == room
    ensures Take(room, MaterializeAll(fields, s)) == MaterializeAll(fields, s[..n])
  {
    var all := MaterializeAll(fields, s);
    var part := MaterializeAll(fields, s[..n]);
    MaterializeAllPrefix(fields, s, n);
    var kept := Take(room, all);
    if n == |s| {
      assert s[..n] == s;
    } else {
      assert |kept| == room == |part|;
      assert kept == all[..room] == part;
    }
  }

  /**
   * A cell that cannot be coerced to text does not disturb its siblings: two
   * rows that differ in one cell materialise to rows that differ in that entry
   * only, and that entry keeps its field name.
   */
  lemma MaterializeIsLocal(fields: seq<Field>, row: RawRow, k: nat, c: Cell)
    requires |row| == |fields|
    requires k < |row|
    ensures Materialize(fields, row[k := c]) == Materialize(fields, row)[k := Entry(fields[k].name, CellText(c))]
  {
    var a := Materialize(fields, row[k := c]);
    var b := Materialize(fields, row)[k := Entry(fields[k].name, CellText(c))];
    assert |a| == |b|;
    forall j | 0 <= j < |a| ensures a[j] == b[j] {}
  }
}
