/** The best-record ledger behind `/record` and `/CPLrecord`: every play is
    appended as a row, and at most one row per key carries the `isBest` flag.

    A submission selects the rows of its key flagged best and looks at the
    first one. With no such row the new row is best; with one whose record is
    strictly lower, every best flag of the key is cleared and the new row is
    best; otherwise (a tie included) the new row is stored without the flag.
    Generic in the key `K` and in the other columns `D` of a row. */
module BestLedger {
  import opened Util

  datatype Entry<K, D> = Entry(key: K, record: int, isBest: bool, data: D)

  predicate IsBestOf<K(==), D>(e: Entry<K, D>, k: K) {
    e.key == k && e.isBest
  }

  /** Position of the first row of key `k` flagged best, or -1. */
  function FirstBestIndex<K(==), D>(rows: seq<Entry<K, D>>, k: K): (r: int)
    ensures -1 <= r < |rows|
    ensures r == -1 <==> forall i :: 0 <= i < |rows| ==> !IsBestOf(rows[i], k)
    ensures 0 <= r ==> IsBestOf(rows[r], k) && forall i :: 0 <= i < r ==> !IsBestOf(rows[i], k)
  {
    if |rows| == 0 then -1
    else if IsBestOf(rows[0], k) then 0
    else
      var r := FirstBestIndex(rows[1..], k);
      if r == -1 then -1 else r + 1
  }

  /** `select record ... where isBest = 1`, then `result[0].record`. */
  function FirstBest<K(==), D>(rows: seq<Entry<K, D>>, k: K): Option<int> {
    var i := FirstBestIndex(rows, k);
    if i < 0 then None else Some(rows[i].record)
  }

  /** Whether a new record becomes best, given the record of the current best. */
  predicate BeatsPrior(prior: Option<int>, record: int) {
    prior.None? || prior.value < record
  }

  /** Two rows that differ at most in their best flag. */
  predicate SameButFlag<K(==), D(==)>(a: Entry<K, D>, b: Entry<K, D>) {
    a.key == b.key && a.record == b.record && a.data == b.data
  }

  /** `update isBest = 0 where key = k and isBest = 1`. */
  function ClearBest<K(==), D(==)>(rows: seq<Entry<K, D>>, k: K): (r: seq<Entry<K, D>>)
    ensures |r| == |rows|
    ensures forall i :: 0 <= i < |rows| ==>
      SameButFlag(r[i], rows[i]) && !IsBestOf(r[i], k) && (rows[i].key != k ==> r[i] == rows[i])
  {
    seq(|rows|, i requires 0 <= i < |rows| =>
      if IsBestOf(rows[i], k) then rows[i].(isBest := false) else rows[i])
  }

  /** The table after one submission of `record` for key `k`. */
  function WithPlay<K(==), D(==)>(rows: seq<Entry<K, D>>, k: K, record: int, data: D): seq<Entry<K, D>> {
    var prior := FirstBest(rows, k);
    var best := BeatsPrior(prior, record);
    (if prior.Some? && best then ClearBest(rows, k) else rows) + [Entry(k, record, best, data)]
  }

  // ---------------------------------------------------------------------
  // The single-winner invariant

  /** No two rows of the same key are both flagged best. */
  predicate AtMostOneBest<K(==), D>(rows: seq<Entry<K, D>>) {
    forall i, j :: 0 <= i < |rows| && 0 <= j < |rows| && rows[i].isBest && rows[j].isBest && rows[i].key == rows[j].key ==> i == j
  }

  /** Every key that has rows has a best row. */
  predicate EveryKeyHasBest<K(==), D>(rows: seq<Entry<K, D>>) {
    forall i :: 0 <= i < |rows| ==> FirstBestIndex(rows, rows[i].key) >= 0
  }

  /** A best row's record is at least every record of its key. */
  predicate BestIsMaximal<K(==), D>(rows: seq<Entry<K, D>>) {
    forall i, j :: 0 <= i < |rows| && 0 <= j < |rows| && rows[i].isBest && rows[j].key == rows[i].key ==> rows[j].record <= rows[i].record
  }

  /** Each key with rows has exactly one best row, holding its highest record. */
  predicate WellFlagged<K(==), D>(rows: seq<Entry<K, D>>) {
    AtMostOneBest(rows) && EveryKeyHasBest(rows) && BestIsMaximal(rows)
  }

  /** A submission appends exactly one row, the new row is best exactly when
      the prior best is absent or strictly lower, and the earlier rows keep
      their keys, records and columns; rows of other keys are untouched. */
  lemma WithPlayShape<K, D>(rows: seq<Entry<K, D>>, k: K, record: int, data: D)
    ensures var r := WithPlay(rows, k, record, data);
      && |r| == |rows| + 1
      && r[|rows|] == Entry(k, record, BeatsPrior(FirstBest(rows, k), record), data)
      && (forall i :: 0 <= i < |rows| ==> SameButFlag(r[i], rows[i]))
      && (forall i :: 0 <= i < |rows| && rows[i].key != k ==> r[i] == rows[i])
      && (!r[|rows|].isBest ==> r[..|rows|] == rows)
  {
  }

  /** Under the invariant, a key without a best row has no rows at all. */
  lemma NoBestNoRows<K, D>(rows: seq<Entry<K, D>>, k: K)
    requires EveryKeyHasBest(rows) && FirstBestIndex(rows, k) < 0
    ensures forall i :: 0 <= i < |rows| ==> rows[i].key != k
  {
    forall i | 0 <= i < |rows|
      ensures rows[i].key != k
    {
      assert FirstBestIndex(rows, rows[i].key) >= 0;
    }
  }

  /** Under the invariant, a new record is flagged best exactly when it is
      strictly higher than every earlier record of its key; a tie is not. */
  lemma BestIffBeatsAll<K, D>(rows: seq<Entry<K, D>>, k: K, record: int, data: D)
    requires WellFlagged(rows)
    ensures WithPlay(rows, k, record, data)[|rows|].isBest
        <==> forall i :: 0 <= i < |rows| && rows[i].key == k ==> rows[i].record < record
  {
    if FirstBestIndex(rows, k) < 0 {
      NoBestNoRows(rows, k);
    }
  }

  // Appending a row that is not best.

  lemma AppendPlainOneBest<K, D>(rows: seq<Entry<K, D>>, e: Entry<K, D>)
    requires AtMostOneBest(rows) && !e.isBest
    ensures AtMostOneBest(rows + [e])
  {
    var r := rows + [e];
    assert forall i :: 0 <= i < |rows| ==> r[i] == rows[i];
  }

  lemma AppendPlainHasBest<K, D>(rows: seq<Entry<K, D>>, e: Entry<K, D>)
    requires EveryKeyHasBest(rows) && FirstBestIndex(rows, e.key) >= 0
    ensures EveryKeyHasBest(rows + [e])
  {
    var r := rows + [e];
    var n := |rows|;
    forall i | 0 <= i < |r|
      ensures FirstBestIndex(r, r[i].key) >= 0
    {
      var q := FirstBestIndex(rows, if i == n then e.key else rows[i].key);
      assert r[i].key == (if i == n then e.key else rows[i].key);
      assert r[q] == rows[q];
      assert IsBestOf(r[q], r[i].key);
    }
  }

  lemma AppendPlainMaximal<K, D>(rows: seq<Entry<K, D>>, e: Entry<K, D>)
    requires BestIsMaximal(rows) && !e.isBest
    requires forall i :: 0 <= i < |rows| && IsBestOf(rows[i], e.key) ==> e.record <= rows[i].record
    ensures BestIsMaximal(rows + [e])
  {
    var r := rows + [e];
    var n := |rows|;
    forall i, j | 0 <= i < |r| && 0 <= j < |r| && r[i].isBest && r[j].key == r[i].key
      ensures r[j].record <= r[i].record
    {
      assert i < n && r[i] == rows[i];
      if j < n {
        assert r[j] == rows[j];
      } else {
        assert IsBestOf(rows[i], e.key);
      }
    }
  }

  // Appending the first row of a key, flagged best.

  lemma AppendFirstOneBest<K, D>(rows: seq<Entry<K, D>>, e: Entry<K, D>)
    requires AtMostOneBest(rows)
    requires forall i :: 0 <= i < |rows| ==> rows[i].key != e.key
    ensures AtMostOneBest(rows + [e])
  {
    var r := rows + [e];
    assert forall i :: 0 <= i < |rows| ==> r[i] == rows[i];
  }

  lemma AppendFirstHasBest<K, D>(rows: seq<Entry<K, D>>, e: Entry<K, D>)
    requires EveryKeyHasBest(rows) && e.isBest
    ensures EveryKeyHasBest(rows + [e])
  {
    var r := rows + [e];
    var n := |rows|;
    forall i | 0 <= i < |r|
      ensures FirstBestIndex(r, r[i].key) >= 0
    {
      if i == n {
        assert IsBestOf(r[n], e.key);
      } else {
        var q := FirstBestIndex(rows, rows[i].key);
        assert r[i] == rows[i] && r[q] == rows[q];
        assert IsBestOf(r[q], r[i].key);
      }
    }
  }

  lemma AppendFirstMaximal<K, D>(rows: seq<Entry<K, D>>, e: Entry<K, D>)
    requires BestIsMaximal(rows)
    requires forall i :: 0 <= i < |rows| ==> rows[i].key != e.key
    ensures BestIsMaximal(rows + [e])
  {
    var r := rows + [e];
    assert forall i :: 0 <= i < |rows| ==> r[i] == rows[i];
  }

  // Retiring the best of key `k` and appending a new best of `k`.

  lemma ReplaceOneBest<K, D>(rows: seq<Entry<K, D>>, e: Entry<K, D>)
    requires AtMostOneBest(rows)
    ensures AtMostOneBest(ClearBest(rows, e.key) + [e])
  {
    var c := ClearBest(rows, e.key);
    var r := c + [e];
    assert forall i :: 0 <= i < |rows| ==> r[i] == c[i];
    forall i, j | 0 <= i < |r| && 0 <= j < |r| && r[i].isBest && r[j].isBest && r[i].key == r[j].key
      ensures i == j
    {
      if i < |rows| && j < |rows| {
        assert r[i] == rows[i] && r[j] == rows[j];
      }
    }
  }

  lemma ReplaceHasBest<K, D>(rows: seq<Entry<K, D>>, e: Entry<K, D>)
    requires EveryKeyHasBest(rows) && e.isBest
    ensures EveryKeyHasBest(ClearBest(rows, e.key) + [e])
  {
    var c := ClearBest(rows, e.key);
    var r := c + [e];
    var n := |rows|;
    forall i | 0 <= i < |r|
      ensures FirstBestIndex(r, r[i].key) >= 0
    {
      if i == n || r[i].key == e.key {
        assert IsBestOf(r[n], r[i].key);
      } else {
        assert r[i] == rows[i];
        var q := FirstBestIndex(rows, rows[i].key);
        assert r[q] == rows[q];
        assert IsBestOf(r[q], r[i].key);
      }
    }
  }

  lemma ReplaceMaximal<K, D>(rows: seq<Entry<K, D>>, e: Entry<K, D>)
    requires BestIsMaximal(rows)
    requires forall i :: 0 <= i < |rows| && rows[i].key == e.key ==> rows[i].record < e.record
    ensures BestIsMaximal(ClearBest(rows, e.key) + [e])
  {
    var c := ClearBest(rows, e.key);
    var r := c + [e];
    var n := |rows|;
    forall i, j | 0 <= i < |r| && 0 <= j < |r| && r[i].isBest && r[j].key == r[i].key
      ensures r[j].record <= r[i].record
    {
      if i == n {
        if j < n {
          assert SameButFlag(c[j], rows[j]);
        }
      } else {
        assert !IsBestOf(c[i], e.key) && r[i] == rows[i];
        if j < n {
          assert r[j] == rows[j];
        }
      }
    }
  }

  /** A submission keeps the single-winner invariant. */
  lemma WithPlayWellFlagged<K, D>(rows: seq<Entry<K, D>>, k: K, record: int, data: D)
    requires WellFlagged(rows)
    ensures WellFlagged(WithPlay(rows, k, record, data))
  {
    var p := FirstBestIndex(rows, k);
    if p < 0 {
      var e := Entry(k, record, true, data);
      NoBestNoRows(rows, k);
      assert WithPlay(rows, k, record, data) == rows + [e];
      AppendFirstOneBest(rows, e);
      AppendFirstHasBest(rows, e);
      AppendFirstMaximal(rows, e);
    } else if rows[p].record < record {
      var e := Entry(k, record, true, data);
      assert WithPlay(rows, k, record, data) == ClearBest(rows, k) + [e];
      ReplaceOneBest(rows, e);
      ReplaceHasBest(rows, e);
      ReplaceMaximal(rows, e);
    } else {
      var e := Entry(k, record, false, data);
      assert WithPlay(rows, k, record, data) == rows + [e];
      AppendPlainOneBest(rows, e);
      AppendPlainHasBest(rows, e);
      AppendPlainMaximal(rows, e);
    }
  }

  // ---------------------------------------------------------------------
  // The table, updated in place

  class BestTable<K(==), D(==)> {
    var rows: seq<Entry<K, D>>

    constructor ()
      ensures rows == []
    {
      rows := [];
    }

    /** The select: the record of the first best row of key `k`. */
    method SelectBest(k: K) returns (prior: Option<int>)
      ensures prior == FirstBest(rows, k)
    {
      var i := 0;
      while i < |rows| && !IsBestOf(rows[i], k)
        invariant 0 <= i <= |rows|
        invariant forall j :: 0 <= j < i ==> !IsBestOf(rows[j], k)
      {
        i := i + 1;
      }
      prior := if i < |rows| then Some(rows[i].record) else None;
    }

    /** The update that retires every best row of key `k`. */
    method ClearBestFlags(k: K)
      modifies this
      ensures rows == ClearBest(old(rows), k)
    {
      ghost var before := rows;
      var i := 0;
      while i < |rows|
        invariant 0 <= i <= |rows| == |before|
        invariant forall j :: 0 <= j < i ==> rows[j] == ClearBest(before, k)[j]
        invariant forall j :: i <= j < |rows| ==> rows[j] == before[j]
      {
        if IsBestOf(rows[i], k) {
          rows := rows[i := rows[i].(isBest := false)];
        }
        i := i + 1;
      }
    }

    /** One submission: select the prior best, retire it when beaten, insert. */
    method Submit(k: K, record: int, data: D) returns (best: bool, prior: Option<int>)
      modifies this
      ensures prior == FirstBest(old(rows), k)
      ensures best == BeatsPrior(prior, record)
      ensures rows == WithPlay(old(rows), k, record, data)
    {
      best := false;
      prior := SelectBest(k);
      if prior.Some? && prior.value < record {
        best := true;
        ClearBestFlags(k);
      }
      if prior.None? {
        best := true;
      }
      rows := rows + [Entry(k, record, best, data)];
    }
  }
}
