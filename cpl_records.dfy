/** `/CPLrecord`: the best-record ledger of community patterns, keyed by
    (nickname, track name, difficulty, pattern id), with a running total per
    (nickname, track name, difficulty) in `CPLTotalTrackRecords`.

    A submission computes `gap`, the improvement of the pattern's best record
    (the whole record on a first play, nothing when it does not improve),
    inserts the pattern row and then adds `gap` to the total row. As written,
    the handler reads `total[0].record` before it checks that a total row
    exists: with no total row the read throws after the pattern row is already
    stored, and the branch meant to insert the first total row never runs.
    `CplAsWritten` models that; `CplCorrected` checks first, and is the one
    that keeps every total equal to the sum of its patterns' best records. */
module CplRecords {
  import opened Util
  import opened BestLedger

  datatype Chart = Chart(nickname: string, name: string, difficulty: int)

  datatype PatternKey = PatternKey(chart: Chart, id: string)

  datatype CplData = CplData(rank: string, maxcombo: int)

  type PatternRow = Entry<PatternKey, CplData>

  datatype TotalRow = TotalRow(chart: Chart, record: int)

  datatype CplRequest = CplRequest(
    id: string, name: string, nickname: string, rank: string, record: int,
    maxcombo: int, difficulty: int)

  datatype CplOutcome = AuthorizeFailed | Updated | UpdateError

  datatype CplTables = CplTables(patterns: seq<PatternRow>, totals: seq<TotalRow>)

  function ChartOf(req: CplRequest): Chart {
    Chart(req.nickname, req.name, req.difficulty)
  }

  function PatternKeyOf(req: CplRequest): PatternKey {
    PatternKey(ChartOf(req), req.id)
  }

  /** The improvement of the pattern's best record. */
  function Gap(prior: Option<int>, record: int): int {
    if prior.Some? && prior.value < record then record - prior.value
    else if prior.None? then record
    else 0
  }

  /** Position of the first total row of chart `c`, or -1. */
  function FirstTotalIndex(totals: seq<TotalRow>, c: Chart): (r: int)
    ensures -1 <= r < |totals|
    ensures r == -1 <==> forall i :: 0 <= i < |totals| ==> totals[i].chart != c
    ensures 0 <= r ==> totals[r].chart == c && forall i :: 0 <= i < r ==> totals[i].chart != c
  {
    if |totals| == 0 then -1
    else if totals[0].chart == c then 0
    else
      var r := FirstTotalIndex(totals[1..], c);
      if r == -1 then -1 else r + 1
  }

  /** `update record = score where chart = c`: every total row of `c`. */
  function SetTotal(totals: seq<TotalRow>, c: Chart, score: int): (r: seq<TotalRow>)
    ensures |r| == |totals|
    ensures forall i :: 0 <= i < |totals| ==>
      r[i].chart == totals[i].chart && r[i].record == (if totals[i].chart == c then score else totals[i].record)
  {
    seq(|totals|, i requires 0 <= i < |totals| =>
      if totals[i].chart == c then totals[i].(record := score) else totals[i])
  }

  /** The handler as written: with no total row it fails after the insert. */
  function CplAsWritten(t: CplTables, req: CplRequest): (CplTables, CplOutcome) {
    var pk := PatternKeyOf(req);
    var gap := Gap(FirstBest(t.patterns, pk), req.record);
    var patterns := WithPlay(t.patterns, pk, req.record, CplData(req.rank, req.maxcombo));
    var i := FirstTotalIndex(t.totals, pk.chart);
    if i < 0 then (CplTables(patterns, t.totals), UpdateError)
    else (CplTables(patterns, SetTotal(t.totals, pk.chart, t.totals[i].record + gap)), Updated)
  }

  /** The handler with the length check before the read: the first total row
      of a chart is inserted with the submitted record. */
  function CplCorrected(t: CplTables, req: CplRequest): (CplTables, CplOutcome) {
    var pk := PatternKeyOf(req);
    var gap := Gap(FirstBest(t.patterns, pk), req.record);
    var patterns := WithPlay(t.patterns, pk, req.record, CplData(req.rank, req.maxcombo));
    var i := FirstTotalIndex(t.totals, pk.chart);
    if i < 0 then (CplTables(patterns, t.totals + [TotalRow(pk.chart, req.record)]), Updated)
    else (CplTables(patterns, SetTotal(t.totals, pk.chart, t.totals[i].record + gap)), Updated)
  }

  // ---------------------------------------------------------------------
  // The running total is the sum of the best records

  /** What a pattern row adds to the total of chart `c`. */
  function Contribution(e: PatternRow, c: Chart): int {
    if e.isBest && e.key.chart == c then e.record else 0
  }

  /** Sum of the best records of the patterns of chart `c`. */
  function SumBest(patterns: seq<PatternRow>, c: Chart): int {
    if |patterns| == 0 then 0
    else SumBest(patterns[..|patterns| - 1], c) + Contribution(patterns[|patterns| - 1], c)
  }

  /** Sum of the records of the rows of pattern `pk` flagged best. */
  function KeyBestSum(patterns: seq<PatternRow>, pk: PatternKey): int {
    if |patterns| == 0 then 0
    else
      var e := patterns[|patterns| - 1];
      KeyBestSum(patterns[..|patterns| - 1], pk) + (if IsBestOf(e, pk) then e.record else 0)
  }

  /** At most one total row per chart. */
  predicate AtMostOneTotal(totals: seq<TotalRow>) {
    forall i, j :: 0 <= i < |totals| && 0 <= j < |totals| && totals[i].chart == totals[j].chart ==> i == j
  }

  /** Every chart with pattern rows has a total row. */
  predicate Covered(patterns: seq<PatternRow>, totals: seq<TotalRow>) {
    forall i :: 0 <= i < |patterns| ==> FirstTotalIndex(totals, patterns[i].key.chart) >= 0
  }

  /** Each total row holds the sum of its chart's best pattern records. */
  predicate TotalsMatch(patterns: seq<PatternRow>, totals: seq<TotalRow>) {
    forall i {:trigger SumBest(patterns, totals[i].chart)} :: 0 <= i < |totals| ==> totals[i].record == SumBest(patterns, totals[i].chart)
  }

  /** The tables agree: the pattern ledger is well flagged, every chart with
      pattern rows has exactly one total row, and each total row holds the sum
      of its chart's best pattern records. */
  predicate Consistent(t: CplTables) {
    && WellFlagged(t.patterns)
    && AtMostOneTotal(t.totals)
    && Covered(t.patterns, t.totals)
    && TotalsMatch(t.patterns, t.totals)
  }

  lemma SumBestAppend(patterns: seq<PatternRow>, e: PatternRow, c: Chart)
    ensures SumBest(patterns + [e], c) == SumBest(patterns, c) + Contribution(e, c)
  {
    assert (patterns + [e])[..|patterns|] == patterns;
  }

  /** A chart without pattern rows sums to zero. */
  lemma {:induction false} SumBestNone(patterns: seq<PatternRow>, c: Chart)
    requires forall i :: 0 <= i < |patterns| ==> patterns[i].key.chart != c
    ensures SumBest(patterns, c) == 0
  {
    if |patterns| > 0 {
      SumBestNone(patterns[..|patterns| - 1], c);
    }
  }

  /** Clearing the best flags of `pk` takes their records off its chart's sum. */
  lemma {:induction false} SumBestClear(patterns: seq<PatternRow>, pk: PatternKey, c: Chart)
    ensures SumBest(ClearBest(patterns, pk), c)
         == SumBest(patterns, c) - (if pk.chart == c then KeyBestSum(patterns, pk) else 0)
  {
    var n := |patterns|;
    if n > 0 {
      var q := patterns[..n - 1];
      var cleared := ClearBest(patterns, pk);
      assert cleared[..n - 1] == ClearBest(q, pk);
      SumBestClear(q, pk, c);
    }
  }

  /** With at most one best row per pattern, that row's record is the sum. */
  lemma {:induction false} KeyBestSumSingle(patterns: seq<PatternRow>, pk: PatternKey)
    requires AtMostOneBest(patterns)
    ensures KeyBestSum(patterns, pk) == (if FirstBest(patterns, pk).Some? then FirstBest(patterns, pk).value else 0)
  {
    var n := |patterns|;
    if n > 0 {
      var q := patterns[..n - 1];
      var e := patterns[n - 1];
      assert forall i :: 0 <= i < n - 1 ==> q[i] == patterns[i];
      assert AtMostOneBest(q);
      KeyBestSumSingle(q, pk);
      var fq := FirstBestIndex(q, pk);
      var fp := FirstBestIndex(patterns, pk);
      if IsBestOf(e, pk) {
        forall i | 0 <= i < n - 1
          ensures !IsBestOf(q[i], pk)
        {
          assert q[i] == patterns[i];
        }
        assert fq < 0;
        assert fp == n - 1;
      } else if fq >= 0 {
        assert IsBestOf(patterns[fq], pk);
        assert fp == fq;
      } else {
        assert fp < 0;
      }
    }
  }

  /** A submission raises the sum of its chart's best records by exactly
      `gap`, and leaves the sums of other charts alone. */
  lemma SumBestGrowsByGap(patterns: seq<PatternRow>, pk: PatternKey, record: int, d: CplData)
    requires AtMostOneBest(patterns)
    ensures SumBest(WithPlay(patterns, pk, record, d), pk.chart)
         == SumBest(patterns, pk.chart) + Gap(FirstBest(patterns, pk), record)
    ensures forall c :: c != pk.chart ==> SumBest(WithPlay(patterns, pk, record, d), c) == SumBest(patterns, c)
  {
    var prior := FirstBest(patterns, pk);
    var best := BeatsPrior(prior, record);
    var e := Entry(pk, record, best, d);
    var base := if prior.Some? && best then ClearBest(patterns, pk) else patterns;
    assert WithPlay(patterns, pk, record, d) == base + [e];
    KeyBestSumSingle(patterns, pk);
    forall c
      ensures SumBest(base + [e], c) == SumBest(patterns, c)
        + (if c == pk.chart then Gap(prior, record) else 0)
    {
      SumBestAppend(base, e, c);
      if prior.Some? && best {
        SumBestClear(patterns, pk, c);
      }
    }
  }

  /** Under `Covered`, a chart without a total row has no pattern rows. */
  lemma UncoveredChartEmpty(patterns: seq<PatternRow>, totals: seq<TotalRow>, c: Chart)
    requires Covered(patterns, totals) && FirstTotalIndex(totals, c) < 0
    ensures forall j :: 0 <= j < |patterns| ==> patterns[j].key.chart != c
  {
    forall j | 0 <= j < |patterns|
      ensures patterns[j].key.chart != c
    {
      assert FirstTotalIndex(totals, patterns[j].key.chart) >= 0;
    }
  }

  /** Appending a total row for a new chart keeps totals unique and covers
      the patterns after a submission to that chart. */
  lemma AppendTotalShape(patterns: seq<PatternRow>, base: seq<PatternRow>, e: PatternRow, totals: seq<TotalRow>, row: TotalRow)
    requires AtMostOneTotal(totals) && Covered(patterns, totals)
    requires FirstTotalIndex(totals, row.chart) < 0 && e.key.chart == row.chart
    requires |base| == |patterns| && forall j :: 0 <= j < |base| ==> base[j].key == patterns[j].key
    ensures AtMostOneTotal(totals + [row]) && Covered(base + [e], totals + [row])
  {
    var t' := totals + [row];
    var p' := base + [e];
    assert forall j :: 0 <= j < |totals| ==> t'[j] == totals[j];
    forall j | 0 <= j < |p'|
      ensures FirstTotalIndex(t', p'[j].key.chart) >= 0
    {
      if j == |base| {
        assert t'[|totals|].chart == p'[j].key.chart;
      } else {
        var q := FirstTotalIndex(totals, patterns[j].key.chart);
        assert t'[q].chart == p'[j].key.chart;
      }
    }
  }

  /** Setting the record of a chart's total rows keeps totals unique and
      covers the patterns after a submission to that chart. */
  lemma SetTotalShape(patterns: seq<PatternRow>, base: seq<PatternRow>, e: PatternRow, totals: seq<TotalRow>, c: Chart, score: int)
    requires AtMostOneTotal(totals) && Covered(patterns, totals)
    requires FirstTotalIndex(totals, c) >= 0 && e.key.chart == c
    requires |base| == |patterns| && forall j :: 0 <= j < |base| ==> base[j].key == patterns[j].key
    ensures AtMostOneTotal(SetTotal(totals, c, score)) && Covered(base + [e], SetTotal(totals, c, score))
  {
    var t' := SetTotal(totals, c, score);
    var p' := base + [e];
    forall j | 0 <= j < |p'|
      ensures FirstTotalIndex(t', p'[j].key.chart) >= 0
    {
      if j == |base| {
        assert t'[FirstTotalIndex(totals, c)].chart == p'[j].key.chart;
      } else {
        var q := FirstTotalIndex(totals, patterns[j].key.chart);
        assert t'[q].chart == p'[j].key.chart;
      }
    }
  }

  /** Totals after appending the first total row of chart `c`. */
  lemma AppendTotalMatch(patterns: seq<PatternRow>, patterns': seq<PatternRow>, totals: seq<TotalRow>, row: TotalRow)
    requires TotalsMatch(patterns, totals) && FirstTotalIndex(totals, row.chart) < 0
    requires row.record == SumBest(patterns', row.chart)
    requires forall c :: c != row.chart ==> SumBest(patterns', c) == SumBest(patterns, c)
    ensures TotalsMatch(patterns', totals + [row])
  {
    var t' := totals + [row];
    forall j | 0 <= j < |t'|
      ensures t'[j].record == SumBest(patterns', t'[j].chart)
    {
      if j < |totals| {
        assert t'[j] == totals[j] && totals[j].chart != row.chart;
      }
    }
  }

  /** Totals after setting the record of chart `c`'s total rows. */
  lemma SetTotalMatch(patterns: seq<PatternRow>, patterns': seq<PatternRow>, totals: seq<TotalRow>, c: Chart, score: int)
    requires TotalsMatch(patterns, totals)
    requires score == SumBest(patterns', c)
    requires forall c' :: c' != c ==> SumBest(patterns', c') == SumBest(patterns, c')
    ensures TotalsMatch(patterns', SetTotal(totals, c, score))
  {
    var t' := SetTotal(totals, c, score);
    forall j | 0 <= j < |t'|
      ensures t'[j].record == SumBest(patterns', t'[j].chart)
    {
      if totals[j].chart != c {
        assert t'[j].record == totals[j].record;
      }
    }
  }

  /** A chart without a total row has no pattern rows, hence no best row
      for any of its patterns. */
  lemma NewChartNoBest(patterns: seq<PatternRow>, totals: seq<TotalRow>, pk: PatternKey)
    requires Covered(patterns, totals) && FirstTotalIndex(totals, pk.chart) < 0
    ensures FirstBest(patterns, pk).None? && SumBest(patterns, pk.chart) == 0
  {
    UncoveredChartEmpty(patterns, totals, pk.chart);
    SumBestNone(patterns, pk.chart);
    forall j | 0 <= j < |patterns| ensures !IsBestOf(patterns[j], pk) {
      assert patterns[j].key.chart != pk.chart;
    }
  }

  /** Totals covering and unique after the first play on a chart. */
  lemma NewChartShape(patterns: seq<PatternRow>, totals: seq<TotalRow>, pk: PatternKey, record: int, d: CplData,
                      patterns': seq<PatternRow>, totals': seq<TotalRow>)
    requires AtMostOneTotal(totals) && Covered(patterns, totals) && FirstTotalIndex(totals, pk.chart) < 0
    requires patterns' == WithPlay(patterns, pk, record, d)
    requires totals' == totals + [TotalRow(pk.chart, record)]
    ensures AtMostOneTotal(totals') && Covered(patterns', totals')
  {
    NewChartNoBest(patterns, totals, pk);
    var e := Entry(pk, record, true, d);
    assert patterns' == patterns + [e];
    AppendTotalShape(patterns, patterns, e, totals, TotalRow(pk.chart, record));
  }

  /** Totals match after the first play on a chart. */
  lemma NewChartMatch(patterns: seq<PatternRow>, totals: seq<TotalRow>, pk: PatternKey, record: int, d: CplData,
                      patterns': seq<PatternRow>, totals': seq<TotalRow>)
    requires AtMostOneBest(patterns) && Covered(patterns, totals) && TotalsMatch(patterns, totals)
    requires FirstTotalIndex(totals, pk.chart) < 0
    requires patterns' == WithPlay(patterns, pk, record, d)
    requires totals' == totals + [TotalRow(pk.chart, record)]
    ensures TotalsMatch(patterns', totals')
  {
    NewChartNoBest(patterns, totals, pk);
    SumBestGrowsByGap(patterns, pk, record, d);
    AppendTotalMatch(patterns, patterns', totals, TotalRow(pk.chart, record));
  }

  /** Consistency after the first play on a chart, on the sequences. */
  lemma NewChartRows(patterns: seq<PatternRow>, totals: seq<TotalRow>, pk: PatternKey, record: int, d: CplData,
                     patterns': seq<PatternRow>, totals': seq<TotalRow>)
    requires Consistent(CplTables(patterns, totals)) && FirstTotalIndex(totals, pk.chart) < 0
    requires patterns' == WithPlay(patterns, pk, record, d)
    requires totals' == totals + [TotalRow(pk.chart, record)]
    ensures Consistent(CplTables(patterns', totals'))
  {
    WithPlayWellFlagged(patterns, pk, record, d);
    NewChartShape(patterns, totals, pk, record, d, patterns', totals');
    NewChartMatch(patterns, totals, pk, record, d, patterns', totals');
  }

  /** Corrected handler, chart without a total row: by consistency the chart
      has no pattern rows yet, and the inserted total is the new best record. */
  lemma CorrectedNewChart(t: CplTables, req: CplRequest)
    requires Consistent(t) && FirstTotalIndex(t.totals, ChartOf(req)) < 0
    ensures Consistent(CplCorrected(t, req).0)
  {
    var pk := PatternKeyOf(req);
    var d := CplData(req.rank, req.maxcombo);
    var p' := WithPlay(t.patterns, pk, req.record, d);
    var t' := t.totals + [TotalRow(pk.chart, req.record)];
    NewChartRows(t.patterns, t.totals, pk, req.record, d, p', t');
    assert CplCorrected(t, req).0 == CplTables(p', t');
  }

  /** Totals covering and unique after a play on a chart with a total row. */
  lemma KnownChartShape(patterns: seq<PatternRow>, totals: seq<TotalRow>, pk: PatternKey, record: int, d: CplData,
                        patterns': seq<PatternRow>, totals': seq<TotalRow>)
    requires AtMostOneTotal(totals) && Covered(patterns, totals) && FirstTotalIndex(totals, pk.chart) >= 0
    requires patterns' == WithPlay(patterns, pk, record, d)
    requires totals' == SetTotal(totals, pk.chart,
      totals[FirstTotalIndex(totals, pk.chart)].record + Gap(FirstBest(patterns, pk), record))
    ensures AtMostOneTotal(totals') && Covered(patterns', totals')
  {
    var prior := FirstBest(patterns, pk);
    var best := BeatsPrior(prior, record);
    var base := if prior.Some? && best then ClearBest(patterns, pk) else patterns;
    var e := Entry(pk, record, best, d);
    assert patterns' == base + [e];
    SetTotalShape(patterns, base, e, totals, pk.chart, totals[FirstTotalIndex(totals, pk.chart)].record + Gap(prior, record));
  }

  /** Totals match after a play on a chart with a total row. */
  lemma KnownChartMatch(patterns: seq<PatternRow>, totals: seq<TotalRow>, pk: PatternKey, record: int, d: CplData,
                        patterns': seq<PatternRow>, totals': seq<TotalRow>)
    requires AtMostOneBest(patterns) && TotalsMatch(patterns, totals) && FirstTotalIndex(totals, pk.chart) >= 0
    requires patterns' == WithPlay(patterns, pk, record, d)
    requires totals' == SetTotal(totals, pk.chart,
      totals[FirstTotalIndex(totals, pk.chart)].record + Gap(FirstBest(patterns, pk), record))
    ensures TotalsMatch(patterns', totals')
  {
    var i := FirstTotalIndex(totals, pk.chart);
    SumBestGrowsByGap(patterns, pk, record, d);
    assert totals[i].record == SumBest(patterns, pk.chart);
    SetTotalMatch(patterns, patterns', totals, pk.chart, totals[i].record + Gap(FirstBest(patterns, pk), record));
  }

  /** Consistency after a play on a chart with a total row, on the sequences. */
  lemma KnownChartRows(patterns: seq<PatternRow>, totals: seq<TotalRow>, pk: PatternKey, record: int, d: CplData,
                       patterns': seq<PatternRow>, totals': seq<TotalRow>)
    requires Consistent(CplTables(patterns, totals)) && FirstTotalIndex(totals, pk.chart) >= 0
    requires patterns' == WithPlay(patterns, pk, record, d)
    requires totals' == SetTotal(totals, pk.chart,
      totals[FirstTotalIndex(totals, pk.chart)].record + Gap(FirstBest(patterns, pk), record))
    ensures Consistent(CplTables(patterns', totals'))
  {
    WithPlayWellFlagged(patterns, pk, record, d);
    KnownChartShape(patterns, totals, pk, record, d, patterns', totals');
    KnownChartMatch(patterns, totals, pk, record, d, patterns', totals');
  }

  /** Corrected handler, chart with its total row: the row grows by `gap`,
      which is exactly how much the chart's best records grew. */
  lemma CorrectedKnownChart(t: CplTables, req: CplRequest)
    requires Consistent(t) && FirstTotalIndex(t.totals, ChartOf(req)) >= 0
    ensures Consistent(CplCorrected(t, req).0)
  {
    var pk := PatternKeyOf(req);
    var d := CplData(req.rank, req.maxcombo);
    var p' := WithPlay(t.patterns, pk, req.record, d);
    var i := FirstTotalIndex(t.totals, pk.chart);
    var t' := SetTotal(t.totals, pk.chart, t.totals[i].record + Gap(FirstBest(t.patterns, pk), req.record));
    KnownChartRows(t.patterns, t.totals, pk, req.record, d, p', t');
    assert CplCorrected(t, req).0 == CplTables(p', t');
  }

  /** The corrected handler keeps the tables consistent. */
  lemma CorrectedConsistent(t: CplTables, req: CplRequest)
    requires Consistent(t)
    ensures Consistent(CplCorrected(t, req).0)
  {
    if FirstTotalIndex(t.totals, ChartOf(req)) < 0 {
      CorrectedNewChart(t, req);
    } else {
      CorrectedKnownChart(t, req);
    }
  }

  /** With a total row present the two agree: that row grows by exactly `gap`. */
  lemma AsWrittenWithTotal(t: CplTables, req: CplRequest)
    requires FirstTotalIndex(t.totals, ChartOf(req)) >= 0
    ensures CplAsWritten(t, req) == CplCorrected(t, req)
    ensures var i := FirstTotalIndex(t.totals, ChartOf(req));
      var totals := CplAsWritten(t, req).0.totals;
      totals[i].record == t.totals[i].record + Gap(FirstBest(t.patterns, PatternKeyOf(req)), req.record)
  {
  }

  /** As written, a chart without a total row makes every submission fail,
      yet the pattern row is stored each time and no total row ever appears. */
  lemma AsWrittenWithoutTotal(t: CplTables, req: CplRequest)
    requires FirstTotalIndex(t.totals, ChartOf(req)) < 0
    ensures var (t', outcome) := CplAsWritten(t, req);
      && outcome == UpdateError
      && t'.totals == t.totals
      && |t'.patterns| == |t.patterns| + 1
      && t'.patterns[|t.patterns|].key == PatternKeyOf(req)
  {
  }

  /** The first submission ever of a chart: as written it fails and leaves
      the total table empty; corrected, it creates the total row. */
  lemma FirstChartSubmission(req: CplRequest)
    ensures CplAsWritten(CplTables([], []), req)
         == (CplTables([Entry(PatternKeyOf(req), req.record, true, CplData(req.rank, req.maxcombo))], []), UpdateError)
    ensures CplCorrected(CplTables([], []), req)
         == (CplTables([Entry(PatternKeyOf(req), req.record, true, CplData(req.rank, req.maxcombo))],
                       [TotalRow(ChartOf(req), req.record)]), Updated)
  {
    var e := Entry(PatternKeyOf(req), req.record, true, CplData(req.rank, req.maxcombo));
    var empty: seq<PatternRow> := [];
    var noTotals: seq<TotalRow> := [];
    assert FirstBestIndex(empty, PatternKeyOf(req)) == -1;
    assert FirstTotalIndex(noTotals, ChartOf(req)) == -1;
    assert WithPlay(empty, PatternKeyOf(req), req.record, CplData(req.rank, req.maxcombo)) == [e];
    assert noTotals + [TotalRow(ChartOf(req), req.record)] == [TotalRow(ChartOf(req), req.record)];
  }

  // ---------------------------------------------------------------------
  // The handler, on tables updated in place

  class TotalTable {
    var rows: seq<TotalRow>

    constructor ()
      ensures rows == []
    {
      rows := [];
    }

    /** The select of the chart's total rows, and the record of the first. */
    method SelectRecord(c: Chart) returns (r: Option<int>)
      ensures var i := FirstTotalIndex(rows, c); r == if i < 0 then None else Some(rows[i].record)
    {
      var i := 0;
      while i < |rows| && rows[i].chart != c
        invariant 0 <= i <= |rows|
        invariant forall j :: 0 <= j < i ==> rows[j].chart != c
      {
        i := i + 1;
      }
      r := if i < |rows| then Some(rows[i].record) else None;
    }

    method SetRecord(c: Chart, score: int)
      modifies this
      ensures rows == SetTotal(old(rows), c, score)
    {
      ghost var before := rows;
      var i := 0;
      while i < |rows|
        invariant 0 <= i <= |rows| == |before|
        invariant forall j :: 0 <= j < i ==> rows[j] == SetTotal(before, c, score)[j]
        invariant forall j :: i <= j < |rows| ==> rows[j] == before[j]
      {
        if rows[i].chart == c {
          rows := rows[i := rows[i].(record := score)];
        }
        i := i + 1;
      }
    }

    method Add(row: TotalRow)
      modifies this
      ensures rows == old(rows) + [row]
    {
      rows := rows + [row];
    }
  }

  /** `/CPLrecord` as written. */
  method PutCplRecordAsWritten(patterns: BestTable<PatternKey, CplData>, totals: TotalTable,
                               secretOk: bool, req: CplRequest)
    returns (outcome: CplOutcome)
    modifies patterns, totals
    ensures !secretOk ==>
              outcome == AuthorizeFailed && patterns.rows == old(patterns.rows) && totals.rows == old(totals.rows)
    ensures secretOk ==>
              (CplTables(patterns.rows, totals.rows), outcome) == CplAsWritten(CplTables(old(patterns.rows), old(totals.rows)), req)
  {
    if !secretOk {
      return AuthorizeFailed;
    }
    var best, prior := patterns.Submit(PatternKeyOf(req), req.record, CplData(req.rank, req.maxcombo));
    var gap := Gap(prior, req.record);
    var total := totals.SelectRecord(ChartOf(req));
    if total.None? {
      // `total[0].record` throws; the pattern row is already inserted.
      return UpdateError;
    }
    totals.SetRecord(ChartOf(req), total.value + gap);
    outcome := Updated;
  }

  /** `/CPLrecord` with the length check before the read. */
  method PutCplRecord(patterns: BestTable<PatternKey, CplData>, totals: TotalTable,
                      secretOk: bool, req: CplRequest)
    returns (outcome: CplOutcome)
    modifies patterns, totals
    ensures !secretOk ==>
              outcome == AuthorizeFailed && patterns.rows == old(patterns.rows) && totals.rows == old(totals.rows)
    ensures secretOk ==>
              (CplTables(patterns.rows, totals.rows), outcome) == CplCorrected(CplTables(old(patterns.rows), old(totals.rows)), req)
  {
    if !secretOk {
      return AuthorizeFailed;
    }
    var best, prior := patterns.Submit(PatternKeyOf(req), req.record, CplData(req.rank, req.maxcombo));
    var gap := Gap(prior, req.record);
    var total := totals.SelectRecord(ChartOf(req));
    if total.Some? {
      totals.SetRecord(ChartOf(req), total.value + gap);
    } else {
      totals.Add(TotalRow(ChartOf(req), req.record));
    }
    outcome := Updated;
  }
}
