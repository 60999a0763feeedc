/** `/playRecord` and `/record`: a graded play passes the integrity gate and is
    forwarded as a `/record` request, which appends it to `trackRecords`, the
    best-record ledger keyed by (nickname, track name, difficulty). */
module TrackRecords {
  import opened Util
  import opened Grading
  import opened BestLedger

  datatype TrackKey = TrackKey(nickname: string, name: string, difficulty: int)

  /** The other columns of a `trackRecords` row. `index` is the row's opaque
      fresh identifier; `judge` stands for the text "p / g / d / b / m / bl". */
  datatype PlayData = PlayData(rank: string, maxcombo: int, medal: nat, index: string, judge: Judgments)

  type TrackRow = Entry<TrackKey, PlayData>

  /** The body of a `/playRecord` request, with the claimed accuracy in tenths. */
  datatype PlaySubmission = PlaySubmission(
    userName: string, name: string, difficulty: int, score: int, maxCombo: int,
    judgments: Judgments, claimedRank: string, claimedAccuracy: int)

  /** The body of the `/record` request the play is forwarded as. */
  datatype RecordRequest = RecordRequest(
    name: string, nickname: string, rank: string, record: int, maxcombo: int,
    medal: nat, difficulty: int, judge: Judgments)

  datatype PlayVerdict = FailedToAuth | FailedToVerify | Forward(request: RecordRequest)

  /** The `/playRecord` decision. `authorized` stands for the comparison of the
      session's user row with the body's user fields. Forwarding (and writing
      the log file beside it) happens only when both claims match the grade. */
  function PlayRecord(authorized: bool, s: PlaySubmission): (v: PlayVerdict)
    ensures v == FailedToAuth <==> !authorized
    ensures v.Forward? <==> authorized && ClaimVerified(s.judgments, s.claimedRank, s.claimedAccuracy)
    ensures v.Forward? ==>
      && v.request.rank == s.claimedRank
      && v.request.medal == GradeOf(s.judgments).medal
      && v.request.nickname == s.userName && v.request.name == s.name
      && v.request.difficulty == s.difficulty && v.request.record == s.score
      && v.request.maxcombo == s.maxCombo && v.request.judge == s.judgments
  {
    if !authorized then FailedToAuth
    else
      var g := GradeOf(s.judgments);
      if RankName(g.rank) == s.claimedRank && g.accuracy == Some(s.claimedAccuracy) then
        Forward(RecordRequest(s.name, s.userName, RankName(g.rank), s.score, s.maxCombo,
                              g.medal, s.difficulty, s.judgments))
      else FailedToVerify
  }

  function KeyOf(req: RecordRequest): TrackKey {
    TrackKey(req.nickname, req.name, req.difficulty)
  }

  function DataOf(req: RecordRequest, index: string): PlayData {
    PlayData(req.rank, req.maxcombo, req.medal, index, req.judge)
  }

  /** The `trackRecords` rows after `/record` accepted `req`. */
  function Recorded(rows: seq<TrackRow>, req: RecordRequest, index: string): seq<TrackRow> {
    WithPlay(rows, KeyOf(req), req.record, DataOf(req, index))
  }

  /** `/record` appends exactly one row, carrying the request's columns; it is
      best exactly when the key had no best row or a strictly lower one. All
      earlier rows keep their columns, and rows of other keys are unchanged. */
  lemma RecordedShape(rows: seq<TrackRow>, req: RecordRequest, index: string)
    ensures var r := Recorded(rows, req, index);
      && |r| == |rows| + 1
      && r[|rows|].key == KeyOf(req) && r[|rows|].record == req.record
      && r[|rows|].data == DataOf(req, index)
      && (r[|rows|].isBest <==> FirstBest(rows, KeyOf(req)).None? || FirstBest(rows, KeyOf(req)).value < req.record)
      && (forall i :: 0 <= i < |rows| ==> SameButFlag(r[i], rows[i]))
      && (forall i :: 0 <= i < |rows| && rows[i].key != KeyOf(req) ==> r[i] == rows[i])
  {
    WithPlayShape(rows, KeyOf(req), req.record, DataOf(req, index));
  }

  /** `/record` keeps each key's single best row, holding its highest record,
      and flags the new row best exactly when it beats every earlier record of
      its key. */
  lemma RecordedWellFlagged(rows: seq<TrackRow>, req: RecordRequest, index: string)
    requires WellFlagged(rows)
    ensures WellFlagged(Recorded(rows, req, index))
    ensures Recorded(rows, req, index)[|rows|].isBest
        <==> forall i :: 0 <= i < |rows| && rows[i].key == KeyOf(req) ==> rows[i].record < req.record
  {
    WithPlayWellFlagged(rows, KeyOf(req), req.record, DataOf(req, index));
    BestIffBeatsAll(rows, KeyOf(req), req.record, DataOf(req, index));
  }

  function Flags(rows: seq<TrackRow>): seq<bool> {
    seq(|rows|, i requires 0 <= i < |rows| => rows[i].isBest)
  }

  /** Scores 100, 80 and 150 for one key: the plays are flagged best, not
      best, best, and afterwards only the 150 row is still best. */
  lemma Scores100Then80Then150(k: TrackKey, d: PlayData)
    ensures var r1 := WithPlay([], k, 100, d);
      var r2 := WithPlay(r1, k, 80, d);
      var r3 := WithPlay(r2, k, 150, d);
      && r1[0].isBest && !r2[1].isBest && r3[2].isBest
      && Flags(r3) == [false, false, true]
  {
    var r1 := WithPlay([], k, 100, d);
    assert FirstBestIndex(r1, k) == 0;
    var r2 := WithPlay(r1, k, 80, d);
    assert r2 == [Entry(k, 100, true, d), Entry(k, 80, false, d)];
    assert FirstBestIndex(r2, k) == 0;
    var r3 := WithPlay(r2, k, 150, d);
    assert r3 == [Entry(k, 100, false, d), Entry(k, 80, false, d), Entry(k, 150, true, d)];
  }

  /** The `/record` handler; `secretOk` says whether the body carried the project secret. */
  method PutRecord(table: BestTable<TrackKey, PlayData>, secretOk: bool, req: RecordRequest, index: string)
    returns (ok: bool)
    modifies table
    ensures ok == secretOk
    ensures table.rows == if secretOk then Recorded(old(table.rows), req, index) else old(table.rows)
  {
    if !secretOk {
      return false;
    }
    var best, prior := table.Submit(KeyOf(req), req.record, DataOf(req, index));
    ok := true;
  }

  /** A `/playRecord` submission followed, when it is forwarded and the
      forward reaches `/record`, by the ledger update. A play that fails the
      gate leaves the table as it was. */
  method PlayAndRecord(table: BestTable<TrackKey, PlayData>, authorized: bool, s: PlaySubmission,
                       index: string, delivered: bool)
    returns (v: PlayVerdict)
    modifies table
    ensures v == PlayRecord(authorized, s)
    ensures table.rows == if v.Forward? && delivered then Recorded(old(table.rows), v.request, index)
                          else old(table.rows)
  {
    v := PlayRecord(authorized, s);
    if v.Forward? && delivered {
      var ok := PutRecord(table, true, v.request, index);
    }
  }
}
