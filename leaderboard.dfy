/** The leaderboards `/records/...` and `/CPLrecords/...`: the rows come from
    the database already ordered by a column the client picks; the handler
    returns the first hundred of them and the 1-based position of the first
    row carrying the requested nickname, 0 when there is none. */
module Leaderboard {
  import opened Util

  /** A `trackRecords` row as the `/records` select returns it. */
  datatype TrackStanding = TrackStanding(rank: string, record: int, maxcombo: int, nickname: string)

  /** A `CPLTotalTrackRecords` row as the `/CPLrecords` select returns it. */
  datatype TotalStanding = TotalStanding(record: int, nickname: string)

  datatype Board<R> = Board(results: seq<R>, rank: nat)

  const PageSize: nat := 100

  /** `results.map(d => d["nickname"])`. */
  function Names<R>(results: seq<R>, nicknameOf: R -> string): (r: seq<string>)
    ensures |r| == |results| && forall i :: 0 <= i < |results| ==> r[i] == nicknameOf(results[i])
  {
    seq(|results|, i requires 0 <= i < |results| => nicknameOf(results[i]))
  }

  /** `results.slice(0, 100)`. */
  function Top<R>(results: seq<R>): (r: seq<R>)
    ensures |r| == if |results| < PageSize then |results| else PageSize
    ensures forall i :: 0 <= i < |r| ==> r[i] == results[i]
  {
    if |results| <= PageSize then results else results[..PageSize]
  }

  /** The reply of a leaderboard request: the first page and the position
      of the nickname's first row. */
  function Leaderboard<R>(results: seq<R>, nicknameOf: R -> string, nickname: string): (b: Board<R>)
    ensures b.rank <= |results|
    ensures b.rank == 0 <==> forall i :: 0 <= i < |results| ==> nicknameOf(results[i]) != nickname
    ensures b.rank > 0 ==> nicknameOf(results[b.rank - 1]) == nickname
                           && forall i :: 0 <= i < b.rank - 1 ==> nicknameOf(results[i]) != nickname
    ensures b.results == Top(results)
  {
    var names := Names(results, nicknameOf);
    var i := IndexOf(names, nickname);
    if i < 0 then
      assert forall j :: 0 <= j < |results| ==> names[j] != nickname;
      Board(Top(results), 0)
    else
      Board(Top(results), i + 1)
  }

  function TrackNickname(s: TrackStanding): string { s.nickname }

  function TotalNickname(s: TotalStanding): string { s.nickname }

  /** `/records/:track/:difficulty/:order/:sort/:nickname` on the best rows. */
  function TrackBoard(results: seq<TrackStanding>, nickname: string): Board<TrackStanding> {
    Leaderboard(results, TrackNickname, nickname)
  }

  /** `/CPLrecords/:track/:difficulty/:order/:sort/:nickname` on the totals. */
  function TotalBoard(results: seq<TotalStanding>, nickname: string): Board<TotalStanding> {
    Leaderboard(results, TotalNickname, nickname)
  }

  // ---------------------------------------------------------------------
  // Properties

  /** The position is the same whoever else is on the board after it. */
  lemma {:induction false} RankIgnoresLaterRows<R>(results: seq<R>, more: seq<R>, nicknameOf: R -> string, nickname: string)
    requires Leaderboard(results, nicknameOf, nickname).rank > 0
    ensures Leaderboard(results + more, nicknameOf, nickname).rank == Leaderboard(results, nicknameOf, nickname).rank
  {
    var k := Leaderboard(results, nicknameOf, nickname).rank;
    var all := results + more;
    assert nicknameOf(all[k - 1]) == nickname;
    assert forall i :: 0 <= i < k - 1 ==> all[i] == results[i];
  }

  /** A nickname is on the returned page exactly when its position is
      between 1 and 100. */
  lemma OnPageIffRankAtMostHundred<R>(results: seq<R>, nicknameOf: R -> string, nickname: string)
    ensures var b := Leaderboard(results, nicknameOf, nickname);
      (nickname in Names(b.results, nicknameOf)) <==> 0 < b.rank <= PageSize
  {
    var b := Leaderboard(results, nicknameOf, nickname);
    var page := Names(b.results, nicknameOf);
    if nickname in page {
      var k :| 0 <= k < |page| && page[k] == nickname;
      assert nicknameOf(results[k]) == nickname;
    }
    if 0 < b.rank <= PageSize {
      assert page[b.rank - 1] == nickname;
    }
  }

  /** With two players on one board, the second to appear is ranked 2 and a
      nickname that is not on it is ranked 0. */
  lemma TwoPlayers()
    ensures TotalBoard([TotalStanding(900, "alice"), TotalStanding(700, "bob")], "bob").rank == 2
    ensures TotalBoard([TotalStanding(900, "alice"), TotalStanding(700, "bob")], "carol").rank == 0
  {
    var rs := [TotalStanding(900, "alice"), TotalStanding(700, "bob")];
    assert TotalNickname(rs[0]) == "alice" != "bob";
    assert TotalNickname(rs[1]) == "bob";
  }
}
