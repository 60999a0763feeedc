/** `/coupon`: a signed-in user redeems a code from the `codes` table. A code
    row carries its reward (a skin, or another kind that only consumes the
    code), a `used` flag and, for codes without a use limit, the list of users
    who redeemed it. A limited code is consumed by its first redemption; a
    `nolimit` code once per user; a skin is never owned twice. */
module Coupon {
  import opened Util
  import opened Users

  /** The parsed `reward` column: `type`, `content` and `nolimit`. */
  datatype Reward = Reward(kind: string, content: string, nolimit: bool)

  /** A `codes` row; `usedUser` is the parsed list, `None` for `null`. */
  datatype CodeRow = CodeRow(code: string, reward: Reward, used: bool, usedUser: Option<seq<string>>)

  datatype RedeemOutcome = UserIdRequired | InvalidCode | UsedCode | AlreadyHave | LoadError | Redeemed

  /** `select ... where code = c`: the rows of code `c`, in table order. */
  function Matching(rows: seq<CodeRow>, c: string): (r: seq<CodeRow>)
    ensures |r| <= |rows|
    ensures forall i :: 0 <= i < |r| ==> r[i].code == c
  {
    if |rows| == 0 then []
    else
      var n := |rows| - 1;
      Matching(rows[..n], c) + (if rows[n].code == c then [rows[n]] else [])
  }

  /** The selected rows are exactly the table's rows of code `c`. */
  lemma {:induction false} MatchingMembers(rows: seq<CodeRow>, c: string)
    ensures forall x :: x in Matching(rows, c) <==> x in rows && x.code == c
  {
    if |rows| > 0 {
      var n := |rows| - 1;
      MatchingMembers(rows[..n], c);
      assert rows == rows[..n] + [rows[n]];
    }
  }

  /** `update used = 1 where code = c`. */
  function MarkUsed(rows: seq<CodeRow>, c: string): (r: seq<CodeRow>)
    ensures |r| == |rows|
    ensures forall i :: 0 <= i < |rows| ==> r[i] == if rows[i].code == c then rows[i].(used := true) else rows[i]
  {
    seq(|rows|, i requires 0 <= i < |rows| => if rows[i].code == c then rows[i].(used := true) else rows[i])
  }

  /** `update usedUser = list where code = c`. */
  function SetUsedUser(rows: seq<CodeRow>, c: string, list: seq<string>): (r: seq<CodeRow>)
    ensures |r| == |rows|
    ensures forall i :: 0 <= i < |rows| ==>
      r[i] == if rows[i].code == c then rows[i].(usedUser := Some(list)) else rows[i]
  {
    seq(|rows|, i requires 0 <= i < |rows| =>
      if rows[i].code == c then rows[i].(usedUser := Some(list)) else rows[i])
  }

  /** Whether the user is listed among the code's redeemers. */
  predicate Listed(row: CodeRow, uid: string) {
    row.usedUser.Some? && uid in row.usedUser.value
  }

  /** The consumption step after any skin was granted: a limited code is
      marked used; a `nolimit` code lists the user, and a `null` list makes
      `push` throw after the skin was already written. */
  function Consume(codes: seq<CodeRow>, users: seq<User>, row: CodeRow, uid: string, c: string)
    : (seq<CodeRow>, seq<User>, RedeemOutcome)
  {
    if !row.reward.nolimit then (MarkUsed(codes, c), users, Redeemed)
    else if row.usedUser.None? then (codes, users, LoadError)
    else (SetUsedUser(codes, c, row.usedUser.value + [uid]), users, Redeemed)
  }

  /** The handler on the `codes` and `users` tables. A skin reward for a user
      without a `users` row fails on `statusArr[0]` before anything is written. */
  function RedeemSpec(codes: seq<CodeRow>, users: seq<User>, session: Option<string>, c: string)
    : (seq<CodeRow>, seq<User>, RedeemOutcome)
  {
    if !SignedIn(session) then (codes, users, UserIdRequired)
    else
      var uid := session.value;
      var m := Matching(codes, c);
      if |m| != 1 then (codes, users, InvalidCode)
      else
        var row := m[0];
        if row.used || Listed(row, uid) then (codes, users, UsedCode)
        else if row.reward.kind == "skin" then
          match FirstByUserid(users, uid)
          case None => (codes, users, LoadError)
          case Some(u) =>
            if row.reward.content in u.skins then (codes, users, AlreadyHave)
            else Consume(codes, WithSkins(users, uid, u.skins + [row.reward.content]), row, uid, c)
        else Consume(codes, users, row, uid, c)
  }

  // ---------------------------------------------------------------------
  // Properties

  /** Redemption succeeds exactly for a signed-in user, a code with exactly
      one row that is neither used nor lists the user, a skin the user has a
      row for and does not own yet, and a `nolimit` code whose list exists. */
  lemma RedeemedIff(codes: seq<CodeRow>, users: seq<User>, session: Option<string>, c: string)
    ensures RedeemSpec(codes, users, session, c).2 == Redeemed
      <==> && SignedIn(session)
           && |Matching(codes, c)| == 1
           && !Matching(codes, c)[0].used && !Listed(Matching(codes, c)[0], session.value)
           && (Matching(codes, c)[0].reward.kind == "skin" ==>
                 FirstByUserid(users, session.value).Some?
                 && Matching(codes, c)[0].reward.content !in FirstByUserid(users, session.value).value.skins)
           && (Matching(codes, c)[0].reward.nolimit ==> Matching(codes, c)[0].usedUser.Some?)
  {
  }

  /** Every rejection before the consumption step leaves both tables as they
      were; "Already have" in particular leaves the code unconsumed. */
  lemma RejectionsChangeNothing(codes: seq<CodeRow>, users: seq<User>, session: Option<string>, c: string)
    ensures var (codes', users', outcome) := RedeemSpec(codes, users, session, c);
      outcome in {UserIdRequired, InvalidCode, UsedCode, AlreadyHave} ==> codes' == codes && users' == users
    ensures SignedIn(session) && |Matching(codes, c)| != 1 ==> RedeemSpec(codes, users, session, c).2 == InvalidCode
  {
  }

  /** Only the redeeming user's skin list changes, by appending the reward,
      so no user ever owns a skin twice. */
  lemma SkinsStayDistinct(codes: seq<CodeRow>, users: seq<User>, session: Option<string>, c: string)
    requires forall i :: 0 <= i < |users| ==> NoDup(users[i].skins)
    ensures var users' := RedeemSpec(codes, users, session, c).1;
      forall i :: 0 <= i < |users'| ==> NoDup(users'[i].skins)
  {
    var (codes', users', outcome) := RedeemSpec(codes, users, session, c);
    if users' != users {
      var uid := session.value;
      var row := Matching(codes, c)[0];
      var u := FirstByUserid(users, uid).value;
      var k :| 0 <= k < |users| && users[k] == u;
      var skins := u.skins + [row.reward.content];
      assert users' == WithSkins(users, uid, skins);
      forall i | 0 <= i < |users'| ensures NoDup(users'[i].skins) {
        if users[i].userid == uid {
          assert users'[i].skins == skins;
          assert NoDup(users[k].skins);
        }
      }
    }
  }

  /** The rows of code `c` with one more row at the end of the table. */
  lemma MatchingSnoc(rows: seq<CodeRow>, x: CodeRow, c: string)
    ensures Matching(rows + [x], c) == Matching(rows, c) + (if x.code == c then [x] else [])
  {
    assert (rows + [x])[..|rows|] == rows;
  }

  lemma {:induction false} MatchingMarkUsed(rows: seq<CodeRow>, c: string)
    ensures |Matching(MarkUsed(rows, c), c)| == |Matching(rows, c)|
    ensures forall i :: 0 <= i < |Matching(rows, c)| ==>
      Matching(MarkUsed(rows, c), c)[i] == Matching(rows, c)[i].(used := true)
  {
    if |rows| > 0 {
      var n := |rows| - 1;
      var front, last := rows[..n], rows[n];
      assert rows == front + [last];
      var marked := MarkUsed(rows, c);
      assert marked == MarkUsed(front, c) + [marked[n]];
      MatchingMarkUsed(front, c);
      MatchingSnoc(front, last, c);
      MatchingSnoc(MarkUsed(front, c), marked[n], c);
    }
  }

  lemma {:induction false} MatchingSetUsedUser(rows: seq<CodeRow>, c: string, list: seq<string>)
    ensures |Matching(SetUsedUser(rows, c, list), c)| == |Matching(rows, c)|
    ensures forall i :: 0 <= i < |Matching(rows, c)| ==>
      Matching(SetUsedUser(rows, c, list), c)[i] == Matching(rows, c)[i].(usedUser := Some(list))
  {
    if |rows| > 0 {
      var n := |rows| - 1;
      var front, last := rows[..n], rows[n];
      assert rows == front + [last];
      var listed := SetUsedUser(rows, c, list);
      assert listed == SetUsedUser(front, c, list) + [listed[n]];
      MatchingSetUsedUser(front, c, list);
      MatchingSnoc(front, last, c);
      MatchingSnoc(SetUsedUser(front, c, list), listed[n], c);
    }
  }

  /** What a successful redemption writes to the `codes` table. */
  lemma RedeemedCodes(codes: seq<CodeRow>, users: seq<User>, session: Option<string>, c: string)
    requires RedeemSpec(codes, users, session, c).2 == Redeemed
    ensures var row := Matching(codes, c)[0];
      RedeemSpec(codes, users, session, c).0
        == if row.reward.nolimit then SetUsedUser(codes, c, row.usedUser.value + [session.value])
           else MarkUsed(codes, c)
  {
  }

  /** A code whose single row is used, or lists the user, is refused. */
  lemma RefusedRow(codes: seq<CodeRow>, users: seq<User>, session: Option<string>, c: string)
    requires |Matching(codes, c)| == 1
    requires Matching(codes, c)[0].used || (SignedIn(session) && Listed(Matching(codes, c)[0], session.value))
    ensures RedeemSpec(codes, users, session, c).2 in {UserIdRequired, UsedCode}
  {
  }

  /** After a limited code is redeemed, nobody can redeem it again. */
  lemma LimitedCodeSingleUse(codes: seq<CodeRow>, users: seq<User>, s1: Option<string>, s2: Option<string>, c: string)
    requires RedeemSpec(codes, users, s1, c).2 == Redeemed && !Matching(codes, c)[0].reward.nolimit
    ensures var (codes', users', _) := RedeemSpec(codes, users, s1, c);
      RedeemSpec(codes', users', s2, c).2 in {UserIdRequired, UsedCode}
  {
    var (codes', users', _) := RedeemSpec(codes, users, s1, c);
    RedeemedCodes(codes, users, s1, c);
    MatchingMarkUsed(codes, c);
    RefusedRow(codes', users', s2, c);
  }

  /** A `nolimit` code lists each redeemer, and the same user cannot redeem
      it a second time. */
  lemma NolimitOncePerUser(codes: seq<CodeRow>, users: seq<User>, session: Option<string>, c: string)
    requires RedeemSpec(codes, users, session, c).2 == Redeemed && Matching(codes, c)[0].reward.nolimit
    ensures var (codes', users', _) := RedeemSpec(codes, users, session, c);
      && |Matching(codes', c)| == 1
      && Matching(codes', c)[0].usedUser == Some(Matching(codes, c)[0].usedUser.value + [session.value])
      && RedeemSpec(codes', users', session, c).2 == UsedCode
  {
    var (codes', users', _) := RedeemSpec(codes, users, session, c);
    var list := Matching(codes, c)[0].usedUser.value + [session.value];
    RedeemedCodes(codes, users, session, c);
    MatchingSetUsedUser(codes, c, list);
    assert Matching(codes', c)[0] == Matching(codes, c)[0].(usedUser := Some(list));
    assert Matching(codes', c)[0].usedUser.value[|list| - 1] == session.value;
    RefusedRow(codes', users', session, c);
  }

  // ---------------------------------------------------------------------
  // The handler, on tables updated in place

  class CodeTable {
    var rows: seq<CodeRow>

    constructor ()
      ensures rows == []
    {
      rows := [];
    }

    method SelectByCode(c: string) returns (m: seq<CodeRow>)
      ensures m == Matching(rows, c)
    {
      m := [];
      var i := 0;
      while i < |rows|
        invariant 0 <= i <= |rows|
        invariant m == Matching(rows[..i], c)
      {
        assert rows[..i + 1][..i] == rows[..i];
        if rows[i].code == c {
          m := m + [rows[i]];
        }
        i := i + 1;
      }
      assert rows[..i] == rows;
    }

    method MarkUsedRows(c: string)
      modifies this
      ensures rows == MarkUsed(old(rows), c)
    {
      ghost var before := rows;
      var i := 0;
      while i < |rows|
        invariant 0 <= i <= |rows| == |before|
        invariant forall j :: 0 <= j < i ==> rows[j] == MarkUsed(before, c)[j]
        invariant forall j :: i <= j < |rows| ==> rows[j] == before[j]
      {
        if rows[i].code == c {
          rows := rows[i := rows[i].(used := true)];
        }
        i := i + 1;
      }
    }

    method SetUsedUserRows(c: string, list: seq<string>)
      modifies this
      ensures rows == SetUsedUser(old(rows), c, list)
    {
      ghost var before := rows;
      var i := 0;
      while i < |rows|
        invariant 0 <= i <= |rows| == |before|
        invariant forall j :: 0 <= j < i ==> rows[j] == SetUsedUser(before, c, list)[j]
        invariant forall j :: i <= j < |rows| ==> rows[j] == before[j]
      {
        if rows[i].code == c {
          rows := rows[i := rows[i].(usedUser := Some(list))];
        }
        i := i + 1;
      }
    }
  }

  /** The `/coupon` handler. */
  method Redeem(codes: CodeTable, users: UserTable, session: Option<string>, c: string)
    returns (outcome: RedeemOutcome)
    modifies codes, users
    ensures (codes.rows, users.rows, outcome) == RedeemSpec(old(codes.rows), old(users.rows), session, c)
  {
    if !SignedIn(session) {
      return UserIdRequired;
    }
    var uid := session.value;
    var m := codes.SelectByCode(c);
    if |m| != 1 {
      return InvalidCode;
    }
    var row := m[0];
    if row.used {
      return UsedCode;
    }
    if row.usedUser.Some? && IndexOf(row.usedUser.value, uid) != -1 {
      return UsedCode;
    }
    if row.reward.kind == "skin" {
      var u := users.SelectByUserid(uid);
      if u.None? {
        return LoadError;
      }
      if IndexOf(u.value.skins, row.reward.content) != -1 {
        return AlreadyHave;
      }
      users.UpdateSkins(uid, u.value.skins + [row.reward.content]);
    }
    if !row.reward.nolimit {
      codes.MarkUsedRows(c);
    } else {
      if row.usedUser.None? {
        return LoadError;
      }
      codes.SetUsedUserRows(c, row.usedUser.value + [uid]);
    }
    outcome := Redeemed;
  }
}
