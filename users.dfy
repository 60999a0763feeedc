/** The `users` table and `/auth/join`: a signed-in session registers a
    nickname of 5 to 12 characters from `[a-zA-Z0-9_-]`, once per nickname.
    Only the columns the core reads or writes are kept: the session's user
    id, the nickname, the owned skins and the unlocked achievements. */
module Users {
  import opened Util

  datatype User = User(userid: string, nickname: string, skins: seq<string>, achievements: seq<int>)

  /** `!req.session.userid` rejects both a missing and an empty user id. */
  predicate SignedIn(session: Option<string>) {
    session.Some? && session.value != ""
  }

  /** One character of the class `[a-zA-Z0-9_-]`. */
  predicate NameChar(c: char) {
    ('a' <= c <= 'z') || ('A' <= c <= 'Z') || ('0' <= c <= '9') || c == '_' || c == '-'
  }

  /** `/^[a-zA-Z0-9_-]{5,12}$/.test(name)`. */
  predicate ValidName(name: string) {
    5 <= |name| <= 12 && forall i :: 0 <= i < |name| ==> NameChar(name[i])
  }

  function Userids(rows: seq<User>): (r: seq<string>)
    ensures |r| == |rows| && forall i :: 0 <= i < |rows| ==> r[i] == rows[i].userid
  {
    seq(|rows|, i requires 0 <= i < |rows| => rows[i].userid)
  }

  function Nicknames(rows: seq<User>): (r: seq<string>)
    ensures |r| == |rows| && forall i :: 0 <= i < |rows| ==> r[i] == rows[i].nickname
  {
    seq(|rows|, i requires 0 <= i < |rows| => rows[i].nickname)
  }

  /** `select ... where userid = uid`, first row: `results[0]`. */
  function FirstByUserid(rows: seq<User>, uid: string): (r: Option<User>)
    ensures r.None? <==> forall i :: 0 <= i < |rows| ==> rows[i].userid != uid
    ensures r.Some? ==> exists i :: 0 <= i < |rows| && rows[i] == r.value && rows[i].userid == uid
                                   && forall j :: 0 <= j < i ==> rows[j].userid != uid
  {
    var i := IndexOf(Userids(rows), uid);
    if i < 0 then None else Some(rows[i])
  }

  /** `update skins = s where userid = uid`: every row of that user. */
  function WithSkins(rows: seq<User>, uid: string, skins: seq<string>): (r: seq<User>)
    ensures |r| == |rows|
    ensures forall i :: 0 <= i < |rows| ==>
      r[i] == if rows[i].userid == uid then rows[i].(skins := skins) else rows[i]
  {
    seq(|rows|, i requires 0 <= i < |rows| =>
      if rows[i].userid == uid then rows[i].(skins := skins) else rows[i])
  }

  /** `update achievements = a where userid = uid`: every row of that user. */
  function WithAchievements(rows: seq<User>, uid: string, a: seq<int>): (r: seq<User>)
    ensures |r| == |rows|
    ensures forall i :: 0 <= i < |rows| ==>
      r[i] == if rows[i].userid == uid then rows[i].(achievements := a) else rows[i]
  {
    seq(|rows|, i requires 0 <= i < |rows| =>
      if rows[i].userid == uid then rows[i].(achievements := a) else rows[i])
  }

  datatype JoinOutcome = WrongRequest | WrongFormat | ExistName | Joined

  /** The row `/auth/join` inserts; the other columns it fills are constants
      or session data the model does not keep. */
  function NewUser(uid: string, name: string): User {
    User(uid, name, ["Default"], [])
  }

  /** `/auth/join`: sign-in first, then the name format, then the nickname
      must not be taken. */
  function JoinSpec(rows: seq<User>, session: Option<string>, name: string): (seq<User>, JoinOutcome) {
    if !SignedIn(session) then (rows, WrongRequest)
    else if !ValidName(name) then (rows, WrongFormat)
    else if name in Nicknames(rows) then (rows, ExistName)
    else (rows + [NewUser(session.value, name)], Joined)
  }

  // ---------------------------------------------------------------------
  // Properties

  /** Exactly the signed-in, well-formed, free nickname joins; it appends one
      row with the default skin and no achievements, and nothing else changes. */
  lemma JoinOutcomes(rows: seq<User>, session: Option<string>, name: string)
    ensures var (rows', outcome) := JoinSpec(rows, session, name);
      && (outcome == Joined <==> SignedIn(session) && ValidName(name) && forall i :: 0 <= i < |rows| ==> rows[i].nickname != name)
      && (outcome == Joined ==> rows' == rows + [User(session.value, name, ["Default"], [])])
      && (outcome != Joined ==> rows' == rows)
  {
    if name in Nicknames(rows) {
      var k :| 0 <= k < |rows| && Nicknames(rows)[k] == name;
      assert rows[k].nickname == name;
    }
  }

  /** Joining never creates a second row with the same nickname. */
  lemma JoinKeepsNicknamesUnique(rows: seq<User>, session: Option<string>, name: string)
    requires NoDup(Nicknames(rows))
    ensures NoDup(Nicknames(JoinSpec(rows, session, name).0))
  {
    var (rows', outcome) := JoinSpec(rows, session, name);
    if outcome == Joined {
      var n := Nicknames(rows');
      forall i, j | 0 <= i < j < |n| ensures n[i] != n[j] {
        if j == |rows| {
          assert n[j] == name && n[i] == Nicknames(rows)[i];
        } else {
          assert n[i] == Nicknames(rows)[i] && n[j] == Nicknames(rows)[j];
        }
      }
    }
  }

  /** The shortest and longest accepted lengths, and the rejections just
      outside them and for a character outside the class. */
  lemma NameExamples()
    ensures ValidName("abcde") && ValidName("Player_12-ab")
    ensures !ValidName("abcd") && !ValidName("Player_12-abc") && !ValidName("bad name")
  {
    assert |"Player_12-abc"| == 13;
    assert !NameChar("bad name"[3]);
  }

  /** An anchored regular-expression match of `[a-zA-Z0-9_-]{lo,hi}`,
      consuming one character of the class per step: the input must end
      with at least `lo` and at most `hi` characters consumed. */
  function MatchClassRepeat(s: string, lo: nat, hi: nat): bool
    decreases |s|
  {
    if |s| == 0 then lo == 0
    else hi > 0 && NameChar(s[0]) && MatchClassRepeat(s[1..], if lo == 0 then 0 else lo - 1, hi - 1)
  }

  lemma {:induction false} MatchClassRepeatLength(s: string, lo: nat, hi: nat)
    ensures MatchClassRepeat(s, lo, hi) <==> lo <= |s| <= hi && forall i :: 0 <= i < |s| ==> NameChar(s[i])
    decreases |s|
  {
    if |s| > 0 && hi > 0 {
      MatchClassRepeatLength(s[1..], if lo == 0 then 0 else lo - 1, hi - 1);
      assert forall i :: 1 <= i < |s| ==> s[i] == s[1..][i - 1];
    }
  }

  /** `ValidName` accepts exactly the names the pattern
      `/^[a-zA-Z0-9_-]{5,12}$/` matches. */
  lemma ValidNameMatchesPattern(name: string)
    ensures ValidName(name) <==> MatchClassRepeat(name, 5, 12)
  {
    MatchClassRepeatLength(name, 5, 12);
  }

  // ---------------------------------------------------------------------
  // The table, updated in place

  class UserTable {
    var rows: seq<User>

    constructor ()
      ensures rows == []
    {
      rows := [];
    }

    /** The first row of user `uid`, if any. */
    method SelectByUserid(uid: string) returns (r: Option<User>)
      ensures r == FirstByUserid(rows, uid)
    {
      var i := 0;
      while i < |rows| && rows[i].userid != uid
        invariant 0 <= i <= |rows|
        invariant forall j :: 0 <= j < i ==> Userids(rows)[j] != uid
      {
        i := i + 1;
      }
      if i < |rows| {
        assert Userids(rows)[i] == uid;
        r := Some(rows[i]);
      } else {
        r := None;
      }
    }

    /** Whether some row already carries the nickname. */
    method NicknameTaken(name: string) returns (taken: bool)
      ensures taken <==> name in Nicknames(rows)
    {
      var i := 0;
      while i < |rows| && rows[i].nickname != name
        invariant 0 <= i <= |rows|
        invariant forall j :: 0 <= j < i ==> Nicknames(rows)[j] != name
      {
        i := i + 1;
      }
      taken := i < |rows|;
      if taken {
        assert Nicknames(rows)[i] == name;
      }
    }

    method Insert(u: User)
      modifies this
      ensures rows == old(rows) + [u]
    {
      rows := rows + [u];
    }

    method UpdateSkins(uid: string, skins: seq<string>)
      modifies this
      ensures rows == WithSkins(old(rows), uid, skins)
    {
      ghost var before := rows;
      var i := 0;
      while i < |rows|
        invariant 0 <= i <= |rows| == |before|
        invariant forall j :: 0 <= j < i ==> rows[j] == WithSkins(before, uid, skins)[j]
        invariant forall j :: i <= j < |rows| ==> rows[j] == before[j]
      {
        if rows[i].userid == uid {
          rows := rows[i := rows[i].(skins := skins)];
        }
        i := i + 1;
      }
    }

    method UpdateAchievements(uid: string, a: seq<int>)
      modifies this
      ensures rows == WithAchievements(old(rows), uid, a)
    {
      ghost var before := rows;
      var i := 0;
      while i < |rows|
        invariant 0 <= i <= |rows| == |before|
        invariant forall j :: 0 <= j < i ==> rows[j] == WithAchievements(before, uid, a)[j]
        invariant forall j :: i <= j < |rows| ==> rows[j] == before[j]
      {
        if rows[i].userid == uid {
          rows := rows[i := rows[i].(achievements := a)];
        }
        i := i + 1;
      }
    }
  }

  /** The `/auth/join` handler. */
  method Join(table: UserTable, session: Option<string>, name: string) returns (outcome: JoinOutcome)
    modifies table
    ensures (table.rows, outcome) == JoinSpec(old(table.rows), session, name)
  {
    if !SignedIn(session) {
      return WrongRequest;
    }
    if !ValidName(name) {
      return WrongFormat;
    }
    var taken := table.NicknameTaken(name);
    if taken {
      return ExistName;
    }
    table.Insert(NewUser(session.value, name));
    outcome := Joined;
  }
}
