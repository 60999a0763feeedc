/** The achievement observer: the catalogue `idDB` maps context names to
    achievement indexes, `isAchieved` decides whether a context unlocks its
    achievement, and `observer` unlocks it for a user at most once. An unlock
    increments the achievement's global `count`, notifies the game server and
    only then writes the user's extended set back. */
module Achievements {
  import opened Util
  import opened Users

  /** The `idDB` catalogue. */
  const IdDB: map<string, nat> := map["TUTORIAL_CLEAR" := 0]

  /** `isAchieved(context, data)`: the payload is never consulted. */
  function IsAchieved(context: string): (b: bool)
    ensures b <==> context == "TUTORIAL_CLEAR"
  {
    match context
    case "TUTORIAL_CLEAR" => true
    case _ => false
  }

  /** An `achievements` row: its index and how many users unlocked it. */
  datatype AchievementRow = AchievementRow(index: nat, count: int)

  datatype ObserveOutcome = NoUser | Unchanged | NotifyFailed | Unlocked

  /** `Array.from(new Set(list))`: the elements in order of first occurrence. */
  function Dedup(list: seq<int>): (r: seq<int>)
    ensures NoDup(r)
    ensures forall x :: x in r <==> x in list
  {
    if |list| == 0 then []
    else
      var n := |list| - 1;
      var front := Dedup(list[..n]);
      assert list == list[..n] + [list[n]];
      if list[n] in front then front else front + [list[n]]
  }

  /** `increment("count") where index = i`. */
  function Increment(rows: seq<AchievementRow>, i: nat): (r: seq<AchievementRow>)
    ensures |r| == |rows|
    ensures forall j :: 0 <= j < |rows| ==>
      r[j] == if rows[j].index == i then rows[j].(count := rows[j].count + 1) else rows[j]
  {
    seq(|rows|, j requires 0 <= j < |rows| =>
      if rows[j].index == i then rows[j].(count := rows[j].count + 1) else rows[j])
  }

  /** `idDB[context]`: `None` stands for no catalogue index, whether the
      lookup gives `undefined` or a member inherited from `Object.prototype`
      (`"constructor"`, `"toString"`, `"__proto__"`, ...); none of those is
      in the user's set, so the observer takes the same path for each. */
  function IndexOfContext(context: string): (r: Option<nat>)
    ensures r.Some? <==> context == "TUTORIAL_CLEAR"
    ensures r.Some? ==> r.value == 0
  {
    if context in IdDB then Some(IdDB[context]) else None
  }

  /** `observer(userid, context)` on the `users` and `achievements` tables;
      `notifyOk` is false when the `/emit/achievement` `fetch` rejects (a
      network failure); a reply with an error status still resolves. A
      user id without a row makes `userData[0].achievements` throw. */
  function ObserveSpec(users: seq<User>, table: seq<AchievementRow>, uid: string, context: string, notifyOk: bool)
    : (seq<User>, seq<AchievementRow>, ObserveOutcome)
  {
    match FirstByUserid(users, uid)
    case None => (users, table, NoUser)
    case Some(u) =>
      var unlocked := Dedup(u.achievements);
      var index := IndexOfContext(context);
      if (index.Some? && index.value in unlocked) || !IsAchieved(context) then (users, table, Unchanged)
      else
        assert context in IdDB;
        var table' := Increment(table, index.value);
        if !notifyOk then (users, table', NotifyFailed)
        else (WithAchievements(users, uid, unlocked + [index.value]), table', Unlocked)
  }

  /** The unlocked set the first row of the user holds. */
  function UnlockedOf(users: seq<User>, uid: string): set<int> {
    match FirstByUserid(users, uid)
    case None => {}
    case Some(u) => Elements(u.achievements)
  }

  // ---------------------------------------------------------------------
  // Properties

  /** A list without repeats is its own set. */
  lemma {:induction false} DedupOfDistinct(list: seq<int>)
    requires NoDup(list)
    ensures Dedup(list) == list
  {
    if |list| > 0 {
      var n := |list| - 1;
      assert NoDup(list[..n]);
      DedupOfDistinct(list[..n]);
      assert list[n] !in list[..n];
      assert list == list[..n] + [list[n]];
    }
  }

  /** The first row of the user after writing `a` to all of the user's rows. */
  lemma FirstAfterWrite(users: seq<User>, uid: string, a: seq<int>)
    requires FirstByUserid(users, uid).Some?
    ensures FirstByUserid(WithAchievements(users, uid, a), uid) == Some(FirstByUserid(users, uid).value.(achievements := a))
  {
    var w := WithAchievements(users, uid, a);
    var k := IndexOf(Userids(users), uid);
    assert forall j :: 0 <= j < |users| ==> Userids(w)[j] == Userids(users)[j];
    assert Userids(w) == Userids(users);
  }

  /** An achievement already unlocked, or a context that does not unlock
      one, changes nothing: no count, no notification, no write. A context
      outside the catalogue is never achieved. */
  lemma NoOpCases(users: seq<User>, table: seq<AchievementRow>, uid: string, context: string, notifyOk: bool)
    requires FirstByUserid(users, uid).Some?
    requires var i := IndexOfContext(context);
      (i.Some? && i.value in FirstByUserid(users, uid).value.achievements) || !IsAchieved(context)
    ensures ObserveSpec(users, table, uid, context, notifyOk) == (users, table, Unchanged)
    ensures context !in IdDB ==> !IsAchieved(context)
  {
  }

  /** The first unlock adds exactly that index to the user's set, on every
      row of the user, and counts it once in the catalogue. */
  lemma FirstUnlock(users: seq<User>, table: seq<AchievementRow>, uid: string, context: string)
    requires FirstByUserid(users, uid).Some? && IsAchieved(context)
    requires IdDB[context] !in FirstByUserid(users, uid).value.achievements
    ensures var (users', table', outcome) := ObserveSpec(users, table, uid, context, true);
      var i := IdDB[context];
      && outcome == Unlocked
      && UnlockedOf(users', uid) == UnlockedOf(users, uid) + {i}
      && table' == Increment(table, i)
      && (forall j :: 0 <= j < |users| && users[j].userid != uid ==> users'[j] == users[j])
  {
    var u := FirstByUserid(users, uid).value;
    var a := Dedup(u.achievements) + [IdDB[context]];
    FirstAfterWrite(users, uid, a);
  }

  /** Observing the same context twice unlocks once: the second call finds
      the index and changes nothing, so the count grows by exactly one. */
  lemma ObserveTwice(users: seq<User>, table: seq<AchievementRow>, uid: string, context: string)
    ensures var (users1, table1, _) := ObserveSpec(users, table, uid, context, true);
      ObserveSpec(users1, table1, uid, context, true) == (users1, table1, if FirstByUserid(users, uid).None? then NoUser else Unchanged)
  {
    var (users1, table1, outcome) := ObserveSpec(users, table, uid, context, true);
    if outcome == Unlocked {
      var u := FirstByUserid(users, uid).value;
      var a := Dedup(u.achievements) + [IdDB[context]];
      FirstAfterWrite(users, uid, a);
      assert IdDB[context] in Dedup(a);
    }
  }

  /** The set on record never shrinks. */
  lemma NeverShrinks(users: seq<User>, table: seq<AchievementRow>, uid: string, context: string, notifyOk: bool)
    ensures UnlockedOf(users, uid) <= UnlockedOf(ObserveSpec(users, table, uid, context, notifyOk).0, uid)
  {
    var (users', table', outcome) := ObserveSpec(users, table, uid, context, notifyOk);
    if outcome == Unlocked {
      var u := FirstByUserid(users, uid).value;
      FirstAfterWrite(users, uid, Dedup(u.achievements) + [IdDB[context]]);
    }
  }

  /** A rejected notification `fetch` leaves the count incremented but the set
      unwritten, so the retry increments the count a second time. */
  lemma RetryAfterNotifyFailure(users: seq<User>, table: seq<AchievementRow>, uid: string, context: string)
    requires FirstByUserid(users, uid).Some? && IsAchieved(context)
    requires IdDB[context] !in FirstByUserid(users, uid).value.achievements
    ensures var (users1, table1, outcome1) := ObserveSpec(users, table, uid, context, false);
      var (users2, table2, outcome2) := ObserveSpec(users1, table1, uid, context, true);
      && outcome1 == NotifyFailed && users1 == users && outcome2 == Unlocked
      && |table2| == |table|
      && forall j :: 0 <= j < |table| ==>
           table2[j].count == table[j].count + (if table[j].index == IdDB[context] then 2 else 0)
  {
  }

  // ---------------------------------------------------------------------
  // The observer, on tables updated in place

  class AchievementTable {
    var rows: seq<AchievementRow>

    constructor ()
      ensures rows == []
    {
      rows := [];
    }

    method IncrementCount(i: nat)
      modifies this
      ensures rows == Increment(old(rows), i)
    {
      ghost var before := rows;
      var j := 0;
      while j < |rows|
        invariant 0 <= j <= |rows| == |before|
        invariant forall k :: 0 <= k < j ==> rows[k] == Increment(before, i)[k]
        invariant forall k :: j <= k < |rows| ==> rows[k] == before[k]
      {
        if rows[j].index == i {
          rows := rows[j := rows[j].(count := rows[j].count + 1)];
        }
        j := j + 1;
      }
    }
  }

  /** `new Set(list)`, kept in insertion order. */
  method ToSet(list: seq<int>) returns (s: seq<int>)
    ensures s == Dedup(list)
  {
    s := [];
    var i := 0;
    while i < |list|
      invariant 0 <= i <= |list|
      invariant s == Dedup(list[..i])
    {
      assert list[..i + 1][..i] == list[..i];
      if list[i] !in s {
        s := s + [list[i]];
      }
      i := i + 1;
    }
    assert list[..i] == list;
  }

  /** The `observer` procedure. */
  method Observe(users: UserTable, table: AchievementTable, uid: string, context: string, notifyOk: bool)
    returns (outcome: ObserveOutcome)
    modifies users, table
    ensures (users.rows, table.rows, outcome) == ObserveSpec(old(users.rows), old(table.rows), uid, context, notifyOk)
  {
    var u := users.SelectByUserid(uid);
    if u.None? {
      return NoUser;
    }
    var index := IndexOfContext(context);
    var unlocked := ToSet(u.value.achievements);
    if (index.Some? && index.value in unlocked) || !IsAchieved(context) {
      return Unchanged;
    }
    unlocked := unlocked + [index.value];
    table.IncrementCount(index.value);
    if !notifyOk {
      return NotifyFailed;
    }
    users.UpdateAchievements(uid, unlocked);
    outcome := Unlocked;
  }
}
