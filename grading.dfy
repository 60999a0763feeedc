/** The grading block of the `/playRecord` handler: accuracy, rank letter and
    medal derived from the six judgment counts of one play, and the integrity
    gate that compares them with what the client claims.

    Accuracy is kept in integer tenths of a percent (`975` is 97.5%). The
    handler computes a floating-point percentage and rounds it with
    `toFixed(1)`; here that is the exact ratio rounded half up. The empty play
    (every count zero) divides 0 by 0, which is `NaN` in JavaScript: it is
    `None` here, every comparison with it is false, and it never equals a
    claimed accuracy. */
module Grading {
  import opened Util

  datatype Judgments = Judgments(perfect: nat, great: nat, good: nat, bad: nat, miss: nat, bullet: nat)

  datatype Rank = SS | S | A | B | C | F

  datatype Grade = Grade(accuracy: Option<nat>, rank: Rank, medal: nat)

  /** Number of judged notes. */
  function Total(j: Judgments): nat {
    j.perfect + j.great + j.good + j.bad + j.miss + j.bullet
  }

  /** Ten times the weighted hit count: perfect 1, great 0.7, good 0.5, bad 0.3. */
  function Weighted(j: Judgments): nat {
    10 * j.perfect + 7 * j.great + 5 * j.good + 3 * j.bad
  }

  /** No bad, no miss and no bullet hit. */
  predicate Clean(j: Judgments) {
    j.bad == 0 && j.miss == 0 && j.bullet == 0
  }

  /** Every note judged perfect, and at least one note. */
  predicate AllPerfect(j: Judgments) {
    Clean(j) && j.good == 0 && j.great == 0 && j.perfect != 0
  }

  lemma MulLe(a: int, b: int, d: nat)
    requires a <= b
    ensures a * d <= b * d
  {
    assert b * d - a * d == (b - a) * d;
  }

  /** `q` is the quotient of `n` by `d` when `n` lies in `[q * d, (q + 1) * d)`. */
  lemma DivBetween(n: int, d: int, q: int)
    requires 0 < d && q * d <= n < (q + 1) * d
    ensures n / d == q
  {
    var r := n / d;
    assert r * d <= n < (r + 1) * d;
    if r < q {
      MulLe(r + 1, q, d);
      assert false;
    } else if r > q {
      MulLe(q + 1, r, d);
      assert false;
    }
  }

  /** Rounding half up of `100 * w / t` (in tenths) for a weighted count `w`
      of at most ten per note over `t` notes. */
  lemma RoundedBounds(w: nat, t: nat)
    requires 0 < t && w <= 10 * t
    ensures var q := (200 * w + t) / (2 * t);
      && 0 <= q <= 1000
      && 2 * q * t <= 200 * w + t
      && 200 * w < 2 * q * t + t
  {
    var n, d := 200 * w + t, 2 * t;
    var q := n / d;
    assert n == q * d + n % d && 0 <= n % d < d;
    assert q * d == 2 * q * t;
    if q > 1000 {
      MulLe(1001, q, d);
      assert false;
    }
  }

  /** The weighted ratio as a percentage rounded to one decimal, in tenths;
      `None` for the empty play. The result is within half a tenth of the
      exact value and never exceeds 100%. */
  function Accuracy(j: Judgments): (acc: Option<nat>)
    ensures acc.None? <==> Total(j) == 0
    ensures acc.Some? ==> acc.value <= 1000
    ensures acc.Some? ==> 2 * acc.value * Total(j) <= 200 * Weighted(j) + Total(j)
    ensures acc.Some? ==> 200 * Weighted(j) < 2 * acc.value * Total(j) + Total(j)
  {
    var t := Total(j);
    if t == 0 then None
    else
      RoundedBounds(Weighted(j), t);
      Some((200 * Weighted(j) + t) / (2 * t))
  }

  /** The rank letter: SS needs 98% and a clean play; then 95, 90, 80 and 70
      percent, each bound closed. `NaN` fails every comparison and gives F. */
  function RankOf(acc: Option<nat>, j: Judgments): Rank {
    if acc.Some? && acc.value >= 980 && Clean(j) then SS
    else if acc.Some? && acc.value >= 950 then S
    else if acc.Some? && acc.value >= 900 then A
    else if acc.Some? && acc.value >= 800 then B
    else if acc.Some? && acc.value >= 700 then C
    else F
  }

  /** The medal: 0 (failed), 1 (clear), 2 (failed but clean), 3 (clear and
      clean) or 7 (all perfect). */
  function MedalOf(rank: Rank, j: Judgments): (m: nat)
    ensures m in {0, 1, 2, 3, 7}
  {
    var base := if rank == F then 0 else 1;
    if Clean(j) then
      if AllPerfect(j) then 7
      else if base == 0 then 2 else 3
    else base
  }

  function GradeOf(j: Judgments): Grade {
    var acc := Accuracy(j);
    var rank := RankOf(acc, j);
    Grade(acc, rank, MedalOf(rank, j))
  }

  /** The text the client sends as its claimed rank. */
  function RankName(r: Rank): string {
    match r
    case SS => "SS"
    case S => "S"
    case A => "A"
    case B => "B"
    case C => "C"
    case F => "F"
  }

  /** The integrity gate: the claimed rank text and accuracy (in tenths) equal
      the derived ones. */
  predicate ClaimVerified(j: Judgments, claimedRank: string, claimedAccuracy: int) {
    var g := GradeOf(j);
    RankName(g.rank) == claimedRank && g.accuracy == Some(claimedAccuracy)
  }

  // ---------------------------------------------------------------------
  // Properties

  /** Each rank occupies a band of accuracies, closed at its lower bound. */
  lemma RankBands(j: Judgments)
    ensures var g := GradeOf(j);
      && (g.rank == SS <==> g.accuracy.Some? && 980 <= g.accuracy.value && Clean(j))
      && (g.rank == S <==> g.accuracy.Some? && 950 <= g.accuracy.value && !(980 <= g.accuracy.value && Clean(j)))
      && (g.rank == A <==> g.accuracy.Some? && 900 <= g.accuracy.value < 950)
      && (g.rank == B <==> g.accuracy.Some? && 800 <= g.accuracy.value < 900)
      && (g.rank == C <==> g.accuracy.Some? && 700 <= g.accuracy.value < 800)
      && (g.rank == F <==> g.accuracy.None? || g.accuracy.value < 700)
  {
  }

  /** Order of the ranks, F lowest. */
  function RankLevel(r: Rank): nat {
    match r
    case F => 0
    case C => 1
    case B => 2
    case A => 3
    case S => 4
    case SS => 5
  }

  /** With the same purity, a higher accuracy never yields a lower rank. */
  lemma RankMonotone(a1: nat, a2: nat, j: Judgments)
    requires a1 <= a2
    ensures RankLevel(RankOf(Some(a1), j)) <= RankLevel(RankOf(Some(a2), j))
  {
  }

  /** The all-perfect play scores exactly 100%. */
  lemma AllPerfectAccuracy(j: Judgments)
    requires AllPerfect(j)
    ensures Accuracy(j) == Some(1000)
  {
    var t := Total(j);
    assert t == j.perfect && Weighted(j) == 10 * t;
    DivBetween(200 * Weighted(j) + t, 2 * t, 1000);
  }

  /** Medal 7 exactly for the all-perfect play, which is always rank SS. */
  lemma MedalSeven(j: Judgments)
    ensures GradeOf(j).medal == 7 <==> j.great == 0 && j.good == 0 && j.bad == 0 && j.miss == 0 && j.bullet == 0 && j.perfect > 0
    ensures GradeOf(j).medal == 7 ==> GradeOf(j).rank == SS && GradeOf(j).accuracy == Some(1000)
  {
    if AllPerfect(j) {
      AllPerfectAccuracy(j);
    }
  }

  /** The other medals, by rank and purity. */
  lemma MedalTable(j: Judgments)
    ensures var g := GradeOf(j);
      && (g.medal == 0 <==> g.rank == F && !Clean(j))
      && (g.medal == 1 <==> g.rank != F && !Clean(j))
      && (g.medal == 2 <==> g.rank == F && Clean(j))
      && (g.medal == 3 <==> g.rank != F && Clean(j) && !AllPerfect(j))
  {
    if AllPerfect(j) {
      AllPerfectAccuracy(j);
    }
  }

  /** Ten perfects: 100.0%, SS, medal 7. */
  lemma TenPerfects()
    ensures GradeOf(Judgments(10, 0, 0, 0, 0, 0)) == Grade(Some(1000), SS, 7)
  {
    AllPerfectAccuracy(Judgments(10, 0, 0, 0, 0, 0));
  }

  /** Exactly 95.0% is an S, not an A: nine perfects and one good. */
  lemma NinetyFiveIsS()
    ensures GradeOf(Judgments(9, 0, 1, 0, 0, 0)).accuracy == Some(950)
    ensures GradeOf(Judgments(9, 0, 1, 0, 0, 0)).rank == S
  {
    DivBetween(200 * 95 + 10, 20, 950);
  }

  /** A passing claim names one of the six rank letters and an accuracy
      between 0.0% and 100.0%; an empty play (accuracy `NaN`) never passes. */
  lemma GateExact(j: Judgments, claimedRank: string, claimedAccuracy: int)
    ensures ClaimVerified(j, claimedRank, claimedAccuracy)
        ==> 0 <= claimedAccuracy <= 1000 && claimedRank in {"SS", "S", "A", "B", "C", "F"}
    ensures Total(j) == 0 ==> !ClaimVerified(j, claimedRank, claimedAccuracy)
  {
  }
}
