/** The scoring library (lib/evaluation.ts): the two tier chains, the sprint-impact
    conversion and the reaction-time statistics. Everything here is a total pure function;
    numbers the source keeps as doubles are exact `real`s. */
module Evaluation {
  import opened Types

  // ---------------------------------------------------------------------------
  // Dual-task score tiers (lib/evaluation.ts:5-35)

  const MultitaskMaster := EvaluationResult("🧠", "マルチタスクマスター!", "認知的負荷下でも完璧な判断力!", "複雑な状況でも冷静な判断ができる")
  const WellBalanced := EvaluationResult("🎯", "バランス良好!", "二重課題をうまくこなしています!", "ピッチとフォーム、両方を意識できる")
  const Growing := EvaluationResult("💪", "成長中!", "マルチタスク能力を鍛えましょう!", "一つずつ確実に、そして複合的に")
  const Challenger := EvaluationResult("🌱", "チャレンジャー!", "継続練習で必ず上達します!", "まずは単一課題から慣れていこう")

  /** The dual-task tiers, best first. */
  const DualTiers: seq<EvaluationResult> := [MultitaskMaster, WellBalanced, Growing, Challenger]

  function EvaluateDualTaskScore(score: real): (r: EvaluationResult)
    ensures r in DualTiers
    ensures r == MultitaskMaster <==> score >= 80.0
    ensures r == WellBalanced <==> 60.0 <= score < 80.0
    ensures r == Growing <==> 40.0 <= score < 60.0
    ensures r == Challenger <==> score < 40.0
  {
    if score >= 80.0 then MultitaskMaster
    else if score >= 60.0 then WellBalanced
    else if score >= 40.0 then Growing
    else Challenger
  }

  // ---------------------------------------------------------------------------
  // Reaction-time tiers (lib/evaluation.ts:37-73)

  const Superhuman := EvaluationResult("⚡", "超人級!", "オリンピック選手レベルの反応速度です!", "スタートダッシュで大きなアドバンテージ!")
  const Excellent := EvaluationResult("🔥", "素晴らしい!", "トップアスリート並みの反応です!", "理想的なスタート反応時間です")
  const Good := EvaluationResult("👍", "良い!", "良好な反応速度です。この調子!", "さらに磨けば0.1秒速くなります")
  const Practicing := EvaluationResult("💪", "練習中!", "練習で必ず速くなります!", "反応を0.05秒改善すれば50m走が速くなる")
  const Beginner := EvaluationResult("🌱", "これから!", "まずは集中力を高めましょう!", "リラックスして練習を重ねよう")

  /** The reaction-time tiers, best (fastest) first. */
  const ReactionTiers: seq<EvaluationResult> := [Superhuman, Excellent, Good, Practicing, Beginner]

  function EvaluateReactionTime(reactionTime: real): (r: EvaluationResult)
    ensures r in ReactionTiers
    ensures r == Superhuman <==> reactionTime <= 150.0
    ensures r == Excellent <==> 150.0 < reactionTime <= 200.0
    ensures r == Good <==> 200.0 < reactionTime <= 250.0
    ensures r == Practicing <==> 250.0 < reactionTime <= 300.0
    ensures r == Beginner <==> 300.0 < reactionTime
  {
    if reactionTime <= 150.0 then Superhuman
    else if reactionTime <= 200.0 then Excellent
    else if reactionTime <= 250.0 then Good
    else if reactionTime <= 300.0 then Practicing
    else Beginner
  }

  /** Position of a tier in its best-first list (0 is best). */
  function TierIndex(tiers: seq<EvaluationResult>, r: EvaluationResult): (k: nat)
    requires r in tiers
    ensures k < |tiers| && tiers[k] == r
    ensures forall j :: 0 <= j < k ==> tiers[j] != r
  {
    if tiers[0] == r then 0 else 1 + TierIndex(tiers[1..], r)
  }

  /** A slower reaction never earns a better tier. */
  lemma ReactionTierMonotone(t1: real, t2: real)
    requires t1 <= t2
    ensures TierIndex(ReactionTiers, EvaluateReactionTime(t1)) <= TierIndex(ReactionTiers, EvaluateReactionTime(t2))
  {
  }

  /** A higher dual-task score never earns a worse tier. */
  lemma DualTierMonotone(s1: real, s2: real)
    requires s1 <= s2
    ensures TierIndex(DualTiers, EvaluateDualTaskScore(s2)) <= TierIndex(DualTiers, EvaluateDualTaskScore(s1))
  {
  }

  // ---------------------------------------------------------------------------
  // Sprint impact (lib/evaluation.ts:77-89)

  const IdealReactionTime: real := 150.0

  /** Both fields in seconds, rounded to three decimals. */
  datatype SprintImpact = SprintImpact(startAdvantage: real, improvementPotential: real)

  /** Math.round(x * 1000) / 1000. */
  function RoundMillis(x: real): real
  {
    Round(x * 1000.0) as real / 1000.0
  }

  function CalculateSprintImpact(reactionTime: real): (r: SprintImpact)
    ensures -0.0005 < r.startAdvantage - reactionTime / 1000.0 <= 0.0005
    ensures r.improvementPotential >= 0.0
    ensures reactionTime <= IdealReactionTime ==> r.improvementPotential == 0.0
    ensures reactionTime > IdealReactionTime ==>
              -0.0005 < r.improvementPotential - (reactionTime - IdealReactionTime) / 1000.0 <= 0.0005
  {
    var startAdvantage := reactionTime / 1000.0;
    var improvementPotential := if (reactionTime - IdealReactionTime) / 1000.0 > 0.0
                                then (reactionTime - IdealReactionTime) / 1000.0 else 0.0;
    SprintImpact(RoundMillis(startAdvantage), RoundMillis(improvementPotential))
  }

  /** For a whole number of milliseconds the conversion is exact: the advantage is rt/1000 and
      the potential is zero exactly when rt is at most 150, and (rt - 150)/1000 otherwise. */
  lemma SprintImpactOfInteger(rt: int)
    ensures CalculateSprintImpact(rt as real).startAdvantage == rt as real / 1000.0
    ensures CalculateSprintImpact(rt as real).improvementPotential ==
              if rt <= 150 then 0.0 else (rt - 150) as real / 1000.0
    ensures CalculateSprintImpact(rt as real).improvementPotential == 0.0 <==> rt <= 150
  {
    assert (rt as real / 1000.0) * 1000.0 == rt as real;
    assert Round(rt as real) == rt;
    if rt > 150 {
      var d := (rt - 150) as real;
      assert ((rt as real - IdealReactionTime) / 1000.0) * 1000.0 == d;
      assert Round(d) == rt - 150;
    }
  }

  // ---------------------------------------------------------------------------
  // Statistics (lib/evaluation.ts:92-110)

  /** The consistency label: 安定 (stable), 普通 (normal), 不安定 (unstable). */
  datatype Consistency = Stable | Normal | Unstable {
    function Label(): string {
      match this
      case Stable => "安定"
      case Normal => "普通"
      case Unstable => "不安定"
    }
  }

  datatype Stats = Stats(average: int, fastest: int, slowest: int, stdDev: int, consistency: Consistency)

  function Sum(s: seq<int>): int
  {
    if |s| == 0 then 0 else s[0] + Sum(s[1..])
  }

  /** Math.min(...s) */
  function Min(s: seq<int>): (m: int)
    requires |s| > 0
    ensures m in s
    ensures forall t :: t in s ==> m <= t
  {
    if |s| == 1 then s[0]
    else
      var rest := Min(s[1..]);
      assert forall t :: t in s ==> t == s[0] || t in s[1..];
      if s[0] <= rest then s[0] else rest
  }

  /** Math.max(...s) */
  function Max(s: seq<int>): (m: int)
    requires |s| > 0
    ensures m in s
    ensures forall t :: t in s ==> t <= m
  {
    if |s| == 1 then s[0]
    else
      var rest := Max(s[1..]);
      assert forall t :: t in s ==> t == s[0] || t in s[1..];
      if s[0] >= rest then s[0] else rest
  }

  /** The arithmetic mean, unrounded. */
  function Mean(s: seq<int>): real
    requires |s| > 0
  {
    Sum(s) as real / |s| as real
  }

  function Sq(x: real): real { x * x }

  /** Sum of squared deviations from m. */
  function SquaredDeviations(s: seq<int>, m: real): (r: real)
    ensures r >= 0.0
  {
    if |s| == 0 then 0.0 else Sq(s[0] as real - m) + SquaredDeviations(s[1..], m)
  }

  /** The population variance: mean of the squared deviations from the mean. */
  function Variance(s: seq<int>): (v: real)
    requires |s| > 0
    ensures v >= 0.0
  {
    SquaredDeviations(s, Mean(s)) / |s| as real
  }

  lemma SqMonotone(a: real, b: real)
    requires 0.0 <= a <= b
    ensures Sq(a) <= Sq(b)
  {
    assert a * a <= a * b <= b * b;
  }

  lemma SqStrictMonotone(a: real, b: real)
    requires 0.0 <= a < b
    ensures Sq(a) < Sq(b)
  {
    var d := b - a;
    assert b * b == (a + d) * (a + d) == a * a + 2.0 * a * d + d * d;
    assert a * d >= 0.0;
    assert d * d > 0.0;
  }

  /** Search upwards from n for the integer nearest to the square root of v. */
  function RoundedSqrtFrom(v: real, n: nat): (k: nat)
    requires v >= 0.0
    requires n == 0 || Sq(n as real - 0.5) <= v
    ensures n <= k
    ensures k == 0 || Sq(k as real - 0.5) <= v
    ensures v < Sq(k as real + 0.5)
    decreases v.Floor - n + 1
  {
    if v < Sq(n as real + 0.5) then n
    else
      assert n as real <= Sq(n as real + 0.5);
      RoundedSqrtFrom(v, n + 1)
  }

  /** Math.round(Math.sqrt(v)), computed exactly: the n with n - 0.5 <= sqrt(v) < n + 0.5. */
  function RoundedSqrt(v: real): (n: nat)
    requires v >= 0.0
    ensures n == 0 || Sq(n as real - 0.5) <= v
    ensures v < Sq(n as real + 0.5)
  {
    RoundedSqrtFrom(v, 0)
  }

  /** The bracket determines the rounded root uniquely. */
  lemma RoundedSqrtUnique(v: real, n: nat)
    requires v >= 0.0
    requires n == 0 || Sq(n as real - 0.5) <= v
    requires v < Sq(n as real + 0.5)
    ensures RoundedSqrt(v) == n
  {
    var k := RoundedSqrt(v);
    if k > n {
      SqMonotone(n as real + 0.5, k as real - 0.5);
    } else if k < n {
      SqMonotone(k as real + 0.5, n as real - 0.5);
    }
  }

  /** Whenever sd is the exact square root of v, RoundedSqrt(v) is Math.round(sd). */
  lemma RoundedSqrtIsRoundOfRoot(v: real, sd: real)
    requires sd >= 0.0 && Sq(sd) == v
    ensures RoundedSqrt(v) == Round(sd)
  {
    var n := RoundedSqrt(v);
    if sd >= n as real + 0.5 {
      SqMonotone(n as real + 0.5, sd);
    }
    if n > 0 && sd < n as real - 0.5 {
      SqStrictMonotone(sd, n as real - 0.5);
    }
  }

  /** The label chosen from the variance: stdDev < 20 is variance < 400, stdDev < 40 is variance < 1600. */
  function ConsistencyOf(variance: real): Consistency
  {
    if variance < 400.0 then Stable else if variance < 1600.0 then Normal else Unstable
  }

  /** The label through the variance is the source's label through the unrounded standard deviation. */
  lemma ConsistencyByStdDev(variance: real, sd: real)
    requires sd >= 0.0 && Sq(sd) == variance
    ensures ConsistencyOf(variance) == (if sd < 20.0 then Stable else if sd < 40.0 then Normal else Unstable)
  {
    if sd < 20.0 { SqStrictMonotone(sd, 20.0); } else { SqMonotone(20.0, sd); }
    if sd < 40.0 { SqStrictMonotone(sd, 40.0); } else { SqMonotone(40.0, sd); }
  }

  function CalculateStats(times: seq<int>): (r: Option<Stats>)
    ensures r.None? <==> |times| == 0
    ensures r.Some? ==> r.value.fastest in times && r.value.slowest in times
    ensures r.Some? ==> forall t :: t in times ==> r.value.fastest <= t <= r.value.slowest
    ensures r.Some? ==> r.value.average == Round(Mean(times))
    ensures r.Some? ==> r.value.stdDev == RoundedSqrt(Variance(times)) && r.value.stdDev >= 0
    ensures r.Some? ==> r.value.consistency == ConsistencyOf(Variance(times))
  {
    if |times| == 0 then None
    else
      var variance := Variance(times);
      Some(Stats(Round(Mean(times)), Min(times), Max(times), RoundedSqrt(variance), ConsistencyOf(variance)))
  }

  lemma {:induction false} SumBounds(s: seq<int>, lo: int, hi: int)
    requires forall t :: t in s ==> lo <= t <= hi
    ensures |s| * lo <= Sum(s) <= |s| * hi
  {
    if |s| > 0 {
      assert forall t :: t in s[1..] ==> t in s;
      var n := |s|;
      assert s[0] in s;
      assert |s[1..]| == n - 1;
      SumBounds(s[1..], lo, hi);
      assert n * lo == lo + (n - 1) * lo;
      assert n * hi == hi + (n - 1) * hi;
    }
  }

  lemma QuotientBounds(x: real, n: real, lo: real, hi: real)
    requires n > 0.0 && n * lo <= x <= n * hi
    ensures lo <= x / n <= hi
  {
    assert (x / n) * n == x;
  }

  lemma CastProduct(a: int, b: int)
    ensures (a * b) as real == a as real * b as real
  {
  }

  lemma MeanBetween(s: seq<int>, lo: int, hi: int)
    requires |s| > 0
    requires |s| * lo <= Sum(s) <= |s| * hi
    ensures lo as real <= Mean(s) <= hi as real
  {
    var n, total := |s|, Sum(s);
    CastProduct(n, lo);
    CastProduct(n, hi);
    assert (n as real) * (lo as real) <= total as real;
    assert (n as real) * (hi as real) >= total as real;
    QuotientBounds(total as real, n as real, lo as real, hi as real);
    assert Mean(s) == total as real / n as real;
  }

  /** The unrounded mean lies between the fastest and the slowest time. */
  lemma MeanBetweenMinAndMax(s: seq<int>)
    requires |s| > 0
    ensures Min(s) as real <= Mean(s) <= Max(s) as real
  {
    SumBounds(s, Min(s), Max(s));
    MeanBetween(s, Min(s), Max(s));
  }

  /** fastest <= average <= slowest, also after rounding. */
  lemma StatsAverageBetween(times: seq<int>)
    requires |times| > 0
    ensures CalculateStats(times).value.fastest <= CalculateStats(times).value.average <= CalculateStats(times).value.slowest
  {
    MeanBetweenMinAndMax(times);
  }

  lemma {:induction false} SumConstant(s: seq<int>, c: int)
    requires forall i :: 0 <= i < |s| ==> s[i] == c
    ensures Sum(s) == |s| * c
  {
    if |s| > 0 {
      SumConstant(s[1..], c);
    }
  }

  lemma {:induction false} SquaredDeviationsConstant(s: seq<int>, c: int)
    requires forall i :: 0 <= i < |s| ==> s[i] == c
    ensures SquaredDeviations(s, c as real) == 0.0
  {
    if |s| > 0 {
      SquaredDeviationsConstant(s[1..], c);
    }
  }

  /** An all-equal list has average c, standard deviation 0 and is stable. */
  lemma StatsOfConstant(s: seq<int>, c: int)
    requires |s| > 0
    requires forall i :: 0 <= i < |s| ==> s[i] == c
    ensures CalculateStats(s) == Some(Stats(c, c, c, 0, Stable))
  {
    SumConstant(s, c);
    assert Mean(s) == c as real;
    SquaredDeviationsConstant(s, c);
    assert Variance(s) == 0.0;
    RoundedSqrtUnique(0.0, 0);
  }

  /** The worked example [200, 210, 190]: average 200, fastest 190, slowest 210, stdDev 8, stable. */
  lemma StatsExample()
    ensures CalculateStats([200, 210, 190]) == Some(Stats(200, 190, 210, 8, Stable))
  {
    var s := [200, 210, 190];
    assert Sum(s) == 600;
    assert Mean(s) == 200.0;
    assert SquaredDeviations(s, 200.0) == 200.0;
    var v := Variance(s);
    assert v == 200.0 / 3.0;
    RoundedSqrtUnique(v, 8);
  }
}
