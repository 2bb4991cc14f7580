/** The reward and levelling engine (src/lib/game-mechanics.ts). */
module GameMechanics {
  import opened Types

  // ---------------------------------------------------------------------
  // Levelling curve
  // ---------------------------------------------------------------------

  /** Cumulative experience needed to reach `level`:
      0 up to level 1, then 1000 + (level-1) * (500 + 250 * (level-1)). */
  function ExpForLevel(level: int): (r: int)
    ensures level <= 1 ==> r == 0
    ensures level >= 2 ==> r >= 1750
  {
    if level <= 1 then 0
    else
      assert (level - 1) * (500 + 250 * (level - 1)) >= 750 by {
        MulAtLeast(level - 1, 500 + 250 * (level - 1), 1, 750);
      }
      1000 + (level - 1) * (500 + 250 * (level - 1))
  }

  lemma MulAtLeast(a: int, b: int, a0: int, b0: int)
    requires 0 <= a0 <= a && 0 <= b0 <= b
    ensures a * b >= a0 * b0
  {
    calc {
      a * b;
    >=  { assert (a - a0) * b >= 0; }
      a0 * b;
    >=  { assert a0 * (b - b0) >= 0; }
      a0 * b0;
    }
  }

  /** The gap between consecutive thresholds: 1750 from level 1 to 2, then
      500 * level + 250. */
  lemma ExpForLevelStep(level: int)
    requires level >= 1
    ensures ExpForLevel(level + 1) - ExpForLevel(level) == if level == 1 then 1750 else 500 * level + 250
  {
    if level >= 2 {
      var n := level - 1;
      calc {
        ExpForLevel(level + 1) - ExpForLevel(level);
        (n + 1) * (500 + 250 * (n + 1)) - n * (500 + 250 * n);
        500 * (n + 1) + 250 * ((n + 1) * (n + 1)) - 500 * n - 250 * (n * n);
        { assert (n + 1) * (n + 1) == n * n + 2 * n + 1; }
        500 + 250 * (2 * n + 1);
      }
    }
  }

  /** The curve is strictly increasing from level 1 on. */
  lemma {:induction false} ExpForLevelIncreasing(a: int, b: int)
    requires 1 <= a < b
    ensures ExpForLevel(a) < ExpForLevel(b)
    decreases b - a
  {
    ExpForLevelStep(b - 1);
    if a < b - 1 {
      ExpForLevelIncreasing(a, b - 1);
    }
  }

  /** `level` is the level reached with `exp` experience: its threshold is
      reached and the next one is not. */
  predicate IsLevelOf(level: int, exp: int) {
    1 <= level && ExpForLevel(level) <= exp < ExpForLevel(level + 1)
  }

  /** At most one level brackets a given experience total. */
  lemma LevelOfUnique(exp: int, l1: int, l2: int)
    requires IsLevelOf(l1, exp) && IsLevelOf(l2, exp)
    ensures l1 == l2
  {
    if l1 < l2 {
      if l1 + 1 < l2 { ExpForLevelIncreasing(l1 + 1, l2); }
    } else if l2 < l1 {
      if l2 + 1 < l1 { ExpForLevelIncreasing(l2 + 1, l1); }
    }
  }

  /** More experience never means a lower level. */
  lemma LevelMonotone(e1: int, e2: int, l1: int, l2: int)
    requires e1 <= e2 && IsLevelOf(l1, e1) && IsLevelOf(l2, e2)
    ensures l1 <= l2
  {
    if l2 < l1 {
      if l2 + 1 < l1 { ExpForLevelIncreasing(l2 + 1, l1); }
    }
  }

  /** Experience exactly on a threshold lands on that level, not past it. */
  lemma ThresholdLandsOnLevel(level: int)
    requires level >= 1
    ensures IsLevelOf(level, ExpForLevel(level))
    ensures forall l :: IsLevelOf(l, ExpForLevel(level)) ==> l == level
  {
    ExpForLevelStep(level);
    forall l | IsLevelOf(l, ExpForLevel(level)) ensures l == level {
      LevelOfUnique(ExpForLevel(level), l, level);
    }
  }

  /** `calculateLevelProgress`: search upward until the threshold exceeds
      `exp`, then step back one level. With non-negative experience the
      result is the level `exp` brackets; with negative experience the loop
      never runs and the level comes out as 0. */
  method CalculateLevelProgress(exp: int) returns (r: LevelCalculation)
    ensures exp >= 0 ==> IsLevelOf(r.currentLevel, exp)
    ensures exp >= 0 ==> r.currentExp == exp - ExpForLevel(r.currentLevel)
    ensures exp >= 0 ==> r.expToNext == ExpForLevel(r.currentLevel + 1) - exp
    ensures exp >= 0 ==> r.totalExpForLevel == ExpForLevel(r.currentLevel + 1) - ExpForLevel(r.currentLevel)
    ensures exp < 0 ==> r == LevelCalculation(0, exp, -exp, 0)
    ensures r.currentExp + r.expToNext == r.totalExpForLevel
    ensures r.expToNext >= 1
  {
    var currentLevel := 1;
    var totalExpForLevel := 0;
    while totalExpForLevel <= exp
      invariant currentLevel >= 1
      invariant totalExpForLevel == ExpForLevel(currentLevel)
      invariant currentLevel >= 2 ==> ExpForLevel(currentLevel - 1) <= exp
      decreases exp - totalExpForLevel
    {
      ExpForLevelStep(currentLevel);
      currentLevel := currentLevel + 1;
      totalExpForLevel := ExpForLevel(currentLevel);
    }
    currentLevel := currentLevel - 1;
    var expToNext := totalExpForLevel - exp;
    var currentLevelExp := ExpForLevel(currentLevel);
    r := LevelCalculation(currentLevel, exp - currentLevelExp, expToNext, totalExpForLevel - currentLevelExp);
  }

  /** `shouldLevelUp` asks whether `expToNext <= 0`; since the search stops
      only once the threshold is strictly above the experience, it never
      is, and the answer is always false. */
  method ShouldLevelUp(user: User) returns (b: bool)
    ensures !b
  {
    var levelProgress := CalculateLevelProgress(user.exp);
    b := levelProgress.expToNext <= 0;
  }

  /** Points an allocation grants to `s`: the allocated amount when positive,
      otherwise nothing. */
  function Granted(allocation: map<Stat, int>, s: Stat): int {
    if s in allocation && allocation[s] > 0 then allocation[s] else 0
  }

  /** `levelUpUser`: recompute the level from experience, grant a flat 5
      points, and add each positive allocation onto a copy of the stats. */
  method LevelUpUser(user: User, allocation: map<Stat, int>) returns (r: LevelUp)
    ensures user.exp >= 0 ==> IsLevelOf(r.newLevel, user.exp)
    ensures user.exp < 0 ==> r.newLevel == 0
    ensures r.availablePoints == 5
    ensures forall s :: r.newStats.Get(s) == user.stats.Get(s) + Granted(allocation, s)
    ensures forall s :: r.newStats.Get(s) >= user.stats.Get(s)
    ensures user.stats.NonNegative() ==> r.newStats.NonNegative()
  {
    var levelProgress := CalculateLevelProgress(user.exp);
    var newLevel := levelProgress.currentLevel;
    var availablePoints := 5;
    var newStats := user.stats;
    var todo := allocation.Keys;
    while todo != {}
      invariant todo <= allocation.Keys
      invariant forall s :: newStats.Get(s) == user.stats.Get(s) + (if s in todo then 0 else Granted(allocation, s))
      decreases todo
    {
      var stat :| stat in todo;
      var points := allocation[stat];
      if points > 0 {
        newStats := newStats.Set(stat, newStats.Get(stat) + points);
      }
      todo := todo - {stat};
    }
    r := LevelUp(newLevel, newStats, availablePoints);
  }

  // ---------------------------------------------------------------------
  // Reward rules
  // ---------------------------------------------------------------------

  /** `Math.round`: the nearest integer, halves rounded up. */
  function Round(x: real): (r: int)
    ensures r as real - 0.5 <= x < r as real + 0.5
  {
    (x + 0.5).Floor
  }

  lemma RoundMonotone(x: real, y: real)
    requires x <= y
    ensures Round(x) <= Round(y)
  {
  }

  /** `calculateStreakBonus`: +0.1 for every full 7 days of streak, capped
      at 0.4. `Math.floor(streak / 7)` is Dafny's `/` on a positive divisor. */
  function StreakBonus(streakCount: int): (r: real)
    ensures r <= 0.4
    ensures 0 <= streakCount < 28 ==> r == (streakCount / 7) as real / 10.0
    ensures streakCount >= 28 ==> r == 0.4
    ensures 0 <= streakCount < 7 ==> r == 0.0
    ensures streakCount >= 0 ==> r >= 0.0
  {
    var streakTiers := streakCount / 7;
    if streakTiers as real * 0.1 <= 0.4 then streakTiers as real * 0.1 else 0.4
  }

  /** The bonus never shrinks as the streak grows. */
  lemma StreakBonusMonotone(s1: int, s2: int)
    requires s1 <= s2
    ensures StreakBonus(s1) <= StreakBonus(s2)
  {
    DivMonotone(s1, s2, 7);
  }

  lemma DivMonotone(a: int, b: int, d: int)
    requires a <= b && d > 0
    ensures a / d <= b / d
  {
    if a / d > b / d {
      assert (a / d) * d >= (b / d) * d + d by {
        MulAtLeast(a / d - b / d, d, 1, d);
      }
    }
  }

  lemma ScaleMonotone(x: real, y: real, c: real)
    requires x <= y && c >= 0.0
    ensures x * c <= y * c
  {
  }

  lemma ScaledAwardOrder(b: real, m: real)
    requires b >= 0.0 && m >= 0.0
    ensures Round(b * 0.8 * m) <= Round(b * 1.0 * m) <= Round(b * 1.3 * m)
  {
    ScaleMonotone(b * 0.8, b * 1.0, m);
    ScaleMonotone(b * 1.0, b * 1.3, m);
    RoundMonotone(b * 0.8 * m, b * 1.0 * m);
    RoundMonotone(b * 1.0 * m, b * 1.3 * m);
  }

  datatype Difficulty = Easy | Normal | Hard

  /** The difficulty factors: easy scales the award down, normal leaves it
      unchanged and hard scales it up, all within 0.8 to 1.3. */
  function DifficultyMultiplier(d: Difficulty): (m: real)
    ensures 0.8 <= m <= 1.3
    ensures m < 1.0 <==> d == Easy
    ensures m == 1.0 <==> d == Normal
    ensures m > 1.0 <==> d == Hard
  {
    match d
    case Easy => 0.8
    case Normal => 1.0
    case Hard => 1.3
  }

  /** `calculateQuestExp`: base experience scaled by the difficulty factor and
      by one plus the streak bonus, rounded to the nearest integer. */
  function QuestExp(baseExp: int, difficulty: Difficulty, streakCount: int): (r: int)
    ensures var exact := baseExp as real * DifficultyMultiplier(difficulty) * (1.0 + StreakBonus(streakCount));
      exact - 0.5 < r as real <= exact + 0.5
  {
    Round(baseExp as real * DifficultyMultiplier(difficulty) * (1.0 + StreakBonus(streakCount)))
  }

  /** A normal quest with a streak under a week awards exactly its base. */
  lemma QuestExpNormalShortStreak(baseExp: int, streakCount: int)
    requires 0 <= streakCount < 7
    ensures QuestExp(baseExp, Normal, streakCount) == baseExp
  {
    assert StreakBonus(streakCount) == 0.0;
    assert baseExp as real * DifficultyMultiplier(Normal) * (1.0 + StreakBonus(streakCount)) == baseExp as real;
  }

  /** 100 base experience on a hard quest with a 7-day streak: 100 * 1.3 * 1.1. */
  lemma QuestExpHardWeekStreak()
    ensures QuestExp(100, Hard, 7) == 143
  {
    assert StreakBonus(7) == 0.1;
    assert 100.0 * DifficultyMultiplier(Hard) * (1.0 + StreakBonus(7)) == 143.0;
  }

  /** Harder quests never award less, for a non-negative base and streak. */
  lemma QuestExpDifficultyOrder(baseExp: int, streakCount: int)
    requires baseExp >= 0 && streakCount >= 0
    ensures QuestExp(baseExp, Easy, streakCount) <= QuestExp(baseExp, Normal, streakCount) <= QuestExp(baseExp, Hard, streakCount)
  {
    var m := 1.0 + StreakBonus(streakCount);
    var b := baseExp as real;
    assert m >= 1.0;
    ScaledAwardOrder(b, m);
    assert QuestExp(baseExp, Easy, streakCount) == Round(b * 0.8 * m);
    assert QuestExp(baseExp, Normal, streakCount) == Round(b * 1.0 * m);
    assert QuestExp(baseExp, Hard, streakCount) == Round(b * 1.3 * m);
  }

  // ---------------------------------------------------------------------
  // Quest evaluation
  // ---------------------------------------------------------------------

  /** Sum of the weights of the affects on `s`. */
  function TotalWeight(affects: seq<StatAffect>, s: Stat): real
  {
    if affects == [] then 0.0
    else
      var last := affects[|affects| - 1];
      TotalWeight(affects[..|affects| - 1], s) + (if last.stat == s then last.weight else 0.0)
  }

  /** Some affect names `s`. */
  predicate Affects(affects: seq<StatAffect>, s: Stat) {
    exists j :: 0 <= j < |affects| && affects[j].stat == s
  }

  /** A stat no affect names has total weight 0. */
  lemma {:induction false} UnaffectedWeighsNothing(affects: seq<StatAffect>, s: Stat)
    requires !Affects(affects, s)
    ensures TotalWeight(affects, s) == 0.0
  {
    if affects != [] {
      var init := affects[..|affects| - 1];
      assert !Affects(init, s);
      UnaffectedWeighsNothing(init, s);
    }
  }

  /** `evaluateQuest`: a quest is completed iff its completion exists and
      succeeded. A completed quest earns normal-difficulty experience with the
      streak bonus and sums the weights of its affects per stat; any other
      outcome earns nothing and hands back the quest's penalty. */
  method EvaluateQuest(quest: Quest, completion: Option<Completion>, dailyStreak: int) returns (e: QuestEvaluation)
    ensures e.questId == quest.id
    ensures e.completed <==> completion.Some? && completion.value.status == Success
    ensures e.completed ==> e.expGained == QuestExp(quest.rewardExp, Normal, dailyStreak)
    ensures e.completed ==> e.penaltyApplied == None
    ensures e.completed ==> forall s :: s in e.statWeights <==> Affects(quest.affects, s)
    ensures e.completed ==> forall s :: s in e.statWeights ==> e.statWeights[s] == TotalWeight(quest.affects, s)
    ensures !e.completed ==> e.expGained == 0 && e.statWeights == map[] && e.penaltyApplied == quest.penalty
  {
    var completed := completion.Some? && completion.value.status == Success;
    var expGained := if completed then QuestExp(quest.rewardExp, Normal, dailyStreak) else 0;
    var statWeights: map<Stat, real> := map[];
    if completed {
      var affects := quest.affects;
      var i := 0;
      while i < |affects|
        invariant 0 <= i <= |affects|
        invariant forall s :: s in statWeights <==> Affects(affects[..i], s)
        invariant forall s :: s in statWeights ==> statWeights[s] == TotalWeight(affects[..i], s)
      {
        var affect := affects[i];
        assert affects[..i + 1][..i] == affects[..i];
        if affect.stat !in statWeights {
          UnaffectedWeighsNothing(affects[..i], affect.stat);
        }
        var prior := if affect.stat in statWeights then statWeights[affect.stat] else 0.0;
        statWeights := statWeights[affect.stat := prior + affect.weight];
        forall s ensures s in statWeights <==> Affects(affects[..i + 1], s) {
          if Affects(affects[..i + 1], s) && s != affect.stat {
            var j :| 0 <= j < i + 1 && affects[..i + 1][j].stat == s;
            assert affects[..i][j].stat == s;
          }
        }
        i := i + 1;
      }
      assert affects[..|affects|] == affects;
    }
    var penaltyApplied := if !completed then quest.penalty else None;
    e := QuestEvaluation(quest.id, completed, expGained, statWeights, penaltyApplied);
  }

  /** Affects on STR (1.0) and WIL (0.5) give exactly those two weights. */
  lemma StrengthAndWillpowerWeights()
    ensures var affects := [StatAffect(STR, 1.0), StatAffect(WIL, 0.5)];
      TotalWeight(affects, STR) == 1.0 && TotalWeight(affects, WIL) == 0.5 &&
      forall s :: Affects(affects, s) <==> s == STR || s == WIL
  {
    var affects := [StatAffect(STR, 1.0), StatAffect(WIL, 0.5)];
    assert affects[..1] == [StatAffect(STR, 1.0)];
    assert affects[..1][..0] == [];
  }

  // ---------------------------------------------------------------------
  // Stat allocation suggestion
  // ---------------------------------------------------------------------

  /** The lowest of the five stats (`Math.min` over the record's values). */
  function Lowest(stats: Stats): (m: int)
    ensures forall s :: m <= stats.Get(s)
    ensures exists s :: stats.Get(s) == m
  {
    var a := if stats.strength <= stats.intelligence then stats.strength else stats.intelligence;
    var b := if a <= stats.charisma then a else stats.charisma;
    var c := if b <= stats.willpower then b else stats.willpower;
    var m := if c <= stats.vitality then c else stats.vitality;
    assert m == stats.Get(STR) || m == stats.Get(INT) || m == stats.Get(CHA) || m == stats.Get(WIL) || m == stats.Get(VIT);
    m
  }

  /** Some evaluation in `evals` carries a weight for `s`. */
  predicate Mentioned(evals: seq<QuestEvaluation>, s: Stat) {
    exists j :: 0 <= j < |evals| && s in evals[j].statWeights
  }

  /** The weight for `s` summed over all evaluations. */
  function RecentWeight(evals: seq<QuestEvaluation>, s: Stat): real {
    if evals == [] then 0.0
    else
      var last := evals[|evals| - 1];
      RecentWeight(evals[..|evals| - 1], s) + (if s in last.statWeights then last.statWeights[s] else 0.0)
  }

  /** Sum of the per-stat weights over the stats in `keys`. */
  function SumOver(evals: seq<QuestEvaluation>, keys: seq<Stat>): real {
    if keys == [] then 0.0
    else SumOver(evals, keys[..|keys| - 1]) + RecentWeight(evals, keys[|keys| - 1])
  }

  /** The total weight of recent activity across all five stats. */
  function RecentTotal(evals: seq<QuestEvaluation>): real {
    SumOver(evals, StatOrder)
  }

  /** 1 for a stat tied for lowest, else 0. */
  function LowestBoost(stats: Stats, s: Stat): real {
    if stats.Get(s) == Lowest(stats) then 1.0 else 0.0
  }

  /** The points suggested for `s` when recent activity has positive weight:
      its share of 5 points, plus the boost, rounded. */
  function ProportionalPoints(evals: seq<QuestEvaluation>, stats: Stats, s: Stat): int
    requires RecentTotal(evals) > 0.0
  {
    Round(RecentWeight(evals, s) / RecentTotal(evals) * 5.0 + LowestBoost(stats, s))
  }

  /** `suggestStatAllocation`: accumulate the recent per-stat weights; if
      their total is positive, suggest each weighted stat its rounded share of
      5 points plus 1 when it is tied for lowest; otherwise suggest 3 points to
      every stat tied for lowest. */
  method SuggestStatAllocation(recent: seq<QuestEvaluation>, currentStats: Stats) returns (suggestion: map<Stat, int>)
    ensures RecentTotal(recent) > 0.0 ==> forall s :: s in suggestion <==> Mentioned(recent, s)
    ensures RecentTotal(recent) > 0.0 ==> forall s :: s in suggestion ==> suggestion[s] == ProportionalPoints(recent, currentStats, s)
    ensures RecentTotal(recent) <= 0.0 ==> forall s :: s in suggestion <==> currentStats.Get(s) == Lowest(currentStats)
    ensures RecentTotal(recent) <= 0.0 ==> forall s :: s in suggestion ==> suggestion[s] == 3
  {
    var statWeights := AccumulateWeights(recent);
    var lowestStat := Lowest(currentStats);
    var totalWeight := SumWeights(statWeights);
    SumWeightsIsRecentTotal(recent, statWeights, StatOrder);
    suggestion := map[];
    if totalWeight > 0.0 {
      var todo := statWeights.Keys;
      while todo != {}
        invariant todo <= statWeights.Keys
        invariant forall s :: s in suggestion <==> s in statWeights && s !in todo
        invariant forall s :: s in suggestion ==> suggestion[s] == ProportionalPoints(recent, currentStats, s)
        decreases todo
      {
        var stat :| stat in todo;
        var weight := statWeights[stat];
        var baseAllocation := weight / totalWeight * 5.0;
        var lowestStatBoost := if currentStats.Get(stat) == lowestStat then 1.0 else 0.0;
        suggestion := suggestion[stat := Round(baseAllocation + lowestStatBoost)];
        todo := todo - {stat};
      }
    } else {
      var i := 0;
      while i < |StatOrder|
        invariant 0 <= i <= |StatOrder|
        invariant forall s :: s in suggestion <==> StatIndex(s) < i && currentStats.Get(s) == lowestStat
        invariant forall s :: s in suggestion ==> suggestion[s] == 3
      {
        var stat := StatOrder[i];
        if currentStats.Get(stat) == lowestStat {
          suggestion := suggestion[stat := 3];
        }
        i := i + 1;
      }
    }
  }

  /** The first phase of `suggestStatAllocation`: add up the weight maps of
      all evaluations, key by key. */
  method AccumulateWeights(recent: seq<QuestEvaluation>) returns (statWeights: map<Stat, real>)
    ensures forall s :: s in statWeights <==> Mentioned(recent, s)
    ensures forall s :: s in statWeights ==> statWeights[s] == RecentWeight(recent, s)
  {
    statWeights := map[];
    var i := 0;
    while i < |recent|
      invariant 0 <= i <= |recent|
      invariant forall s :: s in statWeights <==> Mentioned(recent[..i], s)
      invariant forall s :: s in statWeights ==> statWeights[s] == RecentWeight(recent[..i], s)
    {
      var weights := recent[i].statWeights;
      assert recent[..i + 1][..i] == recent[..i];
      var todo := weights.Keys;
      while todo != {}
        invariant todo <= weights.Keys
        invariant forall s :: s in statWeights <==> Mentioned(recent[..i], s) || (s in weights && s !in todo)
        invariant forall s :: s in statWeights ==> statWeights[s] == RecentWeight(recent[..i], s) + (if s in weights && s !in todo then weights[s] else 0.0)
        decreases todo
      {
        var stat :| stat in todo;
        if stat !in statWeights {
          UnmentionedWeighsNothing(recent[..i], stat);
        }
        var prior := if stat in statWeights then statWeights[stat] else 0.0;
        statWeights := statWeights[stat := prior + weights[stat]];
        todo := todo - {stat};
      }
      forall s ensures s in statWeights <==> Mentioned(recent[..i + 1], s) {
        if s in weights {
          assert recent[..i + 1][i].statWeights == weights;
        }
        if Mentioned(recent[..i + 1], s) && s !in weights {
          var j :| 0 <= j < i + 1 && s in recent[..i + 1][j].statWeights;
          assert recent[..i][j] == recent[..i + 1][j];
        }
      }
      i := i + 1;
    }
    assert recent[..|recent|] == recent;
  }

  /** `Object.values(statWeights).reduce(...)`: the sum of the map's values. */
  function SumWeights(statWeights: map<Stat, real>): (r: real)
    ensures (forall k :: k in statWeights ==> statWeights[k] >= 0.0) ==> r >= 0.0
    ensures statWeights == map[] ==> r == 0.0
  {
    SumKeys(statWeights, StatOrder)
  }

  function SumKeys(statWeights: map<Stat, real>, keys: seq<Stat>): (r: real)
    ensures (forall k :: k in statWeights ==> statWeights[k] >= 0.0) ==> r >= 0.0
    ensures statWeights == map[] ==> r == 0.0
  {
    if keys == [] then 0.0
    else
      var k := keys[|keys| - 1];
      SumKeys(statWeights, keys[..|keys| - 1]) + (if k in statWeights then statWeights[k] else 0.0)
  }

  lemma {:induction false} SumWeightsIsRecentTotal(recent: seq<QuestEvaluation>, statWeights: map<Stat, real>, keys: seq<Stat>)
    requires forall s :: s in statWeights <==> Mentioned(recent, s)
    requires forall s :: s in statWeights ==> statWeights[s] == RecentWeight(recent, s)
    ensures SumKeys(statWeights, keys) == SumOver(recent, keys)
  {
    if keys != [] {
      SumWeightsIsRecentTotal(recent, statWeights, keys[..|keys| - 1]);
      var k := keys[|keys| - 1];
      if k !in statWeights {
        UnmentionedWeighsNothing(recent, k);
      }
    }
  }

  /** A stat no evaluation mentions has total weight 0. */
  lemma {:induction false} UnmentionedWeighsNothing(evals: seq<QuestEvaluation>, s: Stat)
    requires !Mentioned(evals, s)
    ensures RecentWeight(evals, s) == 0.0
  {
    if evals != [] {
      var init := evals[..|evals| - 1];
      assert !Mentioned(init, s);
      UnmentionedWeighsNothing(init, s);
      assert s !in evals[|evals| - 1].statWeights;
    }
  }

  /** With non-negative weights, each stat's weight is at most the total. */
  lemma {:induction false} RecentWeightNonNegative(evals: seq<QuestEvaluation>, s: Stat)
    requires forall j, t :: 0 <= j < |evals| && t in evals[j].statWeights ==> evals[j].statWeights[t] >= 0.0
    ensures RecentWeight(evals, s) >= 0.0
  {
    if evals != [] {
      RecentWeightNonNegative(evals[..|evals| - 1], s);
    }
  }

  lemma {:induction false} SumOverBounds(evals: seq<QuestEvaluation>, keys: seq<Stat>, s: Stat)
    requires forall j, t :: 0 <= j < |evals| && t in evals[j].statWeights ==> evals[j].statWeights[t] >= 0.0
    ensures SumOver(evals, keys) >= 0.0
    ensures s in keys ==> RecentWeight(evals, s) <= SumOver(evals, keys)
  {
    if keys != [] {
      var k := keys[|keys| - 1];
      SumOverBounds(evals, keys[..|keys| - 1], s);
      RecentWeightNonNegative(evals, k);
      RecentWeightNonNegative(evals, s);
      if s in keys && s != k {
        assert s in keys[..|keys| - 1];
      }
    }
  }

  lemma ShareAtMostOne(w: real, t: real)
    requires 0.0 <= w <= t && t > 0.0
    ensures 0.0 <= w / t <= 1.0
  {
  }

  /** With non-negative recent weights and a positive total, every stat is
      suggested between 0 and 6 points: at most its whole share of 5, plus
      the boost of 1. */
  lemma ProportionalPointsBounded(recent: seq<QuestEvaluation>, stats: Stats, s: Stat)
    requires forall j, t :: 0 <= j < |recent| && t in recent[j].statWeights ==> recent[j].statWeights[t] >= 0.0
    requires RecentTotal(recent) > 0.0
    ensures 0 <= ProportionalPoints(recent, stats, s) <= 6
  {
    assert StatOrder[StatIndex(s)] == s;
    SumOverBounds(recent, StatOrder, s);
    RecentWeightNonNegative(recent, s);
    var w := RecentWeight(recent, s);
    var t := RecentTotal(recent);
    ShareAtMostOne(w, t);
    RoundMonotone(0.0, w / t * 5.0 + LowestBoost(stats, s));
    RoundMonotone(w / t * 5.0 + LowestBoost(stats, s), 6.0);
  }

  // ---------------------------------------------------------------------
  // Soft-cap penalty check
  // ---------------------------------------------------------------------

  /** The soft-cap penalty fraction of a stat with value `value` when the
      lowest stat is `lowest`: 0.5 above 30, plus 0.5 above twice the lowest. */
  function StatPenalty(value: int, lowest: int): (p: real)
    ensures p == 0.0 || p == 0.5 || p == 1.0
    ensures p == 1.0 <==> value > 30 && value > lowest * 2
    ensures p == 0.0 <==> value <= 30 && value <= lowest * 2
  {
    (if value > 30 then 0.5 else 0.0) + (if value > lowest * 2 then 0.5 else 0.0)
  }

  /** A stat tied for lowest never trips the twice-the-lowest rule when the
      stats are non-negative; only the cap of 30 can penalise it. */
  lemma LowestOnlyCapped(stats: Stats, s: Stat)
    requires stats.NonNegative() && stats.Get(s) == Lowest(stats)
    ensures StatPenalty(stats.Get(s), Lowest(stats)) == if stats.Get(s) > 30 then 0.5 else 0.0
  {
  }

  /** The entries the soft-cap check pushes while visiting `keys` in order. */
  function SoftCapFilter(stats: Stats, keys: seq<Stat>): (r: seq<SoftCapEntry>)
    ensures |r| <= |keys|
  {
    if keys == [] then []
    else
      var stat := keys[|keys| - 1];
      var penalty := StatPenalty(stats.Get(stat), Lowest(stats));
      SoftCapFilter(stats, keys[..|keys| - 1]) + (if penalty > 0.0 then [SoftCapEntry(stat, penalty)] else [])
  }

  /** Every listed entry names a visited stat with its positive penalty. */
  lemma {:induction false} SoftCapFilterSound(stats: Stats, keys: seq<Stat>)
    ensures forall e :: e in SoftCapFilter(stats, keys) ==>
      e.stat in keys && e.penalty == StatPenalty(stats.Get(e.stat), Lowest(stats)) > 0.0
  {
    if keys != [] {
      var init := keys[..|keys| - 1];
      var prior := SoftCapFilter(stats, init);
      var r := SoftCapFilter(stats, keys);
      SoftCapFilterSound(stats, init);
      forall e | e in r
        ensures e.stat in keys && e.penalty == StatPenalty(stats.Get(e.stat), Lowest(stats)) > 0.0
      {
        if e in prior {
          assert e.stat in init;
        }
      }
    }
  }

  /** Every visited stat with a positive penalty is listed. */
  lemma {:induction false} SoftCapFilterComplete(stats: Stats, keys: seq<Stat>, s: Stat)
    requires s in keys && StatPenalty(stats.Get(s), Lowest(stats)) > 0.0
    ensures exists i :: 0 <= i < |SoftCapFilter(stats, keys)| && SoftCapFilter(stats, keys)[i].stat == s
  {
    var init := keys[..|keys| - 1];
    var r := SoftCapFilter(stats, keys);
    if keys[|keys| - 1] == s {
      assert r[|r| - 1].stat == s;
    } else {
      assert s in init;
      SoftCapFilterComplete(stats, init, s);
      var i :| 0 <= i < |SoftCapFilter(stats, init)| && SoftCapFilter(stats, init)[i].stat == s;
      assert r[i] == SoftCapFilter(stats, init)[i];
    }
  }

  /** The entries are listed in strictly increasing stat order. */
  predicate InStatOrder(r: seq<SoftCapEntry>) {
    forall i, j :: 0 <= i < j < |r| ==> StatIndex(r[i].stat) < StatIndex(r[j].stat)
  }

  /** Keys visited in stat order give entries in stat order. */
  lemma {:induction false} SoftCapFilterOrdered(stats: Stats, keys: seq<Stat>)
    requires forall a, b :: 0 <= a < b < |keys| ==> StatIndex(keys[a]) < StatIndex(keys[b])
    ensures InStatOrder(SoftCapFilter(stats, keys))
  {
    if keys != [] {
      var init := keys[..|keys| - 1];
      var prior := SoftCapFilter(stats, init);
      SoftCapFilterOrdered(stats, init);
      SoftCapFilterSound(stats, init);
      var r := SoftCapFilter(stats, keys);
      forall i | 0 <= i < |prior| ensures StatIndex(prior[i].stat) < StatIndex(keys[|keys| - 1]) {
        assert prior[i] in prior;
        var a :| 0 <= a < |init| && init[a] == prior[i].stat;
        assert keys[a] == init[a];
      }
      assert InStatOrder(prior);
      forall i, j | 0 <= i < j < |r| ensures StatIndex(r[i].stat) < StatIndex(r[j].stat) {
        assert r[i] == prior[i];
        if j < |prior| {
          assert r[j] == prior[j];
        } else {
          assert r[j].stat == keys[|keys| - 1];
        }
      }
    }
  }

  /** `checkSoftCapPenalty`: visit the stats in declaration order and list
      every stat whose penalty fraction is positive, with that fraction. */
  method CheckSoftCapPenalty(stats: Stats) returns (penalties: seq<SoftCapEntry>)
    ensures penalties == SoftCapFilter(stats, StatOrder)
    ensures forall i :: 0 <= i < |penalties| ==>
      penalties[i].penalty == StatPenalty(stats.Get(penalties[i].stat), Lowest(stats)) > 0.0
    ensures forall s :: StatPenalty(stats.Get(s), Lowest(stats)) > 0.0 <==>
      exists i :: 0 <= i < |penalties| && penalties[i].stat == s
    ensures InStatOrder(penalties)
  {
    penalties := [];
    var lowestStat := Lowest(stats);
    var i := 0;
    while i < |StatOrder|
      invariant 0 <= i <= |StatOrder|
      invariant penalties == SoftCapFilter(stats, StatOrder[..i])
    {
      var stat := StatOrder[i];
      var value := stats.Get(stat);
      var penalty := 0.0;
      if value > 30 {
        penalty := penalty + 0.5;
      }
      if value > lowestStat * 2 {
        penalty := penalty + 0.5;
      }
      assert StatOrder[..i + 1][..i] == StatOrder[..i];
      if penalty > 0.0 {
        penalties := penalties + [SoftCapEntry(stat, penalty)];
      }
      i := i + 1;
    }
    assert StatOrder[..|StatOrder|] == StatOrder;
    SoftCapFilterSound(stats, StatOrder);
    SoftCapFilterOrdered(stats, StatOrder);
    forall s | StatPenalty(stats.Get(s), Lowest(stats)) > 0.0
      ensures exists i :: 0 <= i < |penalties| && penalties[i].stat == s
    {
      assert StatOrder[StatIndex(s)] == s;
      SoftCapFilterComplete(stats, StatOrder, s);
    }
  }

  /** When no visited stat carries a penalty, nothing is listed. */
  lemma {:induction false} NoPenaltyNoEntries(stats: Stats, keys: seq<Stat>)
    requires forall s :: s in keys ==> StatPenalty(stats.Get(s), Lowest(stats)) == 0.0
    ensures SoftCapFilter(stats, keys) == []
  {
    if keys != [] {
      NoPenaltyNoEntries(stats, keys[..|keys| - 1]);
    }
  }

  /** Equal stats up to 30 raise no soft-cap penalty at all. */
  lemma EqualStatsNoPenalty(v: int)
    requires 0 <= v <= 30
    ensures SoftCapFilter(Stats(v, v, v, v, v), StatOrder) == []
  {
    var stats := Stats(v, v, v, v, v);
    assert Lowest(stats) == v;
    assert StatPenalty(v, v) == 0.0;
    assert forall t :: stats.Get(t) == v;
    NoPenaltyNoEntries(stats, StatOrder);
  }

  /** STR at 35 against four stats at 10 trips both rules; nothing else is
      listed. */
  lemma OneOverInvestedStat()
    ensures SoftCapFilter(Stats(35, 10, 10, 10, 10), StatOrder) == [SoftCapEntry(STR, 1.0)]
  {
    var stats := Stats(35, 10, 10, 10, 10);
    assert Lowest(stats) == 10;
    assert StatPenalty(35, 10) == 1.0 && StatPenalty(10, 10) == 0.0;
    var want := [SoftCapEntry(STR, 1.0)];
    assert SoftCapFilter(stats, StatOrder[..0]) == [];
    assert StatOrder[..1][..0] == StatOrder[..0];
    assert SoftCapFilter(stats, StatOrder[..1]) == want;
    assert StatOrder[..2][..1] == StatOrder[..1];
    assert SoftCapFilter(stats, StatOrder[..2]) == want;
    assert StatOrder[..3][..2] == StatOrder[..2];
    assert SoftCapFilter(stats, StatOrder[..3]) == want;
    assert StatOrder[..4][..3] == StatOrder[..3];
    assert SoftCapFilter(stats, StatOrder[..4]) == want;
    assert StatOrder[..5][..4] == StatOrder[..4];
    assert StatOrder[..5] == StatOrder;
  }

  // ---------------------------------------------------------------------
  // Weekly evaluation
  // ---------------------------------------------------------------------

  /** `quests.some(q => q.id === id)`. */
  predicate HasQuest(quests: seq<Quest>, id: string) {
    exists j :: 0 <= j < |quests| && quests[j].id == id
  }

  /** The completions of quests in `quests` stamped within the inclusive
      window, in their original order, whatever their status. */
  function InWindowFor(completions: seq<Completion>, weekStart: int, weekEnd: int, quests: seq<Quest>): (r: seq<Completion>)
    ensures |r| <= |completions|
    ensures forall c :: c in r <==>
      c in completions && weekStart <= c.completedAt <= weekEnd && HasQuest(quests, c.questId)
  {
    if completions == [] then []
    else
      var init := completions[..|completions| - 1];
      var c := completions[|completions| - 1];
      assert completions == init + [c];
      InWindowFor(init, weekStart, weekEnd, quests)
        + (if weekStart <= c.completedAt <= weekEnd && HasQuest(quests, c.questId) then [c] else [])
  }

  /** `completions.find(c => c.questId === id)`: the first completion of the
      quest anywhere in the list. */
  function FirstCompletion(completions: seq<Completion>, id: string): (r: Option<Completion>)
    ensures r.None? <==> forall k :: 0 <= k < |completions| ==> completions[k].questId != id
    ensures r.Some? ==> exists k :: 0 <= k < |completions| && completions[k] == r.value && r.value.questId == id &&
                                  forall j :: 0 <= j < k ==> completions[j].questId != id
  {
    if completions == [] then None
    else if completions[0].questId == id then Some(completions[0])
    else
      var r := FirstCompletion(completions[1..], id);
      if r.Some? then
        var k :| 0 <= k < |completions[1..]| && completions[1..][k] == r.value && r.value.questId == id &&
          forall j :: 0 <= j < k ==> completions[1..][j].questId != id;
        assert completions[k + 1] == r.value;
        r
      else
        r
  }

  /** A daily quest owes its penalty when its first completion is missing
      or did not succeed. */
  predicate Owes(completions: seq<Completion>, id: string) {
    var first := FirstCompletion(completions, id);
    first.None? || first.value.status != Success
  }

  /** The penalties collected, in quest order, for every quest that owes one
      and has a penalty. */
  function DailyPenalties(quests: seq<Quest>, completions: seq<Completion>): (r: seq<QuestPenalty>)
    ensures |r| <= |quests|
    ensures forall p :: p in r <==>
      exists j :: 0 <= j < |quests| && quests[j].penalty == Some(p) && Owes(completions, quests[j].id)
  {
    if quests == [] then []
    else
      var init := quests[..|quests| - 1];
      var q := quests[|quests| - 1];
      var prior := DailyPenalties(init, completions);
      var r := prior + (if Owes(completions, q.id) && q.penalty.Some? then [q.penalty.value] else []);
      assert forall p :: p in r <==>
        exists j :: 0 <= j < |quests| && quests[j].penalty == Some(p) && Owes(completions, quests[j].id) by {
        forall p | exists j :: 0 <= j < |quests| && quests[j].penalty == Some(p) && Owes(completions, quests[j].id)
          ensures p in r
        {
          var j :| 0 <= j < |quests| && quests[j].penalty == Some(p) && Owes(completions, quests[j].id);
          if j < |init| {
            assert init[j] == quests[j];
          }
        }
        forall p | p in prior
          ensures exists j :: 0 <= j < |quests| && quests[j].penalty == Some(p) && Owes(completions, quests[j].id)
        {
          var j :| 0 <= j < |init| && init[j].penalty == Some(p) && Owes(completions, init[j].id);
          assert quests[j] == init[j];
        }
      }
      r
  }

  /** `evaluateWeeklyProgress`: the daily rate counts in-window completions of
      daily quests (any status) against the number of daily quests, the
      weekly count counts in-window completions of weekly quests, the bonus
      is 50 for a rate of at least 0.8 with the weekly count equal to the
      number of weekly quests, and penalties are collected from the daily
      quests whose first completion in the whole list is missing or failed. */
  method EvaluateWeeklyProgress(weekStart: int, weekEnd: int, dailyQuests: seq<Quest>, weeklyQuests: seq<Quest>,
                                completions: seq<Completion>) returns (r: WeeklyEvaluation)
    ensures r.weekStart == weekStart && r.weekEnd == weekEnd
    ensures var daily := InWindowFor(completions, weekStart, weekEnd, dailyQuests);
      r.dailyCompletionRate == if |dailyQuests| > 0 then |daily| as real / |dailyQuests| as real else 0.0
    ensures r.weeklyQuestsCompleted == |InWindowFor(completions, weekStart, weekEnd, weeklyQuests)|
    ensures r.bonusExp == 50 <==> r.dailyCompletionRate >= 0.8 && r.weeklyQuestsCompleted == |weeklyQuests|
    ensures r.bonusExp == 0 || r.bonusExp == 50
    ensures r.penaltiesApplied == DailyPenalties(dailyQuests, completions)
    ensures r.newTitles == []
  {
    var penaltiesApplied: seq<QuestPenalty> := [];
    var i := 0;
    while i < |dailyQuests|
      invariant 0 <= i <= |dailyQuests|
      invariant penaltiesApplied == DailyPenalties(dailyQuests[..i], completions)
    {
      var quest := dailyQuests[i];
      assert dailyQuests[..i + 1] == dailyQuests[..i] + [quest];
      DailyPenaltiesAppend(dailyQuests[..i], [quest], completions);
      DailyPenaltiesOne(quest, completions);
      var completion := FirstCompletion(completions, quest.id);
      if completion.None? || completion.value.status != Success {
        if quest.penalty.Some? {
          penaltiesApplied := penaltiesApplied + [quest.penalty.value];
        }
      }
      i := i + 1;
    }
    assert dailyQuests[..|dailyQuests|] == dailyQuests;
    var dailyCompletions := InWindowFor(completions, weekStart, weekEnd, dailyQuests);
    var weeklyCompletions := InWindowFor(completions, weekStart, weekEnd, weeklyQuests);
    var dailyCompletionRate := if |dailyQuests| > 0 then |dailyCompletions| as real / |dailyQuests| as real else 0.0;
    var weeklyQuestsCompleted := |weeklyCompletions|;
    var bonusExp := if dailyCompletionRate >= 0.8 && weeklyQuestsCompleted == |weeklyQuests| then 50 else 0;
    r := WeeklyEvaluation(weekStart, weekEnd, dailyCompletionRate, weeklyQuestsCompleted, bonusExp, penaltiesApplied, []);
  }

  /** Each in-window completion is kept as many times as it occurs and
      every other is dropped, so the length counts duplicates. */
  lemma {:induction false} InWindowForCounts(completions: seq<Completion>, weekStart: int, weekEnd: int,
                                             quests: seq<Quest>, c: Completion)
    ensures multiset(InWindowFor(completions, weekStart, weekEnd, quests))[c] ==
            (if weekStart <= c.completedAt <= weekEnd && HasQuest(quests, c.questId)
             then multiset(completions)[c] else 0)
  {
    if completions != [] {
      var init := completions[..|completions| - 1];
      assert completions == init + [completions[|completions| - 1]];
      InWindowForCounts(init, weekStart, weekEnd, quests, c);
    }
  }

  /** Filtering a concatenation filters each part and keeps them in order,
      so the in-window completions keep their original order. */
  lemma {:induction false} InWindowForAppend(a: seq<Completion>, b: seq<Completion>, weekStart: int, weekEnd: int,
                                             quests: seq<Quest>)
    ensures InWindowFor(a + b, weekStart, weekEnd, quests) ==
            InWindowFor(a, weekStart, weekEnd, quests) + InWindowFor(b, weekStart, weekEnd, quests)
    decreases |b|
  {
    if b != [] {
      var init := b[..|b| - 1];
      var c := b[|b| - 1];
      assert (a + b)[..|a + b| - 1] == a + init;
      assert (a + b)[|a + b| - 1] == c;
      InWindowForAppend(a, init, weekStart, weekEnd, quests);
    } else {
      assert a + b == a;
    }
  }

  /** Penalties of a concatenation of quest lists are the penalties of each
      part, in order: one entry per owing quest, in daily-quest order. */
  lemma {:induction false} DailyPenaltiesAppend(a: seq<Quest>, b: seq<Quest>, completions: seq<Completion>)
    ensures DailyPenalties(a + b, completions) == DailyPenalties(a, completions) + DailyPenalties(b, completions)
    decreases |b|
  {
    if b != [] {
      var init := b[..|b| - 1];
      assert (a + b)[..|a + b| - 1] == a + init;
      assert (a + b)[|a + b| - 1] == b[|b| - 1];
      DailyPenaltiesAppend(a, init, completions);
    } else {
      assert a + b == a;
    }
  }

  /** A single daily quest contributes its penalty exactly when it owes one
      and has one. */
  lemma DailyPenaltiesOne(q: Quest, completions: seq<Completion>)
    ensures DailyPenalties([q], completions) ==
            if Owes(completions, q.id) && q.penalty.Some? then [q.penalty.value] else []
  {
    assert [q][..0] == [];
  }

  /** Every completion of the list given the status `st`. */
  function WithStatus(completions: seq<Completion>, st: CompletionStatus): (r: seq<Completion>)
    ensures |r| == |completions|
    ensures forall i :: 0 <= i < |r| ==> r[i] == completions[i].(status := st)
  {
    seq(|completions|, i requires 0 <= i < |completions| => completions[i].(status := st))
  }

  /** The daily rate and the weekly count ignore status: giving every
      completion any one status leaves the number of counted completions
      unchanged. */
  lemma {:induction false} RateIgnoresStatus(completions: seq<Completion>, st: CompletionStatus, weekStart: int,
                                             weekEnd: int, quests: seq<Quest>)
    ensures |InWindowFor(WithStatus(completions, st), weekStart, weekEnd, quests)| ==
            |InWindowFor(completions, weekStart, weekEnd, quests)|
  {
    if completions != [] {
      var init := completions[..|completions| - 1];
      var w := WithStatus(completions, st);
      assert w[..|w| - 1] == WithStatus(init, st);
      RateIgnoresStatus(init, st, weekStart, weekEnd, quests);
    }
  }

  /** A success anywhere later in the list does not lift the penalty when an
      earlier completion of the same quest failed, even outside the week. */
  lemma FirstCompletionDecides(q: Quest, failed: Completion, succeeded: Completion, rest: seq<Completion>)
    requires q.penalty.Some? && failed.questId == q.id && failed.status != Success
    requires succeeded.questId == q.id && succeeded.status == Success
    ensures DailyPenalties([q], [failed] + rest + [succeeded]) == [q.penalty.value]
  {
    assert ([failed] + rest + [succeeded])[0] == failed;
    assert FirstCompletion([failed] + rest + [succeeded], q.id) == Some(failed);
    assert [q][..0] == [];
  }

  /** Completions are not deduplicated by quest: the same quest completed
      twice in the window counts twice, so with one daily quest the rate is 2
      and the weekly count can exceed the number of weekly quests. */
  lemma DuplicatesCountTwice(q: Quest, c: Completion, weekStart: int, weekEnd: int)
    requires c.questId == q.id && weekStart <= c.completedAt <= weekEnd
    ensures |InWindowFor([c, c], weekStart, weekEnd, [q])| == 2
  {
    assert HasQuest([q], c.questId) by {
      assert [q][0].id == c.questId;
    }
    assert [c, c][..1] == [c];
    assert [c][..0] == [];
  }
}
