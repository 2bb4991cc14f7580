/** Records shared by the reward engine and its callers (src/types/index.ts).
    Only the fields the engine reads or produces are kept; timestamps are
    integers (milliseconds), experience is an integer, weights and rates are
    exact reals. */
module Types {

  datatype Option<+T> = None | Some(value: T)

  /** The five character stats, in the order the source declares them. */
  datatype Stat = STR | INT | CHA | WIL | VIT

  /** Declaration order of the stats; `Object.entries` on a Stats record
      visits them in this order. */
  const StatOrder: seq<Stat> := [STR, INT, CHA, WIL, VIT]

  function StatIndex(s: Stat): (i: nat)
    ensures i < |StatOrder| && StatOrder[i] == s
  {
    match s
    case STR => 0
    case INT => 1
    case CHA => 2
    case WIL => 3
    case VIT => 4
  }

  datatype Stats = Stats(strength: int, intelligence: int, charisma: int, willpower: int, vitality: int)
  {
    function Get(s: Stat): int {
      match s
      case STR => strength
      case INT => intelligence
      case CHA => charisma
      case WIL => willpower
      case VIT => vitality
    }

    /** The record with stat `s` replaced by `v` (`stats[s] = v` on a copy). */
    function Set(s: Stat, v: int): (r: Stats)
      ensures r.Get(s) == v
      ensures forall t :: t != s ==> r.Get(t) == Get(t)
    {
      match s
      case STR => this.(strength := v)
      case INT => this.(intelligence := v)
      case CHA => this.(charisma := v)
      case WIL => this.(willpower := v)
      case VIT => this.(vitality := v)
    }

    predicate NonNegative() {
      forall s :: 0 <= Get(s)
    }
  }

  datatype User = User(id: string, level: int, exp: int, stats: Stats)

  datatype QuestType = Daily | Weekly

  datatype StatAffect = StatAffect(stat: Stat, weight: real)

  datatype QuestPenalty = QuestPenalty(
    exp: int,
    punishmentQuestId: Option<string>,
    title: Option<string>,
    durationHours: Option<int>)

  datatype Quest = Quest(
    id: string,
    title: string,
    questType: QuestType,
    affects: seq<StatAffect>,
    rewardExp: int,
    penalty: Option<QuestPenalty>)

  datatype CompletionStatus = Success | Fail | Partial

  datatype Completion = Completion(
    id: string,
    questId: string,
    userId: string,
    status: CompletionStatus,
    value: Option<real>,
    completedAt: int)

  datatype LevelCalculation = LevelCalculation(
    currentLevel: int,
    currentExp: int,
    expToNext: int,
    totalExpForLevel: int)

  /** `statWeights` is a `Partial<Stats>`: a stat is a key only if some
      affect named it. */
  datatype QuestEvaluation = QuestEvaluation(
    questId: string,
    completed: bool,
    expGained: int,
    statWeights: map<Stat, real>,
    penaltyApplied: Option<QuestPenalty>)

  datatype WeeklyEvaluation = WeeklyEvaluation(
    weekStart: int,
    weekEnd: int,
    dailyCompletionRate: real,
    weeklyQuestsCompleted: int,
    bonusExp: int,
    penaltiesApplied: seq<QuestPenalty>,
    newTitles: seq<string>)

  /** One entry of the soft-cap report. */
  datatype SoftCapEntry = SoftCapEntry(stat: Stat, penalty: real)

  /** The result of `levelUpUser`. */
  datatype LevelUp = LevelUp(newLevel: int, newStats: Stats, availablePoints: int)
}
