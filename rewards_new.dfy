/** The second reward system (rewards_new.py, FunRewardSystem): seven levels
    by threshold, a seven-entry achievement table of which three are checked,
    the level card arithmetic and the weekly grade. */
module FunRewards {
  import opened Entries
  import opened Database

  // ---------------------------------------------------------------------
  // Tables

  datatype FunAchievement = FirstSteps | WeekStreak | EcoHero | GreenRider | PlantPower | EnergyStar | TrackerPro

  function FunId(a: FunAchievement): string
  {
    match a
    case FirstSteps => "first_entry"
    case WeekStreak => "week_tracker"
    case EcoHero => "low_carbon"
    case GreenRider => "transport_hero"
    case PlantPower => "plant_power"
    case EnergyStar => "energy_star"
    case TrackerPro => "data_master"
  }

  function FunPoints(a: FunAchievement): (points: int)
    ensures points > 0
  {
    match a
    case FirstSteps => 50
    case WeekStreak => 100
    case EcoHero => 75
    case GreenRider => 80
    case PlantPower => 90
    case EnergyStar => 85
    case TrackerPro => 150
  }

  /** The point thresholds of the levels Sprout, Seedling, Tree, Guardian,
      Eco Star, Champion and Legend. */
  const Thresholds: seq<int> := [0, 100, 300, 600, 1000, 1500, 2500]

  const MaxLevel: int := |Thresholds| - 1

  lemma ThresholdsIncreasing()
    ensures |Thresholds| == 7 && Thresholds[0] == 0
    ensures forall i, j :: 0 <= i < j < |Thresholds| ==> Thresholds[i] < Thresholds[j]
  {
  }

  // ---------------------------------------------------------------------
  // Levels

  /** The level of `points` searching down from index `i`: the first index at
      or below `i` whose threshold is reached, 0 when none is. */
  function SearchDown(points: int, i: int): (level: int)
    requires -1 <= i < |Thresholds|
    ensures 0 <= level < |Thresholds| && (i >= 0 ==> level <= i)
    ensures level == 0 || Thresholds[level] <= points
    ensures forall j :: level < j <= i ==> points < Thresholds[j]
    decreases i + 1
  {
    if i < 0 then 0
    else if points >= Thresholds[i] then i
    else SearchDown(points, i - 1)
  }

  /** The level for `points`: the largest index whose threshold is reached. */
  function LevelFor(points: int): (level: int)
    ensures 0 <= level <= MaxLevel
    ensures level == 0 || Thresholds[level] <= points
    ensures forall j :: level < j <= MaxLevel ==> points < Thresholds[j]
  {
    SearchDown(points, MaxLevel)
  }

  /** get_current_level: a descending loop with early return. */
  method GetCurrentLevel(points: int) returns (level: int)
    ensures level == LevelFor(points)
  {
    var i := |Thresholds| - 1;
    while i >= 0
      invariant -1 <= i < |Thresholds|
      invariant forall j :: i < j < |Thresholds| ==> points < Thresholds[j]
    {
      if points >= Thresholds[i] {
        LevelUnique(points, i);
        return i;
      }
      i := i - 1;
    }
    LevelUnique(points, 0);
    return 0;
  }

  /** The characterisation of LevelFor determines the level. */
  lemma LevelUnique(points: int, level: int)
    requires 0 <= level <= MaxLevel
    requires level == 0 || Thresholds[level] <= points
    requires forall j :: level < j <= MaxLevel ==> points < Thresholds[j]
    ensures LevelFor(points) == level
  {
  }

  /** With increasing thresholds a level is exactly a band
      [Thresholds[i], Thresholds[i + 1]). */
  lemma LevelBand(points: int, i: int)
    requires 0 <= i <= MaxLevel
    ensures i > 0 && i < MaxLevel ==>
              (LevelFor(points) == i <==> Thresholds[i] <= points < Thresholds[i + 1])
    ensures LevelFor(points) == 0 <==> points < Thresholds[1]
    ensures LevelFor(points) == MaxLevel <==> Thresholds[MaxLevel] <= points
  {
    ThresholdsIncreasing();
    if i > 0 && i < MaxLevel && Thresholds[i] <= points < Thresholds[i + 1] {
      LevelUnique(points, i);
    }
    if points < Thresholds[1] {
      LevelUnique(points, 0);
    }
  }

  /** More points never mean a lower level. */
  lemma LevelForMonotone(p: int, q: int)
    requires p <= q
    ensures LevelFor(p) <= LevelFor(q)
  {
  }

  // ---------------------------------------------------------------------
  // The level card

  datatype LevelCard = LevelCard(level: int, progress: real, pointsNeeded: int)

  /** show_level_card: the share of the way from this level's threshold to the
      next one's, and the points still missing; at the top level, 1.0 and 0. */
  function ShowLevelCard(points: int): LevelCard
  {
    var level := LevelFor(points);
    if level < MaxLevel then
      var low := Thresholds[level];
      var high := Thresholds[level + 1];
      LevelCard(level, (points - low) as real / (high - low) as real, high - points)
    else
      LevelCard(level, 1.0, 0)
  }

  /** Below the top level there are points missing, the progress lies in
      [0, 1) and points plus points needed reach the next threshold exactly; at
      the top level nothing is missing. */
  lemma LevelCardBounds(points: int)
    requires points >= 0
    ensures var card := ShowLevelCard(points);
            card.level == LevelFor(points)
            && (card.level < MaxLevel ==>
                  card.pointsNeeded > 0 && 0.0 <= card.progress < 1.0
                  && points + card.pointsNeeded == Thresholds[card.level + 1])
            && (card.level == MaxLevel ==> card.pointsNeeded == 0 && card.progress == 1.0)
  {
    ThresholdsIncreasing();
    var level := LevelFor(points);
    if level < MaxLevel {
      var low := Thresholds[level];
      var high := Thresholds[level + 1];
      assert low <= points < high;
      ProgressBounds((points - low) as real, (high - low) as real);
    }
  }

  lemma ProgressBounds(done: real, span: real)
    requires 0.0 <= done < span
    ensures 0.0 <= done / span < 1.0
  {
    var share := done / span;
    assert share * span == done;
  }

  // ---------------------------------------------------------------------
  // The weekly grade

  datatype Grade = APlus | A | B | C

  /** The grade of a week's total: below 30, 60 and 100 kg, or above. */
  function WeekGrade(total: real): (g: Grade)
    ensures g == APlus <==> total < 30.0
    ensures g == A <==> 30.0 <= total < 60.0
    ensures g == B <==> 60.0 <= total < 100.0
    ensures g == C <==> 100.0 <= total
  {
    if total < 30.0 then APlus
    else if total < 60.0 then A
    else if total < 100.0 then B
    else C
  }

  function GradeRank(g: Grade): int
  {
    match g
    case APlus => 0
    case A => 1
    case B => 2
    case C => 3
  }

  /** A lower total never earns a worse grade. */
  lemma WeekGradeMonotone(x: real, y: real)
    requires x <= y
    ensures GradeRank(WeekGrade(x)) <= GradeRank(WeekGrade(y))
  {
  }

  datatype WeekStats = WeekStats(grade: Grade, total: real, entriesLogged: nat)

  /** show_weekly_stats: nothing without entries; otherwise the entries dated
      on or after `since` give the total, its grade and their number. Dates
      are midnight times compared with the current time minus seven days, so
      `since` is six days before today (seven when the clock reads exactly
      midnight). */
  function ShowWeeklyStats(es: seq<Entry>, since: Day): Option<WeekStats>
  {
    if es == [] then None
    else
      var thisWeek := Filter(es, (e: Entry) => e.date >= since);
      var total := Total(thisWeek);
      Some(WeekStats(WeekGrade(total), total, |thisWeek|))
  }

  /** The week's figures cover the entries since the start day and no others:
      together with the earlier entries they make up every entry and the
      whole total, so each entry is counted exactly once on one side; with no
      negative amounts the week's total lies between 0 and the overall
      total. */
  lemma WeeklyStatsCount(es: seq<Entry>, since: Day)
    requires es != []
    ensures var stats := ShowWeeklyStats(es, since).value;
            var earlier := Filter(es, (e: Entry) => e.date < since);
            stats.entriesLogged + |earlier| == |es| && stats.total + Total(earlier) == Total(es)
    ensures var stats := ShowWeeklyStats(es, since).value;
            (forall i :: 0 <= i < |es| ==> es[i].date < since)
            ==> stats.entriesLogged == 0 && stats.total == 0.0 && stats.grade == APlus
    ensures var stats := ShowWeeklyStats(es, since).value;
            (forall i :: 0 <= i < |es| ==> es[i].date >= since)
            ==> stats.entriesLogged == |es| && stats.total == Total(es)
    ensures var stats := ShowWeeklyStats(es, since).value;
            (forall i :: 0 <= i < |es| ==> es[i].co2Amount >= 0.0)
            ==> 0.0 <= stats.total <= Total(es)
  {
    var p := (e: Entry) => e.date >= since;
    var q := (e: Entry) => e.date < since;
    FilterSplits(es, p, q);
    if forall i :: 0 <= i < |es| ==> es[i].date < since {
      FilterNone(es, p);
    }
    if forall i :: 0 <= i < |es| ==> es[i].date >= since {
      FilterNone(es, q);
    }
    if forall i :: 0 <= i < |es| ==> es[i].co2Amount >= 0.0 {
      NonNegativeFiltered(es, p);
      NonNegativeFiltered(es, q);
    }
  }

  /** The entries a filter keeps have no negative total when no entry has a
      negative amount. */
  lemma NonNegativeFiltered(es: seq<Entry>, p: Entry -> bool)
    requires forall i :: 0 <= i < |es| ==> es[i].co2Amount >= 0.0
    ensures Total(Filter(es, p)) >= 0.0
  {
    var kept := Filter(es, p);
    forall i | 0 <= i < |kept| ensures kept[i].co2Amount >= 0.0 {
      assert kept[i] in kept;
      var j :| 0 <= j < |es| && es[j] == kept[i];
    }
    TotalNonNegative(kept);
  }

  // ---------------------------------------------------------------------
  // New achievements

  /** The entry count at which check_new_achievements unlocks an achievement;
      the other four are never unlocked by it. */
  function UnlockCount(a: FunAchievement): Option<nat>
  {
    match a
    case FirstSteps => Some(1)
    case WeekStreak => Some(7)
    case TrackerPro => Some(20)
    case _ => None
  }

  /** The three checks, in order, on the number of entries and the set of ids
      held. */
  function FunNewAchievements(count: nat, current: set<string>): seq<FunAchievement>
  {
    (if count >= 1 && "first_entry" !in current then [FirstSteps] else [])
    + (if count >= 7 && "week_tracker" !in current then [WeekStreak] else [])
    + (if count >= 20 && "data_master" !in current then [TrackerPro] else [])
  }

  /** An achievement is new exactly when it is one of the three checked, its
      count is reached and its id is not held; none is listed twice. */
  lemma FunNewAchievementsExactly(count: nat, current: set<string>)
    ensures forall a :: a in FunNewAchievements(count, current) <==>
              UnlockCount(a).Some? && count >= UnlockCount(a).value && FunId(a) !in current
    ensures forall i, j :: 0 <= i < j < |FunNewAchievements(count, current)| ==>
              FunNewAchievements(count, current)[i] != FunNewAchievements(count, current)[j]
  {
  }

  function FunIdsOf(s: seq<FunAchievement>): (ids: seq<string>)
    ensures |ids| == |s| && forall i :: 0 <= i < |s| ==> ids[i] == FunId(s[i])
  {
    if s == [] then [] else FunIdsOf(s[..|s| - 1]) + [FunId(s[|s| - 1])]
  }

  function FunPointsOf(s: seq<FunAchievement>): int
  {
    if s == [] then 0 else FunPointsOf(s[..|s| - 1]) + FunPoints(s[|s| - 1])
  }

  /** What check_new_achievements does as written: nothing without entries
      or without anything new, and otherwise the call of
      `db_manager.update_user_rewards`, a method the store does not have. */
  datatype FunOutcome = NoChange | AttributeError

  function CheckNewAchievementsAsWritten(es: seq<Entry>, rd: Rewards): FunOutcome
  {
    if es == [] then NoChange
    else if FunNewAchievements(|es|, set x | x in rd.achievements) == [] then NoChange
    else AttributeError
  }

  /** As written, the first visit to the page after the first entry fails:
      any user with an entry and without "first_entry" reaches the missing
      method. */
  lemma FirstVisitFails(es: seq<Entry>, rd: Rewards)
    requires es != [] && "first_entry" !in rd.achievements
    ensures CheckNewAchievementsAsWritten(es, rd) == AttributeError
  {
    assert "first_entry" !in set x | x in rd.achievements;
  }

  /** check_new_achievements with the write read as an update that merges
      into the stored record: the points and the ids are added and the other
      fields are kept. (Handing the two-key dictionary as it stands to
      save_user_rewards would instead reset those fields to their defaults.)
      The held ids go through `list(set(...))`, which drops duplicates in
      an order Python does not fix; the loop picks them in any order. */
  method CheckNewAchievements(db: DatabaseManager, username: string, rd: Rewards)
    returns (unlocked: seq<FunAchievement>, saved: Option<Rewards>)
    requires db.Valid()
    modifies db
    ensures db.Valid()
    ensures unlocked == (if EntriesOf(old(db.rows), username) == [] then []
                         else FunNewAchievements(|EntriesOf(old(db.rows), username)|, set x | x in rd.achievements))
    ensures unlocked == [] <==> saved == None
    ensures saved == None ==> db.rewards == old(db.rewards)
    ensures saved.Some? ==>
              var r := saved.value;
              db.rewards == old(db.rewards)[username := r]
              && r.(totalPoints := rd.totalPoints, achievements := rd.achievements) == rd
              && r.totalPoints == rd.totalPoints + FunPointsOf(unlocked)
              && |r.achievements| == |set x | x in rd.achievements| + |unlocked|
              && r.achievements[|r.achievements| - |unlocked|..] == FunIdsOf(unlocked)
              && (forall x :: x in r.achievements <==> x in rd.achievements || x in FunIdsOf(unlocked))
              && Distinct(r.achievements)
    ensures db.users == old(db.users) && db.rows == old(db.rows) && db.nextId == old(db.nextId)
  {
    var data := db.GetUserCo2Entries(username);
    unlocked := [];
    saved := None;
    if data == [] {
      return;
    }
    var current := set x | x in rd.achievements;
    unlocked := FunUnlockedBy(|data|, current);
    if unlocked == [] {
      return;
    }
    FunNewAchievementsExactly(|data|, current);
    var all := MergedIds(current, unlocked);
    var updated := rd.(totalPoints := rd.totalPoints + FunPointsOf(unlocked), achievements := all);
    var ok := db.SaveUserRewards(username, Full(updated));
    saved := Some(updated);
  }

  /** The three checks of check_new_achievements, in order. */
  method FunUnlockedBy(count: nat, current: set<string>) returns (unlocked: seq<FunAchievement>)
    ensures unlocked == FunNewAchievements(count, current)
  {
    unlocked := [];
    if count >= 1 && "first_entry" !in current {
      unlocked := unlocked + [FirstSteps];
    }
    if count >= 7 && "week_tracker" !in current {
      unlocked := unlocked + [WeekStreak];
    }
    if count >= 20 && "data_master" !in current {
      unlocked := unlocked + [TrackerPro];
    }
  }

  predicate Distinct<T(==)>(s: seq<T>)
  {
    forall i, j :: 0 <= i < j < |s| ==> s[i] != s[j]
  }

  lemma DistinctConcat<T>(xs: seq<T>, ys: seq<T>)
    requires Distinct(xs) && Distinct(ys)
    requires forall x :: x in xs ==> x !in ys
    ensures Distinct(xs + ys)
  {
    forall i, j | 0 <= i < j < |xs + ys| ensures (xs + ys)[i] != (xs + ys)[j] {
      if i < |xs| && j >= |xs| {
        assert (xs + ys)[i] in xs && (xs + ys)[j] == ys[j - |xs|];
      }
    }
  }

  /** Distinct achievements have distinct ids. */
  lemma FunIdsDistinct(s: seq<FunAchievement>)
    requires Distinct(s)
    ensures Distinct(FunIdsOf(s))
  {
    forall i, j | 0 <= i < j < |s| ensures FunIdsOf(s)[i] != FunIdsOf(s)[j] {
      FunIdInjective(s[i], s[j]);
    }
  }

  lemma FunIdInjective(a: FunAchievement, b: FunAchievement)
    ensures FunId(a) == FunId(b) ==> a == b
  {
  }

  /** `list(current) + new_achievements`: the held ids once each, then the
      new ones. */
  method MergedIds(current: set<string>, unlocked: seq<FunAchievement>) returns (all: seq<string>)
    requires forall a :: a in unlocked ==> FunId(a) !in current
    requires Distinct(unlocked)
    ensures |all| == |current| + |unlocked|
    ensures all[|all| - |unlocked|..] == FunIdsOf(unlocked)
    ensures forall x :: x in all <==> x in current || x in FunIdsOf(unlocked)
    ensures Distinct(all)
  {
    var held := DistinctList(current);
    var ids := FunIdsOf(unlocked);
    FunIdsDistinct(unlocked);
    assert forall x :: x in ids ==> x !in current;
    DistinctConcat(held, ids);
    all := held + ids;
    assert all[|all| - |unlocked|..] == ids;
  }

  /** `list(s)` for a set of strings: each element once, in some order. */
  method DistinctList(s: set<string>) returns (xs: seq<string>)
    ensures forall x :: x in xs <==> x in s
    ensures |xs| == |s|
    ensures Distinct(xs)
  {
    xs := [];
    var rest := s;
    while rest != {}
      invariant rest !! (set x | x in xs)
      invariant forall x :: x in s <==> x in rest || x in xs
      invariant |xs| + |rest| == |s|
      invariant Distinct(xs)
      decreases |rest|
    {
      var x :| x in rest;
      xs := xs + [x];
      rest := rest - {x};
    }
  }
}
