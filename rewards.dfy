/** The reward system (rewards.py): levels from points, the five achievements,
    the weekly-improvement bonus and the order in which the rewards page runs
    the checks and saves the result. */
module RewardSystem {
  import opened Entries
  import opened Database

  // ---------------------------------------------------------------------
  // Levels

  /** The level for a number of points: five fixed bands, then one level per
      500 points from 1500 on, capped at 10. */
  function CalculateLevel(points: int): (level: int)
    ensures 1 <= level <= 10
  {
    if points < 100 then 1
    else if points < 300 then 2
    else if points < 600 then 3
    else if points < 1000 then 4
    else if points < 1500 then 5
    else
      var stepped := 5 + (points - 1500) / 500;
      if stepped < 10 then stepped else 10
  }

  /** The bands the levels cover. Level 5 spans 1000 to 1999 points, because
      the first 500-point step above 1500 adds nothing. */
  lemma LevelBands(points: int)
    ensures CalculateLevel(points) == 1 <==> points < 100
    ensures CalculateLevel(points) == 2 <==> 100 <= points < 300
    ensures CalculateLevel(points) == 3 <==> 300 <= points < 600
    ensures CalculateLevel(points) == 4 <==> 600 <= points < 1000
    ensures CalculateLevel(points) == 5 <==> 1000 <= points < 2000
    ensures 2000 <= points < 4000 ==> CalculateLevel(points) == points / 500 + 2
    ensures CalculateLevel(points) == 10 <==> points >= 4000
  {
  }

  /** More points never mean a lower level. */
  lemma LevelMonotone(p: int, q: int)
    requires p <= q
    ensures CalculateLevel(p) <= CalculateLevel(q)
  {
    if p >= 1500 {
      assert (p - 1500) / 500 <= (q - 1500) / 500;
    }
  }

  // ---------------------------------------------------------------------
  // Achievements

  datatype Achievement = FirstEntry | ConsistentTracker | EcoWarrior | LowCarbon | CategoryMaster

  function Id(a: Achievement): string
  {
    match a
    case FirstEntry => "first_entry"
    case ConsistentTracker => "consistent_tracker"
    case EcoWarrior => "eco_warrior"
    case LowCarbon => "low_carbon"
    case CategoryMaster => "category_master"
  }

  function Points(a: Achievement): (points: int)
    ensures points > 0
  {
    match a
    case FirstEntry => 50
    case ConsistentTracker => 100
    case EcoWarrior => 200
    case LowCarbon => 150
    case CategoryMaster => 120
  }

  /** Entries below 5 kg, the "low carbon days". */
  function LowCarbonEntries(es: seq<Entry>): seq<Entry>
  {
    Filter(es, (e: Entry) => e.co2Amount < 5.0)
  }

  /** The distinct categories of the entries. */
  function CategoriesUsed(es: seq<Entry>): set<string>
  {
    set i | 0 <= i < |es| :: es[i].category
  }

  /** The entries meet the condition of the achievement. */
  predicate Earned(a: Achievement, es: seq<Entry>)
  {
    match a
    case FirstEntry => |es| >= 1
    case ConsistentTracker => |es| >= 7
    case EcoWarrior => |es| >= 30
    case LowCarbon => |LowCarbonEntries(es)| >= 5
    case CategoryMaster => |CategoriesUsed(es)| >= 4
  }

  /** The achievement, when its condition is met and its id is not held. */
  function Unlock(a: Achievement, es: seq<Entry>, held: seq<string>): seq<Achievement>
  {
    if Earned(a, es) && Id(a) !in held then [a] else []
  }

  /** The achievements met and not yet held, in the order the checks run. */
  function NewAchievements(es: seq<Entry>, held: seq<string>): seq<Achievement>
  {
    Unlock(FirstEntry, es, held) + Unlock(ConsistentTracker, es, held) + Unlock(EcoWarrior, es, held)
    + Unlock(LowCarbon, es, held) + Unlock(CategoryMaster, es, held)
  }

  /** An achievement is new exactly when its condition is met and its id is not
      held yet; none is listed twice. */
  lemma NewAchievementsExactly(es: seq<Entry>, held: seq<string>)
    ensures forall a :: a in NewAchievements(es, held) <==> Earned(a, es) && Id(a) !in held
    ensures forall i, j :: 0 <= i < j < |NewAchievements(es, held)|
              ==> NewAchievements(es, held)[i] != NewAchievements(es, held)[j]
  {
    var p1 := Unlock(FirstEntry, es, held);
    var p2 := p1 + Unlock(ConsistentTracker, es, held);
    var p3 := p2 + Unlock(EcoWarrior, es, held);
    var p4 := p3 + Unlock(LowCarbon, es, held);
    var p5 := p4 + Unlock(CategoryMaster, es, held);
    AppendFresh(p1, Unlock(ConsistentTracker, es, held));
    AppendFresh(p2, Unlock(EcoWarrior, es, held));
    AppendFresh(p3, Unlock(LowCarbon, es, held));
    AppendFresh(p4, Unlock(CategoryMaster, es, held));
    assert p5 == NewAchievements(es, held);
    forall a
      ensures a in p5 <==> Earned(a, es) && Id(a) !in held
    {
      assert a in p5 <==> a in Unlock(a, es, held);
    }
  }

  /** Appending at most one element not yet present keeps a sequence free of
      repeats. */
  lemma AppendFresh(p: seq<Achievement>, q: seq<Achievement>)
    requires forall i, j :: 0 <= i < j < |p| ==> p[i] != p[j]
    requires |q| <= 1 && forall x :: x in q ==> x !in p
    ensures forall i, j :: 0 <= i < j < |p + q| ==> (p + q)[i] != (p + q)[j]
  {
    forall i, j | 0 <= i < j < |p + q|
      ensures (p + q)[i] != (p + q)[j]
    {
      if j >= |p| {
        assert i < |p| && (p + q)[i] == p[i];
        assert (p + q)[j] == q[j - |p|] && q[j - |p|] in q;
      }
    }
  }

  function IdsOf(s: seq<Achievement>): (ids: seq<string>)
    ensures |ids| == |s| && forall i :: 0 <= i < |s| ==> ids[i] == Id(s[i])
  {
    if s == [] then [] else IdsOf(s[..|s| - 1]) + [Id(s[|s| - 1])]
  }

  function PointsOf(s: seq<Achievement>): int
  {
    if s == [] then 0 else PointsOf(s[..|s| - 1]) + Points(s[|s| - 1])
  }

  lemma {:induction false} PointsOfNonNegative(s: seq<Achievement>)
    ensures PointsOf(s) >= 0
    ensures s != [] ==> PointsOf(s) > 0
  {
    if s != [] {
      PointsOfNonNegative(s[..|s| - 1]);
    }
  }

  /** The result of check_achievements: the updated rewards and the
      achievements just unlocked. */
  datatype AchievementCheck = AchievementCheck(rewards: Rewards, unlocked: seq<Achievement>)

  /** check_achievements on entries `es` and loaded rewards `rd`: nothing
      without entries; otherwise the new ids are appended, their points added
      and the level recomputed from the points. */
  function AchievementsChecked(es: seq<Entry>, rd: Rewards): AchievementCheck
  {
    if es == [] then AchievementCheck(rd, [])
    else
      var unlocked := NewAchievements(es, rd.achievements);
      var points := rd.totalPoints + PointsOf(unlocked);
      AchievementCheck(rd.(achievements := rd.achievements + IdsOf(unlocked),
                           totalPoints := points,
                           level := CalculateLevel(points)),
                       unlocked)
  }

  /** After the check every achievement the entries earn is held, the ids held
      before are kept in front, the points never drop and the level matches
      the points; only achievements, points and level change. */
  lemma AchievementsCheckedProgress(es: seq<Entry>, rd: Rewards)
    requires es != []
    ensures var r := AchievementsChecked(es, rd).rewards;
            (forall a :: Earned(a, es) ==> Id(a) in r.achievements)
            && r.achievements[..|rd.achievements|] == rd.achievements
            && r.totalPoints >= rd.totalPoints
            && r.level == CalculateLevel(r.totalPoints)
            && r.(achievements := rd.achievements, totalPoints := rd.totalPoints, level := rd.level) == rd
  {
    var unlocked := NewAchievements(es, rd.achievements);
    var r := AchievementsChecked(es, rd).rewards;
    var ids := IdsOf(unlocked);
    assert r.achievements == rd.achievements + ids;
    NewAchievementsExactly(es, rd.achievements);
    PointsOfNonNegative(unlocked);
    forall a | Earned(a, es) ensures Id(a) in r.achievements {
      if Id(a) !in rd.achievements {
        var i :| 0 <= i < |unlocked| && unlocked[i] == a;
        assert ids[i] == Id(a);
        assert r.achievements[|rd.achievements| + i] == ids[i];
      }
    }
  }

  /** Once every earned id is held, nothing is new. */
  lemma NothingNew(es: seq<Entry>, held: seq<string>)
    requires forall a :: Earned(a, es) ==> Id(a) in held
    ensures NewAchievements(es, held) == []
  {
    assert Unlock(FirstEntry, es, held) == [] && Unlock(ConsistentTracker, es, held) == []
           && Unlock(EcoWarrior, es, held) == [] && Unlock(LowCarbon, es, held) == []
           && Unlock(CategoryMaster, es, held) == [];
  }

  /** A second check on the same entries unlocks nothing and changes nothing. */
  lemma AchievementsCheckedIdempotent(es: seq<Entry>, rd: Rewards)
    ensures var r := AchievementsChecked(es, rd).rewards;
            AchievementsChecked(es, r) == AchievementCheck(r, [])
  {
    if es != [] {
      var r := AchievementsChecked(es, rd).rewards;
      AchievementsCheckedProgress(es, rd);
      NothingNew(es, r.achievements);
      assert IdsOf([]) == [] && PointsOf([]) == 0;
      assert r.achievements + [] == r.achievements;
    }
  }

  /** The five checks of check_achievements, in order. */
  method UnlockedBy(data: seq<Entry>, held: seq<string>) returns (unlocked: seq<Achievement>)
    ensures unlocked == NewAchievements(data, held)
  {
    unlocked := [];
    if |data| >= 1 && "first_entry" !in held {
      unlocked := unlocked + [FirstEntry];
    }
    assert unlocked == Unlock(FirstEntry, data, held);
    if |data| >= 7 && "consistent_tracker" !in held {
      unlocked := unlocked + [ConsistentTracker];
    }
    assert unlocked == Unlock(FirstEntry, data, held) + Unlock(ConsistentTracker, data, held);
    if |data| >= 30 && "eco_warrior" !in held {
      unlocked := unlocked + [EcoWarrior];
    }
    assert unlocked == Unlock(FirstEntry, data, held) + Unlock(ConsistentTracker, data, held)
                       + Unlock(EcoWarrior, data, held);
    var lowCarbonDays := LowCarbonEntries(data);
    if |lowCarbonDays| >= 5 && "low_carbon" !in held {
      unlocked := unlocked + [LowCarbon];
    }
    assert unlocked == Unlock(FirstEntry, data, held) + Unlock(ConsistentTracker, data, held)
                       + Unlock(EcoWarrior, data, held) + Unlock(LowCarbon, data, held);
    var categoriesUsed := CategoriesUsed(data);
    if |categoriesUsed| >= 4 && "category_master" !in held {
      unlocked := unlocked + [CategoryMaster];
    }
  }

  /** check_achievements on the loaded entries and rewards: nothing without
      entries; otherwise the checks, then the awards, then the level from the
      new total. */
  method AwardAchievements(data: seq<Entry>, loaded: Rewards) returns (rd: Rewards, unlocked: seq<Achievement>)
    ensures AchievementCheck(rd, unlocked) == AchievementsChecked(data, loaded)
  {
    rd := loaded;
    unlocked := [];
    if data == [] {
      return;
    }
    unlocked := UnlockedBy(data, rd.achievements);
    var achievements, totalPoints := AddUnlocked(rd.achievements, rd.totalPoints, unlocked);
    rd := rd.(achievements := achievements, totalPoints := totalPoints, level := CalculateLevel(totalPoints));
  }

  /** The loop of check_achievements that appends each unlocked id and adds
      its points. */
  method AddUnlocked(held: seq<string>, points: int, unlocked: seq<Achievement>)
    returns (achievements: seq<string>, totalPoints: int)
    ensures achievements == held + IdsOf(unlocked)
    ensures totalPoints == points + PointsOf(unlocked)
  {
    achievements := held;
    totalPoints := points;
    var i := 0;
    while i < |unlocked|
      invariant 0 <= i <= |unlocked|
      invariant achievements == held + IdsOf(unlocked[..i])
      invariant totalPoints == points + PointsOf(unlocked[..i])
    {
      IdsAndPointsStep(unlocked, i);
      achievements := achievements + [Id(unlocked[i])];
      totalPoints := totalPoints + Points(unlocked[i]);
      i := i + 1;
    }
    assert unlocked[..i] == unlocked;
  }

  /** One more unlocked achievement appends its id and adds its points. */
  lemma IdsAndPointsStep(unlocked: seq<Achievement>, i: nat)
    requires i < |unlocked|
    ensures IdsOf(unlocked[..i + 1]) == IdsOf(unlocked[..i]) + [Id(unlocked[i])]
    ensures PointsOf(unlocked[..i + 1]) == PointsOf(unlocked[..i]) + Points(unlocked[i])
  {
    var next := unlocked[..i + 1];
    assert next[..|next| - 1] == unlocked[..i] && next[|next| - 1] == unlocked[i];
  }

  /** check_achievements: loads the user's entries and rewards and awards. */
  method CheckAchievements(db: DatabaseManager, username: string) returns (rd: Rewards, unlocked: seq<Achievement>)
    ensures AchievementCheck(rd, unlocked) == AchievementsChecked(EntriesOf(db.rows, username), db.RewardsOf(username))
  {
    var data := db.GetUserCo2Entries(username);
    var loaded := db.GetUserRewards(username);
    rd, unlocked := AwardAchievements(data, loaded);
  }

  // ---------------------------------------------------------------------
  // Weekly improvement

  /** Python's `int()` on a float: truncation toward zero. */
  function Trunc(x: real): (n: int)
    ensures 0.0 <= x ==> 0 <= n && n as real <= x < n as real + 1.0
    ensures x < 0.0 ==> n <= 0 && n as real - 1.0 < x <= n as real
  {
    if x >= 0.0 then x.Floor else -((-x).Floor)
  }

  /** The week key of an entry. */
  function WeekOfEntry(weekOf: Day -> WeekKey): Entry -> WeekKey
  {
    (e: Entry) => weekOf(e.date)
  }

  function WeekKeys(es: seq<Entry>, weekOf: Day -> WeekKey): (ks: seq<WeekKey>)
    ensures |ks| == |es| && forall i :: 0 <= i < |es| ==> ks[i] == weekOf(es[i].date)
  {
    if es == [] then [] else [weekOf(es[0].date)] + WeekKeys(es[1..], weekOf)
  }

  /** The greatest key, the last of `sorted(weekly_emissions.keys())`. */
  function LatestWeek(ks: seq<WeekKey>): (k: WeekKey)
    requires ks != []
    ensures k in ks && forall j :: j in ks ==> j == k || WeekKeyLess(j, k)
  {
    if |ks| == 1 then ks[0]
    else
      var rest := LatestWeek(ks[1..]);
      assert forall j :: j in ks ==> j == ks[0] || j in ks[1..];
      if WeekKeyLess(ks[0], rest) then rest else ks[0]
  }

  datatype Improvement = Improvement(reductionPercent: real, pointsEarned: int)

  /** The outcome of check_weekly_improvement: the rewards and the improvement
      found, or the ZeroDivisionError raised when the previous week sums to
      zero and the current one to less. */
  datatype WeeklyOutcome = Checked(rewards: Rewards, improvement: Option<Improvement>) | ZeroDivision

  /** The two latest distinct weeks among the keys, latest first, when there
      are two: the last two of `sorted(weekly_emissions.keys())`. */
  function LatestTwo(ks: seq<WeekKey>): (r: Option<(WeekKey, WeekKey)>)
    ensures r.None? ==> forall j, k :: j in ks && k in ks ==> j == k
    ensures r.Some? ==>
              r.value.0 in ks && r.value.1 in ks && WeekKeyLess(r.value.1, r.value.0)
              && forall k :: k in ks ==> k == r.value.0 || k == r.value.1 || WeekKeyLess(k, r.value.1)
  {
    if ks == [] then None
    else
      var latest := LatestWeek(ks);
      var earlier := Filter(ks, (k: WeekKey) => k != latest);
      assert forall k :: k in ks && k != latest ==> k in earlier by {
        forall k | k in ks && k != latest ensures k in earlier {
          FilterCount(ks, (k: WeekKey) => k != latest, k);
        }
      }
      if earlier == [] then None else Some((latest, LatestWeek(earlier)))
  }

  /** Every week key of the entries has a sum. */
  lemma {:induction false} WeekKeyInTotals(es: seq<Entry>, weekOf: Day -> WeekKey, k: WeekKey)
    requires k in WeekKeys(es, weekOf)
    ensures k in GroupTotals(es, WeekOfEntry(weekOf))
  {
    var i :| 0 <= i < |es| && WeekKeys(es, weekOf)[i] == k;
    assert WeekOfEntry(weekOf)(es[i]) == k;
    GroupTotalsKeys(es, WeekOfEntry(weekOf));
  }

  /** The comparison of the current week's sum with the previous week's: on a
      reduction, two points per percent (truncated) are added, and the week is
      kept as the best one when its reduction beats the stored one (0 when
      none is stored). */
  function Bonus(rd: Rewards, latest: WeekKey, current: real, previous: real): WeeklyOutcome
  {
    if !(current < previous) then Checked(rd, None)
    else if previous == 0.0 then ZeroDivision
    else
      var reduction := (previous - current) / previous * 100.0;
      var points := Trunc(reduction * 2.0);
      var rewarded := rd.(totalPoints := rd.totalPoints + points);
      if reduction > Get(rd.bestWeek.reduction, 0.0) then
        Checked(rewarded.(bestWeek := BestWeek(Some(latest), Some(reduction))), Some(Improvement(reduction, points)))
      else
        Checked(rewarded, Some(Improvement(reduction, points)))
  }

  /** The decision that follows the grouping. */
  function WeeklyDecision(es: seq<Entry>, weekly: map<WeekKey, real>, rd: Rewards, weekOf: Day -> WeekKey): WeeklyOutcome
    requires weekly == GroupTotals(es, WeekOfEntry(weekOf))
  {
    match LatestTwo(WeekKeys(es, weekOf))
    case None => Checked(rd, None)
    case Some((latest, previous)) =>
      WeekKeyInTotals(es, weekOf, latest);
      WeekKeyInTotals(es, weekOf, previous);
      Bonus(rd, latest, weekly[latest], weekly[previous])
  }

  /** check_weekly_improvement on entries `es` and rewards `rd`. */
  function WeeklyCheck(es: seq<Entry>, rd: Rewards, weekOf: Day -> WeekKey): WeeklyOutcome
  {
    if |es| < 14 then Checked(rd, None)
    else WeeklyDecision(es, GroupTotals(es, WeekOfEntry(weekOf)), rd, weekOf)
  }

  /** The weekly check on given entries and rewards. */
  method WeeklyImprovement(data: seq<Entry>, loaded: Rewards, weekOf: Day -> WeekKey) returns (outcome: WeeklyOutcome)
    ensures outcome == WeeklyCheck(data, loaded, weekOf)
  {
    if |data| < 14 {
      return Checked(loaded, None);
    }
    var weekly := WeekSums(data, weekOf);
    outcome := WeeklyDecision(data, weekly, loaded, weekOf);
  }

  /** The per-week sums, built by one pass over the entries (the defaultdict
      loop of check_weekly_improvement). */
  method WeekSums(data: seq<Entry>, weekOf: Day -> WeekKey) returns (weekly: map<WeekKey, real>)
    ensures weekly == GroupTotals(data, WeekOfEntry(weekOf))
  {
    weekly := map[];
    var i := 0;
    while i < |data|
      invariant 0 <= i <= |data|
      invariant weekly == GroupTotals(data[..i], WeekOfEntry(weekOf))
    {
      var weekKey := weekOf(data[i].date);
      WeekSumsStep(data, i, weekOf);
      weekly := weekly[weekKey := (if weekKey in weekly then weekly[weekKey] else 0.0) + data[i].co2Amount];
      i := i + 1;
    }
    assert data[..i] == data;
  }

  /** One more entry added to its week's running sum. */
  lemma WeekSumsStep(data: seq<Entry>, i: nat, weekOf: Day -> WeekKey)
    requires i < |data|
    ensures var m := GroupTotals(data[..i], WeekOfEntry(weekOf));
            var k := weekOf(data[i].date);
            GroupTotals(data[..i + 1], WeekOfEntry(weekOf)) == m[k := (if k in m then m[k] else 0.0) + data[i].co2Amount]
  {
    assert data[..i + 1] == data[..i] + [data[i]];
    GroupTotalsSnoc(data[..i], data[i], WeekOfEntry(weekOf));
  }

  /** check_weekly_improvement: loads the user's entries and rewards again and
      runs the weekly check. */
  method CheckWeeklyImprovement(db: DatabaseManager, username: string, weekOf: Day -> WeekKey)
    returns (outcome: WeeklyOutcome)
    ensures outcome == WeeklyCheck(EntriesOf(db.rows, username), db.RewardsOf(username), weekOf)
  {
    var data := db.GetUserCo2Entries(username);
    var loaded := db.GetUserRewards(username);
    outcome := WeeklyImprovement(data, loaded, weekOf);
  }

  /** Fewer than 14 entries, or all of them in one week, leave the rewards
      as they are and report no improvement. */
  lemma {:induction false} WeeklyNeedsTwoWeeks(es: seq<Entry>, rd: Rewards, weekOf: Day -> WeekKey)
    requires |es| < 14 || forall i, j :: 0 <= i < |es| && 0 <= j < |es| ==> weekOf(es[i].date) == weekOf(es[j].date)
    ensures WeeklyCheck(es, rd, weekOf) == Checked(rd, None)
  {
    if |es| >= 14 {
      var ks := WeekKeys(es, weekOf);
      assert forall j, k :: j in ks && k in ks ==> j == k by {
        forall j, k | j in ks && k in ks ensures j == k {
          var a :| 0 <= a < |ks| && ks[a] == j;
          var b :| 0 <= b < |ks| && ks[b] == k;
        }
      }
      assert LatestTwo(ks).None?;
    }
  }

  /** The weekly check only ever touches the points and the best week: the
      level is not recomputed, and achievements stay as loaded. */
  lemma {:induction false} WeeklyTouchesPointsAndBestWeek(es: seq<Entry>, rd: Rewards, weekOf: Day -> WeekKey)
    ensures var o := WeeklyCheck(es, rd, weekOf);
            o.Checked? ==> o.rewards.(totalPoints := rd.totalPoints, bestWeek := rd.bestWeek) == rd
    ensures var o := WeeklyCheck(es, rd, weekOf);
            o.Checked? && o.improvement.None? ==> o.rewards == rd
  {
    if |es| >= 14 {
      match LatestTwo(WeekKeys(es, weekOf))
      case None =>
      case Some((latest, previous)) =>
        var weekly := GroupTotals(es, WeekOfEntry(weekOf));
        WeekKeyInTotals(es, weekOf, latest);
        WeekKeyInTotals(es, weekOf, previous);
        BonusTouchesPointsAndBestWeek(rd, latest, weekly[latest], weekly[previous]);
    }
  }

  /** The comparison of two week sums changes only the points and the best
      week, and nothing when it finds no improvement. */
  lemma BonusTouchesPointsAndBestWeek(rd: Rewards, latest: WeekKey, current: real, previous: real)
    ensures var o := Bonus(rd, latest, current, previous);
            o.Checked? ==> o.rewards.(totalPoints := rd.totalPoints, bestWeek := rd.bestWeek) == rd
    ensures var o := Bonus(rd, latest, current, previous);
            o.Checked? && o.improvement.None? ==> o.rewards == rd
  {
  }

  /** The week sums of entries without negative amounts are not negative. */
  lemma {:induction false} WeekSumNonNegative(es: seq<Entry>, weekOf: Day -> WeekKey, k: WeekKey)
    requires forall i :: 0 <= i < |es| ==> es[i].co2Amount >= 0.0
    requires k in GroupTotals(es, WeekOfEntry(weekOf))
    ensures GroupTotals(es, WeekOfEntry(weekOf))[k] >= 0.0
  {
    var group := Filter(es, InGroup(WeekOfEntry(weekOf), k));
    GroupTotalsCorrect(es, WeekOfEntry(weekOf), k);
    forall i | 0 <= i < |group| ensures group[i].co2Amount >= 0.0 {
      assert group[i] in group;
    }
    TotalNonNegative(group);
  }

  /** The share of a reduction, in percent, lies in (0, 100]. */
  lemma ReductionBounds(previous: real, current: real)
    requires 0.0 <= current < previous
    ensures 0.0 < (previous - current) / previous * 100.0 <= 100.0
  {
    var share := (previous - current) / previous;
    assert share * previous == previous - current;
    assert 0.0 < share <= 1.0;
  }

  /** With sums that are not negative there is no division by zero; a
      reduction is between 0 and 100 percent, earns 0 to 200 points, which are
      added, and the stored best reduction becomes the larger of the old one
      and this one, with this week recorded when it wins. */
  lemma BonusBounded(rd: Rewards, latest: WeekKey, current: real, previous: real)
    requires 0.0 <= current && 0.0 <= previous
    ensures var o := Bonus(rd, latest, current, previous);
            o.Checked?
            && (o.improvement.Some? ==>
                  var imp := o.improvement.value;
                  0.0 < imp.reductionPercent <= 100.0
                  && 0 <= imp.pointsEarned <= 200
                  && o.rewards.totalPoints == rd.totalPoints + imp.pointsEarned
                  && Get(o.rewards.bestWeek.reduction, 0.0)
                     == (if imp.reductionPercent > Get(rd.bestWeek.reduction, 0.0) then imp.reductionPercent
                         else Get(rd.bestWeek.reduction, 0.0))
                  && (imp.reductionPercent > Get(rd.bestWeek.reduction, 0.0) ==> o.rewards.bestWeek.week == Some(latest)))
  {
    if current < previous {
      ReductionBounds(previous, current);
    }
  }

  /** A best week that changes records the latest week. */
  lemma BonusRecordsLatest(rd: Rewards, latest: WeekKey, current: real, previous: real)
    ensures var o := Bonus(rd, latest, current, previous);
            o.Checked? && o.rewards.bestWeek != rd.bestWeek ==> o.rewards.bestWeek.week == Some(latest)
  {
  }

  /** From 14 entries and two distinct weeks on, the weekly check is the
      comparison of the two latest week sums. */
  lemma {:induction false} WeeklyCheckIsBonus(es: seq<Entry>, rd: Rewards, weekOf: Day -> WeekKey, latest: WeekKey, previous: WeekKey)
    requires |es| >= 14 && LatestTwo(WeekKeys(es, weekOf)) == Some((latest, previous))
    ensures latest in GroupTotals(es, WeekOfEntry(weekOf)) && previous in GroupTotals(es, WeekOfEntry(weekOf))
    ensures WeeklyCheck(es, rd, weekOf)
            == Bonus(rd, latest, GroupTotals(es, WeekOfEntry(weekOf))[latest], GroupTotals(es, WeekOfEntry(weekOf))[previous])
  {
    WeekKeyInTotals(es, weekOf, latest);
    WeekKeyInTotals(es, weekOf, previous);
  }

  /** With no negative amounts there is no ZeroDivisionError, the bonus is
      bounded as in BonusBounded, and a best week that is replaced is the
      latest week of the entries. */
  lemma {:induction false} WeeklyBonusBounded(es: seq<Entry>, rd: Rewards, weekOf: Day -> WeekKey)
    requires forall i :: 0 <= i < |es| ==> es[i].co2Amount >= 0.0
    ensures var o := WeeklyCheck(es, rd, weekOf);
            o.Checked?
            && (o.improvement.Some? ==>
                  var imp := o.improvement.value;
                  0.0 < imp.reductionPercent <= 100.0
                  && 0 <= imp.pointsEarned <= 200
                  && o.rewards.totalPoints == rd.totalPoints + imp.pointsEarned
                  && Get(o.rewards.bestWeek.reduction, 0.0) >= Get(rd.bestWeek.reduction, 0.0)
                  && Get(o.rewards.bestWeek.reduction, 0.0) >= imp.reductionPercent)
    ensures var o := WeeklyCheck(es, rd, weekOf);
            o.Checked? && o.rewards.bestWeek != rd.bestWeek ==>
              o.rewards.bestWeek.week.Some?
              && forall i :: 0 <= i < |es| ==>
                   weekOf(es[i].date) == o.rewards.bestWeek.week.value
                   || WeekKeyLess(weekOf(es[i].date), o.rewards.bestWeek.week.value)
  {
    var ks := WeekKeys(es, weekOf);
    if |es| >= 14 && LatestTwo(ks).Some? {
      var latest := LatestTwo(ks).value.0;
      var previous := LatestTwo(ks).value.1;
      WeeklyCheckIsBonus(es, rd, weekOf, latest, previous);
      var weekly := GroupTotals(es, WeekOfEntry(weekOf));
      WeekSumNonNegative(es, weekOf, latest);
      WeekSumNonNegative(es, weekOf, previous);
      BonusBounded(rd, latest, weekly[latest], weekly[previous]);
      BonusRecordsLatest(rd, latest, weekly[latest], weekly[previous]);
      forall i | 0 <= i < |es| ensures weekOf(es[i].date) == latest || WeekKeyLess(weekOf(es[i].date), latest) {
        assert ks[i] in ks;
      }
    }
  }

  /** Every visit grants the bonus again: the same entries checked against the
      rewards already updated report the same improvement and add its points
      once more. */
  lemma {:induction false} WeeklyBonusRepeats(es: seq<Entry>, rd: Rewards, weekOf: Day -> WeekKey)
    requires WeeklyCheck(es, rd, weekOf).Checked? && WeeklyCheck(es, rd, weekOf).improvement.Some?
    ensures var first := WeeklyCheck(es, rd, weekOf);
            var second := WeeklyCheck(es, first.rewards, weekOf);
            second.Checked? && second.improvement == first.improvement
            && second.rewards.totalPoints == first.rewards.totalPoints + first.improvement.value.pointsEarned
  {
  }

  // ---------------------------------------------------------------------
  // The rewards page

  /** show_rewards_dashboard as written: check_achievements, then
      check_weekly_improvement, which loads the rewards from the store again,
      then the save of what the weekly check returned. A ZeroDivisionError
      ends the page before the save. */
  method ShowRewardsDashboard(db: DatabaseManager, username: string, weekOf: Day -> WeekKey)
    returns (unlocked: seq<Achievement>, outcome: WeeklyOutcome)
    requires db.Valid()
    modifies db
    ensures db.Valid()
    ensures unlocked == AchievementsChecked(EntriesOf(old(db.rows), username), old(db.RewardsOf(username))).unlocked
    ensures outcome == WeeklyCheck(EntriesOf(old(db.rows), username), old(db.RewardsOf(username)), weekOf)
    ensures outcome.Checked? ==> db.rewards == old(db.rewards)[username := outcome.rewards]
    ensures outcome.ZeroDivision? ==> db.rewards == old(db.rewards)
    ensures db.users == old(db.users) && db.rows == old(db.rows) && db.nextId == old(db.nextId)
  {
    var rd;
    rd, unlocked := CheckAchievements(db, username);
    outcome := CheckWeeklyImprovement(db, username, weekOf);
    if outcome.ZeroDivision? {
      return;
    }
    var ok := db.SaveUserRewards(username, Full(outcome.rewards));
  }

  /** What the page saves as written is the weekly check of the reloaded
      rewards: a new user with fewer than 14 entries is told "first_entry" is
      unlocked, yet the record saved holds no achievement and no points, so the
      same achievement is announced again on every visit. */
  lemma {:induction false} ReloadDropsAchievements(es: seq<Entry>, weekOf: Day -> WeekKey)
    requires 1 <= |es| < 14
    ensures FirstEntry in AchievementsChecked(es, DefaultRewards()).unlocked
    ensures WeeklyCheck(es, DefaultRewards(), weekOf) == Checked(DefaultRewards(), None)
    ensures Applied(Full(DefaultRewards())).achievements == []
    ensures FirstEntry in AchievementsChecked(es, Applied(Full(DefaultRewards()))).unlocked
  {
    NewAchievementsExactly(es, []);
  }

  /** The page with the checks chained as intended: the weekly check runs on
      the rewards check_achievements returned, and that is saved. */
  method ShowRewardsDashboardChained(db: DatabaseManager, username: string, weekOf: Day -> WeekKey)
    returns (unlocked: seq<Achievement>, outcome: WeeklyOutcome)
    requires db.Valid()
    modifies db
    ensures db.Valid()
    ensures var checked := AchievementsChecked(EntriesOf(old(db.rows), username), old(db.RewardsOf(username)));
            unlocked == checked.unlocked
            && outcome == WeeklyCheck(EntriesOf(old(db.rows), username), checked.rewards, weekOf)
    ensures outcome.Checked? ==> db.rewards == old(db.rewards)[username := outcome.rewards]
    ensures outcome.ZeroDivision? ==> db.rewards == old(db.rewards)
    ensures db.users == old(db.users) && db.rows == old(db.rows) && db.nextId == old(db.nextId)
  {
    var rd;
    rd, unlocked := CheckAchievements(db, username);
    var data := db.GetUserCo2Entries(username);
    outcome := WeeklyImprovement(data, rd, weekOf);
    if outcome.ZeroDivision? {
      return;
    }
    var ok := db.SaveUserRewards(username, Full(outcome.rewards));
  }

  /** Chained, the saved record holds every achievement the entries earn, and
      the next visit unlocks nothing new. */
  lemma {:induction false} ChainedKeepsAchievements(es: seq<Entry>, rd: Rewards, weekOf: Day -> WeekKey)
    requires es != []
    requires WeeklyCheck(es, AchievementsChecked(es, rd).rewards, weekOf).Checked?
    ensures var saved := Applied(Full(WeeklyCheck(es, AchievementsChecked(es, rd).rewards, weekOf).rewards));
            (forall a :: Earned(a, es) ==> Id(a) in saved.achievements)
            && AchievementsChecked(es, saved).unlocked == []
  {
    var checked := AchievementsChecked(es, rd).rewards;
    AchievementsCheckedProgress(es, rd);
    WeeklyTouchesPointsAndBestWeek(es, checked, weekOf);
    var weekly := WeeklyCheck(es, checked, weekOf).rewards;
    var saved := Applied(Full(weekly));
    assert saved == weekly;
    assert saved.achievements == checked.achievements;
    NothingNew(es, saved.achievements);
  }
}
