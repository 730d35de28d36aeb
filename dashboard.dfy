/** The figures of the dashboard (dashboard.py): total and daily average with
    their colour bands, the entry count, the most common category, the sums
    per day, per category and per month behind the charts, and the five most
    recent entries. Charts and HTML are left out; what they are drawn from is
    modelled. */
module Dashboard {
  import opened Entries

  // ---------------------------------------------------------------------
  // Sums per day, per category and per month behind the charts
  // (`to_period('M')` is given as `monthOf`)

  function DateOf(e: Entry): Day
  {
    e.date
  }

  function CategoryOf(e: Entry): string
  {
    e.category
  }

  function DailyTotals(es: seq<Entry>): map<Day, real>
  {
    GroupTotals(es, DateOf)
  }

  function CategoryTotals(es: seq<Entry>): map<string, real>
  {
    GroupTotals(es, CategoryOf)
  }

  function MonthlyTotals(es: seq<Entry>, monthOf: Day -> MonthKey): map<MonthKey, real>
  {
    GroupTotals(es, (e: Entry) => monthOf(e.date))
  }

  // ---------------------------------------------------------------------
  // Colour bands of the metric cards

  datatype Shade = Green | Orange | Red | DarkGreen

  /** The traffic-light colour of an amount: green below `low`, orange below
      `high`, red from there on. */
  function Traffic(x: real, low: real, high: real): Shade
  {
    if x < low then Green else if x < high then Orange else Red
  }

  function Severity(s: Shade): nat
  {
    match s
    case Green => 0
    case DarkGreen => 0
    case Orange => 1
    case Red => 2
  }

  /** More emissions never show a milder colour. */
  lemma TrafficMonotone(x: real, y: real, low: real, high: real)
    requires x <= y && low <= high
    ensures Severity(Traffic(x, low, high)) <= Severity(Traffic(y, low, high))
  {
  }

  function TotalShade(total: real): Shade
  {
    Traffic(total, 50.0, 150.0)
  }

  function AverageShade(average: real): Shade
  {
    Traffic(average, 5.0, 10.0)
  }

  /** The entry-count card: green above 20 entries, orange above 5, dark green
      otherwise. */
  function EntryCountShade(n: nat): (s: Shade)
    ensures s == Green <==> n > 20
    ensures s == Orange <==> 5 < n <= 20
    ensures s == DarkGreen <==> n <= 5
  {
    if n > 20 then Green else if n > 5 then Orange else DarkGreen
  }

  // ---------------------------------------------------------------------
  // Days tracked and daily average

  function MaxDate(es: seq<Entry>): (d: Day)
    requires es != []
    ensures exists i :: 0 <= i < |es| && es[i].date == d
    ensures forall i :: 0 <= i < |es| ==> es[i].date <= d
  {
    if |es| == 1 then es[0].date
    else
      var d := MaxDate(es[1..]);
      assert forall i :: 1 <= i < |es| ==> es[i] == es[1..][i - 1];
      if es[0].date >= d then es[0].date else d
  }

  function MinDate(es: seq<Entry>): (d: Day)
    requires es != []
    ensures exists i :: 0 <= i < |es| && es[i].date == d
    ensures forall i :: 0 <= i < |es| ==> d <= es[i].date
  {
    if |es| == 1 then es[0].date
    else
      var d := MinDate(es[1..]);
      assert forall i :: 1 <= i < |es| ==> es[i] == es[1..][i - 1];
      if es[0].date <= d then es[0].date else d
  }

  /** Days from the first to the last entry, both included. */
  function DaysTracked(es: seq<Entry>): (n: int)
    requires es != []
    ensures n >= 1
    ensures forall i, j :: 0 <= i < |es| && 0 <= j < |es| ==> es[i].date - es[j].date < n
  {
    MaxDate(es) - MinDate(es) + 1
  }

  /** The total divided by the days tracked (never fewer than one); 0 without
      entries. */
  function DailyAverage(es: seq<Entry>): real
  {
    if es == [] then 0.0
    else
      var days := DaysTracked(es);
      Total(es) / (if days > 1 then days else 1) as real
  }

  /** The average is the total over the days tracked (the guard against
      fewer than one day never applies), and with no negative amounts it lies
      between zero and the total. */
  lemma DailyAverageBounds(es: seq<Entry>)
    requires es != []
    ensures DailyAverage(es) == Total(es) / DaysTracked(es) as real
    ensures (forall i :: 0 <= i < |es| ==> es[i].co2Amount >= 0.0) ==> 0.0 <= DailyAverage(es) <= Total(es)
  {
    var d := DaysTracked(es);
    assert (if d > 1 then d else 1) == d;
    if forall i :: 0 <= i < |es| ==> es[i].co2Amount >= 0.0 {
      TotalNonNegative(es);
      AverageBelowTotal(Total(es), d as real);
    }
  }

  lemma SpreadBack(total: real, days: real)
    requires days >= 1.0
    ensures total / days * days == total
  {
  }

  lemma AverageBelowTotal(total: real, days: real)
    requires total >= 0.0 && days >= 1.0
    ensures 0.0 <= total / days <= total
  {
    var average := total / days;
    SpreadBack(total, days);
    assert total - average == average * (days - 1.0);
    MulNonNegativeReal(average, days - 1.0);
  }

  lemma MulNonNegativeReal(a: real, b: real)
    requires a >= 0.0 && b >= 0.0
    ensures a * b >= 0.0
  {
  }

  // ---------------------------------------------------------------------
  // Most common category (pandas `mode().iloc[0]`: the most frequent
  // categories, sorted, first one taken)

  /** Python's string order: by code points, a prefix before its extensions. */
  predicate LexLe(a: string, b: string)
  {
    a == [] || (b != [] && (a[0] < b[0] || (a[0] == b[0] && LexLe(a[1..], b[1..]))))
  }

  lemma {:induction false} LexLeReflexive(a: string)
    ensures LexLe(a, a)
  {
    if a != [] {
      LexLeReflexive(a[1..]);
    }
  }

  lemma {:induction false} LexLeTotal(a: string, b: string)
    ensures LexLe(a, b) || LexLe(b, a)
  {
    if a != [] && b != [] && a[0] == b[0] {
      LexLeTotal(a[1..], b[1..]);
    }
  }

  lemma {:induction false} LexLeTransitive(a: string, b: string, c: string)
    requires LexLe(a, b) && LexLe(b, c)
    ensures LexLe(a, c)
  {
    if a != [] && b != [] && c != [] && a[0] == b[0] && b[0] == c[0] {
      LexLeTransitive(a[1..], b[1..], c[1..]);
    }
  }

  function Categories(es: seq<Entry>): (cats: seq<string>)
    ensures |cats| == |es| && forall i :: 0 <= i < |es| ==> cats[i] == es[i].category
  {
    if es == [] then [] else [es[0].category] + Categories(es[1..])
  }

  /** Among `cats`, the one occurring most often in `counts`; of equally
      frequent ones, the first in string order. */
  function MostFrequent(cats: seq<string>, counts: multiset<string>): (r: string)
    requires cats != []
    ensures r in cats
    ensures forall c :: c in cats ==> counts[c] <= counts[r]
    ensures forall c :: c in cats && counts[c] == counts[r] ==> LexLe(r, c)
  {
    if |cats| == 1 then
      LexLeReflexive(cats[0]);
      cats[0]
    else
      var c := cats[0];
      var b := MostFrequent(cats[1..], counts);
      assert forall x :: x in cats ==> x == c || x in cats[1..];
      if counts[c] > counts[b] || (counts[c] == counts[b] && LexLe(c, b)) then
        LexLeReflexive(c);
        forall x | x in cats[1..] && counts[x] == counts[c] ensures LexLe(c, x) {
          LexLeTransitive(c, b, x);
        }
        c
      else
        LexLeTotal(c, b);
        b
  }

  /** The "Top Category" card: "N/A" without entries. */
  function TopCategory(es: seq<Entry>): string
  {
    if es == [] then "N/A" else MostFrequent(Categories(es), multiset(Categories(es)))
  }

  /** The top category is the category of some entry, no category has more
      entries, and it comes first in string order among the equally
      frequent ones. */
  lemma TopCategoryIsMode(es: seq<Entry>)
    requires es != []
    ensures var top := TopCategory(es);
            var counts := multiset(Categories(es));
            (exists i :: 0 <= i < |es| && es[i].category == top)
            && (forall i :: 0 <= i < |es| ==> counts[es[i].category] <= counts[top])
            && (forall i :: 0 <= i < |es| && counts[es[i].category] == counts[top] ==> LexLe(top, es[i].category))
  {
    var cats := Categories(es);
    var top := TopCategory(es);
    var k :| 0 <= k < |cats| && cats[k] == top;
    assert es[k].category == top;
    forall i | 0 <= i < |es| ensures cats[i] in cats {
    }
  }

  // ---------------------------------------------------------------------
  // Recent activities (`df.tail(5).sort_values('date', ascending=False)`)

  function Last<T>(s: seq<T>, n: nat): (r: seq<T>)
    ensures |r| == if |s| < n then |s| else n
    ensures r == s[|s| - |r|..]
  {
    if |s| < n then s else s[|s| - n..]
  }

  /** The five latest entries of the date-sorted data, newest first. */
  function RecentActivities(sorted: seq<Entry>): seq<Entry>
  {
    SortByDate(Last(sorted, 5), true)
  }

  /** Of oldest-first data, at most five entries are shown, newest first;
      each is one of the entries, and no entry left out is later than an entry
      shown. */
  lemma RecentActivitiesAreLatest(data: seq<Entry>)
    ensures var sorted := SortByDate(data, false);
            var recent := RecentActivities(sorted);
            |recent| == (if |data| < 5 then |data| else 5)
            && SortedByDate(recent, true)
            && multiset(recent) <= multiset(data)
            && forall x, y :: x in multiset(data) - multiset(recent) && y in recent ==> x.date <= y.date
  {
    var sorted := SortByDate(data, false);
    var tail := Last(sorted, 5);
    var k := |sorted| - |tail|;
    var head := sorted[..k];
    var recent := RecentActivities(sorted);
    assert |sorted| == |data| by {
      assert |multiset(sorted)| == |multiset(data)|;
    }
    assert |recent| == |tail| by {
      assert |multiset(recent)| == |multiset(tail)|;
    }
    assert multiset(data) - multiset(recent) == multiset(head) by {
      SplitMultiset(sorted, k);
    }
    EarlierPartNotLater(sorted, k);
    forall x: Entry, y: Entry | x in multiset(head) && y in recent ensures x.date <= y.date {
      assert x in head;
      assert y in multiset(tail);
    }
  }

  lemma SplitMultiset(s: seq<Entry>, k: nat)
    requires k <= |s|
    ensures multiset(s) == multiset(s[..k]) + multiset(s[k..])
  {
    assert s == s[..k] + s[k..];
  }

  /** In oldest-first data, everything before position `k` is no later than
      anything from `k` on. */
  lemma EarlierPartNotLater(s: seq<Entry>, k: nat)
    requires k <= |s| && SortedByDate(s, false)
    ensures forall x, y :: x in s[..k] && y in s[k..] ==> x.date <= y.date
  {
    forall x, y | x in s[..k] && y in s[k..] ensures x.date <= y.date {
      var i :| 0 <= i < k && s[..k][i] == x;
      var j :| 0 <= j < |s| - k && s[k..][j] == y;
      assert s[i] == x && s[k + j] == y;
    }
  }

  // ---------------------------------------------------------------------
  // The dashboard as a whole

  datatype View =
    | GettingStarted
    | Overview(total: real, totalShade: Shade, dailyAverage: real, averageShade: Shade,
               entryCount: nat, entryShade: Shade, topCategory: string,
               daily: map<Day, real>, byCategory: map<string, real>,
               monthly: map<MonthKey, real>, recent: seq<Entry>)

  /** What the dashboard shows for a user's entries: the getting-started page
      when there are none, otherwise the figures of the date-sorted data. */
  function ShowDashboard(data: seq<Entry>, monthOf: Day -> MonthKey): View
  {
    if data == [] then GettingStarted
    else
      var df := SortByDate(data, false);
      var total := Total(df);
      var average := DailyAverage(df);
      Overview(total, TotalShade(total), average, AverageShade(average),
               |df|, EntryCountShade(|df|), TopCategory(df),
               DailyTotals(df), CategoryTotals(df), MonthlyTotals(df, monthOf),
               RecentActivities(df))
  }

  /** Sorting by date changes none of the figures: the total, the entry count
      and every group sum are those of the stored entries. */
  lemma DashboardFiguresOfData(data: seq<Entry>, monthOf: Day -> MonthKey, day: Day, category: string, month: MonthKey)
    requires data != []
    ensures var v := ShowDashboard(data, monthOf);
            v.Overview? && v.total == Total(data) && v.entryCount == |data|
            && (day in v.daily ==> v.daily[day] == Total(Filter(data, InGroup(DateOf, day))))
            && (category in v.byCategory ==> v.byCategory[category] == Total(Filter(data, InGroup(CategoryOf, category))))
            && (month in v.monthly
                ==> v.monthly[month] == Total(Filter(data, InGroup((e: Entry) => monthOf(e.date), month))))
  {
    var df := SortByDate(data, false);
    TotalPermutation(df, data);
    assert |df| == |multiset(df)| == |data|;
    var v := ShowDashboard(data, monthOf);
    if day in v.daily {
      SortedGroupTotals(data, DateOf, day);
    }
    if category in v.byCategory {
      SortedGroupTotals(data, CategoryOf, category);
    }
    if month in v.monthly {
      SortedGroupTotals(data, (e: Entry) => monthOf(e.date), month);
    }
  }

  /** The daily, per-category and monthly charts each split the total: the
      bars of every chart add up to the total emissions shown. */
  lemma {:induction false} ChartsAddUpToTotal(data: seq<Entry>, monthOf: Day -> MonthKey)
    requires data != []
    ensures var v := ShowDashboard(data, monthOf);
            v.Overview? && MapSum(v.daily) == v.total && MapSum(v.byCategory) == v.total
            && MapSum(v.monthly) == v.total
  {
    var df := SortByDate(data, false);
    GroupTotalsAddUp(df, DateOf);
    GroupTotalsAddUp(df, CategoryOf);
    GroupTotalsAddUp(df, (e: Entry) => monthOf(e.date));
  }

  /** A group sum of the date-sorted entries is the total of that group of the
      stored entries. */
  lemma SortedGroupTotals<K(!new)>(data: seq<Entry>, key: Entry -> K, k: K)
    requires k in GroupTotals(SortByDate(data, false), key)
    ensures GroupTotals(SortByDate(data, false), key)[k] == Total(Filter(data, InGroup(key, k)))
  {
    var df := SortByDate(data, false);
    var p := InGroup(key, k);
    GroupTotalsCorrect(df, key, k);
    FilterPermutation(df, data, p);
    TotalPermutation(Filter(df, p), Filter(data, p));
  }
}
