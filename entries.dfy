/** The shared data model of the tracker: the CO₂ entry record as the store
    hands it out, calendar keys, totals, the stable sort by date used by the
    history view and the dashboard, and Python's `str.strip()`. */
module Entries {

  datatype Option<+T> = None | Some(value: T)

  /** A calendar date as a day number. Entries keep their date as an ISO
      `YYYY-MM-DD` string, and those strings order exactly as the day numbers do. */
  type Day = int

  /** A point in time (the `timestamp` column), already parsed. */
  type Timestamp = int

  /** `strftime('%Y-%W')` of the Monday that starts a week: a (year, week) pair,
      ordered lexicographically as the key strings are. */
  datatype WeekKey = WeekKey(year: int, week: int)

  /** `to_period('M')` of a date: a (year, month) pair. */
  datatype MonthKey = MonthKey(year: int, month: int)

  predicate WeekKeyLess(a: WeekKey, b: WeekKey)
  {
    a.year < b.year || (a.year == b.year && a.week < b.week)
  }

  /** One value of the open `attributes` JSON map. */
  datatype AttrValue = AText(text: string) | ANumber(number: real) | AFlag(flag: bool)

  type Attributes = map<string, AttrValue>

  /** One CO₂ entry as a dictionary returned by the store. A column whose value
      is None is left out of that dictionary; here it is `None`. The date,
      activity, category, amount, entry type and timestamp are never None. */
  datatype Entry = Entry(
    id: nat,
    date: Day,
    activity: string,
    category: string,
    co2Amount: real,
    quantity: Option<real>,
    distance: Option<real>,
    duration: Option<real>,
    participants: Option<int>,
    location: Option<string>,
    weather: Option<string>,
    purpose: Option<string>,
    efficiency: Option<string>,
    notes: Option<string>,
    entryType: string,
    attributes: Option<Attributes>,
    timestamp: Timestamp)

  /** `sum(entry['co2_amount'] for entry in entries)`, added left to right. */
  function Total(es: seq<Entry>): real
  {
    if es == [] then 0.0 else Total(es[..|es| - 1]) + es[|es| - 1].co2Amount
  }

  lemma {:induction false} TotalConcat(a: seq<Entry>, b: seq<Entry>)
    ensures Total(a + b) == Total(a) + Total(b)
  {
    if b == [] {
      assert a + b == a;
    } else {
      assert (a + b)[..|a + b| - 1] == a + b[..|b| - 1];
      TotalConcat(a, b[..|b| - 1]);
    }
  }

  lemma {:induction false} TotalNonNegative(es: seq<Entry>)
    requires forall i :: 0 <= i < |es| ==> es[i].co2Amount >= 0.0
    ensures Total(es) >= 0.0
  {
    if es != [] {
      TotalNonNegative(es[..|es| - 1]);
    }
  }

  // ---------------------------------------------------------------------
  // Filtering (Python list comprehensions with a condition)

  function Filter<T>(s: seq<T>, p: T -> bool): (r: seq<T>)
    ensures |r| <= |s|
    ensures forall x :: x in r ==> x in s && p(x)
  {
    if s == [] then [] else (if p(s[0]) then [s[0]] else []) + Filter(s[1..], p)
  }

  /** An element occurs in the filtered sequence as often as in the input when
      it passes the test, and not at all otherwise. */
  lemma {:induction false} FilterCount<T>(s: seq<T>, p: T -> bool, x: T)
    ensures multiset(Filter(s, p))[x] == if p(x) then multiset(s)[x] else 0
  {
    if s != [] {
      FilterCount(s[1..], p, x);
      assert s == [s[0]] + s[1..];
    }
  }

  /** Filtering two arrangements of the same entries keeps the same entries. */
  lemma FilterPermutation(a: seq<Entry>, b: seq<Entry>, p: Entry -> bool)
    requires multiset(a) == multiset(b)
    ensures multiset(Filter(a, p)) == multiset(Filter(b, p))
  {
    forall x
      ensures multiset(Filter(a, p))[x] == multiset(Filter(b, p))[x]
    {
      FilterCount(a, p, x);
      FilterCount(b, p, x);
      assert multiset(a)[x] == multiset(b)[x];
    }
    assert multiset(Filter(a, p)) == multiset(Filter(b, p));
  }

  /** A test and its negation split the entries: each entry lands on exactly
      one side, so the sizes and the totals of the two sides add up. */
  lemma FilterSplits(es: seq<Entry>, p: Entry -> bool, q: Entry -> bool)
    requires forall e :: q(e) == !p(e)
    ensures multiset(Filter(es, p)) + multiset(Filter(es, q)) == multiset(es)
    ensures |Filter(es, p)| + |Filter(es, q)| == |es|
    ensures Total(Filter(es, p)) + Total(Filter(es, q)) == Total(es)
  {
    var a := Filter(es, p);
    var b := Filter(es, q);
    forall x
      ensures (multiset(a) + multiset(b))[x] == multiset(es)[x]
    {
      FilterCount(es, p, x);
      FilterCount(es, q, x);
    }
    assert multiset(a) + multiset(b) == multiset(es);
    assert multiset(a + b) == multiset(es);
    assert |multiset(a + b)| == |es|;
    TotalPermutation(a + b, es);
    TotalConcat(a, b);
  }

  // ---------------------------------------------------------------------
  // Stable sorting by date (Python `sorted(..., key=date[, reverse=True])`)

  /** `a` may stand before `b` in a list sorted by date, oldest first or
      newest first. */
  predicate Precedes(a: Entry, b: Entry, newestFirst: bool)
  {
    if newestFirst then a.date >= b.date else a.date <= b.date
  }

  predicate SortedByDate(s: seq<Entry>, newestFirst: bool)
  {
    forall i, j :: 0 <= i < j < |s| ==> Precedes(s[i], s[j], newestFirst)
  }

  /** Inserts `x` before the first entry it may precede, so that `x` stays
      ahead of entries with the same date (stability). */
  function Insert(x: Entry, s: seq<Entry>, newestFirst: bool): (r: seq<Entry>)
    ensures multiset(r) == multiset(s) + multiset{x}
  {
    if s == [] || Precedes(x, s[0], newestFirst) then
      [x] + s
    else
      assert s == [s[0]] + s[1..];
      [s[0]] + Insert(x, s[1..], newestFirst)
  }

  lemma {:induction false} InsertSorted(x: Entry, s: seq<Entry>, newestFirst: bool)
    requires SortedByDate(s, newestFirst)
    ensures SortedByDate(Insert(x, s, newestFirst), newestFirst)
  {
    if s != [] && !Precedes(x, s[0], newestFirst) {
      InsertSorted(x, s[1..], newestFirst);
      var rest := Insert(x, s[1..], newestFirst);
      forall y | y in rest ensures Precedes(s[0], y, newestFirst) {
        assert y in multiset(rest);
        if y != x {
          assert y in multiset(s[1..]);
          var k :| 0 <= k < |s[1..]| && s[1..][k] == y;
          assert s[k + 1] == y;
        }
      }
    }
  }

  /** Sorts by date; entries with the same date keep their input order
      (SortByDateStable). */
  function SortByDate(s: seq<Entry>, newestFirst: bool): (r: seq<Entry>)
    ensures multiset(r) == multiset(s)
    ensures SortedByDate(r, newestFirst)
  {
    if s == [] then []
    else
      assert s == [s[0]] + s[1..];
      InsertSorted(s[0], SortByDate(s[1..], newestFirst), newestFirst);
      Insert(s[0], SortByDate(s[1..], newestFirst), newestFirst)
  }

  /** The test that selects the entries of one date. */
  function OnDate(d: Day): Entry -> bool
  {
    (e: Entry) => e.date == d
  }

  /** Inserting passes over entries of other dates only, so among the
      entries of one date `x` comes first and the others keep their order. */
  lemma InsertOnDate(x: Entry, s: seq<Entry>, newestFirst: bool, d: Day)
    ensures Filter(Insert(x, s, newestFirst), OnDate(d))
            == (if x.date == d then [x] else []) + Filter(s, OnDate(d))
  {
    InsertFilter(x, s, newestFirst, OnDate(d));
  }

  /** Inserting under a test that `x` passes only together with entries it
      may precede: among the entries that pass, `x` comes first. */
  lemma {:induction false} InsertFilter(x: Entry, s: seq<Entry>, newestFirst: bool, p: Entry -> bool)
    requires forall y :: p(x) && p(y) ==> Precedes(x, y, newestFirst)
    ensures Filter(Insert(x, s, newestFirst), p) == (if p(x) then [x] else []) + Filter(s, p)
  {
    if s == [] || Precedes(x, s[0], newestFirst) {
      assert Insert(x, s, newestFirst) == [x] + s;
      FilterCons(x, s, p);
    } else {
      InsertFilter(x, s[1..], newestFirst, p);
      assert Insert(x, s, newestFirst) == [s[0]] + Insert(x, s[1..], newestFirst);
      assert s == [s[0]] + s[1..];
      FilterPastOther(x, s[0], Insert(x, s[1..], newestFirst), s[1..], p);
    }
  }

  /** The step of InsertFilter past an entry `y` that `x` may not precede,
      stated over the sequences alone: `y` and `x` never both pass. */
  lemma FilterPastOther<T>(x: T, y: T, rest: seq<T>, tail: seq<T>, p: T -> bool)
    requires !(p(x) && p(y))
    requires Filter(rest, p) == (if p(x) then [x] else []) + Filter(tail, p)
    ensures Filter([y] + rest, p) == (if p(x) then [x] else []) + Filter([y] + tail, p)
  {
    var a := Filter(rest, p);
    var b := Filter(tail, p);
    FilterCons(y, rest, p);
    FilterCons(y, tail, p);
    if p(x) {
      assert [] + a == a && [] + b == b;
      assert Filter([y] + rest, p) == a;
      assert Filter([y] + tail, p) == b;
      assert a == [x] + b;
    } else {
      var h: seq<T> := if p(y) then [y] else [];
      assert [] + b == b && [] + (h + b) == h + b;
      assert a == b;
      assert Filter([y] + rest, p) == h + a;
      assert Filter([y] + tail, p) == h + b;
    }
  }

  lemma FilterCons<T>(x: T, s: seq<T>, p: T -> bool)
    ensures Filter([x] + s, p) == (if p(x) then [x] else []) + Filter(s, p)
  {
    var r := [x] + s;
    assert r[0] == x && r[1..] == s;
  }

  /** The sort is stable: the entries of any one date come out in the order
      they went in. */
  lemma {:induction false} SortByDateStable(s: seq<Entry>, newestFirst: bool, d: Day)
    ensures Filter(SortByDate(s, newestFirst), OnDate(d)) == Filter(s, OnDate(d))
  {
    if s != [] {
      SortByDateStable(s[1..], newestFirst, d);
      InsertOnDate(s[0], SortByDate(s[1..], newestFirst), newestFirst, d);
    }
  }

  lemma {:induction false} FilterSorted(s: seq<Entry>, p: Entry -> bool, newestFirst: bool)
    requires SortedByDate(s, newestFirst)
    ensures SortedByDate(Filter(s, p), newestFirst)
  {
    if s != [] {
      FilterSorted(s[1..], p, newestFirst);
      var tail := Filter(s[1..], p);
      forall y | y in tail ensures Precedes(s[0], y, newestFirst) {
        var k :| 0 <= k < |s[1..]| && s[1..][k] == y;
        assert s[k + 1] == y;
      }
    }
  }

  // ---------------------------------------------------------------------
  // Sums that do not depend on the order of the entries

  /** Taking out one entry of `b` equal to the last of `a` leaves the same
      entries as the rest of `a`. */
  lemma RemoveOneMultiset(a: seq<Entry>, b: seq<Entry>, i: nat)
    requires multiset(a) == multiset(b) && a != [] && i < |b| && b[i] == a[|a| - 1]
    ensures multiset(b[..i] + b[i + 1..]) == multiset(a[..|a| - 1])
  {
    var x := b[i];
    var rest := b[..i] + b[i + 1..];
    assert a == a[..|a| - 1] + [x];
    assert b == b[..i] + [x] + b[i + 1..];
    assert multiset(b) == multiset(b[..i]) + multiset{x} + multiset(b[i + 1..]);
    assert multiset(a) == multiset(a[..|a| - 1]) + multiset{x};
    assert multiset(rest) == multiset(b[..i]) + multiset(b[i + 1..]);
    forall y ensures multiset(rest)[y] == multiset(a[..|a| - 1])[y] {
      assert multiset(a)[y] == multiset(b)[y];
    }
  }

  /** Taking out one entry lowers the total by exactly its amount. */
  lemma RemoveOneTotal(b: seq<Entry>, i: nat)
    requires i < |b|
    ensures Total(b) == Total(b[..i] + b[i + 1..]) + b[i].co2Amount
  {
    var x := b[i];
    assert b == b[..i] + [x] + b[i + 1..];
    TotalConcat(b[..i] + [x], b[i + 1..]);
    TotalConcat(b[..i], [x]);
    TotalConcat(b[..i], b[i + 1..]);
    assert Total([x]) == x.co2Amount by {
      assert [x][..0] == [];
    }
  }

  /** The same entries in any order add up to the same total. */
  lemma {:induction false} TotalPermutation(a: seq<Entry>, b: seq<Entry>)
    requires multiset(a) == multiset(b)
    ensures Total(a) == Total(b)
    decreases |a|
  {
    if a == [] {
      assert |b| == |multiset(b)| == 0;
    } else {
      var x := a[|a| - 1];
      assert a == a[..|a| - 1] + [x];
      assert x in multiset(b);
      var i :| 0 <= i < |b| && b[i] == x;
      var rest := b[..i] + b[i + 1..];
      RemoveOneMultiset(a, b, i);
      TotalPermutation(a[..|a| - 1], rest);
      RemoveOneTotal(b, i);
    }
  }

  lemma {:induction false} FilterAppend<T>(s: seq<T>, x: T, p: T -> bool)
    ensures Filter(s + [x], p) == Filter(s, p) + (if p(x) then [x] else [])
  {
    if s == [] {
      assert [] + [x] == [x];
    } else {
      assert (s + [x])[1..] == s[1..] + [x];
      FilterAppend(s[1..], x, p);
    }
  }

  // ---------------------------------------------------------------------
  // Group sums (pandas `groupby(key)['co2_amount'].sum()`)

  /** The test that selects the entries of group `k`. */
  ghost function InGroup<K>(key: Entry -> K, k: K): Entry -> bool
  {
    (e: Entry) => key(e) == k
  }

  /** The emissions of each key: the map from every key that occurs to the sum
      of the amounts of the entries with that key. */
  function GroupTotals<K(==)>(es: seq<Entry>, key: Entry -> K): map<K, real>
  {
    if es == [] then map[]
    else
      var m := GroupTotals(es[..|es| - 1], key);
      var x := es[|es| - 1];
      var k := key(x);
      m[k := (if k in m then m[k] else 0.0) + x.co2Amount]
  }

  /** The group sums have a key exactly for each key that occurs. */
  lemma {:induction false} GroupTotalsKeys<K(!new)>(es: seq<Entry>, key: Entry -> K)
    ensures forall k :: k in GroupTotals(es, key) <==> exists i :: 0 <= i < |es| && key(es[i]) == k
    decreases |es|
  {
    if es != [] {
      var init := es[..|es| - 1];
      GroupTotalsKeys(init, key);
      assert forall i :: 0 <= i < |init| ==> init[i] == es[i];
    }
  }

  /** One more entry adds its amount to its own group's sum. */
  lemma GroupTotalsSnoc<K(!new)>(es: seq<Entry>, x: Entry, key: Entry -> K)
    ensures var m := GroupTotals(es, key);
            GroupTotals(es + [x], key) == m[key(x) := (if key(x) in m then m[key(x)] else 0.0) + x.co2Amount]
  {
    var longer := es + [x];
    GroupTotalsLast(longer, key);
    assert longer[..|longer| - 1] == es;
  }

  /** The sums of a non-empty sequence, one step unfolded. */
  lemma GroupTotalsLast<K(!new)>(es: seq<Entry>, key: Entry -> K)
    requires es != []
    ensures var m := GroupTotals(es[..|es| - 1], key);
            var k := key(es[|es| - 1]);
            GroupTotals(es, key) == m[k := (if k in m then m[k] else 0.0) + es[|es| - 1].co2Amount]
  {
  }

  /** Each group's sum is the total of exactly the entries in that group. */
  lemma {:induction false} GroupTotalsCorrect<K(!new)>(es: seq<Entry>, key: Entry -> K, k: K)
    requires k in GroupTotals(es, key)
    ensures GroupTotals(es, key)[k] == Total(Filter(es, InGroup(key, k)))
    decreases |es|
  {
    var init := es[..|es| - 1];
    var x := es[|es| - 1];
    var p := InGroup(key, k);
    assert es == init + [x];
    FilterAppend(init, x, p);
    var m := GroupTotals(init, key);
    assert GroupTotals(es, key) == m[key(x) := (if key(x) in m then m[key(x)] else 0.0) + x.co2Amount];
    if key(x) == k {
      var before := Filter(init, p);
      assert (if k in m then m[k] else 0.0) == Total(before) by {
        if k in m {
          GroupTotalsCorrect(init, key, k);
        } else {
          EmptyGroup(init, key, k);
        }
      }
      assert Filter(es, p) == before + [x];
      assert (before + [x])[..|before + [x]| - 1] == before;
    } else {
      assert Filter(es, p) == Filter(init, p) + [] == Filter(init, p);
      GroupTotalsCorrect(init, key, k);
    }
  }

  /** A key that does not occur has no entries. */
  lemma EmptyGroup<K(!new)>(es: seq<Entry>, key: Entry -> K, k: K)
    requires k !in GroupTotals(es, key)
    ensures Filter(es, InGroup(key, k)) == []
  {
    GroupTotalsKeys(es, key);
    FilterNone(es, InGroup(key, k));
  }

  lemma {:induction false} FilterNone<T>(s: seq<T>, p: T -> bool)
    requires forall i :: 0 <= i < |s| ==> !p(s[i])
    ensures Filter(s, p) == []
  {
    if s != [] {
      FilterNone(s[1..], p);
    }
  }

  /** The sum of the values of a map, in no particular key order. */
  ghost function MapSum<K>(m: map<K, real>): real
    decreases |m.Keys|
  {
    if m == map[] then 0.0
    else
      var k :| k in m;
      assert m.Keys - {k} < m.Keys;
      m[k] + MapSum(m - {k})
  }

  /** The sum does not depend on which key is taken out first. */
  lemma {:induction false} MapSumRemove<K>(m: map<K, real>, k: K)
    requires k in m
    ensures MapSum(m) == m[k] + MapSum(m - {k})
    decreases |m.Keys|
  {
    var j :| j in m && MapSum(m) == m[j] + MapSum(m - {j});
    if j != k {
      assert (m - {j}).Keys < m.Keys && (m - {k}).Keys < m.Keys;
      MapSumRemove(m - {j}, k);
      MapSumRemove(m - {k}, j);
      assert (m - {j}) - {k} == (m - {k}) - {j};
    }
  }

  /** The group sums add up to the total of all the entries. */
  lemma {:induction false} GroupTotalsAddUp<K(!new)>(es: seq<Entry>, key: Entry -> K)
    ensures MapSum(GroupTotals(es, key)) == Total(es)
    decreases |es|
  {
    if es != [] {
      var init := es[..|es| - 1];
      var x := es[|es| - 1];
      var m := GroupTotals(init, key);
      var k := key(x);
      var v := (if k in m then m[k] else 0.0) + x.co2Amount;
      GroupTotalsAddUp(init, key);
      assert GroupTotals(es, key) == m[k := v];
      MapSumRemove(m[k := v], k);
      if k in m {
        MapSumRemove(m, k);
        assert m[k := v] - {k} == m - {k};
      } else {
        assert m[k := v] - {k} == m;
      }
    }
  }

  // ---------------------------------------------------------------------
  // Python's str.strip()

  /** The characters for which Python's `str.isspace()` holds. */
  predicate IsSpace(c: char)
  {
    c == ' ' || ('\t' <= c <= '\r') || ('\U{1C}' <= c <= '\U{1F}') || c == '\U{85}'
    || c == '\U{A0}' || c == '\U{1680}' || ('\U{2000}' <= c <= '\U{200A}')
    || c == '\U{2028}' || c == '\U{2029}' || c == '\U{202F}' || c == '\U{205F}'
    || c == '\U{3000}'
  }

  /** The index of the first non-whitespace character of `s` at or after `i`,
      or `|s|` when there is none. */
  function SkipSpaces(s: string, i: nat): (n: nat)
    requires i <= |s|
    ensures i <= n <= |s|
    ensures forall k :: i <= k < n ==> IsSpace(s[k])
    ensures n == |s| || !IsSpace(s[n])
    decreases |s| - i
  {
    if i < |s| && IsSpace(s[i]) then SkipSpaces(s, i + 1) else i
  }

  /** The end of `s[lo..j]` once its trailing whitespace is dropped. */
  function SkipSpacesBack(s: string, lo: nat, j: nat): (n: nat)
    requires lo <= j <= |s|
    ensures lo <= n <= j
    ensures forall k :: n <= k < j ==> IsSpace(s[k])
    ensures n == lo || !IsSpace(s[n - 1])
    decreases j
  {
    if lo < j && IsSpace(s[j - 1]) then SkipSpacesBack(s, lo, j - 1) else j
  }

  /** The number of whitespace characters that open `s`. */
  function LeadingSpaces(s: string): (n: nat)
    ensures n <= |s|
    ensures forall k :: 0 <= k < n ==> IsSpace(s[k])
    ensures n == |s| || !IsSpace(s[n])
  {
    SkipSpaces(s, 0)
  }

  /** `s.strip()`: `s` without its leading and trailing whitespace. */
  function Strip(s: string): (r: string)
    ensures LeadingSpaces(s) + |r| <= |s|
    ensures r == s[LeadingSpaces(s)..LeadingSpaces(s) + |r|]
    ensures forall k :: LeadingSpaces(s) + |r| <= k < |s| ==> IsSpace(s[k])
    ensures r == [] || (!IsSpace(r[0]) && !IsSpace(r[|r| - 1]))
  {
    var i := LeadingSpaces(s);
    var j := SkipSpacesBack(s, i, |s|);
    s[i..j]
  }

  /** A string with no whitespace at either end is its own strip. */
  lemma StripUnpadded(s: string)
    requires s == [] || (!IsSpace(s[0]) && !IsSpace(s[|s| - 1]))
    ensures Strip(s) == s
  {
  }
}
