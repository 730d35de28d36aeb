/** The record store (database.py): the users, co2_entries and user_rewards
    tables, held in memory by one DatabaseManager object. */
module Database {
  import opened Entries

  /** The `entry_data` dictionary given to add_co2_entry. `None` stands for a
      key that is missing or that holds None (`entry_data.get(k)` is None). */
  datatype EntryData = EntryData(
    date: Option<Day>,
    activity: Option<string>,
    category: Option<string>,
    co2Amount: Option<real>,
    quantity: Option<real>,
    distance: Option<real>,
    duration: Option<real>,
    participants: Option<int>,
    location: Option<string>,
    weather: Option<string>,
    purpose: Option<string>,
    efficiency: Option<string>,
    notes: Option<string>,
    entryType: Option<string>,
    attributes: Option<Attributes>,
    timestamp: Option<Timestamp>)

  /** A row of the users table. */
  datatype User = User(username: string, passwordHash: string)

  /** A row of the co2_entries table: its owner and the entry it holds. */
  datatype Row = Row(username: string, entry: Entry)

  /** The `best_week` JSON object; `{}` is BestWeek(None, None). */
  datatype BestWeek = BestWeek(week: Option<WeekKey>, reduction: Option<real>)

  /** A row of the user_rewards table, as the rewards dictionary. */
  datatype Rewards = Rewards(
    totalPoints: int,
    level: int,
    badges: seq<string>,
    achievements: seq<string>,
    streakDays: int,
    lastEntryDate: Option<string>,
    monthlyGoals: Attributes,
    bestWeek: BestWeek)

  /** The `rewards_data` dictionary given to save_user_rewards; `None` stands
      for a missing key. */
  datatype RewardsPatch = RewardsPatch(
    totalPoints: Option<int>,
    level: Option<int>,
    badges: Option<seq<string>>,
    achievements: Option<seq<string>>,
    streakDays: Option<int>,
    lastEntryDate: Option<string>,
    monthlyGoals: Option<Attributes>,
    bestWeek: Option<BestWeek>)

  function Get<T>(o: Option<T>, default: T): T
  {
    match o
    case Some(v) => v
    case None => default
  }

  /** What get_user_rewards returns for a user with no record. */
  function DefaultRewards(): (r: Rewards)
    ensures r.totalPoints == 0 && r.level == 1 && r.streakDays == 0
    ensures r.badges == [] && r.achievements == [] && r.monthlyGoals == map[]
    ensures r.lastEntryDate == None && r.bestWeek == BestWeek(None, Some(0.0))
  {
    Rewards(0, 1, [], [], 0, None, map[], BestWeek(None, Some(0.0)))
  }

  /** The record save_user_rewards writes: each missing key takes the default
      the source gives it in `rewards_data.get(key, default)`. */
  function Applied(p: RewardsPatch): (r: Rewards)
    ensures p.totalPoints.Some? ==> r.totalPoints == p.totalPoints.value
    ensures p.level.Some? ==> r.level == p.level.value
    ensures p.badges.Some? ==> r.badges == p.badges.value
    ensures p.achievements.Some? ==> r.achievements == p.achievements.value
    ensures p.streakDays.Some? ==> r.streakDays == p.streakDays.value
    ensures r.lastEntryDate == p.lastEntryDate
    ensures p.monthlyGoals.Some? ==> r.monthlyGoals == p.monthlyGoals.value
    ensures p.bestWeek.Some? ==> r.bestWeek == p.bestWeek.value
    ensures p.totalPoints == None ==> r.totalPoints == 0
    ensures p.level == None ==> r.level == 1
    ensures p.badges == None ==> r.badges == []
    ensures p.achievements == None ==> r.achievements == []
    ensures p.streakDays == None ==> r.streakDays == 0
    ensures p.monthlyGoals == None ==> r.monthlyGoals == map[]
    ensures p.bestWeek == None ==> r.bestWeek == BestWeek(None, None)
  {
    Rewards(Get(p.totalPoints, 0), Get(p.level, 1), Get(p.badges, []),
            Get(p.achievements, []), Get(p.streakDays, 0), p.lastEntryDate,
            Get(p.monthlyGoals, map[]), Get(p.bestWeek, BestWeek(None, None)))
  }

  /** A complete rewards dictionary, as get_user_rewards hands it out; saving
      it stores exactly that record. */
  function Full(r: Rewards): (p: RewardsPatch)
    ensures Applied(p) == r
  {
    RewardsPatch(Some(r.totalPoints), Some(r.level), Some(r.badges), Some(r.achievements),
                 Some(r.streakDays), r.lastEntryDate, Some(r.monthlyGoals), Some(r.bestWeek))
  }

  /** The NOT NULL columns date, activity, category and co2_amount all have a
      value; otherwise the commit fails and add_co2_entry returns False. */
  predicate Storable(d: EntryData)
  {
    d.date.Some? && d.activity.Some? && d.category.Some? && d.co2Amount.Some?
  }

  /** The entry stored for `d` under the new id: entry_type defaults to
      "quick", the timestamp to the current time `now`. */
  function NewEntry(d: EntryData, id: nat, now: Timestamp): (e: Entry)
    requires Storable(d)
    ensures e.id == id && e.co2Amount == d.co2Amount.value && e.category == d.category.value
    ensures e.entryType == Get(d.entryType, "quick")
    ensures e.timestamp == Get(d.timestamp, now)
  {
    Entry(id, d.date.value, d.activity.value, d.category.value, d.co2Amount.value,
          d.quantity, d.distance, d.duration, d.participants, d.location, d.weather,
          d.purpose, d.efficiency, d.notes, Get(d.entryType, "quick"), d.attributes,
          Get(d.timestamp, now))
  }

  /** The entries of `rows` owned by `u`, in table order. */
  function EntriesOf(rows: seq<Row>, u: string): seq<Entry>
  {
    if rows == [] then []
    else (if rows[0].username == u then [rows[0].entry] else []) + EntriesOf(rows[1..], u)
  }

  /** The listing holds exactly the entries of the rows owned by `u`. */
  lemma {:induction false} EntriesOfExactly(rows: seq<Row>, u: string)
    ensures forall e :: e in EntriesOf(rows, u) <==> Row(u, e) in rows
  {
    if rows != [] {
      EntriesOfExactly(rows[1..], u);
      assert rows == [rows[0]] + rows[1..];
    }
  }

  lemma {:induction false} EntriesOfAppend(rows: seq<Row>, r: Row, u: string)
    ensures EntriesOf(rows + [r], u)
            == EntriesOf(rows, u) + (if r.username == u then [r.entry] else [])
  {
    if rows == [] {
      assert rows + [r] == [r];
    } else {
      assert (rows + [r])[1..] == rows[1..] + [r];
      EntriesOfAppend(rows[1..], r, u);
    }
  }

  /** Removing a user's rows leaves that user with no entries and every other
      user with exactly the entries they had. */
  lemma {:induction false} ClearOnlyTouchesOwner(rows: seq<Row>, u: string, v: string)
    ensures EntriesOf(Filter(rows, (r: Row) => r.username != u), u) == []
    ensures v != u ==> EntriesOf(Filter(rows, (r: Row) => r.username != u), v) == EntriesOf(rows, v)
  {
    if rows != [] {
      ClearOnlyTouchesOwner(rows[1..], u, v);
      var p := (r: Row) => r.username != u;
      var head := if p(rows[0]) then [rows[0]] else [];
      assert Filter(rows, p) == head + Filter(rows[1..], p);
      EntriesOfConcat(head, Filter(rows[1..], p), u);
      EntriesOfConcat(head, Filter(rows[1..], p), v);
    }
  }

  lemma {:induction false} EntriesOfConcat(a: seq<Row>, b: seq<Row>, u: string)
    ensures EntriesOf(a + b, u) == EntriesOf(a, u) + EntriesOf(b, u)
  {
    if a == [] {
      assert a + b == b;
    } else {
      var head := if a[0].username == u then [a[0].entry] else [];
      assert (a + b)[0] == a[0];
      assert (a + b)[1..] == a[1..] + b;
      assert EntriesOf(a + b, u) == head + EntriesOf(a[1..] + b, u);
      EntriesOfConcat(a[1..], b, u);
      assert EntriesOf(a, u) == head + EntriesOf(a[1..], u);
    }
  }

  /** Entry ids strictly increase along the table and stay below the next id
      to hand out, so each id names at most one row. */
  ghost predicate IdsIncreasing(rows: seq<Row>, nextId: nat)
  {
    && (forall i :: 0 <= i < |rows| ==> 1 <= rows[i].entry.id < nextId)
    && (forall i, j :: 0 <= i < j < |rows| ==> rows[i].entry.id < rows[j].entry.id)
  }

  lemma {:induction false} FilterKeepsIds(rows: seq<Row>, nextId: nat, p: Row -> bool)
    requires IdsIncreasing(rows, nextId)
    ensures IdsIncreasing(Filter(rows, p), nextId)
  {
    if rows != [] {
      var rest := rows[1..];
      assert IdsIncreasing(rest, nextId) by {
        assert forall i :: 0 <= i < |rest| ==> rest[i] == rows[i + 1];
      }
      FilterKeepsIds(rest, nextId, p);
      var tail := Filter(rest, p);
      assert Filter(rows, p) == (if p(rows[0]) then [rows[0]] else []) + tail;
      if p(rows[0]) {
        forall y | y in tail ensures rows[0].entry.id < y.entry.id {
          assert y in rest;
          var k :| 0 <= k < |rest| && rest[k] == y;
          assert rows[k + 1] == y;
        }
        ConsKeepsIds(rows[0], tail, nextId);
      } else {
        assert Filter(rows, p) == tail;
      }
    }
  }

  /** A row with a valid id below every id of an ordered table can go in
      front of it. */
  lemma ConsKeepsIds(x: Row, rows: seq<Row>, nextId: nat)
    requires IdsIncreasing(rows, nextId) && 1 <= x.entry.id < nextId
    requires forall y :: y in rows ==> x.entry.id < y.entry.id
    ensures IdsIncreasing([x] + rows, nextId)
  {
    var f := [x] + rows;
    forall i | 0 < i < |f| ensures f[i] == rows[i - 1] {
    }
    forall i, j | 0 <= i < j < |f| ensures f[i].entry.id < f[j].entry.id {
      if i == 0 {
        assert f[j] in rows;
      }
    }
  }

  /** Taking out the row at `i`, the only row matching (`id`, `u`), leaves
      exactly the rows that do not match. */
  lemma RemoveMatching(rows: seq<Row>, nextId: nat, i: nat, id: int, u: string)
    requires IdsIncreasing(rows, nextId)
    requires i < |rows| && rows[i].entry.id == id && rows[i].username == u
    ensures IdsIncreasing(rows[..i] + rows[i + 1..], nextId)
    ensures forall r :: r in rows[..i] + rows[i + 1..] <==> r in rows && !(r.entry.id == id && r.username == u)
  {
    var after := rows[..i] + rows[i + 1..];
    assert forall k :: 0 <= k < i ==> after[k] == rows[k];
    assert forall k :: i <= k < |after| ==> after[k] == rows[k + 1];
    RemoveKeepsIds(rows, nextId, i);
    forall r | r in after ensures r in rows && !(r.entry.id == id && r.username == u) {
      var k :| 0 <= k < |after| && after[k] == r;
      if k < i {
        assert r.entry.id < rows[i].entry.id;
      } else {
        assert r.entry.id > rows[i].entry.id;
      }
    }
    forall r | r in rows && !(r.entry.id == id && r.username == u) ensures r in after {
      var k :| 0 <= k < |rows| && rows[k] == r;
      if k < i {
        assert after[k] == r;
      } else {
        assert after[k - 1] == r;
      }
    }
  }

  lemma RemoveKeepsIds(rows: seq<Row>, nextId: nat, i: nat)
    requires IdsIncreasing(rows, nextId) && i < |rows|
    ensures IdsIncreasing(rows[..i] + rows[i + 1..], nextId)
  {
    var after := rows[..i] + rows[i + 1..];
    forall k | 0 <= k < |after| ensures after[k] == rows[if k < i then k else k + 1] {
    }
    forall k, l | 0 <= k < l < |after| ensures after[k].entry.id < after[l].entry.id {
      var k', l' := (if k < i then k else k + 1), (if l < i then l else l + 1);
      assert after[k] == rows[k'] && after[l] == rows[l'];
    }
  }

  class DatabaseManager {
    /** The users table: username to password hash; usernames are unique. */
    var users: map<string, string>
    /** The co2_entries table, in insertion order. */
    var rows: seq<Row>
    /** The id the next inserted entry receives (autoincrement). */
    var nextId: nat
    /** The user_rewards table: at most one record per username. */
    var rewards: map<string, Rewards>

    ghost predicate Valid()
      reads this
    {
      nextId >= 1 && IdsIncreasing(rows, nextId)
    }

    /** The rewards get_user_rewards reports for `u`. */
    function RewardsOf(u: string): Rewards
      reads this
    {
      if u in rewards then rewards[u] else DefaultRewards()
    }

    constructor ()
      ensures Valid()
      ensures users == map[] && rows == [] && rewards == map[]
    {
      users, rows, nextId, rewards := map[], [], 1, map[];
    }

    /** create_user: the unique constraint on username makes the insert of a
        taken name fail, and nothing changes then. */
    method CreateUser(username: string, passwordHash: string) returns (ok: bool)
      requires Valid()
      modifies this
      ensures Valid()
      ensures ok == (username !in old(users))
      ensures users == if ok then old(users)[username := passwordHash] else old(users)
      ensures rows == old(rows) && nextId == old(nextId) && rewards == old(rewards)
    {
      if username in users {
        return false;
      }
      users := users[username := passwordHash];
      return true;
    }

    method GetUser(username: string) returns (user: Option<User>)
      ensures user.Some? <==> username in users
      ensures user.Some? ==> user.value == User(username, users[username])
    {
      if username in users {
        return Some(User(username, users[username]));
      }
      return None;
    }

    /** add_co2_entry: appends the entry under `username` with a fresh id and
        answers True, or answers False and changes nothing when a NOT NULL
        column would be empty. `now` is the clock reading for utcnow(). */
    method AddCo2Entry(username: string, data: EntryData, now: Timestamp) returns (ok: bool)
      requires Valid()
      modifies this
      ensures Valid()
      ensures ok == Storable(data)
      ensures ok ==> (rows == old(rows) + [Row(username, NewEntry(data, old(nextId), now))]
                      && nextId == old(nextId) + 1)
      ensures !ok ==> rows == old(rows) && nextId == old(nextId)
      ensures users == old(users) && rewards == old(rewards)
    {
      if !Storable(data) {
        return false;
      }
      rows := rows + [Row(username, NewEntry(data, nextId, now))];
      nextId := nextId + 1;
      return true;
    }

    /** get_user_co2_entries: the entries whose owner is `username`, in table
        order, one dictionary per row. */
    method GetUserCo2Entries(username: string) returns (entries: seq<Entry>)
      ensures entries == EntriesOf(rows, username)
    {
      entries := [];
      var i := 0;
      while i < |rows|
        invariant 0 <= i <= |rows|
        invariant entries == EntriesOf(rows[..i], username)
      {
        assert rows[..i + 1] == rows[..i] + [rows[i]];
        EntriesOfAppend(rows[..i], rows[i], username);
        if rows[i].username == username {
          entries := entries + [rows[i].entry];
        }
        i := i + 1;
      }
      assert rows[..i] == rows;
    }

    /** delete_co2_entry: removes the one row whose id is `id` and whose owner
        is `username`; a row of another user is never touched. */
    method DeleteCo2Entry(id: int, username: string) returns (ok: bool)
      requires Valid()
      modifies this
      ensures Valid()
      ensures ok == exists r :: r in old(rows) && r.entry.id == id && r.username == username
      ensures ok ==> |rows| == |old(rows)| - 1
      ensures !ok ==> rows == old(rows)
      ensures forall r :: r in rows <==> r in old(rows) && !(r.entry.id == id && r.username == username)
      ensures users == old(users) && nextId == old(nextId) && rewards == old(rewards)
    {
      var i := 0;
      while i < |rows|
        invariant 0 <= i <= |rows|
        invariant forall k :: 0 <= k < i ==> !(rows[k].entry.id == id && rows[k].username == username)
      {
        if rows[i].entry.id == id && rows[i].username == username {
          RemoveMatching(rows, nextId, i, id, username);
          rows := rows[..i] + rows[i + 1..];
          return true;
        }
        i := i + 1;
      }
      return false;
    }

    /** clear_user_co2_entries: removes every row of `username` and no other. */
    method ClearUserCo2Entries(username: string) returns (ok: bool)
      requires Valid()
      modifies this
      ensures Valid()
      ensures ok
      ensures rows == Filter(old(rows), (r: Row) => r.username != username)
      ensures users == old(users) && nextId == old(nextId) && rewards == old(rewards)
    {
      FilterKeepsIds(rows, nextId, (r: Row) => r.username != username);
      rows := Filter(rows, (r: Row) => r.username != username);
      return true;
    }

    /** get_user_rewards: the stored record, or the default record for a user
        who has none; it creates nothing. */
    method GetUserRewards(username: string) returns (r: Rewards)
      ensures username in rewards ==> r == rewards[username]
      ensures username !in rewards ==> r == DefaultRewards()
    {
      if username in rewards {
        return rewards[username];
      }
      return DefaultRewards();
    }

    /** save_user_rewards: an upsert; afterwards the user has exactly one
        record, holding the saved values with missing keys defaulted. */
    method SaveUserRewards(username: string, data: RewardsPatch) returns (ok: bool)
      requires Valid()
      modifies this
      ensures Valid()
      ensures ok
      ensures rewards == old(rewards)[username := Applied(data)]
      ensures users == old(users) && rows == old(rows) && nextId == old(nextId)
    {
      rewards := rewards[username := Applied(data)];
      return true;
    }
  }
}
