/** The records the engine passes around: users, chargers, the grid reading the
    schedulers see, the state snapshot, scheduling decisions and reward records. */
module Entities {
  import opened Wrappers
  import opened Geo

  type UserId = string
  type ChargerId = string

  datatype UserStatus = Idle | Traveling | Charging | Waiting | PostCharge
  datatype ChargerStatus = Available | Occupied | Failure

  /** `last_destination_type`. */
  datatype DestKind = ToCharger | ToRandom

  datatype User = User(
    id: UserId,
    vehicleType: string,
    userType: string,
    profile: string,
    batteryCapacity: real,
    soc: real,
    maxRange: real,
    currentRange: real,
    position: Option<Pos>,
    status: UserStatus,
    target: Option<ChargerId>,
    travelSpeed: real,
    route: seq<Pos>,
    destination: Option<Pos>,
    timeToDestination: Option<real>,
    traveled: real,
    efficiency: real,
    maxChargingPower: real,
    drivingStyle: string,
    needsCharge: bool,
    timeSensitivity: real,
    priceSensitivity: real,
    lastDestination: Option<DestKind>,
    segmentIndex: nat,
    targetSoc: Option<real>,
    initialSoc: Option<real>,
    postChargeTimer: Option<int>,
    arrivalTime: Option<nat>)

  datatype Charger = Charger(
    id: ChargerId,
    kind: string,
    maxPower: real,
    position: Option<Pos>,
    status: ChargerStatus,
    currentUser: Option<UserId>,
    queue: seq<UserId>,
    queueCapacity: int,
    dailyRevenue: real,
    dailyEnergy: real,
    priceMultiplier: real,
    chargingStart: Option<nat>,
    prevEnergy: real,
    prevRevenue: real)

  /** Python truthiness of an optional id: `None` and `""` are both false. */
  predicate IdSet(o: Option<string>) {
    o.Some? && o.value != ""
  }

  /** Every user's state of charge is a percentage in [0, 100]. */
  ghost predicate SocsInRange(users: map<UserId, User>) {
    forall k :: k in users ==> 0.0 <= users[k].soc <= 100.0
  }

  /** Status is neither `charging` nor `waiting`. */
  predicate Free(u: User) {
    u.status != Charging && u.status != Waiting
  }

  /** Occupied slot plus queue length, the load every scheduler counts. */
  function Load(c: Charger): (n: nat)
    ensures n == |c.queue| + (if c.status == Occupied then 1 else 0)
  {
    |c.queue| + (if c.status == Occupied then 1 else 0)
  }

  /** The grid keys the consumers read from `grid_status`. */
  datatype GridReading = GridReading(
    loadPercentage: Option<real>,
    renewableRatio: Option<real>,
    totalLoad: Option<real>,
    evLoad: Option<real>,
    price: Option<real>,
    peakHours: Option<seq<int>>,
    valleyHours: Option<seq<int>>)

  datatype Baseline = Baseline(
    user: real, profit: real, grid: real, total: real, improvement: Option<real>)

  datatype Rewards = Rewards(
    user: real, profit: real, grid: real, total: real, baseline: Option<Baseline>)

  /** One `history` record: the timestamp, five grid keys and the rewards. */
  datatype HistoryEntry = HistoryEntry(
    timestamp: nat,
    loadPercentage: Option<real>,
    evLoad: Option<real>,
    totalLoad: Option<real>,
    renewableRatio: Option<real>,
    price: Option<real>,
    rewards: Rewards)

  /** The state dictionary handed to schedulers and metrics. */
  datatype Snapshot = Snapshot(
    timestamp: Option<nat>,
    users: seq<User>,
    chargers: seq<Charger>,
    grid: GridReading,
    history: seq<HistoryEntry>)

  ghost predicate DistinctUserIds(users: seq<User>) {
    forall i, j :: 0 <= i < j < |users| ==> users[i].id != users[j].id
  }

  ghost predicate DistinctChargerIds(chargers: seq<Charger>) {
    forall i, j :: 0 <= i < j < |chargers| ==> chargers[i].id != chargers[j].id
  }

  /** The engine's snapshots never repeat an id (they are dictionary values). */
  ghost predicate WellFormed(s: Snapshot) {
    DistinctUserIds(s.users) && DistinctChargerIds(s.chargers)
  }

  /** `next((c for c in chargers if c['charger_id'] == cid), None)`. */
  function FindCharger(chargers: seq<Charger>, cid: ChargerId): (r: Option<Charger>)
    ensures r.Some? ==> r.value in chargers && r.value.id == cid
    ensures r.None? <==> forall i :: 0 <= i < |chargers| ==> chargers[i].id != cid
  {
    if |chargers| == 0 then None
    else if chargers[0].id == cid then Some(chargers[0])
    else
      var r := FindCharger(chargers[1..], cid);
      assert forall i :: 1 <= i < |chargers| ==> chargers[i] == chargers[1..][i - 1];
      r
  }

  /** The ids of the users in a list. */
  function UserIds(users: seq<User>): set<UserId> {
    set u | u in users :: u.id
  }

  /** The ids of the chargers in a list. */
  function ChargerIds(chargers: seq<Charger>): set<ChargerId> {
    set c | c in chargers :: c.id
  }

  predicate HasUser(users: seq<User>, uid: UserId) {
    exists i :: 0 <= i < |users| && users[i].id == uid
  }

  /** A decision `{user_id: charger_id}` entry. */
  datatype Assignment = Assignment(user: UserId, charger: ChargerId)

  /** A decisions dictionary in insertion order. */
  type Decisions = seq<Assignment>

  ghost predicate DistinctDecisionUsers(d: Decisions) {
    forall i, j :: 0 <= i < j < |d| ==> d[i].user != d[j].user
  }

  /** The users a decisions dictionary names. */
  function DecidedUsers(d: Decisions): set<UserId> {
    set a | a in d :: a.user
  }

  predicate Decided(d: Decisions, uid: UserId) {
    exists i :: 0 <= i < |d| && d[i].user == uid
  }

  /** Position of the entry with id `cid` in a dictionary kept as a sequence. */
  function ChargerIndex(d: seq<Charger>, cid: ChargerId): (r: Option<nat>)
    ensures r.Some? ==> r.value < |d| && d[r.value].id == cid
    ensures r.None? ==> cid !in ChargerIds(d)
    decreases |d|
  {
    if |d| == 0 then None
    else if d[|d| - 1].id == cid then Some(|d| - 1)
    else
      var r := ChargerIndex(d[..|d| - 1], cid);
      assert forall c :: c in d ==> c in d[..|d| - 1] || c == d[|d| - 1];
      r
  }

  /** `d[c.id] = c` on an insertion-ordered dictionary: a repeated id keeps
      its first position and takes the later value. */
  function PutCharger(d: seq<Charger>, c: Charger): (r: seq<Charger>)
    requires DistinctChargerIds(d)
    ensures DistinctChargerIds(r)
    ensures c in r
    ensures forall x :: x in r ==> x == c || x in d
    ensures ChargerIds(r) == ChargerIds(d) + {c.id}
    ensures c.id !in ChargerIds(d) ==> r == d + [c]
  {
    match ChargerIndex(d, c.id)
    case Some(k) =>
      var r := d[k := c];
      assert r[k] == c;
      assert forall x :: x in r ==> x == c || x in d by {
        forall x | x in r ensures x == c || x in d {
          var j :| 0 <= j < |r| && r[j] == x;
          if j != k { assert x == d[j]; }
        }
      }
      assert forall x :: x in d && x.id != c.id ==> x in r by {
        forall x | x in d && x.id != c.id ensures x in r {
          var j :| 0 <= j < |d| && d[j] == x;
          assert r[j] == x;
        }
      }
      assert d[k] in d;
      r
    case None =>
      var r := d + [c];
      assert r[|d|] == c;
      assert forall x :: x in r <==> x == c || x in d;
      r
  }

  /** `counts.get(cid, 0)` on a counter dictionary. */
  function Tally(counts: map<ChargerId, nat>, cid: ChargerId): nat {
    if cid in counts then counts[cid] else 0
  }

  /** `counts[cid] += 1` on a `defaultdict(int)`. */
  function Bump(counts: map<ChargerId, nat>, cid: ChargerId): (r: map<ChargerId, nat>)
    ensures Tally(r, cid) == Tally(counts, cid) + 1
    ensures forall k :: k != cid ==> Tally(r, k) == Tally(counts, k)
  {
    counts[cid := Tally(counts, cid) + 1]
  }

  /** Number of decisions sending a user to `cid`. */
  function AssignedTo(ds: Decisions, cid: ChargerId): nat
    decreases |ds|
  {
    if |ds| == 0 then 0 else (if ds[0].charger == cid then 1 else 0) + AssignedTo(ds[1..], cid)
  }

  /** Counting over a dictionary with a given first entry. */
  lemma AssignedToCons(a: Assignment, ds: Decisions, cid: ChargerId)
    ensures AssignedTo([a] + ds, cid) == (if a.charger == cid then 1 else 0) + AssignedTo(ds, cid)
  {
    assert ([a] + ds)[1..] == ds;
  }

  lemma {:induction false} AssignedToNamed(ds: Decisions, cid: ChargerId)
    requires AssignedTo(ds, cid) > 0
    ensures exists a :: a in ds && a.charger == cid
    decreases |ds|
  {
    if ds[0].charger != cid {
      AssignedToNamed(ds[1..], cid);
      var a :| a in ds[1..] && a.charger == cid;
      assert a in ds;
    }
  }

  lemma SameIdSameCharger(cs: seq<Charger>, a: Charger, b: Charger)
    requires DistinctChargerIds(cs) && a in cs && b in cs && a.id == b.id
    ensures a == b
  {
    var i :| 0 <= i < |cs| && cs[i] == a;
    var j :| 0 <= j < |cs| && cs[j] == b;
  }

  /** The users named by a dictionary with a given first entry. */
  lemma DecidedCons(a: Assignment, ds: Decisions)
    ensures DecidedUsers([a] + ds) == {a.user} + DecidedUsers(ds)
  {
    assert forall x :: x in [a] + ds <==> x == a || x in ds;
  }

  lemma Prepend(a: Assignment, ds: Decisions)
    requires DistinctDecisionUsers(ds) && a.user !in DecidedUsers(ds)
    ensures DistinctDecisionUsers([a] + ds)
    ensures DecidedUsers([a] + ds) == {a.user} + DecidedUsers(ds)
    ensures forall x :: x in [a] + ds <==> x == a || x in ds
    ensures forall k :: AssignedTo([a] + ds, k) == (if a.charger == k then 1 else 0) + AssignedTo(ds, k)
  {
    var r := [a] + ds;
    assert r[1..] == ds;
    assert forall x :: x in r <==> x == a || x in ds;
    assert forall j :: 0 < j < |r| ==> r[j] in ds;
  }

  /** Facts about a decisions list with one entry put at the end. */
  lemma Append(ds: Decisions, a: Assignment)
    requires DistinctDecisionUsers(ds) && a.user !in DecidedUsers(ds)
    ensures DistinctDecisionUsers(ds + [a])
    ensures DecidedUsers(ds + [a]) == DecidedUsers(ds) + {a.user}
    ensures forall x :: x in ds + [a] <==> x in ds || x == a
  {
    var r := ds + [a];
    assert forall x :: x in r <==> x in ds || x == a;
    forall p, q | 0 <= p < q < |r| ensures r[p].user != r[q].user {
      if q == |ds| { assert r[p] in ds; }
    }
  }

  /** `{c["charger_id"]: c for c in chargers}`: with distinct ids this is
      the list itself. */
  function ChargerDict(chargers: seq<Charger>): (r: seq<Charger>)
    ensures DistinctChargerIds(r)
    ensures forall c :: c in r ==> c in chargers
    ensures ChargerIds(r) == ChargerIds(chargers)
    ensures DistinctChargerIds(chargers) ==> r == chargers
    decreases |chargers|
  {
    if |chargers| == 0 then []
    else
      var init := ChargerDict(chargers[..|chargers| - 1]);
      var c := chargers[|chargers| - 1];
      SplitLastCharger(chargers);
      PutCharger(init, c)
  }

  /** A charger list is its prefix plus its last entry. */
  lemma SplitLastCharger(chargers: seq<Charger>)
    requires |chargers| > 0
    ensures var init, c := chargers[..|chargers| - 1], chargers[|chargers| - 1];
            chargers == init + [c]
            && (forall x :: x in chargers <==> x in init || x == c)
            && ChargerIds(chargers) == ChargerIds(init) + {c.id}
            && (DistinctChargerIds(chargers) ==> DistinctChargerIds(init) && c.id !in ChargerIds(init))
  {
    var init, c := chargers[..|chargers| - 1], chargers[|chargers| - 1];
    assert chargers == init + [c];
    SplitMembers(init, c);
    if DistinctChargerIds(chargers) {
      LastIdFresh(chargers);
    }
  }

  /** Membership in a list extended by one entry. */
  lemma SplitMembers(init: seq<Charger>, c: Charger)
    ensures forall x :: x in init + [c] <==> x in init || x == c
    ensures ChargerIds(init + [c]) == ChargerIds(init) + {c.id}
  {
    assert forall x :: x in init + [c] <==> x in init || x == c;
  }

  /** With distinct ids the last entry's id is not used before it, and the
      prefix keeps its ids distinct. */
  lemma LastIdFresh(chargers: seq<Charger>)
    requires |chargers| > 0 && DistinctChargerIds(chargers)
    ensures DistinctChargerIds(chargers[..|chargers| - 1])
    ensures chargers[|chargers| - 1].id !in ChargerIds(chargers[..|chargers| - 1])
  {
    var init, c := chargers[..|chargers| - 1], chargers[|chargers| - 1];
    forall x | x in init ensures x.id != c.id {
      var j :| 0 <= j < |init| && init[j] == x;
      assert chargers[j] == x;
    }
  }

  /** Position of the entry with id `uid` in a dictionary kept as a sequence. */
  function UserIndex(d: seq<User>, uid: UserId): (r: Option<nat>)
    ensures r.Some? ==> r.value < |d| && d[r.value].id == uid
    ensures r.None? ==> uid !in UserIds(d)
    decreases |d|
  {
    if |d| == 0 then None
    else if d[|d| - 1].id == uid then Some(|d| - 1)
    else
      var r := UserIndex(d[..|d| - 1], uid);
      assert forall u :: u in d ==> u in d[..|d| - 1] || u == d[|d| - 1];
      r
  }

  /** `d[u.id] = u` on an insertion-ordered dictionary of users. */
  function PutUser(d: seq<User>, u: User): (r: seq<User>)
    requires DistinctUserIds(d)
    ensures DistinctUserIds(r)
    ensures u in r
    ensures forall x :: x in r ==> x == u || x in d
    ensures UserIds(r) == UserIds(d) + {u.id}
    ensures u.id !in UserIds(d) ==> r == d + [u]
  {
    match UserIndex(d, u.id)
    case Some(k) =>
      var r := d[k := u];
      assert r[k] == u;
      assert forall x :: x in r ==> x == u || x in d by {
        forall x | x in r ensures x == u || x in d {
          var j :| 0 <= j < |r| && r[j] == x;
          if j != k { assert x == d[j]; }
        }
      }
      assert forall x :: x in d && x.id != u.id ==> x in r by {
        forall x | x in d && x.id != u.id ensures x in r {
          var j :| 0 <= j < |d| && d[j] == x;
          assert r[j] == x;
        }
      }
      assert d[k] in d;
      r
    case None =>
      var r := d + [u];
      assert r[|d|] == u;
      assert forall x :: x in r <==> x == u || x in d;
      r
  }

  /** `{u["user_id"]: u for u in users}`: with distinct ids this is the list
      itself. */
  function UserDict(users: seq<User>): (r: seq<User>)
    ensures DistinctUserIds(r)
    ensures forall u :: u in r ==> u in users
    ensures UserIds(r) == UserIds(users)
    ensures DistinctUserIds(users) ==> r == users
    decreases |users|
  {
    if |users| == 0 then []
    else
      var init := UserDict(users[..|users| - 1]);
      var u := users[|users| - 1];
      SplitLastUser(users);
      PutUser(init, u)
  }

  /** A user list is its prefix plus its last entry. */
  lemma SplitLastUser(users: seq<User>)
    requires |users| > 0
    ensures var init, u := users[..|users| - 1], users[|users| - 1];
            users == init + [u]
            && (forall x :: x in users <==> x in init || x == u)
            && UserIds(users) == UserIds(init) + {u.id}
            && (DistinctUserIds(users) ==> DistinctUserIds(init) && u.id !in UserIds(init))
  {
    var init, u := users[..|users| - 1], users[|users| - 1];
    assert users == init + [u];
    assert forall x :: x in users <==> x in init || x == u;
    if DistinctUserIds(users) {
      forall x | x in init ensures x.id != u.id {
        var j :| 0 <= j < |init| && init[j] == x;
        assert users[j] == x;
      }
    }
  }

  /** `decisions.get(uid)`. */
  function ChargerOf(ds: Decisions, uid: UserId): (r: Option<ChargerId>)
    ensures r.Some? <==> uid in DecidedUsers(ds)
    ensures r.Some? ==> Assignment(uid, r.value) in ds
    decreases |ds|
  {
    if |ds| == 0 then None
    else if ds[0].user == uid then Some(ds[0].charger)
    else
      assert forall a :: a in ds <==> a == ds[0] || a in ds[1..];
      ChargerOf(ds[1..], uid)
  }

  /** A dictionary's first entry is not repeated in the rest. */
  lemma SplitFirst(ds: Decisions)
    requires DistinctDecisionUsers(ds) && |ds| > 0
    ensures DistinctDecisionUsers(ds[1..])
    ensures ds[0].user !in DecidedUsers(ds[1..])
    ensures DecidedUsers(ds) == {ds[0].user} + DecidedUsers(ds[1..])
  {
    assert ds == [ds[0]] + ds[1..];
    assert forall x :: x in ds <==> x == ds[0] || x in ds[1..];
    forall x | x in ds[1..] ensures x.user != ds[0].user {
      var j :| 0 <= j < |ds[1..]| && ds[1..][j] == x;
      assert ds[j + 1] == x;
    }
  }

  /** Looking a user up in a dictionary with a given first entry. */
  lemma ChargerOfCons(x: Assignment, rest: Decisions)
    ensures forall uid :: ChargerOf([x] + rest, uid)
                       == if x.user == uid then Some(x.charger) else ChargerOf(rest, uid)
  {
    assert ([x] + rest)[1..] == rest;
  }

  /** `decisions[a.user] = a.charger`: an existing entry is overwritten in
      place, a new one goes at the end. */
  function Recorded(ds: Decisions, a: Assignment): (r: Decisions)
    requires DistinctDecisionUsers(ds)
    ensures DistinctDecisionUsers(r)
    ensures DecidedUsers(r) == DecidedUsers(ds) + {a.user}
    ensures ChargerOf(r, a.user) == Some(a.charger)
    ensures forall uid :: uid != a.user ==> ChargerOf(r, uid) == ChargerOf(ds, uid)
    decreases |ds|
  {
    if |ds| == 0 then
      ChargerOfCons(a, []);
      [a]
    else
      SplitFirst(ds);
      assert [ds[0]] + ds[1..] == ds;
      ChargerOfCons(ds[0], ds[1..]);
      if ds[0].user == a.user then
        Prepend(a, ds[1..]);
        ChargerOfCons(a, ds[1..]);
        [a] + ds[1..]
      else
        var rest := Recorded(ds[1..], a);
        Prepend(ds[0], rest);
        ChargerOfCons(ds[0], rest);
        [ds[0]] + rest
  }

  /** A dictionary write keeps every charger within a set that holds the
      old chargers and the new one. */
  lemma RecordedChargersIn(ds: Decisions, a: Assignment, s: set<ChargerId>)
    requires DistinctDecisionUsers(ds)
    requires (forall x :: x in ds ==> x.charger in s) && a.charger in s
    ensures forall x :: x in Recorded(ds, a) ==> x.charger in s
  {
    var r := Recorded(ds, a);
    forall x | x in r ensures x.charger in s {
      ChargerOfUnique(r, x);
      if x.user != a.user {
        assert ChargerOf(ds, x.user) == Some(x.charger);
      }
    }
  }

  /** The chargers that have not failed. */
  function WorkingIds(d: seq<Charger>): set<ChargerId> {
    set c | c in d && c.status != Failure :: c.id
  }

  /** In a dictionary each user has one entry, so its lookup finds it. */
  lemma ChargerOfUnique(ds: Decisions, a: Assignment)
    requires DistinctDecisionUsers(ds) && a in ds
    ensures ChargerOf(ds, a.user) == Some(a.charger)
  {
    var i :| 0 <= i < |ds| && ds[i] == a;
    var c := ChargerOf(ds, a.user).value;
    var j :| 0 <= j < |ds| && ds[j] == Assignment(a.user, c);
  }

  /** Overwriting or adding one entry adds at most one decision for the new
      entry's charger and none for any other. */
  lemma {:induction false} RecordedCount(ds: Decisions, a: Assignment, k: ChargerId)
    requires DistinctDecisionUsers(ds)
    ensures AssignedTo(Recorded(ds, a), k) <= AssignedTo(ds, k) + (if a.charger == k then 1 else 0)
    decreases |ds|
  {
    var r := Recorded(ds, a);
    if |ds| == 0 {
      assert r == [a];
      assert r[1..] == [];
    } else if ds[0].user == a.user {
      assert r == [a] + ds[1..];
      assert r[1..] == ds[1..];
    } else {
      var rest := Recorded(ds[1..], a);
      assert r == [ds[0]] + rest;
      assert r[1..] == rest;
      RecordedCount(ds[1..], a, k);
    }
  }
}
