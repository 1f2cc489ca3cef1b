/** The grid-friendliness agent of the coordinated scheduler: the most
    urgent users are sent to the open chargers with the best grid score,
    at most 4 ahead at each. */
module CoordinatedGrid {
  import opened Wrappers
  import opened Geo
  import opened Entities
  import opened Config
  import Clock
  import Names
  import Sorting
  import RuleBased
  import opened CoordinatedUser
  import opened CoordinatedProfit

  /** The queue cap of the grid agent and of the coordinator. */
  const MaxQueue: nat := 4

  /** A user the grid agent ranks: not charging or waiting, flagged or below
      50% SoC, and needing at least 20 points to reach 95%. */
  predicate GridCandidate(u: User) {
    Free(u) && (u.needsCharge || u.soc < 50.0) && 95.0 - u.soc >= 20.0
  }

  /** A ranked user; urgency is the charge still missing, `100 - soc`. */
  datatype Ranked = Ranked(user: User, urgency: real)

  function LessUrgent(r: Ranked): real {
    -r.urgency
  }

  function Ranking(users: seq<User>): (r: seq<Ranked>)
    ensures forall x :: x in r ==> x.user in users && GridCandidate(x.user) && x.urgency == 100.0 - x.user.soc
    ensures forall u :: u in users && GridCandidate(u) ==> Ranked(u, 100.0 - u.soc) in r
    decreases |users|
  {
    if |users| == 0 then []
    else
      assert forall x :: x in users <==> x == users[0] || x in users[1..];
      (if GridCandidate(users[0]) then [Ranked(users[0], 100.0 - users[0].soc)] else []) + Ranking(users[1..])
  }

  /** The grid agent's charger score. It reads only the grid status and the
      hour (valley hours are checked first), so every charger gets the same
      score and sorting by it keeps dictionary order. */
  function GridScoreAt(g: GridReading, hour: nat, peak: seq<int>, valley: seq<int>): real {
    var time := if hour in valley then 1.0 else if hour !in peak then 0.5 else 0.0;
    var load := Numeric.Max(0.0, 1.0 - g.loadPercentage.GetOr(50.0) / 100.0);
    time * 0.5 + load * 0.3 + g.renewableRatio.GetOr(0.0) / 100.0 * 0.2
  }

  /** A charger the grid agent scores: not failed, fewer than 4 ahead. */
  predicate GridOpen(c: Charger) {
    c.status != Failure && Load(c) < MaxQueue
  }

  function OpenIds(d: seq<Charger>): set<ChargerId> {
    set c | c in d && GridOpen(c) :: c.id
  }

  function OpenChargers(d: seq<Charger>): (r: seq<Charger>)
    ensures forall c :: c in r <==> c in d && GridOpen(c)
    decreases |d|
  {
    if |d| == 0 then []
    else
      assert forall x :: x in d <==> x == d[0] || x in d[1..];
      (if GridOpen(d[0]) then [d[0]] else []) + OpenChargers(d[1..])
  }

  /** Room left at `c` once this call's assignments are counted. */
  predicate HasRoom(c: Charger, counted: map<ChargerId, nat>) {
    Load(c) + Tally(counted, c.id) < MaxQueue
  }

  /** The first available charger with room. */
  function FirstRoom(avail: seq<Charger>, counted: map<ChargerId, nat>): (r: Option<nat>)
    ensures r.Some? ==> r.value < |avail| && HasRoom(avail[r.value], counted)
                        && forall j :: 0 <= j < r.value ==> !HasRoom(avail[j], counted)
    ensures r.None? ==> forall j :: 0 <= j < |avail| ==> !HasRoom(avail[j], counted)
    decreases |avail|
  {
    if |avail| == 0 then None
    else if HasRoom(avail[0], counted) then Some(0)
    else
      match FirstRoom(avail[1..], counted)
      case None => None
      case Some(i) => Some(i + 1)
  }

  /** Every open charger of `pool` is within the cap once this call's
      assignments in `counted` are added. */
  ghost predicate WithinCap(pool: seq<Charger>, counted: map<ChargerId, nat>) {
    forall c :: c in pool && GridOpen(c) ==> Load(c) + Tally(counted, c.id) <= MaxQueue
  }

  /** The grid agent's pass over the ranked users. `acc` is the decisions
      dictionary so far; a charger that reaches the cap leaves `avail`, and
      an empty `avail` ends the pass. The result is the decisions, the
      counters and the chargers still available. */
  function GridAssign(cands: seq<Ranked>, avail: seq<Charger>, counted: map<ChargerId, nat>,
                      acc: Decisions, ghost pool: seq<Charger>): (r: (Decisions, map<ChargerId, nat>, seq<Charger>))
    requires DistinctDecisionUsers(acc)
    requires forall c :: c in avail ==> c in pool && GridOpen(c)
    ensures forall c :: c in r.2 ==> c in avail
    ensures DistinctDecisionUsers(r.0)
    ensures DecidedUsers(acc) <= DecidedUsers(r.0) <= DecidedUsers(acc) + set x | x in cands :: x.user.id
    ensures (forall a :: a in acc ==> a.charger in OpenIds(pool)) ==> forall a :: a in r.0 ==> a.charger in OpenIds(pool)
    decreases |cands|
  {
    if |cands| == 0 || |avail| == 0 then (acc, counted, avail)
    else
      assert forall x :: x in cands[1..] ==> x in cands;
      match FirstRoom(avail, counted)
      case None => GridAssign(cands[1..], avail, counted, acc, pool)
      case Some(i) =>
        var c := avail[i];
        var bumped := Bump(counted, c.id);
        var rest := Remaining(avail, bumped, i);
        var next := Recorded(acc, Assignment(cands[0].user.id, c.id));
        assert c in avail;
        assert (forall a :: a in acc ==> a.charger in OpenIds(pool)) ==> forall a :: a in next ==> a.charger in OpenIds(pool) by {
          if forall a :: a in acc ==> a.charger in OpenIds(pool) {
            forall a | a in next ensures a.charger in OpenIds(pool) {
              ChargerOfUnique(next, a);
              if a.user != cands[0].user.id {
                assert ChargerOf(acc, a.user) == Some(a.charger);
              }
            }
          }
        }
        GridAssign(cands[1..], rest, bumped, next, pool)
  }

  /** The chargers still available after `avail[i]` takes one more user:
      it leaves the list once it reaches the cap. */
  function Remaining(avail: seq<Charger>, bumped: map<ChargerId, nat>, i: nat): (r: seq<Charger>)
    requires i < |avail|
    ensures forall x :: x in r ==> x in avail
  {
    if Load(avail[i]) + Tally(bumped, avail[i].id) >= MaxQueue then avail[..i] + avail[i + 1..] else avail
  }

  /** The pass keeps every open charger of the pool within the cap. */
  lemma {:induction false} GridAssignWithinCap(cands: seq<Ranked>, avail: seq<Charger>, counted: map<ChargerId, nat>,
                                               acc: Decisions, pool: seq<Charger>)
    requires DistinctDecisionUsers(acc)
    requires forall c :: c in avail ==> c in pool && GridOpen(c)
    requires DistinctChargerIds(pool) && WithinCap(pool, counted)
    ensures WithinCap(pool, GridAssign(cands, avail, counted, acc, pool).1)
    decreases |cands|, 1
  {
    if |cands| > 0 && |avail| > 0 {
      match FirstRoom(avail, counted)
      case None =>
        GridAssignWithinCap(cands[1..], avail, counted, acc, pool);
      case Some(i) =>
        GridTakeWithinCap(cands, avail, counted, acc, pool, i);
    }
  }

  /** The step of `GridAssignWithinCap` where `avail[i]` has room. */
  lemma {:induction false} GridTakeWithinCap(cands: seq<Ranked>, avail: seq<Charger>, counted: map<ChargerId, nat>,
                                             acc: Decisions, pool: seq<Charger>, i: nat)
    requires DistinctDecisionUsers(acc)
    requires forall c :: c in avail ==> c in pool && GridOpen(c)
    requires DistinctChargerIds(pool) && WithinCap(pool, counted)
    requires |cands| > 0 && FirstRoom(avail, counted) == Some(i)
    ensures WithinCap(pool, GridAssign(cands, avail, counted, acc, pool).1)
    decreases |cands|, 0
  {
    var c := avail[i];
    var bumped := Bump(counted, c.id);
    assert c in avail;
    assert WithinCap(pool, bumped) by {
      forall x | x in pool && GridOpen(x) ensures Load(x) + Tally(bumped, x.id) <= MaxQueue {
        if x.id == c.id {
          SameIdSameCharger(pool, x, c);
        }
      }
    }
    var next := Recorded(acc, Assignment(cands[0].user.id, c.id));
    assert GridAssign(cands, avail, counted, acc, pool)
        == GridAssign(cands[1..], Remaining(avail, bumped, i), bumped, next, pool);
    GridAssignWithinCap(cands[1..], Remaining(avail, bumped, i), bumped, next, pool);
  }

  /** Each decision the pass keeps was counted against its charger. */
  lemma {:induction false} GridAssignCounted(cands: seq<Ranked>, avail: seq<Charger>, counted: map<ChargerId, nat>,
                                             acc: Decisions, pool: seq<Charger>, k: ChargerId)
    requires DistinctDecisionUsers(acc)
    requires forall c :: c in avail ==> c in pool && GridOpen(c)
    requires AssignedTo(acc, k) <= Tally(counted, k)
    ensures var r := GridAssign(cands, avail, counted, acc, pool);
            AssignedTo(r.0, k) <= Tally(r.1, k)
    decreases |cands|, 1
  {
    if |cands| > 0 && |avail| > 0 {
      match FirstRoom(avail, counted)
      case None =>
        GridAssignCounted(cands[1..], avail, counted, acc, pool, k);
      case Some(i) =>
        GridTakeCounted(cands, avail, counted, acc, pool, k, i);
    }
  }

  /** The step of `GridAssignCounted` where `avail[i]` has room. */
  lemma {:induction false} GridTakeCounted(cands: seq<Ranked>, avail: seq<Charger>, counted: map<ChargerId, nat>,
                                           acc: Decisions, pool: seq<Charger>, k: ChargerId, i: nat)
    requires DistinctDecisionUsers(acc)
    requires forall c :: c in avail ==> c in pool && GridOpen(c)
    requires AssignedTo(acc, k) <= Tally(counted, k)
    requires |cands| > 0 && FirstRoom(avail, counted) == Some(i)
    ensures var r := GridAssign(cands, avail, counted, acc, pool);
            AssignedTo(r.0, k) <= Tally(r.1, k)
    decreases |cands|, 0
  {
    var c := avail[i];
    var bumped := Bump(counted, c.id);
    var next := Recorded(acc, Assignment(cands[0].user.id, c.id));
    RecordedCount(acc, Assignment(cands[0].user.id, c.id), k);
    assert GridAssign(cands, avail, counted, acc, pool)
        == GridAssign(cands[1..], Remaining(avail, bumped, i), bumped, next, pool);
    GridAssignCounted(cands[1..], Remaining(avail, bumped, i), bumped, next, pool, k);
  }

  /** The pass is a left-to-right scan: over `xs + ys` it runs over `xs`,
      then over `ys` from the decisions, counters and available chargers
      that `xs` left behind. */
  lemma {:induction false} GridSplit(xs: seq<Ranked>, ys: seq<Ranked>, avail: seq<Charger>,
                                     counted: map<ChargerId, nat>, acc: Decisions, pool: seq<Charger>)
    requires DistinctDecisionUsers(acc)
    requires forall c :: c in avail ==> c in pool && GridOpen(c)
    ensures var p := GridAssign(xs, avail, counted, acc, pool);
            GridAssign(xs + ys, avail, counted, acc, pool) == GridAssign(ys, p.2, p.1, p.0, pool)
    decreases |xs|, 1
  {
    if |xs| == 0 {
      assert xs + ys == ys;
    } else if |avail| > 0 {
      match FirstRoom(avail, counted)
      case None =>
        GridSplitSkip(xs, ys, avail, counted, acc, pool);
      case Some(i) =>
        GridSplitTake(xs, ys, avail, counted, acc, pool, i);
    }
  }

  /** `GridSplit` when no available charger has room for the first user. */
  lemma {:induction false} GridSplitSkip(xs: seq<Ranked>, ys: seq<Ranked>, avail: seq<Charger>,
                                         counted: map<ChargerId, nat>, acc: Decisions, pool: seq<Charger>)
    requires DistinctDecisionUsers(acc)
    requires forall c :: c in avail ==> c in pool && GridOpen(c)
    requires |xs| > 0 && |avail| > 0 && FirstRoom(avail, counted).None?
    ensures var p := GridAssign(xs, avail, counted, acc, pool);
            GridAssign(xs + ys, avail, counted, acc, pool) == GridAssign(ys, p.2, p.1, p.0, pool)
    decreases |xs|, 0
  {
    Sorting.ConcatHead(xs, ys);
    assert GridAssign(xs + ys, avail, counted, acc, pool) == GridAssign(xs[1..] + ys, avail, counted, acc, pool);
    assert GridAssign(xs, avail, counted, acc, pool) == GridAssign(xs[1..], avail, counted, acc, pool);
    GridSplit(xs[1..], ys, avail, counted, acc, pool);
  }

  /** `GridSplit` when the first user takes `avail[i]`. */
  lemma {:induction false} GridSplitTake(xs: seq<Ranked>, ys: seq<Ranked>, avail: seq<Charger>,
                                         counted: map<ChargerId, nat>, acc: Decisions, pool: seq<Charger>, i: nat)
    requires DistinctDecisionUsers(acc)
    requires forall c :: c in avail ==> c in pool && GridOpen(c)
    requires |xs| > 0 && FirstRoom(avail, counted) == Some(i)
    ensures var p := GridAssign(xs, avail, counted, acc, pool);
            GridAssign(xs + ys, avail, counted, acc, pool) == GridAssign(ys, p.2, p.1, p.0, pool)
    decreases |xs|, 0
  {
    var bumped := Bump(counted, avail[i].id);
    var rest := Remaining(avail, bumped, i);
    var next := Recorded(acc, Assignment(xs[0].user.id, avail[i].id));
    Sorting.ConcatHead(xs, ys);
    assert GridAssign(xs + ys, avail, counted, acc, pool) == GridAssign(xs[1..] + ys, rest, bumped, next, pool);
    assert GridAssign(xs, avail, counted, acc, pool) == GridAssign(xs[1..], rest, bumped, next, pool);
    GridSplit(xs[1..], ys, rest, bumped, next, pool);
  }

  /** A user the pass does not rank keeps its entry in the dictionary. */
  lemma {:induction false} GridAssignKeeps(cands: seq<Ranked>, avail: seq<Charger>, counted: map<ChargerId, nat>,
                                           acc: Decisions, pool: seq<Charger>, uid: UserId)
    requires DistinctDecisionUsers(acc)
    requires forall c :: c in avail ==> c in pool && GridOpen(c)
    ensures (forall x :: x in cands ==> x.user.id != uid) ==>
              ChargerOf(GridAssign(cands, avail, counted, acc, pool).0, uid) == ChargerOf(acc, uid)
    decreases |cands|
  {
    if |cands| > 0 && |avail| > 0 && forall x :: x in cands ==> x.user.id != uid {
      assert forall x :: x in cands[1..] ==> x in cands;
      match FirstRoom(avail, counted)
      case None =>
        GridAssignKeeps(cands[1..], avail, counted, acc, pool, uid);
      case Some(i) =>
        var bumped := Bump(counted, avail[i].id);
        var next := Recorded(acc, Assignment(cands[0].user.id, avail[i].id));
        assert cands[0] in cands;
        GridAssignKeeps(cands[1..], Remaining(avail, bumped, i), bumped, next, pool, uid);
    }
  }

  /** The counters only grow during the pass. */
  lemma {:induction false} GridCountsGrow(cands: seq<Ranked>, avail: seq<Charger>, counted: map<ChargerId, nat>,
                                          acc: Decisions, pool: seq<Charger>, k: ChargerId)
    requires DistinctDecisionUsers(acc)
    requires forall c :: c in avail ==> c in pool && GridOpen(c)
    ensures Tally(counted, k) <= Tally(GridAssign(cands, avail, counted, acc, pool).1, k)
    decreases |cands|
  {
    if |cands| > 0 && |avail| > 0 {
      match FirstRoom(avail, counted)
      case None =>
        GridCountsGrow(cands[1..], avail, counted, acc, pool, k);
      case Some(i) =>
        var bumped := Bump(counted, avail[i].id);
        var next := Recorded(acc, Assignment(cands[0].user.id, avail[i].id));
        GridCountsGrow(cands[1..], Remaining(avail, bumped, i), bumped, next, pool, k);
    }
  }

  /** A charger leaves the available list only once it is full: one that
      still has room when the pass ends is still available. */
  lemma {:induction false} GridKeepsRoomy(cands: seq<Ranked>, avail: seq<Charger>, counted: map<ChargerId, nat>,
                                          acc: Decisions, pool: seq<Charger>, c: Charger)
    requires DistinctDecisionUsers(acc)
    requires forall c :: c in avail ==> c in pool && GridOpen(c)
    ensures var r := GridAssign(cands, avail, counted, acc, pool);
            c in avail && HasRoom(c, r.1) ==> c in r.2
    decreases |cands|
  {
    var r := GridAssign(cands, avail, counted, acc, pool);
    if |cands| > 0 && |avail| > 0 && c in avail && HasRoom(c, r.1) {
      match FirstRoom(avail, counted)
      case None =>
        GridKeepsRoomy(cands[1..], avail, counted, acc, pool, c);
      case Some(i) =>
        var bumped := Bump(counted, avail[i].id);
        var rest := Remaining(avail, bumped, i);
        var next := Recorded(acc, Assignment(cands[0].user.id, avail[i].id));
        assert r == GridAssign(cands[1..], rest, bumped, next, pool);
        GridCountsGrow(cands[1..], rest, bumped, next, pool, c.id);
        RemainingKeepsRoomy(avail, bumped, i, c, r.1);
        GridKeepsRoomy(cands[1..], rest, bumped, next, pool, c);
    }
  }

  /** A charger that has room at counters no lower than `bumped` stays
      available after `avail[i]` takes a user. */
  lemma RemainingKeepsRoomy(avail: seq<Charger>, bumped: map<ChargerId, nat>, i: nat, c: Charger,
                            later: map<ChargerId, nat>)
    requires i < |avail| && c in avail
    requires Tally(bumped, c.id) <= Tally(later, c.id) && HasRoom(c, later)
    ensures c in Remaining(avail, bumped, i)
  {
    var rest := Remaining(avail, bumped, i);
    if c != avail[i] && rest != avail {
      var j :| 0 <= j < |avail| && avail[j] == c;
      if j < i {
        assert rest[j] == c;
      } else {
        assert rest[j - 1] == c;
      }
    }
  }

  /** The first ranked user's turn: when an available charger has room,
      the user is recorded at the first such charger, and keeps that entry
      when no later ranked user has the same id. */
  lemma GridHead(u: Ranked, later: seq<Ranked>, avail: seq<Charger>, counted: map<ChargerId, nat>,
                 acc: Decisions, pool: seq<Charger>)
    requires DistinctDecisionUsers(acc)
    requires forall c :: c in avail ==> c in pool && GridOpen(c)
    ensures var r := GridAssign([u] + later, avail, counted, acc, pool);
            FirstRoom(avail, counted).Some? ==>
              u.user.id in DecidedUsers(r.0)
              && ((forall x :: x in later ==> x.user.id != u.user.id) ==>
                    ChargerOf(r.0, u.user.id) == Some(avail[FirstRoom(avail, counted).value].id))
  {
    if FirstRoom(avail, counted).Some? {
      var cands := [u] + later;
      assert cands[0] == u && cands[1..] == later;
      var i := FirstRoom(avail, counted).value;
      var a := Assignment(u.user.id, avail[i].id);
      var bumped := Bump(counted, avail[i].id);
      var next := Recorded(acc, a);
      assert GridAssign(cands, avail, counted, acc, pool)
          == GridAssign(later, Remaining(avail, bumped, i), bumped, next, pool);
      GridAssignKeeps(later, Remaining(avail, bumped, i), bumped, next, pool, a.user);
    }
  }

  /** `GridSplit` at position `j`. */
  lemma GridSplitAt(cands: seq<Ranked>, avail: seq<Charger>, counted: map<ChargerId, nat>,
                    acc: Decisions, pool: seq<Charger>, j: nat)
    requires DistinctDecisionUsers(acc)
    requires forall c :: c in avail ==> c in pool && GridOpen(c)
    requires j < |cands|
    ensures var p := GridAssign(cands[..j], avail, counted, acc, pool);
            GridAssign(cands, avail, counted, acc, pool) == GridAssign([cands[j]] + cands[j + 1..], p.2, p.1, p.0, pool)
  {
    assert cands == cands[..j] + ([cands[j]] + cands[j + 1..]);
    GridSplit(cands[..j], [cands[j]] + cands[j + 1..], avail, counted, acc, pool);
  }

  /** Each ranked user's turn, at the decisions, counters and available
      chargers left by the users before it: when any charger of the
      starting list still has room at those counters, the user is decided,
      at the first available charger with room, which it keeps when no later
      ranked user has the same id. */
  lemma GridInTurn(cands: seq<Ranked>, avail: seq<Charger>, counted: map<ChargerId, nat>,
                   acc: Decisions, pool: seq<Charger>, j: nat, c: Charger)
    requires DistinctDecisionUsers(acc)
    requires forall c :: c in avail ==> c in pool && GridOpen(c)
    requires j < |cands|
    ensures var r := GridAssign(cands, avail, counted, acc, pool);
            var p := GridAssign(cands[..j], avail, counted, acc, pool);
            (c in avail && HasRoom(c, p.1) ==> FirstRoom(p.2, p.1).Some?)
            && (FirstRoom(p.2, p.1).Some? ==>
                  cands[j].user.id in DecidedUsers(r.0)
                  && ((forall m :: j < m < |cands| ==> cands[m].user.id != cands[j].user.id) ==>
                        ChargerOf(r.0, cands[j].user.id) == Some(p.2[FirstRoom(p.2, p.1).value].id)))
  {
    var p := GridAssign(cands[..j], avail, counted, acc, pool);
    GridRoomAtTurn(cands[..j], avail, counted, acc, pool, c);
    GridSplitAt(cands, avail, counted, acc, pool, j);
    LaterOthers(cands, j);
    GridHead(cands[j], cands[j + 1..], p.2, p.1, p.0, pool);
  }

  /** A charger of the starting list with room after a pass is still
      available, so the first-room search then finds one. */
  lemma GridRoomAtTurn(cands: seq<Ranked>, avail: seq<Charger>, counted: map<ChargerId, nat>,
                       acc: Decisions, pool: seq<Charger>, c: Charger)
    requires DistinctDecisionUsers(acc)
    requires forall c :: c in avail ==> c in pool && GridOpen(c)
    ensures var p := GridAssign(cands, avail, counted, acc, pool);
            c in avail && HasRoom(c, p.1) ==> FirstRoom(p.2, p.1).Some?
  {
    var p := GridAssign(cands, avail, counted, acc, pool);
    GridKeepsRoomy(cands, avail, counted, acc, pool, c);
    if c in avail && HasRoom(c, p.1) {
      var k :| 0 <= k < |p.2| && p.2[k] == c;
    }
  }

  /** The users after position `j`, as members of their own list. */
  lemma LaterOthers(cands: seq<Ranked>, j: nat)
    requires j < |cands|
    ensures (forall m :: j < m < |cands| ==> cands[m].user.id != cands[j].user.id) ==>
              forall x :: x in cands[j + 1..] ==> x.user.id != cands[j].user.id
  {
    var later := cands[j + 1..];
    if forall m :: j < m < |cands| ==> cands[m].user.id != cands[j].user.id {
      forall x | x in later ensures x.user.id != cands[j].user.id {
        var m :| 0 <= m < |later| && later[m] == x;
        assert x == cands[j + 1 + m];
      }
    }
  }

  function RankedId(x: Ranked): UserId {
    x.user.id
  }

  /** Ranking users with distinct ids gives each id at most one place. */
  lemma {:induction false} RankingDistinct(users: seq<User>)
    requires DistinctUserIds(users)
    ensures Sorting.DistinctKeys(Ranking(users), RankedId)
    decreases |users|
  {
    if |users| > 0 {
      var t := users[1..];
      assert DistinctUserIds(t) by {
        forall i, j | 0 <= i < j < |t| ensures t[i].id != t[j].id {
          assert t[i] == users[i + 1] && t[j] == users[j + 1];
        }
      }
      RankingDistinct(t);
      var tail := Ranking(t);
      if GridCandidate(users[0]) {
        var h := Ranked(users[0], 100.0 - users[0].soc);
        forall x | x in tail ensures RankedId(x) != RankedId(h) {
          var m :| 0 <= m < |t| && t[m] == x.user;
          assert users[m + 1] == x.user;
        }
        Sorting.ConsDistinctKeys(h, tail, RankedId);
      }
    }
  }

  /** The ranked users, most urgent first (a stable sort on `-urgency`):
      a reordering of the ranking of the user dictionary, one place per
      user id. */
  function GridCandidates(users: seq<User>): (r: seq<Ranked>)
    ensures forall x :: x in r ==> x.user in users && GridCandidate(x.user)
    ensures multiset(r) == multiset(Ranking(UserDict(users)))
    ensures Sorting.Sorted(r, LessUrgent)
    ensures Sorting.DistinctKeys(r, RankedId)
    ensures forall k :: Sorting.WithKey(r, LessUrgent, k) == Sorting.WithKey(Ranking(UserDict(users)), LessUrgent, k)
  {
    var ranked := Ranking(UserDict(users));
    var r := Sorting.SortBy(ranked, LessUrgent);
    forall k ensures Sorting.WithKey(r, LessUrgent, k) == Sorting.WithKey(ranked, LessUrgent, k) {
      Sorting.SortByStable(ranked, LessUrgent, k);
    }
    Sorting.SortBySorted(ranked, LessUrgent);
    Sorting.SortByMembers(ranked, LessUrgent);
    RankingDistinct(UserDict(users));
    Sorting.PermutationKeepsDistinctKeys(ranked, r, RankedId);
    r
  }

  /** The open chargers of the dictionary sorted by the grid score, best
      first. The score depends only on the hour, so every charger ties and
      the stable sort leaves them in dictionary order. */
  function GridAvailable(d: seq<Charger>, score: real): (r: seq<Charger>)
    ensures forall c :: c in r <==> c in d && GridOpen(c)
    ensures r == OpenChargers(d)
  {
    var r := Sorting.SortBy(OpenChargers(d), (c: Charger) => -score);
    Sorting.SortByMembers(OpenChargers(d), (c: Charger) => -score);
    Sorting.SortByConstant(OpenChargers(d), (c: Charger) => -score, -score);
    r
  }

  /** The grid score of the snapshot's hour. */
  function GridScoreNow(s: Snapshot): real {
    GridScoreAt(s.grid, Clock.HourOf(s.timestamp.GetOr(0)),
                s.grid.peakHours.GetOr(RuleBased.DefaultPeakHours),
                s.grid.valleyHours.GetOr(RuleBased.DefaultValleyHours))
  }

  /** `CoordinatedGridFriendlinessAgent.make_decisions`: the most urgent
      users first, each to the first charger in score order with room. */
  function GridAgent(s: Snapshot): (r: Decisions)
    ensures |s.users| == 0 || |s.chargers| == 0 || s.timestamp.None? ==> r == []
    ensures DistinctDecisionUsers(r)
    ensures forall uid :: uid in DecidedUsers(r) ==> exists u :: u in s.users && u.id == uid && GridCandidate(u)
    ensures forall a :: a in r ==> a.charger in OpenIds(ChargerDict(s.chargers))
  {
    if |s.users| == 0 || |s.chargers| == 0 || s.timestamp.None? then []
    else
      var d := ChargerDict(s.chargers);
      var cands := GridCandidates(s.users);
      var r := GridAssign(cands, GridAvailable(d, GridScoreNow(s)), map[], [], d);
      assert forall uid :: uid in DecidedUsers(r.0) ==> exists u :: u in s.users && u.id == uid && GridCandidate(u) by {
        forall uid | uid in DecidedUsers(r.0) ensures exists u :: u in s.users && u.id == uid && GridCandidate(u) {
          var x :| x in cands && x.user.id == uid;
        }
      }
      r.0
  }

  /** No charger ends a grid-agent call with more than 4 ahead: occupant,
      queue and the users the agent sends there. */
  lemma GridAgentWithinCap(s: Snapshot, c: Charger)
    requires DistinctChargerIds(s.chargers) && c in s.chargers
    ensures AssignedTo(GridAgent(s), c.id) > 0 ==> Load(c) + AssignedTo(GridAgent(s), c.id) <= MaxQueue
  {
    if AssignedTo(GridAgent(s), c.id) > 0 {
      var d := ChargerDict(s.chargers);
      assert d == s.chargers;
      var cands := GridCandidates(s.users);
      var avail := GridAvailable(d, GridScoreNow(s));
      var r := GridAssign(cands, avail, map[], [], d);
      assert GridAgent(s) == r.0;
      GridAssignWithinCap(cands, avail, map[], [], d);
      GridAssignCounted(cands, avail, map[], [], d, c.id);
      AssignedToNamed(r.0, c.id);
      var a :| a in r.0 && a.charger == c.id;
      var c2 :| c2 in d && GridOpen(c2) && c2.id == c.id;
      SameIdSameCharger(s.chargers, c, c2);
    }
  }

  /** In one grid-agent call, each ranked user's turn comes at the
      decisions, counters and available chargers left by the more urgent
      users: while any open charger still has room, the user is sent to the
      first available charger in score order with room. */
  lemma GridAgentPlaces(s: Snapshot, j: nat, c: Charger)
    ensures var d := ChargerDict(s.chargers);
            var cands := GridCandidates(s.users);
            var avail := GridAvailable(d, GridScoreNow(s));
            |s.users| > 0 && |s.chargers| > 0 && s.timestamp.Some? && j < |cands| ==>
              var p := GridAssign(cands[..j], avail, map[], [], d);
              (c in d && GridOpen(c) && HasRoom(c, p.1) ==> FirstRoom(p.2, p.1).Some?)
              && (FirstRoom(p.2, p.1).Some? ==>
                    ChargerOf(GridAgent(s), cands[j].user.id) == Some(p.2[FirstRoom(p.2, p.1).value].id))
  {
    var d := ChargerDict(s.chargers);
    var cands := GridCandidates(s.users);
    var avail := GridAvailable(d, GridScoreNow(s));
    if |s.users| > 0 && |s.chargers| > 0 && s.timestamp.Some? && j < |cands| {
      GridAgentIsPass(s);
      LaterIdsDiffer(cands, j);
      GridInTurn(cands, avail, map[], [], d, j, c);
    }
  }

  /** With the snapshot complete, the agent's decisions are those of its
      pass over the ranked users and the open chargers in score order. */
  lemma GridAgentIsPass(s: Snapshot)
    ensures |s.users| > 0 && |s.chargers| > 0 && s.timestamp.Some? ==>
              var d := ChargerDict(s.chargers);
              GridAgent(s) == GridAssign(GridCandidates(s.users), GridAvailable(d, GridScoreNow(s)), map[], [], d).0
  {
  }

  /** Distinct ids: no ranked user after position `j` has its id. */
  lemma LaterIdsDiffer(cands: seq<Ranked>, j: nat)
    requires Sorting.DistinctKeys(cands, RankedId) && j < |cands|
    ensures forall m :: j < m < |cands| ==> cands[m].user.id != cands[j].user.id
  {
    forall m | j < m < |cands| ensures cands[m].user.id != cands[j].user.id {
      assert RankedId(cands[j]) != RankedId(cands[m]);
    }
  }
}
