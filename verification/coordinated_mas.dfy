/** The coordinated multi-agent scheduler: a user-satisfaction agent, an
    operator-profit agent and a grid-friendliness agent each recommend a
    charger per user, and a coordinator settles the recommendations by a
    weighted vote under a queue cap of 4. Recommendations are dictionaries
    `{user_id: charger_id}`, kept as `Decisions`. */
module CoordinatedMas {
  import opened Wrappers
  import opened Geo
  import opened Entities
  import opened Config
  import Clock
  import Names
  import Sorting
  import RuleBased
  import opened CoordinatedUser
  import opened CoordinatedProfit
  import opened CoordinatedGrid

  // ---------------------------------------------------------------------------
  // Coordinator: weights

  /** The coordinator's vote weights per agent. */
  datatype AgentWeights = AgentWeights(user: real, profit: real, grid: real)

  const DefaultAgentWeights: AgentWeights := AgentWeights(0.4, 0.3, 0.3)

  function Sum(w: AgentWeights): real {
    w.user + w.profit + w.grid
  }

  /** The configured weights with the defaults 0.4/0.3/0.3 for missing keys. */
  function RawWeights(w: Weights): AgentWeights {
    AgentWeights(w.user.GetOr(0.4), w.profit.GetOr(0.3), w.grid.GetOr(0.3))
  }

  /** A positive total more than 1e-6 away from 1 calls for rescaling. */
  predicate OffBalance(t: real) {
    t > 0.0 && (t - 1.0 > 0.000001 || 1.0 - t > 0.000001)
  }

  /** `set_weights`: rescaled to sum to 1 when the total is positive and off
      by more than 1e-6, kept as given otherwise. */
  function SetWeights(w: Weights): (r: AgentWeights)
    ensures OffBalance(Sum(RawWeights(w))) ==>
              Sum(r) == 1.0
              && r.user * Sum(RawWeights(w)) == RawWeights(w).user
              && r.profit * Sum(RawWeights(w)) == RawWeights(w).profit
              && r.grid * Sum(RawWeights(w)) == RawWeights(w).grid
    ensures !OffBalance(Sum(RawWeights(w))) ==> r == RawWeights(w)
  {
    var raw := RawWeights(w);
    var t := Sum(raw);
    if OffBalance(t) then
      RuleBased.SumOfQuotients(raw.user, raw.profit, raw.grid, t);
      AgentWeights(raw.user / t, raw.profit / t, raw.grid / t)
    else raw
  }

  /** The weights the coordinator votes with. `set_weights` runs only for
      a non-empty `optimization_weights`; on an empty one it would give the
      defaults anyway. */
  function CoordinatorWeights(cfg: Config): (r: AgentWeights)
    ensures cfg.scheduler.weights.None? ==> r == DefaultAgentWeights
    ensures cfg.scheduler.weights.Some? ==> r == SetWeights(cfg.scheduler.weights.value)
  {
    match cfg.scheduler.weights
    case None => DefaultAgentWeights
    case Some(w) => SetWeights(w)
  }

  // ---------------------------------------------------------------------------
  // Coordinator: votes

  /** One agent's recommendation and the weight it carries. */
  datatype Vote = Vote(charger: ChargerId, weight: real)

  /** The recommendations for `uid` in the order user, profit, grid. */
  function Choices(uid: UserId, ur: Decisions, pr: Decisions, gr: Decisions, w: AgentWeights): (r: seq<Vote>)
    ensures |r| <= 3
    ensures forall v :: v in r ==>
              ChargerOf(ur, uid) == Some(v.charger) || ChargerOf(pr, uid) == Some(v.charger)
              || ChargerOf(gr, uid) == Some(v.charger)
  {
    (if ChargerOf(ur, uid).Some? then [Vote(ChargerOf(ur, uid).value, w.user)] else [])
    + (if ChargerOf(pr, uid).Some? then [Vote(ChargerOf(pr, uid).value, w.profit)] else [])
    + (if ChargerOf(gr, uid).Some? then [Vote(ChargerOf(gr, uid).value, w.grid)] else [])
  }

  /** The distinct chargers recommended for `uid`. */
  function Recommended(uid: UserId, ur: Decisions, pr: Decisions, gr: Decisions): set<ChargerId> {
    (if ChargerOf(ur, uid).Some? then {ChargerOf(ur, uid).value} else {})
    + (if ChargerOf(pr, uid).Some? then {ChargerOf(pr, uid).value} else {})
    + (if ChargerOf(gr, uid).Some? then {ChargerOf(gr, uid).value} else {})
  }

  /** A user whose agents disagree. */
  predicate Conflicted(uid: UserId, ur: Decisions, pr: Decisions, gr: Decisions) {
    |Recommended(uid, ur, pr, gr)| > 1
  }

  /** The weight the choices give `cid`. */
  function VoteFor(cs: seq<Vote>, cid: ChargerId): real
    decreases |cs|
  {
    if |cs| == 0 then 0.0
    else VoteFor(cs[..|cs| - 1], cid) + (if cs[|cs| - 1].charger == cid then cs[|cs| - 1].weight else 0.0)
  }

  ghost predicate DistinctVotes(vs: seq<Vote>) {
    forall i, j :: 0 <= i < j < |vs| ==> vs[i].charger != vs[j].charger
  }

  function VotedChargers(vs: seq<Vote>): set<ChargerId> {
    set v | v in vs :: v.charger
  }

  /** `charger_votes.get(cid, 0)`. */
  function WeightOf(vs: seq<Vote>, cid: ChargerId): (r: real)
    ensures cid !in VotedChargers(vs) ==> r == 0.0
    decreases |vs|
  {
    if |vs| == 0 then 0.0
    else if vs[0].charger == cid then vs[0].weight
    else
      assert forall x :: x in vs[1..] ==> x in vs;
      WeightOf(vs[1..], cid)
  }

  /** In a dictionary each charger's entry carries its lookup. */
  lemma {:induction false} WeightOfEntry(vs: seq<Vote>, x: Vote)
    requires DistinctVotes(vs) && x in vs
    ensures WeightOf(vs, x.charger) == x.weight
    decreases |vs|
  {
    if vs[0] != x {
      var j :| 0 <= j < |vs| && vs[j] == x;
      assert j > 0 && vs[0].charger != x.charger;
      assert vs[1..][j - 1] == x;
      WeightOfEntry(vs[1..], x);
    }
  }

  /** Lists with the same chargers position by position vote for the same
      chargers. */
  lemma SameChargers(a: seq<Vote>, b: seq<Vote>)
    requires |a| == |b| && forall i :: 0 <= i < |a| ==> a[i].charger == b[i].charger
    ensures VotedChargers(a) == VotedChargers(b)
  {
    forall k | k in VotedChargers(a) ensures k in VotedChargers(b) {
      var x :| x in a && x.charger == k;
      var i :| 0 <= i < |a| && a[i] == x;
      assert b[i] in b;
    }
    forall k | k in VotedChargers(b) ensures k in VotedChargers(a) {
      var x :| x in b && x.charger == k;
      var i :| 0 <= i < |b| && b[i] == x;
      assert a[i] in a;
    }
  }

  /** A vote dictionary is its first entry followed by a dictionary that
      does not hold that entry's charger. */
  lemma SplitVotes(vs: seq<Vote>)
    requires DistinctVotes(vs) && |vs| > 0
    ensures DistinctVotes(vs[1..]) && vs[0].charger !in VotedChargers(vs[1..])
    ensures VotedChargers(vs) == {vs[0].charger} + VotedChargers(vs[1..])
  {
    forall x | x in vs[1..] ensures x.charger != vs[0].charger {
      var j :| 0 <= j < |vs[1..]| && vs[1..][j] == x;
      assert vs[j + 1] == x;
    }
    assert forall x :: x in vs <==> x == vs[0] || x in vs[1..];
  }

  /** Putting a vote for a new charger in front keeps the dictionary. */
  lemma ConsVote(x: Vote, rest: seq<Vote>)
    requires DistinctVotes(rest) && x.charger !in VotedChargers(rest)
    ensures DistinctVotes([x] + rest)
    ensures VotedChargers([x] + rest) == {x.charger} + VotedChargers(rest)
  {
    var r := [x] + rest;
    assert r[1..] == rest;
    forall i, j | 0 <= i < j < |r| ensures r[i].charger != r[j].charger {
      assert r[j] == rest[j - 1] && r[j] in rest;
      if i > 0 {
        assert r[i] == rest[i - 1];
      }
    }
    assert forall y :: y in r <==> y == x || y in rest;
  }

  /** Raising the weight of the first entry keeps the dictionary. */
  lemma BumpFirstVote(vs: seq<Vote>, w: real)
    requires DistinctVotes(vs) && |vs| > 0
    ensures var r := vs[0 := Vote(vs[0].charger, w)];
            DistinctVotes(r) && VotedChargers(r) == VotedChargers(vs)
  {
    var r := vs[0 := Vote(vs[0].charger, w)];
    assert forall i :: 0 <= i < |r| ==> r[i].charger == vs[i].charger;
    SameChargers(r, vs);
  }

  /** `charger_votes[cid] += weight` on an insertion-ordered dictionary:
      the vote's charger gains the vote's weight, every other charger keeps
      its own. */
  function AddVote(vs: seq<Vote>, v: Vote): (r: seq<Vote>)
    requires DistinctVotes(vs)
    ensures DistinctVotes(r)
    ensures VotedChargers(r) == VotedChargers(vs) + {v.charger}
    ensures forall k :: WeightOf(r, k) == WeightOf(vs, k) + (if k == v.charger then v.weight else 0.0)
    decreases |vs|
  {
    if |vs| == 0 then [v]
    else
      SplitVotes(vs);
      if vs[0].charger == v.charger then
        BumpFirstVote(vs, vs[0].weight + v.weight);
        var r := vs[0 := Vote(v.charger, vs[0].weight + v.weight)];
        assert r[1..] == vs[1..];
        r
      else
        var rest := AddVote(vs[1..], v);
        ConsVote(vs[0], rest);
        assert ([vs[0]] + rest)[1..] == rest;
        [vs[0]] + rest
  }

  /** The chargers of a vote list, position by position. */
  function ChargersOf(vs: seq<Vote>): (r: seq<ChargerId>)
    ensures |r| == |vs| && forall i :: 0 <= i < |vs| ==> r[i] == vs[i].charger
  {
    seq(|vs|, i requires 0 <= i < |vs| => vs[i].charger)
  }

  lemma ChargersCons(x: Vote, rest: seq<Vote>)
    ensures ChargersOf([x] + rest) == [x.charger] + ChargersOf(rest)
  {
  }

  /** Raising the first entry's weight keeps the chargers in place. */
  lemma AddVoteOrderBump(vs: seq<Vote>, v: Vote)
    requires DistinctVotes(vs) && |vs| > 0 && vs[0].charger == v.charger
    ensures ChargersOf(AddVote(vs, v)) == ChargersOf(vs) && v.charger in ChargersOf(vs)
  {
    var r := vs[0 := Vote(v.charger, vs[0].weight + v.weight)];
    assert AddVote(vs, v) == r;
    assert ChargersOf(r) == ChargersOf(vs);
    assert ChargersOf(vs)[0] == v.charger;
  }

  /** Adding a vote keeps the dictionary's order: a charger already voted
      for stays where it is, a new one goes at the end. */
  lemma {:induction false} AddVoteOrder(vs: seq<Vote>, v: Vote)
    requires DistinctVotes(vs)
    ensures ChargersOf(AddVote(vs, v))
            == if v.charger in ChargersOf(vs) then ChargersOf(vs) else ChargersOf(vs) + [v.charger]
    decreases |vs|
  {
    if |vs| == 0 {
      assert AddVote(vs, v) == [v];
    } else if vs[0].charger == v.charger {
      AddVoteOrderBump(vs, v);
    } else {
      SplitVotes(vs);
      AddVoteOrder(vs[1..], v);
      var rest := AddVote(vs[1..], v);
      assert AddVote(vs, v) == [vs[0]] + rest;
      ChargersCons(vs[0], rest);
      assert vs == [vs[0]] + vs[1..];
      ChargersCons(vs[0], vs[1..]);
    }
  }

  /** The chargers the choices vote for that exist in `d`, each once, in the
      order of their first vote. */
  function CastOrder(cs: seq<Vote>, d: seq<Charger>): seq<ChargerId>
    decreases |cs|
  {
    if |cs| == 0 then []
    else
      var o := CastOrder(cs[..|cs| - 1], d);
      var c := cs[|cs| - 1].charger;
      if c in ChargerIds(d) && c !in o then o + [c] else o
  }

  /** The recommended chargers that exist in the charger dictionary. */
  function Known(cs: seq<Vote>, d: seq<Charger>): set<ChargerId> {
    set v | v in cs && v.charger in ChargerIds(d) :: v.charger
  }

  /** `charger_votes`: each recommended charger that exists, with the sum of
      the weights recommending it; unknown chargers get no vote. */
  function Tallied(cs: seq<Vote>, d: seq<Charger>): (r: seq<Vote>)
    ensures DistinctVotes(r)
    ensures VotedChargers(r) == Known(cs, d)
    ensures forall k :: k in ChargerIds(d) ==> WeightOf(r, k) == VoteFor(cs, k)
    decreases |cs|
  {
    if |cs| == 0 then []
    else
      var init := Tallied(cs[..|cs| - 1], d);
      var v := cs[|cs| - 1];
      assert forall x :: x in cs <==> x in cs[..|cs| - 1] || x == v;
      if v.charger in ChargerIds(d) then AddVote(init, v)
      else init
  }

  /** The tally lists the chargers in the order their first vote was cast. */
  lemma {:induction false} TalliedInCastOrder(cs: seq<Vote>, d: seq<Charger>)
    ensures ChargersOf(Tallied(cs, d)) == CastOrder(cs, d)
    decreases |cs|
  {
    if |cs| > 0 {
      var init := Tallied(cs[..|cs| - 1], d);
      var v := cs[|cs| - 1];
      TalliedInCastOrder(cs[..|cs| - 1], d);
      if v.charger in ChargerIds(d) {
        AddVoteOrder(init, v);
      }
    }
  }

  // ---------------------------------------------------------------------------
  // Coordinator: settling one user

  function NegWeight(v: Vote): real {
    -v.weight
  }

  /** A charger the coordinator may still assign: fewer than 4 counted and,
      when it is in the dictionary, not failed. */
  predicate Admits(d: seq<Charger>, counts: map<ChargerId, nat>, cid: ChargerId) {
    Tally(counts, cid) < MaxQueue
    && match ChargerIndex(d, cid)
       case Some(k) => d[k].status != Failure
       case None => true
  }

  /** `Admits` as a test on votes. */
  function AdmitsVote(d: seq<Charger>, counts: map<ChargerId, nat>): Vote -> bool {
    (v: Vote) => Admits(d, counts, v.charger)
  }

  function FirstAdmitted(b: seq<Vote>, d: seq<Charger>, counts: map<ChargerId, nat>): (r: Option<nat>)
    ensures r.Some? ==> r.value < |b| && Admits(d, counts, b[r.value].charger)
                        && forall j :: 0 <= j < r.value ==> !Admits(d, counts, b[j].charger)
    ensures r.None? ==> forall j :: 0 <= j < |b| ==> !Admits(d, counts, b[j].charger)
    decreases |b|
  {
    if |b| == 0 then None
    else if Admits(d, counts, b[0].charger) then Some(0)
    else
      match FirstAdmitted(b[1..], d, counts)
      case None => None
      case Some(i) => Some(i + 1)
  }

  /** The votes for `uid`, highest total weight first, ties in the order
      the votes were first cast. */
  function Ballot(uid: UserId, ur: Decisions, pr: Decisions, gr: Decisions, d: seq<Charger>,
                  w: AgentWeights): (r: seq<Vote>)
    ensures forall v :: v in r <==> v in Tallied(Choices(uid, ur, pr, gr, w), d)
    ensures Sorting.Sorted(r, NegWeight)
    ensures forall k :: Sorting.WithKey(r, NegWeight, k) == Sorting.WithKey(Tallied(Choices(uid, ur, pr, gr, w), d), NegWeight, k)
  {
    var t := Tallied(Choices(uid, ur, pr, gr, w), d);
    Sorting.SortBySorted(t, NegWeight);
    forall k ensures Sorting.WithKey(Sorting.SortBy(t, NegWeight), NegWeight, k) == Sorting.WithKey(t, NegWeight, k) {
      Sorting.SortByStable(t, NegWeight, k);
    }
    var r := Sorting.SortBy(t, NegWeight);
    assert forall v :: v in r <==> v in t by {
      forall v ensures v in r <==> v in t {
        assert v in r <==> v in multiset(r);
        assert v in t <==> v in multiset(t);
      }
    }
    r
  }

  /** In a ballot sorted by weight, the first admitted vote weighs at least
      as much as every admitted vote. */
  lemma FirstAdmittedIsTop(b: seq<Vote>, d: seq<Charger>, counts: map<ChargerId, nat>, x: Vote)
    requires Sorting.Sorted(b, NegWeight) && x in b
    ensures FirstAdmitted(b, d, counts).Some? && Admits(d, counts, x.charger)
            ==> x.weight <= b[FirstAdmitted(b, d, counts).value].weight
  {
    if FirstAdmitted(b, d, counts).Some? && Admits(d, counts, x.charger) {
      var i := FirstAdmitted(b, d, counts).value;
      var j :| 0 <= j < |b| && b[j] == x;
      assert i <= j;
      assert NegWeight(b[i]) <= NegWeight(b[j]);
    }
  }

  /** `FirstAdmitted` is the position of the first vote `AdmitsVote` accepts. */
  lemma {:induction false} FirstAdmittedWhere(b: seq<Vote>, d: seq<Charger>, counts: map<ChargerId, nat>)
    ensures FirstAdmitted(b, d, counts).None? <==> Sorting.FirstWhere(b, AdmitsVote(d, counts)).None?
    ensures FirstAdmitted(b, d, counts).Some? ==>
              Sorting.FirstWhere(b, AdmitsVote(d, counts)) == Some(b[FirstAdmitted(b, d, counts).value])
    decreases |b|
  {
    if |b| > 0 && !Admits(d, counts, b[0].charger) {
      FirstAdmittedWhere(b[1..], d, counts);
    }
  }

  /** The ballot admits nothing exactly when no tallied vote is admitted. */
  lemma BallotAdmits(uid: UserId, ur: Decisions, pr: Decisions, gr: Decisions, d: seq<Charger>,
                     w: AgentWeights, counts: map<ChargerId, nat>)
    ensures FirstAdmitted(Ballot(uid, ur, pr, gr, d, w), d, counts).None?
            <==> forall v :: v in Tallied(Choices(uid, ur, pr, gr, w), d) ==> !Admits(d, counts, v.charger)
  {
    var b := Ballot(uid, ur, pr, gr, d, w);
    match FirstAdmitted(b, d, counts)
    case None =>
      forall v | v in Tallied(Choices(uid, ur, pr, gr, w), d) ensures !Admits(d, counts, v.charger) {
        var j :| 0 <= j < |b| && b[j] == v;
      }
    case Some(i) =>
      assert b[i] in b;
  }

  /** The charger the coordinator gives `uid`, if any: the first admitted
      charger of the ballot. */
  function Settle(uid: UserId, ur: Decisions, pr: Decisions, gr: Decisions, d: seq<Charger>,
                  w: AgentWeights, counts: map<ChargerId, nat>): (r: Option<ChargerId>)
    ensures r.Some? ==> r.value in Recommended(uid, ur, pr, gr) && r.value in WorkingIds(d)
                        && Tally(counts, r.value) < MaxQueue
    ensures r.None? <==> forall v :: v in Tallied(Choices(uid, ur, pr, gr, w), d) ==> !Admits(d, counts, v.charger)
  {
    var b := Ballot(uid, ur, pr, gr, d, w);
    BallotAdmits(uid, ur, pr, gr, d, w, counts);
    match FirstAdmitted(b, d, counts)
    case None => None
    case Some(i) =>
      BallotTopIsWorking(uid, ur, pr, gr, d, w, counts, i);
      Some(b[i].charger)
  }

  /** The first admitted vote of the ballot names a recommended, working
      charger below the cap. */
  lemma BallotTopIsWorking(uid: UserId, ur: Decisions, pr: Decisions, gr: Decisions, d: seq<Charger>,
                           w: AgentWeights, counts: map<ChargerId, nat>, i: nat)
    requires FirstAdmitted(Ballot(uid, ur, pr, gr, d, w), d, counts) == Some(i)
    ensures var cid := Ballot(uid, ur, pr, gr, d, w)[i].charger;
            cid in Recommended(uid, ur, pr, gr) && cid in WorkingIds(d) && Tally(counts, cid) < MaxQueue
  {
    var b := Ballot(uid, ur, pr, gr, d, w);
    var cid := b[i].charger;
    var cs := Choices(uid, ur, pr, gr, w);
    assert b[i] in Tallied(cs, d);
    assert cid in Known(cs, d);
    var v :| v in cs && v.charger in ChargerIds(d) && v.charger == cid;
    var k := ChargerIndex(d, cid).value;
    assert d[k] in d;
  }

  /** The first admitted vote of a ballot sorted by descending weight is an
      admitted vote of the unsorted tally of greatest weight, and no earlier
      admitted vote of the tally weighs as much. */
  lemma FirstAdmittedHeaviest(t: seq<Vote>, d: seq<Charger>, counts: map<ChargerId, nat>)
    ensures var b := Sorting.SortBy(t, NegWeight);
            var i := FirstAdmitted(b, d, counts);
            i.Some? ==> exists j :: Sorting.LeastAt(t, NegWeight, AdmitsVote(d, counts), j) && t[j] == b[i.value]
  {
    var b := Sorting.SortBy(t, NegWeight);
    FirstAdmittedWhere(b, d, counts);
    Sorting.SortByFirstWhere(t, NegWeight, AdmitsVote(d, counts));
  }

  /** `cid` is the charger of the heaviest admitted vote of the tally `t`,
      and among equally heavy admitted votes of the earliest: every admitted
      vote weighs at most as much, and every admitted vote before it weighs
      strictly less. */
  ghost predicate FirstHeaviest(t: seq<Vote>, d: seq<Charger>, counts: map<ChargerId, nat>, cid: ChargerId) {
    exists j :: Sorting.LeastAt(t, NegWeight, AdmitsVote(d, counts), j) && t[j].charger == cid
  }

  /** The settled charger is the first heaviest admitted vote of the tally,
      which lists chargers in the order their first vote was cast. */
  lemma SettleFirstHeaviest(uid: UserId, ur: Decisions, pr: Decisions, gr: Decisions, d: seq<Charger>,
                            w: AgentWeights, counts: map<ChargerId, nat>)
    ensures var s := Settle(uid, ur, pr, gr, d, w, counts);
            s.Some? ==> FirstHeaviest(Tallied(Choices(uid, ur, pr, gr, w), d), d, counts, s.value)
  {
    if Settle(uid, ur, pr, gr, d, w, counts).Some? {
      var t := Tallied(Choices(uid, ur, pr, gr, w), d);
      var b := Ballot(uid, ur, pr, gr, d, w);
      var i := FirstAdmitted(b, d, counts).value;
      assert b == Sorting.SortBy(t, NegWeight);
      FirstAdmittedHeaviest(t, d, counts);
      var j :| Sorting.LeastAt(t, NegWeight, AdmitsVote(d, counts), j) && t[j] == b[i];
      assert Settle(uid, ur, pr, gr, d, w, counts) == Some(b[i].charger);
      assert FirstHeaviest(t, d, counts, b[i].charger);
    }
  }

  // ---------------------------------------------------------------------------
  // Coordinator: the pass over all users

  /** The keys of a decisions dictionary, in order. */
  function UsersOf(ds: Decisions): (r: seq<UserId>)
    ensures forall uid :: uid in r <==> uid in DecidedUsers(ds)
  {
    var r := seq(|ds|, i requires 0 <= i < |ds| => ds[i].user);
    assert forall uid :: uid in r <==> uid in DecidedUsers(ds) by {
      forall uid ensures uid in r <==> uid in DecidedUsers(ds) {
        if uid in r {
          var i :| 0 <= i < |r| && r[i] == uid;
          assert ds[i] in ds;
        }
        if uid in DecidedUsers(ds) {
          var a :| a in ds && a.user == uid;
          var i :| 0 <= i < |ds| && ds[i] == a;
          assert r[i] == uid;
        }
      }
    }
    r
  }

  /** `sorted(all_users)`: every user some agent recommended for, once, in
      ascending id order. */
  function AllUsers(ur: Decisions, pr: Decisions, gr: Decisions): (r: seq<UserId>)
    ensures Names.Ascending(r)
    ensures forall uid :: uid in r <==> uid in DecidedUsers(ur) + DecidedUsers(pr) + DecidedUsers(gr)
  {
    Names.SortedNames(UsersOf(ur) + UsersOf(pr) + UsersOf(gr))
  }

  /** The running count before the pass: occupant plus queue for every
      charger of the dictionary, failed ones included. */
  function SeedCounts(d: seq<Charger>): (m: map<ChargerId, nat>)
    ensures m.Keys == ChargerIds(d)
    decreases |d|
  {
    if |d| == 0 then map[]
    else
      var c := d[|d| - 1];
      assert d == d[..|d| - 1] + [c];
      var init := SeedCounts(d[..|d| - 1]);
      init[c.id := Tally(init, c.id) + Load(c)]
  }

  /** With distinct ids every charger starts at its own load. */
  lemma {:induction false} SeedCountsAreLoads(d: seq<Charger>, c: Charger)
    requires DistinctChargerIds(d) && c in d
    ensures Tally(SeedCounts(d), c.id) == Load(c)
    decreases |d|
  {
    var front := d[..|d| - 1];
    var last := d[|d| - 1];
    assert d == front + [last];
    if c != last {
      assert DistinctChargerIds(front);
      SeedCountsAreLoads(front, c);
      assert c.id != last.id by {
        var i :| 0 <= i < |front| && front[i] == c;
        assert d[i].id != d[|d| - 1].id;
      }
    }
  }

  /** Putting the smallest user in front of decisions about later users
      keeps them ascending. */
  lemma Prepended(us: seq<UserId>, cid: ChargerId, rest: Decisions)
    requires Names.Ascending(us) && |us| > 0
    requires forall i, j :: 0 <= i < j < |rest| ==> Names.LexLess(rest[i].user, rest[j].user)
    requires forall a :: a in rest ==> a.user in us[1..]
    ensures var r := [Assignment(us[0], cid)] + rest;
            forall i, j :: 0 <= i < j < |r| ==> Names.LexLess(r[i].user, r[j].user)
  {
    var r := [Assignment(us[0], cid)] + rest;
    forall i, j | 0 <= i < j < |r| ensures Names.LexLess(r[i].user, r[j].user) {
      assert r[j] == rest[j - 1] && r[j] in rest;
      if i == 0 {
        var k :| 0 <= k < |us[1..]| && us[1..][k] == r[j].user;
        assert us[k + 1] == r[j].user;
      } else {
        assert r[i] == rest[i - 1];
      }
    }
  }

  /** Putting a settled decision in front keeps every decision about a
      listed user, for a recommended working charger. */
  lemma PrependedMembers(us: seq<UserId>, cid: ChargerId, rest: Decisions,
                         ur: Decisions, pr: Decisions, gr: Decisions, d: seq<Charger>)
    requires |us| > 0 && cid in Recommended(us[0], ur, pr, gr) && cid in WorkingIds(d)
    requires forall a :: a in rest ==>
               a.user in us[1..] && a.charger in Recommended(a.user, ur, pr, gr) && a.charger in WorkingIds(d)
    ensures forall a :: a in [Assignment(us[0], cid)] + rest ==>
              a.user in us && a.charger in Recommended(a.user, ur, pr, gr) && a.charger in WorkingIds(d)
  {
    var r := [Assignment(us[0], cid)] + rest;
    assert forall a :: a in r <==> a == r[0] || a in rest;
    assert forall x :: x in us[1..] ==> x in us;
  }

  /** The coordinator's loop over the users in ascending order. */
  function Resolve(us: seq<UserId>, ur: Decisions, pr: Decisions, gr: Decisions, d: seq<Charger>,
                   w: AgentWeights, counts: map<ChargerId, nat>): (r: (Decisions, map<ChargerId, nat>))
    requires Names.Ascending(us)
    ensures forall i, j :: 0 <= i < j < |r.0| ==> Names.LexLess(r.0[i].user, r.0[j].user)
    ensures forall a :: a in r.0 ==>
              a.user in us && a.charger in Recommended(a.user, ur, pr, gr) && a.charger in WorkingIds(d)
    decreases |us|
  {
    if |us| == 0 then ([], counts)
    else
      assert Names.Ascending(us[1..]);
      match Settle(us[0], ur, pr, gr, d, w, counts)
      case None =>
        assert forall x :: x in us[1..] ==> x in us;
        Resolve(us[1..], ur, pr, gr, d, w, counts)
      case Some(cid) =>
        var rest := Resolve(us[1..], ur, pr, gr, d, w, Bump(counts, cid));
        Prepended(us, cid, rest.0);
        PrependedMembers(us, cid, rest.0, ur, pr, gr, d);
        ([Assignment(us[0], cid)] + rest.0, rest.1)
  }

  /** An ascending list does not repeat its first entry. */
  lemma HeadNotInTail(us: seq<UserId>)
    requires Names.Ascending(us) && |us| > 0
    ensures us[0] !in us[1..]
  {
    if us[0] in us[1..] {
      var k :| 0 <= k < |us[1..]| && us[1..][k] == us[0];
      assert Names.LexLess(us[0], us[k + 1]);
      Names.LexLessIrreflexive(us[0]);
    }
  }

  /** The pass's first step: the first user gets what `Settle` gives at the
      incoming counts, and the rest of the pass runs from the counts that
      decision leaves. */
  lemma ResolveHead(us: seq<UserId>, ur: Decisions, pr: Decisions, gr: Decisions, d: seq<Charger>,
                    w: AgentWeights, counts: map<ChargerId, nat>)
    requires Names.Ascending(us) && |us| > 0 && Names.Ascending(us[1..])
    ensures var s := Settle(us[0], ur, pr, gr, d, w, counts);
            var next := if s.Some? then Bump(counts, s.value) else counts;
            var r := Resolve(us, ur, pr, gr, d, w, counts);
            var rest := Resolve(us[1..], ur, pr, gr, d, w, next);
            r.1 == rest.1
            && ChargerOf(r.0, us[0]) == s
            && forall uid :: uid != us[0] ==> ChargerOf(r.0, uid) == ChargerOf(rest.0, uid)
  {
    var s := Settle(us[0], ur, pr, gr, d, w, counts);
    match s
    case None =>
      ResolveSkip(us, ur, pr, gr, d, w, counts);
      HeadNotInTail(us);
    case Some(cid) =>
      ResolveTake(us, ur, pr, gr, d, w, counts, cid);
      var rest := Resolve(us[1..], ur, pr, gr, d, w, Bump(counts, cid));
      ChargerOfCons(Assignment(us[0], cid), rest.0);
  }

  /** A first user who is settled nowhere is passed over. */
  lemma ResolveSkip(us: seq<UserId>, ur: Decisions, pr: Decisions, gr: Decisions, d: seq<Charger>,
                    w: AgentWeights, counts: map<ChargerId, nat>)
    requires Names.Ascending(us) && |us| > 0 && Names.Ascending(us[1..])
    requires Settle(us[0], ur, pr, gr, d, w, counts).None?
    ensures Resolve(us, ur, pr, gr, d, w, counts) == Resolve(us[1..], ur, pr, gr, d, w, counts)
  {
  }

  /** A first user settled at `cid` is decided first, and the rest of the
      pass counts that decision. */
  lemma ResolveTake(us: seq<UserId>, ur: Decisions, pr: Decisions, gr: Decisions, d: seq<Charger>,
                    w: AgentWeights, counts: map<ChargerId, nat>, cid: ChargerId)
    requires Names.Ascending(us) && |us| > 0 && Names.Ascending(us[1..])
    requires Settle(us[0], ur, pr, gr, d, w, counts) == Some(cid)
    ensures var rest := Resolve(us[1..], ur, pr, gr, d, w, Bump(counts, cid));
            Resolve(us, ur, pr, gr, d, w, counts) == ([Assignment(us[0], cid)] + rest.0, rest.1)
  {
  }

  /** Each user of the pass gets exactly what `Settle` gives at the counts
      the earlier users' decisions leave: a decision when an admitted
      charger was voted for, and the first admitted one of the ballot. */
  lemma {:induction false} ResolveInTurn(us: seq<UserId>, ur: Decisions, pr: Decisions, gr: Decisions,
                                         d: seq<Charger>, w: AgentWeights, counts: map<ChargerId, nat>, j: nat)
    requires Names.Ascending(us) && j < |us|
    ensures Names.Ascending(us[..j])
    ensures ChargerOf(Resolve(us, ur, pr, gr, d, w, counts).0, us[j])
            == Settle(us[j], ur, pr, gr, d, w, Resolve(us[..j], ur, pr, gr, d, w, counts).1)
    decreases j
  {
    Names.AscendingSlice(us, 0, j);
    assert us[0..j] == us[..j];
    if j == 0 {
      Names.AscendingSlice(us, 1, |us|);
      assert us[1..|us|] == us[1..];
      ResolveHead(us, ur, pr, gr, d, w, counts);
    } else {
      var s := Settle(us[0], ur, pr, gr, d, w, counts);
      var next := if s.Some? then Bump(counts, s.value) else counts;
      ResolveLater(us, ur, pr, gr, d, w, counts, next, j);
      ResolveInTurn(us[1..], ur, pr, gr, d, w, next, j - 1);
    }
  }

  /** A later user's decision and the counts before it are those of the
      pass over the remaining users, started from the counts the first
      decision leaves. */
  lemma ResolveLater(us: seq<UserId>, ur: Decisions, pr: Decisions, gr: Decisions, d: seq<Charger>,
                     w: AgentWeights, counts: map<ChargerId, nat>, next: map<ChargerId, nat>, j: nat)
    requires Names.Ascending(us) && 0 < j < |us|
    requires next == (var s := Settle(us[0], ur, pr, gr, d, w, counts); if s.Some? then Bump(counts, s.value) else counts)
    ensures Names.Ascending(us[1..]) && Names.Ascending(us[..j]) && Names.Ascending(us[1..][..j - 1])
    ensures us[1..][j - 1] == us[j]
    ensures ChargerOf(Resolve(us, ur, pr, gr, d, w, counts).0, us[j])
            == ChargerOf(Resolve(us[1..], ur, pr, gr, d, w, next).0, us[j])
    ensures Resolve(us[..j], ur, pr, gr, d, w, counts).1 == Resolve(us[1..][..j - 1], ur, pr, gr, d, w, next).1
  {
    Names.AscendingSlice(us, 1, |us|);
    assert us[1..|us|] == us[1..];
    LaterDecision(us, ur, pr, gr, d, w, counts, next, j);
    LaterCounts(us, ur, pr, gr, d, w, counts, next, j);
  }

  /** The counts before a later user are those the pass over the remaining
      users reaches from the counts the first decision leaves. */
  lemma LaterCounts(us: seq<UserId>, ur: Decisions, pr: Decisions, gr: Decisions, d: seq<Charger>,
                    w: AgentWeights, counts: map<ChargerId, nat>, next: map<ChargerId, nat>, j: nat)
    requires Names.Ascending(us) && 0 < j < |us|
    requires next == (var s := Settle(us[0], ur, pr, gr, d, w, counts); if s.Some? then Bump(counts, s.value) else counts)
    ensures Names.Ascending(us[..j]) && Names.Ascending(us[1..][..j - 1])
    ensures Resolve(us[..j], ur, pr, gr, d, w, counts).1 == Resolve(us[1..][..j - 1], ur, pr, gr, d, w, next).1
  {
    var pre := us[..j];
    Sorting.PrefixTail(us, j);
    Names.AscendingSlice(us, 0, j);
    Names.AscendingSlice(pre, 1, j);
    assert pre[1..j] == pre[1..] && pre[0..j] == pre;
    ResolveHead(pre, ur, pr, gr, d, w, counts);
  }

  /** A user other than the first keeps the decision the rest of the pass
      gives. */
  lemma LaterDecision(us: seq<UserId>, ur: Decisions, pr: Decisions, gr: Decisions, d: seq<Charger>,
                      w: AgentWeights, counts: map<ChargerId, nat>, next: map<ChargerId, nat>, j: nat)
    requires Names.Ascending(us) && 0 < j < |us| && Names.Ascending(us[1..])
    requires next == (var s := Settle(us[0], ur, pr, gr, d, w, counts); if s.Some? then Bump(counts, s.value) else counts)
    ensures ChargerOf(Resolve(us, ur, pr, gr, d, w, counts).0, us[j])
            == ChargerOf(Resolve(us[1..], ur, pr, gr, d, w, next).0, us[j])
  {
    ResolveHead(us, ur, pr, gr, d, w, counts);
    assert us[0] != us[j] by {
      Names.LexLessIrreflexive(us[0]);
    }
  }

  /** The counts the pass returns are the seed plus its decisions. */
  lemma {:induction false} ResolveCounts(us: seq<UserId>, ur: Decisions, pr: Decisions, gr: Decisions, d: seq<Charger>,
                                         w: AgentWeights, counts: map<ChargerId, nat>, k: ChargerId)
    requires Names.Ascending(us)
    ensures var r := Resolve(us, ur, pr, gr, d, w, counts);
            Tally(r.1, k) == Tally(counts, k) + AssignedTo(r.0, k)
    decreases |us|
  {
    if |us| > 0 {
      assert Names.Ascending(us[1..]);
      match Settle(us[0], ur, pr, gr, d, w, counts)
      case None =>
        assert Resolve(us, ur, pr, gr, d, w, counts) == Resolve(us[1..], ur, pr, gr, d, w, counts);
        ResolveCounts(us[1..], ur, pr, gr, d, w, counts, k);
      case Some(cid) =>
        var rest := Resolve(us[1..], ur, pr, gr, d, w, Bump(counts, cid));
        assert Resolve(us, ur, pr, gr, d, w, counts) == ([Assignment(us[0], cid)] + rest.0, rest.1);
        ResolveCounts(us[1..], ur, pr, gr, d, w, Bump(counts, cid), k);
        AssignedToCons(Assignment(us[0], cid), rest.0, k);
    }
  }

  /** A charger the pass assigns to ends with its count at most 4. */
  lemma {:induction false} ResolveCapped(us: seq<UserId>, ur: Decisions, pr: Decisions, gr: Decisions, d: seq<Charger>,
                                         w: AgentWeights, counts: map<ChargerId, nat>, k: ChargerId)
    requires Names.Ascending(us)
    ensures AssignedTo(Resolve(us, ur, pr, gr, d, w, counts).0, k) > 0
            ==> Tally(Resolve(us, ur, pr, gr, d, w, counts).1, k) <= MaxQueue
    decreases |us|
  {
    if |us| > 0 {
      assert Names.Ascending(us[1..]);
      match Settle(us[0], ur, pr, gr, d, w, counts)
      case None =>
        ResolveCapped(us[1..], ur, pr, gr, d, w, counts, k);
      case Some(cid) =>
        var bumped := Bump(counts, cid);
        var rest := Resolve(us[1..], ur, pr, gr, d, w, bumped);
        assert Resolve(us, ur, pr, gr, d, w, counts) == ([Assignment(us[0], cid)] + rest.0, rest.1);
        AssignedToCons(Assignment(us[0], cid), rest.0, k);
        ResolveCapped(us[1..], ur, pr, gr, d, w, bumped, k);
        if AssignedTo(rest.0, k) == 0 {
          ResolveCounts(us[1..], ur, pr, gr, d, w, bumped, k);
        }
    }
  }

  /** `resolve_conflicts`. */
  function ResolveConflicts(ur: Decisions, pr: Decisions, gr: Decisions, chargers: seq<Charger>,
                            w: AgentWeights): (r: Decisions)
    ensures |chargers| == 0 ==> r == []
    ensures forall i, j :: 0 <= i < j < |r| ==> Names.LexLess(r[i].user, r[j].user)
    ensures forall a :: a in r ==>
              a.user in DecidedUsers(ur) + DecidedUsers(pr) + DecidedUsers(gr)
              && a.charger in Recommended(a.user, ur, pr, gr) && a.charger in WorkingIds(chargers)
  {
    if |chargers| == 0 then []
    else
      var d := ChargerDict(chargers);
      assert WorkingIds(d) <= WorkingIds(chargers);
      Resolve(AllUsers(ur, pr, gr), ur, pr, gr, d, w, SeedCounts(d)).0
  }

  /** In the coordinator's pass each user, in ascending id order, gets
      exactly what `Settle` gives at the counts the seed and the earlier
      decisions make up. */
  lemma ResolveConflictsInTurn(ur: Decisions, pr: Decisions, gr: Decisions, chargers: seq<Charger>,
                               w: AgentWeights, j: nat)
    requires |chargers| > 0 && j < |AllUsers(ur, pr, gr)|
    ensures Names.Ascending(AllUsers(ur, pr, gr)[..j])
    ensures var us := AllUsers(ur, pr, gr);
            var d := ChargerDict(chargers);
            var p := Resolve(us[..j], ur, pr, gr, d, w, SeedCounts(d));
            ChargerOf(ResolveConflicts(ur, pr, gr, chargers, w), us[j]) == Settle(us[j], ur, pr, gr, d, w, p.1)
            && forall k :: Tally(p.1, k) == Tally(SeedCounts(d), k) + AssignedTo(p.0, k)
  {
    var us := AllUsers(ur, pr, gr);
    var d := ChargerDict(chargers);
    ResolveInTurn(us, ur, pr, gr, d, w, SeedCounts(d), j);
    ResolveCountsAll(us[..j], ur, pr, gr, d, w, SeedCounts(d));
  }

  /** `ResolveCounts` for every charger at once. */
  lemma ResolveCountsAll(us: seq<UserId>, ur: Decisions, pr: Decisions, gr: Decisions, d: seq<Charger>,
                         w: AgentWeights, counts: map<ChargerId, nat>)
    requires Names.Ascending(us)
    ensures var r := Resolve(us, ur, pr, gr, d, w, counts);
            forall k :: Tally(r.1, k) == Tally(counts, k) + AssignedTo(r.0, k)
  {
    forall k {
      ResolveCounts(us, ur, pr, gr, d, w, counts, k);
    }
  }

  /** How many entries of `us` satisfy `p`. */
  function CountWhere(us: seq<UserId>, p: UserId -> bool): nat
    decreases |us|
  {
    if |us| == 0 then 0 else (if p(us[0]) then 1 else 0) + CountWhere(us[1..], p)
  }

  /** Over a list without repeats the count is the size of the set of
      entries that satisfy `p`. */
  lemma {:induction false} CountWhereIsSetSize(us: seq<UserId>, p: UserId -> bool)
    requires Names.Ascending(us)
    ensures CountWhere(us, p) == |set uid | uid in us && p(uid)|
    decreases |us|
  {
    if |us| == 0 {
      assert (set uid | uid in us && p(uid)) == {};
    } else {
      var all := set uid | uid in us && p(uid);
      var tail := set uid | uid in us[1..] && p(uid);
      assert Names.Ascending(us[1..]);
      CountWhereIsSetSize(us[1..], p);
      assert us[0] !in us[1..] by {
        if us[0] in us[1..] {
          var k :| 0 <= k < |us[1..]| && us[1..][k] == us[0];
          assert Names.LexLess(us[0], us[k + 1]);
          Names.LexLessIrreflexive(us[0]);
        }
      }
      assert forall x :: x in us <==> x == us[0] || x in us[1..];
      if p(us[0]) {
        assert all == {us[0]} + tail;
      } else {
        assert all == tail;
      }
    }
  }

  /** `conflict_count` of one coordinator call. */
  function Conflicts(ur: Decisions, pr: Decisions, gr: Decisions): nat
  {
    CountWhere(AllUsers(ur, pr, gr), (uid: UserId) => Conflicted(uid, ur, pr, gr))
  }

  // ---------------------------------------------------------------------------
  // The whole system

  /** `MultiAgentSystem.make_decisions`: the three agents, then the
      coordinator. The profit agent's `AttributeError` propagates. */
  function MakeDecisions(s: Snapshot, cfg: Config, sqrt: SqrtFn): (r: Result<Decisions>)
    ensures r.Err? ==> r.error.AttributeError?
    ensures r.Err? <==> ProfitAgent(s).Err?
    ensures r.Ok? ==> forall i, j :: 0 <= i < j < |r.value| ==> Names.LexLess(r.value[i].user, r.value[j].user)
    ensures r.Ok? ==> forall a :: a in r.value ==> a.charger in WorkingIds(s.chargers)
  {
    var ur := UserAgent(s, sqrt);
    match ProfitAgent(s)
    case Err(e) => Err(e)
    case Ok(pr) => Ok(ResolveConflicts(ur, pr, GridAgent(s), s.chargers, CoordinatorWeights(cfg)))
  }

  /** In a successful call every user some agent recommended for gets
      exactly what the coordinator's `Settle` gives at that user's turn. */
  lemma MakeDecisionsInTurn(s: Snapshot, cfg: Config, sqrt: SqrtFn, j: nat)
    requires |s.chargers| > 0
    ensures var r := MakeDecisions(s, cfg, sqrt);
            r.Ok? ==>
              ProfitAgent(s).Ok?
              && var ur := UserAgent(s, sqrt);
                 var pr := ProfitAgent(s).value;
                 var gr := GridAgent(s);
                 var us := AllUsers(ur, pr, gr);
                 var d := ChargerDict(s.chargers);
                 (forall uid :: uid in DecidedUsers(r.value) ==> uid in us)
                 && (j < |us| ==>
                       Names.Ascending(us[..j])
                       && ChargerOf(r.value, us[j])
                          == Settle(us[j], ur, pr, gr, d, CoordinatorWeights(cfg),
                                    Resolve(us[..j], ur, pr, gr, d, CoordinatorWeights(cfg), SeedCounts(d)).1))
  {
    var r := MakeDecisions(s, cfg, sqrt);
    if r.Ok? && ProfitAgent(s).Ok? {
      var ur := UserAgent(s, sqrt);
      var pr := ProfitAgent(s).value;
      var gr := GridAgent(s);
      assert r.value == ResolveConflicts(ur, pr, gr, s.chargers, CoordinatorWeights(cfg));
      if j < |AllUsers(ur, pr, gr)| {
        ResolveConflictsInTurn(ur, pr, gr, s.chargers, CoordinatorWeights(cfg), j);
      }
    }
  }
}
