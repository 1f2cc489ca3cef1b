/** The scheduling front end: which algorithm runs, the fallbacks that keep
    every exception inside, and, for the MARL scheduler, the per-charger
    action maps and their conversion into decisions. */
module Scheduler {
  import opened Wrappers
  import opened Numeric
  import opened Geo
  import opened Entities
  import opened Config
  import Sorting
  import Names
  import Marl
  import RuleBased
  import Uncoordinated
  import CoordinatedProfit
  import CoordinatedMas

  /** What `make_scheduling_decision` receives: a state dictionary, or
      something empty or not a dictionary at all. */
  datatype Input = Invalid | State(s: Snapshot)

  /** A scheduler after `__init__`: the configuration, the algorithm it
      settled on, and the subsystem it built for it. */
  datatype Scheduler = Scheduler(cfg: Config, algorithm: string, mas: bool, marl: Option<Marl.Agents>)

  /** `charger_count`, or `station_count * chargers_per_station` (20 and 10
      by default) when it is absent. */
  function ChargerCount(env: EnvConfig): int {
    if env.chargerCount.Some? then env.chargerCount.value
    else env.stationCount.GetOr(20) * env.chargersPerStation.GetOr(10)
  }

  /** The MARL agents the scheduler builds: action-space size 6, learning
      rate 0.01, discount 0.95 and exploration 0.1 unless configured. */
  function MarlAgents(cfg: Config, stored: map<string, map<Marl.AgentState, seq<real>>>): Marl.Agents {
    var m := cfg.scheduler.marl;
    var size := m.actionSpaceSize.GetOr(6);
    Marl.MakeAgents(ChargerCount(cfg.env), if size >= 0 then size else 0,
                    m.learningRate.GetOr(0.01), m.discountFactor.GetOr(0.95), m.explorationRate.GetOr(0.1), stored)
  }

  /** `ChargingScheduler.__init__`. `ready` says whether importing and
      building the configured subsystem succeeded; when it did not, the
      scheduler downgrades to `rule_based`. */
  function Init(cfg: Config, ready: bool, stored: map<string, map<Marl.AgentState, seq<real>>>): (r: Scheduler)
    ensures r.cfg == cfg
    ensures var wanted := cfg.scheduler.algorithm.GetOr("rule_based");
            r.algorithm == (if (wanted == "coordinated_mas" || wanted == "marl") && !ready then "rule_based" else wanted)
    ensures r.mas <==> r.algorithm == "coordinated_mas"
    ensures r.marl.Some? <==> r.algorithm == "marl"
  {
    var wanted := cfg.scheduler.algorithm.GetOr("rule_based");
    if wanted == "coordinated_mas" then
      if ready then Scheduler(cfg, wanted, true, None) else Scheduler(cfg, "rule_based", false, None)
    else if wanted == "marl" then
      if ready then Scheduler(cfg, wanted, false, Some(MarlAgents(cfg, stored)))
      else Scheduler(cfg, "rule_based", false, None)
    else Scheduler(cfg, wanted, false, None)
  }

  // ---------------------------------------------------------------------------
  // MARL action maps

  /** The candidate-selection parameters of `_create_dynamic_action_map`. */
  datatype Params = Params(size: int, maxSq: real, wSoc: real, wDist: real, wUrgency: real)

  /** Defaults: 6 actions, a radius of 0.15 degrees, weights 0.5 / 0.4 / 0.1. */
  function ParamsOf(cfg: Config): Params {
    var m := cfg.scheduler.marl;
    Params(m.actionSpaceSize.GetOr(6), m.maxDistSq.GetOr(0.0225),
           m.wSoc.GetOr(0.5), m.wDist.GetOr(0.4), m.wUrgency.GetOr(0.1))
  }

  /** The profile's charge threshold: 50 for anxious, 30 for economic users, 40 otherwise. */
  function SeekThreshold(profile: string): (t: real)
    ensures 30.0 <= t <= 50.0
  {
    if profile == "anxious" then 50.0 else if profile == "economic" then 30.0 else 40.0
  }

  /** `is_actively_seeking`: the flag is set and the user neither charges nor
      waits, or the user is idle or travelling with no target and below the
      profile threshold. */
  predicate Seeking(u: User) {
    (u.needsCharge && Free(u))
    || ((u.status == Idle || u.status == Traveling) && u.target.None? && u.soc < SeekThreshold(u.profile))
  }

  /** A user the charger's map may name: a non-empty id, seeking charge,
      both positions present and closer than the radius. */
  predicate Mappable(u: User, c: Charger, p: Params) {
    u.id != "" && Seeking(u) && u.position.Some? && c.position.Some?
    && SquaredDegrees(u.position.value, c.position.value) < p.maxSq
  }

  function MappableIds(users: seq<User>, c: Charger, p: Params): set<UserId> {
    set u | u in users && Mappable(u, c, p) :: u.id
  }

  /** `max(0, threshold - soc) / threshold`. */
  function Urgency(u: User): (r: real)
    ensures r >= 0.0
    ensures u.soc >= 0.0 ==> r <= 1.0
  {
    var t := SeekThreshold(u.profile);
    var x := Max(0.0, t - u.soc);
    assert u.soc >= 0.0 ==> x / t <= 1.0 by {
      if u.soc >= 0.0 {
        assert x <= t;
        assert x / t <= t / t;
      }
    }
    x / t
  }

  /** `min(1, sqrt(dist_sq) / sqrt(max_dist_sq))`. */
  function NormalizedDistance(dsq: real, maxSq: real, sqrt: SqrtFn): (r: real)
    requires 0.0 <= dsq < maxSq
    ensures 0.0 <= r <= 1.0
  {
    Min(1.0, sqrt(dsq) / sqrt(maxSq))
  }

  /** A mapped user and its priority. */
  datatype Potential = Potential(id: UserId, priority: real)

  /** `1 - soc / 100`, the charge still missing as a fraction. */
  function Missing(soc: real): (r: real)
    ensures 0.0 <= soc <= 100.0 ==> 0.0 <= r <= 1.0
  {
    1.0 - soc / 100.0
  }

  /** The priority of a mapped user. */
  function PriorityOf(u: User, c: Charger, p: Params, sqrt: SqrtFn): real
    requires Mappable(u, c, p)
  {
    PriorityAt(u, SquaredDegrees(u.position.value, c.position.value), p, sqrt)
  }

  /** `w_soc * (1 - soc / 100) + w_dist * (1 - normalized_distance) + w_urgency * urgency`
      at squared distance `dsq`. */
  function PriorityAt(u: User, dsq: real, p: Params, sqrt: SqrtFn): real
    requires 0.0 <= dsq < p.maxSq
  {
    p.wSoc * Missing(u.soc) + p.wDist * (1.0 - NormalizedDistance(dsq, p.maxSq, sqrt)) + p.wUrgency * Urgency(u)
  }

  /** With non-negative weights and a SoC in [0, 100] the priority lies
      between 0 and the sum of the weights. */
  lemma PriorityBounded(u: User, dsq: real, p: Params, sqrt: SqrtFn)
    requires 0.0 <= dsq < p.maxSq
    requires 0.0 <= u.soc <= 100.0 && p.wSoc >= 0.0 && p.wDist >= 0.0 && p.wUrgency >= 0.0
    ensures 0.0 <= PriorityAt(u, dsq, p, sqrt) <= p.wSoc + p.wDist + p.wUrgency
  {
    WeightedSumBounded(p.wSoc, p.wDist, p.wUrgency, Missing(u.soc),
                       1.0 - NormalizedDistance(dsq, p.maxSq, sqrt), Urgency(u), PriorityAt(u, dsq, p, sqrt));
  }

  /** A weighted sum `t` of three fractions lies between 0 and the sum of
      the weights. */
  lemma WeightedSumBounded(w1: real, w2: real, w3: real, x1: real, x2: real, x3: real, t: real)
    requires w1 >= 0.0 && w2 >= 0.0 && w3 >= 0.0
    requires 0.0 <= x1 <= 1.0 && 0.0 <= x2 <= 1.0 && 0.0 <= x3 <= 1.0
    requires t == w1 * x1 + w2 * x2 + w3 * x3
    ensures 0.0 <= t <= w1 + w2 + w3
  {
    var y1 := Fraction(w1, x1);
    var y2 := Fraction(w2, x2);
    var y3 := Fraction(w3, x3);
    Sum3(y1, y2, y3, w1, w2, w3);
  }

  lemma Sum3(y1: real, y2: real, y3: real, w1: real, w2: real, w3: real)
    requires 0.0 <= y1 <= w1 && 0.0 <= y2 <= w2 && 0.0 <= y3 <= w3
    ensures 0.0 <= y1 + y2 + y3 <= w1 + w2 + w3
  {
  }

  lemma Fraction(w: real, x: real) returns (y: real)
    requires w >= 0.0 && 0.0 <= x <= 1.0
    ensures y == w * x && 0.0 <= y <= w
  {
    y := w * x;
    assert w - y == w * (1.0 - x);
  }

  /** The potential users of a charger, in the order of the users list. */
  function Potentials(users: seq<User>, c: Charger, p: Params, sqrt: SqrtFn): (r: seq<Potential>)
    ensures forall x :: x in r ==> x.id in MappableIds(users, c, p)
    ensures forall u :: u in users && Mappable(u, c, p) ==> Potential(u.id, PriorityOf(u, c, p, sqrt)) in r
    decreases |users|
  {
    if |users| == 0 then []
    else
      var rest := Potentials(users[1..], c, p, sqrt);
      assert forall u :: u in users <==> u == users[0] || u in users[1..];
      var u := users[0];
      (if Mappable(u, c, p) then [Potential(u.id, PriorityOf(u, c, p, sqrt))] else []) + rest
  }

  function NegPriority(x: Potential): real {
    -x.priority
  }

  /** The potential users, highest priority first; equal priorities keep
      the users list's order (the sort is stable). */
  function Ranked(users: seq<User>, c: Charger, p: Params, sqrt: SqrtFn): (r: seq<Potential>)
    ensures forall i, j :: 0 <= i < j < |r| ==> r[i].priority >= r[j].priority
    ensures multiset(r) == multiset(Potentials(users, c, p, sqrt))
    ensures forall k :: Sorting.WithKey(r, NegPriority, k) == Sorting.WithKey(Potentials(users, c, p, sqrt), NegPriority, k)
  {
    var r := Sorting.SortBy(Potentials(users, c, p, sqrt), NegPriority);
    forall k ensures Sorting.WithKey(r, NegPriority, k) == Sorting.WithKey(Potentials(users, c, p, sqrt), NegPriority, k) {
      Sorting.SortByStable(Potentials(users, c, p, sqrt), NegPriority, k);
    }
    Sorting.SortBySorted(Potentials(users, c, p, sqrt), NegPriority);
    assert forall i, j :: 0 <= i < j < |r| ==> NegPriority(r[i]) <= NegPriority(r[j]);
    r
  }

  function Ids(xs: seq<Potential>): (r: seq<UserId>)
    ensures |r| == |xs| && forall i :: 0 <= i < |xs| ==> r[i] == xs[i].id
  {
    seq(|xs|, i requires 0 <= i < |xs| => xs[i].id)
  }

  /** `_create_dynamic_action_map(charger_id, state)`: `idle` at index 0,
      then the ids of up to `size - 1` potential users in priority order;
      only `idle` for an unknown or failed charger. */
  function ActionMapFor(cid: ChargerId, s: Snapshot, p: Params, sqrt: SqrtFn): (m: Marl.ActionMap)
    ensures |m| >= 1 && m[0] == Marl.IdleAction
    ensures |m| - 1 <= Slots(p)
    ensures FindCharger(s.chargers, cid).None? || FindCharger(s.chargers, cid).value.status == Failure
            ==> m == [Marl.IdleAction]
    ensures |m| > 1 ==> forall i :: 1 <= i < |m| ==> m[i] in MappableIds(s.users, FindCharger(s.chargers, cid).value, p)
  {
    match FindCharger(s.chargers, cid)
    case None => [Marl.IdleAction]
    case Some(c) =>
      if c.status == Failure then [Marl.IdleAction]
      else
        [Marl.IdleAction] + TopIds(s.users, c, p, sqrt)
  }

  /** `max_potential_users`: the user slots after `idle`; none when the
      action space has fewer than two entries. */
  function Slots(p: Params): nat {
    if p.size >= 1 then p.size - 1 else 0
  }

  /** The ids of the `size - 1` highest-priority potential users. */
  function TopIds(users: seq<User>, c: Charger, p: Params, sqrt: SqrtFn): (r: seq<UserId>)
    ensures |r| <= Slots(p)
    ensures forall i :: 0 <= i < |r| ==> r[i] in MappableIds(users, c, p)
  {
    var top := Sorting.Prefix(Ranked(users, c, p, sqrt), Slots(p));
    RankedMappable(users, c, p, sqrt, top);
    Ids(top)
  }

  lemma RankedMappable(users: seq<User>, c: Charger, p: Params, sqrt: SqrtFn, top: seq<Potential>)
    requires |top| <= |Ranked(users, c, p, sqrt)| && top == Ranked(users, c, p, sqrt)[..|top|]
    ensures forall x :: x in top ==> x.id in MappableIds(users, c, p)
  {
    var ranked := Ranked(users, c, p, sqrt);
    forall x | x in top ensures x.id in MappableIds(users, c, p) {
      assert x in ranked;
      assert x in multiset(Potentials(users, c, p, sqrt));
    }
  }

  /** The mapped users appear in non-increasing priority order: entry `i`
      of the map is the `i`-th most urgent potential user. */
  lemma ActionMapInPriorityOrder(cid: ChargerId, s: Snapshot, p: Params, sqrt: SqrtFn, c: Charger)
    requires FindCharger(s.chargers, cid) == Some(c) && c.status != Failure
    ensures var m := ActionMapFor(cid, s, p, sqrt);
            var ranked := Ranked(s.users, c, p, sqrt);
            |m| - 1 == (if Slots(p) < |ranked| then Slots(p) else |ranked|)
            && m[1..] == Ids(ranked[..|m| - 1])
  {
  }

  /** `charger_action_maps`: a map for every charger with an id that has not failed. */
  function ActionMaps(cs: seq<Charger>, s: Snapshot, p: Params, sqrt: SqrtFn): (r: map<ChargerId, Marl.ActionMap>)
    ensures r.Keys == set c | c in cs && c.id != "" && c.status != Failure :: c.id
    ensures forall k :: k in r ==> r[k] == ActionMapFor(k, s, p, sqrt)
    decreases |cs|
  {
    if |cs| == 0 then map[]
    else
      var c := cs[|cs| - 1];
      var front := ActionMaps(cs[..|cs| - 1], s, p, sqrt);
      assert forall x :: x in cs <==> x in cs[..|cs| - 1] || x == c;
      if c.id != "" && c.status != Failure then front[c.id := ActionMapFor(c.id, s, p, sqrt)] else front
  }

  // ---------------------------------------------------------------------------
  // Converting agent actions into decisions

  /** The user one agent action claims: its index is not 0, its charger has
      a map, the map names a user (not `idle`, not empty) at that index, and
      that user is in the state. */
  function Claim(x: Marl.Action, maps: map<ChargerId, Marl.ActionMap>, s: Snapshot): (r: Option<UserId>)
    ensures r.Some? ==> x.index != 0 && x.charger in maps && x.index < |maps[x.charger]|
                        && maps[x.charger][x.index] == r.value && r.value in UserIds(s.users)
                        && r.value != "" && r.value != Marl.IdleAction
  {
    if x.index == 0 || x.charger !in maps || x.index >= |maps[x.charger]| then None
    else
      var uid := maps[x.charger][x.index];
      if uid == "" || uid == Marl.IdleAction || !HasUser(s.users, uid) then None
      else
        assert exists i :: 0 <= i < |s.users| && s.users[i].id == uid;
        Some(uid)
  }

  /** The first action that claims `uid`. */
  function FirstClaim(acts: seq<Marl.Action>, maps: map<ChargerId, Marl.ActionMap>, s: Snapshot, uid: UserId)
    : (r: Option<nat>)
    ensures r.None? <==> forall j :: 0 <= j < |acts| ==> Claim(acts[j], maps, s) != Some(uid)
    ensures r.Some? ==> r.value < |acts| && Claim(acts[r.value], maps, s) == Some(uid)
                        && forall j :: 0 <= j < r.value ==> Claim(acts[j], maps, s) != Some(uid)
    decreases |acts|
  {
    if |acts| == 0 then None
    else if Claim(acts[0], maps, s) == Some(uid) then Some(0)
    else
      var r := FirstClaim(acts[1..], maps, s, uid);
      assert forall j :: 1 <= j < |acts| ==> acts[j] == acts[1..][j - 1];
      if r.Some? then Some(r.value + 1) else None
  }

  /** The conversion loop from action `i` on, with decisions `out` so far. */
  function ConvertFrom(acts: seq<Marl.Action>, maps: map<ChargerId, Marl.ActionMap>, s: Snapshot,
                       i: nat, out: Decisions): (r: Decisions)
    requires i <= |acts|
    requires DistinctDecisionUsers(out)
    requires forall a :: a in out ==> (FirstClaim(acts, maps, s, a.user).Some?
                                       && FirstClaim(acts, maps, s, a.user).value < i
                                       && acts[FirstClaim(acts, maps, s, a.user).value].charger == a.charger)
    requires forall k :: 0 <= k < i && Claim(acts[k], maps, s).Some? ==> Claim(acts[k], maps, s).value in DecidedUsers(out)
    ensures DistinctDecisionUsers(r)
    ensures forall a :: a in r ==> (FirstClaim(acts, maps, s, a.user).Some?
                                     && acts[FirstClaim(acts, maps, s, a.user).value].charger == a.charger)
    ensures forall k :: 0 <= k < |acts| && Claim(acts[k], maps, s).Some? ==> Claim(acts[k], maps, s).value in DecidedUsers(r)
    decreases |acts| - i
  {
    if i == |acts| then out
    else
      match Claim(acts[i], maps, s)
      case None => ConvertFrom(acts, maps, s, i + 1, out)
      case Some(uid) =>
        if uid in DecidedUsers(out) then ConvertFrom(acts, maps, s, i + 1, out)
        else
          var out' := out + [Assignment(uid, acts[i].charger)];
          ConvertStep(acts, maps, s, i, out, uid);
          ConvertFrom(acts, maps, s, i + 1, out')
  }

  /** Deciding the first claim on a user not decided yet keeps the loop's
      invariants. */
  lemma ConvertStep(acts: seq<Marl.Action>, maps: map<ChargerId, Marl.ActionMap>, s: Snapshot,
                    i: nat, out: Decisions, uid: UserId)
    requires i < |acts| && Claim(acts[i], maps, s) == Some(uid)
    requires DistinctDecisionUsers(out) && uid !in DecidedUsers(out)
    requires forall a :: a in out ==> (FirstClaim(acts, maps, s, a.user).Some?
                                       && FirstClaim(acts, maps, s, a.user).value < i
                                       && acts[FirstClaim(acts, maps, s, a.user).value].charger == a.charger)
    requires forall k :: 0 <= k < i && Claim(acts[k], maps, s).Some? ==> Claim(acts[k], maps, s).value in DecidedUsers(out)
    ensures var out' := out + [Assignment(uid, acts[i].charger)];
            DistinctDecisionUsers(out')
            && (forall a :: a in out' ==> (FirstClaim(acts, maps, s, a.user).Some?
                                           && FirstClaim(acts, maps, s, a.user).value < i + 1
                                           && acts[FirstClaim(acts, maps, s, a.user).value].charger == a.charger))
            && forall k :: 0 <= k < i + 1 && Claim(acts[k], maps, s).Some? ==> Claim(acts[k], maps, s).value in DecidedUsers(out')
  {
    assert forall k :: 0 <= k < i ==> Claim(acts[k], maps, s) != Some(uid);
    assert FirstClaim(acts, maps, s, uid) == Some(i);
    Entities.Append(out, Assignment(uid, acts[i].charger));
  }

  /** `_convert_marl_actions_to_decisions`: every decision comes from a
      valid claim and goes to the first charger that claimed that user;
      every validly claimed user is decided once. */
  function Convert(acts: seq<Marl.Action>, maps: map<ChargerId, Marl.ActionMap>, s: Snapshot): (r: Decisions)
    ensures DistinctDecisionUsers(r)
    ensures forall a :: a in r ==>
              var k := FirstClaim(acts, maps, s, a.user);
              k.Some? && acts[k.value].charger == a.charger && Claim(acts[k.value], maps, s) == Some(a.user)
              && a.charger in maps && a.user in UserIds(s.users)
    ensures forall k :: 0 <= k < |acts| && Claim(acts[k], maps, s).Some? ==>
              Claim(acts[k], maps, s).value in DecidedUsers(r)
  {
    ConvertFrom(acts, maps, s, 0, [])
  }

  /** A decision's charger has a map, the chosen index is not 0 and the map
      names the decided user there; the user is in the state. */
  lemma ConvertSound(acts: seq<Marl.Action>, maps: map<ChargerId, Marl.ActionMap>, s: Snapshot, a: Assignment)
    requires a in Convert(acts, maps, s)
    ensures a.charger in maps && a.user in UserIds(s.users)
    ensures exists x :: x in acts && x.charger == a.charger && x.index != 0
                        && x.index < |maps[a.charger]| && maps[a.charger][x.index] == a.user
  {
    var k := FirstClaim(acts, maps, s, a.user).value;
    assert acts[k] in acts;
  }

  /** The MARL branch: action maps, the agents' actions, the conversion. */
  function MarlDecisions(agents: Marl.Agents, s: Snapshot, cfg: Config, sqrt: SqrtFn, coins: nat -> Marl.Coin)
    : (r: Decisions)
    ensures DistinctDecisionUsers(r)
    ensures forall a :: a in r ==> a.charger in WorkingIds(s.chargers) && a.user in UserIds(s.users)
  {
    var maps := ActionMaps(s.chargers, s, ParamsOf(cfg), sqrt);
    Convert(Marl.ChooseActions(agents, s, coins), maps, s)
  }

  /** With the environment's charger ids no agent acts, so the MARL
      scheduler never assigns anyone. */
  lemma MarlAssignsNobody(cfg: Config, stored: map<string, map<Marl.AgentState, seq<real>>>, s: Snapshot,
                          sqrt: SqrtFn, coins: nat -> Marl.Coin)
    requires forall c :: c in s.chargers ==> exists k: nat :: c.id == Names.ChargerName(k)
    ensures MarlDecisions(MarlAgents(cfg, stored), s, cfg, sqrt, coins) == []
  {
    var m := cfg.scheduler.marl;
    var size := m.actionSpaceSize.GetOr(6);
    Marl.ChooseActionsMiss(ChargerCount(cfg.env), if size >= 0 then size else 0,
                           m.learningRate.GetOr(0.01), m.discountFactor.GetOr(0.95), m.explorationRate.GetOr(0.1),
                           stored, s, coins);
    var r := MarlDecisions(MarlAgents(cfg, stored), s, cfg, sqrt, coins);
  }

  // ---------------------------------------------------------------------------
  // Dispatch

  /** The body of the `try` block of `make_scheduling_decision`. An unknown
      algorithm, or one whose subsystem was not built, runs rule-based. */
  function Attempt(sch: Scheduler, s: Snapshot, sqrt: SqrtFn, draws: seq<nat>, coins: nat -> Marl.Coin)
    : (r: Result<Decisions>)
  {
    if sch.algorithm == "rule_based" then RuleBased.Schedule(s, sch.cfg, sqrt)
    else if sch.algorithm == "uncoordinated" then Ok(Uncoordinated.Schedule(s, draws, sqrt))
    else if sch.algorithm == "coordinated_mas" && sch.mas then CoordinatedMas.MakeDecisions(s, sch.cfg, sqrt)
    else if sch.algorithm == "marl" && sch.marl.Some? then Ok(MarlDecisions(sch.marl.value, s, sch.cfg, sqrt, coins))
    else RuleBased.Schedule(s, sch.cfg, sqrt)
  }

  /** Rule-based scheduling with its exception turned into `{}`. */
  function RuleBasedOrNothing(s: Snapshot, cfg: Config, sqrt: SqrtFn): (r: Decisions) {
    match RuleBased.Schedule(s, cfg, sqrt)
    case Ok(d) => d
    case Err(_) => []
  }

  /** `make_scheduling_decision`: `{}` for an invalid state; no exception
      escapes (a failing algorithm falls back to rule-based, a failing
      fallback to `{}`); every decision names a distinct user and a charger
      of the state that has not failed. */
  function Decide(sch: Scheduler, input: Input, sqrt: SqrtFn, draws: seq<nat>, coins: nat -> Marl.Coin)
    : (r: Decisions)
    ensures input.Invalid? ==> r == []
    ensures input.State? ==> DistinctDecisionUsers(r)
    ensures input.State? ==> forall a :: a in r ==> a.charger in WorkingIds(input.s.chargers)
  {
    match input
    case Invalid => []
    case State(s) =>
      var r := match Attempt(sch, s, sqrt, draws, coins)
               case Ok(d) => d
               case Err(_) => RuleBasedOrNothing(s, sch.cfg, sqrt);
      AttemptSound(sch, s, sqrt, draws, coins);
      r
  }

  /** Whatever the algorithm, a successful attempt decides each user once
      and only for working chargers of the state. */
  lemma AttemptSound(sch: Scheduler, s: Snapshot, sqrt: SqrtFn, draws: seq<nat>, coins: nat -> Marl.Coin)
    ensures var r := Attempt(sch, s, sqrt, draws, coins);
            r.Ok? ==> DistinctDecisionUsers(r.value) && forall a :: a in r.value ==> a.charger in WorkingIds(s.chargers)
    ensures DistinctDecisionUsers(RuleBasedOrNothing(s, sch.cfg, sqrt))
    ensures forall a :: a in RuleBasedOrNothing(s, sch.cfg, sqrt) ==> a.charger in WorkingIds(s.chargers)
  {
    if sch.algorithm == "uncoordinated" {
      var d := Uncoordinated.Schedule(s, draws, sqrt);
      forall a | a in d ensures a.charger in WorkingIds(s.chargers) {
        var c :| c in s.chargers && Uncoordinated.Operating(c) && c.id == a.charger;
      }
    } else if sch.algorithm == "coordinated_mas" && sch.mas {
      var r := CoordinatedMas.MakeDecisions(s, sch.cfg, sqrt);
      if r.Ok? {
        forall i, j | 0 <= i < j < |r.value| ensures r.value[i].user != r.value[j].user {
          if r.value[i].user == r.value[j].user {
            Names.LexLessIrreflexive(r.value[i].user);
          }
        }
      }
    }
  }

  /** An algorithm that raises falls back to rule-based scheduling. */
  lemma FailureFallsBack(sch: Scheduler, s: Snapshot, sqrt: SqrtFn, draws: seq<nat>, coins: nat -> Marl.Coin)
    ensures Attempt(sch, s, sqrt, draws, coins).Err? ==>
              Decide(sch, State(s), sqrt, draws, coins) == RuleBasedOrNothing(s, sch.cfg, sqrt)
  {
  }

  /** An unknown algorithm name runs rule-based scheduling. */
  lemma UnknownAlgorithmRunsRuleBased(sch: Scheduler, s: Snapshot, sqrt: SqrtFn, draws: seq<nat>, coins: nat -> Marl.Coin)
    requires sch.algorithm !in {"rule_based", "uncoordinated", "coordinated_mas", "marl"}
    ensures Decide(sch, State(s), sqrt, draws, coins) == RuleBasedOrNothing(s, sch.cfg, sqrt)
  {
  }

  /** The coordinated system in a peak or valley hour with a working charger
      and a user to target: the profit agent raises, and the decisions are
      the rule-based ones. */
  lemma ProfitAgentFailureRunsRuleBased(cfg: Config, stored: map<string, map<Marl.AgentState, seq<real>>>,
                                        s: Snapshot, sqrt: SqrtFn, draws: seq<nat>, coins: nat -> Marl.Coin)
    requires cfg.scheduler.algorithm == Some("coordinated_mas")
    requires CoordinatedProfit.ProfitAgent(s).Err?
    ensures Decide(Init(cfg, true, stored), State(s), sqrt, draws, coins) == RuleBasedOrNothing(s, cfg, sqrt)
  {
    var sch := Init(cfg, true, stored);
    assert sch.algorithm == "coordinated_mas" && sch.mas;
    assert Attempt(sch, s, sqrt, draws, coins).Err?;
    FailureFallsBack(sch, s, sqrt, draws, coins);
  }

  /** `learn`: only the MARL scheduler learns, and an exception in
      learning is swallowed. The decisions it is handed never name an agent
      in a way that changes a table, so the scheduler is left as it was. */
  function Learn(sch: Scheduler, ds: Decisions): (r: Scheduler)
    ensures r == sch
  {
    if sch.algorithm == "marl" && sch.marl.Some? then
      match Marl.Learn(sch.marl.value, ds)
      case Ok(agents) => sch.(marl := Some(agents))
      case Err(_) => sch
    else sch
  }
}
