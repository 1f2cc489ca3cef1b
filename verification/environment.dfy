/** `ChargingEnvironment.step`: apply the scheduler's decisions, step the
    users, queue the users who arrived at their charger, step the chargers at
    the price read before the grid update, update the grid, advance the clock,
    compute the rewards, record history and test for the end. */
module Environment {
  import opened Wrappers
  import opened Geo
  import opened Config
  import opened Entities
  import Clock
  import UserModel
  import ChargerModel
  import GridModel
  import Metrics

  /** The environment's state. The two `order` sequences give the insertion
      order of the `users` and `chargers` dictionaries; `start` and `now` are
      instants in minutes since 2025-01-01T00:00, the clock the calendar
      functions read. */
  datatype World = World(
    start: nat,
    now: nat,
    userOrder: seq<UserId>,
    users: map<UserId, User>,
    chargerOrder: seq<ChargerId>,
    chargers: map<ChargerId, Charger>,
    grid: GridModel.GridState,
    history: seq<HistoryEntry>,
    sessions: seq<ChargerModel.Session>)

  ghost predicate DistinctIds(s: seq<string>) {
    forall i, j :: 0 <= i < j < |s| ==> s[i] != s[j]
  }

  /** The clock has not run behind the start, the dictionaries and their
      orders agree, ids are non-empty, every SoC lies in [0, 100], and every
      charger keeps its queue within capacity and is occupied exactly when it
      has a current user. */
  ghost predicate Valid(w: World) {
    w.start <= w.now && SocsInRange(w.users)
    && DistinctIds(w.userOrder) && DistinctIds(w.chargerOrder)
    && (forall i :: 0 <= i < |w.userOrder| ==> w.userOrder[i] in w.users)
    && (forall k :: k in w.users ==> k in w.userOrder && k != "")
    && (forall i :: 0 <= i < |w.chargerOrder| ==> w.chargerOrder[i] in w.chargers)
    && (forall k :: k in w.chargers ==> k in w.chargerOrder)
    && ChargerModel.AllConsistent(w.chargers) && ChargerModel.QueuesWithinCapacity(w.chargers)
    && GridModel.Valid(w.grid)
  }

  // ---------------------------------------------------------------------------
  // 0. Reset

  /** `reset`: the clock and the recorded start both become the configured
      `simulation_start_datetime`, or 2025-01-01T00:00 when it does not parse;
      history and session log are emptied. `parsed` is what
      `datetime.fromisoformat` makes of the configured text, in minutes since
      2025-01-01T00:00 (`None` for a `ValueError`). The initial users,
      chargers and grid are drawn at random and are given here. */
  function Reset(parsed: Option<nat>, userOrder: seq<UserId>, users: map<UserId, User>,
                 chargerOrder: seq<ChargerId>, chargers: map<ChargerId, Charger>,
                 grid: GridModel.GridState): (w: World)
    ensures w.start == w.now
    ensures parsed.Some? ==> w.start == parsed.value
    ensures parsed.None? ==> w.start == 0
    ensures w.history == [] && w.sessions == []
    ensures w.users == users && w.chargers == chargers && w.grid == grid
    ensures w.userOrder == userOrder && w.chargerOrder == chargerOrder
  {
    var start := if parsed.Some? then parsed.value else 0;
    World(start, start, userOrder, users, chargerOrder, chargers, grid, [], [])
  }

  // ---------------------------------------------------------------------------
  // 1. Decisions

  /** One decision `user_id -> charger_id`; `draw` is the route draw its
      planning would consume. */
  function ApplyDecision(users: map<UserId, User>, chargers: map<ChargerId, Charger>,
                         a: Assignment, draw: UserModel.RouteDraw, sqrt: SqrtFn)
    : (r: map<UserId, User>)
    ensures r.Keys == users.Keys
    ensures a.user !in users || a.charger !in chargers ==> r == users
    ensures a.user in users && (!Free(users[a.user]) || users[a.user].target == Some(a.charger))
            ==> r == users
    ensures a.user in users && a.charger in chargers && chargers[a.charger].position.None? ==> r == users
    ensures forall k :: k in users && k != a.user ==> r[k] == users[k]
    ensures forall k :: k in users ==> r[k].soc == users[k].soc
    ensures a.user in users && a.charger in chargers && Free(users[a.user])
            && users[a.user].target != Some(a.charger) && chargers[a.charger].position.Some? ==>
              (users[a.user].position.Some? ==>
                 r[a.user].target == Some(a.charger) && r[a.user].status == Traveling
                 && r[a.user].destination == chargers[a.charger].position
                 && r[a.user].segmentIndex == 0)
              && (users[a.user].position.None? ==>
                    r[a.user].target.None? && r[a.user].status == users[a.user].status)
  {
    if a.user in users && a.charger in chargers then
      var u := users[a.user];
      var c := chargers[a.charger];
      if Free(u) && u.target != Some(a.charger) && c.position.Some? then
        var p := UserModel.PlanToCharger(u.(target := Some(a.charger), segmentIndex := 0),
                                         c.position.value, draw, sqrt);
        users[a.user := if p.1 then p.0.(status := Traveling) else p.0.(target := None)]
      else users
    else users
  }

  /** The decisions in dictionary order, the i-th consuming `draws[i]`. */
  function ApplyDecisions(users: map<UserId, User>, chargers: map<ChargerId, Charger>,
                          ds: Decisions, draws: seq<UserModel.RouteDraw>, sqrt: SqrtFn)
    : (r: map<UserId, User>)
    requires |draws| == |ds|
    ensures r.Keys == users.Keys
    ensures forall k :: k in users && !Decided(ds, k) ==> r[k] == users[k]
    ensures forall k :: k in users ==> r[k].soc == users[k].soc
    decreases |ds|
  {
    if |ds| == 0 then users
    else
      var rest := ApplyDecisions(ApplyDecision(users, chargers, ds[0], draws[0], sqrt),
                                 chargers, ds[1..], draws[1..], sqrt);
      assert forall k :: Decided(ds[1..], k) ==> Decided(ds, k) by {
        forall k | Decided(ds[1..], k) ensures Decided(ds, k) {
          var i :| 0 <= i < |ds[1..]| && ds[1..][i].user == k;
          assert ds[i + 1].user == k;
        }
      }
      rest
  }

  // ---------------------------------------------------------------------------
  // 2. Users

  /** `user_model.simulate_step`: every user in dictionary order, the i-th
      consuming `draws[i]`. */
  function StepUsers(order: seq<UserId>, users: map<UserId, User>, now: nat, step: nat,
                     cfg: Config, draws: seq<UserModel.UserDraws>, sqrt: SqrtFn)
    : (r: map<UserId, User>)
    requires |draws| == |order|
    requires forall i :: 0 <= i < |order| ==> order[i] in users
    ensures r.Keys == users.Keys
    ensures forall k :: k in users ==> r[k].id == users[k].id
    decreases |order|
  {
    if |order| == 0 then users
    else
      StepUsers(order[1..], users[order[0] := UserModel.Step(users[order[0]], now, step, cfg, draws[0], sqrt)],
                now, step, cfg, draws[1..], sqrt)
  }

  // ---------------------------------------------------------------------------
  // 3. Arrivals

  /** A waiting user whose target charger exists joins its queue, unless it
      is already in it or the queue is full (the user then stays waiting). */
  function Enqueue(uid: UserId, u: User, chargers: map<ChargerId, Charger>)
    : (r: map<ChargerId, Charger>)
    ensures r.Keys == chargers.Keys
    ensures forall k :: k in chargers ==>
              r[k].status == chargers[k].status && r[k].currentUser == chargers[k].currentUser
              && r[k].queueCapacity == chargers[k].queueCapacity
    ensures forall k :: k in chargers ==>
              r[k].queue == chargers[k].queue
              || (r[k].queue == chargers[k].queue + [uid] && |chargers[k].queue| < chargers[k].queueCapacity
                  && uid !in chargers[k].queue)
    ensures !(u.status == Waiting && IdSet(u.target)) ==> r == chargers
  {
    if u.status == Waiting && IdSet(u.target) && u.target.value in chargers then
      var c := chargers[u.target.value];
      if uid !in c.queue && |c.queue| < c.queueCapacity then
        chargers[u.target.value := c.(queue := c.queue + [uid])]
      else chargers
    else chargers
  }

  /** The arrival pass over every user in dictionary order. */
  function EnqueueAll(order: seq<UserId>, users: map<UserId, User>, chargers: map<ChargerId, Charger>)
    : (r: map<ChargerId, Charger>)
    requires forall i :: 0 <= i < |order| ==> order[i] in users
    ensures r.Keys == chargers.Keys
    ensures forall k :: k in chargers ==>
              r[k].status == chargers[k].status && r[k].currentUser == chargers[k].currentUser
              && r[k].queueCapacity == chargers[k].queueCapacity
    decreases |order|
  {
    if |order| == 0 then chargers
    else EnqueueAll(order[1..], users, Enqueue(order[0], users[order[0]], chargers))
  }

  // ---------------------------------------------------------------------------
  // History and state

  /** `48 * (60 // step)` history points; 0 once a step is longer than an hour. */
  function MaxHistory(step: nat): (n: nat)
    requires step > 0
    ensures step > 60 <==> n == 0
  {
    48 * (60 / step)
  }

  /** `history[-n:]` when the history is longer than `n`. With `n == 0` the
      slice `history[-0:]` is the whole list, so nothing is dropped. */
  function Trim(h: seq<HistoryEntry>, n: nat): (r: seq<HistoryEntry>)
    ensures n > 0 ==> |r| <= n
    ensures n == 0 ==> r == h
    ensures |r| <= |h| && r == h[|h| - |r|..]
    ensures |h| <= n ==> r == h
    ensures |h| > 0 ==> |r| > 0
  {
    if |h| > n && n > 0 then h[|h| - n..] else h
  }

  /** Python's `s[-n:]` for `n > 0`: the last `n` elements, or all of them. */
  function Last<T>(s: seq<T>, n: nat): (r: seq<T>)
    requires n > 0
    ensures |r| <= n && |r| <= |s| && r == s[|s| - |r|..]
    ensures |s| <= n ==> r == s
  {
    if |s| > n then s[|s| - n..] else s
  }

  /** `list(d.values())`: a dictionary's values in the order of its keys. */
  function InOrder<K, V>(order: seq<K>, m: map<K, V>): (r: seq<V>)
    requires forall i :: 0 <= i < |order| ==> order[i] in m
    ensures |r| == |order| && forall i :: 0 <= i < |order| ==> r[i] == m[order[i]]
  {
    seq(|order|, i requires 0 <= i < |order| => m[order[i]])
  }

  /** `get_current_state`: the users and chargers in dictionary order, the
      grid status and at most the last 96 history records. */
  function CurrentState(w: World): (s: Snapshot)
    requires forall i :: 0 <= i < |w.userOrder| ==> w.userOrder[i] in w.users
    requires forall i :: 0 <= i < |w.chargerOrder| ==> w.chargerOrder[i] in w.chargers
    ensures s.timestamp == Some(w.now)
    ensures |s.users| == |w.userOrder| && |s.chargers| == |w.chargerOrder|
    ensures |s.history| <= 96 && |s.history| <= |w.history|
    ensures s.history == w.history[|w.history| - |s.history|..]
    ensures |w.history| <= 96 ==> s.history == w.history
  {
    Snapshot(Some(w.now), InOrder(w.userOrder, w.users), InOrder(w.chargerOrder, w.chargers),
             GridModel.Status(w.grid), Last(w.history, 96))
  }

  /** `_save_current_state`: the grid keys as read (absent keys are `None`) and the rewards. */
  function Record(w: World, rewards: Rewards): HistoryEntry {
    var g := GridModel.Status(w.grid);
    HistoryEntry(w.now, g.loadPercentage, g.evLoad, g.totalLoad, g.renewableRatio, g.price, rewards)
  }

  // ---------------------------------------------------------------------------
  // The step

  /** Every random value one step consumes. */
  datatype StepDraws = StepDraws(
    routes: seq<UserModel.RouteDraw>,   // one per decision
    users: seq<UserModel.UserDraws>,    // one per user, in dictionary order
    timers: seq<int>,                   // one per charger, in dictionary order
    profit: real)                       // the baseline's profit reduction

  /** Every user draw lies in the range its generator draws from. */
  predicate DrawsInRange(d: StepDraws) {
    forall i :: 0 <= i < |d.users| ==> UserModel.DrawsInRange(d.users[i])
  }

  datatype Outcome = Outcome(world: World, rewards: Rewards, state: Snapshot, done: bool)

  /** The world after the decisions, users, arrivals, chargers and grid have
      been stepped and the clock advanced; history is not yet recorded. */
  function Advance(w: World, ds: Decisions, cfg: Config, d: StepDraws, sqrt: SqrtFn): (w': World)
    requires Valid(w)
    requires |d.routes| == |ds| && |d.users| == |w.userOrder| && |d.timers| == |w.chargerOrder|
    ensures w'.start == w.start && w'.now == w.now + cfg.env.stepMinutes
    ensures w'.userOrder == w.userOrder && w'.chargerOrder == w.chargerOrder
    ensures w'.users.Keys == w.users.Keys && w'.chargers.Keys == w.chargers.Keys
    ensures w'.history == w.history
  {
    var step := cfg.env.stepMinutes;
    var users1 := ApplyDecisions(w.users, w.chargers, ds, d.routes, sqrt);
    var users2 := StepUsers(w.userOrder, users1, w.now, step, cfg, d.users, sqrt);
    var chargers1 := EnqueueAll(w.userOrder, users2, w.chargers);
    var price := GridModel.Status(w.grid).price.GetOr(0.85);
    var r := ChargerModel.StepChargers(w.chargerOrder, chargers1, users2, w.now, step, price, d.timers);
    World(w.start, w.now + step, w.userOrder, r.users, w.chargerOrder, r.chargers,
          GridModel.Update(w.grid, Clock.HourOf(w.now), r.evLoad), w.history, w.sessions + r.sessions)
  }

  /** `step(decisions)`: returns the rewards, the state they were computed
      from, and whether the simulated period is over. A partial weights
      dictionary raises `KeyError` in the reward calculation, and a zero step
      raises `ZeroDivisionError` when the history is trimmed. */
  function Step(w: World, ds: Decisions, cfg: Config, d: StepDraws, sqrt: SqrtFn): (r: Result<Outcome>)
    requires Valid(w)
    requires |d.routes| == |ds| && |d.users| == |w.userOrder| && |d.timers| == |w.chargerOrder|
    ensures Metrics.ResolveWeights(cfg).Err? ==> r.Err? && r.error.KeyError?
    ensures cfg.env.stepMinutes == 0 && Metrics.ResolveWeights(cfg).Ok? ==> r == Err(ZeroDivisionError)
    ensures r.Ok? ==>
              r.value.world.start == w.start && r.value.world.now == w.now + cfg.env.stepMinutes
              && r.value.done == Clock.Done(r.value.world.now - w.start, cfg.env.simulationDays, cfg.env.stepMinutes)
              && r.value.state.timestamp == Some(r.value.world.now)
              && r.value.world.users.Keys == w.users.Keys && r.value.world.chargers.Keys == w.chargers.Keys
  {
    Finish(Advance(w, ds, cfg, d, sqrt), cfg, d.profit)
  }

  /** The part of the step after the world has advanced: the rewards on the
      new state, the history record and the end-of-period flag. */
  function Finish(w1: World, cfg: Config, profit: real): (r: Result<Outcome>)
    requires forall i :: 0 <= i < |w1.userOrder| ==> w1.userOrder[i] in w1.users
    requires forall i :: 0 <= i < |w1.chargerOrder| ==> w1.chargerOrder[i] in w1.chargers
    requires w1.start <= w1.now
    ensures Metrics.ResolveWeights(cfg).Err? ==> r.Err? && r.error.KeyError?
    ensures cfg.env.stepMinutes == 0 && Metrics.ResolveWeights(cfg).Ok? ==> r == Err(ZeroDivisionError)
    ensures r.Ok? ==>
              r.value.world.start == w1.start && r.value.world.now == w1.now
              && r.value.done == Clock.Done(w1.now - w1.start, cfg.env.simulationDays, cfg.env.stepMinutes)
              && r.value.state.timestamp == Some(w1.now)
              && r.value.world.users.Keys == w1.users.Keys && r.value.world.chargers.Keys == w1.chargers.Keys
              && cfg.env.stepMinutes > 0
              && r.value.world == w1.(history := Trim(w1.history + [Record(w1, r.value.rewards)],
                                                      MaxHistory(cfg.env.stepMinutes)))
  {
    var state := CurrentState(w1);
    match Metrics.CalculateRewards(state, cfg, 0, profit)
    case Err(e) => Err(e)
    case Ok(rewards) =>
      if cfg.env.stepMinutes == 0 then Err(ZeroDivisionError)
      else
        var w2 := w1.(history := Trim(w1.history + [Record(w1, rewards)], MaxHistory(cfg.env.stepMinutes)));
        Ok(Outcome(w2, rewards, state,
                   Clock.Done(w2.now - w2.start, cfg.env.simulationDays, cfg.env.stepMinutes)))
  }
}
