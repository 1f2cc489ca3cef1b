/** Properties of the environment step. */
module EnvironmentProperties {
  import opened Wrappers
  import opened Geo
  import opened Config
  import opened Entities
  import Clock
  import UserModel
  import ChargerModel
  import GridModel
  import Metrics
  import UserProperties
  import opened Environment

  /** The arrival pass never pushes a queue past its capacity. */
  lemma EnqueueWithinCapacity(uid: UserId, u: User, chargers: map<ChargerId, Charger>)
    requires ChargerModel.QueuesWithinCapacity(chargers)
    ensures ChargerModel.QueuesWithinCapacity(Enqueue(uid, u, chargers))
  {
  }

  lemma {:induction false} EnqueueAllWithinCapacity(order: seq<UserId>, users: map<UserId, User>,
                                                     chargers: map<ChargerId, Charger>)
    requires forall i :: 0 <= i < |order| ==> order[i] in users
    requires ChargerModel.QueuesWithinCapacity(chargers)
    ensures ChargerModel.QueuesWithinCapacity(EnqueueAll(order, users, chargers))
    ensures ChargerModel.AllConsistent(chargers) ==> ChargerModel.AllConsistent(EnqueueAll(order, users, chargers))
    decreases |order|
  {
    if |order| > 0 {
      var next := Enqueue(order[0], users[order[0]], chargers);
      EnqueueWithinCapacity(order[0], users[order[0]], chargers);
      EnqueueAllWithinCapacity(order[1..], users, next);
    }
  }

  /** A user arriving at a full queue stays out of it: no charger changes. */
  lemma FullQueueUnchanged(uid: UserId, u: User, chargers: map<ChargerId, Charger>)
    requires u.status == Waiting && IdSet(u.target) && u.target.value in chargers
    requires |chargers[u.target.value].queue| >= chargers[u.target.value].queueCapacity
    ensures Enqueue(uid, u, chargers) == chargers
  {
  }

  /** A waiting user with room in its target's queue is appended at the end. */
  lemma ArrivalJoinsQueue(uid: UserId, u: User, chargers: map<ChargerId, Charger>)
    requires u.status == Waiting && IdSet(u.target) && u.target.value in chargers
    requires uid !in chargers[u.target.value].queue
    requires |chargers[u.target.value].queue| < chargers[u.target.value].queueCapacity
    ensures Enqueue(uid, u, chargers)[u.target.value].queue == chargers[u.target.value].queue + [uid]
  {
  }

  /** The user step keeps every SoC in [0, 100]. */
  lemma {:induction false} StepUsersKeepSocsInRange(order: seq<UserId>, users: map<UserId, User>,
                                                    now: nat, step: nat, cfg: Config,
                                                    draws: seq<UserModel.UserDraws>, sqrt: SqrtFn)
    requires |draws| == |order|
    requires forall i :: 0 <= i < |order| ==> order[i] in users
    requires forall i :: 0 <= i < |draws| ==> UserModel.DrawsInRange(draws[i])
    requires SocsInRange(users)
    ensures SocsInRange(StepUsers(order, users, now, step, cfg, draws, sqrt))
    decreases |order|
  {
    if |order| > 0 {
      var u := users[order[0]];
      UserProperties.SocNonIncreasing(u, now, step, cfg, draws[0], sqrt);
      var next := users[order[0] := UserModel.Step(u, now, step, cfg, draws[0], sqrt)];
      assert forall i :: 1 <= i < |order| ==> order[1..][i - 1] == order[i];
      assert forall i :: 1 <= i < |draws| ==> draws[1..][i - 1] == draws[i];
      StepUsersKeepSocsInRange(order[1..], next, now, step, cfg, draws[1..], sqrt);
    }
  }

  /** The step keeps the world valid: the start stays behind the clock, the
      dictionaries keep their keys and order, every SoC stays in [0, 100],
      every queue stays within capacity and every charger stays occupied
      exactly when it has a current user. */
  lemma StepPreservesValid(w: World, ds: Decisions, cfg: Config, d: StepDraws, sqrt: SqrtFn)
    requires Valid(w) && DrawsInRange(d)
    requires |d.routes| == |ds| && |d.users| == |w.userOrder| && |d.timers| == |w.chargerOrder|
    ensures Valid(Environment.Advance(w, ds, cfg, d, sqrt))
  {
    var step := cfg.env.stepMinutes;
    var users1 := ApplyDecisions(w.users, w.chargers, ds, d.routes, sqrt);
    assert SocsInRange(users1);
    var users2 := StepUsers(w.userOrder, users1, w.now, step, cfg, d.users, sqrt);
    StepUsersKeepSocsInRange(w.userOrder, users1, w.now, step, cfg, d.users, sqrt);
    var chargers1 := EnqueueAll(w.userOrder, users2, w.chargers);
    EnqueueAllWithinCapacity(w.userOrder, users2, w.chargers);
    var price := GridModel.Status(w.grid).price.GetOr(0.85);
    ChargerModel.StepInvariant(w.chargerOrder, chargers1, users2, w.now, step, price, d.timers);
    ChargerModel.StepKeepsSocsInRange(w.chargerOrder, chargers1, users2, w.now, step, price, d.timers);
  }

  /** A whole step keeps the world valid: the advanced world is valid, and
      recording the history changes nothing else. */
  lemma StepKeepsValid(w: World, ds: Decisions, cfg: Config, d: StepDraws, sqrt: SqrtFn)
    requires Valid(w) && DrawsInRange(d)
    requires |d.routes| == |ds| && |d.users| == |w.userOrder| && |d.timers| == |w.chargerOrder|
    ensures var r := Environment.Step(w, ds, cfg, d, sqrt);
            r.Ok? ==> Valid(r.value.world) && r.value.world.history != []
  {
    StepPreservesValid(w, ds, cfg, d, sqrt);
    assert Environment.Step(w, ds, cfg, d, sqrt) == Finish(Environment.Advance(w, ds, cfg, d, sqrt), cfg, d.profit);
  }

  /** With a step of at most an hour the history never holds more than
      `48 * (60 // step)` records, the newest ones. */
  lemma HistoryBounded(w: World, ds: Decisions, cfg: Config, d: StepDraws, sqrt: SqrtFn)
    requires Valid(w)
    requires |d.routes| == |ds| && |d.users| == |w.userOrder| && |d.timers| == |w.chargerOrder|
    requires 0 < cfg.env.stepMinutes <= 60
    ensures var r := Environment.Step(w, ds, cfg, d, sqrt);
            r.Ok? ==> 0 < |r.value.world.history| <= MaxHistory(cfg.env.stepMinutes)
  {
    var w1 := Advance(w, ds, cfg, d, sqrt);
    assert Step(w, ds, cfg, d, sqrt) == Finish(w1, cfg, d.profit);
  }

  /** With a step longer than an hour `60 // step` is 0, `history[-0:]` is
      the whole list, and the history grows by one record every step. */
  lemma HistoryUnboundedForLongSteps(w: World, ds: Decisions, cfg: Config, d: StepDraws, sqrt: SqrtFn)
    requires Valid(w)
    requires |d.routes| == |ds| && |d.users| == |w.userOrder| && |d.timers| == |w.chargerOrder|
    requires cfg.env.stepMinutes > 60
    ensures var r := Environment.Step(w, ds, cfg, d, sqrt);
            r.Ok? ==> |r.value.world.history| == |w.history| + 1
  {
    var w1 := Advance(w, ds, cfg, d, sqrt);
    assert Step(w, ds, cfg, d, sqrt) == Finish(w1, cfg, d.profit);
  }
}
