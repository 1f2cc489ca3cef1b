/** The tabular Q-learning scheduler: one agent per charger key, an
    epsilon-greedy choice over a dynamic action map, the one-step Q-update,
    the discretised view a charger agent has of the state, and the
    per-charger reward. */
module Marl {
  import opened Wrappers
  import opened Numeric
  import opened Entities
  import Clock
  import Names

  /** An action map `{0: 'idle', 1: user, ...}`. Its keys are always
      `0 .. |m| - 1`, so it is the sequence of its values. */
  type ActionMap = seq<string>

  const IdleAction: string := "idle"

  /** The dictionary `get_agent_state` returns; `NoState` is the empty one. */
  datatype AgentState =
    | NoState
    | Features(status: nat, queue: nat, hourBand: nat, loadCat: nat, renewCat: nat, demand: nat)

  /** A Q-table keyed by state. The source keys it by the text of the sorted
      state items, which tells two states apart exactly when they differ. */
  type QTable = map<AgentState, seq<real>>

  datatype Agent = Agent(size: nat, lr: real, gamma: real, epsilon: real, q: QTable)

  /** The two random draws of one `choose_action`: `random.uniform(0, 1)`,
      and the position `random.choice` takes (reduced modulo the list length). */
  datatype Coin = Coin(u: real, pick: nat)

  /** Every row holds one value per action index. */
  predicate WellSized(q: QTable, size: nat) {
    forall k :: k in q ==> |q[k]| == size
  }

  /** `np.zeros(n)`. */
  function Zeros(n: nat): (r: seq<real>)
    ensures |r| == n && forall i :: 0 <= i < n ==> r[i] == 0.0
  {
    seq(n, i => 0.0)
  }

  /** `q_table[state]` after the size check: the stored row when it has the
      right length, a fresh row of zeros otherwise. */
  function Row(q: QTable, s: AgentState, size: nat): (r: seq<real>)
    ensures |r| == size
  {
    if s in q && |q[s]| == size then q[s] else Zeros(size)
  }

  /** `max(xs)`. */
  function MaxOf(xs: seq<real>): (m: real)
    requires |xs| > 0
    ensures m in xs
    ensures forall i :: 0 <= i < |xs| ==> xs[i] <= m
    decreases |xs|
  {
    if |xs| == 1 then xs[0]
    else
      var t := MaxOf(xs[1..]);
      assert forall i :: 1 <= i < |xs| ==> xs[i] == xs[1..][i - 1];
      if xs[0] >= t then xs[0] else t
  }

  /** The indices below `n` whose value equals `best`, ascending. */
  function Ties(row: seq<real>, best: real, n: nat): (r: seq<nat>)
    requires n <= |row|
    ensures forall k :: k in r <==> 0 <= k < n && row[k] == best
    decreases n
  {
    if n == 0 then [] else Ties(row, best, n - 1) + (if row[n - 1] == best then [n - 1] else [])
  }

  // ---------------------------------------------------------------------------
  // One agent

  datatype Choice = Choice(action: string, index: nat)

  /** The outcome of `choose_action`: the agent with the state's row created
      or reset, and the choice or the exception it raised. */
  datatype Chosen = Chosen(agent: Agent, choice: Result<Choice>)

  /** The agent after `choose_action` has looked its state up: the row
      exists and has the right length; nothing else changes. */
  function Touched(a: Agent, s: AgentState): (r: Agent)
    ensures r.size == a.size && r.lr == a.lr && r.gamma == a.gamma && r.epsilon == a.epsilon
    ensures WellSized(a.q, a.size) ==> WellSized(r.q, a.size)
    ensures r.q.Keys == a.q.Keys + {s} && |r.q[s]| == a.size
    ensures forall k :: k in a.q && k != s ==> r.q[k] == a.q[k]
  {
    a.(q := a.q[s := Row(a.q, s, a.size)])
  }

  /** The index drawn from a non-empty map: with probability `epsilon` any
      index, otherwise one whose value in `row` is largest. */
  function Draw(row: seq<real>, m: ActionMap, epsilon: real, coin: Coin): (r: Result<nat>)
    requires |m| > 0
    ensures r.Err? <==> |m| > |row| && !(coin.u < epsilon)
    ensures r.Err? ==> r.error.IndexError?
    ensures r.Ok? ==> r.value < |m|
    ensures r.Ok? && !(coin.u < epsilon) ==> r.value < |row| && forall j :: 0 <= j < |m| ==> row[j] <= row[r.value]
  {
    if coin.u < epsilon then Ok(coin.pick % |m|)
    else if |m| > |row| then Err(IndexError)
    else
      var best := MaxOf(row[..|m|]);
      assert forall j :: 0 <= j < |m| ==> row[j] == row[..|m|][j];
      var ties := Ties(row, best, |m|);
      var k :| 0 <= k < |m| && row[k] == best;
      assert k in ties;
      var i := ties[coin.pick % |ties|];
      assert i in ties;
      Ok(i)
  }

  /** `MARLAgent.choose_action`: an empty map gives `idle` at index 0;
      otherwise the action at a drawn index of the map, greedy on the
      state's Q-values unless exploring. An index beyond the row raises
      `IndexError`. */
  function ChooseAction(a: Agent, s: AgentState, m: ActionMap, coin: Coin): (r: Chosen)
    ensures r.agent == Touched(a, s)
    ensures r.choice.Err? <==> 0 < |m| && |m| > a.size && !(coin.u < a.epsilon)
    ensures r.choice.Err? ==> r.choice.error.IndexError?
    ensures r.choice.Ok? && |m| == 0 ==> r.choice.value == Choice(IdleAction, 0)
    ensures r.choice.Ok? && |m| > 0 ==>
              r.choice.value.index < |m| && r.choice.value.action == m[r.choice.value.index]
    ensures r.choice.Ok? && |m| > 0 && !(coin.u < a.epsilon) ==>
              forall j :: 0 <= j < |m| ==> r.agent.q[s][j] <= r.agent.q[s][r.choice.value.index]
  {
    var a' := Touched(a, s);
    if |m| == 0 then Chosen(a', Ok(Choice(IdleAction, 0)))
    else
      match Draw(a'.q[s], m, a.epsilon, coin)
      case Ok(i) => Chosen(a', Ok(Choice(m[i], i)))
      case Err(e) => Chosen(a', Err(e))
  }

  /** The Q-learning target `reward + gamma * next_max`. */
  function Target(reward: real, gamma: real, nextMax: real): real {
    reward + gamma * nextMax
  }

  /** The Q-learning step `old + lr * (target - old)`. */
  function Learned(prior: real, lr: real, gamma: real, reward: real, nextMax: real): real {
    prior + lr * (Target(reward, gamma, nextMax) - prior)
  }

  /** `MARLAgent.update_q_table`. An index outside `[0, size)` changes
      nothing. Otherwise the entry moves by `lr` towards the target, with the
      next state's maximum read before the write; every other stored value
      stays, and the only rows added are the two states' rows, the next
      state's filled with zeros. */
  function Update(a: Agent, s: AgentState, action: int, reward: real, next: AgentState): (r: Agent)
    requires WellSized(a.q, a.size)
    ensures WellSized(r.q, a.size)
    ensures r.size == a.size && r.lr == a.lr && r.gamma == a.gamma && r.epsilon == a.epsilon
    ensures !(0 <= action < a.size) ==> r == a
    ensures 0 <= action < a.size ==>
              r.q.Keys == a.q.Keys + {s, next}
              && r.q[s][action] == Learned(Row(a.q, s, a.size)[action], a.lr, a.gamma, reward,
                                           MaxOf(Row(a.q, next, a.size)))
              && (forall j :: 0 <= j < a.size && j != action ==> r.q[s][j] == Row(a.q, s, a.size)[j])
              && (forall k :: k in a.q && k != s ==> r.q[k] == a.q[k])
              && (forall k :: k in r.q && k !in a.q && k != s ==> r.q[k] == Zeros(a.size))
  {
    if !(0 <= action < a.size) then a
    else
      var q1 := Put(a.q, next, Row(a.q, next, a.size), a.size);
      var row := Row(q1, s, a.size);
      assert row == Row(a.q, s, a.size);
      assert Row(q1, next, a.size) == Row(a.q, next, a.size);
      var v := Learned(row[action], a.lr, a.gamma, reward, MaxOf(Row(q1, next, a.size)));
      a.(q := Put(q1, s, row[action := v], a.size))
  }

  /** `q_table[state] = row` with a row of the table's width. */
  function Put(q: QTable, s: AgentState, row: seq<real>, size: nat): (r: QTable)
    requires WellSized(q, size) && |row| == size
    ensures WellSized(r, size)
    ensures r.Keys == q.Keys + {s} && r[s] == row
    ensures forall k :: k in q && k != s ==> r[k] == q[k]
  {
    q[s := row]
  }

  /** With a learning rate in [0, 1] the updated entry lies between its old
      value and the target `reward + gamma * next_max`. */
  lemma UpdateMovesTowardTarget(a: Agent, s: AgentState, action: int, reward: real, next: AgentState)
    requires WellSized(a.q, a.size) && 0 <= action < a.size
    requires 0.0 <= a.lr <= 1.0
    ensures var prior := Row(a.q, s, a.size)[action];
            var target := Target(reward, a.gamma, MaxOf(Row(a.q, next, a.size)));
            var v := Update(a, s, action, reward, next).q[s][action];
            (prior <= target ==> prior <= v <= target) && (target <= prior ==> target <= v <= prior)
  {
    var prior := Row(a.q, s, a.size)[action];
    var m := MaxOf(Row(a.q, next, a.size));
    var v := Update(a, s, action, reward, next).q[s][action];
    UpdatedEntry(a, s, action, reward, next);
    LearnedBetween(prior, a.lr, a.gamma, reward, m, v);
  }

  /** The entry an update writes is the learned value. */
  lemma UpdatedEntry(a: Agent, s: AgentState, action: int, reward: real, next: AgentState)
    requires WellSized(a.q, a.size) && 0 <= action < a.size
    ensures Update(a, s, action, reward, next).q[s][action]
            == Learned(Row(a.q, s, a.size)[action], a.lr, a.gamma, reward, MaxOf(Row(a.q, next, a.size)))
  {
  }

  /** The Q-learning step moves a value towards its target by the fraction
      `lr`, so with `lr` in [0, 1] it lands between the two. */
  lemma LearnedBetween(prior: real, lr: real, gamma: real, reward: real, m: real, v: real)
    requires 0.0 <= lr <= 1.0
    requires v == Learned(prior, lr, gamma, reward, m)
    ensures var t := Target(reward, gamma, m);
            (prior <= t ==> prior <= v <= t) && (t <= prior ==> t <= v <= prior)
  {
    var t := Target(reward, gamma, m);
    var d := t - prior;
    var step := lr * d;
    assert v == prior + step;
    if d >= 0.0 {
      Scaled(lr, d);
      assert 0.0 <= step <= d;
    } else {
      Scaled(lr, -d);
      assert lr * (-d) == -step;
      assert d <= step <= 0.0;
    }
  }

  /** A fraction of a non-negative amount lies between 0 and the amount. */
  lemma Scaled(lr: real, d: real)
    requires 0.0 <= lr <= 1.0 && d >= 0.0
    ensures 0.0 <= lr * d <= d
  {
    assert d - lr * d == (1.0 - lr) * d;
  }

  /** The row filter of `load_q_table`: a stored row is kept exactly when its
      length is the action-space size. */
  function LoadRows(stored: map<AgentState, seq<real>>, size: nat): (q: QTable)
    ensures WellSized(q, size)
    ensures forall k :: k in q <==> k in stored && |stored[k]| == size
    ensures forall k :: k in q ==> q[k] == stored[k]
  {
    map k | k in stored && |stored[k]| == size :: stored[k]
  }

  /** Saving a table (`dict(q_table)`) and loading it back gives the same table. */
  lemma SaveLoadRoundTrip(q: QTable, size: nat)
    requires WellSized(q, size)
    ensures LoadRows(q, size) == q
  {
    assert LoadRows(q, size).Keys == q.Keys;
  }

  // ---------------------------------------------------------------------------
  // The state an agent sees

  /** `status_map`. */
  function StatusCode(st: ChargerStatus): (n: nat)
    ensures n <= 2
  {
    match st
    case Available => 0
    case Occupied => 1
    case Failure => 2
  }

  /** The grid-load category: 2 above 80 %, 1 above 60 %, else 0. */
  function LoadCategory(x: real): (c: nat)
    ensures c <= 2
    ensures c == 2 <==> x > 80.0
    ensures c == 0 <==> x <= 60.0
  {
    if x > 80.0 then 2 else if x > 60.0 then 1 else 0
  }

  /** The renewable category: 2 above 50 %, 1 above 20 %, else 0. */
  function RenewCategory(x: real): (c: nat)
    ensures c <= 2
    ensures c == 2 <==> x > 50.0
    ensures c == 0 <==> x <= 20.0
  {
    if x > 50.0 then 2 else if x > 20.0 then 1 else 0
  }

  /** Both categories only rise with their reading. */
  lemma CategoriesMonotone(x: real, y: real)
    requires x <= y
    ensures LoadCategory(x) <= LoadCategory(y)
    ensures RenewCategory(x) <= RenewCategory(y)
  {
  }

  /** Latitude and longitude as the nearby-demand check reads them: a user
      without a position sits at (-999, -999), a charger without one at (0, 0). */
  function UserLat(u: User): real { if u.position.Some? then u.position.value.lat else -999.0 }
  function UserLng(u: User): real { if u.position.Some? then u.position.value.lng else -999.0 }
  function ChargerLat(c: Charger): real { if c.position.Some? then c.position.value.lat else 0.0 }
  function ChargerLng(c: Charger): real { if c.position.Some? then c.position.value.lng else 0.0 }

  /** A user counted as nearby demand for `c`: below 40 % SoC, neither
      charging nor waiting, and within 0.05 degrees on both axes. */
  predicate NearbyDemand(u: User, c: Charger) {
    u.soc < 40.0 && Free(u)
    && Abs(UserLat(u) - ChargerLat(c)) < 0.05 && Abs(UserLng(u) - ChargerLng(c)) < 0.05
  }

  /** The loop counting nearby demand for `c`. */
  function DemandCount(users: seq<User>, c: Charger): (n: nat)
    ensures n <= |users|
    ensures n == 0 <==> forall i :: 0 <= i < |users| ==> !NearbyDemand(users[i], c)
    decreases |users|
  {
    if |users| == 0 then 0
    else
      var n := DemandCount(users[1..], c);
      assert forall i :: 1 <= i < |users| ==> users[i] == users[1..][i - 1];
      (if NearbyDemand(users[0], c) then 1 else 0) + n
  }

  /** The positions among the first `n` users that count as nearby demand
      for `c`. */
  ghost function DemandIndices(users: seq<User>, c: Charger, n: nat): set<int>
    requires n <= |users|
  {
    set i | 0 <= i < n && NearbyDemand(users[i], c)
  }

  /** Counting one more user adds one exactly when that user is nearby demand. */
  lemma {:induction false} DemandCountAppend(users: seq<User>, u: User, c: Charger)
    ensures DemandCount(users + [u], c) == DemandCount(users, c) + (if NearbyDemand(u, c) then 1 else 0)
    decreases |users|
  {
    if |users| > 0 {
      assert (users + [u])[1..] == users[1..] + [u];
      DemandCountAppend(users[1..], u, c);
    }
  }

  /** The loop counts exactly the users that are nearby demand: over the
      first `n` users, the number of positions holding one. */
  lemma {:induction false} DemandCountExact(users: seq<User>, c: Charger, n: nat)
    requires n <= |users|
    ensures DemandCount(users[..n], c) == |DemandIndices(users, c, n)|
    decreases n
  {
    if n == 0 {
      assert DemandIndices(users, c, 0) == {};
    } else {
      DemandCountExact(users, c, n - 1);
      assert users[..n] == users[..n - 1] + [users[n - 1]];
      DemandCountAppend(users[..n - 1], users[n - 1], c);
      DemandIndicesStep(users, c, n);
    }
  }

  /** Over the whole user list: the count is the number of users that are
      nearby demand for `c`. */
  lemma DemandCountIsCardinality(users: seq<User>, c: Charger)
    ensures DemandCount(users, c) == |DemandIndices(users, c, |users|)|
  {
    DemandCountExact(users, c, |users|);
    assert users[..|users|] == users;
  }

  /** Widening the prefix by one adds that position exactly when it holds
      nearby demand. */
  lemma DemandIndicesStep(users: seq<User>, c: Charger, n: nat)
    requires 0 < n <= |users|
    ensures DemandIndices(users, c, n)
            == DemandIndices(users, c, n - 1) + (if NearbyDemand(users[n - 1], c) then {n - 1} else {})
  {
  }

  /** The hour the MARL helpers read: the timestamp's hour, 0 without one. */
  function HourNow(s: Snapshot): (h: nat)
    ensures h < 24
  {
    Clock.HourOf(s.timestamp.GetOr(0))
  }

  /** `get_agent_state`: the empty dictionary for an unknown charger;
      otherwise every feature is a small category. */
  function AgentStateOf(cid: ChargerId, s: Snapshot): (r: AgentState)
    ensures r.NoState? <==> FindCharger(s.chargers, cid).None?
    ensures r.Features? ==>
              r.status <= 2 && r.queue <= 3 && r.hourBand <= 5
              && r.loadCat <= 2 && r.renewCat <= 2 && r.demand <= 2
    ensures r.Features? ==>
              var c := FindCharger(s.chargers, cid).value;
              r.status == StatusCode(c.status) && r.queue == (if |c.queue| < 3 then |c.queue| else 3)
              && r.hourBand == HourNow(s) / 4
              && r.loadCat == LoadCategory(s.grid.loadPercentage.GetOr(50.0))
              && r.renewCat == RenewCategory(s.grid.renewableRatio.GetOr(0.0))
              && r.demand == (if DemandCount(s.users, c) < 2 then DemandCount(s.users, c) else 2)
              && (r.demand == 0 <==> forall i :: 0 <= i < |s.users| ==> !NearbyDemand(s.users[i], c))
  {
    match FindCharger(s.chargers, cid)
    case None => NoState
    case Some(c) =>
      var n := DemandCount(s.users, c);
      Features(StatusCode(c.status),
               if |c.queue| < 3 then |c.queue| else 3,
               HourNow(s) / 4,
               LoadCategory(s.grid.loadPercentage.GetOr(50.0)),
               RenewCategory(s.grid.renewableRatio.GetOr(0.0)),
               if n < 2 then n else 2)
  }

  /** Without the aggregate grid keys (the regional grid model never sends
      them) every agent sees load category 0 and renewable category 0. */
  lemma NoAggregatesNoCategories(cid: ChargerId, s: Snapshot)
    requires s.grid.loadPercentage.None? && s.grid.renewableRatio.None?
    requires AgentStateOf(cid, s).Features?
    ensures AgentStateOf(cid, s).loadCat == 0 && AgentStateOf(cid, s).renewCat == 0
  {
  }

  // ---------------------------------------------------------------------------
  // Reward

  /** The agent took a user: the charger was available and is now occupied
      by the user its action named. */
  predicate TookUser(action: string, c: Charger, prev: Charger) {
    action != IdleAction && c.status == Occupied && c.currentUser == Some(action) && prev.status == Available
  }

  /** Bonus for a charger now occupied by the user it took, after being
      available. */
  function AssignmentBonus(action: string, c: Charger, prev: Charger, price: real): real {
    if TookUser(action, c, prev) then price * 0.7 else 0.0
  }

  /** Grid term while occupied: -0.6 in a peak hour, else 0.4 in a valley
      hour, else 0.25 above 60 % renewables. */
  function GridTerm(c: Charger, g: GridReading, hour: nat): (r: real)
    ensures -0.6 <= r <= 0.4
  {
    if c.status != Occupied then 0.0
    else if hour in g.peakHours.GetOr([]) then -0.6
    else if hour in g.valleyHours.GetOr([]) then 0.4
    else if g.renewableRatio.GetOr(0.0) > 60.0 then 0.25
    else 0.0
  }

  /** Penalty for staying idle while available on an unstressed grid. */
  function IdlePenalty(action: string, prev: Charger, g: GridReading): (r: real)
    ensures r == 0.0 || r == -0.15
  {
    if action == IdleAction && prev.status == Available && g.loadPercentage.GetOr(50.0) < 70.0 then -0.15 else 0.0
  }

  /** Penalty for a new failure. */
  function FailurePenalty(c: Charger, prev: Charger): (r: real)
    ensures r == -3.0 <==> c.status == Failure && prev.status != Failure
    ensures r == 0.0 || r == -3.0
  {
    if c.status == Failure && prev.status != Failure then -3.0 else 0.0
  }

  /** `calculate_agent_reward(charger_id, action, state, previous_state)`:
      0 when the charger is missing from either state; otherwise within
      [0.7 * price - 0.6, 0.7 * price + 0.4] when the assignment bonus is
      paid and within [-3.15, 0.4] when it is not (price defaulting to 0.8). */
  function Reward(cid: ChargerId, action: string, now: Snapshot, prev: Snapshot): (r: real)
    ensures FindCharger(now.chargers, cid).None? || FindCharger(prev.chargers, cid).None? ==> r == 0.0
    ensures FindCharger(now.chargers, cid).Some? && FindCharger(prev.chargers, cid).Some? ==>
              var c := FindCharger(now.chargers, cid).value;
              var p := FindCharger(prev.chargers, cid).value;
              if TookUser(action, c, p)
              then r == now.grid.price.GetOr(0.8) * 0.7 + GridTerm(c, now.grid, HourNow(now))
              else r == GridTerm(c, now.grid, HourNow(now)) + IdlePenalty(action, p, now.grid) + FailurePenalty(c, p)
    ensures Min(0.0, now.grid.price.GetOr(0.8)) * 0.7 - 3.15 <= r <= Max(0.0, now.grid.price.GetOr(0.8)) * 0.7 + 0.4
  {
    match (FindCharger(now.chargers, cid), FindCharger(prev.chargers, cid))
    case (Some(c), Some(p)) =>
      var price := now.grid.price.GetOr(0.8);
      var bonus := AssignmentBonus(action, c, p, price);
      assert bonus == 0.0 || (bonus == price * 0.7 && IdlePenalty(action, p, now.grid) == 0.0
                              && FailurePenalty(c, p) == 0.0);
      assert FailurePenalty(c, p) == 0.0 || GridTerm(c, now.grid, HourNow(now)) == 0.0;
      0.0 + AssignmentBonus(action, c, p, price) + GridTerm(c, now.grid, HourNow(now))
      + IdlePenalty(action, p, now.grid) + FailurePenalty(c, p)
    case _ => 0.0
  }

  /** An idle agent never earns the assignment bonus: its reward is at most
      the valley-hour bonus. */
  lemma IdleEarnsNoBonus(cid: ChargerId, now: Snapshot, prev: Snapshot)
    ensures Reward(cid, IdleAction, now, prev) <= 0.4
  {
  }

  /** A charger that has just failed is penalised by at least 3. */
  lemma NewFailurePenalised(cid: ChargerId, action: string, now: Snapshot, prev: Snapshot)
    requires FindCharger(now.chargers, cid).Some? && FindCharger(prev.chargers, cid).Some?
    requires FindCharger(now.chargers, cid).value.status == Failure
    requires FindCharger(prev.chargers, cid).value.status != Failure
    ensures -3.15 <= Reward(cid, action, now, prev) <= -3.0
  {
  }

  // ---------------------------------------------------------------------------
  // The system of agents

  /** `MARLSystem.agents`: agent key to agent. */
  type Agents = map<string, Agent>

  /** `MARLSystem.__init__` with `load_q_tables`: one agent per key
      `CHARGER_0001 .. CHARGER_n` (see `MakeAgentsKeys`), each holding the
      well-sized rows stored for it (`stored` stands for the pickled tables). */
  function MakeAgents(n: int, size: nat, lr: real, gamma: real, epsilon: real,
                      stored: map<string, map<AgentState, seq<real>>>): (r: Agents)
    ensures forall k :: k in r ==>
              r[k] == Agent(size, lr, gamma, epsilon, if k in stored then LoadRows(stored[k], size) else map[])
    ensures forall k :: k in r ==> WellSized(r[k].q, size)
    decreases n
  {
    if n <= 0 then map[]
    else
      var key := Names.AgentName(n - 1);
      var prev := MakeAgents(n - 1, size, lr, gamma, epsilon, stored);
      var q := if key in stored then LoadRows(stored[key], size) else map[];
      assert WellSized(q, size);
      AddAgent(prev, key, Agent(size, lr, gamma, epsilon, q))
  }

  /** The agents' keys are exactly the first `n` agent names. */
  lemma {:induction false} MakeAgentsKeys(n: int, size: nat, lr: real, gamma: real, epsilon: real,
                                          stored: map<string, map<AgentState, seq<real>>>)
    ensures forall k :: k in MakeAgents(n, size, lr, gamma, epsilon, stored) <==> Names.IsAgentKey(k, n)
    decreases n
  {
    if n > 0 {
      MakeAgentsKeys(n - 1, size, lr, gamma, epsilon, stored);
      AgentKeysStep(n, MakeAgents(n - 1, size, lr, gamma, epsilon, stored).Keys);
    }
  }

  /** `agents[key] = agent`. */
  function AddAgent(agents: Agents, key: string, a: Agent): (r: Agents)
    ensures forall k :: k in r <==> k in agents || k == key
    ensures r[key] == a
    ensures forall k :: k in agents && k != key ==> r[k] == agents[k]
  {
    agents[key := a]
  }

  /** The keys `CHARGER_0001 .. CHARGER_n` grow by one name per agent. */
  lemma AgentKeysStep(n: int, prev: set<string>)
    requires n > 0
    requires forall k :: k in prev <==> Names.IsAgentKey(k, n - 1)
    ensures forall k :: k in prev || k == Names.AgentName(n - 1) <==> Names.IsAgentKey(k, n)
  {
    forall k | k in prev || k == Names.AgentName(n - 1) ensures Names.IsAgentKey(k, n) {
      if k == Names.AgentName(n - 1) {
        assert (n - 1) as nat < n;
      }
    }
  }

  /** One entry `{charger_id: action_index}` of the actions dictionary. */
  datatype Action = Action(charger: ChargerId, index: nat)

  function ActionKeys(acts: seq<Action>): set<ChargerId> {
    set x | x in acts :: x.charger
  }

  ghost predicate DistinctActionKeys(acts: seq<Action>) {
    forall i, j :: 0 <= i < j < |acts| ==> acts[i].charger != acts[j].charger
  }

  /** `all_actions[cid] = idx` on an insertion-ordered dictionary. */
  function PutAction(acts: seq<Action>, x: Action): (r: seq<Action>)
    requires DistinctActionKeys(acts)
    ensures DistinctActionKeys(r)
    ensures ActionKeys(r) == ActionKeys(acts) + {x.charger}
    ensures forall y :: y in r ==> y == x || y in acts
  {
    if x.charger in ActionKeys(acts) then
      var k :| 0 <= k < |acts| && acts[k].charger == x.charger;
      var r := acts[k := x];
      assert forall y :: y in r ==> y == x || y in acts by {
        forall y | y in r ensures y == x || y in acts {
          var j :| 0 <= j < |r| && r[j] == y;
          if j != k { assert y == acts[j]; }
        }
      }
      assert forall y :: y in acts && y.charger != x.charger ==> y in r by {
        forall y | y in acts && y.charger != x.charger ensures y in r {
          var j :| 0 <= j < |acts| && acts[j] == y;
          assert r[j] == y;
        }
      }
      assert r[k] == x;
      assert acts[k] in acts;
      r
    else
      var r := acts + [x];
      assert forall y :: y in r <==> y == x || y in acts;
      r
  }

  /** The index one charger's agent contributes: 0 for a busy or failed
      charger, else the choice over the placeholder map `{0: 'idle'}`, or 0
      when that choice raises. */
  function AgentAction(ag: Agent, c: Charger, s: Snapshot, coin: Coin): (i: nat)
    ensures i == 0
  {
    if c.status == Occupied || c.status == Failure then 0
    else
      match ChooseAction(ag, AgentStateOf(c.id, s), [IdleAction], coin).choice
      case Ok(ch) => ch.index
      case Err(_) => 0
  }

  /** The `choose_actions` loop over `chargers`, from `acts`. */
  function ActionsFrom(agents: Agents, cs: seq<Charger>, s: Snapshot, coins: nat -> Coin, i: nat,
                       acts: seq<Action>): (r: seq<Action>)
    requires DistinctActionKeys(acts)
    ensures DistinctActionKeys(r)
    ensures ActionKeys(r) == ActionKeys(acts) + (ChargerIds(cs) * agents.Keys)
    ensures forall x :: x in r ==> x in acts || x.index == 0
    decreases |cs|
  {
    if |cs| == 0 then acts
    else
      var c := cs[0];
      var next := if c.id in agents then PutAction(acts, Action(c.id, AgentAction(agents[c.id], c, s, coins(i))))
                  else acts;
      assert ChargerIds(cs) == {c.id} + ChargerIds(cs[1..]) by {
        assert forall x :: x in cs <==> x == c || x in cs[1..];
      }
      ActionsFrom(agents, cs[1..], s, coins, i + 1, next)
  }

  /** `MARLSystem.choose_actions`: an entry for exactly the chargers whose id
      is an agent key, each with index 0. `coins(i)` are the draws of the
      agent of the `i`-th charger. */
  function ChooseActions(agents: Agents, s: Snapshot, coins: nat -> Coin): (r: seq<Action>)
    ensures DistinctActionKeys(r)
    ensures ActionKeys(r) == ChargerIds(s.chargers) * agents.Keys
    ensures forall x :: x in r ==> x.index == 0
  {
    ActionsFrom(agents, s.chargers, s, coins, 0, [])
  }

  /** An environment charger id is never an agent key: the two differ in the
      case of their first letter. */
  lemma NotAnAgentKey(n: int, size: nat, lr: real, gamma: real, epsilon: real,
                      stored: map<string, map<AgentState, seq<real>>>, k: nat)
    ensures Names.ChargerName(k) !in MakeAgents(n, size, lr, gamma, epsilon, stored)
  {
    MakeAgentsKeys(n, size, lr, gamma, epsilon, stored);
  }

  /** The agent keys never match the environment's charger ids, so a system
      built for them chooses no action at all. */
  lemma ChooseActionsMiss(n: int, size: nat, lr: real, gamma: real, epsilon: real,
                          stored: map<string, map<AgentState, seq<real>>>, s: Snapshot, coins: nat -> Coin)
    requires forall c :: c in s.chargers ==> exists k: nat :: c.id == Names.ChargerName(k)
    ensures ChooseActions(MakeAgents(n, size, lr, gamma, epsilon, stored), s, coins) == []
  {
    var agents := MakeAgents(n, size, lr, gamma, epsilon, stored);
    forall x | x in ChargerIds(s.chargers) ensures x !in agents {
      var c :| c in s.chargers && c.id == x;
      var k: nat :| c.id == Names.ChargerName(k);
      NotAnAgentKey(n, size, lr, gamma, epsilon, stored, k);
    }
    NoKeysNoActions(agents, s, coins);
  }

  lemma NoKeysNoActions(agents: Agents, s: Snapshot, coins: nat -> Coin)
    requires forall x :: x in ChargerIds(s.chargers) ==> x !in agents
    ensures ChooseActions(agents, s, coins) == []
  {
    var r := ChooseActions(agents, s, coins);
    assert ActionKeys(r) == {};
    NoKeysEmpty(r);
  }

  /** An actions dictionary without keys is empty. */
  lemma NoKeysEmpty(acts: seq<Action>)
    ensures ActionKeys(acts) == {} <==> acts == []
  {
    if |acts| > 0 {
      assert acts[0].charger in ActionKeys(acts);
    }
  }

  /** `MARLSystem.update_q_tables` as the scheduler's `learn` calls it: with
      the decisions `{user: charger}` where `{charger: index}` was meant.
      The tables never change; a decision whose user id is an agent key
      reaches the integer range check with a string and raises `TypeError`. */
  function Learn(agents: Agents, ds: Decisions): (r: Result<Agents>)
    ensures r.Ok? ==> r.value == agents
    ensures r.Err? <==> exists a :: a in ds && a.user in agents
    ensures r.Err? ==> r.error.TypeError?
  {
    if exists a :: a in ds && a.user in agents then Err(TypeError) else Ok(agents)
  }

  /** The environment's user ids are never agent keys, so learning is a
      silent no-op on every decision the engine produces. */
  lemma LearnIsNoOp(n: int, size: nat, lr: real, gamma: real, epsilon: real,
                    stored: map<string, map<AgentState, seq<real>>>, ds: Decisions)
    requires forall a :: a in ds ==> exists k: nat :: a.user == Names.UserName(k)
    ensures Learn(MakeAgents(n, size, lr, gamma, epsilon, stored), ds)
         == Ok(MakeAgents(n, size, lr, gamma, epsilon, stored))
  {
    MakeAgentsKeys(n, size, lr, gamma, epsilon, stored);
  }
}
