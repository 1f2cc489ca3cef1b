/** The rule-based scheduler: candidates ordered by need, each given the
    nearby charger with the best weighted user/profit/grid score minus a
    queue penalty, with a running load counter per charger. */
module RuleBased {
  import opened Wrappers
  import opened Numeric
  import opened Geo
  import opened Entities
  import opened Config
  import Clock
  import Sorting
  import Metrics

  const DefaultPeakHours: seq<int> := [7, 8, 9, 10, 18, 19, 20, 21]
  const DefaultValleyHours: seq<int> := [0, 1, 2, 3, 4, 5]
  const DefaultWeights: Weights := Weights(Some(0.33), Some(0.33), Some(0.34))

  datatype Period = Peak | Valley | Shoulder

  /** Peak hours are checked before valley hours. */
  function PeriodOf(hour: int, peak: seq<int>, valley: seq<int>): (p: Period)
    ensures p == Peak <==> hour in peak
    ensures p == Valley <==> hour !in peak && hour in valley
  {
    if hour in peak then Peak else if hour in valley then Valley else Shoulder
  }

  /** `rule_based_max_queue`: 3 at peak, 12 in the valley, 6 otherwise. */
  function MaxQueueLen(env: EnvConfig, p: Period): int {
    match p
    case Peak => env.maxQueuePeak.GetOr(3)
    case Valley => env.maxQueueValley.GetOr(12)
    case Shoulder => env.maxQueueShoulder.GetOr(6)
  }

  // ---------------------------------------------------------------------------
  // Weights

  predicate Complete(w: Weights) {
    w.user.Some? && w.profit.Some? && w.grid.Some?
  }

  /** The time-of-day adjustment. At peak the grid weight grows by up to 0.3
      (half the load percentage over 100) and the other two shrink by half
      that; in the valley the grid weight drops by 0.15 and the others grow.
      Reading a missing key raises `KeyError`, grid first. */
  function TimeAdjusted(w: Weights, p: Period, load: real): (r: Result<Weights>)
    ensures p == Shoulder ==> r == Ok(w)
    ensures p != Shoulder ==> (r.Ok? <==> Complete(w))
    ensures r.Err? ==> r.error.KeyError?
    ensures r.Ok? && p != Shoulder ==> Complete(r.value)
    ensures r.Ok? && p == Peak ==>
              r.value.grid.value <= 0.7 && 0.1 <= r.value.user.value && 0.1 <= r.value.profit.value
              && (load >= 0.0 ==> r.value.grid.value >= Min(0.7, w.grid.value))
    ensures r.Ok? && p == Valley ==>
              0.2 <= r.value.grid.value && r.value.user.value <= 0.6 && r.value.profit.value <= 0.6
  {
    match p
    case Shoulder => Ok(w)
    case Peak =>
      if w.grid.None? then Err(KeyError("grid_friendliness"))
      else if w.user.None? then Err(KeyError("user_satisfaction"))
      else if w.profit.None? then Err(KeyError("operator_profit"))
      else
        Ok(Weights(Some(Max(0.1, w.user.value - Min(0.3, load / 200.0) / 2.0)),
                   Some(Max(0.1, w.profit.value - Min(0.3, load / 200.0) / 2.0)),
                   Some(Min(0.7, w.grid.value + Min(0.3, load / 200.0)))))
    case Valley =>
      if w.grid.None? then Err(KeyError("grid_friendliness"))
      else if w.profit.None? then Err(KeyError("operator_profit"))
      else if w.user.None? then Err(KeyError("user_satisfaction"))
      else
        Ok(Weights(Some(Min(0.6, w.user.value + 0.05)),
                   Some(Min(0.6, w.profit.value + 0.1)),
                   Some(Max(0.2, w.grid.value - 0.15))))
  }

  /** `sum(weights.values())` over the keys present. */
  function Total(w: Weights): real {
    w.user.GetOr(0.0) + w.profit.GetOr(0.0) + w.grid.GetOr(0.0)
  }

  function Divide(o: Option<real>, t: real): (r: Option<real>)
    requires t != 0.0
    ensures r.Some? == o.Some?
    ensures r.GetOr(0.0) == o.GetOr(0.0) / t
  {
    match o
    case None => None
    case Some(x) => Some(x / t)
  }

  /** Every present weight divided by the total, when the total is positive. */
  function Normalized(w: Weights): (r: Weights)
    ensures r.user.Some? == w.user.Some? && r.profit.Some? == w.profit.Some? && r.grid.Some? == w.grid.Some?
    ensures Total(w) > 0.0 ==> Total(r) == 1.0
    ensures Total(w) > 0.0 ==>
              r.user.GetOr(0.0) * Total(w) == w.user.GetOr(0.0)
              && r.profit.GetOr(0.0) * Total(w) == w.profit.GetOr(0.0)
              && r.grid.GetOr(0.0) * Total(w) == w.grid.GetOr(0.0)
    ensures Total(w) <= 0.0 ==> r == w
  {
    if Total(w) > 0.0 then
      SumOfQuotients(w.user.GetOr(0.0), w.profit.GetOr(0.0), w.grid.GetOr(0.0), Total(w));
      QuotientTimes(w.user.GetOr(0.0), Total(w));
      QuotientTimes(w.profit.GetOr(0.0), Total(w));
      QuotientTimes(w.grid.GetOr(0.0), Total(w));
      Weights(Divide(w.user, Total(w)), Divide(w.profit, Total(w)), Divide(w.grid, Total(w)))
    else w
  }

  /** Dividing by a non-zero total and multiplying back gives the weight. */
  lemma QuotientTimes(x: real, t: real)
    requires t != 0.0
    ensures (x / t) * t == x
  {
  }

  lemma SumOfQuotients(a: real, b: real, c: real, t: real)
    requires t != 0.0 && a + b + c == t
    ensures a / t + b / t + c / t == 1.0
  {
    assert a / t + b / t + c / t == (a + b + c) / t;
  }

  // ---------------------------------------------------------------------------
  // Sub-scores

  /** Distance component of the user score: falls from 0.5 at the charger
      to -0.5 far away. */
  function DistanceScore(d: real): (r: real)
    ensures -0.5 <= r <= 0.5 || d < 0.0
  {
    if d < 2.0 then 0.5 - d * 0.1
    else if d < 5.0 then 0.3 - (d - 2.0) * 0.1
    else if d < 10.0 then 0.0 - (d - 5.0) * 0.05
    else Max(-0.5, -0.25 - (d - 10.0) * 0.025)
  }

  /** Waiting component of the user score for `n` users ahead. */
  function WaitScore(n: int): (r: real)
    ensures -0.3 <= r <= 0.5
  {
    if n == 0 then 0.5
    else if n <= 2 then 0.3
    else if n <= 5 then 0.1
    else if n <= 8 then -0.1
    else -0.3
  }

  /** A farther charger never has a better distance score, and a longer
      queue never a better waiting score. */
  lemma ScoresFallWithDistanceAndQueue(d1: real, d2: real, n1: int, n2: int)
    requires d1 <= d2 && 0 <= n1 <= n2
    ensures DistanceScore(d2) <= DistanceScore(d1)
    ensures WaitScore(n2) <= WaitScore(n1)
  {
  }

  /** The power the user type expects: more when the SoC is below 40. */
  function ExpectedPower(userType: string, soc: real): (p: real)
    ensures p >= 20.0
  {
    if userType == "taxi" || userType == "ride_hailing" then 50.0 + PowerUrgency(soc) * 50.0
    else if userType == "logistics" then 30.0 + PowerUrgency(soc) * 50.0
    else 20.0 + PowerUrgency(soc) * 30.0
  }

  function PowerUrgency(soc: real): (r: real)
    ensures r >= 0.0
  {
    if soc < 40.0 then Max(0.0, (40.0 - soc) / 40.0) else 0.0
  }

  function PowerScore(ratio: real): (r: real)
    ensures -0.2 <= r <= 0.4
  {
    if ratio >= 1.5 then 0.4
    else if ratio >= 1.0 then 0.3
    else if ratio >= 0.7 then 0.1
    else if ratio >= 0.5 then -0.1
    else -0.2
  }

  /** Below 15% SoC the distance and waiting components count 1.5 times,
      below 25% 1.2 times. */
  function Emergency(soc: real): (e: real)
    ensures e == 1.0 || e == 1.2 || e == 1.5
  {
    if soc < 15.0 then 1.5 else if soc < 25.0 then 1.2 else 1.0
  }

  function Satisfaction(ds: real, ws: real, ps: real, pr: real, e: real): real {
    ds * 0.4 * e + ws * 0.3 * e + ps * 0.15 + pr * 0.15
  }

  /** In an emergency (factor above 1.2) a satisfaction below -0.5 is
      softened by 0.8, never below -0.5. */
  function Softened(sat: real, e: real): (r: real)
    ensures e > 1.2 && sat < -0.5 ==> -0.5 <= r
    ensures !(e > 1.2 && sat < -0.5) ==> r == sat
  {
    if e > 1.2 && sat < -0.5 then Max(-0.5, sat * 0.8) else sat
  }

  /** `_calculate_user_satisfaction_score`. */
  function UserScore(u: User, c: Charger, distance: real, queueLen: int): (r: real)
    ensures -1.0 <= r <= 1.0
  {
    Clamp(-1.0, 1.0,
      Softened(Satisfaction(DistanceScore(distance), WaitScore(queueLen),
                            PowerScore(c.maxPower / ExpectedPower(u.userType, u.soc)),
                            Clamp(-0.3, 0.3, (1.0 - c.priceMultiplier) * 0.5),
                            Emergency(u.soc)),
               Emergency(u.soc)))
  }

  /** Effective price, raised 15% for fast and 30% for superfast chargers. */
  function TypedPrice(kind: string, price: real): real {
    if kind == "fast" then price * 1.15 else if kind == "superfast" then price * 1.30 else price
  }

  /** The raw profit score: typed price less 0.15 per queued user, times a
      small bonus for the energy the user still needs. */
  function ProfitRaw(u: User, c: Charger, price: real): real {
    (TypedPrice(c.kind, price * c.priceMultiplier) - |c.queue| as real * 0.15)
      * (1.0 + (100.0 - u.soc) / 50.0 * 0.05)
  }

  /** `_calculate_operator_profit_score`: the raw score mapped from [0.5, 2]
      onto [-1, 1] and clamped. */
  function ProfitScore(u: User, c: Charger, g: GridReading): (r: real)
    ensures -1.0 <= r <= 1.0
  {
    Clamp(-1.0, 1.0, 2.0 * ((ProfitRaw(u, c, g.price.GetOr(0.85)) - 0.5) / 1.5) - 1.0)
  }

  /** The power penalty of the grid score. */
  function PowerPenalty(maxPower: real): real {
    if maxPower > 150.0 then 0.1 else if maxPower > 50.0 then 0.05 else 0.0
  }

  /** `renewable_ratio / 100`, or 0 when the key is absent. */
  function RenewableFraction(g: GridReading): real {
    if g.renewableRatio.None? then 0.0 else g.renewableRatio.value / 100.0
  }

  /** `_calculate_grid_friendliness_score`: the metrics load and time factors
      (peak and valley hours default to none here), renewables, and a
      penalty for powerful chargers, scaled as the grid KPI is. */
  function GridScore(c: Charger, g: GridReading, hour: nat): (r: real)
    ensures -0.72 <= r <= 1.0
  {
    Metrics.Friendliness(
      Metrics.LoadFactor(g.loadPercentage.GetOr(50.0)) + 0.8 * RenewableFraction(g)
      + Metrics.TimeFactor(hour, g.peakHours.GetOr([]), g.valleyHours.GetOr([]))
      - PowerPenalty(c.maxPower))
  }

  // ---------------------------------------------------------------------------
  // Candidates

  function ProfileShift(profile: string): real {
    if profile == "anxious" then 10.0 else if profile == "economic" then -10.0 else 0.0
  }

  function PeriodShift(p: Period): real {
    match p
    case Peak => -5.0
    case Valley => 10.0
    case Shoulder => 0.0
  }

  /** The SoC below which a user is considered: the configured default (40)
      moved by profile and time of day, kept within [15, 60]. */
  function Threshold(env: EnvConfig, profile: string, p: Period): (t: real)
    ensures 15.0 <= t <= 60.0
  {
    Clamp(15.0, 60.0, env.defaultChargeThreshold.GetOr(40.0) + ProfileShift(profile) + PeriodShift(p))
  }

  /** How far below the threshold the SoC is, as a fraction of it, plus 0.3
      for a flagged user, kept within [0, 1]. */
  function Urgency(soc: real, t: real, flag: bool): (r: real)
    requires t > 0.0
    ensures 0.0 <= r <= 1.0
    ensures soc >= t ==> r == (if flag then 0.3 else 0.0)
    ensures 0.0 <= soc < t && !flag ==> r == (t - soc) / t
  {
    Clamp(0.0, 1.0, (if soc < t then (t - soc) / t else 0.0) + (if flag then 0.3 else 0.0))
  }

  /** A user worth scheduling: has an id, is not charging or waiting, is
      flagged or at most at the threshold (and below 80%), and needs at
      least the minimum charge to reach 95%. */
  predicate Wants(u: User, env: EnvConfig, p: Period) {
    u.id != "" && Free(u)
    && (u.needsCharge || (u.soc <= Threshold(env, u.profile, p) && u.soc < 80.0))
    && 95.0 - u.soc >= env.minChargeThreshold.GetOr(20.0)
  }

  datatype Candidate = Candidate(user: User, urgency: real, flag: bool)

  function CandidateOf(u: User, env: EnvConfig, p: Period): (c: Candidate)
    ensures c.user == u && c.flag == u.needsCharge && 0.0 <= c.urgency <= 1.0
  {
    Candidate(u, Urgency(u.soc, Threshold(env, u.profile, p), u.needsCharge), u.needsCharge)
  }

  function Candidates(users: seq<User>, env: EnvConfig, p: Period): (r: seq<Candidate>)
    ensures forall c :: c in r ==> c == CandidateOf(c.user, env, p) && c.user in users && Wants(c.user, env, p)
    ensures forall u :: u in users && Wants(u, env, p) ==> CandidateOf(u, env, p) in r
  {
    if |users| == 0 then []
    else
      var rest := Candidates(users[1..], env, p);
      assert forall u :: u in users <==> u == users[0] || u in users[1..];
      (if Wants(users[0], env, p) then [CandidateOf(users[0], env, p)] else []) + rest
  }

  /** The sort key `(-int(flag), -urgency)` folded into one number: urgency
      lies in [0, 1], so flagged users (key at most -2) precede the rest. */
  function Priority(c: Candidate): real {
    -((if c.flag then 2.0 else 0.0) + c.urgency)
  }

  /** Candidates after `sort(key=(-int(flag), -urgency))`: flagged users
      first, then by urgency, ties in state order. */
  lemma PriorityOrder(cs: seq<Candidate>, i: nat, j: nat)
    requires Sorting.Sorted(cs, Priority) && i < j < |cs|
    requires 0.0 <= cs[i].urgency <= 1.0 && 0.0 <= cs[j].urgency <= 1.0
    ensures cs[j].flag ==> cs[i].flag
    ensures cs[i].flag == cs[j].flag ==> cs[i].urgency >= cs[j].urgency
  {
    assert Priority(cs[i]) <= Priority(cs[j]);
  }

  // ---------------------------------------------------------------------------
  // Chargers and loads

  /** The load counter before any assignment: occupant plus queue for each
      charger that has not failed, nothing for failed ones. */
  function InitialLoads(d: seq<Charger>): (m: map<ChargerId, nat>)
    ensures DistinctChargerIds(d) ==>
              forall c :: c in d ==> Tally(m, c.id) == (if c.status == Failure then 0 else Load(c))
    ensures forall k :: k !in ChargerIds(d) ==> Tally(m, k) == 0
    decreases |d|
  {
    if |d| == 0 then map[]
    else
      var init := InitialLoads(d[..|d| - 1]);
      var c := d[|d| - 1];
      assert forall x :: x in d <==> x in d[..|d| - 1] || x == c;
      assert DistinctChargerIds(d) ==> forall x :: x in d[..|d| - 1] ==> x.id != c.id by {
        if DistinctChargerIds(d) {
          forall x | x in d[..|d| - 1] ensures x.id != c.id {
            var i :| 0 <= i < |d| - 1 && d[i] == x;
            assert d[i].id != d[|d| - 1].id;
          }
        }
      }
      if c.status == Failure then init else init[c.id := Tally(init, c.id) + Load(c)]
  }

  // ---------------------------------------------------------------------------
  // Choosing a charger for one user

  /** What one scheduling call holds fixed: the configuration read once, the
      time-of-day weights, the grid reading and hour, and the SoC variable
      the candidate loop leaves behind (the last user's SoC). */
  datatype Context = Context(
    env: EnvConfig,
    maxQueue: int,
    weights: Weights,
    grid: GridReading,
    hour: nat,
    staleSoc: real,
    sqrt: SqrtFn)

  /** A charger that has not failed and whose load counter is below the
      maximum queue length. */
  predicate Open(c: Charger, loads: map<ChargerId, nat>, maxQueue: int) {
    c.status != Failure && Tally(loads, c.id) < maxQueue
  }

  /** A reachable charger and its distance. */
  datatype Near = Near(charger: Charger, dist: real)

  function Dist(n: Near): real {
    n.dist
  }

  /** `available_chargers_with_dist`, in dictionary order. */
  function Available(u: User, d: seq<Charger>, loads: map<ChargerId, nat>, x: Context): (r: seq<Near>)
    ensures forall n :: n in r ==>
              n.charger in d && Open(n.charger, loads, x.maxQueue)
              && Distance(u.position, n.charger.position, x.sqrt) == Fin(n.dist)
    ensures forall c :: c in d && Open(c, loads, x.maxQueue) && Distance(u.position, c.position, x.sqrt).Fin? ==>
              Near(c, Distance(u.position, c.position, x.sqrt).v) in r
    decreases |d|
  {
    if |d| == 0 then []
    else
      var rest := Available(u, d[1..], loads, x);
      assert forall c :: c in d <==> c == d[0] || c in d[1..];
      (if Open(d[0], loads, x.maxQueue) && Distance(u.position, d[0].position, x.sqrt).Fin?
       then [Near(d[0], Distance(u.position, d[0].position, x.sqrt).v)] else [])
      + rest
  }

  /** The first `limit` entries by distance (`sort` then `[:limit]`):
      every entry left out is at least as far as every one kept. */
  function Nearest(all: seq<Near>, limit: int): (r: seq<Near>)
    ensures multiset(r) <= multiset(all) && forall n :: n in r ==> n in all
    ensures limit >= 0 ==> |r| == (if limit < |all| then limit else |all|)
    ensures limit < 0 ==> |r| == (if -limit < |all| then |all| + limit else 0)
    ensures Sorting.Sorted(r, Dist)
    ensures forall n, m :: n in r && m in all && m !in r ==> n.dist <= m.dist
  {
    var sorted := Sorting.SortBy(all, Dist);
    Sorting.SortBySorted(all, Dist);
    Sorting.SortByMembers(all, Dist);
    Sorting.PrefixKeepsSmallest(sorted, Dist, limit);
    Sorting.Prefix(sorted, limit)
  }

  /** The chargers scored for `u`: the nearest `rule_based_candidate_limit`
      (default 15) available ones. */
  function Nearby(u: User, d: seq<Charger>, loads: map<ChargerId, nat>, x: Context): seq<Near> {
    Nearest(Available(u, d, loads, x), x.env.candidateLimit.GetOr(15))
  }

  /** The per-charger weight boosts: the grid weight times 1.5 (at most 0.8)
      when the grid score is below -0.5, and the user weight times 1.5 (at
      most 0.6) when urgency exceeds 0.9 and `soc` is below 15. Reading a
      missing key raises `KeyError`. */
  function Boosted(w: Weights, gridScore: real, urgency: real, soc: real): (r: Result<Weights>)
    ensures r.Ok? ==> r.value.user.Some? == w.user.Some? && r.value.profit == w.profit
                      && r.value.grid.Some? == w.grid.Some?
    ensures Complete(w) ==> r.Ok?
    ensures r.Err? ==> r.error.KeyError?
    ensures r.Ok? && Complete(w) && w.user.value >= 0.0 && w.grid.value >= 0.0 ==>
              r.value.user.value >= 0.0 && r.value.grid.value >= 0.0
  {
    if gridScore < -0.5 && w.grid.None? then Err(KeyError("grid_friendliness"))
    else if urgency > 0.9 && soc < 15.0 && w.user.None? then Err(KeyError("user_satisfaction"))
    else
      Ok(Weights(
        if urgency > 0.9 && soc < 15.0 then Some(Min(0.6, w.user.value * 1.5)) else w.user,
        w.profit,
        if gridScore < -0.5 then Some(Min(0.8, w.grid.value * 1.5)) else w.grid))
  }

  predicate NonNegative(w: Weights) {
    w.user.GetOr(0.0) >= 0.0 && w.profit.GetOr(0.0) >= 0.0 && w.grid.GetOr(0.0) >= 0.0
  }

  /** `combined_score`: the sub-scores weighted by the boosted, renormalised
      weights. */
  function Combined(w: Weights, us: real, ps: real, gs: real, urgency: real, soc: real): (r: Result<real>)
    ensures r.Ok? <==> Complete(w)
    ensures r.Err? ==> r.error.KeyError?
    ensures r.Ok? && NonNegative(w) && -1.0 <= us <= 1.0 && -1.0 <= ps <= 1.0 && -1.0 <= gs <= 1.0 ==>
              -1.0 <= r.value <= 1.0
  {
    match Boosted(w, gs, urgency, soc)
    case Err(e) => Err(e)
    case Ok(b) =>
      if Normalized(b).user.None? then Err(KeyError("user_satisfaction"))
      else if Normalized(b).profit.None? then Err(KeyError("operator_profit"))
      else if Normalized(b).grid.None? then Err(KeyError("grid_friendliness"))
      else
        CombinedBounded(b, us, ps, gs);
        Ok(us * Normalized(b).user.value + ps * Normalized(b).profit.value + gs * Normalized(b).grid.value)
  }

  lemma CombinedBounded(b: Weights, us: real, ps: real, gs: real)
    requires Complete(b)
    ensures NonNegative(b) && -1.0 <= us <= 1.0 && -1.0 <= ps <= 1.0 && -1.0 <= gs <= 1.0 ==>
              -1.0 <= us * Normalized(b).user.value + ps * Normalized(b).profit.value
                      + gs * Normalized(b).grid.value <= 1.0
  {
    if NonNegative(b) && -1.0 <= us <= 1.0 && -1.0 <= ps <= 1.0 && -1.0 <= gs <= 1.0 {
      var n := Normalized(b);
      if Total(b) > 0.0 {
        assert n.user.value >= 0.0 && n.profit.value >= 0.0 && n.grid.value >= 0.0;
        ConvexCombination(n.user.value, n.profit.value, n.grid.value, us, ps, gs, -1.0, 1.0);
        assert -1.0 <= us * n.user.value + ps * n.profit.value + gs * n.grid.value <= 1.0;
      } else {
        assert n == b && b.user.value == 0.0 && b.profit.value == 0.0 && b.grid.value == 0.0;
      }
    }
  }

  /** With non-negative weights summing to 1 the combined score lies between
      the smallest and the largest sub-score. */
  lemma ConvexCombination(a: real, b: real, c: real, x: real, y: real, z: real, lo: real, hi: real)
    requires a >= 0.0 && b >= 0.0 && c >= 0.0 && a + b + c == 1.0
    requires lo <= x <= hi && lo <= y <= hi && lo <= z <= hi
    ensures lo <= x * a + y * b + z * c <= hi
  {
    var s := x * a + y * b + z * c;
    ProductNonNegative(x - lo, a);
    ProductNonNegative(y - lo, b);
    ProductNonNegative(z - lo, c);
    ProductNonNegative(hi - x, a);
    ProductNonNegative(hi - y, b);
    ProductNonNegative(hi - z, c);
    Distribute(lo, a, b, c);
    Distribute(hi, a, b, c);
    assert s - lo == (x - lo) * a + (y - lo) * b + (z - lo) * c;
    assert hi - s == (hi - x) * a + (hi - y) * b + (hi - z) * c;
  }

  lemma Distribute(k: real, a: real, b: real, c: real)
    requires a + b + c == 1.0
    ensures k * a + k * b + k * c == k
  {
    assert k * a + k * b + k * c == k * (a + b + c);
  }

  // ---------------------------------------------------------------------------
  // Scoring the nearby chargers

  /** `penalized_score`: the combined score less the charger's current load
      counter times `rule_based_queue_penalty` (default 0.05). */
  function ScoreOf(cand: Candidate, n: Near, loads: map<ChargerId, nat>, x: Context): (r: Result<real>)
    ensures r.Ok? <==> Complete(x.weights)
    ensures r.Err? ==> r.error.KeyError?
    ensures r.Ok? && NonNegative(x.weights) ==>
              var penalty := Tally(loads, n.charger.id) as real * x.env.queuePenalty.GetOr(0.05);
              -1.0 - penalty <= r.value <= 1.0 - penalty
  {
    var penalty := Tally(loads, n.charger.id) as real * x.env.queuePenalty.GetOr(0.05);
    match Unpenalized(cand, n, loads, x)
    case Err(e) => Err(e)
    case Ok(v) => Ok(v - penalty)
  }

  /** `combined_score` of one nearby charger, with its user, profit and grid
      sub-scores. */
  function Unpenalized(cand: Candidate, n: Near, loads: map<ChargerId, nat>, x: Context): (r: Result<real>)
    ensures r.Ok? <==> Complete(x.weights)
    ensures r.Err? ==> r.error.KeyError?
    ensures r.Ok? && NonNegative(x.weights) ==> -1.0 <= r.value <= 1.0
  {
    var us := UserScore(cand.user, n.charger, n.dist, Tally(loads, n.charger.id));
    var ps := ProfitScore(cand.user, n.charger, x.grid);
    var gs := GridScore(n.charger, x.grid, x.hour);
    Combined(x.weights, us, ps, gs, cand.urgency, x.staleSoc)
  }

  /** The penalised scores of `ns`, in order; the first missing weight key
      aborts the whole call. */
  function Scores(cand: Candidate, ns: seq<Near>, loads: map<ChargerId, nat>, x: Context): (r: Result<seq<real>>)
    ensures r.Ok? <==> |ns| == 0 || Complete(x.weights)
    ensures r.Err? ==> r.error.KeyError?
    ensures r.Ok? ==> |r.value| == |ns|
                      && forall i :: 0 <= i < |ns| ==> ScoreOf(cand, ns[i], loads, x) == Ok(r.value[i])
    decreases |ns|
  {
    if |ns| == 0 then Ok([])
    else
      match ScoreOf(cand, ns[0], loads, x)
      case Err(e) => Err(e)
      case Ok(v) =>
        match Scores(cand, ns[1..], loads, x)
        case Err(e) => Err(e)
        case Ok(vs) =>
          ScoresCons(ns, v, vs, (n: Near) => ScoreOf(cand, n, loads, x));
          Ok([v] + vs)
  }

  /** Pointwise scores of a sequence from those of its head and tail. */
  lemma ScoresCons(ns: seq<Near>, v: real, vs: seq<real>, f: Near -> Result<real>)
    requires |ns| > 0 && f(ns[0]) == Ok(v) && |vs| == |ns| - 1
    requires forall i :: 0 <= i < |vs| ==> f(ns[1..][i]) == Ok(vs[i])
    ensures forall i :: 0 <= i < |ns| ==> f(ns[i]) == Ok(([v] + vs)[i])
  {
    forall i | 0 < i < |ns| ensures f(ns[i]) == Ok(([v] + vs)[i]) {
      assert ns[i] == ns[1..][i - 1];
    }
  }

  /** The best-scoring of the nearby chargers `ns`, or none when there is
      none or the best one's id is empty (`if best_charger_id:`). */
  function PickAmong(cand: Candidate, ns: seq<Near>, loads: map<ChargerId, nat>, x: Context): (r: Result<Option<Near>>)
    ensures r.Err? <==> |ns| > 0 && !Complete(x.weights)
    ensures r.Err? ==> r.error.KeyError?
    ensures r.Ok? && r.value.Some? ==> r.value.value in ns && r.value.value.charger.id != ""
    ensures r.Ok? && r.value.None? && (forall n :: n in ns ==> n.charger.id != "") ==> ns == []
  {
    match Scores(cand, ns, loads, x)
    case Err(e) => Err(e)
    case Ok(sc) =>
      match Sorting.FirstMax(sc)
      case None => Ok(None)
      case Some(i) =>
        assert ns[i] in ns;
        if ns[i].charger.id == "" then Ok(None) else Ok(Some(ns[i]))
  }

  /** The charger chosen for one candidate among its nearby chargers. */
  function Pick(cand: Candidate, d: seq<Charger>, loads: map<ChargerId, nat>, x: Context): (r: Result<Option<Near>>)
    ensures r.Err? <==> |Nearby(cand.user, d, loads, x)| > 0 && !Complete(x.weights)
    ensures r.Err? ==> r.error.KeyError?
    ensures r.Ok? && r.value.Some? ==>
              r.value.value in Nearby(cand.user, d, loads, x) && r.value.value.charger.id != ""
    ensures r.Ok? && r.value.None? && (forall n :: n in Nearby(cand.user, d, loads, x) ==> n.charger.id != "") ==>
              Nearby(cand.user, d, loads, x) == []
  {
    PickAmong(cand, Nearby(cand.user, d, loads, x), loads, x)
  }

  /** Among `ns`, the chosen charger scores at least as well as every other,
      and strictly better than every one before it. */
  lemma PickAmongIsBest(cand: Candidate, ns: seq<Near>, loads: map<ChargerId, nat>, x: Context, b: Near, j: nat)
    requires j < |ns|
    ensures PickAmong(cand, ns, loads, x) == Ok(Some(b)) ==>
              ScoreOf(cand, ns[j], loads, x).Ok? && ScoreOf(cand, b, loads, x).Ok?
              && ScoreOf(cand, ns[j], loads, x).value <= ScoreOf(cand, b, loads, x).value
              && (ns[j] != b && ScoreOf(cand, ns[j], loads, x).value == ScoreOf(cand, b, loads, x).value ==>
                    exists i :: 0 <= i < j && ns[i] == b)
  {
    if PickAmong(cand, ns, loads, x) == Ok(Some(b)) {
      var sc := Scores(cand, ns, loads, x).value;
      var i := Sorting.FirstMax(sc).value;
      assert ns[i] == b;
      assert ScoreOf(cand, ns[j], loads, x) == Ok(sc[j]);
      assert ScoreOf(cand, b, loads, x) == Ok(sc[i]);
      Sorting.FirstMaxEarliest(sc, j);
      if ns[j] != b && ScoreOf(cand, ns[j], loads, x).value == ScoreOf(cand, b, loads, x).value {
        assert sc[j] == sc[i];
        assert i != j;
        assert 0 <= i < j && ns[i] == b;
      }
    }
  }

  /** The chosen charger scores at least as well as every other nearby
      charger, and strictly better than every one scanned before it. */
  lemma PickIsBest(cand: Candidate, d: seq<Charger>, loads: map<ChargerId, nat>, x: Context, b: Near, j: nat)
    ensures var ns := Nearby(cand.user, d, loads, x);
            Pick(cand, d, loads, x) == Ok(Some(b)) && j < |ns| ==>
              ScoreOf(cand, ns[j], loads, x).Ok? && ScoreOf(cand, b, loads, x).Ok?
              && ScoreOf(cand, ns[j], loads, x).value <= ScoreOf(cand, b, loads, x).value
              && (ns[j] != b && ScoreOf(cand, ns[j], loads, x).value == ScoreOf(cand, b, loads, x).value ==>
                    exists i :: 0 <= i < j && ns[i] == b)
  {
    var ns := Nearby(cand.user, d, loads, x);
    if j < |ns| {
      PickAmongIsBest(cand, ns, loads, x, b, j);
    }
  }

  // ---------------------------------------------------------------------------
  // The assignment pass

  /** One candidate's turn: skipped when already assigned, otherwise its
      pick. */
  function Visit(cand: Candidate, d: seq<Charger>, loads: map<ChargerId, nat>,
                 taken: set<UserId>, x: Context): (r: Result<Option<Near>>)
    ensures r.Ok? && r.value.Some? ==>
              cand.user.id !in taken && r.value.value.charger in d && r.value.value.charger.id != ""
              && Open(r.value.value.charger, loads, x.maxQueue)
    ensures r.Err? ==> r.error.KeyError? && !Complete(x.weights)
  {
    if cand.user.id in taken then Ok(None)
    else
      var r := Pick(cand, d, loads, x);
      assert r.Ok? && r.value.Some? ==> r.value.value in Available(cand.user, d, loads, x);
      r
  }

  function CandidateUserIds(cs: seq<Candidate>): set<UserId> {
    set c | c in cs :: c.user.id
  }

  /** The loop over the ordered candidates; the result carries the updated
      load counters. */
  function Assign(cs: seq<Candidate>, d: seq<Charger>, loads: map<ChargerId, nat>,
                  taken: set<UserId>, x: Context): (r: Result<(Decisions, map<ChargerId, nat>)>)
    ensures r.Err? ==> r.error.KeyError? && !Complete(x.weights)
    ensures r.Ok? ==> DecidedUsers(r.value.0) !! taken && DistinctDecisionUsers(r.value.0)
    ensures r.Ok? ==> forall a :: a in r.value.0 ==> a.charger in WorkingIds(d) && a.charger != ""
    decreases |cs|
  {
    if |cs| == 0 then Ok(([], loads))
    else
      var cand := cs[0];
      match Visit(cand, d, loads, taken, x)
      case Err(e) => Err(e)
      case Ok(None) => Assign(cs[1..], d, loads, taken, x)
      case Ok(Some(n)) =>
        match Assign(cs[1..], d, Bump(loads, n.charger.id), taken + {cand.user.id}, x)
        case Err(e) => Err(e)
        case Ok(rest) =>
          Prepend(Assignment(cand.user.id, n.charger.id), rest.0);
          Ok(([Assignment(cand.user.id, n.charger.id)] + rest.0, rest.1))
  }

  /** Every user the pass assigns is one of the candidates. */
  lemma {:induction false} AssignFromCandidates(cs: seq<Candidate>, d: seq<Charger>, loads: map<ChargerId, nat>,
                                                taken: set<UserId>, x: Context)
    ensures Assign(cs, d, loads, taken, x).Ok? ==>
            DecidedUsers(Assign(cs, d, loads, taken, x).value.0) <= CandidateUserIds(cs)
    decreases |cs|
  {
    if |cs| > 0 && Assign(cs, d, loads, taken, x).Ok? {
      var cand := cs[0];
      assert CandidateUserIds(cs[1..]) <= CandidateUserIds(cs) by {
        assert forall c :: c in cs[1..] ==> c in cs;
      }
      assert cand in cs;
      match Visit(cand, d, loads, taken, x)
      case Ok(None) =>
        AssignFromCandidates(cs[1..], d, loads, taken, x);
      case Ok(Some(n)) =>
        AssignFromCandidates(cs[1..], d, Bump(loads, n.charger.id), taken + {cand.user.id}, x);
    }
  }

  /** The counters the pass returns are the initial counters plus the
      decisions it made, charger by charger. */
  lemma {:induction false} AssignCounts(cs: seq<Candidate>, d: seq<Charger>, loads: map<ChargerId, nat>,
                                        taken: set<UserId>, x: Context, k: ChargerId)
    ensures var r := Assign(cs, d, loads, taken, x);
            r.Ok? ==> Tally(r.value.1, k) == Tally(loads, k) + AssignedTo(r.value.0, k)
    decreases |cs|
  {
    if |cs| > 0 && Assign(cs, d, loads, taken, x).Ok? {
      var cand := cs[0];
      match Visit(cand, d, loads, taken, x)
      case Ok(None) =>
        AssignCounts(cs[1..], d, loads, taken, x, k);
      case Ok(Some(n)) =>
        AssignCounts(cs[1..], d, Bump(loads, n.charger.id), taken + {cand.user.id}, x, k);
    }
  }

  /** A charger the pass assigns to ends with its counter at most the
      maximum queue length: it is only chosen while below it. */
  lemma {:induction false} AssignCapped(cs: seq<Candidate>, d: seq<Charger>, loads: map<ChargerId, nat>,
                                        taken: set<UserId>, x: Context, k: ChargerId)
    ensures var r := Assign(cs, d, loads, taken, x);
            r.Ok? && AssignedTo(r.value.0, k) > 0 ==> Tally(r.value.1, k) <= x.maxQueue
    decreases |cs|
  {
    if Assign(cs, d, loads, taken, x).Ok? && AssignedTo(Assign(cs, d, loads, taken, x).value.0, k) > 0 {
      var cand := cs[0];
      match Visit(cand, d, loads, taken, x)
      case Ok(None) =>
        AssignCapped(cs[1..], d, loads, taken, x, k);
      case Ok(Some(n)) =>
        var bumped := Bump(loads, n.charger.id);
        var rest := Assign(cs[1..], d, bumped, taken + {cand.user.id}, x).value;
        if AssignedTo(rest.0, k) > 0 {
          AssignCapped(cs[1..], d, bumped, taken + {cand.user.id}, x, k);
        } else {
          AssignCounts(cs[1..], d, bumped, taken + {cand.user.id}, x, k);
          assert n.charger.id == k;
        }
    }
  }

  /** The pass over `ys` resumed after a pass result `p`: an error stops
      everything, otherwise `ys` is scanned from the load counters and the
      assigned users that `p` left behind. */
  function Resume(p: Result<(Decisions, map<ChargerId, nat>)>, ys: seq<Candidate>, d: seq<Charger>,
                  taken: set<UserId>, x: Context): Result<(Decisions, map<ChargerId, nat>)>
  {
    match p
    case Err(e) => Err(e)
    case Ok(v) =>
      match Assign(ys, d, v.1, taken + DecidedUsers(v.0), x)
      case Err(e) => Err(e)
      case Ok(w) => Ok((v.0 + w.0, w.1))
  }

  /** A pass result with one more decision in front. */
  function Prefixed(a: Assignment, r: Result<(Decisions, map<ChargerId, nat>)>)
    : Result<(Decisions, map<ChargerId, nat>)>
  {
    match r
    case Err(e) => Err(e)
    case Ok(v) => Ok(([a] + v.0, v.1))
  }

  /** The pass is a left-to-right scan that stops at the first error:
      running it over `xs + ys` runs it over `xs`, then resumes over `ys`. */
  lemma {:induction false} AssignSplit(xs: seq<Candidate>, ys: seq<Candidate>, d: seq<Charger>,
                                       loads: map<ChargerId, nat>, taken: set<UserId>, x: Context)
    ensures Assign(xs + ys, d, loads, taken, x) == Resume(Assign(xs, d, loads, taken, x), ys, d, taken, x)
    decreases |xs|, 1
  {
    if |xs| == 0 {
      assert xs + ys == ys;
      assert taken + DecidedUsers([]) == taken;
      var q := Assign(ys, d, loads, taken, x);
      if q.Ok? {
        assert [] + q.value.0 == q.value.0;
      }
    } else {
      match Visit(xs[0], d, loads, taken, x)
      case Err(e) =>
        var zs := xs + ys;
        assert zs[0] == xs[0];
      case Ok(None) =>
        SplitSkip(xs, ys, d, loads, taken, x);
      case Ok(Some(n)) =>
        SplitPlace(xs, ys, d, loads, taken, x, n);
    }
  }

  /** `AssignSplit` when the first candidate is passed over. */
  lemma {:induction false} SplitSkip(xs: seq<Candidate>, ys: seq<Candidate>, d: seq<Charger>,
                                     loads: map<ChargerId, nat>, taken: set<UserId>, x: Context)
    ensures |xs| > 0 && Visit(xs[0], d, loads, taken, x) == Ok(None) ==>
              Assign(xs + ys, d, loads, taken, x) == Resume(Assign(xs, d, loads, taken, x), ys, d, taken, x)
    decreases |xs|, 0
  {
    if |xs| > 0 && Visit(xs[0], d, loads, taken, x) == Ok(None) {
      assert Assign(xs + ys, d, loads, taken, x) == Assign(xs[1..] + ys, d, loads, taken, x) by {
        Sorting.ConcatHead(xs, ys);
        SkipHead(xs + ys, d, loads, taken, x);
      }
      assert Assign(xs, d, loads, taken, x) == Assign(xs[1..], d, loads, taken, x) by {
        SkipHead(xs, d, loads, taken, x);
      }
      AssignSplit(xs[1..], ys, d, loads, taken, x);
    }
  }

  /** A candidate passed over leaves the rest of the pass as it was. */
  lemma SkipHead(vs: seq<Candidate>, d: seq<Charger>, loads: map<ChargerId, nat>, taken: set<UserId>, x: Context)
    ensures |vs| > 0 && Visit(vs[0], d, loads, taken, x) == Ok(None) ==>
              Assign(vs, d, loads, taken, x) == Assign(vs[1..], d, loads, taken, x)
  {
  }

  /** A candidate placed at `n` is decided first, and the rest of the pass
      runs with that charger counted and that user taken. */
  lemma PlaceHead(vs: seq<Candidate>, d: seq<Charger>, loads: map<ChargerId, nat>, taken: set<UserId>,
                  x: Context, n: Near)
    ensures |vs| > 0 && Visit(vs[0], d, loads, taken, x) == Ok(Some(n)) ==>
              var rest := Assign(vs[1..], d, Bump(loads, n.charger.id), taken + {vs[0].user.id}, x);
              Assign(vs, d, loads, taken, x) == Prefixed(Assignment(vs[0].user.id, n.charger.id), rest)
  {
  }

  /** `AssignSplit` when the first candidate is placed at `n`. */
  lemma {:induction false} SplitPlace(xs: seq<Candidate>, ys: seq<Candidate>, d: seq<Charger>,
                                      loads: map<ChargerId, nat>, taken: set<UserId>, x: Context, n: Near)
    ensures |xs| > 0 && Visit(xs[0], d, loads, taken, x) == Ok(Some(n)) ==>
              Assign(xs + ys, d, loads, taken, x) == Resume(Assign(xs, d, loads, taken, x), ys, d, taken, x)
    decreases |xs|, 0
  {
    if |xs| > 0 && Visit(xs[0], d, loads, taken, x) == Ok(Some(n)) {
      var a := Assignment(xs[0].user.id, n.charger.id);
      var loads', taken' := Bump(loads, n.charger.id), taken + {xs[0].user.id};
      var p' := Assign(xs[1..], d, loads', taken', x);
      var rest := Assign(xs[1..] + ys, d, loads', taken', x);
      assert Assign(xs + ys, d, loads, taken, x) == Prefixed(a, rest) by {
        Sorting.ConcatHead(xs, ys);
        PlaceHead(xs + ys, d, loads, taken, x, n);
      }
      assert Assign(xs, d, loads, taken, x) == Prefixed(a, p') by {
        PlaceHead(xs, d, loads, taken, x, n);
      }
      AssignSplit(xs[1..], ys, d, loads', taken', x);
      ResumeAfterHead(a, p', rest, ys, d, taken, x);
    }
  }

  /** A resumed pass that succeeds did so on both parts. */
  lemma ResumeParts(p: Result<(Decisions, map<ChargerId, nat>)>, ys: seq<Candidate>, d: seq<Charger>,
                    taken: set<UserId>, x: Context)
    requires Resume(p, ys, d, taken, x).Ok?
    ensures p.Ok?
    ensures var q := Assign(ys, d, p.value.1, taken + DecidedUsers(p.value.0), x);
            q.Ok? && Resume(p, ys, d, taken, x).value.0 == p.value.0 + q.value.0
  {
  }

  /** Putting one decision in front commutes with resuming the pass. */
  lemma ResumeAfterHead(a: Assignment, p: Result<(Decisions, map<ChargerId, nat>)>,
                        rest: Result<(Decisions, map<ChargerId, nat>)>, ys: seq<Candidate>, d: seq<Charger>,
                        taken: set<UserId>, x: Context)
    requires rest == Resume(p, ys, d, taken + {a.user}, x)
    ensures Prefixed(a, rest) == Resume(Prefixed(a, p), ys, d, taken, x)
  {
    if p.Ok? {
      var v := p.value;
      var q := Assign(ys, d, v.1, taken + {a.user} + DecidedUsers(v.0), x);
      DecidedCons(a, v.0);
      assert taken + {a.user} + DecidedUsers(v.0) == taken + DecidedUsers([a] + v.0);
      if q.Ok? {
        Sorting.ConsConcat(a, v.0, q.value.0);
      }
    }
  }

  /** The first candidate's turn: a placed candidate's decision comes first. */
  lemma AssignHead(vs: seq<Candidate>, d: seq<Charger>, loads: map<ChargerId, nat>,
                   taken: set<UserId>, x: Context)
    requires |vs| > 0
    ensures var v := Visit(vs[0], d, loads, taken, x);
            var r := Assign(vs, d, loads, taken, x);
            r.Ok? ==>
              v.Ok?
              && (v.value.Some? ==>
                    |r.value.0| > 0 && r.value.0[0] == Assignment(vs[0].user.id, v.value.value.charger.id))
  {
  }

  /** Each candidate's turn, at the load counters and assigned users left by
      the candidates before it: when the pass succeeds, the decisions made
      before it stay in front, and a candidate its turn places gets the next
      decision, naming the charger its visit found: `Pick` at those counters
      for a user not yet assigned. */
  lemma AssignInTurn(cs: seq<Candidate>, d: seq<Charger>, loads: map<ChargerId, nat>,
                     taken: set<UserId>, x: Context, j: nat)
    requires j < |cs|
    ensures var r := Assign(cs, d, loads, taken, x);
            var p := Assign(cs[..j], d, loads, taken, x);
            r.Ok? ==>
              p.Ok?
              && (var v := Visit(cs[j], d, p.value.1, taken + DecidedUsers(p.value.0), x);
                  v.Ok? && |p.value.0| <= |r.value.0| && r.value.0[..|p.value.0|] == p.value.0
                  && (v.value.Some? ==>
                        |p.value.0| < |r.value.0|
                        && r.value.0[|p.value.0|] == Assignment(cs[j].user.id, v.value.value.charger.id)))
  {
    var r := Assign(cs, d, loads, taken, x);
    var p := Assign(cs[..j], d, loads, taken, x);
    SplitAt(cs, d, loads, taken, x, j);
    if r.Ok? {
      ResumeInTurn(p, cs[j], cs[j..], d, taken, x);
    }
  }

  /** `AssignSplit` at position `j`. */
  lemma SplitAt(cs: seq<Candidate>, d: seq<Charger>, loads: map<ChargerId, nat>,
                taken: set<UserId>, x: Context, j: nat)
    requires j <= |cs|
    ensures Assign(cs, d, loads, taken, x) == Resume(Assign(cs[..j], d, loads, taken, x), cs[j..], d, taken, x)
  {
    assert cs == cs[..j] + cs[j..];
    AssignSplit(cs[..j], cs[j..], d, loads, taken, x);
  }

  /** `AssignInTurn` for the pass resumed over `ys` after the result `p`. */
  lemma ResumeInTurn(p: Result<(Decisions, map<ChargerId, nat>)>, c: Candidate, ys: seq<Candidate>,
                     d: seq<Charger>, taken: set<UserId>, x: Context)
    requires |ys| > 0 && ys[0] == c && Resume(p, ys, d, taken, x).Ok?
    ensures p.Ok?
    ensures var r := Resume(p, ys, d, taken, x);
            var v := Visit(c, d, p.value.1, taken + DecidedUsers(p.value.0), x);
            v.Ok? && |p.value.0| <= |r.value.0| && r.value.0[..|p.value.0|] == p.value.0
            && (v.value.Some? ==>
                  |p.value.0| < |r.value.0|
                  && r.value.0[|p.value.0|] == Assignment(c.user.id, v.value.value.charger.id))
  {
    ResumeParts(p, ys, d, taken, x);
    var t := taken + DecidedUsers(p.value.0);
    var q := Assign(ys, d, p.value.1, t, x);
    AssignHead(ys, d, p.value.1, t, x);
    Sorting.ConcatPrefix(p.value.0, q.value.0);
  }

  /** A visit to a candidate not yet assigned is its pick, and one with
      at least one nearby open charger, all with ids, is placed. */
  lemma VisitPlaces(c: Candidate, d: seq<Charger>, loads: map<ChargerId, nat>, taken: set<UserId>, x: Context)
    ensures c.user.id !in taken && Visit(c, d, loads, taken, x).Ok? ==> Visit(c, d, loads, taken, x) == Pick(c, d, loads, x)
    ensures c.user.id !in taken && Visit(c, d, loads, taken, x).Ok?
            && |Nearby(c.user, d, loads, x)| > 0 && (forall n :: n in Nearby(c.user, d, loads, x) ==> n.charger.id != "") ==>
              Pick(c, d, loads, x).value.Some?
  {
  }

  /** When the pass succeeds, the load counters at a candidate's turn are
      the starting counters plus the decisions made before it, and a
      candidate not yet assigned with at least one nearby open charger, all
      with ids, is always placed, at the charger `Pick` chooses. */
  lemma AssignPlacesAdmissible(cs: seq<Candidate>, d: seq<Charger>, loads: map<ChargerId, nat>,
                               taken: set<UserId>, x: Context, j: nat, k: ChargerId)
    requires j < |cs|
    ensures var r := Assign(cs, d, loads, taken, x);
            var p := Assign(cs[..j], d, loads, taken, x);
            r.Ok? ==>
              p.Ok?
              && Tally(p.value.1, k) == Tally(loads, k) + AssignedTo(p.value.0, k)
              && (var ns := Nearby(cs[j].user, d, p.value.1, x);
                  var pick := Pick(cs[j], d, p.value.1, x);
                  (cs[j].user.id !in taken + DecidedUsers(p.value.0) && |ns| > 0
                   && (forall n :: n in ns ==> n.charger.id != ""))
                  ==>
                    pick.Ok? && pick.value.Some?
                    && Assignment(cs[j].user.id, pick.value.value.charger.id) in r.value.0)
  {
    var r := Assign(cs, d, loads, taken, x);
    var p := Assign(cs[..j], d, loads, taken, x);
    AssignInTurn(cs, d, loads, taken, x, j);
    if r.Ok? {
      AssignCounts(cs[..j], d, loads, taken, x, k);
      var ns := Nearby(cs[j].user, d, p.value.1, x);
      if cs[j].user.id !in taken + DecidedUsers(p.value.0) && |ns| > 0
         && (forall n :: n in ns ==> n.charger.id != "") {
        VisitPlaces(cs[j], d, p.value.1, taken + DecidedUsers(p.value.0), x);
        assert r.value.0[|p.value.0|] in r.value.0;
      }
    }
  }

  // ---------------------------------------------------------------------------
  // One scheduling call

  /** The time-of-use period of the snapshot's hour, with the default peak
      and valley hours when the grid status has none. */
  function PeriodNow(s: Snapshot): Period {
    PeriodOf(Clock.HourOf(s.timestamp.GetOr(0)),
             s.grid.peakHours.GetOr(DefaultPeakHours), s.grid.valleyHours.GetOr(DefaultValleyHours))
  }

  /** The base weights: `optimization_weights`, or 0.33/0.33/0.34. */
  function BaseWeights(cfg: Config): Weights {
    cfg.scheduler.weights.GetOr(DefaultWeights)
  }

  /** The users the call may assign: those that pass the candidate test. */
  function WantingIds(s: Snapshot, env: EnvConfig): set<UserId> {
    set u | u in s.users && Wants(u, env, PeriodNow(s)) :: u.id
  }

  /** What the pass reads besides the loads: the period's queue limit, the
      final weights, the grid, the hour and the stale SoC. */
  function PassContext(s: Snapshot, cfg: Config, w: Weights, sqrt: SqrtFn): Context
    requires |s.users| > 0
  {
    Context(cfg.env, MaxQueueLen(cfg.env, PeriodNow(s)), w, s.grid, Clock.HourOf(s.timestamp.GetOr(0)),
            s.users[|s.users| - 1].soc, sqrt)
  }

  /** The candidates in ascending priority value. */
  function OrderedCandidates(s: Snapshot, env: EnvConfig): seq<Candidate> {
    Sorting.SortBy(Candidates(s.users, env, PeriodNow(s)), Priority)
  }

  /** The call after the weights are settled: candidates in priority order,
      the charger dictionary and its load counters, then the pass. */
  function Run(s: Snapshot, cfg: Config, w: Weights, sqrt: SqrtFn): (r: Result<Decisions>)
    requires |s.users| > 0
    ensures r.Err? ==> r.error.KeyError? && !Complete(w)
    ensures r.Ok? ==> DistinctDecisionUsers(r.value) && DecidedUsers(r.value) <= WantingIds(s, cfg.env)
    ensures r.Ok? ==> forall a :: a in r.value ==> a.charger in WorkingIds(s.chargers) && a.charger != ""
  {
    var d := ChargerDict(s.chargers);
    var x := PassContext(s, cfg, w, sqrt);
    var cands := OrderedCandidates(s, cfg.env);
    match Assign(cands, d, InitialLoads(d), {}, x)
    case Err(e) => Err(e)
    case Ok(r) =>
      AssignFromCandidates(cands, d, InitialLoads(d), {}, x);
      OrderedCandidatesWant(s, cfg.env);
      assert WorkingIds(d) <= WorkingIds(s.chargers);
      Ok(r.0)
  }

  /** Sorting the candidates keeps only users who want a charge. */
  lemma OrderedCandidatesWant(s: Snapshot, env: EnvConfig)
    ensures CandidateUserIds(OrderedCandidates(s, env)) <= WantingIds(s, env)
  {
    var cs := Candidates(s.users, env, PeriodNow(s));
    var cands := Sorting.SortBy(cs, Priority);
    forall id | id in CandidateUserIds(cands) ensures id in WantingIds(s, env) {
      var c :| c in cands && c.user.id == id;
      assert c in multiset(cs);
    }
  }

  /** `schedule(state, config)`. A missing weight key surfaces as the
      `KeyError` the source raises. */
  function Schedule(s: Snapshot, cfg: Config, sqrt: SqrtFn): (r: Result<Decisions>)
    ensures s.timestamp.None? || |s.users| == 0 || |s.chargers| == 0 ==> r == Ok([])
    ensures r.Err? ==> r.error.KeyError?
    ensures Complete(BaseWeights(cfg)) ==> r.Ok?
    ensures r.Ok? ==> DistinctDecisionUsers(r.value) && DecidedUsers(r.value) <= WantingIds(s, cfg.env)
    ensures r.Ok? ==> forall a :: a in r.value ==> a.charger in WorkingIds(s.chargers) && a.charger != ""
  {
    if s.timestamp.None? || |s.users| == 0 || |s.chargers| == 0 then Ok([])
    else
      match TimeAdjusted(BaseWeights(cfg), PeriodNow(s), s.grid.loadPercentage.GetOr(50.0))
      case Err(e) => Err(e)
      case Ok(w) => Run(s, cfg, Normalized(w), sqrt)
  }

  /** Within one call no charger is given more users than the period's
      maximum queue length leaves room for: occupant, queue and this call's
      users together stay within it. */
  lemma ScheduleWithinCapacity(s: Snapshot, cfg: Config, sqrt: SqrtFn, c: Charger)
    requires DistinctChargerIds(s.chargers) && c in s.chargers
    ensures Schedule(s, cfg, sqrt).Ok? && AssignedTo(Schedule(s, cfg, sqrt).value, c.id) > 0 ==>
              Load(c) + AssignedTo(Schedule(s, cfg, sqrt).value, c.id) <= MaxQueueLen(cfg.env, PeriodNow(s))
  {
    if Schedule(s, cfg, sqrt).Ok? && AssignedTo(Schedule(s, cfg, sqrt).value, c.id) > 0 {
      var ds := Schedule(s, cfg, sqrt).value;
      var w := Normalized(TimeAdjusted(BaseWeights(cfg), PeriodNow(s), s.grid.loadPercentage.GetOr(50.0)).value);
      var d := ChargerDict(s.chargers);
      var x := PassContext(s, cfg, w, sqrt);
      var cands := OrderedCandidates(s, cfg.env);
      assert d == s.chargers;
      assert ds == Assign(cands, d, InitialLoads(d), {}, x).value.0;
      AssignCapped(cands, d, InitialLoads(d), {}, x, c.id);
      AssignCounts(cands, d, InitialLoads(d), {}, x, c.id);
      AssignedToNamed(ds, c.id);
      var a :| a in ds && a.charger == c.id;
      var c2 :| c2 in d && c2.status != Failure && c2.id == c.id;
      SameIdSameCharger(s.chargers, c, c2);
    }
  }

  /** Once the weights are settled, the call's outcome is the pass's over
      the ordered candidates, from the chargers' own load counters with
      nobody assigned: its error, or its decisions. */
  lemma ScheduleRunsPass(s: Snapshot, cfg: Config, sqrt: SqrtFn, w: Weights)
    ensures s.timestamp.Some? && |s.users| > 0 && |s.chargers| > 0
            && TimeAdjusted(BaseWeights(cfg), PeriodNow(s), s.grid.loadPercentage.GetOr(50.0)) == Ok(w)
            ==>
              var d := ChargerDict(s.chargers);
              var r := Assign(OrderedCandidates(s, cfg.env), d, InitialLoads(d), {}, PassContext(s, cfg, Normalized(w), sqrt));
              Schedule(s, cfg, sqrt) == (if r.Err? then Err(r.error) else Ok(r.value.0))
  {
  }

  /** Once the weights are settled and the pass runs, a successful call
      places every candidate in priority order that is not yet assigned and
      has at least one nearby open charger, all with ids, at the charger
      `Pick` chooses from the load counters the earlier candidates left:
      the chargers' occupants and queues plus the earlier decisions. */
  lemma SchedulePlacesAdmissible(s: Snapshot, cfg: Config, sqrt: SqrtFn, w: Weights, j: nat, k: ChargerId)
    ensures var r := Schedule(s, cfg, sqrt);
            var cands := OrderedCandidates(s, cfg.env);
            var d := ChargerDict(s.chargers);
            s.timestamp.Some? && |s.users| > 0 && |s.chargers| > 0 && j < |cands|
            && TimeAdjusted(BaseWeights(cfg), PeriodNow(s), s.grid.loadPercentage.GetOr(50.0)) == Ok(w)
            && r.Ok?
            ==>
              var x := PassContext(s, cfg, Normalized(w), sqrt);
              var p := Assign(cands[..j], d, InitialLoads(d), {}, x);
              p.Ok?
              && Tally(p.value.1, k) == Tally(InitialLoads(d), k) + AssignedTo(p.value.0, k)
              && (var ns := Nearby(cands[j].user, d, p.value.1, x);
                  var pick := Pick(cands[j], d, p.value.1, x);
                  (cands[j].user.id !in DecidedUsers(p.value.0) && |ns| > 0
                   && (forall n :: n in ns ==> n.charger.id != ""))
                  ==>
                    pick.Ok? && pick.value.Some?
                    && Assignment(cands[j].user.id, pick.value.value.charger.id) in r.value)
  {
    var cands := OrderedCandidates(s, cfg.env);
    var d := ChargerDict(s.chargers);
    if s.timestamp.Some? && |s.users| > 0 && |s.chargers| > 0 && j < |cands|
       && TimeAdjusted(BaseWeights(cfg), PeriodNow(s), s.grid.loadPercentage.GetOr(50.0)) == Ok(w)
       && Schedule(s, cfg, sqrt).Ok? {
      var x := PassContext(s, cfg, Normalized(w), sqrt);
      var r := Assign(cands, d, InitialLoads(d), {}, x);
      var ds := Schedule(s, cfg, sqrt).value;
      assert r.Ok? && ds == r.value.0 by {
        ScheduleRunsPass(s, cfg, sqrt, w);
      }
      AssignPlacesAdmissible(cands, d, InitialLoads(d), {}, x, j, k);
      var p := Assign(cands[..j], d, InitialLoads(d), {}, x);
      var ns := Nearby(cands[j].user, d, p.value.1, x);
      var pick := Pick(cands[j], d, p.value.1, x);
      if cands[j].user.id !in DecidedUsers(p.value.0) && |ns| > 0 && (forall n :: n in ns ==> n.charger.id != "") {
        assert cands[j].user.id !in {} + DecidedUsers(p.value.0);
        assert Assignment(cands[j].user.id, pick.value.value.charger.id) in ds;
      }
    }
  }
}
