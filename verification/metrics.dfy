/** `calculate_rewards`: the three clamped KPI scores of a state, their
    weighted total, and the analytic "uncoordinated" baseline the total is
    compared with. */
module Metrics {
  import opened Wrappers
  import opened Numeric
  import opened Config
  import opened Entities
  import Clock

  // ---------------------------------------------------------------------------
  // User satisfaction

  /** `len(xs) if xs else 1`: an empty list counts as one element. */
  function Count(n: nat): (d: nat)
    ensures d >= 1 && (n > 0 ==> d == n)
  {
    if n == 0 then 1 else n
  }

  function SocSum(users: seq<User>): real {
    if |users| == 0 then 0.0 else users[0].soc + SocSum(users[1..])
  }

  function WaitingCount(users: seq<User>): (n: nat)
    ensures n <= |users|
  {
    if |users| == 0 then 0
    else (if users[0].status == Waiting then 1 else 0) + WaitingCount(users[1..])
  }

  function AverageSoc(users: seq<User>): real {
    SocSum(users) / Count(|users|) as real
  }

  /** Average SoC scaled by a waiting penalty, mapped to [-1, 1]. */
  function UserSatisfaction(users: seq<User>): (s: real)
    ensures -1.0 <= s <= 1.0
  {
    Clamp(-1.0, 1.0, 2.0 * UserRaw(AverageSoc(users), WaitingCount(users), Count(|users|)) - 1.0)
  }

  function UserRaw(avg: real, waiting: nat, total: nat): real
    requires total >= 1
  {
    (avg / 100.0) * (1.0 - 0.5 * (waiting as real / total as real))
  }

  // ---------------------------------------------------------------------------
  // Operator profit

  function Revenue(chargers: seq<Charger>): real {
    if |chargers| == 0 then 0.0 else chargers[0].dailyRevenue + Revenue(chargers[1..])
  }

  function OccupiedCount(chargers: seq<Charger>): (n: nat)
    ensures n <= |chargers|
  {
    if |chargers| == 0 then 0
    else (if chargers[0].status == Occupied then 1 else 0) + OccupiedCount(chargers[1..])
  }

  /** Revenue against a target of 50 per charger, blended with utilisation,
      capped at 1 and mapped to [-1, 1]. */
  function OperatorProfit(chargers: seq<Charger>): (p: real)
    ensures -1.0 <= p <= 1.0
  {
    Clamp(-1.0, 1.0, 2.0 * ProfitRaw(Revenue(chargers), OccupiedCount(chargers), Count(|chargers|)) - 1.0)
  }

  function ProfitRaw(revenue: real, occupied: nat, total: nat): (r: real)
    requires total >= 1
    ensures r <= 1.0
  {
    Min(1.0, revenue / (total as real * 50.0 + 0.000001) * 0.6 + occupied as real / total as real * 0.4)
  }

  // ---------------------------------------------------------------------------
  // Grid friendliness

  /** The piecewise load factor. */
  function LoadFactor(load: real): (f: real)
    ensures -0.5 <= f <= 0.8
  {
    if load < 30.0 then 0.8
    else if load < 50.0 then 0.5 - (load - 30.0) * 0.015
    else if load < 70.0 then 0.2 - (load - 50.0) * 0.01
    else if load < 85.0 then 0.0 - (load - 70.0) * 0.015
    else Max(-0.5, -0.225 - (load - 85.0) * 0.01)
  }

  function TimeFactor(hour: nat, peak: seq<int>, valley: seq<int>): real {
    if hour in peak then -0.3 else if hour in valley then 0.6 else 0.2
  }

  /** The penalty when EV load exceeds 30% of the total load. */
  function EvConcentration(total: real, ev: real): (f: real)
    ensures f <= 0.0
  {
    if total > 0.000001 && ev / total > 0.3 then -0.15 * (ev / total - 0.3) / 0.7 else 0.0
  }

  /** The renewable share read from the reading, as a fraction. */
  function RenewableShare(g: GridReading): real {
    if g.renewableRatio.Some? then g.renewableRatio.value / 100.0 else 0.0
  }

  function GridRaw(g: GridReading, hour: nat): real {
    LoadFactor(g.loadPercentage.GetOr(50.0)) + 0.8 * RenewableShare(g)
      + TimeFactor(hour, g.peakHours.GetOr([]), g.valleyHours.GetOr([]))
      + EvConcentration(g.totalLoad.GetOr(0.0), g.evLoad.GetOr(0.0))
  }

  /** Clamp to [-0.9, 1], then shrink negatives by 0.8 and stretch
      non-negatives by 1.1 (capped at 1). */
  function Friendliness(raw: real): (s: real)
    ensures -0.72 <= s <= 1.0
    ensures raw < 0.0 ==> s < 0.0
    ensures raw >= 0.0 ==> s >= 0.0
  {
    if Clamp(-0.9, 1.0, raw) < 0.0 then Clamp(-0.9, 1.0, raw) * 0.8
    else Min(1.0, Clamp(-0.9, 1.0, raw) * 1.1)
  }

  function GridFriendliness(g: GridReading, hour: nat): (s: real)
    ensures -0.72 <= s <= 1.0
  {
    Friendliness(GridRaw(g, hour))
  }

  // ---------------------------------------------------------------------------
  // Weights, total and baseline

  /** `optimization_weights` with its built-in default; a present dictionary
      missing a key raises `KeyError` at the first missing key read. */
  function ResolveWeights(cfg: Config): (r: Result<(real, real, real)>)
    ensures cfg.scheduler.weights.None? ==> r == Ok((0.4, 0.3, 0.3))
    ensures r.Err? <==> cfg.scheduler.weights.Some?
                        && (cfg.scheduler.weights.value.user.None?
                            || cfg.scheduler.weights.value.profit.None?
                            || cfg.scheduler.weights.value.grid.None?)
    ensures r.Ok? && cfg.scheduler.weights.Some? ==>
              r.value == (cfg.scheduler.weights.value.user.value,
                          cfg.scheduler.weights.value.profit.value,
                          cfg.scheduler.weights.value.grid.value)
  {
    match cfg.scheduler.weights
    case None => Ok((0.4, 0.3, 0.3))
    case Some(w) =>
      if w.user.None? then Err(KeyError("user_satisfaction"))
      else if w.profit.None? then Err(KeyError("operator_profit"))
      else if w.grid.None? then Err(KeyError("grid_friendliness"))
      else Ok((w.user.value, w.profit.value, w.grid.value))
  }

  function Weighted(w: (real, real, real), user: real, profit: real, grid: real): real {
    user * w.0 + profit * w.1 + grid * w.2
  }

  /** The baseline grid score: poor in peak hours, best in valley hours. */
  function BaselineGrid(hour: nat, peak: seq<int>, valley: seq<int>, r: real): (s: real)
    ensures -1.0 <= s <= 1.0
  {
    if hour in peak then Clamp(-1.0, 1.0, -0.7 - 0.1 * r)
    else if hour in valley then Clamp(-1.0, 1.0, 0.2 + 0.2 * r)
    else Clamp(-1.0, 1.0, -0.2 - 0.1 * r)
  }

  /** `(total - base) / |base| * 100` once the baseline total is not tiny. */
  function Improvement(total: real, base: real): (r: Option<real>)
    ensures r.Some? <==> Abs(base) > 0.000001
    ensures r.Some? ==> r.value == (total - base) / Abs(base) * 100.0
  {
    if Abs(base) > 0.000001 then Some((total - base) / Abs(base) * 100.0) else None
  }

  /** The baseline's three scores; `draw` is the `uniform(0.7, 0.9)` profit
      reduction factor. */
  function BaselineScores(avgSoc: real, profit: real, g: GridReading, hour: nat, draw: real)
    : (s: (real, real, real))
    ensures -1.0 <= s.0 <= 1.0 && -1.0 <= s.1 <= 1.0 && -1.0 <= s.2 <= 1.0
  {
    (Clamp(-1.0, 1.0, 2.0 * (avgSoc / 100.0 * 0.7) - 1.0),
     Clamp(-1.0, 1.0, profit * draw - 0.1),
     BaselineGrid(hour, g.peakHours.GetOr([]), g.valleyHours.GetOr([]), RenewableShare(g)))
  }

  /** The baseline record: scores, their weighted total, and the improvement
      of the coordinated `total` over it. */
  function Assemble(w: (real, real, real), s: (real, real, real), total: real): (b: Baseline)
    ensures b.total == Weighted(w, b.user, b.profit, b.grid)
    ensures b.improvement == Improvement(total, b.total)
    ensures (b.user, b.profit, b.grid) == s
  {
    Baseline(s.0, s.1, s.2, Weighted(w, s.0, s.1, s.2), Improvement(total, Weighted(w, s.0, s.1, s.2)))
  }

  /** The hour of the state's timestamp; `wallHour` stands for the hour of
      `datetime.now()` used when the state carries no timestamp. */
  function HourOfState(s: Snapshot, wallHour: nat): nat {
    if s.timestamp.Some? then Clock.HourOf(s.timestamp.value) else wallHour
  }

  /** `calculate_rewards(state, config)`. */
  function CalculateRewards(s: Snapshot, cfg: Config, wallHour: nat, draw: real): (r: Result<Rewards>)
    ensures r.Err? <==> ResolveWeights(cfg).Err?
    ensures r.Ok? ==>
              r.value.user == UserSatisfaction(s.users)
              && r.value.profit == OperatorProfit(s.chargers)
              && r.value.grid == GridFriendliness(s.grid, HourOfState(s, wallHour))
              && r.value.total == Weighted(ResolveWeights(cfg).value, r.value.user, r.value.profit, r.value.grid)
    ensures r.Ok? ==> (r.value.baseline.Some? <==> cfg.env.enableBaseline.GetOr(true))
    ensures r.Ok? && r.value.baseline.Some? ==>
              r.value.baseline.value.total
                == Weighted(ResolveWeights(cfg).value, r.value.baseline.value.user,
                            r.value.baseline.value.profit, r.value.baseline.value.grid)
              && r.value.baseline.value.improvement == Improvement(r.value.total, r.value.baseline.value.total)
  {
    match ResolveWeights(cfg)
    case Err(e) => Err(e)
    case Ok(w) =>
      Ok(Rewards(UserSatisfaction(s.users), OperatorProfit(s.chargers),
                 GridFriendliness(s.grid, HourOfState(s, wallHour)),
                 Weighted(w, UserSatisfaction(s.users), OperatorProfit(s.chargers),
                          GridFriendliness(s.grid, HourOfState(s, wallHour))),
                 if cfg.env.enableBaseline.GetOr(true) then
                   Some(Assemble(w, BaselineScores(AverageSoc(s.users), OperatorProfit(s.chargers), s.grid,
                                                   HourOfState(s, wallHour), draw),
                                 Weighted(w, UserSatisfaction(s.users), OperatorProfit(s.chargers),
                                          GridFriendliness(s.grid, HourOfState(s, wallHour)))))
                 else None))
  }
}
