/** Properties of the reward calculation. */
module MetricsProperties {
  import opened Wrappers
  import opened Numeric
  import opened Config
  import opened Entities
  import opened Metrics

  /** The load factor never rises as the load grows. */
  lemma LoadFactorMonotone(a: real, b: real)
    requires a <= b
    ensures LoadFactor(b) <= LoadFactor(a)
  {
  }

  /** With no users the user score is -1: the empty list counts as one user
      with SoC 0, so nothing is divided by zero. */
  lemma NoUsersScoresMinusOne()
    ensures UserSatisfaction([]) == -1.0
  {
  }

  /** With no chargers the profit score is -1, for the same reason. */
  lemma NoChargersScoresMinusOne()
    ensures OperatorProfit([]) == -1.0
  {
  }

  /** The baseline grid score orders the periods, for any peak and valley
      lists and any renewable share in [0, 1]: a peak hour scores below a
      shoulder hour (in neither list), which scores below a valley hour;
      an hour in both lists counts as peak. */
  lemma BaselineGridOrder(peakHour: nat, shoulderHour: nat, valleyHour: nat,
                          peak: seq<int>, valley: seq<int>, r: real)
    requires 0.0 <= r <= 1.0
    ensures peakHour in peak && shoulderHour !in peak && shoulderHour !in valley ==>
              BaselineGrid(peakHour, peak, valley, r) < BaselineGrid(shoulderHour, peak, valley, r)
    ensures shoulderHour !in peak && shoulderHour !in valley && valleyHour !in peak && valleyHour in valley ==>
              BaselineGrid(shoulderHour, peak, valley, r) < BaselineGrid(valleyHour, peak, valley, r)
  {
  }

  /** A coordinated total above the baseline total shows as a positive
      improvement, one below it as a negative one. */
  lemma ImprovementSign(total: real, base: real)
    requires Abs(base) > 0.000001
    ensures total > base ==> Improvement(total, base).value > 0.0
    ensures total < base ==> Improvement(total, base).value < 0.0
  {
  }

  /** The default weights sum to 1, so the default total stays in [-1, 1]. */
  lemma DefaultWeightsBounded(cfg: Config, s: Snapshot, wallHour: nat, draw: real)
    requires cfg.scheduler.weights.None?
    ensures var r := CalculateRewards(s, cfg, wallHour, draw);
            r.Ok? && -1.0 <= r.value.total <= 1.0
  {
    var r := CalculateRewards(s, cfg, wallHour, draw);
    assert r.value.total == r.value.user * 0.4 + r.value.profit * 0.3 + r.value.grid * 0.3;
  }
}
