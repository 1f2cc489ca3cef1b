/** Properties of the user step. */
module UserProperties {
  import opened Wrappers
  import opened Geo
  import opened Config
  import opened Entities
  import opened UserModel
  import Clock

  /** Idle consumption never raises the SoC nor takes it below 0. */
  lemma IdleDrainBounds(u1: User, status0: UserStatus, now: nat, step: nat, behaviour: real)
    requires behaviour >= 0.0 && u1.soc >= 0.0
    ensures 0.0 <= IdleDrain(u1, status0, now, step, behaviour).soc <= u1.soc
  {
    if status0 != Charging && status0 != Waiting {
      IdleEnergyNonNegative(u1, now, step, behaviour);
      DrainedBounds(u1, IdleEnergy(u1, now, step, behaviour));
    }
  }

  /** Driving never raises the SoC nor takes it below 0. */
  lemma TravelBounds(u4: User, status0: UserStatus, now: nat, step: nat, cfg: Config, d: UserDraws,
                     sqrt: SqrtFn)
    requires DrawsInRange(d) && u4.soc >= 0.0
    ensures 0.0 <= Travel(u4, status0, now, step, cfg, d, sqrt).soc <= u4.soc
  {
    if status0 == Traveling && u4.destination.Some? {
      var e := EnergyPerKm(u4, Clock.HourOf(now), cfg, d);
      EnergyPerKmNonNegative(u4, Clock.HourOf(now), cfg, d);
      assert Travel(u4, status0, now, step, cfg, d, sqrt) == Drive(u4, now, step, e, sqrt);
    }
  }

  /** The step never raises the SoC and never takes it below 0. */
  lemma SocNonIncreasing(u: User, now: nat, step: nat, cfg: Config, d: UserDraws, sqrt: SqrtFn)
    requires DrawsInRange(d) && u.soc >= 0.0
    ensures 0.0 <= Step(u, now, step, cfg, d, sqrt).soc <= u.soc
  {
    var u1 := Tick(u, d, sqrt);
    var u2 := IdleDrain(u1, u.status, now, step, d.behaviour);
    IdleDrainBounds(u1, u.status, now, step, d.behaviour);
    var u4 := FlagAndStop(u2, u.status, Clock.HourOf(now), cfg, d);
    TravelBounds(u4, u.status, now, step, cfg, d, sqrt);
  }

  /** Charging and waiting users, and users heading for a target charger, are
      never flagged. */
  lemma FlagOnlyWithoutTarget(u: User, now: nat, step: nat, cfg: Config, d: UserDraws, sqrt: SqrtFn)
    requires !MayFlag(u.status) || (u.status != PostCharge && IdSet(u.target))
    ensures !Step(u, now, step, cfg, d, sqrt).needsCharge
  {
  }

  /** Below the minimum charge amount the flag stays down; at or below the
      force threshold it is raised whatever the random draw. */
  lemma FlagThresholds(u: User, now: nat, step: nat, cfg: Config, d: UserDraws, sqrt: SqrtFn)
    requires u.status == Idle && !IdSet(u.target)
    ensures var u2 := u.(soc := Drained(u, IdleEnergy(u, now, step, d.behaviour)));
            var u' := Step(u, now, step, cfg, d, sqrt);
            (100.0 - u2.soc < cfg.env.minChargeThreshold.GetOr(25.0) ==> !u'.needsCharge)
            && ((100.0 - u2.soc >= cfg.env.minChargeThreshold.GetOr(25.0)
                 && u2.soc <= cfg.env.forceChargeThreshold.GetOr(20.0)) ==> u'.needsCharge)
  {
    var u2 := IdleDrain(u, Idle, now, step, d.behaviour);
    assert u2 == u.(soc := Drained(u, IdleEnergy(u, now, step, d.behaviour)));
  }

  /** A segment index left at or past the last segment (plan_route does not
      reset it) makes movement a no-op: the user does not move and the time
      to destination does not fall. */
  lemma StaleIndexFreezes(u: User, km: real, sqrt: SqrtFn)
    requires u.segmentIndex + 1 >= |u.route|
    ensures MoveAlong(u, km, sqrt).1 == 0.0
    ensures MoveAlong(u, km, sqrt).0.position == u.position
  {
  }

  /** A short route or a non-positive distance moves nothing. */
  lemma NoMoveOnShortRoute(u: User, km: real, sqrt: SqrtFn)
    requires |u.route| < 2 || km <= 0.0
    ensures MoveAlong(u, km, sqrt) == (u, 0.0)
  {
  }
}
