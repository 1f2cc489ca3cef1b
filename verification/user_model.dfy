/** One time step of every user (`user_model.simulate_step`): the post-charge
    timer, idle drain, the charge-need flag, stopping a random trip, movement
    along the planned route and arrival. The status read at the start of the
    step decides every later branch, even after the post-charge branch has
    changed it. */
module UserModel {
  import opened Wrappers
  import opened Numeric
  import opened Geo
  import opened Config
  import opened Entities
  import Clock

  // ---------------------------------------------------------------------------
  // Random draws

  datatype RouteDrawRaw = RouteDrawRaw(points: int, offsets: seq<real>)

  /** `randint(2, 4)` route points and one `uniform(-0.1, 0.1)` offset per waypoint. */
  type RouteDraw = d: RouteDrawRaw | 2 <= d.points <= 4 && |d.offsets| == d.points - 1
    witness RouteDrawRaw(2, [0.0])

  /** Every random value one user's step may consume. */
  datatype UserDraws = UserDraws(
    timer: int,            // randint(1, 4), used when the post-charge timer is unset
    destination: Pos,      // the accepted random destination
    route: RouteDraw,      // waypoints of the trip to it
    behaviour: real,       // uniform(0.9, 1.8)
    sigmoid: real,         // the logistic base probability
    flagDraw: real,        // random() compared with the charging probability
    road: real,            // uniform(1.0, 1.3)
    weather: real,         // uniform(1.0, 1.2)
    traffic: real)         // uniform(1.1, 1.4), drawn in peak hours only

  /** The ranges the source's random calls produce. */
  predicate DrawsInRange(d: UserDraws) {
    1 <= d.timer <= 4 && 0.9 <= d.behaviour <= 1.8 && 0.0 <= d.flagDraw < 1.0
    && 1.0 <= d.road <= 1.3 && 1.0 <= d.weather <= 1.2 && 1.1 <= d.traffic <= 1.4
  }

  // ---------------------------------------------------------------------------
  // Route planning

  /** The travel speed with the defensive fallback to 45 km/h. */
  function Speed(u: User): (s: real)
    ensures s > 0.0
  {
    if u.travelSpeed <= 0.0 then 45.0 else u.travelSpeed
  }

  /** The `k`-th of `n - 1` waypoints: a point on the straight line, pushed
      sideways by `offset` times the trip length. */
  function Waypoint(start: Pos, end: Pos, k: nat, n: nat, offset: real, sqrt: SqrtFn): Pos
    requires 0 < n
  {
    var t := k as real / n as real;
    var dx := end.lng - start.lng;
    var dy := end.lat - start.lat;
    var len := sqrt(dy * dy + dx * dx);
    var px := if len > 0.0 then -dy / len else -dy;
    var py := if len > 0.0 then dx / len else dx;
    var off := offset * Km(start, end, sqrt) / 111.0;
    Pos(start.lat + t * dy + py * off, start.lng + t * dx + px * off)
  }

  /** Sum of the leg lengths of a route, in kilometres. */
  function RouteLength(route: seq<Pos>, sqrt: SqrtFn): (d: real)
    ensures d >= 0.0
  {
    if |route| < 2 then 0.0 else Km(route[0], route[1], sqrt) + RouteLength(route[1..], sqrt)
  }

  /** Start, the `points - 1` waypoints, end. */
  function Route(start: Pos, end: Pos, draw: RouteDraw, sqrt: SqrtFn): (route: seq<Pos>)
    ensures |route| == draw.points + 1
    ensures route[0] == start && route[|route| - 1] == end
  {
    var n := draw.points;
    [start] + seq(n - 1, i requires 0 <= i < n - 1 => Waypoint(start, end, i + 1, n, draw.offsets[i], sqrt)) + [end]
  }

  /** `plan_route`: start, one to three waypoints, end. It always succeeds. */
  function PlanRoute(u: User, start: Pos, end: Pos, draw: RouteDraw, sqrt: SqrtFn): (u': User)
    ensures 3 <= |u'.route| <= 5 && |u'.route| == draw.points + 1
    ensures u'.route[0] == start && u'.route[|u'.route| - 1] == end
    ensures u'.destination == Some(end) && u'.traveled == 0.0
    ensures u'.timeToDestination == Some(RouteLength(u'.route, sqrt) / Speed(u) * 60.0)
    ensures u'.timeToDestination.value >= 0.0
    ensures u'.status == u.status && u'.target == u.target && u'.soc == u.soc
    ensures u'.position == u.position && u'.segmentIndex == u.segmentIndex
    ensures u'.lastDestination == u.lastDestination
  {
    var route := Route(start, end, draw, sqrt);
    var len := RouteLength(route, sqrt);
    DivNonNegative(len, Speed(u));
    u.(route := route, destination := Some(end), traveled := 0.0,
       timeToDestination := Some(len / Speed(u) * 60.0))
  }

  lemma DivNonNegative(a: real, b: real)
    requires a >= 0.0 && b > 0.0
    ensures a / b * 60.0 >= 0.0
  {
  }

  /** `plan_route_to_charger`: fails without touching the user when the user
      has no position; otherwise records a charger trip and plans it. */
  function PlanToCharger(u: User, chargerPos: Pos, draw: RouteDraw, sqrt: SqrtFn): (r: (User, bool))
    ensures u.position.None? ==> r == (u, false)
    ensures u.position.Some? ==> r.1 && r.0 == PlanRoute(u.(lastDestination := Some(ToCharger)),
                                                         u.position.value, chargerPos, draw, sqrt)
  {
    if u.position.None? then (u, false)
    else (PlanRoute(u.(lastDestination := Some(ToCharger)), u.position.value, chargerPos, draw, sqrt), true)
  }

  /** `plan_route_to_destination`: as above, for a random destination; it
      also clears the target charger. */
  function PlanToDestination(u: User, dest: Pos, draw: RouteDraw, sqrt: SqrtFn): (r: (User, bool))
    ensures u.position.None? ==> r == (u, false)
    ensures u.position.Some? ==> r.1 && r.0.target.None? && r.0.lastDestination == Some(ToRandom)
                                 && r.0.destination == Some(dest)
  {
    if u.position.None? then (u, false)
    else (PlanRoute(u.(target := None, lastDestination := Some(ToRandom)), u.position.value, dest, draw, sqrt), true)
  }

  // ---------------------------------------------------------------------------
  // Movement

  /** The segment loop of `update_user_position_along_route`, in degrees:
      returns the new position, segment index and distance moved. Every pass
      moves to the end of the current segment: when the remaining distance
      runs out part-way, the position is still snapped to the segment end. */
  function Advance(route: seq<Pos>, pos: Pos, idx: nat, remaining: real, moved: real,
                   sqrt: SqrtFn): (r: (Pos, nat, real))
    requires remaining >= 0.0
    ensures idx <= r.1
    ensures idx < |route| ==> r.1 < |route|
    ensures moved <= r.2 <= moved + remaining
    ensures r.1 == idx ==> r.0 == pos && r.2 == moved
    ensures r.0 == pos || r.0 in route
    decreases |route| - idx
  {
    if remaining > 0.000000001 && idx + 1 < |route| then
      var e := route[idx + 1];
      var dx := e.lng - pos.lng;
      var dy := e.lat - pos.lat;
      var d := sqrt(dx * dx + dy * dy);
      if d < 0.000000001 then Advance(route, pos, idx + 1, remaining, moved, sqrt)
      else
        var m := Min(remaining, d);
        var rem := remaining - m;
        assert rem < 0.000000001 || Abs(m - d) < 0.000000001;
        Advance(route, e, idx + 1, rem, moved + m, sqrt)
    else (pos, idx, moved)
  }

  /** `update_user_position_along_route(user, km)`: the distance moved, in km. */
  function MoveAlong(u: User, km: real, sqrt: SqrtFn): (r: (User, real))
    ensures 0.0 <= r.1 && (km > 0.0 ==> r.1 <= km)
    ensures |u.route| < 2 || km <= 0.0 || u.position.None? ==> r == (u, 0.0)
    ensures u.segmentIndex <= r.0.segmentIndex
    ensures u.segmentIndex < |u.route| ==> r.0.segmentIndex < |u.route|
    ensures r.0.soc == u.soc && r.0.status == u.status && r.0.route == u.route
    ensures r.0.destination == u.destination && r.0.target == u.target
  {
    if |u.route| < 2 || km <= 0.0 || u.position.None? then (u, 0.0)
    else
      var a := Advance(u.route, u.position.value, u.segmentIndex, km / 111.0, 0.0, sqrt);
      (u.(position := Some(a.0), segmentIndex := a.1, traveled := u.traveled + a.2 * 111.0), a.2 * 111.0)
  }

  /** `has_reached_destination`. */
  predicate Reached(u: User) {
    u.timeToDestination.Some? && u.timeToDestination.value <= 0.1
  }

  // ---------------------------------------------------------------------------
  // Consumption

  function IdleRate(vehicleType: string): (r: real)
    ensures r > 0.0
  {
    if vehicleType == "sedan" then 0.8
    else if vehicleType == "suv" then 1.2
    else if vehicleType == "truck" then 2.0
    else if vehicleType == "luxury" then 1.0
    else if vehicleType == "compact" then 0.6
    else 0.4
  }

  function SeasonFactor(month: nat): (f: real)
    ensures f > 0.0
  {
    if 6 <= month <= 8 then 2.2
    else if month <= 2 || month == 12 then 2.5
    else 1.3
  }

  function HourFactor(hour: nat): (f: real)
    ensures f > 0.0
  {
    if hour in [6, 7, 8, 17, 18, 19] then 1.6
    else if 22 <= hour || hour <= 4 then 0.8
    else 1.0
  }

  /** SoC after losing `kwh`, floored at 0. */
  function Drained(u: User, kwh: real): real {
    Max(0.0, u.soc - (if u.batteryCapacity > 0.0 then (kwh / u.batteryCapacity) * 100.0 else 0.0))
  }

  lemma DrainedBounds(u: User, kwh: real)
    requires kwh >= 0.0 && u.soc >= 0.0
    ensures 0.0 <= Drained(u, kwh) <= u.soc
  {
    if u.batteryCapacity > 0.0 {
      assert kwh / u.batteryCapacity >= 0.0;
    }
  }

  /** Consumption `km * e` with both factors non-negative keeps the SoC in [0, soc]. */
  lemma DrainedProductBounds(u: User, km: real, e: real)
    ensures km >= 0.0 && e >= 0.0 && u.soc >= 0.0 ==> 0.0 <= Drained(u, km * e) <= u.soc
  {
    if km >= 0.0 && e >= 0.0 && u.soc >= 0.0 {
      ProductNonNegative(km, e);
      DrainedBounds(u, km * e);
    }
  }

  /** Idle energy use over the step, in kWh (the hours are not rounded here). */
  function IdleEnergy(u: User, now: nat, step: nat, behaviour: real): real {
    IdleEnergyAt(u, Clock.MonthOf(now), Clock.HourOf(now), step, behaviour)
  }

  /** Idle energy use in a given month and hour of the day. */
  function IdleEnergyAt(u: User, month: nat, hour: nat, step: nat, behaviour: real): real {
    IdleRate(u.vehicleType) * SeasonFactor(month) * HourFactor(hour) * behaviour * (step as real / 60.0)
  }

  lemma IdleEnergyNonNegative(u: User, now: nat, step: nat, behaviour: real)
    requires behaviour >= 0.0
    ensures IdleEnergy(u, now, step, behaviour) >= 0.0
  {
    IdleEnergyAtNonNegative(u, Clock.MonthOf(now), Clock.HourOf(now), step, behaviour);
  }

  lemma IdleEnergyAtNonNegative(u: User, month: nat, hour: nat, step: nat, behaviour: real)
    requires behaviour >= 0.0
    ensures IdleEnergyAt(u, month, hour, step, behaviour) >= 0.0
  {
    FactorsNonNegative(IdleRate(u.vehicleType), SeasonFactor(month), HourFactor(hour), behaviour, step as real / 60.0);
  }

  /** A product of five non-negative factors, taken left to right, is non-negative. */
  lemma FactorsNonNegative(a: real, b: real, c: real, d: real, e: real)
    requires a >= 0.0 && b >= 0.0 && c >= 0.0 && d >= 0.0 && e >= 0.0
    ensures a * b * c * d * e >= 0.0
  {
    ProductNonNegative(a, b);
    ProductNonNegative(a * b, c);
    ProductNonNegative(a * b * c, d);
    ProductNonNegative(a * b * c * d, e);
  }

  /** Driving energy per kilometre: a speed-dependent base, scaled by the
      vehicle type, the driving style, and the road, weather and traffic draws. */
  function EnergyPerKm(u: User, hour: nat, cfg: Config, d: UserDraws): real {
    0.25 * (1.0 + Speed(u) / 80.0) * TypeFactor(u.vehicleType) * StyleFactor(u.drivingStyle)
      * (d.road * d.weather * TrafficFactor(hour, cfg, d))
  }

  function TypeFactor(vehicleType: string): (f: real)
    ensures f > 0.0
  {
    if vehicleType == "sedan" then 1.2
    else if vehicleType == "suv" then 1.5
    else if vehicleType == "truck" then 1.8
    else 1.0
  }

  function StyleFactor(drivingStyle: string): (f: real)
    ensures f > 0.0
  {
    if drivingStyle == "aggressive" then 1.3
    else if drivingStyle == "eco" then 0.9
    else 1.0
  }

  /** The traffic draw applies in the configured peak hours only. */
  function TrafficFactor(hour: nat, cfg: Config, d: UserDraws): real {
    if hour in cfg.grid.peakHours.GetOr([]) then d.traffic else 1.0
  }

  lemma EnergyPerKmNonNegative(u: User, hour: nat, cfg: Config, d: UserDraws)
    requires DrawsInRange(d)
    ensures EnergyPerKm(u, hour, cfg, d) >= 0.0
  {
    var base := 0.25 * (1.0 + Speed(u) / 80.0);
    ProductNonNegative(base, TypeFactor(u.vehicleType));
    ProductNonNegative(base * TypeFactor(u.vehicleType), StyleFactor(u.drivingStyle));
    ProductNonNegative(d.road, d.weather);
    ProductNonNegative(d.road * d.weather, TrafficFactor(hour, cfg, d));
    ProductNonNegative(base * TypeFactor(u.vehicleType) * StyleFactor(u.drivingStyle),
                       d.road * d.weather * TrafficFactor(hour, cfg, d));
  }

  // ---------------------------------------------------------------------------
  // Charge need

  /** `calculate_charging_probability`; `sigmoid` stands for the logistic
      base probability. */
  function ChargingProbability(u: User, hour: nat, cfg: Config, sigmoid: real): (p: real)
    ensures 0.0 <= p <= 1.0
    ensures 100.0 - u.soc < cfg.env.minChargeThreshold.GetOr(25.0) ==> p == 0.0
  {
    var soc := u.soc;
    if 100.0 - soc < cfg.env.minChargeThreshold.GetOr(25.0) then 0.0
    else
      var b0 := Clamp(0.05, 0.95, sigmoid);
      var base := if soc > 75.0 then b0 * 0.1 else if soc > 60.0 then b0 * 0.3 else b0;
      var typeF := if u.userType == "taxi" then 0.2
                   else if u.userType == "delivery" then 0.15
                   else if u.userType == "business" then 0.1 else 0.0;
      var pref := if hour in cfg.grid.valleyHours.GetOr([]) then 0.2
                  else if hour !in cfg.grid.peakHours.GetOr([]) then 0.1 else 0.0;
      var prof := if u.profile == "anxious" then 0.2
                  else if u.profile == "planner" then (if 25.0 <= soc <= 40.0 then 0.15 else 0.0)
                  else if u.profile == "economic" then -0.1 else 0.0;
      var force := cfg.env.forceChargeThreshold.GetOr(20.0);
      var boost := if soc <= force + 5.0 then
                     (if soc > force then 0.4 * (1.0 - (soc - force) / 5.0) else 0.4)
                   else 0.0;
      Clamp(0.0, 1.0, base + typeF + pref + prof + boost)
  }

  /** The probability after the step's situational multipliers. */
  function AdjustedProbability(u: User, status0: UserStatus, hour: nat, cfg: Config, sigmoid: real): real {
    var soc := u.soc;
    var p0 := ChargingProbability(u, hour, cfg, sigmoid);
    var p1 := if status0 == PostCharge && u.postChargeTimer.Some? && u.postChargeTimer.value > 0
              then p0 * 0.1 else p0;
    var p2 := if status0 == Traveling && u.lastDestination == Some(ToRandom)
              then p1 * (if soc > 60.0 then 0.1 else 1.2) else p1;
    var p3 := if soc > 75.0 then p2 * 0.01 else if soc > 60.0 then p2 * 0.1 else p2;
    var p4 := if u.userType == "taxi" || u.userType == "ride_hailing"
              then p3 * (if soc > 50.0 then 0.5 else 1.2) else p3;
    var p5 := if hour in cfg.grid.peakHours.GetOr([])
              then p4 * (if soc > 60.0 then 0.5 else 1.2) else p4;
    if 20.0 < soc <= 35.0 then p5 * 1.5 else p5
  }

  /** Statuses whose users may raise the charge-need flag. */
  predicate MayFlag(status0: UserStatus) {
    status0 == Idle || status0 == Traveling || status0 == PostCharge
  }

  /** The new value of `needs_charge_decision` before any arrival. */
  function Flag(u: User, status0: UserStatus, hour: nat, cfg: Config, d: UserDraws): (f: bool)
    ensures f ==> MayFlag(status0) && !IdSet(u.target)
    ensures 100.0 - u.soc < cfg.env.minChargeThreshold.GetOr(25.0) ==> !f
    ensures (MayFlag(status0) && !IdSet(u.target)
             && 100.0 - u.soc >= cfg.env.minChargeThreshold.GetOr(25.0)
             && u.soc <= cfg.env.forceChargeThreshold.GetOr(20.0)) ==> f
  {
    if !MayFlag(status0) || IdSet(u.target) then false
    else if 100.0 - u.soc < cfg.env.minChargeThreshold.GetOr(25.0) then false
    else if u.soc <= cfg.env.forceChargeThreshold.GetOr(20.0) then true
    else d.flagDraw < AdjustedProbability(u, status0, hour, cfg, d.sigmoid)
  }

  // ---------------------------------------------------------------------------
  // The step

  /** The post-charge branch: count the timer down, or on expiry send the user
      on a trip to a random destination. */
  function PostChargeTick(u: User, d: UserDraws, sqrt: SqrtFn): (u': User)
    requires u.status == PostCharge
    ensures u'.soc == u.soc
    ensures u'.status == PostCharge || u'.status == Traveling || u'.status == Idle
    ensures u'.status != PostCharge ==> u'.target.None? && u'.postChargeTimer.None?
  {
    var t := if u.postChargeTimer.Some? then u.postChargeTimer.value else d.timer;
    if t > 0 then u.(postChargeTimer := Some(t - 1))
    else
      var v := u.(status := Traveling, target := None, postChargeTimer := None,
                  needsCharge := false, lastDestination := Some(ToRandom));
      var p := PlanToDestination(v, d.destination, d.route, sqrt);
      if p.1 then p.0 else p.0.(status := Idle, destination := None)
  }

  /** Arrival: the position becomes the destination; a charger trip ends in
      `waiting`, a random trip in `idle` with the target cleared. */
  function Arrive(u: User, now: nat): (u': User)
    requires u.destination.Some?
    ensures u'.position == u.destination && u'.destination.None? && u'.route == []
    ensures u'.soc == u.soc
    ensures IdSet(u.target) || u.lastDestination == Some(ToCharger) ==>
              u'.status == Waiting && u'.arrivalTime == Some(now) && u'.target == u.target
    ensures !(IdSet(u.target) || u.lastDestination == Some(ToCharger)) ==>
              u'.status == Idle && u'.target.None?
              && u'.needsCharge == (u.needsCharge || u.soc < 70.0)
  {
    var v := u.(position := u.destination, timeToDestination := Some(0.0), route := []);
    if IdSet(u.target) || u.lastDestination == Some(ToCharger) then
      v.(status := Waiting, destination := None, arrivalTime := Some(now))
    else
      v.(status := Idle, destination := None, target := None,
         needsCharge := if u.soc < 70.0 then true else u.needsCharge)
  }

  /** Kilometres driven this step. */
  function DriveKm(u: User, step: nat, sqrt: SqrtFn): (km: real)
    ensures km >= 0.0
  {
    MoveAlong(u, Speed(u) * (step as real / 60.0), sqrt).1
  }

  /** Driving for one step, before the arrival test; `e` is the energy per
      kilometre for this step. */
  function Driven(u: User, step: nat, e: real, sqrt: SqrtFn): (u': User)
    ensures u'.id == u.id && u'.destination == u.destination && u'.target == u.target
    ensures u'.status == u.status && u'.lastDestination == u.lastDestination
    ensures u'.needsCharge == u.needsCharge && u'.timeToDestination.Some?
    ensures u'.soc == Drained(u, DriveKm(u, step, sqrt) * e)
    ensures e >= 0.0 && u.soc >= 0.0 ==> 0.0 <= u'.soc <= u.soc
  {
    DrainedProductBounds(u, DriveKm(u, step, sqrt), e);
    MoveAlong(u, Speed(u) * (step as real / 60.0), sqrt).0.(
      soc := Drained(u, DriveKm(u, step, sqrt) * e),
      timeToDestination := Some(Max(0.0, u.timeToDestination.GetOr(0.0) - DriveKm(u, step, sqrt) / Speed(u) * 60.0)))
  }

  /** Driving for one step, then arrival once the remaining time is at most 0.1 minutes. */
  function Drive(u: User, now: nat, step: nat, e: real, sqrt: SqrtFn): (u': User)
    requires u.destination.Some?
    ensures u'.id == u.id
    ensures e >= 0.0 && u.soc >= 0.0 ==> 0.0 <= u'.soc <= u.soc
  {
    ArriveIfReached(Driven(u, step, e, sqrt), now)
  }

  /** The arrival test after moving. */
  function ArriveIfReached(v: User, now: nat): (u': User)
    ensures u'.id == v.id && u'.soc == v.soc
  {
    if Reached(v) && v.destination.Some? then Arrive(v, now) else v
  }

  /** The post-charge branch, taken only by users in `post_charge`. */
  function Tick(u: User, d: UserDraws, sqrt: SqrtFn): (u1: User)
    ensures u1.id == u.id && u1.soc == u.soc
    ensures u.status != PostCharge ==> u1 == u
  {
    if u.status == PostCharge then PostChargeTick(u, d, sqrt) else u
  }

  /** Idle consumption, skipped for users that started the step charging or waiting. */
  function IdleDrain(u1: User, status0: UserStatus, now: nat, step: nat, behaviour: real): (u2: User)
    ensures u2.id == u1.id && u2.target == u1.target && u2.status == u1.status
    ensures u2.lastDestination == u1.lastDestination && u2.destination == u1.destination
    ensures status0 == Charging || status0 == Waiting ==> u2 == u1
  {
    if status0 != Charging && status0 != Waiting
    then u1.(soc := Drained(u1, IdleEnergy(u1, now, step, behaviour))) else u1
  }

  /** Records the charge-need flag; a flagged user on a random trip stops
      there, while a flagged idle user is left as is. */
  function FlagAndStop(u2: User, status0: UserStatus, hour: nat, cfg: Config, d: UserDraws): (u4: User)
    ensures u4.id == u2.id && u4.soc == u2.soc
    ensures u4.needsCharge == Flag(u2, status0, hour, cfg, d)
  {
    if Flag(u2, status0, hour, cfg, d) && status0 == Traveling && u2.lastDestination == Some(ToRandom)
    then u2.(needsCharge := true, status := Idle, destination := None, route := [])
    else u2.(needsCharge := Flag(u2, status0, hour, cfg, d))
  }

  /** Movement, for users that started the step travelling and still have a destination. */
  function Travel(u4: User, status0: UserStatus, now: nat, step: nat, cfg: Config, d: UserDraws,
                  sqrt: SqrtFn): (u5: User)
    ensures u5.id == u4.id
    ensures !(status0 == Traveling && u4.destination.Some?) ==> u5 == u4
  {
    if status0 == Traveling && u4.destination.Some?
    then Drive(u4, now, step, EnergyPerKm(u4, Clock.HourOf(now), cfg, d), sqrt) else u4
  }

  /** One user's step: the stages above in order, then the remaining range
      recomputed from the SoC. */
  function Step(u: User, now: nat, step: nat, cfg: Config, d: UserDraws, sqrt: SqrtFn): (u': User)
    ensures u'.id == u.id
  {
    WithRange(Travel(FlagAndStop(IdleDrain(Tick(u, d, sqrt), u.status, now, step, d.behaviour),
                                 u.status, Clock.HourOf(now), cfg, d),
                     u.status, now, step, cfg, d, sqrt))
  }

  function WithRange(u: User): (u': User)
    ensures u'.id == u.id && u'.soc == u.soc && u'.needsCharge == u.needsCharge
  {
    u.(currentRange := u.maxRange * (u.soc / 100.0))
  }
}
