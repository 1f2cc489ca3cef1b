/** One time step of every charger (`charger_model.simulate_step`): derated
    charging power, energy and revenue accounting, session termination, and
    admission of the queue head. Chargers are visited in dictionary order and
    each visit may update the user it serves. */
module ChargerModel {
  import opened Wrappers
  import opened Numeric
  import opened Entities
  import Clock

  datatype Reason = TargetReached | TimeLimitExceeded

  /** A completed charging session record (rounding of the figures is not modelled). */
  datatype Session = Session(
    user: UserId, charger: ChargerId, start: int, end: nat, duration: int,
    initialSoc: real, finalSoc: real, energy: real, cost: real, reason: Reason)

  /** The power derating curve before the 0.1 floor. */
  function SocFactor(soc: real): real {
    if soc < 20.0 then 1.0
    else if soc < 50.0 then 1.0 - ((soc - 20.0) / 30.0) * 0.1
    else if soc < 80.0 then 0.9 - ((soc - 50.0) / 30.0) * 0.2
    else 0.7 - ((soc - 80.0) / 20.0) * 0.5
  }

  /** `max(0.1, soc_factor)`. */
  function Derate(soc: real): (f: real)
    ensures 0.1 <= f <= 1.0
    ensures soc < 20.0 ==> f == 1.0
  {
    Max(0.1, SocFactor(soc))
  }

  /** Charging slows down as the battery fills. */
  lemma DerateMonotone(a: real, b: real)
    requires a <= b
    ensures Derate(b) <= Derate(a)
  {
  }

  lemma ScaleAtMost(limit: real, f: real)
    requires limit >= 0.0 && 0.0 <= f <= 1.0
    ensures 0.0 <= limit * f <= limit
  {
  }

  /** The power drawn at the plug before efficiency losses. */
  function Power(c: Charger, u: User): real {
    Min(c.maxPower, u.maxChargingPower) * Derate(u.soc)
  }

  /** The derated power never exceeds the smaller of the charger's and the
      vehicle's maximum power. */
  lemma PowerWithinLimits(c: Charger, u: User)
    requires c.maxPower >= 0.0 && u.maxChargingPower >= 0.0
    ensures 0.0 <= Power(c, u) <= c.maxPower && Power(c, u) <= u.maxChargingPower
  {
    var limit := Min(c.maxPower, u.maxChargingPower);
    var f := Derate(u.soc);
    ScaleAtMost(limit, f);
    assert Power(c, u) == limit * f;
  }

  function Target(u: User): real {
    u.targetSoc.GetOr(95.0)
  }

  /** Energy needed to reach the target, in kWh. */
  function Needed(u: User): real {
    (Max(0.0, Target(u) - u.soc) / 100.0) * u.batteryCapacity
  }

  /** Energy put into the battery this step: the lesser of what is needed and
      what the derated power delivers in `hours`. */
  function Charged(c: Charger, u: User, hours: real): (e: real)
    ensures e <= Needed(u)
  {
    Min(Needed(u), Power(c, u) * u.efficiency * hours)
  }

  /** Energy drawn from the grid for `e` kWh into the battery. */
  function FromGrid(u: User, e: real): (g: real)
    ensures e > 0.0 ==> g > 0.0
  {
    if u.efficiency > 0.0 then e / u.efficiency else e
  }

  /** SoC after putting `e` kWh into the battery. */
  function ChargedSoc(u: User, e: real): real {
    Min(100.0, u.soc + (if u.batteryCapacity > 0.0 then (e / u.batteryCapacity) * 100.0 else 0.0))
  }

  lemma IncreaseAtMostNeeded(e: real, d: real, cap: real)
    requires cap > 0.0 && d >= 0.0 && e <= (d / 100.0) * cap
    ensures (e / cap) * 100.0 <= d
  {
    assert e / cap <= ((d / 100.0) * cap) / cap;
  }

  lemma IncreasePositive(e: real, cap: real)
    requires cap > 0.0 && e > 0.0
    ensures (e / cap) * 100.0 > 0.0
  {
  }

  /** The energy cap keeps the new SoC at or below both 100 and the larger of
      the current SoC and the target. */
  lemma ChargedSocBounded(c: Charger, u: User, hours: real)
    ensures ChargedSoc(u, Charged(c, u, hours)) <= Min(100.0, Max(u.soc, Target(u)))
  {
    var e := Charged(c, u, hours);
    if u.batteryCapacity > 0.0 {
      IncreaseAtMostNeeded(e, Max(0.0, Target(u) - u.soc), u.batteryCapacity);
    }
  }

  /** Charging raises a SoC in [0, 100] and keeps it there. */
  lemma ChargedSocInRange(c: Charger, u: User, hours: real)
    requires 0.0 <= u.soc <= 100.0
    ensures Charged(c, u, hours) > 0.01 ==> u.soc <= ChargedSoc(u, Charged(c, u, hours)) <= 100.0
  {
    if Charged(c, u, hours) > 0.01 && u.batteryCapacity > 0.0 {
      IncreasePositive(Charged(c, u, hours), u.batteryCapacity);
    }
  }

  /** `max_charging_time` by charger type, in minutes. */
  function MaxChargingTime(kind: string): (m: int)
    ensures m == 30 || m == 60 || m == 180
  {
    if kind == "superfast" then 30 else if kind == "fast" then 60 else 180
  }

  /** Minutes since the session started; a missing start counts one step. */
  function Duration(c: Charger, now: nat, step: nat): int {
    match c.chargingStart
    case Some(start) => now - start
    case None => step
  }

  /** The result of visiting one charger. */
  datatype Visit = Visit(charger: Charger, users: map<UserId, User>, load: real, session: Option<Session>)

  /** Frees the charger and sends the user into `post_charge`. */
  function Finish(c: Charger, u: User, now: nat, step: nat, finalSoc: real,
                  reason: Reason, timer: int): (r: (Charger, User, Session))
    requires c.currentUser.Some?
    ensures r.0.status == Available && r.0.currentUser.None? && r.0.chargingStart.None?
    ensures r.0.queue == c.queue && r.0.id == c.id && r.0.queueCapacity == c.queueCapacity
    ensures r.0.prevEnergy == c.dailyEnergy && r.0.prevRevenue == c.dailyRevenue
    ensures r.1.status == PostCharge && r.1.target.None? && r.1.postChargeTimer == Some(timer)
    ensures r.1.targetSoc.None? && r.1.initialSoc.None? && r.1.soc == u.soc
    ensures r.2.finalSoc == finalSoc && r.2.reason == reason
    ensures r.2.user == c.currentUser.value && r.2.charger == c.id && r.2.end == now
    ensures r.2.initialSoc == u.initialSoc.GetOr(u.soc)
    ensures r.0.dailyEnergy == c.dailyEnergy && r.0.dailyRevenue == c.dailyRevenue
    ensures r.2.energy == c.dailyEnergy - c.prevEnergy && r.2.cost == c.dailyRevenue - c.prevRevenue
  {
    var start := if c.chargingStart.Some? then c.chargingStart.value else now - step;
    var s := Session(c.currentUser.value, c.id, start, now, Duration(c, now, step),
                     u.initialSoc.GetOr(u.soc), finalSoc,
                     c.dailyEnergy - c.prevEnergy, c.dailyRevenue - c.prevRevenue, reason);
    (c.(status := Available, currentUser := None, chargingStart := None,
        prevEnergy := c.dailyEnergy, prevRevenue := c.dailyRevenue),
     u.(status := PostCharge, target := None, postChargeTimer := Some(timer),
        initialSoc := None, targetSoc := None),
     s)
  }

  /** What every outcome of serving shares: the queue and identity stay,
      the charger either keeps its user or is freed with a session record,
      and a freed user is put into post-charge with its timer. */
  predicate Served(c: Charger, u: User, now: nat, timer: int, r: (Charger, User, real, Option<Session>))
    requires c.currentUser.Some?
  {
    r.0.queue == c.queue && r.0.id == c.id && r.0.queueCapacity == c.queueCapacity
    && (r.0.status == c.status || (r.0.status == Available && r.0.currentUser.None?))
    && (r.0.status == c.status ==> r.0.currentUser == c.currentUser)
    && (r.3.Some? <==> r.0.status == Available)
    && (r.3.Some? ==> r.1.status == PostCharge && r.1.target.None? && r.1.postChargeTimer == Some(timer))
    && (r.3.None? ==> r.1.status == u.status && r.1.target == u.target)
    && (r.3.Some? ==>
          r.3.value.user == c.currentUser.value && r.3.value.charger == c.id && r.3.value.end == now
          && r.3.value.finalSoc == r.1.soc
          && r.3.value.energy == r.0.dailyEnergy - c.prevEnergy
          && r.3.value.cost == r.0.dailyRevenue - c.prevRevenue)
  }

  /** Serving the charger's current user for one step. */
  function Serve(c: Charger, u: User, now: nat, step: nat, price: real, timer: int)
    : (r: (Charger, User, real, Option<Session>))
    requires c.status == Occupied && c.currentUser.Some?
    ensures Served(c, u, now, timer, r)
    ensures var hours := Clock.StepHours(step);
            var e := Charged(c, u, hours);
            e > 0.01 ==>
              r.1.soc == ChargedSoc(u, e) && r.1.currentRange == RangeAt(u, r.1.soc)
              && r.0.dailyEnergy == c.dailyEnergy + FromGrid(u, e)
              && r.0.dailyRevenue == c.dailyRevenue + Revenue(FromGrid(u, e), price, c.priceMultiplier)
              && r.2 == (if hours > 0.0 then FromGrid(u, e) / hours else 0.0)
              && (r.3.Some? <==> r.1.soc >= Target(u) - 0.5
                                 || Duration(c, now, step) as real >= MaxChargingTime(c.kind) as real - 0.1)
              && (r.3.Some? ==> r.3.value.reason == (if r.1.soc >= Target(u) - 0.5 then TargetReached
                                                     else TimeLimitExceeded))
    ensures Charged(c, u, Clock.StepHours(step)) <= 0.01 ==>
              r.1.soc == u.soc && r.1.currentRange == u.currentRange
              && r.0.dailyEnergy == c.dailyEnergy && r.0.dailyRevenue == c.dailyRevenue && r.2 == 0.0
              && (r.3.Some? <==> u.soc >= Target(u) - 1.0)
              && (r.3.Some? ==> r.3.value.reason == TargetReached)
  {
    var hours := Clock.StepHours(step);
    var e := Charged(c, u, hours);
    if e > 0.01 then ServeCharging(c, u, now, step, price, timer, hours, e)
    else ServeIdle(c, u, now, step, timer)
  }

  /** Serving a user who takes more than 0.01 kWh this step: the energy is
      booked, and the session ends at the target or the time limit. */
  function ServeCharging(c: Charger, u: User, now: nat, step: nat, price: real, timer: int,
                         hours: real, e: real): (r: (Charger, User, real, Option<Session>))
    requires c.status == Occupied && c.currentUser.Some?
    requires hours == Clock.StepHours(step) && e == Charged(c, u, hours) && e > 0.01
    ensures Served(c, u, now, timer, r)
    ensures r.1.soc == ChargedSoc(u, e) && r.1.currentRange == RangeAt(u, r.1.soc)
    ensures r.0.dailyEnergy == c.dailyEnergy + FromGrid(u, e)
            && r.0.dailyRevenue == c.dailyRevenue + Revenue(FromGrid(u, e), price, c.priceMultiplier)
    ensures r.2 == (if hours > 0.0 then FromGrid(u, e) / hours else 0.0)
    ensures r.3.Some? <==> r.1.soc >= Target(u) - 0.5
                           || Duration(c, now, step) as real >= MaxChargingTime(c.kind) as real - 0.1
    ensures r.3.Some? ==> r.3.value.reason == (if r.1.soc >= Target(u) - 0.5 then TargetReached
                                               else TimeLimitExceeded)
  {
    var b := Book(c, u, e, price);
    var load := if hours > 0.0 then FromGrid(u, e) / hours else 0.0;
    var soc := ChargedSoc(u, e);
    if soc >= Target(u) - 0.5 || Duration(c, now, step) as real >= MaxChargingTime(c.kind) as real - 0.1 then
      var reason := if soc >= Target(u) - 0.5 then TargetReached else TimeLimitExceeded;
      var f := Finish(b.0, b.1, now, step, soc, reason, timer);
      (f.0, f.1, load, Some(f.2))
    else (b.0, b.1, load, None)
  }

  /** The step's charge booked on both sides: the user's SoC and range
      rise, the charger's energy and revenue counters grow by what is drawn
      from the grid. */
  function Book(c: Charger, u: User, e: real, price: real): (Charger, User) {
    var fromGrid := FromGrid(u, e);
    var soc := ChargedSoc(u, e);
    (c.(dailyRevenue := c.dailyRevenue + Revenue(fromGrid, price, c.priceMultiplier),
        dailyEnergy := c.dailyEnergy + fromGrid),
     u.(soc := soc, currentRange := RangeAt(u, soc)))
  }

  /** The range a user has at `soc` percent. */
  function RangeAt(u: User, soc: real): real {
    u.maxRange * (soc / 100.0)
  }

  /** The revenue of `energy` kWh at `price` and the charger's multiplier. */
  function Revenue(energy: real, price: real, multiplier: real): real {
    energy * price * multiplier
  }

  /** Serving a user who takes at most 0.01 kWh this step: nothing is
      booked, and the session ends only when the SoC is within 1 of the
      target. */
  function ServeIdle(c: Charger, u: User, now: nat, step: nat, timer: int): (r: (Charger, User, real, Option<Session>))
    requires c.status == Occupied && c.currentUser.Some?
    ensures Served(c, u, now, timer, r)
    ensures r.1.soc == u.soc && r.1.currentRange == u.currentRange
    ensures r.0.dailyEnergy == c.dailyEnergy && r.0.dailyRevenue == c.dailyRevenue && r.2 == 0.0
    ensures r.3.Some? <==> u.soc >= Target(u) - 1.0
    ensures r.3.Some? ==> r.3.value.reason == TargetReached
  {
    if u.soc >= Target(u) - 1.0 then
      var f := Finish(c, u, now, step, u.soc, TargetReached, timer);
      (f.0, f.1, 0.0, Some(f.2))
    else (c, u, 0.0, None)
  }

  /** Admission of the queue head into a charger that is now available. */
  function Admit(c: Charger, users: map<UserId, User>, now: nat): (r: (Charger, map<UserId, User>))
    requires c.status == Available && |c.queue| > 0
    ensures c.queue[0] in users && users[c.queue[0]].status == Waiting ==>
              r.0.status == Occupied && r.0.currentUser == Some(c.queue[0])
              && r.0.chargingStart == Some(now) && r.0.queue == c.queue[1..]
              && r.1 == users[c.queue[0] := users[c.queue[0]].(
                   status := Charging,
                   targetSoc := Some(Min(95.0, users[c.queue[0]].soc + 60.0)),
                   initialSoc := Some(users[c.queue[0]].soc))]
    ensures c.queue[0] in users && users[c.queue[0]].status == Waiting ==>
              r.0 == c.(status := Occupied, currentUser := Some(c.queue[0]), chargingStart := Some(now),
                        prevEnergy := c.dailyEnergy, prevRevenue := c.dailyRevenue, queue := c.queue[1..])
    ensures c.queue[0] in users && users[c.queue[0]].status != Waiting ==> r == (c, users)
    ensures c.queue[0] !in users ==> r == (c.(queue := c.queue[1..]), users)
  {
    var head := c.queue[0];
    if head in users then
      var u := users[head];
      if u.status == Waiting then
        (c.(status := Occupied, currentUser := Some(head), chargingStart := Some(now),
            prevEnergy := c.dailyEnergy, prevRevenue := c.dailyRevenue, queue := c.queue[1..]),
         users[head := u.(status := Charging, targetSoc := Some(Min(95.0, u.soc + 60.0)),
                          initialSoc := Some(u.soc))])
      else (c, users)
    else (c.(queue := c.queue[1..]), users)
  }

  /** The serving half of a visit: an occupied charger serves its user, or
      is freed when the user is unknown; any other charger is left as is. */
  function ServeCurrent(c: Charger, users: map<UserId, User>, now: nat, step: nat,
                        price: real, timer: int): (r: (Charger, map<UserId, User>, real, Option<Session>))
    requires c.status != Failure
    ensures r.0.status != Failure && r.0.queue == c.queue
    ensures r.0.id == c.id && r.0.queueCapacity == c.queueCapacity && r.1.Keys == users.Keys
    ensures Consistent(c) ==> Consistent(r.0)
  {
    if c.status == Occupied && IdSet(c.currentUser) then
      var uid := c.currentUser.value;
      if uid in users then
        var s := Serve(c, users[uid], now, step, price, timer);
        (s.0, users[uid := s.1], s.2, s.3)
      else (c.(status := Available, currentUser := None, chargingStart := None), users, 0.0, None)
    else (c, users, 0.0, None)
  }

  /** One charger's visit: serve its user (or free it when the user is
      unknown), then admit the queue head if it is now available. */
  function VisitCharger(c: Charger, users: map<UserId, User>, now: nat, step: nat,
                        price: real, timer: int): (v: Visit)
    ensures c.status == Failure ==> v == Visit(c, users, 0.0, None)
  {
    if c.status == Failure then Visit(c, users, 0.0, None)
    else
      var served := ServeCurrent(c, users, now, step, price, timer);
      var c1 := served.0;
      if c1.status == Available && |c1.queue| > 0 then
        var a := Admit(c1, served.1, now);
        Visit(a.0, a.1, served.2, served.3)
      else Visit(c1, served.1, served.2, served.3)
  }

  /** The result of a whole charger step. */
  datatype StepResult = StepResult(
    chargers: map<ChargerId, Charger>, users: map<UserId, User>, evLoad: real, sessions: seq<Session>)

  /** `simulate_step`: visits the chargers named by `order`, in that order.
      `timers[i]` is the `randint(1, 3)` post-charge timer drawn if the i-th
      visit ends a session. */
  function StepChargers(order: seq<ChargerId>, chargers: map<ChargerId, Charger>,
                        users: map<UserId, User>, now: nat, step: nat, price: real,
                        timers: seq<int>): (r: StepResult)
    requires |timers| == |order|
    requires forall i :: 0 <= i < |order| ==> order[i] in chargers
    ensures chargers.Keys == r.chargers.Keys && users.Keys == r.users.Keys
    decreases |order|
  {
    if |order| == 0 then StepResult(chargers, users, 0.0, [])
    else
      var v := VisitCharger(chargers[order[0]], users, now, step, price, timers[0]);
      var rest := StepChargers(order[1..], chargers[order[0] := v.charger], v.users,
                               now, step, price, timers[1..]);
      StepResult(rest.chargers, rest.users, v.load + rest.evLoad,
                 (if v.session.Some? then [v.session.value] else []) + rest.sessions)
  }

  // ---------------------------------------------------------------------------
  // Invariants

  /** A charger is occupied exactly when it has a current user. */
  predicate Consistent(c: Charger) {
    c.status == Occupied <==> IdSet(c.currentUser)
  }

  /** A visit keeps the charger consistent and never lengthens its queue; a
      failed charger is not touched. */
  lemma VisitInvariant(c: Charger, users: map<UserId, User>, now: nat, step: nat,
                       price: real, timer: int)
    requires Consistent(c) && forall k :: k in users ==> k != ""
    ensures var v := VisitCharger(c, users, now, step, price, timer);
            Consistent(v.charger) && |v.charger.queue| <= |c.queue|
            && v.charger.id == c.id && v.charger.queueCapacity == c.queueCapacity
            && v.users.Keys == users.Keys
  {
    if c.status != Failure {
      var served := ServeCurrent(c, users, now, step, price, timer);
      var c1 := served.0;
      if c1.status == Available && |c1.queue| > 0 {
        assert c1.queue[0] in served.1 ==> c1.queue[0] != "";
      }
    }
  }

  ghost predicate AllConsistent(chargers: map<ChargerId, Charger>) {
    forall k :: k in chargers ==> Consistent(chargers[k])
  }

  ghost predicate QueuesWithinCapacity(chargers: map<ChargerId, Charger>) {
    forall k :: k in chargers ==> |chargers[k].queue| <= chargers[k].queueCapacity
  }

  /** "Occupied exactly when a user is set" and "queue within capacity" hold
      for every charger after the step if they held before. */
  lemma {:induction false} StepInvariant(order: seq<ChargerId>, chargers: map<ChargerId, Charger>,
                                         users: map<UserId, User>, now: nat, step: nat,
                                         price: real, timers: seq<int>)
    requires |timers| == |order|
    requires forall i :: 0 <= i < |order| ==> order[i] in chargers
    requires forall k :: k in users ==> k != ""
    requires AllConsistent(chargers) && QueuesWithinCapacity(chargers)
    ensures var r := StepChargers(order, chargers, users, now, step, price, timers);
            AllConsistent(r.chargers) && QueuesWithinCapacity(r.chargers)
    decreases |order|
  {
    if |order| > 0 {
      var c := chargers[order[0]];
      VisitInvariant(c, users, now, step, price, timers[0]);
      var v := VisitCharger(c, users, now, step, price, timers[0]);
      var next := chargers[order[0] := v.charger];
      assert forall i :: 1 <= i < |order| ==> order[1..][i - 1] == order[i];
      StepInvariant(order[1..], next, v.users, now, step, price, timers[1..]);
    }
  }

  /** Serving never lowers a SoC in [0, 100] and never lifts it past 100. */
  lemma ServeKeepsSocInRange(c: Charger, u: User, now: nat, step: nat, price: real, timer: int)
    requires c.status == Occupied && c.currentUser.Some?
    requires 0.0 <= u.soc <= 100.0
    ensures u.soc <= Serve(c, u, now, step, price, timer).1.soc <= 100.0
  {
    ChargedSocInRange(c, u, Clock.StepHours(step));
  }

  /** A visit keeps every user's SoC in [0, 100]. */
  lemma VisitKeepsSocsInRange(c: Charger, users: map<UserId, User>, now: nat, step: nat,
                              price: real, timer: int)
    requires SocsInRange(users)
    ensures SocsInRange(VisitCharger(c, users, now, step, price, timer).users)
  {
    if c.status != Failure {
      var served := ServeCurrent(c, users, now, step, price, timer);
      if c.status == Occupied && IdSet(c.currentUser) && c.currentUser.value in users {
        var uid := c.currentUser.value;
        ServeKeepsSocInRange(c, users[uid], now, step, price, timer);
        assert served.1 == users[uid := Serve(c, users[uid], now, step, price, timer).1];
      }
      assert SocsInRange(served.1);
      if served.0.status == Available && |served.0.queue| > 0 {
        AdmitKeepsSocs(served.0, served.1, now);
      }
    }
  }

  /** Admission changes no user's SoC. */
  lemma AdmitKeepsSocs(c: Charger, users: map<UserId, User>, now: nat)
    requires c.status == Available && |c.queue| > 0
    ensures var r := Admit(c, users, now);
            r.1.Keys == users.Keys && forall k :: k in users ==> r.1[k].soc == users[k].soc
  {
  }

  /** The charger step keeps every user's SoC in [0, 100]. */
  lemma {:induction false} StepKeepsSocsInRange(order: seq<ChargerId>, chargers: map<ChargerId, Charger>,
                                                users: map<UserId, User>, now: nat, step: nat,
                                                price: real, timers: seq<int>)
    requires |timers| == |order|
    requires forall i :: 0 <= i < |order| ==> order[i] in chargers
    requires SocsInRange(users)
    ensures SocsInRange(StepChargers(order, chargers, users, now, step, price, timers).users)
    decreases |order|
  {
    if |order| > 0 {
      var v := VisitCharger(chargers[order[0]], users, now, step, price, timers[0]);
      VisitKeepsSocsInRange(chargers[order[0]], users, now, step, price, timers[0]);
      assert forall i :: 1 <= i < |order| ==> order[1..][i - 1] == order[i];
      StepKeepsSocsInRange(order[1..], chargers[order[0] := v.charger], v.users, now, step, price, timers[1..]);
    }
  }

  /** Revenue and energy counters never decrease when the price and the
      multiplier are non-negative. */
  lemma CountersNonDecreasing(c: Charger, u: User, now: nat, step: nat, price: real, timer: int)
    requires c.status == Occupied && c.currentUser.Some? && price >= 0.0 && c.priceMultiplier >= 0.0
    ensures var r := Serve(c, u, now, step, price, timer);
            r.0.dailyRevenue >= c.dailyRevenue && r.0.dailyEnergy >= c.dailyEnergy
  {
    var e := Charged(c, u, Clock.StepHours(step));
    if e > 0.01 {
      var g := FromGrid(u, e);
      ProductNonNegative(g, price);
      ProductNonNegative(g * price, c.priceMultiplier);
    }
  }

  /** A session ends when the SoC reaches the target less 0.5, or the
      duration reaches the type's limit less 0.1 minutes. */
  lemma EndCondition(c: Charger, u: User, now: nat, step: nat, price: real, timer: int)
    requires c.status == Occupied && c.currentUser.Some?
    requires Charged(c, u, Clock.StepHours(step)) > 0.01
    ensures var r := Serve(c, u, now, step, price, timer);
            var soc := ChargedSoc(u, Charged(c, u, Clock.StepHours(step)));
            r.3.Some? <==> (soc >= Target(u) - 0.5
                            || Duration(c, now, step) as real >= MaxChargingTime(c.kind) as real - 0.1)
  {
  }
}
