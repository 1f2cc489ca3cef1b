# EV charging simulation: a Dafny model of the engine core

This project models the time-stepped simulation engine of an electric-vehicle
charging platform and its four scheduling algorithms.

**The world.** Users drive, drain their batteries and raise a "needs a charge
decision" flag. Chargers admit waiting users from their queues, charge them
with SoC-derated power and bill them at the grid price. A regional grid
model spreads the global EV load over its regions and sets the
time-of-use price.

**Each step.** The environment:
1. applies the scheduler's `{user_id: charger_id}` decisions;
2. steps users, arrivals, chargers, grid and clock;
3. scores the new state with three KPIs (user satisfaction, operator profit,
   grid friendliness) and a weighted total;
4. records a bounded history.

**The scheduler** is one of:
- `rule_based`: weighted multi-criteria scoring with queue caps;
- `uncoordinated`: nearest charger, shortest queue;
- `coordinated_mas`: user, profit and grid agents whose recommendations are
  voted on;
- `marl`: per-charger tabular Q-learning agents.

An algorithm that raises falls back to the rule-based one.

**How the model is written.** Everything is pure functions over immutable
datatypes:
- One Dafny module per source file. The coordinated algorithm's agents
  (`CoordinatedUser`, `CoordinatedProfit`, `CoordinatedGrid`) are modules of
  their own beside the coordinator (`CoordinatedMas`). Lemmas about the
  coordinator, the environment, the metrics and the user model sit in
  separate `…Properties` modules.
- Shared records (`User`, `Charger`, `Snapshot`, decisions dictionaries) live
  in `Entities`.
- Python dictionaries with insertion order are sequences without repeated
  keys. A dictionary write overwrites in place or appends (`Entities.Recorded`).
- Exceptions the source raises and catches are `Result` errors that name the
  Python exception (`KeyError`, `AttributeError`, `IndexError`, `TypeError`,
  `ZeroDivisionError`).

**Inputs taken as parameters.** These are explicit parameters:
- every random draw: route waypoints, timers, behaviour factors, shuffle
  indices, exploration coins, the baseline's profit reduction;
- the square root, as an oracle that is non-negative and positive on
  positive input;
- the logistic function's value, passed to `UserModel.ChargingProbability`;
- the wall-clock hour used when a state carries no timestamp.

Time is an integer count of minutes since 2025-01-01 00:00, the default
start. Hour, month and `round(minutes / 60, 4)` are derived from it exactly
(`Clock`). `reset` records the configured start instant on that clock, and
the end-of-run test measures elapsed minutes from it.

**Behaviour modelled as written.** Where the code departs from the
platform's own description, the model follows the code:
- **Uncoordinated ties.** Below 20% SoC the uncoordinated scheduler breaks a
  distance tie in favour of the first charger in list order. The platform
  description says the one with the empty queue.
- **MARL decisions.** `marl` never assigns anyone:
  - The agents are keyed `CHARGER_0001…`, the environment's chargers
    `charger_1…`, so every agent lookup misses.
  - The scheduler's action maps are thrown away; the agents see placeholder
    maps.
- **MARL learning.** `learn` hands the Q-learning update a decisions
  dictionary where it expects actions. It either does nothing or raises a
  `TypeError` that is swallowed.
- **Profit agent.** It reads a `self.config` it never set. So in any peak or
  valley hour with a working charger and a user to target, the coordinated
  system raises, and the rule-based scheduler decides instead.
- **Stale SoC.** The rule-based urgency weight boost reads the `soc`
  variable the candidate-building loop leaves behind. The loop sets it for
  every user before any skip, so it is the SoC of the last user in the list,
  whether or not that user is a candidate.
- **Grid aggregates.** The regional grid status has no load-percentage,
  renewable-ratio or total/EV-load aggregates. Every consumer therefore uses
  its defaults: 50% load, no renewables, no EV-concentration penalty.
- **History.** The history limit is `48 * (60 // step)`. It is 0 for steps
  longer than 60 minutes, and `history[-0:]` keeps everything, so the
  history then grows without bound.
- **Route planning.** It never resets the segment index. A trip started with
  a stale index stands still.
- **First reset price.** The grid's first reset prices hour 0 against an
  empty status, so it is always the 0.85 normal price.

## Model

| member | source | states |
|---|---|---|
| Geo.Distance | simulation/utils.py:7-29 | A missing coordinate pair gives an infinite distance; otherwise the distance is finite and non-negative |
| Clock.HourOf | simulation/grid_model.py:165-171 | The hour of day of a timestamp is below 24 and locates the timestamp within its day |
| Clock.MonthWithin | simulation/user_model.py:80-84 | The month found for a day is the one whose first day is at most that day and whose successor's first day is beyond it; December takes the rest |
| Clock.MonthFrom | simulation/user_model.py:80-84 | Within its first year the month found is the one whose cumulative day range holds the day |
| Clock.MonthOf | simulation/user_model.py:80-84 | The calendar month used for the seasonal drain factor lies in 1..12 and, within 2025, is the month whose day range holds the timestamp's day |
| Clock.FirstQuarterMonths | simulation/user_model.py:80-84 | In the first 90 days from the default start the month changes exactly at 31 and 59 days (2025 is not a leap year) |
| Clock.StepHours | simulation/charger_model.py:26 | The step length in hours is within 0.00005 of minutes/60, has at most four decimals, and is positive for a positive step |
| Entities.FindCharger | simulation/scheduler.py:195 | The first charger with the id, found exactly when one exists |
| Entities.Recorded | simulation/scheduler.py:318 | Writing `decisions[user] = charger` keeps one entry per user, makes the lookup of that user return the charger and changes no other user's lookup |
| Entities.ChargerOf | algorithms/coordinated_mas.py:405-413 | A decisions dictionary lookup succeeds exactly for decided users and returns an entry of the dictionary |
| GridModel.Price | simulation/grid_model.py:239-246 | Peak hours get the peak price, otherwise valley hours the valley price, otherwise the normal price |
| GridModel.ProfileOrDefault | simulation/grid_model.py:17-38 | A region's configured 24-value list is used as is; anything else falls back to a constant 24-hour profile |
| GridModel.ValueOrDefault | simulation/grid_model.py:40-61 | A region's configured number is used; a missing dictionary, key or non-number falls back to the default |
| GridModel.DefaultsAreLocal | simulation/grid_model.py:40-61 | A malformed entry for one region falls back only for that region; other regions keep their configured values |
| GridModel.RegionIds | simulation/grid_model.py:72-88 | Regions come from the base-load keys, else `region_0..n-1` for a positive region count, else the single `region_0` |
| GridModel.Reset | simulation/grid_model.py:63-163 | Every region starts at its hour-0 base load with no EV load, and profiles and capacities have their defaults; the price is read from the previous status |
| GridModel.FirstResetPrice | simulation/grid_model.py:94-96 | The first reset after construction prices at 0.85 whatever the configuration |
| GridModel.SecondResetPrice | simulation/grid_model.py:159-161 | A reset after an earlier one prices hour 0 with the configured table |
| GridModel.EffectiveHour | simulation/grid_model.py:167-171 | An hour outside 0..23 is treated as hour 0 |
| GridModel.Update | simulation/grid_model.py:165-234 | Each region gets its hour's base load, solar and wind generation from its profiles (hour 0 when the hour is out of range) and a capacity-proportional EV share, total = base + EV, and load and renewable percentages with zero guards; the price follows the hour |
| GridModel.EvLoadConserved | simulation/grid_model.py:185-189 | With non-zero total capacity the regional EV shares add up to the global EV load |
| GridModel.ZeroCapacityNoEvLoad | simulation/grid_model.py:177-183 | With zero total capacity no region receives EV load |
| GridModel.InvalidHourIsHourZero | simulation/grid_model.py:169-171 | Updating at an invalid hour is the same as updating at hour 0 |
| GridModel.Status | simulation/grid_model.py:248-250 | The status carries price, peak and valley hours but none of the load aggregates |
| ChargerModel.Derate | simulation/charger_model.py:52-57 | The SoC derating factor stays within [0.1, 1] and is 1 below 20% SoC |
| ChargerModel.DerateMonotone | simulation/charger_model.py:52-57 | A fuller battery never gets a larger derating factor |
| ChargerModel.PowerWithinLimits | simulation/charger_model.py:47-57 | Delivered power never exceeds the charger's or the vehicle's maximum |
| ChargerModel.Charged | simulation/charger_model.py:61-64 | The energy charged in a step never exceeds what is needed to reach the target |
| ChargerModel.FromGrid | simulation/charger_model.py:65 | Positive charged energy draws positive grid energy (efficiency loss) |
| ChargerModel.ChargedSocBounded | simulation/charger_model.py:61-69 | Charging never lifts SoC above 100 or above the larger of current SoC and target |
| ChargerModel.ChargedSocInRange | simulation/charger_model.py:67-69 | When a session actually charges, the new SoC lies between the old SoC and 100 |
| ChargerModel.MaxChargingTime | simulation/charger_model.py:86-88 | The session cap is 30, 60 or 180 minutes by charger type |
| ChargerModel.Finish | simulation/charger_model.py:110-120 | Ending a session frees the charger, keeps its queue and daily counters, snapshots those counters, records the user, charger, end time, initial SoC and the energy and revenue since the last snapshot, and sends the user to post-charge with a timer |
| ChargerModel.Serve | simulation/charger_model.py:38-148 | An occupied charger either keeps its user or frees itself and logs a session exactly when the user moves to post-charge. When more than 0.01 kWh is charged: the SoC becomes the charged SoC, the range follows it, daily energy and revenue grow by the grid energy (times price and multiplier), the load is grid energy over the step's hours, and the session ends (target reached before time limit) exactly when the SoC is within 0.5 of the target or the duration is within 0.1 of the type's limit. Otherwise nothing is charged, the load is 0 and the session ends (target reached) exactly when the SoC is within 1 of the target. A logged session carries the user, charger, end time, final SoC and the energy and revenue since admission |
| ChargerModel.EndCondition | simulation/charger_model.py:84-92 | A session ends exactly when SoC reaches target - 0.5 or the duration reaches the type's cap - 0.1 |
| ChargerModel.CountersNonDecreasing | simulation/charger_model.py:77-81 | Daily revenue and energy never decrease while serving at a non-negative price |
| ChargerModel.Admit | simulation/charger_model.py:152-185 | A waiting head of queue starts charging with target min(95, soc+60) and initial SoC recorded; the charger takes the user, starts the clock, snapshots its daily energy and revenue, pops the queue and changes nothing else; a non-waiting head blocks; an unknown head is dropped |
| ChargerModel.VisitCharger | simulation/charger_model.py:30-32 | A failed charger is skipped and contributes no load |
| ChargerModel.VisitInvariant | simulation/charger_model.py:30-186 | A visit keeps "occupied exactly when a user is set", never lengthens the queue and keeps identity and capacity |
| ChargerModel.StepInvariant | simulation/charger_model.py:30-186 | Over all chargers the step preserves consistency and queue-within-capacity |
| ChargerModel.ServeKeepsSocInRange | simulation/charger_model.py:62-71 | Serving never lowers a SoC in [0, 100] and never lifts it past 100 |
| ChargerModel.VisitKeepsSocsInRange | simulation/charger_model.py:38-185 | Visiting a charger keeps every user's SoC in [0, 100] |
| ChargerModel.AdmitKeepsSocs | simulation/charger_model.py:152-185 | Admission keeps every user's SoC and the set of users |
| ChargerModel.StepKeepsSocsInRange | simulation/charger_model.py:30-186 | The whole charger step keeps every user's SoC in [0, 100] |
| ChargerModel.StepChargers | simulation/charger_model.py:30-186 | The step neither adds nor removes chargers or users |
| UserModel.Speed | simulation/user_model.py:161-163 | The travel speed is positive (45 km/h fallback) |
| UserModel.PlanRoute | simulation/user_model.py:295-349 | A route has 3 to 5 points from start to end, and the travel time is its length over the speed in minutes; status, target and segment index are untouched |
| UserModel.PlanToCharger | simulation/user_model.py:351-368 | A user without a position cannot plan; otherwise the trip goes to the charger and is marked as a charger trip |
| UserModel.PlanToDestination | simulation/user_model.py:370-382 | Planning to a random destination clears the target charger and marks the trip random |
| UserModel.Advance | simulation/user_model.py:402-431 | The segment walk never moves backwards, never moves more than the remaining distance and stays on route points |
| UserModel.MoveAlong | simulation/user_model.py:385-437 | Movement is non-negative and at most the step distance; a route under two points, no distance or no position means no move; nothing but position, segment and progress changes |
| UserProperties.StaleIndexFreezes | simulation/user_model.py:400-402 | A segment index already at the route's end means the user does not move |
| UserProperties.NoMoveOnShortRoute | simulation/user_model.py:388-393 | No movement on a short route or a non-positive distance |
| UserModel.IdleRate | simulation/user_model.py:69-77 | Idle drain rates per vehicle type are positive |
| UserModel.SeasonFactor | simulation/user_model.py:80-85 | Seasonal drain factors are positive |
| UserModel.HourFactor | simulation/user_model.py:88-92 | Hourly drain factors are positive |
| UserModel.IdleEnergyNonNegative | simulation/user_model.py:68-99 | Idle energy use is never negative |
| UserModel.ChargingProbability | simulation/user_model.py:237-292 | The base charging probability lies in [0, 1] and is 0 when less than the minimum charge amount is missing |
| UserModel.Flag | simulation/user_model.py:106-143 | The flag is raised only for idle, traveling or post-charge users without a target, never for a small charge, and always at or below the forced-charge SoC |
| UserModel.FlagAndStop | simulation/user_model.py:106-157 | Flagging sets the flag as decided and leaves SoC alone |
| UserModel.PostChargeTick | simulation/user_model.py:40-62 | The post-charge timer keeps SoC; on leaving post-charge the target and timer are cleared |
| UserModel.Arrive | simulation/user_model.py:201-228 | A user with a target or on a charger trip waits at the charger from now; otherwise the user idles, drops the target and is flagged below 70% |
| UserModel.Driven | simulation/user_model.py:165-198 | Driving drains SoC by distance × energy per km, never below 0 or above the previous SoC |
| UserModel.Tick | simulation/user_model.py:40-62 | Only post-charge users are affected by the timer stage |
| UserModel.IdleDrain | simulation/user_model.py:68-102 | Charging and waiting users are not drained; the drain changes nothing but SoC |
| UserModel.Travel | simulation/user_model.py:161-228 | Only traveling users with a destination move |
| UserModel.WithRange | simulation/user_model.py:232 | The range update changes nothing but the range |
| UserProperties.IdleDrainBounds | simulation/user_model.py:99-101 | Idle drain keeps SoC within [0, previous SoC] |
| UserProperties.TravelBounds | simulation/user_model.py:191-194 | Travel keeps SoC within [0, previous SoC] |
| UserProperties.SocNonIncreasing | simulation/user_model.py:10-232 | A user step never raises SoC and never takes it below 0 |
| UserProperties.FlagOnlyWithoutTarget | simulation/user_model.py:107-108 | Users that are charging or waiting, or that hold a target without being post-charge, end the step unflagged |
| UserProperties.FlagThresholds | simulation/user_model.py:109-118 | For an idle user without a target, the small-charge rule blocks the flag and the forced-charge rule raises it |
| Environment.Reset | simulation/environment.py:70-91 | Clock and recorded start both take the configured start instant, or 2025-01-01T00:00 when it does not parse; history and session log start empty |
| Environment.ApplyDecision | simulation/environment.py:293-317 | A decision for a free user with a reachable, different charger sends the user traveling to it from segment 0; every other case, and every other user, is unchanged; no SoC changes |
| Environment.ApplyDecisions | simulation/environment.py:293-317 | Users without a decision are unchanged, no SoC changes and no user appears or disappears |
| Environment.StepUsers | simulation/environment.py:319 | Stepping users keeps the user set and ids |
| EnvironmentProperties.StepUsersKeepSocsInRange | simulation/environment.py:319 | With draws in their generators' ranges, stepping the users keeps every SoC in [0, 100] |
| Environment.Enqueue | simulation/environment.py:322-348 | An arrived waiting user is appended to the target's queue once and only while it is below capacity; statuses and occupants are untouched |
| EnvironmentProperties.EnqueueWithinCapacity | simulation/environment.py:322-348 | Enqueueing keeps every queue within capacity |
| EnvironmentProperties.EnqueueAllWithinCapacity | simulation/environment.py:322-348 | Processing all arrivals keeps every queue within capacity and every charger consistent |
| EnvironmentProperties.FullQueueUnchanged | simulation/environment.py:322-348 | An arrival at a full queue changes nothing |
| EnvironmentProperties.ArrivalJoinsQueue | simulation/environment.py:322-348 | An arrival at a queue with room that does not hold the user is appended at the end |
| Environment.MaxHistory | simulation/environment.py:430 | The history limit is zero exactly for steps longer than 60 minutes |
| Environment.Trim | simulation/environment.py:430-431 | Trimming keeps the newest entries, at most the limit of them, or everything when the limit is 0 |
| Environment.CurrentState | simulation/environment.py:399-412 | The state exposes every user and charger in dictionary order, the current time and the newest 96 history entries |
| Environment.Advance | simulation/environment.py:292-367 | One step advances the clock by the step length and keeps the start, users, chargers and history |
| Environment.Finish | simulation/environment.py:368-397 | After the world has advanced, rewards are computed on the new state, the history gains that record trimmed to its limit and nothing else in the world changes, and a zero step raises ZeroDivisionError |
| Environment.Step | simulation/environment.py:282-397 | A step fails with KeyError on incomplete configured weights and with ZeroDivisionError on a zero step; otherwise it advances time, keeps the start, users and chargers, and reports done exactly when the minutes elapsed since the recorded start reach the simulated days less half a step (validity of the resulting world is EnvironmentProperties.StepKeepsValid) |
| EnvironmentProperties.StepKeepsValid | simulation/environment.py:282-397 | With draws in their generators' ranges, a successful step leaves a valid world (every SoC in [0, 100], queues within capacity, charger consistency, ids and dictionaries in agreement) with a non-empty history |
| EnvironmentProperties.StepPreservesValid | simulation/environment.py:292-367 | With draws in their generators' ranges: the start stays behind the clock, and ids, dictionaries, every user's SoC in [0, 100], charger consistency, queue capacities and grid shape stay valid across a step |
| EnvironmentProperties.HistoryBounded | simulation/environment.py:414-431 | For steps up to 60 minutes the recorded history is non-empty and within its limit |
| EnvironmentProperties.HistoryUnboundedForLongSteps | simulation/environment.py:414-431 | For steps above 60 minutes every step adds one history entry |
| Metrics.UserSatisfaction | simulation/metrics.py:31-46 | User satisfaction lies in [-1, 1] |
| Metrics.OperatorProfit | simulation/metrics.py:55-63 | Operator profit lies in [-1, 1] |
| Metrics.LoadFactor | simulation/metrics.py:78-82 | The load factor lies in [-0.5, 0.8] |
| MetricsProperties.LoadFactorMonotone | simulation/metrics.py:78-82 | A higher grid load never scores better |
| Metrics.EvConcentration | simulation/metrics.py:91-97 | EV concentration only penalises |
| Metrics.Friendliness | simulation/metrics.py:101-103 | The clamp-and-scale keeps the sign and lands in [-0.72, 1] |
| Metrics.GridFriendliness | simulation/metrics.py:72-103 | Grid friendliness lies in [-0.72, 1] |
| Metrics.ResolveWeights | simulation/metrics.py:108-113 | No configured weights means 0.4/0.3/0.3; configured weights are used as given, and a missing key raises KeyError |
| Metrics.BaselineGrid | simulation/metrics.py:148-158 | The baseline grid score lies in [-1, 1] |
| MetricsProperties.BaselineGridOrder | simulation/metrics.py:148-158 | For any peak and valley lists and renewable share in [0, 1], a peak hour scores below an hour in neither list, which scores below a valley hour that is not also a peak hour |
| Metrics.Improvement | simulation/metrics.py:170-172 | The improvement is reported only when the baseline differs from 0 by more than 1e-6, as the relative change in percent |
| MetricsProperties.ImprovementSign | simulation/metrics.py:170-172 | The improvement is positive exactly when the total beats the baseline, negative when it trails |
| Metrics.BaselineScores | simulation/metrics.py:127-158 | Every baseline KPI lies in [-1, 1] |
| Metrics.Assemble | simulation/metrics.py:162-172 | The baseline total weighs the baseline KPIs like the real ones, and the improvement compares against it |
| Metrics.CalculateRewards | simulation/metrics.py:10-191 | The rewards are the three KPIs and their weighted total; the baseline is present exactly when enabled; incomplete weights raise |
| MetricsProperties.NoUsersScoresMinusOne | simulation/metrics.py:39-46 | With no users satisfaction is -1 |
| MetricsProperties.NoChargersScoresMinusOne | simulation/metrics.py:55-63 | With no chargers profit is -1 |
| MetricsProperties.DefaultWeightsBounded | simulation/metrics.py:108-113 | With the default weights the total reward lies in [-1, 1] |
| RuleBased.PeriodOf | algorithms/rule_based.py:59-64 | An hour is peak exactly when listed as peak, valley exactly when listed as valley and not peak |
| RuleBased.TimeAdjusted | algorithms/rule_based.py:72-80 | At peak the grid weight rises (at most 0.7) and the others stay at least 0.1; in the valley the grid weight stays at least 0.2 and the others at most 0.6; a missing key raises KeyError |
| RuleBased.Normalized | algorithms/rule_based.py:82-84 | With a positive total every present weight becomes its share of the total (weight / total, so the three sum to 1), the same keys stay present; otherwise the weights are kept |
| RuleBased.DistanceScore | algorithms/rule_based.py:198-201 | The distance score lies in [-0.5, 0.5] for real distances |
| RuleBased.WaitScore | algorithms/rule_based.py:204-208 | The queue score lies in [-0.3, 0.5] |
| RuleBased.ScoresFallWithDistanceAndQueue | algorithms/rule_based.py:198-208 | A farther charger or a longer queue never scores better |
| RuleBased.PowerScore | algorithms/rule_based.py:219-223 | The power-match score lies in [-0.2, 0.4] |
| RuleBased.Emergency | algorithms/rule_based.py:230-232 | The emergency factor is 1, 1.2 or 1.5 |
| RuleBased.Softened | algorithms/rule_based.py:242-243 | In an emergency a satisfaction below -0.5 is softened to no less than -0.5 |
| RuleBased.UserScore | algorithms/rule_based.py:194-246 | The user satisfaction score lies in [-1, 1] |
| RuleBased.ProfitScore | algorithms/rule_based.py:249-288 | The operator profit score lies in [-1, 1] |
| RuleBased.GridScore | algorithms/rule_based.py:291-329 | The grid friendliness score lies in [-0.72, 1] |
| RuleBased.Threshold | algorithms/rule_based.py:100-106 | The SoC threshold stays within [15, 60] |
| RuleBased.Urgency | algorithms/rule_based.py:112-114 | Urgency lies in [0, 1]: 0.3 or 0 at or above the threshold depending on the flag, and the relative shortfall below it |
| RuleBased.Candidates | algorithms/rule_based.py:88-115 | The candidates are exactly the free users with an id who need or want a charge and lack at least the minimum amount |
| RuleBased.PriorityOrder | algorithms/rule_based.py:117 | After sorting, flagged users come first and, within a flag, urgency never increases |
| RuleBased.InitialLoads | algorithms/rule_based.py:122-128 | Each working charger starts with its occupant plus queue as load, failed chargers with none |
| RuleBased.Available | algorithms/rule_based.py:138-144 | The reachable chargers are exactly the working ones below the queue cap at a finite distance |
| RuleBased.Nearest | algorithms/rule_based.py:147-148 | Exactly min(limit, count) of the chargers are kept (Python slice length for a negative limit), each taken from the input no more often than it occurs there, in distance order, none farther than a dropped one |
| RuleBased.Boosted | algorithms/rule_based.py:158-160 | The boosts keep non-negative weights non-negative; a missing key raises KeyError |
| RuleBased.Combined | algorithms/rule_based.py:158-169 | With non-negative weights and sub-scores in [-1, 1] the combined score lies in [-1, 1]; incomplete weights raise KeyError |
| RuleBased.ScoreOf | algorithms/rule_based.py:150-173 | A charger's score is the combined score less the queue penalty |
| RuleBased.Pick | algorithms/rule_based.py:147-177 | A pick is one of the nearby chargers; nothing is picked only when none is nearby |
| RuleBased.PickIsBest | algorithms/rule_based.py:175-177 | The picked charger scores at least as well as every other nearby charger, and ties go to the first |
| RuleBased.Visit | algorithms/rule_based.py:130-184 | A user not yet decided gets a working charger below its cap |
| RuleBased.Assign | algorithms/rule_based.py:130-184 | Each user is decided at most once, only for working chargers |
| RuleBased.AssignFromCandidates | algorithms/rule_based.py:130-184 | Only candidates are decided |
| RuleBased.AssignCounts | algorithms/rule_based.py:182-184 | Each load counter grows by exactly the number of users assigned to its charger |
| RuleBased.AssignCapped | algorithms/rule_based.py:138-184 | A charger that receives a user ends within the period's queue cap |
| RuleBased.Schedule | algorithms/rule_based.py:15-190 | No timestamp, users or chargers gives no decisions; complete weights never raise; decisions name each wanting user at most once and working chargers only |
| RuleBased.ScheduleWithinCapacity | algorithms/rule_based.py:120-184 | A charger's load plus its new assignments stays within the period's queue limit |
| RuleBased.AssignSplit | algorithms/rule_based.py:130-184 | The pass over two candidate lists in a row is the pass over the first, then the pass over the second from the loads and assigned set it left; an error in the first ends the call |
| RuleBased.AssignInTurn | algorithms/rule_based.py:130-184 | The earlier candidates' decisions come first, and the next candidate, if placed, gets the charger visited at the loads those decisions built |
| RuleBased.AssignPlacesAdmissible | algorithms/rule_based.py:130-184 | The loads at a candidate's turn are the starting loads plus the earlier assignments, and a candidate not yet assigned with a nearby charger is placed at the charger picked at those loads |
| RuleBased.ScheduleRunsPass | algorithms/rule_based.py:88-190 | With a timestamp, users, chargers and complete time-adjusted weights, the call returns the error or the decisions of one pass over the priority-sorted candidates from the chargers' own loads |
| RuleBased.SchedulePlacesAdmissible | algorithms/rule_based.py:120-184 | In a successful call every candidate not yet assigned at its turn, with a nearby charger, is assigned the charger picked at the chargers' loads plus the earlier assignments |
| Uncoordinated.Candidates | algorithms/uncoordinated.py:33-46 | The candidates are exactly the free, positioned users below 50% or flagged |
| Uncoordinated.Operational | algorithms/uncoordinated.py:51-54 | The operational chargers are the non-failed ones with an id, one per id |
| Uncoordinated.Rate | algorithms/uncoordinated.py:72-89 | A charger is rated exactly when fewer than four users are ahead and it is at a finite distance |
| Uncoordinated.Choose | algorithms/uncoordinated.py:96-97 | A choice is an eligible charger, and there is none only when no charger is eligible |
| Uncoordinated.BestMinimal | algorithms/uncoordinated.py:96-97 | The head of the stable sort by score has the lowest score and beats every target listed before it strictly |
| Uncoordinated.TargetsMinimal | algorithms/uncoordinated.py:83-97 | The best possible target is a rated charger whose score is no higher than any rated charger's |
| Uncoordinated.ChooseMinimal | algorithms/uncoordinated.py:83-97 | The chosen charger has the lowest score, and an earlier charger with the same score would have won |
| Uncoordinated.TolerancePreserved | algorithms/uncoordinated.py:61 | Counting a user for a charger below the tolerance keeps every charger within it |
| Uncoordinated.Assign | algorithms/uncoordinated.py:63-102 | Each user is decided at most once, for an operational charger |
| Uncoordinated.AssignFromInput | algorithms/uncoordinated.py:63-102 | Only users of the input are decided |
| Uncoordinated.AssignCounts | algorithms/uncoordinated.py:100-102 | Each counter grows by exactly the users assigned to its charger |
| Uncoordinated.AssignWithinTolerance | algorithms/uncoordinated.py:61-102 | The pass keeps every charger within the queue tolerance |
| Uncoordinated.Schedule | algorithms/uncoordinated.py:14-105 | No users or chargers gives no decisions; decided users are distinct candidates and chargers are operational |
| Uncoordinated.ScheduleIsOnePass | algorithms/uncoordinated.py:27-63 | The early exits for no users, no candidates or no operational chargers give exactly what one pass over the shuffled candidates would |
| Uncoordinated.SchedulePlacesAdmissible | algorithms/uncoordinated.py:63-102 | A candidate with an id, not yet assigned and with an eligible charger at the counts the earlier candidates left, is assigned the charger chosen at those counts |
| Uncoordinated.AssignSplit | algorithms/uncoordinated.py:63-102 | The pass over two lists in a row is the pass over the first, then the pass over the second from the counts and assigned set it left |
| Uncoordinated.AssignInTurn | algorithms/uncoordinated.py:63-102 | The decisions for the earlier users come first, and the next one, if the user is placed, is that user at the charger chosen from the counts the earlier decisions built |
| Uncoordinated.AssignPlacesAdmissible | algorithms/uncoordinated.py:63-102 | The counts at a user's turn are the initial counts plus the earlier assignments, and an unassigned user with an id and an eligible charger is placed at the chosen one |
| Uncoordinated.ScheduleWithinTolerance | algorithms/uncoordinated.py:61-102 | A charger's load plus its new assignments stays within 4 |
| CoordinatedUser.Offers | algorithms/coordinated_mas.py:117-148 | The offers are exactly the reachable chargers with their weighted cost |
| CoordinatedUser.BestForUser | algorithms/coordinated_mas.py:107-154 | The recommended charger is reachable, there is none exactly when no charger is reachable, and it is the first of the cheapest offers |
| CoordinatedUser.BestForUserIsCheapest | algorithms/coordinated_mas.py:107-154 | The user agent's charger costs no more than any other reachable one |
| CoordinatedUser.UserRecommendations | algorithms/coordinated_mas.py:61-98 | Only users who seek a charge are recommended, once each, to working chargers |
| CoordinatedUser.UserRecommendationsSound | algorithms/coordinated_mas.py:81-95 | Every recommendation belongs to a user with that id who seeks a charge and names that user's cheapest reachable charger |
| CoordinatedUser.UserRecommendationsComplete | algorithms/coordinated_mas.py:81-95 | Every seeking user with a reachable charger is recommended its cheapest one |
| CoordinatedUser.UserAgent | algorithms/coordinated_mas.py:61-78 | No users, chargers or timestamp gives no recommendations |
| CoordinatedProfit.MostProfitable | algorithms/coordinated_mas.py:204-245 | In a peak or valley hour with a working charger the agent raises AttributeError; otherwise it returns the working charger of highest profit potential, the first of equal ones |
| CoordinatedProfit.ProfitRecommendations | algorithms/coordinated_mas.py:188-202 | The agent raises exactly when a target user exists and the hour is peak or valley with a working charger |
| CoordinatedProfit.ProfitAgentRaises | algorithms/coordinated_mas.py:161-245 | For a populated, timestamped state the profit agent fails exactly in peak or valley hours with a target user and a working charger |
| CoordinatedProfit.ProfitAgent | algorithms/coordinated_mas.py:161-202 | Successful recommendations name each user once and only working chargers |
| CoordinatedProfit.ProfitStep | algorithms/coordinated_mas.py:188-200 | One more user: a target's most profitable charger is recorded, every other user's entry kept, and a non-target leaves the dictionary unchanged |
| CoordinatedProfit.ProfitDecisionsSound | algorithms/coordinated_mas.py:188-200 | Every recommendation is the most profitable charger of a target user with that id |
| CoordinatedProfit.ProfitRecommendationsExact | algorithms/coordinated_mas.py:188-200 | With distinct ids each user is recommended the most profitable charger when a target with one, and nothing otherwise |
| CoordinatedProfit.ProfitAgentPlaces | algorithms/coordinated_mas.py:161-202 | With distinct ids the agent recommends each target its most profitable working charger and nothing to anyone else |
| CoordinatedGrid.Ranking | algorithms/coordinated_mas.py:284-296 | The ranked users are exactly the grid candidates with urgency 100 - soc |
| CoordinatedGrid.OpenChargers | algorithms/coordinated_mas.py:299-320 | The scored chargers are exactly the working ones with fewer than four ahead |
| CoordinatedGrid.FirstRoom | algorithms/coordinated_mas.py:330-341 | The first charger in score order that still has room is chosen |
| CoordinatedGrid.GridAssignWithinCap | algorithms/coordinated_mas.py:327-351 | The grid agent's pass never fills a charger beyond four |
| CoordinatedGrid.GridAgent | algorithms/coordinated_mas.py:253-357 | Grid recommendations name distinct grid candidates and open chargers only |
| CoordinatedGrid.GridAgentWithinCap | algorithms/coordinated_mas.py:299-351 | A charger's load plus the grid agent's assignments stays within 4 |
| CoordinatedGrid.GridCandidates | algorithms/coordinated_mas.py:284-296 | The ranked users are a permutation of the ranking, most urgent first, each id at most once, and users of equal urgency keep their dictionary order (the sort is stable) |
| CoordinatedGrid.GridAvailable | algorithms/coordinated_mas.py:299-323 | The available chargers are exactly the open ones, in dictionary order: the score is the same for every charger, so the stable sort moves nothing |
| CoordinatedGrid.RankingDistinct | algorithms/coordinated_mas.py:284-294 | Users with distinct ids give ranked entries with distinct ids |
| CoordinatedGrid.GridSplit | algorithms/coordinated_mas.py:327-351 | The pass over two lists in a row is the pass over the first, then over the second from the decisions, counters and available chargers it left |
| CoordinatedGrid.GridAssignKeeps | algorithms/coordinated_mas.py:327-351 | A user the pass does not visit keeps its entry |
| CoordinatedGrid.GridKeepsRoomy | algorithms/coordinated_mas.py:346-350 | A charger leaves the available list only once it is full |
| CoordinatedGrid.GridInTurn | algorithms/coordinated_mas.py:327-351 | At each user's turn, if a starting charger still has room the user is decided, at the first available charger with room at the counters the earlier users left |
| CoordinatedGrid.GridAgentIsPass | algorithms/coordinated_mas.py:253-357 | A complete snapshot's recommendations are one pass over the ranked users and the open chargers in score order |
| CoordinatedGrid.GridAgentPlaces | algorithms/coordinated_mas.py:327-351 | While an open charger has room at a user's turn, the agent sends that user to the first available charger in score order with room |
| CoordinatedMas.SetWeights | algorithms/coordinated_mas.py:367-378 | Weights off by more than 1e-6 from a positive total of 1 are rescaled proportionally to sum to 1; otherwise kept |
| CoordinatedMas.CoordinatorWeights | algorithms/coordinated_mas.py:45-47 | Configured weights go through set_weights, otherwise the defaults stay |
| CoordinatedMas.Choices | algorithms/coordinated_mas.py:405-413 | A user's votes come from at most three agents' recommendations |
| CoordinatedMas.Tallied | algorithms/coordinated_mas.py:422-428 | Each known charger's vote weight is the sum of the weights recommending it; unknown chargers get no vote |
| CoordinatedMas.AddVote | algorithms/coordinated_mas.py:422-426 | Adding a vote raises only its charger's weight, by the vote's weight |
| CoordinatedMas.AddVoteOrder | algorithms/coordinated_mas.py:422-426 | A charger already voted for keeps its place in the dictionary; a newly voted one is appended at the end |
| CoordinatedMas.TalliedInCastOrder | algorithms/coordinated_mas.py:422-428 | The tally lists the known chargers in the order their first vote was cast (user, profit, grid) |
| CoordinatedMas.Ballot | algorithms/coordinated_mas.py:436 | The ballot holds exactly the tallied votes, heaviest first, and votes of equal weight keep their tally order (the sort is stable) |
| CoordinatedMas.FirstAdmittedIsTop | algorithms/coordinated_mas.py:439-449 | The admitted charger carries the heaviest vote among the admissible ones |
| CoordinatedProperties.SettleTopVote | algorithms/coordinated_mas.py:422-449 | The settled charger has at least the vote of every admissible recommended charger |
| CoordinatedMas.SettleFirstHeaviest | algorithms/coordinated_mas.py:436-449 | The settled charger is that of an admitted tallied vote that weighs at least as much as every admitted vote and strictly more than every admitted vote before it in the tally |
| CoordinatedProperties.SettleTieBreak | algorithms/coordinated_mas.py:422-449 | An admitted known charger with the same total vote as the settled one comes no earlier in first-vote order: ties go to the charger voted for first |
| CoordinatedMas.Settle | algorithms/coordinated_mas.py:421-449 | A settled charger was recommended for the user, is working and has room; there is none exactly when no tallied charger is admitted |
| CoordinatedMas.AllUsers | algorithms/coordinated_mas.py:385-403 | The coordinator visits every recommended user once, in sorted order |
| CoordinatedMas.SeedCountsAreLoads | algorithms/coordinated_mas.py:394-399 | Each charger's count starts at its occupant plus queue |
| CoordinatedMas.ResolveCounts | algorithms/coordinated_mas.py:440-446 | Each count grows by exactly the users assigned to its charger |
| CoordinatedMas.ResolveCapped | algorithms/coordinated_mas.py:440-446 | A charger that receives a user ends within the cap of four |
| CoordinatedMas.ResolveHead | algorithms/coordinated_mas.py:405-449 | The first user gets what settling gives at the incoming counts, and the rest runs from the counts that decision leaves |
| CoordinatedMas.ResolveInTurn | algorithms/coordinated_mas.py:405-449 | Each user in id order gets exactly what settling gives at the counts the earlier users' decisions left |
| CoordinatedMas.ResolveConflictsInTurn | algorithms/coordinated_mas.py:392-449 | In the coordinator's pass each user gets exactly what settling gives at the seed counts plus the earlier decisions |
| CoordinatedMas.ResolveConflicts | algorithms/coordinated_mas.py:381-459 | No chargers gives no decisions; decisions go to recommended working chargers, users in sorted order |
| CoordinatedProperties.ResolveConflictsWithinCap | algorithms/coordinated_mas.py:381-459 | A charger's load plus its final assignments stays within 4 |
| CoordinatedProperties.ConflictsAreConflictedUsers | algorithms/coordinated_mas.py:418-419 | The conflict count is the number of users whose recommendations disagree |
| CoordinatedMas.MakeDecisions | algorithms/coordinated_mas.py:23-53 | The coordinated decisions fail exactly when the profit agent fails; otherwise users are sorted and chargers working |
| CoordinatedMas.MakeDecisionsInTurn | algorithms/coordinated_mas.py:23-53 | A successful call decides only users some agent recommended for, each exactly as settling gives at that user's turn |
| CoordinatedProperties.MakeDecisionsWithinCap | algorithms/coordinated_mas.py:23-53 | A charger's load plus the coordinated assignments stays within 4 |
| Marl.ChooseAction | algorithms/marl.py:27-56 | An empty map gives idle; exploitation picks a best-valued index and fails with IndexError when the map is longer than the row; the state's row is created |
| Marl.Draw | algorithms/marl.py:41-56 | Exploration returns any index of the map; exploitation one whose value is maximal |
| Marl.Update | algorithms/marl.py:58-76 | An index outside the action space changes nothing; otherwise only that entry moves toward reward + gamma × the next state's maximum, and new rows are zero |
| Marl.UpdateMovesTowardTarget | algorithms/marl.py:71-76 | With a learning rate in [0, 1] the updated value lies between the old value and the target |
| Marl.LoadRows | algorithms/marl.py:88-96 | Loading keeps exactly the stored rows of the right size |
| Marl.SaveLoadRoundTrip | algorithms/marl.py:84-112 | Loading a saved well-sized table gives it back |
| Marl.LoadCategory | algorithms/marl.py:141-143 | The load category is 0 up to 60%, 2 above 80% |
| Marl.RenewCategory | algorithms/marl.py:145-147 | The renewable category is 0 up to 20%, 2 above 50% |
| Marl.CategoriesMonotone | algorithms/marl.py:141-147 | Categories never fall as their input grows |
| Marl.DemandCount | algorithms/marl.py:150-161 | No nearby demand is counted exactly when no user is nearby, below 40% and free |
| Marl.DemandCountExact | algorithms/marl.py:150-161 | Over any prefix of the users, the count equals the number of positions holding a user that is free, below 40% and within 0.05° of the charger in both coordinates |
| Marl.DemandCountIsCardinality | algorithms/marl.py:150-161 | Over the whole list, the count is the number of users that are nearby demand |
| Marl.AgentStateOf | algorithms/marl.py:117-172 | A missing charger has no state; otherwise status, queue capped at 3, four-hour band, the load category of the grid load (50 when absent), the renewable category of the renewable ratio (0 when absent) and the demand count capped at 2 |
| Marl.NoAggregatesNoCategories | algorithms/marl.py:137-147 | Without grid aggregates the load and renewable categories are 0 |
| Marl.Reward | algorithms/marl.py:179-229 | A missing charger earns 0; an action that took its user onto a charger that was available earns 0.7 × the current price (0.8 when absent) plus the grid term, with no penalties; any other action earns the grid term plus the idle and failure penalties; rewards stay within the bonus, grid term and penalties' range |
| Marl.IdleEarnsNoBonus | algorithms/marl.py:200-218 | Staying idle never earns the assignment bonus |
| Marl.NewFailurePenalised | algorithms/marl.py:221-222 | A charger that has just failed is penalised at least 3 |
| Marl.MakeAgents | algorithms/marl.py:234-245 | Every agent carries the configured action-space size, learning rate, discount factor and exploration rate; its table is the stored table under its key, keeping only rows of the right size, and empty when none is stored |
| Marl.MakeAgentsKeys | algorithms/marl.py:241-242 | The agents' keys are exactly `CHARGER_0001` up to the charger count, one per charger |
| Marl.ChooseActions | algorithms/marl.py:247-306 | Actions exist exactly for chargers of the state that have an agent, one each, all at index 0 |
| Marl.ChooseActionsMiss | algorithms/marl.py:247-306 | With the environment's charger ids no action is chosen |
| Marl.Learn | algorithms/marl.py:309-368 | Learning keeps the agents, or raises TypeError exactly when a decided user is an agent key |
| Marl.LearnIsNoOp | algorithms/marl.py:309-368 | With the environment's user ids learning leaves the agents unchanged |
| Scheduler.Init | simulation/scheduler.py:36-93 | The configured algorithm is used, downgraded to rule_based when its subsystem cannot be built; the MAS and MARL parts exist exactly for their algorithms |
| Scheduler.SeekThreshold | simulation/scheduler.py:214-217 | The profile's seek threshold lies in [30, 50] |
| Scheduler.Urgency | simulation/scheduler.py:243 | Urgency lies in [0, 1] for a non-negative SoC |
| Scheduler.NormalizedDistance | simulation/scheduler.py:246 | Distances within the radius normalise into [0, 1] |
| Scheduler.PriorityBounded | simulation/scheduler.py:243-251 | A user's priority lies between 0 and the sum of the weights |
| Scheduler.Potentials | simulation/scheduler.py:201-257 | The potential users are exactly the mappable ones, with their priorities |
| Scheduler.Ranked | simulation/scheduler.py:262 | The ranking is a permutation of the potential users in non-increasing priority, and equal priorities keep the users list's order |
| Scheduler.ActionMapFor | simulation/scheduler.py:176-275 | Index 0 is idle; at most size - 1 users follow, all mappable; a missing or failed charger maps only idle |
| Scheduler.ActionMapInPriorityOrder | simulation/scheduler.py:262-272 | The map holds the min(size - 1, potentials) highest-priority users in ranking order |
| Scheduler.ActionMaps | simulation/scheduler.py:115-122 | There is one map per working charger with an id |
| Scheduler.FirstClaim | simulation/scheduler.py:293-319 | The first action claiming a user is found, or none claims it |
| Scheduler.Convert | simulation/scheduler.py:278-337 | Each claimed user is decided once, for the charger of its first claiming action |
| Scheduler.ConvertSound | simulation/scheduler.py:293-319 | Every decision comes from a non-idle action whose map names the user |
| Scheduler.MarlDecisions | simulation/scheduler.py:113-130 | MARL decisions name distinct users of the state and working chargers |
| Scheduler.MarlAssignsNobody | simulation/scheduler.py:113-130 | With the environment's charger ids the MARL scheduler decides nobody |
| Scheduler.Decide | simulation/scheduler.py:95-146 | An invalid state gives no decisions; otherwise no exception escapes and decisions name distinct users and working chargers |
| Scheduler.AttemptSound | simulation/scheduler.py:104-134 | Every algorithm's successful result names distinct users and working chargers |
| Scheduler.FailureFallsBack | simulation/scheduler.py:136-143 | A raising algorithm is replaced by the rule-based decisions, or none |
| Scheduler.UnknownAlgorithmRunsRuleBased | simulation/scheduler.py:132-134 | An unknown algorithm runs rule-based scheduling |
| Scheduler.ProfitAgentFailureRunsRuleBased | simulation/scheduler.py:109-143 | When the profit agent raises, the coordinated scheduler yields the rule-based decisions |
| Scheduler.Learn | simulation/scheduler.py:149-161 | Learning never changes the scheduler: only MARL learns, its errors are swallowed and a successful update is a no-op |
| Sorting.SortBySorted | simulation/scheduler.py:262 | The stable sort orders by key |
| Sorting.SortByStable | simulation/scheduler.py:262 | Elements with equal keys keep their input order |
| Sorting.SortByConstant | algorithms/coordinated_mas.py:323 | A stable sort by a key every element shares returns the list unchanged |
| Sorting.SortByFirstWhere | algorithms/coordinated_mas.py:436-440 | The first element of the stable sort passing a test is the input's first passing element of least key |
| Sorting.Shuffle | algorithms/uncoordinated.py:48 | Shuffling permutes the list |

## Left out

- File and network I/O are not modelled. This covers Q-table pickling (only
  the row filter of `load_q_table` is modelled), logging, the GUI, the web
  app and the training scripts.
- Population and charger generation (`_initialize_users`,
  `_initialize_chargers`) is not modelled: it is random set-up, not engine
  logic. The world is a parameter.
- The random draws are parameters, drawn in the ranges the source uses:
  route waypoints, timers, behaviour, road, weather and traffic factors,
  shuffle indices, exploration coins and the baseline's profit reduction.
- `math.sqrt` is an oracle. `math.exp` in the charging probability enters as
  the logistic value `sigmoid`.
- Python `datetime` and ISO timestamp strings are replaced by integer
  minutes from 2025-01-01. Parsing `simulation_start_datetime` is a foreign
  call: `Environment.Reset` receives its result. A start before 2025-01-01 or
  with seconds cannot be expressed.
- Floating point is exact real arithmetic. `round(x, 2/3)` in session
  records is not modelled.
- Session records are kept without the rounding of their figures.
- CoordinatedUser.Offers: the user agent's `{lat: 0, lng: 0}` default for an
  ABSENT position key is not modelled. A missing position is treated as an
  unknown position, which gives an infinite distance.
- RuleBased.Normalized: `optimization_weights` is modelled as its three known
  keys. Extra keys of a configured dictionary would enter the source's
  `sum(weights.values())` and be rescaled too; they cannot be expressed here,
  so the model's total is the three known weights only.
- Scheduler.MarlAgents: a negative configured action-space size is clamped to
  0, where numpy would raise.
- Scheduler.ActionMapFor: the action-space size that
  `_create_dynamic_action_map` also returns is not modelled, because no
  caller uses it.
- Marl.ChooseActions: the Q-table row that `choose_action` creates as a side
  effect is not carried back into the agents, because the scheduler's call
  discards the agents' tables before any later read.
- Marl.AgentStateOf: the state is a structured value rather than the string
  key of `_state_to_string`. Two states collide in the source exactly when
  they are equal here.
- Marl.Learn: the per-charger rewards `update_q_tables` computes from the
  decisions are never read. The update loop looks its agents up by user id,
  so with the decisions the scheduler passes it either skips every entry or
  fails first, and the rewards are not modelled.
- `save_q_tables` / `load_q_tables` on the scheduler are file I/O; their
  content round-trip is `Marl.SaveLoadRoundTrip`.
- The module-level `calculate_distance` fallbacks that return 10.0 when the
  utility import fails are not modelled; the import is taken to succeed.
- The older grid model (`grid_model_old.py`) and the standalone multi-agent
  and MARL component files are not part of this model.
