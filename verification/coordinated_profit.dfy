/** The operator-profit agent of the coordinated scheduler: each free user
    below 95% SoC is recommended the working charger of highest profit
    potential. */
module CoordinatedProfit {
  import opened Wrappers
  import opened Geo
  import opened Entities
  import opened Config
  import Clock
  import Names
  import Sorting
  import RuleBased
  import opened CoordinatedUser

  /** A user the profit agent considers: any user with an id, not charging
      or waiting, below 95% SoC. */
  predicate ProfitTarget(u: User) {
    u.id != "" && Free(u) && u.soc < 95.0
  }

  /** The profit potential of a charger for `u` at `price`: the typed price
      times the charger's multiplier, divided by one plus a quarter per
      queued user, with a bonus of up to 20% for the energy still needed. */
  function ProfitPotential(u: User, c: Charger, price: real): real {
    RuleBased.TypedPrice(c.kind, price * c.priceMultiplier) / (1.0 + |c.queue| as real * 0.25)
    * (1.0 + (100.0 - u.soc) / 50.0 * 0.1)
  }

  function Working(chargers: seq<Charger>): (r: seq<Charger>)
    ensures forall c :: c in r <==> c in chargers && c.status != Failure
    decreases |chargers|
  {
    if |chargers| == 0 then []
    else
      assert forall x :: x in chargers <==> x == chargers[0] || x in chargers[1..];
      (if chargers[0].status != Failure then [chargers[0]] else []) + Working(chargers[1..])
  }

  function Potentials(u: User, cs: seq<Charger>, price: real): (r: seq<real>)
    ensures |r| == |cs| && forall i :: 0 <= i < |cs| ==> r[i] == ProfitPotential(u, cs[i], price)
  {
    seq(|cs|, i requires 0 <= i < |cs| => ProfitPotential(u, cs[i], price))
  }

  /** `_find_most_profitable_charger`. In a peak or valley hour the price
      lookup reads `self.config`, which the agent never sets: the first
      charger that has not failed raises `AttributeError`. */
  function MostProfitable(u: User, chargers: seq<Charger>, price: real, hour: nat,
                          peak: seq<int>, valley: seq<int>): (r: Result<Option<Charger>>)
    ensures r.Err? <==> |Working(chargers)| > 0 && (hour in peak || hour in valley)
    ensures r.Err? ==> r.error.AttributeError?
    ensures r.Ok? ==> (r.value.None? <==> |Working(chargers)| == 0)
    ensures r.Ok? && r.value.Some? ==>
              r.value.value in chargers && r.value.value.status != Failure
              && forall c :: c in chargers && c.status != Failure ==>
                   ProfitPotential(u, c, price) <= ProfitPotential(u, r.value.value, price)
    ensures r.Ok? && r.value.Some? ==> FirstOfTies(u, Working(chargers), price, r.value.value)
  {
    var ws := Working(chargers);
    if |ws| == 0 then Ok(None)
    else if hour in peak || hour in valley then Err(AttributeError("config"))
    else
      var i := Sorting.FirstMax(Potentials(u, ws, price)).value;
      assert ws[i] in ws;
      assert forall c :: c in ws ==> ProfitPotential(u, c, price) <= ProfitPotential(u, ws[i], price) by {
        forall c | c in ws ensures ProfitPotential(u, c, price) <= ProfitPotential(u, ws[i], price) {
          var j :| 0 <= j < |ws| && ws[j] == c;
          assert Potentials(u, ws, price)[j] <= Potentials(u, ws, price)[i];
        }
      }
      Ok(Some(ws[i]))
  }

  /** `c` is the earliest of `ws` to reach its profit potential: the strict
      `>` of the scan keeps the first of equal scores. */
  ghost predicate FirstOfTies(u: User, ws: seq<Charger>, price: real, c: Charger) {
    exists i :: 0 <= i < |ws| && ws[i] == c
                && forall j :: 0 <= j < i ==> ProfitPotential(u, ws[j], price) < ProfitPotential(u, c, price)
  }

  /** The charger id the profit agent picks for `u`, when it picks one. */
  ghost predicate ProfitChoice(u: User, chargers: seq<Charger>, price: real, hour: nat,
                               peak: seq<int>, valley: seq<int>, cid: ChargerId) {
    var m := MostProfitable(u, chargers, price, hour, peak, valley);
    m.Ok? && m.value.Some? && m.value.value.id == cid
  }

  /** The profit recommendations over `users`, in order; the first error
      ends the call. */
  function ProfitRecommendations(users: seq<User>, chargers: seq<Charger>, price: real, hour: nat,
                                 peak: seq<int>, valley: seq<int>): (r: Result<Decisions>)
    ensures r.Err? <==> (exists u :: u in users && ProfitTarget(u))
                        && |Working(chargers)| > 0 && (hour in peak || hour in valley)
    ensures r.Err? ==> r.error.AttributeError?
    ensures r.Ok? ==> DistinctDecisionUsers(r.value)
    ensures r.Ok? ==> forall a :: a in r.value ==> a.charger in WorkingIds(chargers)
    decreases |users|
  {
    if |users| == 0 then Ok([])
    else
      var u := users[|users| - 1];
      assert forall x :: x in users <==> x in users[..|users| - 1] || x == u;
      match ProfitRecommendations(users[..|users| - 1], chargers, price, hour, peak, valley)
      case Err(e) => Err(e)
      case Ok(init) =>
        if !ProfitTarget(u) then Ok(init)
        else
          match MostProfitable(u, chargers, price, hour, peak, valley)
          case Err(e) => Err(e)
          case Ok(None) => Ok(init)
          case Ok(Some(c)) =>
            var r := Recorded(init, Assignment(u.id, c.id));
            assert forall a :: a in r ==> a.charger in WorkingIds(chargers) by {
              forall a | a in r ensures a.charger in WorkingIds(chargers) {
                ChargerOfUnique(r, a);
                if a.user != u.id {
                  assert ChargerOf(init, a.user) == Some(a.charger);
                }
              }
            }
            Ok(r)
  }

  /** `CoordinatedOperatorProfitAgent.make_decisions`, with the default peak
      and valley hours and a base price of 0.85. */
  function ProfitAgent(s: Snapshot): (r: Result<Decisions>)
    ensures |s.users| == 0 || |s.chargers| == 0 || s.timestamp.None? ==> r == Ok([])
    ensures r.Err? ==> r.error.AttributeError?
    ensures r.Ok? ==> DistinctDecisionUsers(r.value)
                      && forall a :: a in r.value ==> a.charger in WorkingIds(s.chargers)
  {
    if |s.users| == 0 || |s.chargers| == 0 || s.timestamp.None? then Ok([])
    else
      ProfitRecommendations(s.users, s.chargers, s.grid.price.GetOr(0.85), Clock.HourOf(s.timestamp.value),
                            s.grid.peakHours.GetOr(RuleBased.DefaultPeakHours),
                            s.grid.valleyHours.GetOr(RuleBased.DefaultValleyHours))
  }

  /** One more user: a target's most profitable charger is recorded over any
      earlier entry, every other user's recommendation is kept, and a user
      who is no target or has no charger leaves the dictionary as it was. */
  lemma ProfitStep(users: seq<User>, chargers: seq<Charger>, price: real, hour: nat,
                   peak: seq<int>, valley: seq<int>, uid: UserId)
    requires |users| > 0
    ensures var last := users[|users| - 1];
            var prev := ProfitRecommendations(users[..|users| - 1], chargers, price, hour, peak, valley);
            var r := ProfitRecommendations(users, chargers, price, hour, peak, valley);
            var m := MostProfitable(last, chargers, price, hour, peak, valley);
            r.Ok? ==>
              prev.Ok?
              && (last.id != uid ==> ChargerOf(r.value, uid) == ChargerOf(prev.value, uid))
              && (ProfitTarget(last) ==> m.Ok?)
              && (ProfitTarget(last) && m.Ok? && m.value.Some? ==> ChargerOf(r.value, last.id) == Some(m.value.value.id))
              && (!ProfitTarget(last) || m == Ok(None) ==> r == prev)
  {
  }

  /** Every recommendation is the most profitable charger of some target
      user with that id. */
  lemma {:induction false} ProfitDecisionsSound(users: seq<User>, chargers: seq<Charger>, price: real, hour: nat,
                                                peak: seq<int>, valley: seq<int>)
    ensures var r := ProfitRecommendations(users, chargers, price, hour, peak, valley);
            r.Ok? ==> forall a :: a in r.value ==>
                        exists u :: u in users && u.id == a.user && ProfitTarget(u)
                                    && ProfitChoice(u, chargers, price, hour, peak, valley, a.charger)
    decreases |users|
  {
    var r := ProfitRecommendations(users, chargers, price, hour, peak, valley);
    if |users| > 0 && r.Ok? {
      var init := users[..|users| - 1];
      var last := users[|users| - 1];
      var prev := ProfitRecommendations(init, chargers, price, hour, peak, valley);
      ProfitDecisionsSound(init, chargers, price, hour, peak, valley);
      forall a | a in r.value
        ensures exists u :: u in users && u.id == a.user && ProfitTarget(u)
                            && ProfitChoice(u, chargers, price, hour, peak, valley, a.charger)
      {
        ProfitStep(users, chargers, price, hour, peak, valley, a.user);
        ChargerOfUnique(r.value, a);
        var m := MostProfitable(last, chargers, price, hour, peak, valley);
        if a.user == last.id && ProfitTarget(last) && m.Ok? && m.value.Some? {
          assert users[|users| - 1] in users;
        } else {
          assert ChargerOf(prev.value, a.user) == Some(a.charger);
          var u :| u in init && u.id == a.user && ProfitTarget(u)
                   && ProfitChoice(u, chargers, price, hour, peak, valley, a.charger);
          assert u in users;
        }
      }
    }
  }

  /** With distinct user ids, a user's recommendation is exactly the most
      profitable charger when the user is a target and one exists, and
      there is none otherwise. */
  lemma {:induction false} ProfitRecommendationsExact(users: seq<User>, chargers: seq<Charger>, price: real,
                                                      hour: nat, peak: seq<int>, valley: seq<int>, u: User)
    requires DistinctUserIds(users) && u in users
    ensures var r := ProfitRecommendations(users, chargers, price, hour, peak, valley);
            var m := MostProfitable(u, chargers, price, hour, peak, valley);
            r.Ok? ==>
              (ProfitTarget(u) ==> m.Ok?)
              && ChargerOf(r.value, u.id)
                 == (if ProfitTarget(u) && m.Ok? && m.value.Some? then Some(m.value.value.id) else None)
    decreases |users|
  {
    var r := ProfitRecommendations(users, chargers, price, hour, peak, valley);
    var init := users[..|users| - 1];
    var last := users[|users| - 1];
    if r.Ok? {
      ProfitStep(users, chargers, price, hour, peak, valley, u.id);
      if u == last {
        LastUndecidedBefore(users, chargers, price, hour, peak, valley);
      } else {
        var i :| 0 <= i < |users| && users[i] == u;
        assert i < |users| - 1 && init[i] == u;
        ProfitRecommendationsExact(init, chargers, price, hour, peak, valley, u);
      }
    }
  }

  /** With distinct user ids the earlier users hold no recommendation for
      the last user's id. */
  lemma LastUndecidedBefore(users: seq<User>, chargers: seq<Charger>, price: real, hour: nat,
                            peak: seq<int>, valley: seq<int>)
    requires DistinctUserIds(users) && |users| > 0
    ensures var prev := ProfitRecommendations(users[..|users| - 1], chargers, price, hour, peak, valley);
            prev.Ok? ==> ChargerOf(prev.value, users[|users| - 1].id) == None
  {
    ProfitDecisionsSound(users[..|users| - 1], chargers, price, hour, peak, valley);
  }

  /** With distinct user ids, the profit agent recommends each user the most
      profitable working charger when the user is a target and a charger
      is working, and nothing otherwise. */
  lemma ProfitAgentPlaces(s: Snapshot, u: User)
    requires DistinctUserIds(s.users) && u in s.users && |s.chargers| > 0 && s.timestamp.Some?
    ensures var price := s.grid.price.GetOr(0.85);
            var hour := Clock.HourOf(s.timestamp.value);
            var peak := s.grid.peakHours.GetOr(RuleBased.DefaultPeakHours);
            var valley := s.grid.valleyHours.GetOr(RuleBased.DefaultValleyHours);
            var m := MostProfitable(u, s.chargers, price, hour, peak, valley);
            ProfitAgent(s).Ok? ==>
              (ProfitTarget(u) ==> m.Ok?)
              && ChargerOf(ProfitAgent(s).value, u.id)
                 == (if ProfitTarget(u) && m.Ok? && m.value.Some? then Some(m.value.value.id) else None)
  {
    ProfitRecommendationsExact(s.users, s.chargers, s.grid.price.GetOr(0.85), Clock.HourOf(s.timestamp.value),
                               s.grid.peakHours.GetOr(RuleBased.DefaultPeakHours),
                               s.grid.valleyHours.GetOr(RuleBased.DefaultValleyHours), u);
  }

  /** The agent raises exactly when the hour is a peak or valley hour, some
      user qualifies and some charger has not failed. */
  lemma ProfitAgentRaises(s: Snapshot)
    requires |s.users| > 0 && |s.chargers| > 0 && s.timestamp.Some?
    ensures ProfitAgent(s).Err? <==>
              (exists u :: u in s.users && ProfitTarget(u)) && (exists c :: c in s.chargers && c.status != Failure)
              && (Clock.HourOf(s.timestamp.value) in s.grid.peakHours.GetOr(RuleBased.DefaultPeakHours)
                  || Clock.HourOf(s.timestamp.value) in s.grid.valleyHours.GetOr(RuleBased.DefaultValleyHours))
  {
    var ws := Working(s.chargers);
    if exists c :: c in s.chargers && c.status != Failure {
      var c :| c in s.chargers && c.status != Failure;
      assert c in ws;
    }
    if |ws| > 0 {
      assert ws[0] in ws;
    }
  }
}
