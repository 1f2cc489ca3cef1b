/** The user-satisfaction agent of the coordinated scheduler: each user
    looking for a charge is recommended the reachable charger of least
    weighted cost. */
module CoordinatedUser {
  import opened Wrappers
  import opened Geo
  import opened Entities
  import opened Config
  import Clock
  import Names
  import Sorting
  import RuleBased

  /** The SoC below which the agent recommends: 35 from 06:00 to 21:59,
      45 at night. */
  function DayThreshold(hour: nat): real {
    if 6 <= hour < 22 then 35.0 else 45.0
  }

  /** A user the agent looks for a charger for. */
  predicate SeeksCharge(u: User, hour: nat) {
    u.id != "" && Free(u) && (u.needsCharge || u.soc < DayThreshold(hour)) && u.soc < 90.0
  }

  /** Expected wait in minutes: 10 per queued user at a fast charger, 20
      otherwise, plus half of that for an occupant. */
  function WaitMinutes(c: Charger): real {
    var per := if c.kind == "fast" then 10.0 else 20.0;
    |c.queue| as real * per + (if c.status == Occupied then per / 2.0 else 0.0)
  }

  /** The weighted cost of a charger `km` away: travel and waiting minutes
      weighted by time sensitivity, the charging bill over 50 weighted by
      price sensitivity. */
  function WeightedCost(u: User, c: Charger, km: real, price: real): real {
    var timeCost := km * 2.0 + WaitMinutes(c);
    var priceCost := u.batteryCapacity * (1.0 - u.soc / 100.0) * price * c.priceMultiplier / 50.0;
    timeCost * u.timeSensitivity + priceCost * u.priceSensitivity
  }

  /** A charger the user agent may recommend: not failed and at a finite
      distance. */
  predicate Reachable(u: User, c: Charger, sqrt: SqrtFn) {
    c.status != Failure && Distance(u.position, c.position, sqrt).Fin?
  }

  /** A reachable charger with its weighted cost. */
  datatype Offer = Offer(charger: Charger, cost: real)

  function Offers(u: User, chargers: seq<Charger>, price: real, sqrt: SqrtFn): (r: seq<Offer>)
    ensures forall o :: o in r ==>
              o.charger in chargers && Reachable(u, o.charger, sqrt)
              && o.cost == WeightedCost(u, o.charger, Distance(u.position, o.charger.position, sqrt).v, price)
    ensures forall c :: c in chargers && Reachable(u, c, sqrt) ==>
              Offer(c, WeightedCost(u, c, Distance(u.position, c.position, sqrt).v, price)) in r
    decreases |chargers|
  {
    if |chargers| == 0 then []
    else
      var c := chargers[0];
      var rest := Offers(u, chargers[1..], price, sqrt);
      assert forall x :: x in chargers <==> x == c || x in chargers[1..];
      (if Reachable(u, c, sqrt)
       then [Offer(c, WeightedCost(u, c, Distance(u.position, c.position, sqrt).v, price))] else [])
      + rest
  }

  function Costs(os: seq<Offer>): (r: seq<real>)
    ensures |r| == |os| && forall i :: 0 <= i < |os| ==> r[i] == os[i].cost
  {
    seq(|os|, i requires 0 <= i < |os| => os[i].cost)
  }

  /** `c` is the charger of the earliest offer reaching the least cost: the
      strict `<` of the scan keeps the first of equal costs. */
  ghost predicate FirstCheapest(os: seq<Offer>, c: Charger) {
    exists i :: 0 <= i < |os| && os[i].charger == c
                && (forall j :: 0 <= j < |os| ==> os[i].cost <= os[j].cost)
                && (forall j :: 0 <= j < i ==> os[i].cost < os[j].cost)
  }

  /** `_find_best_charger_for_user`: the first reachable charger of least
      weighted cost, or none when no charger is reachable. */
  function BestForUser(u: User, chargers: seq<Charger>, price: real, sqrt: SqrtFn): (r: Option<Charger>)
    ensures r.Some? ==> r.value in chargers && Reachable(u, r.value, sqrt)
    ensures r.None? <==> forall c :: c in chargers ==> !Reachable(u, c, sqrt)
    ensures r.Some? ==> FirstCheapest(Offers(u, chargers, price, sqrt), r.value)
  {
    var os := Offers(u, chargers, price, sqrt);
    match Sorting.FirstMin(Costs(os))
    case None =>
      None
    case Some(i) =>
      assert os[i] in os;
      Some(os[i].charger)
  }

  /** No reachable charger costs the user less than the recommended one. */
  lemma BestForUserIsCheapest(u: User, chargers: seq<Charger>, price: real, sqrt: SqrtFn, b: Charger, c: Charger)
    requires c in chargers
    ensures BestForUser(u, chargers, price, sqrt) == Some(b) && Reachable(u, c, sqrt)
            ==> WeightedCost(u, b, Distance(u.position, b.position, sqrt).v, price)
                <= WeightedCost(u, c, Distance(u.position, c.position, sqrt).v, price)
  {
    if BestForUser(u, chargers, price, sqrt) == Some(b) && Reachable(u, c, sqrt) {
      var os := Offers(u, chargers, price, sqrt);
      var i := Sorting.FirstMin(Costs(os)).value;
      assert os[i] in os;
      var o := Offer(c, WeightedCost(u, c, Distance(u.position, c.position, sqrt).v, price));
      assert o in os;
      var j :| 0 <= j < |os| && os[j] == o;
      assert Costs(os)[i] <= Costs(os)[j];
    }
  }

  /** The recommendations over `users`, in order; a repeated user id keeps
      its first position and the later recommendation. */
  function UserRecommendations(users: seq<User>, chargers: seq<Charger>, hour: nat, price: real,
                               sqrt: SqrtFn): (r: Decisions)
    ensures DistinctDecisionUsers(r)
    ensures forall uid :: uid in DecidedUsers(r) ==> exists u :: u in users && u.id == uid && SeeksCharge(u, hour)
    ensures forall a :: a in r ==> a.charger in WorkingIds(chargers)
    decreases |users|
  {
    if |users| == 0 then []
    else
      var init := UserRecommendations(users[..|users| - 1], chargers, hour, price, sqrt);
      var u := users[|users| - 1];
      if SeeksCharge(u, hour) && BestForUser(u, chargers, price, sqrt).Some? then
        var c := BestForUser(u, chargers, price, sqrt).value;
        RecordedChargersIn(init, Assignment(u.id, c.id), WorkingIds(chargers));
        SeekersOfPrefix(users, DecidedUsers(init), hour, {u.id});
        Recorded(init, Assignment(u.id, c.id))
      else
        SeekersOfPrefix(users, DecidedUsers(init), hour, {});
        init
  }

  /** Ids of seekers in a prefix are ids of seekers in the whole list. */
  lemma SeekersOfPrefix(users: seq<User>, ids: set<UserId>, hour: nat, extra: set<UserId>)
    requires |users| > 0
    requires forall uid :: uid in ids ==> exists u :: u in users[..|users| - 1] && u.id == uid && SeeksCharge(u, hour)
    requires extra == {} || (extra == {users[|users| - 1].id} && SeeksCharge(users[|users| - 1], hour))
    ensures forall uid :: uid in ids + extra ==> exists u :: u in users && u.id == uid && SeeksCharge(u, hour)
  {
    forall uid | uid in ids + extra ensures exists u :: u in users && u.id == uid && SeeksCharge(u, hour) {
      if uid in ids {
        var u :| u in users[..|users| - 1] && u.id == uid && SeeksCharge(u, hour);
        assert u in users;
      } else {
        assert users[|users| - 1] in users;
      }
    }
  }

  /** `CoordinatedUserSatisfactionAgent.make_decision`. */
  function UserAgent(s: Snapshot, sqrt: SqrtFn): (r: Decisions)
    ensures |s.users| == 0 || |s.chargers| == 0 || s.timestamp.None? ==> r == []
    ensures DistinctDecisionUsers(r)
    ensures forall a :: a in r ==> a.charger in WorkingIds(s.chargers)
  {
    if |s.users| == 0 || |s.chargers| == 0 || s.timestamp.None? then []
    else UserRecommendations(s.users, s.chargers, Clock.HourOf(s.timestamp.value), s.grid.price.GetOr(0.85), sqrt)
  }

  /** One more user: their recommendation is recorded, and every other
      user's is kept. */
  lemma RecommendationsStep(users: seq<User>, chargers: seq<Charger>, hour: nat, price: real,
                            sqrt: SqrtFn, uid: UserId)
    requires |users| > 0
    ensures var last := users[|users| - 1];
            var prev := UserRecommendations(users[..|users| - 1], chargers, hour, price, sqrt);
            var r := UserRecommendations(users, chargers, hour, price, sqrt);
            (last.id != uid ==> ChargerOf(r, uid) == ChargerOf(prev, uid))
            && (SeeksCharge(last, hour) && BestForUser(last, chargers, price, sqrt).Some? ==>
                  ChargerOf(r, last.id) == Some(BestForUser(last, chargers, price, sqrt).value.id))
  {
    var last := users[|users| - 1];
    var prev := UserRecommendations(users[..|users| - 1], chargers, hour, price, sqrt);
    var best := BestForUser(last, chargers, price, sqrt);
    if SeeksCharge(last, hour) && best.Some? {
      assert UserRecommendations(users, chargers, hour, price, sqrt)
             == Recorded(prev, Assignment(last.id, best.value.id));
    } else {
      assert UserRecommendations(users, chargers, hour, price, sqrt) == prev;
    }
  }

  /** Every recommendation is the cheapest reachable charger of some user
      with that id whom the agent looks for a charger for. */
  lemma {:induction false} UserRecommendationsSound(users: seq<User>, chargers: seq<Charger>, hour: nat,
                                                    price: real, sqrt: SqrtFn)
    ensures forall a :: a in UserRecommendations(users, chargers, hour, price, sqrt) ==>
              exists u :: u in users && u.id == a.user && SeeksCharge(u, hour)
                          && BestForUser(u, chargers, price, sqrt).Some?
                          && BestForUser(u, chargers, price, sqrt).value.id == a.charger
    decreases |users|
  {
    var r := UserRecommendations(users, chargers, hour, price, sqrt);
    if |users| > 0 {
      var init := users[..|users| - 1];
      var last := users[|users| - 1];
      var prev := UserRecommendations(init, chargers, hour, price, sqrt);
      UserRecommendationsSound(init, chargers, hour, price, sqrt);
      forall a | a in r
        ensures exists u :: u in users && u.id == a.user && SeeksCharge(u, hour)
                            && BestForUser(u, chargers, price, sqrt).Some?
                            && BestForUser(u, chargers, price, sqrt).value.id == a.charger
      {
        RecommendationsStep(users, chargers, hour, price, sqrt, a.user);
        ChargerOfUnique(r, a);
        if a.user == last.id && SeeksCharge(last, hour) && BestForUser(last, chargers, price, sqrt).Some? {
          assert users[|users| - 1] in users;
        } else {
          assert ChargerOf(prev, a.user) == Some(a.charger);
          var u :| u in init && u.id == a.user && SeeksCharge(u, hour)
                   && BestForUser(u, chargers, price, sqrt).Some?
                   && BestForUser(u, chargers, price, sqrt).value.id == a.charger;
          assert u in users;
        }
      }
    }
  }

  /** With distinct user ids every user the agent looks for a charger for,
      and who can reach one, is recommended the cheapest. */
  lemma {:induction false} UserRecommendationsComplete(users: seq<User>, chargers: seq<Charger>, hour: nat,
                                                       price: real, sqrt: SqrtFn, u: User)
    requires DistinctUserIds(users) && u in users && SeeksCharge(u, hour)
    ensures BestForUser(u, chargers, price, sqrt).Some? ==>
              ChargerOf(UserRecommendations(users, chargers, hour, price, sqrt), u.id)
              == Some(BestForUser(u, chargers, price, sqrt).value.id)
    decreases |users|
  {
    var init := users[..|users| - 1];
    var last := users[|users| - 1];
    RecommendationsStep(users, chargers, hour, price, sqrt, u.id);
    if u != last {
      assert u in init by {
        var i :| 0 <= i < |users| && users[i] == u;
        assert i < |users| - 1;
        assert init[i] == u;
      }
      assert last.id != u.id by {
        var i :| 0 <= i < |init| && init[i] == u;
        assert users[i] == u;
      }
      UserRecommendationsComplete(init, chargers, hour, price, sqrt, u);
    }
  }
}
