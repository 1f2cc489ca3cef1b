/** The uncoordinated baseline scheduler: users who want to charge, in a
    random order, each pick the charger with the lowest distance/queue score
    among those whose queue they would tolerate (fewer than 4 ahead,
    counting the assignments already made in this pass). */
module Uncoordinated {
  import opened Wrappers
  import opened Geo
  import opened Entities
  import Sorting

  /** The largest number of users ahead an uncoordinated user tolerates. */
  const MaxQueue: nat := 4

  /** A user that may be sent to charge: not charging or waiting, flagged or
      below 50% SoC, and with a position. */
  predicate Candidate(u: User) {
    Free(u) && (u.needsCharge || u.soc < 50.0) && u.position.Some?
  }

  /** The ids of the candidate users. */
  function CandidateIds(users: seq<User>): set<UserId> {
    set u | u in users && Candidate(u) :: u.id
  }

  function Candidates(users: seq<User>): (r: seq<User>)
    ensures forall u :: u in r <==> u in users && Candidate(u)
  {
    if |users| == 0 then []
    else
      var rest := Candidates(users[1..]);
      assert forall u :: u in users <==> u == users[0] || u in users[1..];
      (if Candidate(users[0]) then [users[0]] else []) + rest
  }

  /** Has a (truthy) id and has not failed. */
  predicate Operating(c: Charger) {
    c.id != "" && c.status != Failure
  }

  /** The operational chargers keyed by id: those with a non-empty id that
      have not failed, a later charger replacing an earlier one with the same
      id. */
  function Operational(chargers: seq<Charger>): (r: seq<Charger>)
    ensures DistinctChargerIds(r)
    ensures forall c :: c in r ==> c in chargers && Operating(c)
    ensures forall c :: c in chargers && Operating(c) ==> c.id in ChargerIds(r)
    decreases |chargers|
  {
    if |chargers| == 0 then []
    else
      var init := Operational(chargers[..|chargers| - 1]);
      var c := chargers[|chargers| - 1];
      assert forall x :: x in chargers <==> x in chargers[..|chargers| - 1] || x == c;
      if Operating(c) then PutCharger(init, c) else init
  }

  /** Users already ahead at `c`: its occupant, its queue, and this pass's assignments. */
  function Waiting(c: Charger, counts: map<ChargerId, nat>): nat {
    Load(c) + Tally(counts, c.id)
  }

  /** A charger is considered when fewer than 4 users are ahead and its
      distance is finite. */
  predicate Eligible(u: User, c: Charger, counts: map<ChargerId, nat>, sqrt: SqrtFn) {
    Waiting(c, counts) < MaxQueue && Distance(u.position, c.position, sqrt).Fin?
  }

  /** Distance alone below 20% SoC; otherwise 0.7 of the distance plus 5 per
      user ahead. */
  function Score(soc: real, dist: real, waiting: nat): real {
    if soc < 20.0 then dist else dist * 0.7 + waiting as real * 5.0
  }

  /** The score of `c` for `u`, or `None` when `c` is not eligible. */
  function Rate(u: User, c: Charger, counts: map<ChargerId, nat>, sqrt: SqrtFn): (r: Option<real>)
    ensures r.Some? <==> Eligible(u, c, counts, sqrt)
  {
    if Eligible(u, c, counts, sqrt)
    then Some(Score(u.soc, Distance(u.position, c.position, sqrt).v, Waiting(c, counts)))
    else None
  }

  /** The ratings of every charger, index by index. */
  function Ratings(u: User, cs: seq<Charger>, counts: map<ChargerId, nat>, sqrt: SqrtFn)
    : (r: seq<Option<real>>)
    ensures |r| == |cs| && forall j :: 0 <= j < |cs| ==> r[j] == Rate(u, cs[j], counts, sqrt)
  {
    seq(|cs|, j requires 0 <= j < |cs| => Rate(u, cs[j], counts, sqrt))
  }

  /** A possible target: a charger's index in the list and its score. */
  datatype Target = Target(index: nat, score: real)

  /** The possible targets among ratings `rs[i..]`, in list order. */
  function TargetsFrom(rs: seq<Option<real>>, i: nat): (r: seq<Target>)
    requires i <= |rs|
    ensures forall k :: 0 <= k < |r| ==>
              i <= r[k].index < |rs| && rs[r[k].index] == Some(r[k].score)
    ensures forall k, l :: 0 <= k < l < |r| ==> r[k].index < r[l].index
    ensures |r| == 0 ==> forall j :: i <= j < |rs| ==> rs[j].None?
    decreases |rs| - i
  {
    if i == |rs| then []
    else
      var rest := TargetsFrom(rs, i + 1);
      if rs[i].Some? then
        var r := [Target(i, rs[i].value)] + rest;
        assert r[1..] == rest;
        r
      else rest
  }

  /** Every rated index from `i` on is the index of some target. */
  lemma {:induction false} TargetAt(rs: seq<Option<real>>, i: nat, j: nat) returns (m: nat)
    requires i <= j < |rs| && rs[j].Some?
    ensures m < |TargetsFrom(rs, i)| && TargetsFrom(rs, i)[m].index == j
    decreases |rs| - i
  {
    var ts := TargetsFrom(rs, i);
    var rest := TargetsFrom(rs, i + 1);
    if j == i {
      assert ts == [Target(i, rs[i].value)] + rest;
      m := 0;
    } else {
      var m' := TargetAt(rs, i + 1, j);
      if rs[i].Some? {
        assert ts == [Target(i, rs[i].value)] + rest;
        m := m' + 1;
      } else {
        assert ts == rest;
        m := m';
      }
    }
  }

  /** `possible_targets.sort(key=score)[0]`: the first target after a
      stable sort by score. */
  function Best(ts: seq<Target>): (t: Target)
    requires |ts| > 0
    ensures t in ts
  {
    var sorted := Sorting.SortBy(ts, (t: Target) => t.score);
    assert sorted[0] in multiset(ts);
    sorted[0]
  }

  /** The best target has the lowest score, and a strictly lower one than
      every target listed before it. */
  lemma BestMinimal(ts: seq<Target>, m: nat)
    requires m < |ts|
    requires forall k, l :: 0 <= k < l < |ts| ==> ts[k].index < ts[l].index
    ensures Best(ts).score <= ts[m].score
    ensures ts[m].index < Best(ts).index ==> Best(ts).score < ts[m].score
  {
    var k := Sorting.SortByHead(ts, (t: Target) => t.score);
    assert ts[k] == Best(ts);
    if ts[m].index < Best(ts).index {
      assert m < k;
    }
  }

  /** Among ratings `rs`, the best target scores no more than any rated
      index, and strictly less than every rated index before it. */
  lemma TargetsMinimal(rs: seq<Option<real>>, j: nat)
    requires j < |rs| && rs[j].Some?
    ensures var ts := TargetsFrom(rs, 0);
            |ts| > 0 && Best(ts).index < |rs| && rs[Best(ts).index] == Some(Best(ts).score)
            && Best(ts).score <= rs[j].value
            && (j < Best(ts).index ==> Best(ts).score < rs[j].value)
  {
    var ts := TargetsFrom(rs, 0);
    var m := TargetAt(rs, 0, j);
    var b := Best(ts);
    var k :| 0 <= k < |ts| && ts[k] == b;
    assert b.index < |rs| && rs[b.index] == Some(b.score);
    assert rs[j] == Some(ts[m].score);
    BestMinimal(ts, m);
  }

  /** The index of the chosen charger. */
  function Choose(u: User, cs: seq<Charger>, counts: map<ChargerId, nat>, sqrt: SqrtFn): (r: Option<nat>)
    ensures r.Some? ==> r.value < |cs| && Eligible(u, cs[r.value], counts, sqrt)
    ensures r.None? <==> forall j :: 0 <= j < |cs| ==> !Eligible(u, cs[j], counts, sqrt)
  {
    var ts := TargetsFrom(Ratings(u, cs, counts, sqrt), 0);
    if |ts| == 0 then None else Some(Best(ts).index)
  }

  /** The charger chosen has the lowest score of all eligible chargers, and
      a strictly lower one than every eligible charger listed before it: a
      tie goes to the first charger in dictionary order (the sort is stable). */
  lemma ChooseMinimal(u: User, cs: seq<Charger>, counts: map<ChargerId, nat>, sqrt: SqrtFn, j: nat)
    requires j < |cs| && Eligible(u, cs[j], counts, sqrt)
    ensures Choose(u, cs, counts, sqrt).Some?
    ensures var i := Choose(u, cs, counts, sqrt).value;
            Rate(u, cs[i], counts, sqrt).value <= Rate(u, cs[j], counts, sqrt).value
            && (j < i ==> Rate(u, cs[i], counts, sqrt).value < Rate(u, cs[j], counts, sqrt).value)
  {
    var rs := Ratings(u, cs, counts, sqrt);
    TargetsMinimal(rs, j);
    var b := Best(TargetsFrom(rs, 0));
    assert Choose(u, cs, counts, sqrt) == Some(b.index);
    assert rs[b.index] == Rate(u, cs[b.index], counts, sqrt);
    assert rs[j] == Rate(u, cs[j], counts, sqrt);
  }

  /** No charger whose count this pass raised has more than 4 users ahead. */
  ghost predicate WithinTolerance(cs: seq<Charger>, counts: map<ChargerId, nat>) {
    forall j :: 0 <= j < |cs| ==> Tally(counts, cs[j].id) == 0 || Waiting(cs[j], counts) <= MaxQueue
  }

  /** Counting one more assignment to a charger that had fewer than 4 users
      ahead keeps every charger within tolerance. */
  lemma TolerancePreserved(cs: seq<Charger>, counts: map<ChargerId, nat>, i: nat)
    requires DistinctChargerIds(cs) && i < |cs| && Waiting(cs[i], counts) < MaxQueue
    ensures WithinTolerance(cs, counts) ==> WithinTolerance(cs, Bump(counts, cs[i].id))
  {
    var counts' := Bump(counts, cs[i].id);
    if WithinTolerance(cs, counts) {
      forall j | 0 <= j < |cs|
        ensures Tally(counts', cs[j].id) == 0 || Waiting(cs[j], counts') <= MaxQueue
      {
        if j != i { assert cs[j].id != cs[i].id; }
      }
    }
  }

  /** The charger index chosen for `u`, if `u` has an id, is not assigned
      yet and has an eligible charger. */
  function Visit(u: User, cs: seq<Charger>, counts: map<ChargerId, nat>,
                 taken: set<UserId>, sqrt: SqrtFn): (r: Option<nat>)
    ensures r.Some? ==> u.id != "" && u.id !in taken
                        && r.value < |cs| && Waiting(cs[r.value], counts) < MaxQueue
  {
    if u.id == "" || u.id in taken then None else Choose(u, cs, counts, sqrt)
  }

  /** The pass over the shuffled candidates. `taken` holds the users
      already given a charger; the result carries the updated counts. */
  function Assign(us: seq<User>, cs: seq<Charger>, counts: map<ChargerId, nat>,
                  taken: set<UserId>, sqrt: SqrtFn): (r: (Decisions, map<ChargerId, nat>))
    ensures DecidedUsers(r.0) !! taken && "" !in DecidedUsers(r.0)
    ensures DistinctDecisionUsers(r.0)
    ensures forall a :: a in r.0 ==> a.charger in ChargerIds(cs)
    decreases |us|
  {
    if |us| == 0 then ([], counts)
    else
      var u := us[0];
      match Visit(u, cs, counts, taken, sqrt)
      case None => Assign(us[1..], cs, counts, taken, sqrt)
      case Some(i) =>
        var rest := Assign(us[1..], cs, Bump(counts, cs[i].id), taken + {u.id}, sqrt);
        assert cs[i] in cs;
        Prepend(Assignment(u.id, cs[i].id), rest.0);
        ([Assignment(u.id, cs[i].id)] + rest.0, rest.1)
  }

  /** The pass is a left-to-right scan: running it over `xs + ys` runs it
      over `xs`, then over `ys` from the counts and the assigned users that
      `xs` left behind. */
  lemma {:induction false} AssignSplit(xs: seq<User>, ys: seq<User>, cs: seq<Charger>,
                                       counts: map<ChargerId, nat>, taken: set<UserId>, sqrt: SqrtFn)
    ensures var p := Assign(xs, cs, counts, taken, sqrt);
            var q := Assign(ys, cs, p.1, taken + DecidedUsers(p.0), sqrt);
            Assign(xs + ys, cs, counts, taken, sqrt) == (p.0 + q.0, q.1)
    decreases |xs|, 1
  {
    if |xs| == 0 {
      var q := Assign(ys, cs, counts, taken, sqrt);
      assert xs + ys == ys;
      assert Assign(xs, cs, counts, taken, sqrt) == ([], counts);
      assert taken + DecidedUsers([]) == taken;
      assert [] + q.0 == q.0;
    } else if Visit(xs[0], cs, counts, taken, sqrt).None? {
      SplitSkip(xs, ys, cs, counts, taken, sqrt);
    } else {
      SplitPlace(xs, ys, cs, counts, taken, sqrt);
    }
  }

  /** `AssignSplit` when the first user is skipped. */
  lemma {:induction false} SplitSkip(xs: seq<User>, ys: seq<User>, cs: seq<Charger>,
                                     counts: map<ChargerId, nat>, taken: set<UserId>, sqrt: SqrtFn)
    requires |xs| > 0 && Visit(xs[0], cs, counts, taken, sqrt).None?
    ensures var p := Assign(xs, cs, counts, taken, sqrt);
            var q := Assign(ys, cs, p.1, taken + DecidedUsers(p.0), sqrt);
            Assign(xs + ys, cs, counts, taken, sqrt) == (p.0 + q.0, q.1)
    decreases |xs|, 0
  {
    var zs := xs + ys;
    assert zs[0] == xs[0] && zs[1..] == xs[1..] + ys;
    assert Assign(zs, cs, counts, taken, sqrt) == Assign(xs[1..] + ys, cs, counts, taken, sqrt);
    assert Assign(xs, cs, counts, taken, sqrt) == Assign(xs[1..], cs, counts, taken, sqrt);
    AssignSplit(xs[1..], ys, cs, counts, taken, sqrt);
  }

  /** `AssignSplit` when the first user is placed. */
  lemma {:induction false} SplitPlace(xs: seq<User>, ys: seq<User>, cs: seq<Charger>,
                                      counts: map<ChargerId, nat>, taken: set<UserId>, sqrt: SqrtFn)
    requires |xs| > 0 && Visit(xs[0], cs, counts, taken, sqrt).Some?
    ensures var p := Assign(xs, cs, counts, taken, sqrt);
            var q := Assign(ys, cs, p.1, taken + DecidedUsers(p.0), sqrt);
            Assign(xs + ys, cs, counts, taken, sqrt) == (p.0 + q.0, q.1)
    decreases |xs|, 0
  {
    var u := xs[0];
    var i := Visit(u, cs, counts, taken, sqrt).value;
    var zs := xs + ys;
    assert zs[0] == u && zs[1..] == xs[1..] + ys;
    var a := Assignment(u.id, cs[i].id);
    var counts', taken' := Bump(counts, cs[i].id), taken + {u.id};
    var p' := Assign(xs[1..], cs, counts', taken', sqrt);
    var rest := Assign(xs[1..] + ys, cs, counts', taken', sqrt);
    assert Assign(zs, cs, counts, taken, sqrt) == ([a] + rest.0, rest.1);
    assert Assign(xs, cs, counts, taken, sqrt) == ([a] + p'.0, p'.1);
    AssignSplit(xs[1..], ys, cs, counts', taken', sqrt);
    DecidedCons(a, p'.0);
    assert taken' + DecidedUsers(p'.0) == taken + DecidedUsers([a] + p'.0);
    var q := Assign(ys, cs, p'.1, taken' + DecidedUsers(p'.0), sqrt);
    ConsAfterSplit(a, p'.0, q.0, q.1, rest);
  }

  /** Putting one decision in front of a split pass's result. */
  lemma ConsAfterSplit(a: Assignment, p: Decisions, q: Decisions, counts: map<ChargerId, nat>,
                       rest: (Decisions, map<ChargerId, nat>))
    requires rest == (p + q, counts)
    ensures ([a] + rest.0, rest.1) == (([a] + p) + q, counts)
  {
    assert [a] + (p + q) == ([a] + p) + q;
  }

  /** The first user's turn: a placed user's decision comes first. */
  lemma AssignHead(vs: seq<User>, cs: seq<Charger>, counts: map<ChargerId, nat>,
                   taken: set<UserId>, sqrt: SqrtFn)
    requires |vs| > 0
    ensures var v := Visit(vs[0], cs, counts, taken, sqrt);
            var r := Assign(vs, cs, counts, taken, sqrt);
            v.Some? ==> |r.0| > 0 && r.0[0] == Assignment(vs[0].id, cs[v.value].id)
  {
  }

  /** Each user's turn, at the counts and assigned users left by the users
      before it: the decisions made before it stay in front, and a user its
      turn places gets the next decision, naming the charger `Choose` picks
      at those counts. */
  lemma AssignInTurn(us: seq<User>, cs: seq<Charger>, counts: map<ChargerId, nat>,
                     taken: set<UserId>, sqrt: SqrtFn, j: nat)
    requires j < |us|
    ensures var r := Assign(us, cs, counts, taken, sqrt);
            var p := Assign(us[..j], cs, counts, taken, sqrt);
            var v := Visit(us[j], cs, p.1, taken + DecidedUsers(p.0), sqrt);
            |p.0| <= |r.0| && r.0[..|p.0|] == p.0
            && (v.Some? ==> |p.0| < |r.0| && r.0[|p.0|] == Assignment(us[j].id, cs[Choose(us[j], cs, p.1, sqrt).value].id))
  {
    var p := Assign(us[..j], cs, counts, taken, sqrt);
    var t := taken + DecidedUsers(p.0);
    assert us == us[..j] + us[j..];
    AssignSplit(us[..j], us[j..], cs, counts, taken, sqrt);
    var q := Assign(us[j..], cs, p.1, t, sqrt);
    assert Assign(us, cs, counts, taken, sqrt).0 == p.0 + q.0;
    assert us[j..][0] == us[j];
    AssignHead(us[j..], cs, p.1, t, sqrt);
  }

  /** A user whose turn comes with an id, not yet assigned and with an
      eligible charger at the counts left by the users before it is always
      placed, at the charger `Choose` picks; those counts are the starting
      counts plus the decisions made before it. */
  lemma AssignPlacesAdmissible(us: seq<User>, cs: seq<Charger>, counts: map<ChargerId, nat>,
                               taken: set<UserId>, sqrt: SqrtFn, j: nat, k: ChargerId)
    requires j < |us|
    ensures var r := Assign(us, cs, counts, taken, sqrt);
            var p := Assign(us[..j], cs, counts, taken, sqrt);
            Tally(p.1, k) == Tally(counts, k) + AssignedTo(p.0, k)
            && (us[j].id != "" && us[j].id !in taken + DecidedUsers(p.0)
                && (exists i :: 0 <= i < |cs| && Eligible(us[j], cs[i], p.1, sqrt))
                ==> Assignment(us[j].id, cs[Choose(us[j], cs, p.1, sqrt).value].id) in r.0)
  {
    var r := Assign(us, cs, counts, taken, sqrt);
    var p := Assign(us[..j], cs, counts, taken, sqrt);
    AssignCounts(us[..j], cs, counts, taken, sqrt, k);
    AssignInTurn(us, cs, counts, taken, sqrt, j);
    if us[j].id != "" && us[j].id !in taken + DecidedUsers(p.0)
       && (exists i :: 0 <= i < |cs| && Eligible(us[j], cs[i], p.1, sqrt)) {
      assert Visit(us[j], cs, p.1, taken + DecidedUsers(p.0), sqrt).Some?;
      assert r.0[|p.0|] in r.0;
    }
  }

  /** Every user the pass assigns is one of the users it was given. */
  lemma {:induction false} AssignFromInput(us: seq<User>, cs: seq<Charger>, counts: map<ChargerId, nat>,
                                           taken: set<UserId>, sqrt: SqrtFn)
    ensures DecidedUsers(Assign(us, cs, counts, taken, sqrt).0) <= UserIds(us)
    decreases |us|
  {
    if |us| > 0 {
      var u := us[0];
      assert UserIds(us[1..]) <= UserIds(us) by {
        assert forall x :: x in us[1..] ==> x in us;
      }
      assert u in us;
      match Visit(u, cs, counts, taken, sqrt)
      case None =>
        AssignFromInput(us[1..], cs, counts, taken, sqrt);
      case Some(i) =>
        var rest := Assign(us[1..], cs, Bump(counts, cs[i].id), taken + {u.id}, sqrt);
        AssignFromInput(us[1..], cs, Bump(counts, cs[i].id), taken + {u.id}, sqrt);
        Prepend(Assignment(u.id, cs[i].id), rest.0);
    }
  }

  /** The counts the pass returns are the initial counts plus the decisions
      it made, charger by charger. */
  lemma {:induction false} AssignCounts(us: seq<User>, cs: seq<Charger>, counts: map<ChargerId, nat>,
                                        taken: set<UserId>, sqrt: SqrtFn, k: ChargerId)
    ensures var r := Assign(us, cs, counts, taken, sqrt);
            Tally(r.1, k) == Tally(counts, k) + AssignedTo(r.0, k)
    decreases |us|
  {
    if |us| > 0 {
      var u := us[0];
      match Visit(u, cs, counts, taken, sqrt)
      case None =>
        AssignCounts(us[1..], cs, counts, taken, sqrt, k);
      case Some(i) =>
        var rest := Assign(us[1..], cs, Bump(counts, cs[i].id), taken + {u.id}, sqrt);
        AssignCounts(us[1..], cs, Bump(counts, cs[i].id), taken + {u.id}, sqrt, k);
        Prepend(Assignment(u.id, cs[i].id), rest.0);
    }
  }

  /** The pass never sends a user to a charger that already has 4 users
      ahead: every charger it assigns to ends with at most 4. */
  lemma {:induction false} AssignWithinTolerance(us: seq<User>, cs: seq<Charger>,
                                                 counts: map<ChargerId, nat>, taken: set<UserId>, sqrt: SqrtFn)
    requires DistinctChargerIds(cs) && WithinTolerance(cs, counts)
    ensures WithinTolerance(cs, Assign(us, cs, counts, taken, sqrt).1)
    decreases |us|
  {
    if |us| > 0 {
      var u := us[0];
      match Visit(u, cs, counts, taken, sqrt)
      case None =>
        AssignWithinTolerance(us[1..], cs, counts, taken, sqrt);
      case Some(i) =>
        TolerancePreserved(cs, counts, i);
        AssignWithinTolerance(us[1..], cs, Bump(counts, cs[i].id), taken + {u.id}, sqrt);
    }
  }

  /** Shuffling the candidates brings in no other user. */
  lemma ShuffledCandidates(users: seq<User>, draws: seq<nat>)
    ensures UserIds(Sorting.Shuffle(Candidates(users), draws)) <= CandidateIds(users)
  {
    var cands := Sorting.Shuffle(Candidates(users), draws);
    forall x | x in UserIds(cands) ensures x in CandidateIds(users) {
      var u :| u in cands && u.id == x;
      assert u in multiset(cands);
      assert u in Candidates(users);
    }
  }

  /** Decisions onto operational chargers name operating chargers of the
      snapshot. */
  lemma OperationalFrom(chargers: seq<Charger>, ds: Decisions)
    requires forall a :: a in ds ==> a.charger in ChargerIds(Operational(chargers))
    ensures forall a :: a in ds ==> exists c :: c in chargers && Operating(c) && c.id == a.charger
  {
    var ops := Operational(chargers);
    forall a | a in ds ensures exists c :: c in chargers && Operating(c) && c.id == a.charger {
      var c :| c in ops && c.id == a.charger;
      assert c in chargers && Operating(c);
    }
  }

  /** `schedule(state)`; `draws` are the shuffle's random choices. */
  function Schedule(s: Snapshot, draws: seq<nat>, sqrt: SqrtFn): (ds: Decisions)
    ensures |s.users| == 0 || |s.chargers| == 0 ==> ds == []
    ensures DistinctDecisionUsers(ds) && DecidedUsers(ds) <= CandidateIds(s.users)
    ensures forall a :: a in ds ==> exists c :: c in s.chargers && Operating(c) && c.id == a.charger
  {
    if |s.users| == 0 || |s.chargers| == 0 then []
    else
      var cands := Sorting.Shuffle(Candidates(s.users), draws);
      var ops := Operational(s.chargers);
      if |cands| == 0 || |ops| == 0 then []
      else
        var r := Assign(cands, ops, map[], {}, sqrt);
        AssignFromInput(cands, ops, map[], {}, sqrt);
        ShuffledCandidates(s.users, draws);
        OperationalFrom(s.chargers, r.0);
        r.0
  }

  /** Without chargers the pass places nobody. */
  lemma {:induction false} AssignNoChargers(us: seq<User>, counts: map<ChargerId, nat>,
                                            taken: set<UserId>, sqrt: SqrtFn)
    ensures Assign(us, [], counts, taken, sqrt).0 == []
    decreases |us|
  {
    if |us| > 0 {
      assert Visit(us[0], [], counts, taken, sqrt).None?;
      AssignNoChargers(us[1..], counts, taken, sqrt);
    }
  }

  /** The early exits change nothing: the decisions are always those of one
      pass over the shuffled candidates and the operational chargers, from
      zero counts and nobody assigned. */
  lemma ScheduleIsOnePass(s: Snapshot, draws: seq<nat>, sqrt: SqrtFn)
    ensures Schedule(s, draws, sqrt)
            == Assign(Sorting.Shuffle(Candidates(s.users), draws), Operational(s.chargers), map[], {}, sqrt).0
  {
    var cands := Sorting.Shuffle(Candidates(s.users), draws);
    var ops := Operational(s.chargers);
    if |s.chargers| == 0 || |ops| == 0 {
      assert ops == [];
      AssignNoChargers(cands, map[], {}, sqrt);
    } else if |s.users| == 0 || |cands| == 0 {
      assert |cands| == 0 by {
        if |s.users| == 0 {
          assert Candidates(s.users) == [];
        }
      }
    }
  }

  /** In one scheduling call, every shuffled candidate whose turn comes
      with an id, not yet assigned and with an eligible operational charger
      at the counts left by the candidates before it is placed, at the
      charger `Choose` picks at those counts. */
  lemma SchedulePlacesAdmissible(s: Snapshot, draws: seq<nat>, sqrt: SqrtFn, j: nat)
    ensures var cands := Sorting.Shuffle(Candidates(s.users), draws);
            var ops := Operational(s.chargers);
            j < |cands| ==>
              var p := Assign(cands[..j], ops, map[], {}, sqrt);
              cands[j].id != "" && cands[j].id !in DecidedUsers(p.0)
              && (exists i :: 0 <= i < |ops| && Eligible(cands[j], ops[i], p.1, sqrt))
              ==> Assignment(cands[j].id, ops[Choose(cands[j], ops, p.1, sqrt).value].id) in Schedule(s, draws, sqrt)
  {
    var cands := Sorting.Shuffle(Candidates(s.users), draws);
    var ops := Operational(s.chargers);
    ScheduleIsOnePass(s, draws, sqrt);
    if j < |cands| {
      var p := Assign(cands[..j], ops, map[], {}, sqrt);
      assert {} + DecidedUsers(p.0) == DecidedUsers(p.0);
      AssignPlacesAdmissible(cands, ops, map[], {}, sqrt, j, "");
    }
  }

  /** A charger the pass assigns anyone to ends with at most 4 users
      ahead, counting its occupant and queue. */
  lemma AssignedWithinTolerance(us: seq<User>, ops: seq<Charger>, sqrt: SqrtFn, j: nat)
    requires DistinctChargerIds(ops) && j < |ops|
    ensures var ds := Assign(us, ops, map[], {}, sqrt).0;
            AssignedTo(ds, ops[j].id) > 0 ==> Load(ops[j]) + AssignedTo(ds, ops[j].id) <= MaxQueue
  {
    AssignWithinTolerance(us, ops, map[], {}, sqrt);
    AssignCounts(us, ops, map[], {}, sqrt, ops[j].id);
  }

  /** The index of the operational charger a pass's decisions name. */
  lemma AssignedIndex(us: seq<User>, ops: seq<Charger>, sqrt: SqrtFn, k: ChargerId) returns (j: nat)
    ensures AssignedTo(Assign(us, ops, map[], {}, sqrt).0, k) > 0 ==> j < |ops| && ops[j].id == k
  {
    var ds := Assign(us, ops, map[], {}, sqrt).0;
    j := 0;
    if AssignedTo(ds, k) > 0 {
      AssignedToNamed(ds, k);
      var a :| a in ds && a.charger == k;
      var c2 :| c2 in ops && c2.id == k;
      j :| j < |ops| && ops[j] == c2;
    }
  }

  /** The same for a charger of the snapshot, whose operational entry the
      pass works on. */
  lemma TolerantAt(chargers: seq<Charger>, us: seq<User>, sqrt: SqrtFn, c: Charger)
    requires DistinctChargerIds(chargers) && c in chargers
    ensures var ds := Assign(us, Operational(chargers), map[], {}, sqrt).0;
            AssignedTo(ds, c.id) > 0 ==> Load(c) + AssignedTo(ds, c.id) <= MaxQueue
  {
    var ops := Operational(chargers);
    var j := AssignedIndex(us, ops, sqrt, c.id);
    if AssignedTo(Assign(us, ops, map[], {}, sqrt).0, c.id) > 0 {
      assert ops[j] in ops;
      SameIdSameCharger(chargers, c, ops[j]);
      AssignedWithinTolerance(us, ops, sqrt, j);
    }
  }

  /** In one scheduling pass no charger is given so many users that more
      than 4 would be ahead at it (occupant, queue and this pass's users). */
  lemma ScheduleWithinTolerance(s: Snapshot, draws: seq<nat>, sqrt: SqrtFn, c: Charger)
    requires DistinctChargerIds(s.chargers) && c in s.chargers
    ensures AssignedTo(Schedule(s, draws, sqrt), c.id) > 0 ==>
              Load(c) + AssignedTo(Schedule(s, draws, sqrt), c.id) <= MaxQueue
  {
    var cands := Sorting.Shuffle(Candidates(s.users), draws);
    var ops := Operational(s.chargers);
    TolerantAt(s.chargers, cands, sqrt, c);
    if !(|s.users| == 0 || |s.chargers| == 0 || |cands| == 0 || |ops| == 0) {
      assert Schedule(s, draws, sqrt) == Assign(cands, ops, map[], {}, sqrt).0;
    }
  }
}
