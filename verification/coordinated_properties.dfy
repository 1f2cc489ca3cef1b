/** Properties of the coordinated multi-agent scheduler: the weighted vote
    settles on the heaviest admissible charger, the queue cap of 4 holds
    after the coordinator's pass and the whole call, and the conflict count
    counts the users whose agents disagree. */
module CoordinatedProperties {
  import opened Wrappers
  import opened Geo
  import opened Entities
  import opened Config
  import opened CoordinatedUser
  import opened CoordinatedProfit
  import opened CoordinatedGrid
  import opened CoordinatedMas

  /** The coordinator's choice carries the highest total vote among the
      recommended chargers it could still admit. */
  lemma SettleTopVote(uid: UserId, ur: Decisions, pr: Decisions, gr: Decisions, d: seq<Charger>,
                      w: AgentWeights, counts: map<ChargerId, nat>, k: ChargerId)
    ensures Settle(uid, ur, pr, gr, d, w, counts).Some?
            && k in Known(Choices(uid, ur, pr, gr, w), d) && Admits(d, counts, k)
            ==> VoteFor(Choices(uid, ur, pr, gr, w), k)
                <= VoteFor(Choices(uid, ur, pr, gr, w), Settle(uid, ur, pr, gr, d, w, counts).value)
  {
    if Settle(uid, ur, pr, gr, d, w, counts).Some?
       && k in Known(Choices(uid, ur, pr, gr, w), d) && Admits(d, counts, k) {
      var cs := Choices(uid, ur, pr, gr, w);
      var t := Tallied(cs, d);
      var b := Ballot(uid, ur, pr, gr, d, w);
      var i := FirstAdmitted(b, d, counts).value;
      var x :| x in t && x.charger == k;
      FirstAdmittedIsTop(b, d, counts, x);
      assert b[i] in t;
      WeightOfEntry(t, x);
      WeightOfEntry(t, b[i]);
      assert b[i].charger in Known(cs, d);
      var v :| v in cs && v.charger in ChargerIds(d) && v.charger == b[i].charger;
    }
  }

  /** Ties go to the earlier vote: an admitted recommended charger with the
      same total vote as the settled one comes no earlier in the order the
      chargers were first voted for (user, then profit, then grid). */
  lemma SettleTieBreak(uid: UserId, ur: Decisions, pr: Decisions, gr: Decisions, d: seq<Charger>,
                       w: AgentWeights, counts: map<ChargerId, nat>, k: ChargerId)
    ensures var cs := Choices(uid, ur, pr, gr, w);
            var s := Settle(uid, ur, pr, gr, d, w, counts);
            s.Some? && k in Known(cs, d) && Admits(d, counts, k) && VoteFor(cs, k) == VoteFor(cs, s.value)
            ==> exists a, b :: 0 <= a <= b < |CastOrder(cs, d)|
                               && CastOrder(cs, d)[a] == s.value && CastOrder(cs, d)[b] == k
  {
    var cs := Choices(uid, ur, pr, gr, w);
    var s := Settle(uid, ur, pr, gr, d, w, counts);
    if s.Some? && k in Known(cs, d) && Admits(d, counts, k) && VoteFor(cs, k) == VoteFor(cs, s.value) {
      var t := Tallied(cs, d);
      SettleFirstHeaviest(uid, ur, pr, gr, d, w, counts);
      var j :| Sorting.LeastAt(t, NegWeight, AdmitsVote(d, counts), j) && t[j].charger == s.value;
      var x :| x in t && x.charger == k;
      var m :| 0 <= m < |t| && t[m] == x;
      WeightOfEntry(t, t[j]);
      WeightOfEntry(t, x);
      assert s.value in ChargerIds(d) by {
        var c :| c in d && c.status != Failure && c.id == s.value;
      }
      assert AdmitsVote(d, counts)(t[m]);
      assert j <= m;
      TalliedInCastOrder(cs, d);
      assert CastOrder(cs, d)[j] == s.value && CastOrder(cs, d)[m] == k;
    }
  }

  /** With distinct charger ids, no charger ends the coordinator's pass with
      more than 4 ahead: occupant, queue and the users it was given. */
  lemma ResolveConflictsWithinCap(ur: Decisions, pr: Decisions, gr: Decisions, chargers: seq<Charger>,
                                  w: AgentWeights, c: Charger)
    requires DistinctChargerIds(chargers) && c in chargers
    ensures AssignedTo(ResolveConflicts(ur, pr, gr, chargers, w), c.id) > 0
            ==> Load(c) + AssignedTo(ResolveConflicts(ur, pr, gr, chargers, w), c.id) <= MaxQueue
  {
    var d := ChargerDict(chargers);
    assert d == chargers;
    var us := AllUsers(ur, pr, gr);
    ResolveCapped(us, ur, pr, gr, d, w, SeedCounts(d), c.id);
    ResolveCounts(us, ur, pr, gr, d, w, SeedCounts(d), c.id);
    SeedCountsAreLoads(d, c);
  }

  /** It counts exactly the users whose agents recommended more than one
      distinct charger. */
  lemma ConflictsAreConflictedUsers(ur: Decisions, pr: Decisions, gr: Decisions)
    ensures Conflicts(ur, pr, gr)
         == |set uid | uid in DecidedUsers(ur) + DecidedUsers(pr) + DecidedUsers(gr) && Conflicted(uid, ur, pr, gr)|
  {
    var us := AllUsers(ur, pr, gr);
    var p := (uid: UserId) => Conflicted(uid, ur, pr, gr);
    CountWhereIsSetSize(us, p);
    var lhs := set uid | uid in us && p(uid);
    var rhs := set uid | uid in DecidedUsers(ur) + DecidedUsers(pr) + DecidedUsers(gr) && Conflicted(uid, ur, pr, gr);
    assert forall uid :: uid in lhs <==> uid in rhs;
    assert lhs == rhs;
  }

  /** A charger the system sends anyone to has at most 4 ahead afterwards,
      counting its occupant and queue. */
  lemma MakeDecisionsWithinCap(s: Snapshot, cfg: Config, sqrt: SqrtFn, c: Charger)
    requires DistinctChargerIds(s.chargers) && c in s.chargers
    ensures MakeDecisions(s, cfg, sqrt).Ok? && AssignedTo(MakeDecisions(s, cfg, sqrt).value, c.id) > 0
            ==> Load(c) + AssignedTo(MakeDecisions(s, cfg, sqrt).value, c.id) <= MaxQueue
  {
    if ProfitAgent(s).Ok? {
      var pr := ProfitAgent(s).value;
      ResolveConflictsWithinCap(UserAgent(s, sqrt), pr, GridAgent(s), s.chargers, CoordinatorWeights(cfg), c);
    }
  }
}
