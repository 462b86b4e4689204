/**
 Where the outbox guarantees end.  They hold for every run whose batches last at
 most the lease and whose markers outlive the writing of the processed row; one
 millisecond more, or one marker that expires early, and some run breaks them.
 */
module OutboxLimits {
  import opened Options
  import opened OutboxProtocol
  import opened OutboxOverlap
  import OutboxLease

  // ---------- building runs ----------

  /** No live batch is older than `bound` when rows are reclaimed, and with `keep` no marker expires. */
  datatype Rule = Rule(bound: nat, keep: bool)

  ghost predicate Allows(rule: Rule, s: World, a: Action) {
    OutboxLease.BatchesWithin(rule.bound, s, a) && (rule.keep ==> !a.Expire?)
  }

  ghost predicate Within(c: Config, rule: Rule, states: seq<World>, actions: seq<Action>) {
    && Run(c, states, actions)
    && (forall i | 0 <= i < |actions| :: Allows(rule, states[i], actions[i]))
  }

  /** One more step at the end of a run. */
  lemma Extend(c: Config, rule: Rule, states: seq<World>, actions: seq<Action>, a: Action)
    returns (states': seq<World>, actions': seq<Action>)
    requires Within(c, rule, states, actions) && Enabled(c, states[|actions|], a)
    requires Allows(rule, states[|actions|], a)
    ensures states' == states + [Apply(c, states[|actions|], a)] && actions' == actions + [a]
    ensures Within(c, rule, states', actions')
  {
    states', actions' := states + [Apply(c, states[|actions|], a)], actions + [a];
    forall i | 0 <= i < |actions'|
      ensures StepAt(c, states', actions', i)
      ensures Allows(rule, states'[i], actions'[i])
    {
      if i < |actions| {
        assert StepAt(c, states, actions, i);
        assert Allows(rule, states[i], actions[i]);
      }
    }
  }

  /** Row 7 waits for a dispatch, after `n` failed ones; nobody has published it. */
  ghost predicate Waiting(s: World, n: nat) {
    && 7 in s.rows && 7 in s.completed && 7 !in s.processed && 7 !in s.markers
    && s.rows[7].known && s.rows[7].status == Pending && s.rows[7].attempts == n
  }

  /** A time at which row 7 may be claimed. */
  function DueTime(s: World): int
    requires 7 in s.rows
  {
    if s.rows[7].nextRetryAt.None? then 0 else s.rows[7].nextRetryAt.value
  }

  /** The state after worker `w` has claimed row 7 at `now` and stands at `pc`. */
  ghost function Held(s: World, w: WorkerId, now: int, pc: Pc): World
    requires 7 in s.rows
  {
    s.(rows := s.rows[7 := ClaimRow(s.rows[7], now)],
       workers := s.workers[w := Worker([Claimed(7, s.rows[7].known, s.rows[7].attempts)], now, pc)])
  }

  lemma ClaimSeven(c: Config, rule: Rule, states: seq<World>, actions: seq<Action>, w: WorkerId, now: int, n: nat)
    returns (states': seq<World>, actions': seq<Action>)
    requires Within(c, rule, states, actions) && c.batch > 0 && w in c.slots
    requires w !in states[|actions|].workers && Waiting(states[|actions|], n) && DueTime(states[|actions|]) <= now
    ensures Within(c, rule, states', actions')
    ensures states'[|actions'|] == Held(states[|actions|], w, now, AtGuards)
  {
    var s := states[|actions|];
    states', actions' := Extend(c, rule, states, actions, Claim(w, [7], now));
    var t := states'[|actions'|];
    assert t.workers[w] == Held(s, w, now, AtGuards).workers[w];
    assert t.rows == s.rows[7 := ClaimRow(s.rows[7], now)];
  }

  /** Worker `w` takes the waiting row 7 from its claim to the point where it will publish. */
  lemma ClearForPublishing(c: Config, rule: Rule, states: seq<World>, actions: seq<Action>, w: WorkerId, now: int, n: nat)
    returns (states': seq<World>, actions': seq<Action>)
    requires Within(c, rule, states, actions) && n < c.maxAttempts && c.batch > 0 && w in c.slots
    requires w !in states[|actions|].workers && Waiting(states[|actions|], n) && DueTime(states[|actions|]) <= now
    ensures Within(c, rule, states', actions')
    ensures states'[|actions'|] == Held(states[|actions|], w, now, AtExec(|states[|actions|].log|))
  {
    var s := states[|actions|];
    states', actions' := ClaimSeven(c, rule, states, actions, w, now, n);
    states', actions' := Extend(c, rule, states', actions', Guards(w));
    states', actions' := Extend(c, rule, states', actions', ReadStatus(w));
    states', actions' := Extend(c, rule, states', actions', ReadProcessed(w));
    states', actions' := Extend(c, rule, states', actions', ReadMarker(w));
    assert states'[|actions'|].workers == Held(s, w, now, AtExec(|s.log|)).workers;
  }

  /** Its publish fails, and the catch block gives the row back with one attempt more. */
  lemma FailOnce(c: Config, rule: Rule, states: seq<World>, actions: seq<Action>, w: WorkerId, n: nat)
    returns (states': seq<World>, actions': seq<Action>)
    requires Within(c, rule, states, actions) && n + 1 < c.maxAttempts && c.batch > 0 && w in c.slots
    requires states[|actions|].workers == map[] && Waiting(states[|actions|], n) && states[|actions|].log == []
    ensures Within(c, rule, states', actions')
    ensures states'[|actions'|].workers == map[] && Waiting(states'[|actions'|], n + 1) && states'[|actions'|].log == []
  {
    var s := states[|actions|];
    var now := DueTime(s);
    states', actions' := ClearForPublishing(c, rule, states, actions, w, now, n);
    states', actions' := Extend(c, rule, states', actions', Exec(w, NotDone));
    assert states'[|actions'|].workers[w] == Worker([Claimed(7, true, n)], now, AtCatch);
    states', actions' := Extend(c, rule, states', actions', Catch(w, now, 0.0));
    assert states'[|actions'|].workers == map[];
  }

  /** A run in which row 7 has failed `n` times and waits again. */
  lemma {:induction false} FailedTimes(c: Config, rule: Rule, w: WorkerId, n: nat)
    returns (states: seq<World>, actions: seq<Action>)
    requires n < c.maxAttempts && c.batch > 0 && w in c.slots
    ensures Within(c, rule, states, actions)
    ensures states[|actions|].workers == map[] && Waiting(states[|actions|], n) && states[|actions|].log == []
  {
    if n == 0 {
      var s := World(map[], {}, {}, [], map[], None, map[]);
      states, actions := Extend(c, rule, [s], [], Enqueue(7, true));
    } else {
      states, actions := FailedTimes(c, rule, w, n - 1);
      states, actions := FailOnce(c, rule, states, actions, w, n - 1);
    }
  }

  // ---------- the lease ----------

  /** Worker `w` stands before the publish of row 7, which it claimed when it had failed `n` times. */
  ghost predicate BeforePublish(s: World, w: WorkerId, n: nat) {
    && w in s.workers && s.workers[w].queue == [Claimed(7, true, n)] && s.workers[w].pc.AtExec?
    && 7 in s.rows && 7 in s.completed
  }

  /**
   A batch that outlives its lease is reclaimed under its worker: two workers
   then stand before the same publish, each having found no marker.
   */
  lemma SlowBatchIsClaimedTwice(c: Config, rule: Rule, w: WorkerId, v: WorkerId, n: nat)
    returns (states: seq<World>, actions: seq<Action>)
    requires n < c.maxAttempts && c.batch > 0 && w in c.slots && v in c.slots && w != v && rule.bound > c.leaseMs
    ensures Within(c, rule, states, actions)
    ensures BeforePublish(states[|actions|], w, n) && BeforePublish(states[|actions|], v, n)
    ensures states[|actions|].rows[7].attempts == n && states[|actions|].log == []
  {
    states, actions := FailedTimes(c, rule, w, n);
    var s0 := states[|actions|];
    var now := DueTime(s0);
    states, actions := ClearForPublishing(c, rule, states, actions, w, now, n);
    var s1 := states[|actions|];
    states, actions := Extend(c, rule, states, actions, Reclaim(now + rule.bound));
    var s2 := states[|actions|];
    assert s2.rows[7] == s1.rows[7].(status := Pending, leaseAt := None);
    states, actions := ClearForPublishing(c, rule, states, actions, v, now + rule.bound, n);
  }

  /** For every bound above the lease some run whose batches keep the bound publishes an event twice. */
  lemma LeaseIsNeeded(c: Config, bound: nat, w: WorkerId, v: WorkerId)
    returns (states: seq<World>, actions: seq<Action>)
    requires c.maxAttempts > 0 && c.batch > 0 && w in c.slots && v in c.slots && w != v && bound > c.leaseMs
    ensures OutboxLease.TunedRun(c, bound, states, actions) && OverlapRun(c, states, actions)
    ensures PublishCount(states[|actions|].log, 7) == 2 && !OutboxLease.NoneTwice(states[|actions|].log)
  {
    var rule := Rule(bound, true);
    states, actions := SlowBatchIsClaimedTwice(c, rule, w, v, 0);
    states, actions := Extend(c, rule, states, actions, Exec(w, Acked));
    assert BeforePublish(states[|actions|], v, 0) && |states[|actions|].log| == 1 && states[|actions|].log[0].id == 7;
    states, actions := Extend(c, rule, states, actions, Exec(v, Acked));
    TwoOfOneEvent(states[|actions|].log, 7);
  }

  lemma TwoOfOneEvent(log: seq<Publish>, id: EventId)
    requires |log| == 2 && log[0].id == log[1].id == id
    ensures PublishCount(log, id) == 2 && !OutboxLease.NoneTwice(log)
  {
    assert log[..1][..0] == [] && PublishCount(log[..1], id) == 1;
  }

  /** And in some such run a PENDING row has used up every attempt: its status followed the claimed copy. */
  lemma LeaseIsNeededForBudget(c: Config, bound: nat, w: WorkerId, v: WorkerId)
    returns (states: seq<World>, actions: seq<Action>)
    requires c.maxAttempts >= 2 && c.batch > 0 && w in c.slots && v in c.slots && w != v && bound > c.leaseMs
    ensures OutboxLease.TunedRun(c, bound, states, actions) && OverlapRun(c, states, actions)
    ensures 7 in states[|actions|].rows && !InBudget(c, states[|actions|])
    ensures states[|actions|].rows[7].status == Pending && states[|actions|].rows[7].attempts == c.maxAttempts
  {
    var rule := Rule(bound, true);
    var n := c.maxAttempts - 2;
    states, actions := SlowBatchIsClaimedTwice(c, rule, w, v, n);
    states, actions := Extend(c, rule, states, actions, Exec(w, NotDone));
    states, actions := Extend(c, rule, states, actions, Exec(v, NotDone));
    states, actions := Extend(c, rule, states, actions, Catch(w, 0, 0.0));
    assert states[|actions|].rows[7].attempts == n + 1;
    states, actions := Extend(c, rule, states, actions, Catch(v, 0, 0.0));
  }

  /** Every run whose batches last at most `bound` publishes each event at most once. */
  ghost predicate AlwaysOnce(c: Config, bound: nat) {
    forall states: seq<World>, actions: seq<Action> | OutboxLease.TunedRun(c, bound, states, actions) ::
      OutboxLease.NoneTwice(states[|actions|].log)
  }

  /** A PENDING row has attempts left. */
  ghost predicate InBudget(c: Config, s: World) {
    forall id | id in s.rows && s.rows[id].status == Pending :: s.rows[id].attempts < c.maxAttempts
  }

  /** So it is in every such run. */
  ghost predicate AlwaysInBudget(c: Config, bound: nat) {
    forall states: seq<World>, actions: seq<Action> | OutboxLease.TunedRun(c, bound, states, actions) ::
      InBudget(c, states[|actions|])
  }

  /** With two workers, the lease is the exact bound for publishing at most once. */
  lemma OnceExactlyWithinLease(c: Config, bound: nat)
    requires c.maxAttempts > 0 && c.batch > 0 && exists w, v :: w in c.slots && v in c.slots && w != v
    ensures AlwaysOnce(c, bound) <==> bound <= c.leaseMs
  {
    if bound <= c.leaseMs {
      forall states: seq<World>, actions: seq<Action> | OutboxLease.TunedRun(c, bound, states, actions)
        ensures OutboxLease.NoneTwice(states[|actions|].log) {
        OutboxLease.AtMostOnce(c, bound, states, actions, |actions|);
      }
    } else {
      var w, v :| w in c.slots && v in c.slots && w != v;
      var states, actions := LeaseIsNeeded(c, bound, w, v);
    }
  }

  /** And for the retry budget. */
  lemma BudgetExactlyWithinLease(c: Config, bound: nat)
    requires c.maxAttempts >= 2 && c.batch > 0 && exists w, v :: w in c.slots && v in c.slots && w != v
    ensures AlwaysInBudget(c, bound) <==> bound <= c.leaseMs
  {
    if bound <= c.leaseMs {
      forall states: seq<World>, actions: seq<Action> | OutboxLease.TunedRun(c, bound, states, actions)
        ensures InBudget(c, states[|actions|]) {
        forall id | id in states[|actions|].rows && states[|actions|].rows[id].status == Pending
          ensures states[|actions|].rows[id].attempts < c.maxAttempts {
          OutboxLease.DispatchBudget(c, bound, states, actions, |actions|, id);
        }
      }
    } else {
      var w, v :| w in c.slots && v in c.slots && w != v;
      var states, actions := LeaseIsNeededForBudget(c, bound, w, v);
    }
  }

  // ---------- the marker ----------

  /** Worker `w` publishes row 7 and dies; the marker expires and the lease runs out. */
  lemma MarkerExpiresEarly(c: Config, bound: nat, w: WorkerId) returns (states: seq<World>, actions: seq<Action>)
    requires c.maxAttempts > 0 && c.batch > 0 && w in c.slots
    ensures Within(c, Rule(bound, false), states, actions)
    ensures
      var s := states[|actions|];
      Waiting(s, 0) && s.workers == map[] && |s.log| == 1 && s.log[0].id == 7
  {
    var rule := Rule(bound, false);
    states, actions := FailedTimes(c, rule, w, 0);
    var now := DueTime(states[|actions|]);
    states, actions := ClearForPublishing(c, rule, states, actions, w, now, 0);
    states, actions := Extend(c, rule, states, actions, Exec(w, Acked));
    states, actions := Extend(c, rule, states, actions, Abandon(w));
    states, actions := Extend(c, rule, states, actions, Expire(7));
    states, actions := Extend(c, rule, states, actions, Reclaim(now + c.leaseMs + 1));
  }

  /** Batches keep the bound; unless `early` holds, markers outlive the writing of the processed row. */
  ghost predicate MarkedRun(c: Config, bound: nat, early: bool, states: seq<World>, actions: seq<Action>) {
    && c.maxAttempts > 0
    && Run(c, states, actions)
    && (forall i | 0 <= i < |actions| :: OutboxLease.BatchesWithin(bound, states[i], actions[i]))
    && (early || forall i | 0 <= i < |actions| :: OutboxLease.MarkerRetained(states[i], actions[i]))
  }

  /** If a marker may expire early, one worker is enough to publish twice, whatever the bound. */
  lemma MarkerIsNeeded(c: Config, bound: nat, w: WorkerId) returns (states: seq<World>, actions: seq<Action>)
    requires c.maxAttempts > 0 && c.batch > 0 && w in c.slots
    ensures MarkedRun(c, bound, true, states, actions)
    ensures PublishCount(states[|actions|].log, 7) == 2 && !OutboxLease.NoneTwice(states[|actions|].log)
  {
    var rule := Rule(bound, false);
    states, actions := MarkerExpiresEarly(c, bound, w);
    states, actions := ClearForPublishing(c, rule, states, actions, w, DueTime(states[|actions|]), 0);
    states, actions := Extend(c, rule, states, actions, Exec(w, Acked));
    TwoOfOneEvent(states[|actions|].log, 7);
    forall i | 0 <= i < |actions| ensures OutboxLease.BatchesWithin(bound, states[i], actions[i]) {
      assert Allows(rule, states[i], actions[i]);
    }
  }

  ghost predicate AlwaysOnceMarked(c: Config, bound: nat, early: bool) {
    forall states: seq<World>, actions: seq<Action> | MarkedRun(c, bound, early, states, actions) ::
      OutboxLease.NoneTwice(states[|actions|].log)
  }

  /** Both assumptions are exact: batches end within the lease, and markers outlive the processed row's writing. */
  lemma OnceExactlyWithMarkers(c: Config, bound: nat, early: bool)
    requires c.maxAttempts > 0 && c.batch > 0 && exists w, v :: w in c.slots && v in c.slots && w != v
    ensures AlwaysOnceMarked(c, bound, early) <==> bound <= c.leaseMs && !early
  {
    var w, v :| w in c.slots && v in c.slots && w != v;
    if early {
      var states, actions := MarkerIsNeeded(c, bound, w);
    } else {
      assert forall states: seq<World>, actions: seq<Action> ::
        MarkedRun(c, bound, false, states, actions) <==> OutboxLease.TunedRun(c, bound, states, actions);
      OnceExactlyWithinLease(c, bound);
    }
  }

  // ---------- what the statuses do not say ----------

  /** Worker `w` publishes and finalizes row 7, which had failed `n` times; it has still to count the dispatch. */
  lemma Finalized(c: Config, rule: Rule, w: WorkerId, n: nat) returns (states: seq<World>, actions: seq<Action>)
    requires n < c.maxAttempts && c.batch > 0 && w in c.slots
    ensures Within(c, rule, states, actions)
    ensures
      var s := states[|actions|];
      && 7 in s.rows && 7 in s.completed && s.rows[7].status == Dispatched && 7 in s.processed && 7 in Published(s.log)
      && w in s.workers && s.workers[w].queue == [Claimed(7, true, n)] && s.workers[w].pc == AtIncr(ByPublish)
  {
    states, actions := FailedTimes(c, rule, w, n);
    states, actions := ClearForPublishing(c, rule, states, actions, w, DueTime(states[|actions|]), n);
    states, actions := Extend(c, rule, states, actions, Exec(w, Acked));
    var s := states[|actions|];
    assert s.log[0].id == 7 && s.log[0] in s.log;
    states, actions := Extend(c, rule, states, actions, Finalize(w, Acked));
  }

  /**
   Neither DISPATCHED nor FAILED is what it seems: for every number of attempts
   already used, a failing counter increment after finalization takes a published
   row back out of DISPATCHED, into FAILED exactly when this was the last attempt.
   */
  lemma DispatchedRowCanFail(c: Config, bound: nat, w: WorkerId, n: nat)
    returns (states: seq<World>, actions: seq<Action>, k: nat)
    requires n < c.maxAttempts && c.batch > 0 && w in c.slots
    ensures OutboxLease.TunedRun(c, bound, states, actions) && k < |actions|
    ensures 7 in states[k].rows && states[k].rows[7].status == Dispatched
    ensures 7 in states[|actions|].rows && 7 in Published(states[|actions|].log) && 7 in states[|actions|].processed
    ensures states[|actions|].rows[7].status == if n + 1 == c.maxAttempts then Failed else Pending
  {
    var rule := Rule(bound, true);
    states, actions := Finalized(c, rule, w, n);
    k := |actions|;
    states, actions := Extend(c, rule, states, actions, Incr(w, false));
    states, actions := Extend(c, rule, states, actions, Catch(w, 0, 0.0));
  }
}
