/**
 The retry delay.  After a failed dispatch a row is left alone until the delay is
 over, in every run, however workers overlap.
 */
module OutboxRetry {
  import opened Options
  import opened Powers
  import opened OutboxProtocol
  import OutboxLease

  /** Step `a` is the catch block for `id`. */
  ghost predicate Catches(s: World, a: Action, id: EventId) {
    a.Catch? && a.w in s.workers && s.workers[a.w].queue != [] && s.workers[a.w].queue[0].id == id
  }

  /** Step `a` is the requeue command resetting `id`. */
  ghost predicate Resets(s: World, a: Action, id: EventId) {
    a == CliUpdate(true) && s.cli.Some? && s.cli.value.queue != [] && s.cli.value.queue[0] == id
  }

  /** The row waits for its retry time, unless it has been settled. */
  ghost predicate Postponed(s: World, id: EventId, due: int) {
    id in s.rows
    && (s.rows[id].nextRetryAt == Some(due) || s.rows[id].status == Dispatched || s.rows[id].status == Failed)
  }

  /** The retry time that the catch block sets, in milliseconds: doubled per attempt, with jitter, capped. */
  function RetryAt(attempts: nat, now: int, jitter: real): int {
    var delay := 500.0 * Pow2(attempts + 1) as real + 500.0 * jitter;
    now + (if delay <= 120000.0 then delay else 120000.0).Floor
  }

  /** Between steps `i` and `j` neither the catch block nor the requeue command rewrites `id`. */
  ghost predicate LeftAlone(states: seq<World>, actions: seq<Action>, i: nat, j: nat, id: EventId)
    requires i <= j <= |actions| < |states|
  {
    forall m | i < m < j :: !Catches(states[m], actions[m], id) && !Resets(states[m], actions[m], id)
  }

  lemma {:induction false} StaysPostponed(c: Config, states: seq<World>, actions: seq<Action>, i: nat, j: nat, id: EventId)
    requires Run(c, states, actions) && i < j <= |actions|
    requires Catches(states[i], actions[i], id) && LeftAlone(states, actions, i, j, id)
    ensures
      var a := actions[i];
      Postponed(states[j], id, RetryAt(states[i].workers[a.w].queue[0].attempts, a.now, a.jitter))
  {
    assert StepAt(c, states, actions, j - 1);
    if j > i + 1 { StaysPostponed(c, states, actions, i, j - 1, id); }
  }

  /**
   In every run: a claim takes a row only when the delay of its latest failed
   dispatch is over, unless the requeue command has reset the row.
   */
  lemma ClaimedWhenDue(c: Config, states: seq<World>, actions: seq<Action>, i: nat, j: nat, id: EventId)
    requires Run(c, states, actions) && i < j < |actions|
    requires Catches(states[i], actions[i], id) && LeftAlone(states, actions, i, j, id)
    requires actions[j].Claim? && id in actions[j].ids
    ensures
      var a := actions[i];
      var delay := 500.0 * Pow2(states[i].workers[a.w].queue[0].attempts + 1) as real + 500.0 * a.jitter;
      && actions[j].now >= a.now + (if delay <= 120000.0 then delay else 120000.0).Floor
      && states[j].rows.Keys >= {id} && states[j].rows[id].status == Pending
  {
    StaysPostponed(c, states, actions, i, j, id);
    assert StepAt(c, states, actions, j);
    var k :| 0 <= k < |actions[j].ids| && actions[j].ids[k] == id;
    assert Eligible(states[j].rows[actions[j].ids[k]], actions[j].now);
  }

  // ---------- within the lease: the next claim, whatever else happens ----------

  /** No worker has the row. */
  ghost predicate NotHeld(s: World, id: EventId) {
    forall w, k | w in s.workers && 0 <= k < |s.workers[w].queue| :: s.workers[w].queue[k].id != id
  }

  ghost predicate Unclaimed(actions: seq<Action>, i: nat, j: nat, id: EventId)
    requires i <= j <= |actions|
  {
    forall m | i < m < j :: !(actions[m].Claim? && id in actions[m].ids)
  }

  lemma {:induction false} StaysNotHeld(c: Config, bound: nat, states: seq<World>, actions: seq<Action>,
                                        i: nat, j: nat, id: EventId)
    requires OutboxLease.TunedRun(c, bound, states, actions) && bound <= c.leaseMs && i < j <= |actions|
    requires Catches(states[i], actions[i], id) && Unclaimed(actions, i, j, id)
    ensures NotHeld(states[j], id)
  {
    assert StepAt(c, states, actions, j - 1);
    if j == i + 1 {
      OutboxLease.RunKeepsInv(c, bound, states, actions, i);
    } else {
      StaysNotHeld(c, bound, states, actions, i, j - 1, id);
    }
  }

  /** Within the lease: the next claim of a failed row that was not reset comes when the delay is over. */
  lemma NextClaimWhenDue(c: Config, bound: nat, states: seq<World>, actions: seq<Action>, i: nat, j: nat, id: EventId)
    requires OutboxLease.TunedRun(c, bound, states, actions) && bound <= c.leaseMs && i < j < |actions|
    requires Catches(states[i], actions[i], id) && Unclaimed(actions, i, j, id)
    requires forall m | i < m < j :: !Resets(states[m], actions[m], id)
    requires actions[j].Claim? && id in actions[j].ids
    ensures
      var a := actions[i];
      var delay := 500.0 * Pow2(states[i].workers[a.w].queue[0].attempts + 1) as real + 500.0 * a.jitter;
      actions[j].now >= a.now + (if delay <= 120000.0 then delay else 120000.0).Floor
  {
    forall m | i < m < j ensures !Catches(states[m], actions[m], id) {
      StaysNotHeld(c, bound, states, actions, i, m, id);
    }
    ClaimedWhenDue(c, states, actions, i, j, id);
  }
}
