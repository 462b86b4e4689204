/**
 At-most-once publishing.  The deployment is tuned as the recovery runbook asks:
 a batch ends, or its worker dies, within the lease, and a Redis marker expires
 only after its event has reached `processed_events`.
 */
module OutboxLease {
  import opened Options
  import opened OutboxProtocol

  /** Reclaim is a timed test on the row; no live worker's batch is older than `bound` milliseconds then. */
  ghost predicate BatchesWithin(bound: nat, s: World, a: Action) {
    a.Reclaim? ==> forall w | w in s.workers :: a.now - s.workers[w].claimedAt <= bound
  }

  ghost predicate MarkerRetained(s: World, a: Action) {
    a.Expire? ==> a.id in s.processed
  }

  /** The runs of a deployment whose batches last at most `bound` milliseconds. */
  ghost predicate TunedRun(c: Config, bound: nat, states: seq<World>, actions: seq<Action>) {
    && c.maxAttempts > 0
    && Run(c, states, actions)
    && (forall i | 0 <= i < |actions| :: BatchesWithin(bound, states[i], actions[i]))
    && (forall i | 0 <= i < |actions| :: MarkerRetained(states[i], actions[i]))
  }

  // ---------- the invariant: rows and their holders ----------

  /** A held row still carries what its worker copied, until its own worker has finalized it. */
  ghost predicate HeldOk(c: Config, s: World, w: WorkerId, i: nat)
    requires w in s.workers && i < |s.workers[w].queue|
  {
    var wk := s.workers[w];
    var q := wk.queue[i];
    q.id in s.rows && q.id in s.completed &&
    var r := s.rows[q.id];
    && r.known == q.known && r.attempts == q.attempts < c.maxAttempts
    && s.completed[q.id] <= r.attempts
    && (|| (r.status == Processing && r.leaseAt == Some(wk.claimedAt))
        || (i == 0 && r.status == Dispatched && (wk.pc.AtIncr? || wk.pc == AtCatch)))
  }

  ghost predicate QueueHeld(c: Config, s: World, w: WorkerId)
    requires w in s.workers
  {
    s.workers[w].queue != [] && forall i | 0 <= i < |s.workers[w].queue| :: HeldOk(c, s, w, i)
  }

  ghost predicate Exclusive(s: World) {
    forall w, v, i, j |
      && w in s.workers && v in s.workers
      && 0 <= i < |s.workers[w].queue| && 0 <= j < |s.workers[v].queue|
      && s.workers[w].queue[i].id == s.workers[v].queue[j].id
      :: w == v && i == j
  }

  /** Attempts stay below the cap until the row fails, and bound the completed dispatches. */
  ghost predicate RowOk(c: Config, r: Row, completed: nat) {
    && (if r.status == Failed then r.attempts <= c.maxAttempts else r.attempts < c.maxAttempts)
    && completed <= c.maxAttempts
    && completed <= r.attempts + if r.status == Failed || r.status == Dispatched then 1 else 0
  }

  ghost predicate RowsOk(c: Config, s: World) {
    s.rows.Keys == s.completed.Keys && forall id | id in s.rows :: RowOk(c, s.rows[id], s.completed[id])
  }

  // ---------- the invariant: publishing ----------

  ghost predicate NoneTwice(log: seq<Publish>) {
    forall i, j | 0 <= i < j < |log| :: log[i].id != log[j].id
  }

  ghost predicate PlaceOk(s: World, w: WorkerId)
    requires w in s.workers && s.workers[w].queue != []
  {
    match s.workers[w].pc
    case AtMarker => Head(s, w) !in s.processed
    case AtExec(_) => Head(s, w) !in Published(s.log)
    case AtFinalize(_) => Head(s, w) in Published(s.log)
    case AtIncr(_) => Head(s, w) in s.rows && s.rows[Head(s, w)].status == Dispatched
    case _ => true
  }

  ghost predicate CliOk(s: World) {
    s.cli.Some? ==>
      var q := s.cli.value.queue;
      && Distinct(q)
      && (forall i | 0 <= i < |q| :: q[i] in s.rows && s.rows[q[i]].status == Failed)
      && (q != [] && s.cli.value.pc == CliAtMarker ==> q[0] !in s.processed)
      && (q != [] && s.cli.value.pc == CliAtUpdate ==> q[0] !in Published(s.log))
  }

  ghost predicate PublishedOk(s: World) {
    && NoneTwice(s.log)
    && s.processed <= Published(s.log)
    && s.markers <= Published(s.log)
    && Published(s.log) <= s.markers + s.processed
    && (forall id | id in s.rows && s.rows[id].status == Dispatched :: id in s.processed)
  }

  ghost predicate Inv(c: Config, s: World) {
    && RowsOk(c, s)
    && Exclusive(s)
    && (forall w | w in s.workers :: QueueHeld(c, s, w))
    && (forall w | w in s.workers :: PlaceOk(s, w))
    && PublishedOk(s)
    && CliOk(s)
  }

  // ---------- the pieces of a step keep it ----------

  lemma AdvanceKeeps(c: Config, s: World, w: WorkerId, pc: Pc)
    requires Inv(c, s) && w in s.workers
    requires PlaceOk(Advance(s, w, pc), w)
    requires Head(s, w) in s.rows && s.rows[Head(s, w)].status == Dispatched ==> pc.AtIncr? || pc == AtCatch
    ensures Inv(c, Advance(s, w, pc))
  {
    var t := Advance(s, w, pc);
    forall v | v in t.workers ensures QueueHeld(c, t, v) {
      assert QueueHeld(c, s, v);
      forall i | 0 <= i < |t.workers[v].queue| ensures HeldOk(c, t, v, i) {
        assert HeldOk(c, s, v, i);
      }
    }
    forall v | v in t.workers ensures PlaceOk(t, v) {
      assert PlaceOk(s, v);
    }
  }

  /** Worker `w` rewrites the row at the head of its queue, recording it as processed or not. */
  ghost function Rewrite(s: World, id: EventId, r: Row, processed: set<EventId>): World {
    s.(rows := s.rows[id := r], processed := processed)
  }

  /** A dispatch ends: its row leaves PROCESSING and its worker lets go of it. */
  lemma SettleKeeps(c: Config, s: World, w: WorkerId, r: Row, processed: set<EventId>)
    requires Inv(c, s) && w in s.workers
    requires Head(s, w) in s.completed
    requires RowOk(c, r, s.completed[Head(s, w)] + 1)
    requires processed == s.processed || (processed == s.processed + {Head(s, w)} && Head(s, w) in Published(s.log))
    requires r.status == Dispatched ==> Head(s, w) in processed
    ensures Inv(c, Complete(Rewrite(s, Head(s, w), r, processed), w))
  {
    var id := Head(s, w);
    var s' := Rewrite(s, id, r, processed);
    var t := Complete(s', w);
    assert QueueHeld(c, s, w) && HeldOk(c, s, w, 0);
    forall v, i | v in t.workers && 0 <= i < |t.workers[v].queue|
      ensures HeldOk(c, t, v, i)
    {
      assert QueueHeld(c, s, v);
      if v == w { assert HeldOk(c, s, v, i + 1); } else { assert HeldOk(c, s, v, i); }
    }
    forall v | v in t.workers ensures QueueHeld(c, t, v) && PlaceOk(t, v) {
      assert QueueHeld(c, s, v) && PlaceOk(s, v);
    }
    SettleKeepsExclusive(s, w, t);
  }

  lemma SettleKeepsExclusive(s: World, w: WorkerId, t: World)
    requires Exclusive(s) && w in s.workers && s.workers[w].queue != []
    requires t.workers == if s.workers[w].queue[1..] == [] then s.workers - {w}
                          else s.workers[w := s.workers[w].(queue := s.workers[w].queue[1..], pc := AtGuards)]
    ensures Exclusive(t)
  {
    forall v, u, i, j |
      && v in t.workers && u in t.workers
      && 0 <= i < |t.workers[v].queue| && 0 <= j < |t.workers[u].queue|
      && t.workers[v].queue[i].id == t.workers[u].queue[j].id
      ensures v == u && i == j
    {
      var i' := if v == w then i + 1 else i;
      var j' := if u == w then j + 1 else j;
      assert s.workers[v].queue[i'].id == s.workers[u].queue[j'].id;
    }
  }

  /** The finalizing transaction, when the worker has more to do for this row. */
  lemma MarkKeeps(c: Config, s: World, w: WorkerId, pc: Pc)
    requires Inv(c, s) && w in s.workers && s.workers[w].pc.AtFinalize? && Head(s, w) in s.rows
    requires pc.AtIncr? || pc == AtCatch
    ensures Inv(c, Advance(MarkDispatched(s, Head(s, w)), w, pc))
  {
    var id := Head(s, w);
    var t := Advance(MarkDispatched(s, id), w, pc);
    assert QueueHeld(c, s, w) && HeldOk(c, s, w, 0) && PlaceOk(s, w);
    forall v | v in t.workers ensures QueueHeld(c, t, v) {
      assert QueueHeld(c, s, v);
      forall i | 0 <= i < |t.workers[v].queue| ensures HeldOk(c, t, v, i) {
        assert HeldOk(c, s, v, i);
      }
    }
    forall v | v in t.workers ensures PlaceOk(t, v) {
      assert PlaceOk(s, v);
    }
  }

  lemma ExecLandsKeeps(c: Config, s: World, w: WorkerId, pc: Pc)
    requires Inv(c, s) && StandsToExec(s, w) && (pc == AtFinalize(ByPublish) || pc == AtCatch)
    ensures
      var p := Publish(Head(s, w), w, s.workers[w].pc.seen);
      Inv(c, Advance(s.(markers := s.markers + {p.id}, log := s.log + [p]), w, pc))
  {
    var p := Publish(Head(s, w), w, s.workers[w].pc.seen);
    var t := Advance(s.(markers := s.markers + {p.id}, log := s.log + [p]), w, pc);
    PublishedAppend(s.log, p);
    assert QueueHeld(c, s, w) && HeldOk(c, s, w, 0) && PlaceOk(s, w);
    forall i | 0 <= i < |s.log| ensures s.log[i].id != p.id {
      assert s.log[i].id in Published(s.log);
    }
    forall v | v in t.workers ensures QueueHeld(c, t, v) {
      assert QueueHeld(c, s, v);
      forall i | 0 <= i < |t.workers[v].queue| ensures HeldOk(c, t, v, i) {
        assert HeldOk(c, s, v, i);
      }
    }
    forall v | v in t.workers ensures PlaceOk(t, v) {
      assert PlaceOk(s, v) && QueueHeld(c, s, v) && HeldOk(c, s, v, 0);
      if v != w { assert s.workers[v].queue[0].id != s.workers[w].queue[0].id; }
    }
  }

  lemma RemoveWorkerKeeps(c: Config, s: World, w: WorkerId)
    requires Inv(c, s)
    ensures Inv(c, s.(workers := s.workers - {w}))
  {
    var t := s.(workers := s.workers - {w});
    forall v | v in t.workers ensures QueueHeld(c, t, v) && PlaceOk(t, v) {
      assert QueueHeld(c, s, v) && PlaceOk(s, v);
      forall i | 0 <= i < |t.workers[v].queue| ensures HeldOk(c, t, v, i) {
        assert HeldOk(c, s, v, i);
      }
    }
  }

  /** Steps on rows that no worker holds. */
  lemma UnheldRowsKeep(c: Config, s: World, t: World)
    requires Inv(c, s)
    requires t == s.(rows := t.rows, completed := t.completed, markers := t.markers, cli := t.cli)
    requires RowsOk(c, t) && PublishedOk(t) && CliOk(t)
    requires forall w, i | w in s.workers && 0 <= i < |s.workers[w].queue| ::
               var id := s.workers[w].queue[i].id;
               id in s.rows && id in t.rows && t.rows[id] == s.rows[id] && t.completed[id] == s.completed[id]
    ensures Inv(c, t)
  {
    forall v | v in t.workers ensures QueueHeld(c, t, v) && PlaceOk(t, v) {
      assert QueueHeld(c, s, v) && PlaceOk(s, v);
      forall i | 0 <= i < |t.workers[v].queue| ensures HeldOk(c, t, v, i) {
        assert HeldOk(c, s, v, i);
      }
    }
  }

  // ---------- every step keeps it ----------

  lemma ClaimKeeps(c: Config, s: World, w: WorkerId, ids: seq<EventId>, now: int)
    requires Inv(c, s) && Enabled(c, s, Claim(w, ids, now))
    ensures Inv(c, Apply(c, s, Claim(w, ids, now)))
  {
    var t := Apply(c, s, Claim(w, ids, now));
    forall v, i | v in s.workers && 0 <= i < |s.workers[v].queue|
      ensures s.workers[v].queue[i].id !in ids && HeldOk(c, t, v, i)
    {
      assert QueueHeld(c, s, v) && HeldOk(c, s, v, i);
    }
    forall i | 0 <= i < |ids| ensures HeldOk(c, t, w, i) {
      assert ids[i] in ids && RowOk(c, s.rows[ids[i]], s.completed[ids[i]]);
    }
    forall v | v in t.workers ensures QueueHeld(c, t, v) && PlaceOk(t, v) {
      if v != w { assert QueueHeld(c, s, v) && PlaceOk(s, v) && HeldOk(c, s, v, 0); }
    }
    ClaimKeepsExclusive(s, t, w, ids);
  }

  lemma ClaimKeepsExclusive(s: World, t: World, w: WorkerId, ids: seq<EventId>)
    requires Exclusive(s) && Distinct(ids) && w !in s.workers
    requires t.workers.Keys == s.workers.Keys + {w} && forall v | v in s.workers :: t.workers[v] == s.workers[v]
    requires |t.workers[w].queue| == |ids| && forall i | 0 <= i < |ids| :: t.workers[w].queue[i].id == ids[i]
    requires forall v, i | v in s.workers && 0 <= i < |s.workers[v].queue| :: s.workers[v].queue[i].id !in ids
    ensures Exclusive(t)
  {
  }

  lemma GuardsKeep(c: Config, s: World, w: WorkerId)
    requires Inv(c, s) && Enabled(c, s, Guards(w))
    ensures Inv(c, Apply(c, s, Guards(w)))
  {
    assert QueueHeld(c, s, w) && HeldOk(c, s, w, 0);
    var copy := s.workers[w].queue[0];
    if copy.known {
      AdvanceKeeps(c, s, w, AtStatus);
    } else {
      var r := s.rows[copy.id].(status := Failed, leaseAt := None);
      assert Rewrite(s, copy.id, r, s.processed) == Fail(s, copy.id);
      SettleKeeps(c, s, w, r, s.processed);
    }
  }

  lemma ReadsKeep(c: Config, s: World, a: Action)
    requires Inv(c, s) && Enabled(c, s, a) && (a.ReadStatus? || a.ReadProcessed? || a.ReadMarker?)
    ensures Inv(c, Apply(c, s, a))
  {
    assert QueueHeld(c, s, a.w) && HeldOk(c, s, a.w, 0) && PlaceOk(s, a.w);
    var id := Head(s, a.w);
    if a.ReadStatus? {
      AdvanceKeeps(c, s, a.w, AtProcessed);
    } else if a.ReadProcessed? {
      AdvanceKeeps(c, s, a.w, if id in s.processed then AtFinalize(ByProcessedRow) else AtMarker);
    } else {
      AdvanceKeeps(c, s, a.w, if id in s.markers then AtFinalize(ByMarker) else AtExec(|s.log|));
    }
  }

  lemma ExecKeeps(c: Config, s: World, w: WorkerId, outcome: Outcome)
    requires Inv(c, s) && Enabled(c, s, Exec(w, outcome))
    ensures Inv(c, Apply(c, s, Exec(w, outcome)))
  {
    if outcome.NotDone? {
      AdvanceKeeps(c, s, w, AtCatch);
    } else {
      ExecLandsKeeps(c, s, w, if outcome.Acked? then AtFinalize(ByPublish) else AtCatch);
    }
  }

  lemma FinalizeKeeps(c: Config, s: World, w: WorkerId, outcome: Outcome)
    requires Inv(c, s) && Enabled(c, s, Finalize(w, outcome))
    ensures Inv(c, Apply(c, s, Finalize(w, outcome)))
  {
    assert QueueHeld(c, s, w) && HeldOk(c, s, w, 0) && PlaceOk(s, w);
    var id := Head(s, w);
    if outcome.NotDone? {
      AdvanceKeeps(c, s, w, AtCatch);
    } else if outcome.AckLost? {
      MarkKeeps(c, s, w, AtCatch);
    } else if s.workers[w].pc.via.ByProcessedRow? {
      var r := s.rows[id].(status := Dispatched, nextRetryAt := None, leaseAt := None);
      assert Rewrite(s, id, r, s.processed + {id}) == MarkDispatched(s, id);
      SettleKeeps(c, s, w, r, s.processed + {id});
    } else {
      MarkKeeps(c, s, w, AtIncr(s.workers[w].pc.via));
    }
  }

  lemma IncrKeeps(c: Config, s: World, w: WorkerId, ok: bool)
    requires Inv(c, s) && Enabled(c, s, Incr(w, ok))
    ensures Inv(c, Apply(c, s, Incr(w, ok)))
  {
    assert QueueHeld(c, s, w) && HeldOk(c, s, w, 0) && PlaceOk(s, w);
    var id := Head(s, w);
    if ok {
      assert Rewrite(s, id, s.rows[id], s.processed) == s by { assert s.rows[id := s.rows[id]] == s.rows; }
      SettleKeeps(c, s, w, s.rows[id], s.processed);
    } else {
      AdvanceKeeps(c, s, w, AtCatch);
    }
  }

  lemma CatchKeeps(c: Config, s: World, a: Action)
    requires Inv(c, s) && Enabled(c, s, a) && a.Catch?
    ensures Inv(c, Apply(c, s, a))
  {
    assert QueueHeld(c, s, a.w) && HeldOk(c, s, a.w, 0);
    var copy := s.workers[a.w].queue[0];
    var s' := RecordFailure(c, s, copy, a.now, a.jitter);
    assert Rewrite(s, copy.id, s'.rows[copy.id], s.processed) == s';
    SettleKeeps(c, s, a.w, s'.rows[copy.id], s.processed);
  }

  lemma ReclaimKeeps(c: Config, s: World, now: int)
    requires Inv(c, s) && BatchesWithin(c.leaseMs, s, Reclaim(now))
    ensures Inv(c, Apply(c, s, Reclaim(now)))
  {
    var t := Apply(c, s, Reclaim(now));
    forall w, i | w in s.workers && 0 <= i < |s.workers[w].queue|
      ensures
        var id := s.workers[w].queue[i].id;
        id in s.rows && id in t.rows && t.rows[id] == s.rows[id] && t.completed[id] == s.completed[id]
    {
      assert QueueHeld(c, s, w) && HeldOk(c, s, w, i);
    }
    UnheldRowsKeep(c, s, t);
  }

  /** No worker holds a FAILED row. */
  lemma FailedIsUnheld(c: Config, s: World, w: WorkerId, i: nat)
    requires Inv(c, s) && w in s.workers && i < |s.workers[w].queue|
    ensures var id := s.workers[w].queue[i].id; id in s.rows && s.rows[id].status != Failed
  {
    assert QueueHeld(c, s, w) && HeldOk(c, s, w, i);
  }

  lemma CliKeeps(c: Config, s: World, a: Action)
    requires c.maxAttempts > 0 && Inv(c, s) && Enabled(c, s, a)
    requires a.CliList? || a.CliReadProcessed? || a.CliReadMarker? || a.CliUpdate? || a.CliStop?
    ensures Inv(c, Apply(c, s, a))
  {
    var t := Apply(c, s, a);
    forall w, i | w in s.workers && 0 <= i < |s.workers[w].queue|
      ensures
        var id := s.workers[w].queue[i].id;
        id in s.rows && id in t.rows && t.rows[id] == s.rows[id] && t.completed[id] == s.completed[id]
    {
      FailedIsUnheld(c, s, w, i);
    }
    UnheldRowsKeep(c, s, t);
  }

  lemma EnqueueExpireKeep(c: Config, s: World, a: Action)
    requires Inv(c, s) && Enabled(c, s, a) && MarkerRetained(s, a) && (a.Enqueue? || a.Expire?)
    requires c.maxAttempts > 0
    ensures Inv(c, Apply(c, s, a))
  {
    var t := Apply(c, s, a);
    forall w, i | w in s.workers && 0 <= i < |s.workers[w].queue|
      ensures
        var id := s.workers[w].queue[i].id;
        id in s.rows && id in t.rows && t.rows[id] == s.rows[id] && t.completed[id] == s.completed[id]
    {
      assert QueueHeld(c, s, w) && HeldOk(c, s, w, i);
    }
    UnheldRowsKeep(c, s, t);
  }

  lemma StepKeepsInv(c: Config, s: World, a: Action, t: World)
    requires c.maxAttempts > 0
    requires Inv(c, s) && Step(c, s, a, t) && BatchesWithin(c.leaseMs, s, a) && MarkerRetained(s, a)
    ensures Inv(c, t)
  {
    match a
    case Claim(w, ids, now) => ClaimKeeps(c, s, w, ids, now);
    case Guards(w) => GuardsKeep(c, s, w);
    case Exec(w, outcome) => ExecKeeps(c, s, w, outcome);
    case Finalize(w, outcome) => FinalizeKeeps(c, s, w, outcome);
    case Incr(w, ok) => IncrKeeps(c, s, w, ok);
    case Catch(_, _, _) => CatchKeeps(c, s, a);
    case Abandon(w) => RemoveWorkerKeeps(c, s, w);
    case ReadStatus(_) => ReadsKeep(c, s, a);
    case ReadProcessed(_) => ReadsKeep(c, s, a);
    case ReadMarker(_) => ReadsKeep(c, s, a);
    case Reclaim(now) => ReclaimKeeps(c, s, now);
    case Enqueue(_, _) => EnqueueExpireKeep(c, s, a);
    case Expire(_) => EnqueueExpireKeep(c, s, a);
    case _ => CliKeeps(c, s, a);
  }

  lemma {:induction false} RunKeepsInv(c: Config, bound: nat, states: seq<World>, actions: seq<Action>, k: nat)
    requires TunedRun(c, bound, states, actions) && bound <= c.leaseMs && k < |states|
    ensures Inv(c, states[k])
  {
    if k > 0 {
      RunKeepsInv(c, bound, states, actions, k - 1);
      assert BatchesWithin(bound, states[k - 1], actions[k - 1]) && MarkerRetained(states[k - 1], actions[k - 1]);
      assert StepAt(c, states, actions, k - 1);
      StepKeepsInv(c, states[k - 1], actions[k - 1], states[k]);
    }
  }

  // ---------- what it means for whole runs ----------

  /** No event is published twice, whatever crashes, lost acknowledgements and failed updates happen. */
  lemma AtMostOnce(c: Config, bound: nat, states: seq<World>, actions: seq<Action>, k: nat)
    requires TunedRun(c, bound, states, actions) && bound <= c.leaseMs && k < |states|
    ensures forall i, j | 0 <= i < j < |states[k].log| :: states[k].log[i].id != states[k].log[j].id
  {
    RunKeepsInv(c, bound, states, actions, k);
  }

  /** The requeue command only resets rows whose event has never been published. */
  lemma RequeueOnlyUnpublished(c: Config, bound: nat, states: seq<World>, actions: seq<Action>, k: nat)
    requires TunedRun(c, bound, states, actions) && bound <= c.leaseMs && k < |actions| && actions[k] == CliUpdate(true)
    ensures CliStands(states[k], CliAtUpdate)
    ensures
      var id := states[k].cli.value.queue[0];
      && states[k].rows[id].status == Failed && id !in Published(states[k].log)
      && id in states[k + 1].rows && states[k + 1].rows[id].status == Pending && states[k + 1].rows[id].attempts == 0
  {
    RunKeepsInv(c, bound, states, actions, k);
    assert StepAt(c, states, actions, k);
  }

  /** A row that may be claimed has attempts left, and no row outruns its budget of dispatches. */
  lemma DispatchBudget(c: Config, bound: nat, states: seq<World>, actions: seq<Action>, k: nat, id: EventId)
    requires TunedRun(c, bound, states, actions) && bound <= c.leaseMs && k < |states| && id in states[k].rows
    ensures id in states[k].completed && states[k].completed[id] <= c.maxAttempts
    ensures states[k].rows[id].attempts <= c.maxAttempts
    ensures states[k].rows[id].status == Pending ==> states[k].rows[id].attempts < c.maxAttempts
  {
    RunKeepsInv(c, bound, states, actions, k);
    assert RowOk(c, states[k].rows[id], states[k].completed[id]);
  }

  /** A dispatch that runs to its end settles its row or uses up exactly one attempt. */
  lemma DispatchMakesProgress(c: Config, bound: nat, states: seq<World>, actions: seq<Action>, k: nat, id: EventId)
    requires TunedRun(c, bound, states, actions) && bound <= c.leaseMs && k < |actions|
    requires id in states[k].rows && id in states[k].completed && id in states[k + 1].completed
    requires states[k + 1].completed[id] == states[k].completed[id] + 1
    ensures id in states[k + 1].rows
    ensures
      var before, after := states[k].rows[id], states[k + 1].rows[id];
      || (after.status == Dispatched && after.attempts == before.attempts)
      || (after.status == Failed && !after.known && after.attempts == before.attempts)
      || (after.status == Failed && after.attempts == before.attempts + 1 == c.maxAttempts)
      || (after.status == Pending && after.attempts == before.attempts + 1 < c.maxAttempts)
  {
    var s, a := states[k], actions[k];
    RunKeepsInv(c, bound, states, actions, k);
    assert StepAt(c, states, actions, k);
    if a.Guards? || a.ReadStatus? || a.Finalize? || a.Incr? || a.Catch? {
      assert QueueHeld(c, s, a.w) && HeldOk(c, s, a.w, 0) && PlaceOk(s, a.w);
    }
  }

  /**
   When a DISPATCHED row changes its status: exactly when the catch block runs for
   it.  Its event stays processed, and the row fails or waits by the claimed copy.
   */
  lemma DispatchedChangesOnlyInCatch(c: Config, bound: nat, states: seq<World>, actions: seq<Action>, k: nat, id: EventId)
    requires TunedRun(c, bound, states, actions) && bound <= c.leaseMs && k < |actions|
    requires id in states[k].rows && states[k].rows[id].status == Dispatched
    ensures id in states[k + 1].rows && id in states[k + 1].processed
    ensures states[k + 1].rows[id].status != Dispatched
       <==> actions[k].Catch? && Stands(states[k], actions[k].w, AtCatch) && Head(states[k], actions[k].w) == id
    ensures states[k + 1].rows[id].status != Dispatched ==>
              actions[k].Catch? && Stands(states[k], actions[k].w, AtCatch) &&
              states[k + 1].rows[id].status
              == if states[k].workers[actions[k].w].queue[0].attempts + 1 >= c.maxAttempts then Failed else Pending
  {
    RunKeepsInv(c, bound, states, actions, k);
    assert StepAt(c, states, actions, k);
    if actions[k].Catch? {
      CatchLeavesDispatched(c, states[k], actions[k], id);
    } else {
      OthersKeepDispatched(c, states[k], actions[k], id);
    }
  }

  lemma CatchLeavesDispatched(c: Config, s: World, a: Action, id: EventId)
    requires Inv(c, s) && Enabled(c, s, a) && a.Catch? && id in s.rows && s.rows[id].status == Dispatched
    ensures
      var t := Apply(c, s, a);
      && id in t.rows && id in t.processed
      && t.rows[id].status == if Head(s, a.w) != id then Dispatched
                              else if s.workers[a.w].queue[0].attempts + 1 >= c.maxAttempts then Failed else Pending
  {
  }

  lemma OthersKeepDispatched(c: Config, s: World, a: Action, id: EventId)
    requires Inv(c, s) && Enabled(c, s, a) && !a.Catch? && id in s.rows && s.rows[id].status == Dispatched
    ensures
      var t := Apply(c, s, a);
      id in t.rows && id in t.processed && t.rows[id].status == Dispatched
  {
    if a.Guards? { assert QueueHeld(c, s, a.w) && HeldOk(c, s, a.w, 0); }
  }
}
