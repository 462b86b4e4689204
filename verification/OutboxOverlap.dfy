/**
 What the dispatcher guarantees with no assumption on leases: two workers may
 hold the same row.  The only requirement is on the markers: one expires only
 after its event is in `processed_events` and while no dispatch that missed
 that entry is about to read the marker.
 */
module OutboxOverlap {
  import opened Options
  import opened OutboxProtocol

  ghost predicate ReadingMarker(s: World, w: WorkerId, id: EventId) {
    w in s.workers && s.workers[w].queue != [] && s.workers[w].pc == AtMarker && Head(s, w) == id
  }

  ghost predicate MarkerOutlivesReaders(s: World, a: Action) {
    a.Expire? ==> a.id in s.processed && forall w | w in s.workers :: !ReadingMarker(s, w, a.id)
  }

  ghost predicate OverlapRun(c: Config, states: seq<World>, actions: seq<Action>) {
    Run(c, states, actions)
    && forall i | 0 <= i < |actions| :: MarkerOutlivesReaders(states[i], actions[i])
  }

  // ---------- the invariant ----------

  ghost predicate QueueOk(s: World, w: WorkerId)
    requires w in s.workers
  {
    var q := s.workers[w].queue;
    q != [] && forall i | 0 <= i < |q| :: q[i].id in s.rows
  }

  ghost predicate Shape(c: Config, s: World) {
    && s.rows.Keys == s.completed.Keys
    && s.workers.Keys <= c.slots
    && (forall w | w in s.workers :: QueueOk(s, w))
    && (s.cli.Some? ==> forall i | 0 <= i < |s.cli.value.queue| :: s.cli.value.queue[i] in s.rows)
  }

  ghost predicate Remembered(s: World, id: EventId) {
    id in s.markers || (id in s.processed && forall w | w in s.workers :: !ReadingMarker(s, w, id))
  }

  /** No publish of `id` among the first `seen`, and none by `w` among the later ones. */
  ghost predicate Cleared(log: seq<Publish>, w: WorkerId, id: EventId, seen: nat) {
    && seen <= |log|
    && (forall i | 0 <= i < seen :: log[i].id != id)
    && (forall i | seen <= i < |log| :: log[i].worker != w)
  }

  ghost predicate PlaceOk(s: World, w: WorkerId)
    requires w in s.workers && s.workers[w].queue != []
  {
    match s.workers[w].pc
    case AtExec(seen) => Cleared(s.log, w, Head(s, w), seen)
    case AtFinalize(_) => Head(s, w) in Published(s.log)
    case _ => true
  }

  ghost predicate LogOk(c: Config, log: seq<Publish>) {
    forall j | 0 <= j < |log| ::
      log[j].worker in c.slots && Cleared(log[..j], log[j].worker, log[j].id, log[j].seen)
  }

  ghost predicate Inv(c: Config, s: World) {
    && Shape(c, s)
    && s.processed <= Published(s.log)
    && s.markers <= Published(s.log)
    && (forall id | id in Published(s.log) :: Remembered(s, id))
    && (forall id | id in s.rows && s.rows[id].status == Dispatched :: id in s.processed)
    && (forall w | w in s.workers :: PlaceOk(s, w))
    && LogOk(c, s.log)
  }

  // ---------- the pieces of a step keep it ----------

  lemma AdvanceKeeps(c: Config, s: World, w: WorkerId, pc: Pc)
    requires Inv(c, s) && w in s.workers
    requires pc == AtMarker ==> Head(s, w) !in s.processed
    requires pc.AtExec? ==> Cleared(s.log, w, Head(s, w), pc.seen)
    requires pc.AtFinalize? ==> Head(s, w) in Published(s.log)
    ensures Inv(c, Advance(s, w, pc))
  {
    var t := Advance(s, w, pc);
    forall id | id in Published(t.log) ensures Remembered(t, id) {
      assert Remembered(s, id);
    }
    forall v | v in t.workers ensures QueueOk(t, v) && PlaceOk(t, v) {
      assert QueueOk(s, v) && PlaceOk(s, v);
    }
  }

  lemma CompleteKeeps(c: Config, s: World, w: WorkerId)
    requires Inv(c, s) && w in s.workers
    ensures Head(s, w) in s.completed && Inv(c, Complete(s, w))
  {
    assert QueueOk(s, w);
    var t := Complete(s, w);
    forall v | v in t.workers ensures QueueOk(t, v) && PlaceOk(t, v) {
      assert QueueOk(s, v) && PlaceOk(s, v);
    }
    forall id | id in Published(t.log) ensures Remembered(t, id) {
      assert Remembered(s, id);
    }
  }

  lemma RemoveWorkerKeeps(c: Config, s: World, w: WorkerId)
    requires Inv(c, s)
    ensures Inv(c, s.(workers := s.workers - {w}))
  {
    var t := s.(workers := s.workers - {w});
    forall v | v in t.workers ensures QueueOk(t, v) && PlaceOk(t, v) {
      assert QueueOk(s, v) && PlaceOk(s, v);
    }
    forall id | id in Published(t.log) ensures Remembered(t, id) {
      assert Remembered(s, id);
    }
  }

  /** Rows may change freely as long as only processed events become DISPATCHED. */
  lemma RowsKeep(c: Config, s: World, t: World)
    requires Inv(c, s)
    requires t == s.(rows := t.rows, completed := t.completed, processed := t.processed, cli := t.cli)
    requires t.rows.Keys == t.completed.Keys >= s.rows.Keys
    requires s.processed <= t.processed <= Published(s.log)
    requires forall id | id in t.rows && t.rows[id].status == Dispatched :: id in t.processed
    requires t.cli.Some? ==> forall i | 0 <= i < |t.cli.value.queue| :: t.cli.value.queue[i] in t.rows
    ensures Inv(c, t)
  {
    forall v | v in t.workers ensures QueueOk(t, v) && PlaceOk(t, v) {
      assert QueueOk(s, v) && PlaceOk(s, v);
    }
    forall id | id in Published(t.log) ensures Remembered(t, id) {
      assert Remembered(s, id);
    }
  }

  lemma LogAppendOk(c: Config, log: seq<Publish>, p: Publish)
    requires LogOk(c, log) && p.worker in c.slots && Cleared(log, p.worker, p.id, p.seen)
    ensures LogOk(c, log + [p])
  {
    var longer := log + [p];
    forall j | 0 <= j < |longer|
      ensures longer[j].worker in c.slots
      ensures Cleared(longer[..j], longer[j].worker, longer[j].id, longer[j].seen)
    {
      if j < |log| { assert longer[..j] == log[..j]; } else { assert longer[..j] == log; }
    }
  }

  /** The MULTI takes effect; its worker leaves the exec point in the same step. */
  lemma ExecLandsKeeps(c: Config, s: World, w: WorkerId, pc: Pc)
    requires Inv(c, s) && StandsToExec(s, w) && (pc == AtFinalize(ByPublish) || pc == AtCatch)
    ensures
      var p := Publish(Head(s, w), w, s.workers[w].pc.seen);
      Inv(c, Advance(s.(markers := s.markers + {p.id}, log := s.log + [p]), w, pc))
  {
    var p := Publish(Head(s, w), w, s.workers[w].pc.seen);
    var t := Advance(s.(markers := s.markers + {p.id}, log := s.log + [p]), w, pc);
    assert PlaceOk(s, w);
    PublishedAppend(s.log, p);
    LogAppendOk(c, s.log, p);
    forall v | v in t.workers ensures QueueOk(t, v) && PlaceOk(t, v) {
      assert QueueOk(s, v) && PlaceOk(s, v);
    }
    forall id | id in Published(t.log) ensures Remembered(t, id) {
      assert id == p.id || Remembered(s, id);
    }
  }

  lemma ExpireKeeps(c: Config, s: World, id: EventId)
    requires Inv(c, s) && MarkerOutlivesReaders(s, Expire(id))
    ensures Inv(c, s.(markers := s.markers - {id}))
  {
    var t := s.(markers := s.markers - {id});
    forall v | v in t.workers ensures QueueOk(t, v) && PlaceOk(t, v) {
      assert QueueOk(s, v) && PlaceOk(s, v);
    }
    forall e | e in Published(t.log) ensures Remembered(t, e) {
      assert Remembered(s, e);
    }
  }

  lemma ClaimKeeps(c: Config, s: World, w: WorkerId, ids: seq<EventId>, now: int)
    requires Inv(c, s) && Enabled(c, s, Claim(w, ids, now))
    ensures Inv(c, Apply(c, s, Claim(w, ids, now)))
  {
    var t := Apply(c, s, Claim(w, ids, now));
    forall v | v in t.workers ensures QueueOk(t, v) && PlaceOk(t, v) {
      if v != w { assert QueueOk(s, v) && PlaceOk(s, v); }
    }
    forall e | e in Published(t.log) ensures Remembered(t, e) {
      assert Remembered(s, e);
    }
  }

  // ---------- every step keeps it ----------

  lemma GuardsKeep(c: Config, s: World, w: WorkerId)
    requires Inv(c, s) && Enabled(c, s, Guards(w))
    ensures Inv(c, Apply(c, s, Guards(w)))
  {
    var copy := s.workers[w].queue[0];
    if copy.attempts >= c.maxAttempts || !copy.known {
      RowsKeep(c, s, Fail(s, copy.id));
      CompleteKeeps(c, Fail(s, copy.id), w);
    } else {
      AdvanceKeeps(c, s, w, AtStatus);
    }
  }

  lemma ReadsKeep(c: Config, s: World, a: Action)
    requires Inv(c, s) && Enabled(c, s, a) && (a.ReadStatus? || a.ReadProcessed? || a.ReadMarker?)
    ensures Inv(c, Apply(c, s, a))
  {
    assert PlaceOk(s, a.w);
    if a.ReadStatus? {
      CompleteKeeps(c, s, a.w);
      AdvanceKeeps(c, s, a.w, AtProcessed);
    } else if a.ReadProcessed? {
      AdvanceKeeps(c, s, a.w, if Head(s, a.w) in s.processed then AtFinalize(ByProcessedRow) else AtMarker);
    } else if Head(s, a.w) in s.markers {
      AdvanceKeeps(c, s, a.w, AtFinalize(ByMarker));
    } else {
      var id := Head(s, a.w);
      assert ReadingMarker(s, a.w, id);
      assert !Remembered(s, id);
      forall i | 0 <= i < |s.log| ensures s.log[i].id != id {
        assert s.log[i].id in Published(s.log);
      }
      AdvanceKeeps(c, s, a.w, AtExec(|s.log|));
    }
  }

  lemma ExecKeeps(c: Config, s: World, w: WorkerId, outcome: Outcome)
    requires Inv(c, s) && Enabled(c, s, Exec(w, outcome))
    ensures Inv(c, Apply(c, s, Exec(w, outcome)))
  {
    if outcome.NotDone? {
      AdvanceKeeps(c, s, w, AtCatch);
    } else {
      ExecLandsKeeps(c, s, w, if outcome.Acked? then AtFinalize(ByPublish) else AtCatch);
    }
  }

  lemma FinalizeKeeps(c: Config, s: World, w: WorkerId, outcome: Outcome)
    requires Inv(c, s) && Enabled(c, s, Finalize(w, outcome))
    ensures Inv(c, Apply(c, s, Finalize(w, outcome)))
  {
    var id := Head(s, w);
    assert PlaceOk(s, w);
    var s' := if outcome.NotDone? then s else MarkDispatched(s, id);
    RowsKeep(c, s, s');
    if !outcome.Acked? {
      AdvanceKeeps(c, s', w, AtCatch);
    } else if s.workers[w].pc.via.ByProcessedRow? {
      CompleteKeeps(c, s', w);
    } else {
      AdvanceKeeps(c, s', w, AtIncr(s.workers[w].pc.via));
    }
  }

  lemma IncrCatchKeep(c: Config, s: World, a: Action)
    requires Inv(c, s) && Enabled(c, s, a) && (a.Incr? || a.Catch?)
    ensures Inv(c, Apply(c, s, a))
  {
    if a.Catch? {
      var s' := RecordFailure(c, s, s.workers[a.w].queue[0], a.now, a.jitter);
      RowsKeep(c, s, s');
      CompleteKeeps(c, s', a.w);
    } else if a.ok {
      CompleteKeeps(c, s, a.w);
    } else {
      AdvanceKeeps(c, s, a.w, AtCatch);
    }
  }

  lemma RowTableKeeps(c: Config, s: World, a: Action)
    requires Inv(c, s) && Enabled(c, s, a) && (a.Enqueue? || a.Reclaim?)
    ensures Inv(c, Apply(c, s, a))
  {
    RowsKeep(c, s, Apply(c, s, a));
  }

  lemma CliKeeps(c: Config, s: World, a: Action)
    requires Inv(c, s) && Enabled(c, s, a)
    requires a.CliList? || a.CliReadProcessed? || a.CliReadMarker? || a.CliUpdate? || a.CliStop?
    ensures Inv(c, Apply(c, s, a))
  {
    RowsKeep(c, s, Apply(c, s, a));
  }

  lemma StepKeepsInv(c: Config, s: World, a: Action, t: World)
    requires Inv(c, s) && Step(c, s, a, t) && MarkerOutlivesReaders(s, a)
    ensures Inv(c, t)
  {
    match a
    case Claim(w, ids, now) => ClaimKeeps(c, s, w, ids, now);
    case Guards(w) => GuardsKeep(c, s, w);
    case Exec(w, outcome) => ExecKeeps(c, s, w, outcome);
    case Finalize(w, outcome) => FinalizeKeeps(c, s, w, outcome);
    case Incr(_, _) => IncrCatchKeep(c, s, a);
    case Catch(_, _, _) => IncrCatchKeep(c, s, a);
    case Abandon(w) => RemoveWorkerKeeps(c, s, w);
    case Expire(id) => ExpireKeeps(c, s, id);
    case ReadStatus(_) => ReadsKeep(c, s, a);
    case ReadProcessed(_) => ReadsKeep(c, s, a);
    case ReadMarker(_) => ReadsKeep(c, s, a);
    case Enqueue(_, _) => RowTableKeeps(c, s, a);
    case Reclaim(_) => RowTableKeeps(c, s, a);
    case _ => CliKeeps(c, s, a);
  }

  lemma {:induction false} RunKeepsInv(c: Config, states: seq<World>, actions: seq<Action>, k: nat)
    requires OverlapRun(c, states, actions) && k < |states|
    ensures Inv(c, states[k])
  {
    if k > 0 {
      RunKeepsInv(c, states, actions, k - 1);
      assert StepAt(c, states, actions, k - 1);
      StepKeepsInv(c, states[k - 1], actions[k - 1], states[k]);
    }
  }

  // ---------- what it means for whole runs ----------

  /**
   A dispatch that reads the marker after an event was published does not
   publish it: each publish was cleared before every earlier publish of the
   same event, and by another worker.
   */
  lemma LateReaderNeverPublishes(c: Config, states: seq<World>, actions: seq<Action>, k: nat, i: nat, j: nat)
    requires OverlapRun(c, states, actions) && k < |states|
    requires i < j < |states[k].log| && states[k].log[i].id == states[k].log[j].id
    ensures states[k].log[j].seen <= i
    ensures states[k].log[i].worker != states[k].log[j].worker
  {
    RunKeepsInv(c, states, actions, k);
    var log := states[k].log;
    assert Cleared(log[..j], log[j].worker, log[j].id, log[j].seen);
    assert log[..j][i] == log[i];
  }

  lemma DispatchedWasPublished(c: Config, states: seq<World>, actions: seq<Action>, k: nat, id: EventId)
    requires OverlapRun(c, states, actions) && k < |states|
    requires id in states[k].rows && states[k].rows[id].status == Dispatched
    ensures id in states[k].processed && id in Published(states[k].log)
  {
    RunKeepsInv(c, states, actions, k);
  }

  function PublishCount(log: seq<Publish>, id: EventId): nat {
    if log == [] then 0
    else PublishCount(log[..|log| - 1], id) + if log[|log| - 1].id == id then 1 else 0
  }

  function Publishers(log: seq<Publish>, id: EventId): set<WorkerId> {
    set p | p in log && p.id == id :: p.worker
  }

  lemma PublishersAppend(log: seq<Publish>, p: Publish, id: EventId)
    ensures Publishers(log + [p], id) == Publishers(log, id) + if p.id == id then {p.worker} else {}
    ensures PublishCount(log + [p], id) == PublishCount(log, id) + if p.id == id then 1 else 0
  {
    assert (log + [p])[..|log|] == log;
    assert p in log + [p];
  }

  /** A publish that was cleared comes from a worker that has not published the event before. */
  lemma ClearedIsNewPublisher(log: seq<Publish>, w: WorkerId, id: EventId, seen: nat)
    requires Cleared(log, w, id, seen)
    ensures w !in Publishers(log, id)
  {
  }

  lemma {:induction false} CountIsPublishers(c: Config, log: seq<Publish>, id: EventId, n: nat)
    requires LogOk(c, log) && n <= |log|
    ensures PublishCount(log[..n], id) == |Publishers(log[..n], id)|
    ensures Publishers(log[..n], id) <= c.slots
  {
    if n > 0 {
      var p := log[n - 1];
      CountIsPublishers(c, log, id, n - 1);
      assert log[..n] == log[..n - 1] + [p];
      PublishersAppend(log[..n - 1], p, id);
      assert Cleared(log[..n - 1], p.worker, p.id, p.seen);
      ClearedIsNewPublisher(log[..n - 1], p.worker, p.id, p.seen);
    }
  }

  lemma {:induction false} SubsetSize<T>(a: set<T>, b: set<T>)
    requires a <= b
    ensures |a| <= |b|
  {
    if a != {} {
      var x :| x in a;
      SubsetSize(a - {x}, b - {x});
    }
  }

  /** However badly leases are tuned, an event is published at most once per worker slot. */
  lemma PublishesBoundedByWorkers(c: Config, states: seq<World>, actions: seq<Action>, k: nat, id: EventId)
    requires OverlapRun(c, states, actions) && k < |states|
    ensures PublishCount(states[k].log, id) <= |c.slots|
  {
    RunKeepsInv(c, states, actions, k);
    var log := states[k].log;
    CountIsPublishers(c, log, id, |log|);
    assert log[..|log|] == log;
    SubsetSize(Publishers(states[k].log, id), c.slots);
  }
}
