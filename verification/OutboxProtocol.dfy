/**
 The transactional outbox as a state machine.  Postgres holds the outbox rows
 and `processed_events`; Redis holds one marker per published event.  Every
 `await` of the dispatcher is a step of its own, so any number of workers and
 the requeue command interleave freely, and a process can stop between any two
 of its steps.
 */
module OutboxProtocol {
  import opened Options
  import opened Powers

  type EventId = nat
  type WorkerId = nat

  /** `slots` names the worker processes of the deployment; a restarted worker reuses its name. */
  datatype Config = Config(maxAttempts: nat, leaseMs: nat, batch: nat, slots: set<WorkerId>)

  datatype Status = Pending | Processing | Dispatched | Failed

  /** A row of `outbox_events`; `known` says whether its type is a domain event type. */
  datatype Row = Row(known: bool, status: Status, attempts: nat,
                     leaseAt: Option<int>, nextRetryAt: Option<int>)

  /** The copy of a row that the claim statement returned to the worker. */
  datatype Claimed = Claimed(id: EventId, known: bool, attempts: nat)

  /** What led a dispatch to finalization. */
  datatype Via = ByProcessedRow | ByMarker | ByPublish

  /** The await at which a worker stands, for the first row of its queue. */
  datatype Pc =
    | AtGuards
    | AtStatus
    | AtProcessed
    | AtMarker
    | AtExec(seen: nat)  // the marker was absent when `seen` publishes had happened
    | AtFinalize(via: Via)
    | AtIncr(via: Via)
    | AtCatch

  datatype Worker = Worker(queue: seq<Claimed>, claimedAt: int, pc: Pc)

  /** A MULTI that took effect; `seen` is the publish count when its worker read the marker. */
  datatype Publish = Publish(id: EventId, worker: WorkerId, seen: nat)

  datatype CliPc = CliAtProcessed | CliAtMarker | CliAtUpdate

  datatype Cli = Cli(queue: seq<EventId>, pc: CliPc)

  /**
   `log` and `completed` are not stored by the system: the first is every
   publish in order, the second counts the dispatches of a row that ran to
   their end since it was created or requeued.
   */
  datatype World = World(
    rows: map<EventId, Row>,
    processed: set<EventId>,
    markers: set<EventId>,
    log: seq<Publish>,
    workers: map<WorkerId, Worker>,
    cli: Option<Cli>,
    completed: map<EventId, nat>)

  /** Effect of a request as its sender sees it. */
  datatype Outcome = Acked | AckLost | NotDone

  datatype Action =
    | Enqueue(id: EventId, known: bool)
    | Reclaim(now: int)
    | Claim(w: WorkerId, ids: seq<EventId>, now: int)
    | Guards(w: WorkerId)
    | ReadStatus(w: WorkerId)
    | ReadProcessed(w: WorkerId)
    | ReadMarker(w: WorkerId)
    | Exec(w: WorkerId, outcome: Outcome)
    | Finalize(w: WorkerId, outcome: Outcome)
    | Incr(w: WorkerId, ok: bool)
    | Catch(w: WorkerId, now: int, jitter: real)
    | Abandon(w: WorkerId)  // a crash, or an exception that leaves the batch loop
    | Expire(id: EventId)
    | CliList(ids: seq<EventId>)
    | CliReadProcessed
    | CliReadMarker
    | CliUpdate(apply: bool)
    | CliStop

  ghost predicate Initial(s: World) {
    s == World(map[], {}, {}, [], map[], None, map[])
  }

  predicate Distinct<T(==)>(xs: seq<T>) {
    forall i, j | 0 <= i < j < |xs| :: xs[i] != xs[j]
  }

  predicate Eligible(r: Row, now: int) {
    r.status == Pending && (r.nextRetryAt.None? || r.nextRetryAt.value <= now)
  }

  predicate Stands(s: World, w: WorkerId, pc: Pc) {
    w in s.workers && s.workers[w].queue != [] && s.workers[w].queue[0].id in s.rows
    && s.workers[w].queue[0].id in s.completed && s.workers[w].pc == pc
  }

  predicate StandsToExec(s: World, w: WorkerId) {
    w in s.workers && s.workers[w].pc.AtExec? && Stands(s, w, s.workers[w].pc)
  }

  predicate StandsToFinalize(s: World, w: WorkerId) {
    w in s.workers && s.workers[w].pc.AtFinalize? && Stands(s, w, s.workers[w].pc)
  }

  predicate StandsToIncr(s: World, w: WorkerId) {
    w in s.workers && s.workers[w].pc.AtIncr? && Stands(s, w, s.workers[w].pc)
  }

  predicate CliStands(s: World, pc: CliPc) {
    s.cli.Some? && s.cli.value.queue != [] && s.cli.value.queue[0] in s.rows
    && s.cli.value.pc == pc
  }

  predicate Enabled(c: Config, s: World, a: Action) {
    match a
    case Enqueue(id, _) => id !in s.rows
    case Reclaim(_) => true
    case Claim(w, ids, now) =>
      w in c.slots && w !in s.workers && 0 < |ids| <= c.batch && Distinct(ids)
      && forall i | 0 <= i < |ids| :: ids[i] in s.rows && Eligible(s.rows[ids[i]], now)
    case Guards(w) => Stands(s, w, AtGuards)
    case ReadStatus(w) => Stands(s, w, AtStatus)
    case ReadProcessed(w) => Stands(s, w, AtProcessed)
    case ReadMarker(w) => Stands(s, w, AtMarker)
    case Exec(w, _) => StandsToExec(s, w)
    case Finalize(w, outcome) =>
      StandsToFinalize(s, w) && (outcome.Acked? || s.workers[w].pc.via.ByPublish?)
    case Incr(w, ok) => StandsToIncr(s, w) && (ok || s.workers[w].pc.via.ByPublish?)
    case Catch(w, _, jitter) => Stands(s, w, AtCatch) && 0.0 <= jitter < 1.0
    case Abandon(w) => w in s.workers
    case Expire(id) => id in s.markers
    case CliList(ids) =>
      s.cli.None? && ids != [] && Distinct(ids)
      && forall i | 0 <= i < |ids| :: ids[i] in s.rows && s.rows[ids[i]].status == Failed
    case CliReadProcessed => CliStands(s, CliAtProcessed)
    case CliReadMarker => CliStands(s, CliAtMarker)
    case CliUpdate(_) => CliStands(s, CliAtUpdate)
    case CliStop => s.cli.Some?
  }

  /** The event that worker `w` is dispatching. */
  function Head(s: World, w: WorkerId): EventId
    requires w in s.workers && s.workers[w].queue != []
  {
    s.workers[w].queue[0].id
  }

  function Advance(s: World, w: WorkerId, pc: Pc): World
    requires w in s.workers
  {
    s.(workers := s.workers[w := s.workers[w].(pc := pc)])
  }

  /** `dispatchOne` returned: the loop goes on with the next claimed row. */
  function Complete(s: World, w: WorkerId): World
    requires w in s.workers && s.workers[w].queue != [] && Head(s, w) in s.completed
  {
    var id := Head(s, w);
    var rest := s.workers[w].queue[1..];
    s.(workers := if rest == [] then s.workers - {w}
                  else s.workers[w := s.workers[w].(queue := rest, pc := AtGuards)],
       completed := s.completed[id := s.completed[id] + 1])
  }

  function Fail(s: World, id: EventId): World
    requires id in s.rows
  {
    s.(rows := s.rows[id := s.rows[id].(status := Failed, leaseAt := None)])
  }

  /** The finalizing transaction: the row and its `processed_events` entry together. */
  function MarkDispatched(s: World, id: EventId): World
    requires id in s.rows
  {
    s.(rows := s.rows[id := s.rows[id].(status := Dispatched, nextRetryAt := None, leaseAt := None)],
       processed := s.processed + {id})
  }

  function MinReal(x: real, y: real): real {
    if x <= y then x else y
  }

  /** Retry delay in milliseconds after the given number of failed attempts. */
  function Backoff(attemptsAfter: nat, jitter: real): real {
    MinReal(120000.0, 500.0 * Pow2(attemptsAfter) as real + jitter * 500.0)
  }

  /** The catch block's update: the status follows the claimed copy, the counter the stored row. */
  function RecordFailure(c: Config, s: World, copy: Claimed, now: int, jitter: real): World
    requires copy.id in s.rows
  {
    var r := s.rows[copy.id];
    var after := copy.attempts + 1;
    s.(rows := s.rows[copy.id := r.(status := if after >= c.maxAttempts then Failed else Pending,
                                    attempts := r.attempts + 1,
                                    nextRetryAt := Some(now + Backoff(after, jitter).Floor),
                                    leaseAt := None)])
  }

  predicate Stale(c: Config, r: Row, now: int) {
    r.status == Processing && r.leaseAt.Some? && r.leaseAt.value < now - c.leaseMs
  }

  function ClaimRow(r: Row, now: int): Row {
    r.(status := Processing, leaseAt := Some(now))
  }

  function ClaimedCopies(rows: map<EventId, Row>, ids: seq<EventId>): (copies: seq<Claimed>)
    requires forall i | 0 <= i < |ids| :: ids[i] in rows
    ensures |copies| == |ids|
    ensures forall i | 0 <= i < |ids| ::
      copies[i] == Claimed(ids[i], rows[ids[i]].known, rows[ids[i]].attempts)
  {
    seq(|ids|, i requires 0 <= i < |ids| => Claimed(ids[i], rows[ids[i]].known, rows[ids[i]].attempts))
  }

  function CliNext(s: World): World
    requires s.cli.Some? && s.cli.value.queue != []
  {
    var rest := s.cli.value.queue[1..];
    s.(cli := if rest == [] then None else Some(Cli(rest, CliAtProcessed)))
  }

  function Apply(c: Config, s: World, a: Action): World
    requires Enabled(c, s, a)
  {
    match a
    case Enqueue(id, known) =>
      s.(rows := s.rows[id := Row(known, Pending, 0, None, None)],
         completed := s.completed[id := 0])
    case Reclaim(now) =>
      s.(rows := map id | id in s.rows ::
           if Stale(c, s.rows[id], now) then s.rows[id].(status := Pending, leaseAt := None)
           else s.rows[id])
    case Claim(w, ids, now) =>
      s.(rows := map id | id in s.rows ::
           if id in ids then ClaimRow(s.rows[id], now) else s.rows[id],
         workers := s.workers[w := Worker(ClaimedCopies(s.rows, ids), now, AtGuards)])
    case Guards(w) =>
      var copy := s.workers[w].queue[0];
      if copy.attempts >= c.maxAttempts || !copy.known then Complete(Fail(s, copy.id), w)
      else Advance(s, w, AtStatus)
    case ReadStatus(w) =>
      if s.rows[Head(s, w)].status == Dispatched then Complete(s, w) else Advance(s, w, AtProcessed)
    case ReadProcessed(w) =>
      Advance(s, w, if Head(s, w) in s.processed then AtFinalize(ByProcessedRow) else AtMarker)
    case ReadMarker(w) =>
      Advance(s, w, if Head(s, w) in s.markers then AtFinalize(ByMarker) else AtExec(|s.log|))
    case Exec(w, outcome) =>
      var id := Head(s, w);
      var s' := if outcome.NotDone? then s
                else s.(markers := s.markers + {id},
                        log := s.log + [Publish(id, w, s.workers[w].pc.seen)]);
      Advance(s', w, if outcome.Acked? then AtFinalize(ByPublish) else AtCatch)
    case Finalize(w, outcome) =>
      var via := s.workers[w].pc.via;
      var s' := if outcome.NotDone? then s else MarkDispatched(s, Head(s, w));
      if !outcome.Acked? then Advance(s', w, AtCatch)
      else if via.ByProcessedRow? then Complete(s', w)
      else Advance(s', w, AtIncr(via))
    case Incr(w, ok) =>
      if ok then Complete(s, w) else Advance(s, w, AtCatch)
    case Catch(w, now, jitter) =>
      Complete(RecordFailure(c, s, s.workers[w].queue[0], now, jitter), w)
    case Abandon(w) => s.(workers := s.workers - {w})
    case Expire(id) => s.(markers := s.markers - {id})
    case CliList(ids) => s.(cli := Some(Cli(ids, CliAtProcessed)))
    case CliReadProcessed =>
      if s.cli.value.queue[0] in s.processed then CliNext(s)
      else s.(cli := Some(s.cli.value.(pc := CliAtMarker)))
    case CliReadMarker =>
      if s.cli.value.queue[0] in s.markers then CliNext(s)
      else s.(cli := Some(s.cli.value.(pc := CliAtUpdate)))
    case CliUpdate(apply) =>
      var id := s.cli.value.queue[0];
      if apply then
        CliNext(s.(rows := s.rows[id := s.rows[id].(status := Pending, attempts := 0, leaseAt := None,
                                                    nextRetryAt := None)],
                   completed := s.completed[id := 0]))
      else CliNext(s)
    case CliStop => s.(cli := None)
  }

  ghost predicate Step(c: Config, s: World, a: Action, t: World) {
    Enabled(c, s, a) && t == Apply(c, s, a)
  }

  ghost predicate StepAt(c: Config, states: seq<World>, actions: seq<Action>, i: nat)
    requires i < |actions| < |states|
  {
    Step(c, states[i], actions[i], states[i + 1])
  }

  /** A run: every prefix of a possible history of the deployment. */
  ghost predicate Run(c: Config, states: seq<World>, actions: seq<Action>) {
    && |states| == |actions| + 1
    && Initial(states[0])
    && forall i | 0 <= i < |actions| :: StepAt(c, states, actions, i)
  }

  /** The events published so far. */
  function Published(log: seq<Publish>): set<EventId> {
    set p | p in log :: p.id
  }

  lemma PublishedAppend(log: seq<Publish>, p: Publish)
    ensures Published(log + [p]) == Published(log) + {p.id}
  {
    assert forall q :: q in log + [p] <==> q in log || q == p;
  }

  /** Up to the cap, and past it, the delay before a retry never shrinks whatever the jitter. */
  lemma BackoffNeverShrinks(attemptsAfter: nat, j0: real, j1: real)
    requires 1 <= attemptsAfter && 0.0 <= j0 < 1.0 && 0.0 <= j1 < 1.0
    ensures Backoff(attemptsAfter, j0) <= Backoff(attemptsAfter + 1, j1)
    ensures 1000.0 <= Backoff(attemptsAfter, j0) <= 120000.0
  {
    PowAtLeast(attemptsAfter);
    var p := Pow2(attemptsAfter) as real;
    assert Pow2(attemptsAfter + 1) as real == 2.0 * p;
  }

  lemma {:induction false} PowAtLeast(n: nat)
    requires 1 <= n
    ensures 2 <= Pow2(n)
  {
    if n > 1 { PowAtLeast(n - 1); }
  }
}
