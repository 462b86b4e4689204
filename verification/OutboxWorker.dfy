/**
 The dispatcher and the requeue command as programs.  `Platform` holds what
 Postgres and Redis hold, with the place at which each live worker stands.
 Between two of its own requests a program waits, and everybody else may act:
 `Interfere` performs any number of their steps.  Each method shows that the
 program's requests are steps of the protocol, so what is proved of every run
 of the protocol holds of every run of the programs.
 */
module OutboxWorker {
  import opened Options
  import opened Powers
  import opened OutboxProtocol
  import OutboxLease
  import OutboxOverlap

  /** The process that takes a step; reclaim, enqueue and expiry belong to nobody. */
  datatype Actor = Nobody | ByWorker(w: WorkerId) | ByCli

  function ActorOf(a: Action): Actor {
    match a
    case Enqueue(_, _) => Nobody
    case Reclaim(_) => Nobody
    case Expire(_) => Nobody
    case Claim(w, _, _) => ByWorker(w)
    case Guards(w) => ByWorker(w)
    case ReadStatus(w) => ByWorker(w)
    case ReadProcessed(w) => ByWorker(w)
    case ReadMarker(w) => ByWorker(w)
    case Exec(w, _) => ByWorker(w)
    case Finalize(w, _) => ByWorker(w)
    case Incr(w, _) => ByWorker(w)
    case Catch(w, _, _) => ByWorker(w)
    case Abandon(w) => ByWorker(w)
    case _ => ByCli
  }

  /** What a process knows stays true while others act: its own place, and that nothing is deleted from Postgres. */
  ghost predicate KeepsPlace(s: World, t: World, me: Actor) {
    && s.rows.Keys <= t.rows.Keys && s.completed.Keys <= t.completed.Keys && s.processed <= t.processed
    && (me.ByWorker? ==> (me.w in s.workers <==> me.w in t.workers)
                         && (me.w in s.workers ==> t.workers[me.w] == s.workers[me.w]))
    && (me.ByCli? ==> t.cli == s.cli)
  }

  lemma OthersKeepPlace(c: Config, s: World, a: Action, me: Actor)
    requires Enabled(c, s, a) && ActorOf(a) != me
    ensures KeepsPlace(s, Apply(c, s, a), me)
  {
    if a.Catch? {
      OtherCatchKeepsPlace(c, s, a, me);
    } else if ActorOf(a).ByWorker? {
      OtherWorkerKeepsPlace(c, s, a, me);
    }
  }

  lemma OtherWorkerKeepsPlace(c: Config, s: World, a: Action, me: Actor)
    requires Enabled(c, s, a) && ActorOf(a) != me && ActorOf(a).ByWorker? && !a.Catch?
    ensures KeepsPlace(s, Apply(c, s, a), me)
  {
  }

  lemma OtherCatchKeepsPlace(c: Config, s: World, a: Action, me: Actor)
    requires Enabled(c, s, a) && ActorOf(a) != me && a.Catch?
    ensures KeepsPlace(s, Apply(c, s, a), me)
  {
    var s' := RecordFailure(c, s, s.workers[a.w].queue[0], a.now, a.jitter);
    assert s'.workers == s.workers && s'.completed == s.completed && s'.cli == s.cli;
  }

  ghost predicate QueuesExist(s: World) {
    && s.rows.Keys == s.completed.Keys
    && (forall id | id in s.rows && s.rows[id].status == Dispatched :: id in s.processed)
    && (forall w, i | w in s.workers && 0 <= i < |s.workers[w].queue| :: s.workers[w].queue[i].id in s.rows)
    && (s.cli.Some? ==> forall i | 0 <= i < |s.cli.value.queue| :: s.cli.value.queue[i] in s.rows)
  }

  lemma CompleteKeepsQueues(s: World, w: WorkerId)
    requires QueuesExist(s) && w in s.workers && s.workers[w].queue != [] && Head(s, w) in s.completed
    ensures QueuesExist(Complete(s, w))
  {
  }

  lemma CatchKeepsQueues(c: Config, s: World, a: Action)
    requires QueuesExist(s) && Enabled(c, s, a) && a.Catch?
    ensures QueuesExist(Apply(c, s, a))
  {
    CompleteKeepsQueues(RecordFailure(c, s, s.workers[a.w].queue[0], a.now, a.jitter), a.w);
  }

  lemma WritesKeepQueues(c: Config, s: World, a: Action)
    requires QueuesExist(s) && Enabled(c, s, a) && (a.Guards? || a.Finalize?)
    ensures QueuesExist(Apply(c, s, a))
  {
    var id := Head(s, a.w);
    if a.Guards? {
      CompleteKeepsQueues(Fail(s, id), a.w);
    } else {
      CompleteKeepsQueues(MarkDispatched(s, id), a.w);
    }
  }

  lemma ReadsKeepQueues(c: Config, s: World, a: Action)
    requires QueuesExist(s) && Enabled(c, s, a) && ActorOf(a).ByWorker?
    requires !(a.Claim? || a.Guards? || a.Finalize? || a.Catch?)
    ensures QueuesExist(Apply(c, s, a))
  {
    if a.ReadStatus? || a.Incr? { CompleteKeepsQueues(s, a.w); }
  }

  lemma StepKeepsQueues(c: Config, s: World, a: Action, t: World)
    requires QueuesExist(s) && Step(c, s, a, t)
    ensures QueuesExist(t)
  {
    if a.Catch? {
      CatchKeepsQueues(c, s, a);
    } else if a.Guards? || a.Finalize? {
      WritesKeepQueues(c, s, a);
    } else if ActorOf(a).ByWorker? && !a.Claim? {
      ReadsKeepQueues(c, s, a);
    }
  }

  lemma {:induction false} RunKeepsQueues(c: Config, states: seq<World>, actions: seq<Action>, k: nat)
    requires Run(c, states, actions) && k < |states|
    ensures QueuesExist(states[k])
  {
    if k > 0 {
      RunKeepsQueues(c, states, actions, k - 1);
      assert StepAt(c, states, actions, k - 1);
      StepKeepsQueues(c, states[k - 1], actions[k - 1], states[k]);
    }
  }

  predicate GuardsPass(c: Config, copy: Claimed) {
    copy.attempts < c.maxAttempts && copy.known
  }

  datatype CliAction = Skip | WouldRequeue | Requeued

  datatype CliResult = CliResult(id: EventId, action: CliAction)

  /** How many rows the command has reset. */
  function Resets(actions: seq<Action>): nat {
    if actions == [] then 0
    else Resets(actions[..|actions| - 1]) + if actions[|actions| - 1] == CliUpdate(true) then 1 else 0
  }

  function Requeues(out: seq<CliResult>): nat {
    if out == [] then 0 else Requeues(out[..|out| - 1]) + if out[|out| - 1].action == Requeued then 1 else 0
  }

  class Platform {
    const c: Config
    var rows: map<EventId, Row>
    var processed: set<EventId>
    var markers: set<EventId>
    var log: seq<Publish>
    var workers: map<WorkerId, Worker>
    var cli: Option<Cli>
    var completed: map<EventId, nat>
    ghost var states: seq<World>
    ghost var actions: seq<Action>

    function View(): World
      reads this
    {
      World(rows, processed, markers, log, workers, cli, completed)
    }

    /** The platform stands at the end of a run of the protocol. */
    ghost predicate Valid()
      reads this
    {
      Run(c, states, actions) && states[|actions|] == View()
    }

    constructor (c: Config)
      ensures Valid() && this.c == c && actions == []
    {
      this.c := c;
      rows, processed, markers, log := map[], {}, {}, [];
      workers, cli, completed := map[], None, map[];
      states, actions := [World(map[], {}, {}, [], map[], None, map[])], [];
    }

    /** Bookkeeping of the proof: the fields now show the world after `a`. */
    ghost method Record(a: Action)
      requires Run(c, states, actions) && Enabled(c, states[|actions|], a)
      requires View() == Apply(c, states[|actions|], a)
      modifies this`states, this`actions
      ensures Valid() && actions == old(actions) + [a] && states == old(states) + [View()]
      ensures Resets(actions) == Resets(old(actions)) + if a == CliUpdate(true) then 1 else 0
    {
      var n := |actions|;
      states, actions := states + [View()], actions + [a];
      forall i | 0 <= i < |actions| ensures StepAt(c, states, actions, i) {
        if i < n { assert StepAt(c, old(states), old(actions), i); }
      }
      assert actions[..n] == old(actions);
    }

    method Perform(a: Action)
      requires Valid() && Enabled(c, View(), a)
      modifies this
      ensures Valid() && View() == Apply(c, old(View()), a)
      ensures actions == old(actions) + [a] && old(states) <= states
      ensures Resets(actions) == Resets(old(actions)) + if a == CliUpdate(true) then 1 else 0
    {
      var t := Apply(c, View(), a);
      rows, processed, markers, log := t.rows, t.processed, t.markers, t.log;
      workers, cli, completed := t.workers, t.cli, t.completed;
      Record(a);
    }

    /** While `me` waits, the other processes take any number of steps. */
    method Interfere(me: Actor)
      requires Valid()
      modifies this
      ensures Valid() && KeepsPlace(old(View()), View(), me)
      ensures old(actions) <= actions && old(states) <= states
      ensures forall i | |old(actions)| <= i < |actions| :: ActorOf(actions[i]) != me
      ensures me.ByCli? ==> Resets(actions) == Resets(old(actions))
    {
      var attempts: seq<Action> := *;
      for i := 0 to |attempts|
        invariant Valid() && KeepsPlace(old(View()), View(), me)
        invariant old(actions) <= actions && old(states) <= states
        invariant forall i | |old(actions)| <= i < |actions| :: ActorOf(actions[i]) != me
        invariant me.ByCli? ==> Resets(actions) == Resets(old(actions))
      {
        if Enabled(c, View(), attempts[i]) && ActorOf(attempts[i]) != me {
          OthersKeepPlace(c, View(), attempts[i], me);
          Perform(attempts[i]);
        }
      }
    }

    /**
     Worker `w` stands at `pc` with `queue` left.  Each request below appends its
     action to `actions`; as `Valid` makes that a run, the action fixes the whole
     new state.  The other clauses say where the worker stands then.
     */
    ghost predicate At(w: WorkerId, queue: seq<Claimed>, claimedAt: int, pc: Pc)
      reads this
    {
      w in workers && workers[w] == Worker(queue, claimedAt, pc)
      && queue != [] && queue[0].id in rows && queue[0].id in completed
    }

    /** Worker `w` has let go of the first of `queue`. */
    ghost predicate MovedOn(w: WorkerId, queue: seq<Claimed>, claimedAt: int)
      requires queue != []
      reads this
    {
      if |queue| == 1 then w !in workers
      else w in workers && workers[w] == Worker(queue[1..], claimedAt, AtGuards)
    }

    // ---------- the dispatcher's requests, one step each ----------

    /** The loop over the claimed rows moves on. */
    method NextRow(w: WorkerId)
      requires w in workers && workers[w].queue != [] && Head(View(), w) in completed
      modifies this`workers, this`completed
      ensures View() == Complete(old(View()), w)
    {
      var id := workers[w].queue[0].id;
      var rest := workers[w].queue[1..];
      workers := if rest == [] then workers - {w}
                 else workers[w := workers[w].(queue := rest, pc := AtGuards)];
      completed := completed[id := completed[id] + 1];
    }

    method MoveTo(w: WorkerId, pc: Pc)
      requires w in workers
      modifies this`workers
      ensures View() == Advance(old(View()), w, pc)
    {
      workers := workers[w := workers[w].(pc := pc)];
    }

    /** The exception that leaves the batch loop, or the crash: claimed rows stay as they are. */
    method AbandonBatch(w: WorkerId)
      requires Valid() && w in workers
      modifies this
      ensures Valid() && actions == old(actions) + [Abandon(w)]
      ensures w !in workers && processed == old(processed)
    {
      workers := workers - {w};
      Record(Abandon(w));
    }

    method CheckGuards(w: WorkerId, ghost queue: seq<Claimed>, ghost claimedAt: int) returns (failed: bool)
      requires Valid() && At(w, queue, claimedAt, AtGuards)
      modifies this
      ensures processed == old(processed)
      ensures Valid() && actions == old(actions) + [Guards(w)]
      ensures if failed then MovedOn(w, queue, claimedAt) else At(w, queue, claimedAt, AtStatus)
      ensures failed <==> queue[0].attempts >= c.maxAttempts || !queue[0].known
      ensures
        var id := queue[0].id;
        rows == if failed then old(rows)[id := old(rows[id]).(status := Failed, leaseAt := None)] else old(rows)
    {
      var row := workers[w].queue[0];
      failed := row.attempts >= c.maxAttempts || !row.known;
      if failed {
        rows := rows[row.id := rows[row.id].(status := Failed, leaseAt := None)];
        NextRow(w);
      } else {
        MoveTo(w, AtStatus);
      }
      Record(Guards(w));
    }

    method FindStatus(w: WorkerId, ghost queue: seq<Claimed>, ghost claimedAt: int) returns (status: Status)
      requires Valid() && At(w, queue, claimedAt, AtStatus)
      modifies this
      ensures processed == old(processed)
      ensures Valid() && actions == old(actions) + [ReadStatus(w)]
      ensures status == old(rows[queue[0].id].status)
      ensures if status == Dispatched then MovedOn(w, queue, claimedAt) else At(w, queue, claimedAt, AtProcessed)
    {
      status := rows[workers[w].queue[0].id].status;
      if status == Dispatched { NextRow(w); } else { MoveTo(w, AtProcessed); }
      Record(ReadStatus(w));
    }

    method FindProcessed(w: WorkerId, ghost queue: seq<Claimed>, ghost claimedAt: int) returns (already: bool)
      requires Valid() && At(w, queue, claimedAt, AtProcessed)
      modifies this
      ensures processed == old(processed)
      ensures Valid() && actions == old(actions) + [ReadProcessed(w)]
      ensures already <==> queue[0].id in old(processed)
      ensures At(w, queue, claimedAt, if already then AtFinalize(ByProcessedRow) else AtMarker)
    {
      already := workers[w].queue[0].id in processed;
      MoveTo(w, if already then AtFinalize(ByProcessedRow) else AtMarker);
      Record(ReadProcessed(w));
    }

    method GetMarker(w: WorkerId, ghost queue: seq<Claimed>, ghost claimedAt: int) returns (marked: bool)
      requires Valid() && At(w, queue, claimedAt, AtMarker)
      modifies this
      ensures processed == old(processed)
      ensures Valid() && actions == old(actions) + [ReadMarker(w)]
      ensures marked <==> queue[0].id in old(markers)
      ensures At(w, queue, claimedAt, if marked then AtFinalize(ByMarker) else AtExec(|old(log)|))
    {
      marked := workers[w].queue[0].id in markers;
      MoveTo(w, if marked then AtFinalize(ByMarker) else AtExec(|log|));
      Record(ReadMarker(w));
    }

    /** MULTI: publish, append to the stream and set the marker, all or nothing. */
    method ExecMulti(w: WorkerId, ghost queue: seq<Claimed>, ghost claimedAt: int, ghost seen: nat, outcome: Outcome)
      requires Valid() && At(w, queue, claimedAt, AtExec(seen))
      modifies this
      ensures processed == old(processed)
      ensures Valid() && actions == old(actions) + [Exec(w, outcome)]
      ensures log == if outcome.NotDone? then old(log) else old(log) + [Publish(queue[0].id, w, seen)]
      ensures markers == (if outcome.NotDone? then old(markers) else old(markers) + {queue[0].id}) && rows == old(rows)
      ensures At(w, queue, claimedAt, if outcome.Acked? then AtFinalize(ByPublish) else AtCatch)
    {
      if !outcome.NotDone? {
        var id := workers[w].queue[0].id;
        log := log + [Publish(id, w, workers[w].pc.seen)];
        markers := markers + {id};
      }
      MoveTo(w, if outcome.Acked? then AtFinalize(ByPublish) else AtCatch);
      Record(Exec(w, outcome));
    }

    /** The finalizing transaction; outside the try block a failure is an exception instead. */
    method FinalizeDispatched(w: WorkerId, ghost queue: seq<Claimed>, ghost claimedAt: int, via: Via, outcome: Outcome)
      requires Valid() && At(w, queue, claimedAt, AtFinalize(via)) && (outcome.Acked? || via.ByPublish?)
      modifies this
      ensures Valid() && actions == old(actions) + [Finalize(w, outcome)]
      ensures processed == if outcome.NotDone? then old(processed) else old(processed) + {queue[0].id}
      ensures
        var id := queue[0].id;
        rows == if outcome.NotDone? then old(rows)
                else old(rows)[id := old(rows[id]).(status := Dispatched, nextRetryAt := None, leaseAt := None)]
      ensures if outcome.Acked? && via.ByProcessedRow? then MovedOn(w, queue, claimedAt)
              else At(w, queue, claimedAt, if outcome.Acked? then AtIncr(via) else AtCatch)
    {
      var id := workers[w].queue[0].id;
      if !outcome.NotDone? {
        rows := rows[id := rows[id].(status := Dispatched, nextRetryAt := None, leaseAt := None)];
        processed := processed + {id};
      }
      if !outcome.Acked? {
        MoveTo(w, AtCatch);
      } else if via.ByProcessedRow? {
        NextRow(w);
      } else {
        MoveTo(w, AtIncr(via));
      }
      Record(Finalize(w, outcome));
    }

    method CountDispatched(w: WorkerId, ghost queue: seq<Claimed>, ghost claimedAt: int, ghost via: Via, ok: bool)
      requires Valid() && At(w, queue, claimedAt, AtIncr(via)) && (ok || via.ByPublish?)
      modifies this
      ensures processed == old(processed)
      ensures Valid() && actions == old(actions) + [Incr(w, ok)]
      ensures if ok then MovedOn(w, queue, claimedAt) else At(w, queue, claimedAt, AtCatch)
    {
      if ok { NextRow(w); } else { MoveTo(w, AtCatch); }
      Record(Incr(w, ok));
    }

    method RecordAttempt(w: WorkerId, ghost queue: seq<Claimed>, ghost claimedAt: int, now: int, jitter: real)
      requires Valid() && At(w, queue, claimedAt, AtCatch) && 0.0 <= jitter < 1.0
      modifies this
      ensures processed == old(processed)
      ensures Valid() && actions == old(actions) + [Catch(w, now, jitter)]
      ensures
        var id, stored := queue[0].id, old(rows[queue[0].id]);
        var delay := 500.0 * Pow2(queue[0].attempts + 1) as real + 500.0 * jitter;
        rows == old(rows)[id := Row(stored.known, if queue[0].attempts + 1 >= c.maxAttempts then Failed else Pending,
                                    stored.attempts + 1, None,
                                    Some(now + (if delay <= 120000.0 then delay else 120000.0).Floor))]
      ensures MovedOn(w, queue, claimedAt)
    {
      var row := workers[w].queue[0];
      var attemptsAfter := row.attempts + 1;
      var stored := rows[row.id];
      rows := rows[row.id := stored.(status := if attemptsAfter >= c.maxAttempts then Failed else Pending,
                                     attempts := stored.attempts + 1,
                                     nextRetryAt := Some(now + Backoff(attemptsAfter, jitter).Floor),
                                     leaseAt := None)];
      NextRow(w);
      Record(Catch(w, now, jitter));
    }

    // ---------- dispatchOne and the batch ----------

    // A dispatch is `calm` when no request of its worker fails; other processes still act.

    /** An await of worker `w`: others act, and unless `calm` the worker may not come back. */
    method Await(w: WorkerId, calm: bool, ghost queue: seq<Claimed>, ghost claimedAt: int, ghost pc: Pc)
      returns (thrown: bool)
      requires Valid() && At(w, queue, claimedAt, pc)
      modifies this
      ensures Valid() && old(actions) <= actions && old(processed) <= processed
      ensures if thrown then w !in workers else At(w, queue, claimedAt, pc)
      ensures calm ==> !thrown
    {
      Interfere(ByWorker(w));
      thrown := *;
      thrown := thrown && !calm;
      if thrown { AbandonBatch(w); }
    }

    method DispatchOne(w: WorkerId, calm: bool, ghost queue: seq<Claimed>, ghost claimedAt: int) returns (thrown: bool)
      requires Valid() && At(w, queue, claimedAt, AtGuards)
      modifies this
      ensures Valid() && old(actions) <= actions
      ensures if thrown then w !in workers else MovedOn(w, queue, claimedAt)
      ensures calm ==> !thrown
      ensures calm && GuardsPass(c, queue[0]) ==> queue[0].id in processed
      ensures old(processed) <= processed
    {
      thrown := Await(w, calm, queue, claimedAt, AtGuards);
      if thrown { return; }
      var failed := CheckGuards(w, queue, claimedAt);
      if failed { return; }

      thrown := Await(w, calm, queue, claimedAt, AtStatus);
      if thrown { return; }
      if rows[queue[0].id].status == Dispatched { DispatchedIsProcessed(queue[0].id); }
      var status := FindStatus(w, queue, claimedAt);
      if status == Dispatched { return; }

      thrown := DispatchUnfinished(w, calm, queue, claimedAt);
    }

    /** From the read of `processed_events` on. */
    method DispatchUnfinished(w: WorkerId, calm: bool, ghost queue: seq<Claimed>, ghost claimedAt: int)
      returns (thrown: bool)
      requires Valid() && At(w, queue, claimedAt, AtProcessed)
      modifies this
      ensures Valid() && old(actions) <= actions
      ensures if thrown then w !in workers else MovedOn(w, queue, claimedAt)
      ensures calm ==> !thrown && queue[0].id in processed
      ensures old(processed) <= processed
    {
      thrown := Await(w, calm, queue, claimedAt, AtProcessed);
      if thrown { return; }
      var already := FindProcessed(w, queue, claimedAt);
      if already {
        thrown := Await(w, calm, queue, claimedAt, AtFinalize(ByProcessedRow));
        if !thrown { FinalizeDispatched(w, queue, claimedAt, ByProcessedRow, Acked); }
        return;
      }
      thrown := DispatchUnprocessed(w, calm, queue, claimedAt);
    }

    /** From the marker read on: reconcile an event Redis already has, or publish it. */
    method DispatchUnprocessed(w: WorkerId, calm: bool, ghost queue: seq<Claimed>, ghost claimedAt: int) returns (thrown: bool)
      requires Valid() && At(w, queue, claimedAt, AtMarker)
      modifies this
      ensures Valid() && old(actions) <= actions
      ensures if thrown then w !in workers else MovedOn(w, queue, claimedAt)
      ensures calm ==> !thrown && queue[0].id in processed
      ensures old(processed) <= processed
    {
      thrown := Await(w, calm, queue, claimedAt, AtMarker);
      if thrown { return; }
      ghost var seen := |log|;
      var marked := GetMarker(w, queue, claimedAt);
      if marked {
        thrown := Await(w, calm, queue, claimedAt, AtFinalize(ByMarker));
        if thrown { return; }
        FinalizeDispatched(w, queue, claimedAt, ByMarker, Acked);
        thrown := Await(w, calm, queue, claimedAt, AtIncr(ByMarker));
        if !thrown { CountDispatched(w, queue, claimedAt, ByMarker, true); }
        return;
      }
      thrown := PublishOne(w, calm, queue, claimedAt, seen);
    }

    /** The try block; any failure in it ends in the catch block. */
    method PublishOne(w: WorkerId, calm: bool, ghost queue: seq<Claimed>, ghost claimedAt: int, ghost seen: nat)
      returns (thrown: bool)
      requires Valid() && At(w, queue, claimedAt, AtExec(seen))
      modifies this
      ensures Valid() && old(actions) <= actions
      ensures if thrown then w !in workers else MovedOn(w, queue, claimedAt)
      ensures calm ==> !thrown && queue[0].id in processed
      ensures old(processed) <= processed
    {
      thrown := Await(w, calm, queue, claimedAt, AtExec(seen));
      if thrown { return; }
      var outcome: Outcome := *;
      if calm { outcome := Acked; }
      ExecMulti(w, queue, claimedAt, seen, outcome);
      if !outcome.Acked? {
        thrown := CatchFailure(w, calm, queue, claimedAt);
        return;
      }
      thrown := Await(w, calm, queue, claimedAt, AtFinalize(ByPublish));
      if thrown { return; }
      outcome := *;
      if calm { outcome := Acked; }
      FinalizeDispatched(w, queue, claimedAt, ByPublish, outcome);
      if !outcome.Acked? {
        thrown := CatchFailure(w, calm, queue, claimedAt);
        return;
      }
      thrown := CountOrCatch(w, calm, queue, claimedAt);
    }

    method CountOrCatch(w: WorkerId, calm: bool, ghost queue: seq<Claimed>, ghost claimedAt: int) returns (thrown: bool)
      requires Valid() && At(w, queue, claimedAt, AtIncr(ByPublish))
      modifies this
      ensures Valid() && old(actions) <= actions
      ensures if thrown then w !in workers else MovedOn(w, queue, claimedAt)
      ensures calm ==> !thrown
      ensures old(processed) <= processed
    {
      thrown := Await(w, calm, queue, claimedAt, AtIncr(ByPublish));
      if thrown { return; }
      var ok: bool := *;
      ok := ok || calm;
      CountDispatched(w, queue, claimedAt, ByPublish, ok);
      if !ok { thrown := CatchFailure(w, calm, queue, claimedAt); }
    }

    /** The catch block: its own update may throw as well. */
    method CatchFailure(w: WorkerId, calm: bool, ghost queue: seq<Claimed>, ghost claimedAt: int) returns (thrown: bool)
      requires Valid() && At(w, queue, claimedAt, AtCatch)
      modifies this
      ensures Valid() && old(actions) <= actions
      ensures if thrown then w !in workers else MovedOn(w, queue, claimedAt)
      ensures calm ==> !thrown
      ensures old(processed) <= processed
    {
      thrown := Await(w, calm, queue, claimedAt, AtCatch);
      if thrown { return; }
      var now: int := *;
      var jitter: real := *;
      RecordAttempt(w, queue, claimedAt, now, if 0.0 <= jitter < 1.0 then jitter else 0.0);
    }

    /** One statement resets every row whose lease ran out. */
    method ReclaimStaleProcessing(now: int)
      requires Valid()
      modifies this
      ensures Valid() && actions == old(actions) + [Reclaim(now)]
      ensures workers == old(workers) && rows.Keys == old(rows).Keys
      ensures forall id | id in rows ::
                var r := old(rows)[id];
                rows[id] == if r.status == Processing && r.leaseAt.Some? && r.leaseAt.value < now - c.leaseMs
                            then r.(status := Pending, leaseAt := None) else r
    {
      rows := map id | id in rows ::
        if Stale(c, rows[id], now) then rows[id].(status := Pending, leaseAt := None) else rows[id];
      Record(Reclaim(now));
    }

    /** The inner SELECT of the claim: up to a batch of eligible rows, skipping those that others have locked. */
    method SelectEligible(now: int, locked: set<EventId>) returns (ids: seq<EventId>)
      ensures |ids| <= c.batch && Distinct(ids)
      ensures forall i | 0 <= i < |ids| ::
                && ids[i] in rows && ids[i] !in locked && rows[ids[i]].status == Pending
                && (rows[ids[i]].nextRetryAt.None? || rows[ids[i]].nextRetryAt.value <= now)
      ensures |ids| < c.batch ==>
                forall id | id in rows && id !in locked && rows[id].status == Pending
                            && (rows[id].nextRetryAt.None? || rows[id].nextRetryAt.value <= now) :: id in ids
    {
      ids := [];
      var rest := rows.Keys;
      while rest != {} && |ids| < c.batch
        invariant rest <= rows.Keys && |ids| <= c.batch && Distinct(ids)
        invariant forall i | 0 <= i < |ids| ::
                    ids[i] in rows && ids[i] !in rest && Eligible(rows[ids[i]], now) && ids[i] !in locked
        invariant forall id | id in rows && Eligible(rows[id], now) && id !in locked :: id in ids || id in rest
        decreases rest
      {
        var id :| id in rest;
        rest := rest - {id};
        if id !in locked && Eligible(rows[id], now) { ids := ids + [id]; }
      }
    }

    method ClaimOutboxBatch(w: WorkerId, now: int, locked: set<EventId>) returns (ids: seq<EventId>)
      requires Valid() && w in c.slots && w !in workers && rows.Keys == completed.Keys
      modifies this
      ensures Valid() && |ids| <= c.batch && Distinct(ids)
      ensures forall i | 0 <= i < |ids| ::
                && ids[i] in old(rows) && ids[i] !in locked && old(rows)[ids[i]].status == Pending
                && (old(rows)[ids[i]].nextRetryAt.None? || old(rows)[ids[i]].nextRetryAt.value <= now)
      ensures |ids| < c.batch ==>
                forall id | id in old(rows) && id !in locked && old(rows)[id].status == Pending
                            && (old(rows)[id].nextRetryAt.None? || old(rows)[id].nextRetryAt.value <= now) :: id in ids
      ensures rows.Keys == old(rows).Keys
      ensures forall id | id in rows ::
                rows[id] == if id in ids then old(rows)[id].(status := Processing, leaseAt := Some(now)) else old(rows)[id]
      ensures actions == if ids == [] then old(actions) else old(actions) + [Claim(w, ids, now)]
      ensures if ids == [] then w !in workers
              else w in workers && workers[w].claimedAt == now
                   && At(w, ClaimedCopies(old(rows), ids), now, AtGuards)
    {
      ids := SelectEligible(now, locked);
      if ids != [] {
        var copies := ClaimedCopies(rows, ids);
        rows := map id | id in rows :: if id in ids then ClaimRow(rows[id], now) else rows[id];
        workers := workers[w := Worker(copies, now, AtGuards)];
        Record(Claim(w, ids, now));
      }
    }

    /** One pass of worker `w`: reclaim, claim, then dispatch the claimed rows. */
    method ProcessOutboxBatch(w: WorkerId, calm: bool) returns (claimed: seq<Claimed>, thrown: bool)
      requires Valid() && w in c.slots && w !in workers
      modifies this
      ensures Valid() && old(actions) < actions && w !in workers && |claimed| <= c.batch
      ensures calm ==> !thrown
      ensures calm ==> forall i | 0 <= i < |claimed| :: GuardsPass(c, claimed[i]) ==> claimed[i].id in processed
    {
      Interfere(ByWorker(w));
      var now: int := *;
      ReclaimStaleProcessing(now);
      Interfere(ByWorker(w));
      now := *;
      var locked: set<EventId> := *;
      RunKeepsQueues(c, states, actions, |actions|);
      var ids := ClaimOutboxBatch(w, now, locked);
      claimed, thrown := [], false;
      if ids != [] {
        claimed := workers[w].queue;
        thrown := DispatchAll(w, calm, claimed, now);
      }
    }

    /** The loop over the claimed rows: it stops at the first dispatch that throws. */
    method DispatchAll(w: WorkerId, calm: bool, claimed: seq<Claimed>, ghost claimedAt: int) returns (thrown: bool)
      requires Valid() && At(w, claimed, claimedAt, AtGuards)
      modifies this
      ensures Valid() && old(actions) <= actions && w !in workers
      ensures calm ==> !thrown
      ensures calm ==> forall i | 0 <= i < |claimed| :: GuardsPass(c, claimed[i]) ==> claimed[i].id in processed
    {
      thrown := false;
      var i := 0;
      while i < |claimed| && !thrown
        invariant Valid() && old(actions) <= actions && i <= |claimed|
        invariant calm ==> !thrown
        invariant if thrown || i == |claimed| then w !in workers else At(w, claimed[i..], claimedAt, AtGuards)
        invariant calm ==> forall k | 0 <= k < i :: GuardsPass(c, claimed[k]) ==> claimed[k].id in processed
        decreases |claimed| - i, !thrown
      {
        thrown := DispatchOne(w, calm, claimed[i..], claimedAt);
        if !thrown {
          i := i + 1;
          if i < |claimed| { HeadInTables(w); }
        }
      }
    }

    /** A claimed row is never deleted. */
    lemma HeadInTables(w: WorkerId)
      requires Valid() && w in workers && workers[w].queue != []
      ensures workers[w].queue[0].id in rows && workers[w].queue[0].id in completed
    {
      RunKeepsQueues(c, states, actions, |actions|);
    }

    lemma DispatchedIsProcessed(id: EventId)
      requires Valid() && id in rows && rows[id].status == Dispatched
      ensures id in processed
    {
      RunKeepsQueues(c, states, actions, |actions|);
    }

    // ---------- the requeue command ----------

    /** An await of the command: others act, and the command may end here. */
    method CliAwait(calm: bool, ghost queue: seq<EventId>, ghost pc: CliPc) returns (crashed: bool)
      requires Valid() && cli == Some(Cli(queue, pc))
      modifies this
      ensures Valid() && old(actions) <= actions && old(states) <= states && old(rows.Keys) <= rows.Keys
      ensures cli == if crashed then None else Some(Cli(queue, pc))
      ensures calm ==> !crashed
      ensures Resets(actions) == Resets(old(actions))
    {
      Interfere(ByCli);
      crashed := *;
      crashed := crashed && !calm;
      if crashed {
        cli := None;
        Record(CliStop);
      }
    }

    method NextListed()
      requires cli.Some? && cli.value.queue != []
      modifies this`cli
      ensures View() == CliNext(old(View()))
    {
      var rest := cli.value.queue[1..];
      cli := if rest == [] then None else Some(Cli(rest, CliAtProcessed));
    }

    /** What is left of the listing after the first of `queue`. */
    ghost predicate CliMovedOn(queue: seq<EventId>)
      requires queue != []
      reads this
    {
      cli == if |queue| == 1 then None else Some(Cli(queue[1..], CliAtProcessed))
    }

    method CliFindProcessed(ghost queue: seq<EventId>, id: EventId) returns (isProcessed: bool)
      requires Valid() && cli == Some(Cli(queue, CliAtProcessed)) && queue != [] && queue[0] == id && id in rows
      modifies this
      ensures Valid() && actions == old(actions) + [CliReadProcessed] && old(states) <= states && rows == old(rows)
      ensures Resets(actions) == Resets(old(actions))
      ensures isProcessed <==> id in old(processed)
      ensures if isProcessed then CliMovedOn(queue) else cli == Some(Cli(queue, CliAtMarker))
    {
      isProcessed := id in processed;
      if isProcessed { NextListed(); } else { cli := Some(cli.value.(pc := CliAtMarker)); }
      Record(CliReadProcessed);
    }

    /** Step `i` of the run asked the first guard about `id`. */
    ghost predicate ProcessedRead(i: nat, id: EventId, found: bool)
      reads this
    {
      i < |actions| && i < |states| && actions[i] == CliReadProcessed && (id in states[i].processed <==> found)
    }

    /** Step `i` of the run asked the second guard about `id`. */
    ghost predicate MarkerRead(i: nat, id: EventId, found: bool)
      reads this
    {
      i < |actions| && i < |states| && actions[i] == CliReadMarker && (id in states[i].markers <==> found)
    }

    /**
     The guards, asked at steps `p` and `m`, and the update for the first listed
     row: it is skipped exactly when one of them finds that it was published.
     */
    method RequeueOne(calm: bool, ghost queue: seq<EventId>, id: EventId, apply: bool)
      returns (crashed: bool, action: CliAction, ghost p: nat, ghost m: nat)
      requires Valid() && cli == Some(Cli(queue, CliAtProcessed)) && queue != [] && queue[0] == id && id in rows
      modifies this
      ensures Valid() && old(actions) <= actions && old(rows.Keys) <= rows.Keys
      ensures if crashed then cli == None else CliMovedOn(queue)
      ensures calm ==> !crashed
      ensures !crashed ==> |old(actions)| <= p <= m
      ensures !crashed && action == Skip ==> ProcessedRead(p, id, true) || MarkerRead(m, id, true)
      ensures !crashed && action != Skip ==> ProcessedRead(p, id, false) && MarkerRead(m, id, false)
      ensures !crashed && action == WouldRequeue ==> !apply
      ensures !crashed && action == Requeued ==> apply
      ensures Resets(actions) == Resets(old(actions)) + if !crashed && action == Requeued then 1 else 0
    {
      action, p, m := Skip, 0, 0;
      crashed := CliAwait(calm, queue, CliAtProcessed);
      if crashed { return; }
      p, m := |actions|, |actions|;
      var isProcessed := CliFindProcessed(queue, id);
      if isProcessed { return; }
      crashed, action, m := RequeueUnprocessed(calm, queue, id, apply);
    }

    method RequeueUnprocessed(calm: bool, ghost queue: seq<EventId>, id: EventId, apply: bool)
      returns (crashed: bool, action: CliAction, ghost m: nat)
      requires Valid() && cli == Some(Cli(queue, CliAtMarker)) && queue != [] && queue[0] == id && id in rows
      modifies this
      ensures Valid() && old(actions) <= actions && old(states) <= states && old(rows.Keys) <= rows.Keys
      ensures if crashed then cli == None else CliMovedOn(queue)
      ensures calm ==> !crashed
      ensures !crashed ==> |old(actions)| <= m && MarkerRead(m, id, action == Skip)
      ensures !crashed && action == WouldRequeue ==> !apply
      ensures !crashed && action == Requeued ==> apply
      ensures Resets(actions) == Resets(old(actions)) + if !crashed && action == Requeued then 1 else 0
    {
      action, m := Skip, 0;
      crashed := CliAwait(calm, queue, CliAtMarker);
      if crashed { return; }
      m := |actions|;
      var isMarked := CliFindMarker(queue, id);
      if isMarked { return; }
      crashed := RequeueUnpublished(calm, queue, id, apply);
      if !crashed { action := if apply then Requeued else WouldRequeue; }
    }

    method RequeueUnpublished(calm: bool, ghost queue: seq<EventId>, id: EventId, apply: bool) returns (crashed: bool)
      requires Valid() && cli == Some(Cli(queue, CliAtUpdate)) && queue != [] && queue[0] == id && id in rows
      modifies this
      ensures Valid() && old(actions) <= actions && old(states) <= states && old(rows.Keys) <= rows.Keys
      ensures if crashed then cli == None else CliMovedOn(queue)
      ensures calm ==> !crashed
      ensures Resets(actions) == Resets(old(actions)) + if !crashed && apply then 1 else 0
    {
      crashed := CliAwait(calm, queue, CliAtUpdate);
      if !crashed { ResetRow(queue, id, apply); }
    }

    method CliFindMarker(ghost queue: seq<EventId>, id: EventId) returns (isMarked: bool)
      requires Valid() && cli == Some(Cli(queue, CliAtMarker)) && queue != [] && queue[0] == id && id in rows
      modifies this
      ensures Valid() && actions == old(actions) + [CliReadMarker] && old(states) <= states && rows == old(rows)
      ensures Resets(actions) == Resets(old(actions))
      ensures isMarked <==> id in old(markers)
      ensures if isMarked then CliMovedOn(queue) else cli == Some(Cli(queue, CliAtUpdate))
    {
      isMarked := id in markers;
      if isMarked { NextListed(); } else { cli := Some(cli.value.(pc := CliAtUpdate)); }
      Record(CliReadMarker);
    }

    method ResetRow(ghost queue: seq<EventId>, id: EventId, apply: bool)
      requires Valid() && cli == Some(Cli(queue, CliAtUpdate)) && queue != [] && queue[0] == id && id in rows
      modifies this
      ensures Valid() && actions == old(actions) + [CliUpdate(apply)] && old(states) <= states
      ensures Resets(actions) == Resets(old(actions)) + if apply then 1 else 0
      ensures old(rows.Keys) <= rows.Keys
      ensures CliMovedOn(queue)
      ensures id in rows
              && rows[id] == if apply then Row(old(rows[id].known), Pending, 0, None, None) else old(rows[id])
    {
      if apply {
        rows := rows[id := rows[id].(status := Pending, attempts := 0, leaseAt := None, nextRetryAt := None)];
        completed := completed[id := 0];
      }
      NextListed();
      Record(CliUpdate(apply));
    }

    /** The command's query for FAILED rows. */
    method ListFailed(ids: seq<EventId>)
      requires Valid() && cli.None? && ids != [] && Distinct(ids)
      requires forall i | 0 <= i < |ids| :: ids[i] in rows && rows[ids[i]].status == Failed
      modifies this
      ensures Valid() && actions == old(actions) + [CliList(ids)] && rows == old(rows)
      ensures cli == Some(Cli(ids, CliAtProcessed))
    {
      cli := Some(Cli(ids, CliAtProcessed));
      Record(CliList(ids));
    }

    /** The command's loop over the rows its query returned; one result per row it got to. */
    method SafeRequeue(calm: bool, ids: seq<EventId>, apply: bool) returns (out: seq<CliResult>, crashed: bool)
      requires Valid() && cli == Some(Cli(ids, CliAtProcessed)) && ids != []
      requires forall i | 0 <= i < |ids| :: ids[i] in rows
      modifies this
      ensures Valid() && old(actions) <= actions && cli.None?
      ensures |out| <= |ids| && (!crashed ==> |out| == |ids|) && (calm ==> !crashed)
      ensures forall i | 0 <= i < |out| :: out[i].id == ids[i]
      ensures forall i | 0 <= i < |out| :: out[i].action != if apply then WouldRequeue else Requeued
      ensures Resets(actions) == Resets(old(actions)) + Requeues(out)
    {
      out, crashed := [], false;
      while |out| < |ids| && !crashed
        invariant Valid() && old(actions) <= actions && old(rows.Keys) <= rows.Keys
        invariant calm ==> !crashed
        invariant |out| <= |ids| && forall i | 0 <= i < |out| :: out[i].id == ids[i]
        invariant forall i | 0 <= i < |out| :: out[i].action != if apply then WouldRequeue else Requeued
        invariant Resets(actions) == Resets(old(actions)) + Requeues(out)
        invariant cli == if crashed || |out| == |ids| then None else Some(Cli(ids[|out|..], CliAtProcessed))
        decreases |ids| - |out|, !crashed
      {
        var action: CliAction;
        ghost var p, m;
        crashed, action, p, m := RequeueOne(calm, ids[|out|..], ids[|out|], apply);
        if !crashed {
          assert (out + [CliResult(ids[|out|], action)])[..|out|] == out;
          out := out + [CliResult(ids[|out|], action)];
        }
      }
    }

    // ---------- the programs inherit the protocol's guarantees ----------

    /** Whatever the programs did, in a deployment tuned as documented nothing went out twice. */
    lemma ProgramsPublishOnce(bound: nat)
      requires Valid() && OutboxLease.TunedRun(c, bound, states, actions) && bound <= c.leaseMs
      ensures forall i, j | 0 <= i < j < |log| :: log[i].id != log[j].id
    {
      OutboxLease.AtMostOnce(c, bound, states, actions, |actions|);
    }

    /** And with leases tuned badly, no event went out more often than there are workers. */
    lemma ProgramsPublishBounded(id: EventId)
      requires Valid() && OutboxOverlap.OverlapRun(c, states, actions)
      ensures OutboxOverlap.PublishCount(log, id) <= |c.slots|
    {
      OutboxOverlap.PublishesBoundedByWorkers(c, states, actions, |actions|, id);
    }
  }
}
