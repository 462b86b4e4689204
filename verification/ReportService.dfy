/**
 Report intake as a program.  `Platform` holds what Postgres and Redis hold,
 with the place at which each attempt stands; between two requests of one
 attempt any number of steps of the others may happen (`Interfere`).  Every
 request is shown to be the protocol's step, so the bounds proved of all runs
 hold of the program's fields.
 */
module ReportService {
  import opened Options
  import opened ReportIntake
  import opened ReportDedupe
  import opened ReportCap

  predicate IsOther(a: Action, x: AttemptId) {
    a.Tick? || a.a != x
  }

  ghost predicate KeepsPlace(s: World, t: World, x: AttemptId) {
    && (x in s.used <==> x in t.used)
    && (x in s.attempts <==> x in t.attempts)
    && (x in s.attempts ==> t.attempts[x] == s.attempts[x])
  }

  lemma OthersKeepPlace(c: Config, s: World, a: Action, x: AttemptId)
    requires Enabled(c, s, a) && IsOther(a, x)
    ensures KeepsPlace(s, Apply(c, s, a), x)
  {
    if a.Lookup? || a.CommitTx? || a.Crash? {
      OtherOutcomesKeepPlace(c, s, a, x);
    } else {
      OtherRequestsKeepPlace(c, s, a, x);
    }
  }

  lemma OtherOutcomesKeepPlace(c: Config, s: World, a: Action, x: AttemptId)
    requires Enabled(c, s, a) && IsOther(a, x) && (a.Lookup? || a.CommitTx? || a.Crash?)
    ensures KeepsPlace(s, Apply(c, s, a), x)
  {
    if a.Crash? { assert Abandoned(s, s.attempts[a.a]).attempts == s.attempts; }
  }

  lemma OtherRequestsKeepPlace(c: Config, s: World, a: Action, x: AttemptId)
    requires Enabled(c, s, a) && IsOther(a, x) && !a.Lookup? && !a.CommitTx? && !a.Crash?
    ensures KeepsPlace(s, Apply(c, s, a), x)
  {
  }

  /** The steps that one attempt has taken, latest outermost. */
  datatype Trail = Untouched | Did(before: Trail, a: Action) {
    function Then(a: Action): Trail {
      Did(this, a)
    }
  }

  function Mine(actions: seq<Action>, x: AttemptId): Trail {
    if actions == [] then Untouched
    else
      var n := |actions| - 1;
      if IsOther(actions[n], x) then Mine(actions[..n], x) else Mine(actions[..n], x).Then(actions[n])
  }

  /** What the caller gets; the last two are a committed report and an exception from the `try` block. */
  datatype Reply = DuplicateReport | SpamCap | OnCooldown | Created | Thrown

  /** The requests an attempt makes, in the code's order, for a reply of the checks. */
  function Refusal(start: Trail, x: AttemptId, reply: Reply): Trail {
    match reply
    case DuplicateReport => start.Then(Lookup(x))
    case SpamCap => start.Then(Lookup(x)).Then(Incr(x)).Then(Refuse(x))
    case _ => start.Then(Lookup(x)).Then(Incr(x)).Then(SetCooldown(x)).Then(Refuse(x))
  }

  function Admission(start: Trail, x: AttemptId): Trail {
    start.Then(Lookup(x)).Then(Incr(x)).Then(SetCooldown(x))
  }

  /** And those of an admitted attempt. */
  function Persisted(admitted: Trail, x: AttemptId, instant: bool, reply: Reply, tx: Outcome): Trail {
    var written := admitted.Then(Insert(x)).Then(CommitTx(x, tx));
    if reply.Created? then
      if instant then written.Then(CacheWrite(x, true)) else written
    else
      (if tx.Acked? then written.Then(CacheWrite(x, false)) else written).Then(RollbackDel(x)).Then(RollbackDecr(x))
  }

  class Platform {
    const c: Config
    var now: int
    var attempts: map<AttemptId, Attempt>
    var used: set<AttemptId>
    var reports: seq<Row>
    var counter: map<string, int>
    var cooldown: map<Slot, Cool>
    var kept: map<string, int>
    var lost: map<string, int>
    var leaked: map<string, int>
    ghost var states: seq<World>
    ghost var actions: seq<Action>

    function View(): World
      reads this
    {
      World(now, attempts, used, reports, counter, cooldown, kept, lost, leaked)
    }

    ghost predicate Valid()
      reads this
    {
      Run(c, states, actions) && states[|actions|] == View()
    }

    constructor (c: Config, now: int)
      ensures Valid() && this.c == c && actions == []
    {
      this.c, this.now := c, now;
      attempts, used, reports, counter, cooldown := map[], {}, [], map[], map[];
      kept, lost, leaked := map[], map[], map[];
      states, actions := [World(now, map[], {}, [], map[], map[], map[], map[], map[])], [];
    }

    ghost method Record(a: Action)
      requires Run(c, states, actions) && Enabled(c, states[|actions|], a)
      requires View() == Apply(c, states[|actions|], a)
      modifies this`states, this`actions
      ensures Valid() && actions == old(actions) + [a]
    {
      var n := |actions|;
      states, actions := states + [View()], actions + [a];
      forall i | 0 <= i < |actions| ensures StepAt(c, states, actions, i) {
        if i < n { assert StepAt(c, old(states), old(actions), i); }
      }
    }

    method Perform(a: Action)
      requires Valid() && Enabled(c, View(), a)
      modifies this
      ensures Valid() && View() == Apply(c, old(View()), a)
      ensures actions == old(actions) + [a]
    {
      var t := Apply(c, View(), a);
      now, attempts, used, reports := t.now, t.attempts, t.used, t.reports;
      counter, cooldown, kept, lost, leaked := t.counter, t.cooldown, t.kept, t.lost, t.leaked;
      Record(a);
    }

    /** While attempt `x` waits for an answer, time passes and others act. */
    method Interfere(x: AttemptId)
      requires Valid()
      modifies this
      ensures Valid() && KeepsPlace(old(View()), View(), x)
      ensures Mine(actions, x) == Mine(old(actions), x)
    {
      var steps: seq<Action> := *;
      for i := 0 to |steps|
        invariant Valid() && KeepsPlace(old(View()), View(), x)
        invariant Mine(actions, x) == Mine(old(actions), x)
      {
        if Enabled(c, View(), steps[i]) && IsOther(steps[i], x) {
          OthersKeepPlace(c, View(), steps[i], x);
          ghost var before := actions;
          Perform(steps[i]);
          assert actions[..|actions| - 1] == before;
        }
      }
    }

    /** Attempt `x` stands at `pc`. */
    predicate At(x: AttemptId, at: Attempt, pc: Pc)
      reads this
    {
      x in attempts && attempts[x] == at.(pc := pc)
    }

    // ---------- the requests of one attempt ----------

    ghost method RecordMine(a: Action, x: AttemptId)
      requires Run(c, states, actions) && Enabled(c, states[|actions|], a) && !IsOther(a, x)
      requires View() == Apply(c, states[|actions|], a)
      modifies this`states, this`actions
      ensures Valid() && Mine(actions, x) == Mine(old(actions), x).Then(a)
    {
      Record(a);
      assert actions[..|actions| - 1] == old(actions);
    }

    method MoveTo(x: AttemptId, pc: Pc)
      requires x in attempts
      modifies this`attempts
      ensures View() == Goto(old(View()), x, pc)
    {
      attempts := attempts[x := attempts[x].(pc := pc)];
    }

    method Begin(x: AttemptId, reporter: string, target: string, guild: Option<string>, norm: string, instant: bool)
      returns (at: Attempt)
      requires Valid() && x !in used && Ids(reporter, target, guild)
      modifies this
      ensures Valid() && at == Attempt(reporter, target, guild, norm, instant, old(now), AtLookup) && At(x, at, AtLookup)
      ensures Mine(actions, x) == Mine(old(actions), x).Then(Start(x, reporter, target, guild, norm, instant))
    {
      at := Attempt(reporter, target, guild, norm, instant, now, AtLookup);
      attempts, used := attempts[x := at], used + {x};
      RecordMine(Start(x, reporter, target, guild, norm, instant), x);
    }

    method FindDuplicate(x: AttemptId, at: Attempt) returns (dup: bool)
      requires Valid() && At(x, at, AtLookup)
      modifies this
      ensures Valid() && Mine(actions, x) == Mine(old(actions), x).Then(Lookup(x))
      ensures dup <==> exists i | 0 <= i < |old(reports)| ::
                         && old(reports)[i].slot.reporter == at.reporter && old(reports)[i].target == at.target
                         && old(reports)[i].slot.guild == at.guild && old(reports)[i].norm == at.norm
                         && old(reports)[i].createdAt >= at.start - c.windowMs
      ensures if dup then x !in attempts else At(x, at, AtIncr(|reports|))
    {
      RunKeepsKeys(c, states, actions, |actions|);
      DuplicateExactlyWhen(c, View(), x);
      dup := exists i | 0 <= i < |reports| ::
        reports[i].key == KeyOf(at) && reports[i].createdAt >= at.start - c.windowMs;
      assert dup <==> Duplicate(c, View(), attempts[x]);
      if dup { attempts := attempts - {x}; } else { MoveTo(x, AtIncr(|reports|)); }
      RecordMine(Lookup(x), x);
    }

    method IncrDayKey(x: AttemptId, at: Attempt, ghost seen: nat) returns (n: int)
      requires Valid() && At(x, at, AtIncr(seen))
      modifies this
      ensures Valid() && Mine(actions, x) == Mine(old(actions), x).Then(Incr(x))
      ensures n == Get(old(counter), at.reporter) + 1 && counter == old(counter)[at.reporter := n]
      ensures At(x, at, if n > c.cap then AtRefuse else AtCooldown(seen))
    {
      n := Get(counter, at.reporter) + 1;
      counter := counter[at.reporter := n];
      MoveTo(x, if n > c.cap then AtRefuse else AtCooldown(attempts[x].pc.seen));
      RecordMine(Incr(x), x);
    }

    method DecrRefused(x: AttemptId, at: Attempt)
      requires Valid() && At(x, at, AtRefuse)
      modifies this
      ensures Valid() && Mine(actions, x) == Mine(old(actions), x).Then(Refuse(x))
      ensures x !in attempts && counter == Add(old(counter), at.reporter, -1)
    {
      counter := Add(counter, at.reporter, -1);
      attempts := attempts - {x};
      RecordMine(Refuse(x), x);
    }

    /** SET with EX and NX. */
    method SetCooldownKey(x: AttemptId, at: Attempt, ghost seen: nat) returns (ok: bool)
      requires Valid() && At(x, at, AtCooldown(seen))
      modifies this
      ensures Valid() && Mine(actions, x) == Mine(old(actions), x).Then(SetCooldown(x))
      ensures
        var slot := Slot(at.reporter, at.guild);
        && (ok <==> slot !in old(cooldown) || old(now) > old(cooldown)[slot].expires)
        && cooldown == if ok then old(cooldown)[slot := Cool(x, old(now) + c.cooldownMs)] else old(cooldown)
      ensures At(x, at, if ok then AtInsert(seen, old(now)) else AtRefuse)
    {
      var slot := SlotOf(at);
      ok := slot !in cooldown || now > cooldown[slot].expires;
      if ok {
        cooldown := cooldown[slot := Cool(x, now + c.cooldownMs)];
        MoveTo(x, AtInsert(attempts[x].pc.seen, now));
      } else {
        MoveTo(x, AtRefuse);
      }
      RecordMine(SetCooldown(x), x);
    }

    method CreateRow(x: AttemptId, at: Attempt, ghost seen: nat, ghost setAt: int) returns (createdAt: int)
      requires Valid() && At(x, at, AtInsert(seen, setAt))
      modifies this
      ensures Valid() && Mine(actions, x) == Mine(old(actions), x).Then(Insert(x))
      ensures createdAt == old(now) && At(x, at, AtCommit(seen, setAt, createdAt))
    {
      var pc := attempts[x].pc;
      createdAt := now;
      MoveTo(x, AtCommit(pc.seen, pc.setAt, createdAt));
      RecordMine(Insert(x), x);
    }

    /** The end of the transaction; it may be undone, or done without the caller being told. */
    method Commit(x: AttemptId, at: Attempt, ghost seen: nat, ghost setAt: int, ghost createdAt: int)
      returns (tx: Outcome)
      requires Valid() && At(x, at, AtCommit(seen, setAt, createdAt))
      modifies this
      ensures Valid() && Mine(actions, x) == Mine(old(actions), x).Then(CommitTx(x, tx))
      ensures reports == if tx.NotDone? then old(reports)
                         else old(reports) + [Row(KeyOf(at), Slot(at.reporter, at.guild), at.target, at.norm, x, at.start, setAt, createdAt, old(now))]
      ensures if !tx.Acked? then At(x, at, AtRollbackDel(seen, setAt))
              else if at.instant then At(x, at, AtCacheWrite(seen, setAt))
              else x !in attempts
    {
      tx := *;
      var pc := attempts[x].pc;
      if !tx.NotDone? { reports := reports + [Committed(attempts[x], x, now)]; }
      if !tx.Acked? {
        MoveTo(x, AtRollbackDel(pc.seen, pc.setAt));
      } else if at.instant {
        MoveTo(x, AtCacheWrite(pc.seen, pc.setAt));
      } else {
        kept := Add(kept, at.reporter, 1);
        attempts := attempts - {x};
      }
      RecordMine(CommitTx(x, tx), x);
    }

    method WriteCache(x: AttemptId, at: Attempt, ghost seen: nat, ghost setAt: int) returns (ok: bool)
      requires Valid() && At(x, at, AtCacheWrite(seen, setAt))
      modifies this
      ensures Valid() && Mine(actions, x) == Mine(old(actions), x).Then(CacheWrite(x, ok))
      ensures if ok then x !in attempts else At(x, at, AtRollbackDel(seen, setAt))
    {
      ok := *;
      var pc := attempts[x].pc;
      if ok {
        kept := Add(kept, at.reporter, 1);
        attempts := attempts - {x};
      } else {
        MoveTo(x, AtRollbackDel(pc.seen, pc.setAt));
      }
      RecordMine(CacheWrite(x, ok), x);
    }

    // ---------- the operations ----------

    method DelCooldownKey(x: AttemptId, at: Attempt, ghost seen: nat, ghost setAt: int)
      requires Valid() && At(x, at, AtRollbackDel(seen, setAt))
      modifies this
      ensures Valid() && Mine(actions, x) == Mine(old(actions), x).Then(RollbackDel(x))
      ensures At(x, at, AtRollbackDecr) && cooldown == old(cooldown) - {Slot(at.reporter, at.guild)}
    {
      cooldown := cooldown - {SlotOf(at)};
      MoveTo(x, AtRollbackDecr);
      RecordMine(RollbackDel(x), x);
    }

    method DecrRolledBack(x: AttemptId, at: Attempt)
      requires Valid() && At(x, at, AtRollbackDecr)
      modifies this
      ensures Valid() && Mine(actions, x) == Mine(old(actions), x).Then(RollbackDecr(x))
      ensures x !in attempts && counter == Add(old(counter), at.reporter, -1)
    {
      counter := Add(counter, at.reporter, -1);
      attempts := attempts - {x};
      RecordMine(RollbackDecr(x), x);
    }

    /** Deletes the cooldown key and gives the increment of the day key back. */
    method RollbackSlots(x: AttemptId, at: Attempt, ghost seen: nat, ghost setAt: int)
      requires Valid() && At(x, at, AtRollbackDel(seen, setAt))
      modifies this
      ensures Valid() && x !in attempts
      ensures Mine(actions, x) == Mine(old(actions), x).Then(RollbackDel(x)).Then(RollbackDecr(x))
    {
      DelCooldownKey(x, at, seen, setAt);
      Interfere(x);
      DecrRolledBack(x, at);
    }

    /** The cap and the cooldown. */
    method TakeSlots(x: AttemptId, at: Attempt, ghost seen: nat) returns (refused: Option<Reply>, ghost setAt: int)
      requires Valid() && At(x, at, AtIncr(seen))
      modifies this
      ensures Valid()
      ensures
        var counted := Mine(old(actions), x).Then(Incr(x));
        match refused {
          case None => At(x, at, AtInsert(seen, setAt)) && Mine(actions, x) == counted.Then(SetCooldown(x))
          case Some(SpamCap) => x !in attempts && Mine(actions, x) == counted.Then(Refuse(x))
          case Some(OnCooldown) => x !in attempts && Mine(actions, x) == counted.Then(SetCooldown(x)).Then(Refuse(x))
          case Some(_) => false
        }
    {
      var n := IncrDayKey(x, at, seen);
      Interfere(x);
      if n > c.cap {
        DecrRefused(x, at);
        return Some(SpamCap), 0;
      }
      setAt := now;
      var ok := SetCooldownKey(x, at, seen);
      Interfere(x);
      if !ok {
        DecrRefused(x, at);
        return Some(OnCooldown), 0;
      }
      refused := None;
    }

    /** The lookup, the daily cap and the cooldown; None when the attempt may go on. */
    method AssertCanReport(x: AttemptId, at: Attempt) returns (refused: Option<Reply>, ghost seen: nat, ghost setAt: int)
      requires Valid() && At(x, at, AtLookup)
      modifies this
      ensures Valid()
      ensures refused.Some? ==> x !in attempts && !refused.value.Created? && !refused.value.Thrown?
                                && Mine(actions, x) == Refusal(Mine(old(actions), x), x, refused.value)
      ensures refused == Some(DuplicateReport) <==>
                exists i | 0 <= i < |old(reports)| ::
                  && old(reports)[i].slot.reporter == at.reporter && old(reports)[i].target == at.target
                  && old(reports)[i].slot.guild == at.guild && old(reports)[i].norm == at.norm
                  && old(reports)[i].createdAt >= at.start - c.windowMs
      ensures refused.None? ==> At(x, at, AtInsert(seen, setAt))
                                && Mine(actions, x) == Admission(Mine(old(actions), x), x)
    {
      var dup := FindDuplicate(x, at);
      if dup { return Some(DuplicateReport), 0, 0; }
      seen := |reports|;
      Interfere(x);
      refused, setAt := TakeSlots(x, at, seen);
    }

    /** Both intake paths: they differ in the cache write that follows an instant report's transaction. */
    method CreateReport(x: AttemptId, reporter: string, target: string, guild: Option<string>, norm: string, instant: bool)
      returns (reply: Reply, tx: Outcome)
      requires Valid() && x !in used && Ids(reporter, target, guild)
      modifies this
      ensures Valid() && x !in attempts
      ensures reply == Created ==> tx == Acked
      ensures reply == Thrown && !instant ==> tx != Acked
      ensures
        var start := Mine(old(actions), x).Then(Start(x, reporter, target, guild, norm, instant));
        Mine(actions, x) == if reply.Created? || reply.Thrown? then Persisted(Admission(start, x), x, instant, reply, tx)
                            else Refusal(start, x, reply)
    {
      tx := NotDone;
      var at := Begin(x, reporter, target, guild, norm, instant);
      Interfere(x);
      ghost var seen, setAt;
      var refused;
      refused, seen, setAt := AssertCanReport(x, at);
      if refused.Some? { return refused.value, NotDone; }
      reply, tx := Persist(x, at, seen, setAt);
    }

    /** The `try` block and its `catch`. */
    method Persist(x: AttemptId, at: Attempt, ghost seen: nat, ghost setAt: int) returns (reply: Reply, tx: Outcome)
      requires Valid() && At(x, at, AtInsert(seen, setAt))
      modifies this
      ensures Valid() && x !in attempts
      ensures reply == Created || reply == Thrown
      ensures reply == Created ==> tx == Acked
      ensures reply == Thrown && !at.instant ==> tx != Acked
      ensures Mine(actions, x) == Persisted(Mine(old(actions), x), x, at.instant, reply, tx)
    {
      var createdAt := CreateRow(x, at, seen, setAt);
      Interfere(x);
      tx := Commit(x, at, seen, setAt, createdAt);
      if tx.Acked? && !at.instant { return Created, tx; }
      Interfere(x);
      if tx.Acked? {
        var cached := WriteCache(x, at, seen, setAt);
        if cached { return Created, tx; }
        Interfere(x);
      }
      RollbackSlots(x, at, seen, setAt);
      reply := Thrown;
    }

    // ---------- what the program inherits from the protocol ----------

    /** Whatever calls led here, nobody has more reports than the cap, and equal ones are a window apart. */
    lemma ProgramsKeepLimits(bound: nat, r: string)
      requires Valid() && CleanRun(c, states, actions) && RunWithin(c, bound, states, actions)
      requires Enough(c, bound)
      ensures ReportsOf(reports, r) <= c.cap && SpacedOut(c, reports)
    {
      ReportsWithinCap(c, states, actions, |actions|, r);
      CleanRunRefundsNothing(c, states, actions, |actions|, r);
      NoDuplicates(c, bound, states, actions, |actions|);
    }
  }
}
