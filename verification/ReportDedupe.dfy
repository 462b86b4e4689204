/**
 Why duplicates stay out although the lookup and the insert are separate steps
 and no unique index backs them: two overlapping attempts at the same report
 contend for one cooldown key.
 */
module ReportDedupe {
  import opened Options
  import opened ReportIntake

  /** The attempt acts at most `bound` milliseconds after it started. */
  predicate InTime(bound: nat, s: World, at: Attempt) {
    s.now - at.start <= bound
  }

  ghost predicate Prompt(bound: nat, s: World, a: Action) {
    !a.Tick? && !a.Start? && !a.Crash? && a.a in s.attempts ==> InTime(bound, s, s.attempts[a.a])
  }

  /** An attempt deletes the cooldown key only if it has committed no report. */
  ghost predicate Clean(s: World, a: Action) {
    a.RollbackDel? ==> forall i | 0 <= i < |s.reports| :: s.reports[i].owner != a.a
  }

  ghost predicate RunWithin(c: Config, bound: nat, states: seq<World>, actions: seq<Action>) {
    Run(c, states, actions)
    && forall i | 0 <= i < |actions| :: Prompt(bound, states[i], actions[i])
  }

  ghost predicate CleanRun(c: Config, states: seq<World>, actions: seq<Action>) {
    Run(c, states, actions)
    && forall i | 0 <= i < |actions| :: Clean(states[i], actions[i])
  }

  /** Equal reports were created more than the dedupe window apart. */
  ghost predicate SpacedOut(c: Config, reports: seq<Row>) {
    forall i, j | 0 <= i < j < |reports| && SameReport(reports[i], reports[j]) ::
      reports[j].createdAt - reports[i].createdAt > c.windowMs
  }

  // ---------- the invariant ----------

  predicate HasCooldown(pc: Pc) {
    pc.AtInsert? || pc.AtCommit? || pc.AtCacheWrite? || pc.AtRollbackDel?
  }

  predicate LookedUp(pc: Pc) {
    pc.AtIncr? || pc.AtCooldown? || HasCooldown(pc)
  }

  /** The reports that the lookup saw do not clash with the attempt; the others were committed later. */
  ghost predicate LookupOk(c: Config, s: World, at: Attempt) {
    && at.start <= s.now && Ids(at.reporter, at.target, at.guild)
    && (LookedUp(at.pc) ==>
          && at.pc.seen <= |s.reports|
          && (forall i | 0 <= i < at.pc.seen && s.reports[i].key == KeyOf(at) ::
                s.reports[i].createdAt < at.start - c.windowMs)
          && (forall i | at.pc.seen <= i < |s.reports| :: at.start <= s.reports[i].committedAt))
    && (HasCooldown(at.pc) ==> at.start <= at.pc.setAt <= s.now)
    && (at.pc.AtCommit? ==> at.pc.setAt <= at.pc.createdAt <= s.now)
  }

  /** Until it expires, the cooldown key is its setter's. */
  ghost predicate OwnsKey(c: Config, s: World, slot: Slot, x: AttemptId, setAt: int) {
    s.now <= setAt + c.cooldownMs ==> slot in s.cooldown && s.cooldown[slot] == Cool(x, setAt + c.cooldownMs)
  }

  /** An attempt that can still commit set its key more than a cooldown after that of every report on its slot. */
  ghost predicate SetLater(c: Config, bound: nat, s: World, at: Attempt) {
    (at.pc.AtInsert? || at.pc.AtCommit?) && InTime(bound, s, at) ==>
      forall i | 0 <= i < |s.reports| && s.reports[i].slot == SlotOf(at) :: at.pc.setAt > s.reports[i].setAt + c.cooldownMs
  }

  /** The attempts are short compared with the cooldown, or the window is. */
  predicate Enough(c: Config, bound: nat) {
    2 * bound <= c.cooldownMs || bound + c.windowMs <= c.cooldownMs
  }

  ghost predicate AttemptOk(c: Config, bound: nat, s: World, x: AttemptId)
    requires x in s.attempts
  {
    var at := s.attempts[x];
    && x in s.used
    && LookupOk(c, s, at)
    && (HasCooldown(at.pc) ==> OwnsKey(c, s, SlotOf(at), x, at.pc.setAt))
    && SetLater(c, bound, s, at)
  }

  /** The ids are digits and the key is made of what was reported. */
  predicate KeyMatches(r: Row) {
    Ids(r.slot.reporter, r.target, r.slot.guild) && r.key == RawKey(r.slot.reporter, r.target, r.slot.guild, r.norm)
  }

  ghost predicate RowOk(c: Config, bound: nat, s: World, r: Row) {
    && r.start <= r.setAt && r.createdAt - r.start <= bound && r.committedAt - r.start <= bound
    && OwnsKey(c, s, r.slot, r.owner, r.setAt)
    && KeyMatches(r)
  }

  ghost predicate Inv(c: Config, bound: nat, s: World) {
    && (forall x | x in s.attempts :: AttemptOk(c, bound, s, x))
    && (forall i | 0 <= i < |s.reports| :: RowOk(c, bound, s, s.reports[i]))
    && (Enough(c, bound) ==> SpacedOut(c, s.reports))
  }

  /** Keys compare reports by what was reported. */
  lemma SameKeyExactlyWhen(a: Row, b: Row)
    requires KeyMatches(a) && KeyMatches(b)
    ensures a.key == b.key <==> SameReport(a, b)
  {
    if a.key == b.key {
      RawKeyInjective(a.slot.reporter, a.target, a.slot.guild, a.norm, b.slot.reporter, b.target, b.slot.guild, b.norm);
    }
  }

  // ---------- the steps keep it ----------

  /** Steps that touch neither the keys nor the reports. */
  lemma AttemptsKeep(c: Config, bound: nat, s: World, t: World)
    requires Inv(c, bound, s)
    requires s.now <= t.now && t.reports == s.reports && t.cooldown == s.cooldown && s.used <= t.used
    requires forall x | x in t.attempts ::
               (x in s.attempts && t.attempts[x] == s.attempts[x]) || AttemptOk(c, bound, t, x)
    ensures Inv(c, bound, t)
  {
    forall x | x in t.attempts ensures AttemptOk(c, bound, t, x) {
      if x in s.attempts { assert AttemptOk(c, bound, s, x); }
    }
    forall i | 0 <= i < |t.reports| ensures RowOk(c, bound, t, t.reports[i]) {
      assert RowOk(c, bound, s, s.reports[i]);
    }
  }

  /** An attempt that goes on with what it learnt before; others may have committed meanwhile. */
  lemma AttemptAdvances(c: Config, bound: nat, s: World, x: AttemptId, t: World)
    requires x in s.attempts && AttemptOk(c, bound, s, x)
    requires t.now == s.now && t.cooldown == s.cooldown && t.used == s.used
    requires s.reports <= t.reports
    requires forall i | |s.reports| <= i < |t.reports| :: t.reports[i].committedAt == s.now
    requires x in t.attempts && t.attempts[x] == s.attempts[x].(pc := t.attempts[x].pc)
    requires
      var before, after := s.attempts[x].pc, t.attempts[x].pc;
      && (LookedUp(after) ==> LookedUp(before) && after.seen == before.seen)
      && (HasCooldown(after) ==> HasCooldown(before) && after.setAt == before.setAt)
      && (after.AtInsert? || after.AtCommit? ==> (before.AtInsert? || before.AtCommit?) && t.reports == s.reports)
      && (after.AtCommit? ==> after.setAt <= after.createdAt <= s.now)
    ensures AttemptOk(c, bound, t, x)
  {
  }

  lemma LookupKeeps(c: Config, bound: nat, s: World, x: AttemptId)
    requires Inv(c, bound, s) && Enabled(c, s, Lookup(x))
    ensures Inv(c, bound, Apply(c, s, Lookup(x)))
  {
    var t, at := Apply(c, s, Lookup(x)), s.attempts[x];
    assert AttemptOk(c, bound, s, x);
    if !Duplicate(c, s, at) {
      forall i | 0 <= i < |s.reports| && s.reports[i].key == KeyOf(at)
        ensures s.reports[i].createdAt < at.start - c.windowMs {
      }
      assert AttemptOk(c, bound, t, x);
    }
    AttemptsKeep(c, bound, s, t);
  }

  /** Taking a free key: whoever held it before no longer does. */
  lemma OthersSurviveSet(c: Config, bound: nat, s: World, x: AttemptId, y: AttemptId)
    requires Inv(c, bound, s) && Enabled(c, s, SetCooldown(x)) && !CooldownLive(s, SlotOf(s.attempts[x]))
    requires y in s.attempts && y != x
    ensures AttemptOk(c, bound, Apply(c, s, SetCooldown(x)), y)
  {
    assert AttemptOk(c, bound, s, y);
  }

  lemma RowsSurviveSet(c: Config, bound: nat, s: World, x: AttemptId, i: nat)
    requires Inv(c, bound, s) && Enabled(c, s, SetCooldown(x)) && !CooldownLive(s, SlotOf(s.attempts[x]))
    requires i < |s.reports|
    ensures RowOk(c, bound, Apply(c, s, SetCooldown(x)), s.reports[i])
  {
    assert RowOk(c, bound, s, s.reports[i]);
  }

  lemma SetterOk(c: Config, bound: nat, s: World, x: AttemptId)
    requires Inv(c, bound, s) && bound <= c.cooldownMs
    requires Enabled(c, s, SetCooldown(x)) && Prompt(bound, s, SetCooldown(x))
    ensures AttemptOk(c, bound, Apply(c, s, SetCooldown(x)), x)
  {
    assert AttemptOk(c, bound, s, x);
    forall i | 0 <= i < |s.reports| && s.reports[i].slot == SlotOf(s.attempts[x])
      ensures CooldownLive(s, SlotOf(s.attempts[x])) || s.now > s.reports[i].setAt + c.cooldownMs {
      assert RowOk(c, bound, s, s.reports[i]);
    }
  }

  lemma SetCooldownKeeps(c: Config, bound: nat, s: World, x: AttemptId)
    requires Inv(c, bound, s) && bound <= c.cooldownMs
    requires Enabled(c, s, SetCooldown(x)) && Prompt(bound, s, SetCooldown(x))
    ensures Inv(c, bound, Apply(c, s, SetCooldown(x)))
  {
    var t := Apply(c, s, SetCooldown(x));
    SetterOk(c, bound, s, x);
    if CooldownLive(s, SlotOf(s.attempts[x])) {
      AttemptsKeep(c, bound, s, t);
    } else {
      forall y | y in t.attempts ensures AttemptOk(c, bound, t, y) {
        if y != x { OthersSurviveSet(c, bound, s, x, y); }
      }
      forall i | 0 <= i < |t.reports| ensures RowOk(c, bound, t, t.reports[i]) {
        RowsSurviveSet(c, bound, s, x, i);
      }
    }
  }

  /** While both act in time, only one attempt is past the cooldown of a slot. */
  lemma OneHolderInTime(c: Config, bound: nat, s: World, x: AttemptId, y: AttemptId)
    requires Inv(c, bound, s) && bound <= c.cooldownMs
    requires x in s.attempts && y in s.attempts && SlotOf(s.attempts[x]) == SlotOf(s.attempts[y])
    requires HasCooldown(s.attempts[x].pc) && HasCooldown(s.attempts[y].pc)
    requires InTime(bound, s, s.attempts[x]) && InTime(bound, s, s.attempts[y])
    ensures x == y
  {
    assert AttemptOk(c, bound, s, x) && AttemptOk(c, bound, s, y);
  }

  /**
   Why an equal report is far enough away: either the lookup saw it and it was
   older than the window, or, whether or not it was seen, its key was set more
   than a cooldown before.
   */
  lemma EqualReportIsFar(c: Config, bound: nat, s: World, x: AttemptId, i: nat)
    requires Inv(c, bound, s) && Enough(c, bound) && x in s.attempts && s.attempts[x].pc.AtCommit?
    requires InTime(bound, s, s.attempts[x]) && i < |s.reports|
    requires SameReport(s.reports[i], Committed(s.attempts[x], x, s.now))
    ensures s.attempts[x].pc.createdAt - s.reports[i].createdAt > c.windowMs
  {
    var at := s.attempts[x];
    assert AttemptOk(c, bound, s, x) && RowOk(c, bound, s, s.reports[i]);
    SameKeyExactlyWhen(s.reports[i], Committed(at, x, s.now));
    assert s.reports[i].slot == SlotOf(at);
    assert at.pc.setAt > s.reports[i].setAt + c.cooldownMs;
  }

  lemma CommitAppends(c: Config, bound: nat, s: World, x: AttemptId, t: World)
    requires Inv(c, bound, s) && bound <= c.cooldownMs
    requires x in s.attempts && s.attempts[x].pc.AtCommit? && InTime(bound, s, s.attempts[x])
    requires t.now == s.now && t.cooldown == s.cooldown && t.used == s.used
    requires t.reports == s.reports + [Committed(s.attempts[x], x, s.now)]
    requires forall y | y in t.attempts && y != x :: y in s.attempts && t.attempts[y] == s.attempts[y]
    requires x in t.attempts ==> AttemptOk(c, bound, t, x)
    ensures Inv(c, bound, t)
  {
    forall y | y in t.attempts ensures AttemptOk(c, bound, t, y) {
      if y != x { OthersSurviveCommit(c, bound, s, x, y, t); }
    }
    forall i | 0 <= i < |t.reports| ensures RowOk(c, bound, t, t.reports[i]) {
      if i < |s.reports| { assert t.reports[i] == s.reports[i] && RowOk(c, bound, s, s.reports[i]); }
    }
  }

  lemma CommitKeeps(c: Config, bound: nat, s: World, x: AttemptId, outcome: Outcome)
    requires Inv(c, bound, s) && bound <= c.cooldownMs
    requires Enabled(c, s, CommitTx(x, outcome)) && Prompt(bound, s, CommitTx(x, outcome))
    ensures Inv(c, bound, Apply(c, s, CommitTx(x, outcome)))
  {
    var t := Apply(c, s, CommitTx(x, outcome));
    assert AttemptOk(c, bound, s, x);
    if x in t.attempts { AttemptAdvances(c, bound, s, x, t); }
    if outcome.NotDone? { AttemptsKeep(c, bound, s, t); } else { CommitAppends(c, bound, s, x, t); }
  }

  lemma OthersSurviveCommit(c: Config, bound: nat, s: World, x: AttemptId, y: AttemptId, t: World)
    requires Inv(c, bound, s) && bound <= c.cooldownMs
    requires x in s.attempts && s.attempts[x].pc.AtCommit? && InTime(bound, s, s.attempts[x])
    requires y in s.attempts && y != x && y in t.attempts && t.attempts[y] == s.attempts[y]
    requires t.now == s.now && t.cooldown == s.cooldown && t.used == s.used
    requires t.reports == s.reports + [Committed(s.attempts[x], x, s.now)]
    ensures AttemptOk(c, bound, t, y)
  {
    assert AttemptOk(c, bound, s, x) && AttemptOk(c, bound, s, y);
    if HasCooldown(s.attempts[y].pc) && SlotOf(s.attempts[y]) == SlotOf(s.attempts[x])
       && InTime(bound, s, s.attempts[y]) {
      OneHolderInTime(c, bound, s, x, y);
      assert false;
    }
  }

  /** An attempt that gives up in time deletes no key but its own. */
  lemma RollbackKeeps(c: Config, bound: nat, s: World, x: AttemptId)
    requires Inv(c, bound, s) && bound <= c.cooldownMs
    requires Enabled(c, s, RollbackDel(x)) && Prompt(bound, s, RollbackDel(x)) && Clean(s, RollbackDel(x))
    ensures Inv(c, bound, Apply(c, s, RollbackDel(x)))
  {
    var t := Apply(c, s, RollbackDel(x));
    assert AttemptOk(c, bound, s, x);
    forall y | y in t.attempts ensures AttemptOk(c, bound, t, y) {
      assert AttemptOk(c, bound, s, y);
    }
    forall i | 0 <= i < |t.reports| ensures RowOk(c, bound, t, t.reports[i]) {
      assert RowOk(c, bound, s, s.reports[i]);
    }
  }

  lemma StartKeeps(c: Config, bound: nat, s: World, a: Action)
    requires Inv(c, bound, s) && a.Start? && Enabled(c, s, a)
    ensures Inv(c, bound, Apply(c, s, a))
  {
    AttemptsKeep(c, bound, s, Apply(c, s, a));
  }

  /** The steps that end an attempt without a commit. */
  lemma EndKeeps(c: Config, bound: nat, s: World, a: Action, t: World)
    requires Inv(c, bound, s)
    requires t.now == s.now && t.cooldown == s.cooldown && t.used == s.used && t.reports == s.reports
    requires !a.Tick? && t.attempts == s.attempts - {a.a}
    ensures Inv(c, bound, t)
  {
    AttemptsKeep(c, bound, s, t);
  }

  /** The steps that only move an attempt on. */
  lemma AdvanceKeeps(c: Config, bound: nat, s: World, a: Action)
    requires Inv(c, bound, s) && Enabled(c, s, a)
    requires a.Incr? || a.Insert? || (a.CacheWrite? && !a.ok)
    ensures Inv(c, bound, Apply(c, s, a))
  {
    var t := Apply(c, s, a);
    assert AttemptOk(c, bound, s, a.a);
    AttemptAdvances(c, bound, s, a.a, t);
    AttemptsKeep(c, bound, s, t);
  }

  lemma StepKeepsInv(c: Config, bound: nat, s: World, a: Action, t: World)
    requires Inv(c, bound, s) && bound <= c.cooldownMs
    requires Step(c, s, a, t) && Prompt(bound, s, a) && Clean(s, a)
    ensures Inv(c, bound, t)
  {
    match a
    case Tick(_) => AttemptsKeep(c, bound, s, t);
    case Lookup(x) => LookupKeeps(c, bound, s, x);
    case SetCooldown(x) => SetCooldownKeeps(c, bound, s, x);
    case CommitTx(x, outcome) => CommitKeeps(c, bound, s, x, outcome);
    case RollbackDel(x) => RollbackKeeps(c, bound, s, x);
    case Start(_, _, _, _, _, _) => StartKeeps(c, bound, s, a);
    case Incr(_) => AdvanceKeeps(c, bound, s, a);
    case Insert(_) => AdvanceKeeps(c, bound, s, a);
    case CacheWrite(_, false) => AdvanceKeeps(c, bound, s, a);
    case _ =>
      EndKeeps(c, bound, s, a, t);
  }

  lemma {:induction false} RunKeepsInv(c: Config, bound: nat, states: seq<World>, actions: seq<Action>, k: nat)
    requires RunWithin(c, bound, states, actions) && CleanRun(c, states, actions) && k < |states|
    requires bound <= c.cooldownMs
    ensures Inv(c, bound, states[k])
  {
    if k > 0 {
      RunKeepsInv(c, bound, states, actions, k - 1);
      assert StepAt(c, states, actions, k - 1);
      assert Prompt(bound, states[k - 1], actions[k - 1]) && Clean(states[k - 1], actions[k - 1]);
      StepKeepsInv(c, bound, states[k - 1], actions[k - 1], states[k]);
    }
  }

  // ---------- the theorem, and why its assumptions are there ----------

  /**
   If no attempt gives its slots back after committing, and none lasts longer than
   half the cooldown, or than what the cooldown exceeds the window by, then at
   every moment of every run two reports with the same reporter, target, guild and
   normalised reason are more than the window apart.
   */
  lemma NoDuplicates(c: Config, bound: nat, states: seq<World>, actions: seq<Action>, k: nat)
    requires RunWithin(c, bound, states, actions) && CleanRun(c, states, actions) && k < |states|
    requires Enough(c, bound)
    ensures SpacedOut(c, states[k].reports)
  {
    RunKeepsInv(c, bound, states, actions, k);
  }
}
