/**
 The assumptions of `NoDuplicates` cannot be weakened: for every bound on the
 attempts that it does not allow, and for every configuration once a committed
 report's slots are given back, some run commits the same report twice.
 */
module ReportLimits {
  import opened Options
  import opened ReportIntake
  import opened ReportDedupe

  lemma Extend(c: Config, bound: nat, states: seq<World>, actions: seq<Action>, a: Action)
    returns (states': seq<World>, actions': seq<Action>, s: World)
    requires RunWithin(c, bound, states, actions)
    requires Enabled(c, states[|actions|], a) && Prompt(bound, states[|actions|], a)
    ensures states' == states + [s] && actions' == actions + [a] && s == Apply(c, states[|actions|], a)
    ensures RunWithin(c, bound, states', actions')
    ensures CleanRun(c, states, actions) && Clean(states[|actions|], a) ==> CleanRun(c, states', actions')
  {
    s := Apply(c, states[|actions|], a);
    states', actions' := states + [s], actions + [a];
    forall i | 0 <= i < |actions'| ensures StepAt(c, states', actions', i) {
      if i < |actions| { assert StepAt(c, states, actions, i); }
    }
    forall i | 0 <= i < |actions'| ensures Prompt(bound, states'[i], actions'[i]) {
      if i < |actions| { assert Prompt(bound, states[i], actions[i]); }
    }
    if CleanRun(c, states, actions) && Clean(states[|actions|], a) {
      forall i | 0 <= i < |actions'| ensures Clean(states'[i], actions'[i]) {
        if i < |actions| { assert Clean(states[i], actions[i]); }
      }
    }
  }

  /** What a reporter submits. */
  datatype Filing = Filing(reporter: string, target: string, guild: Option<string>, norm: string)

  predicate ValidIds(f: Filing) {
    Ids(f.reporter, f.target, f.guild)
  }

  function Submit(x: AttemptId, f: Filing, instant: bool): Action {
    Action.Start(x, f.reporter, f.target, f.guild, f.norm, instant)
  }

  function Submitted(f: Filing, instant: bool, start: int, pc: Pc): Attempt {
    Attempt(f.reporter, f.target, f.guild, f.norm, instant, start, pc)
  }

  predicate Reports(r: Row, f: Filing) {
    r.slot == Slot(f.reporter, f.guild) && r.target == f.target && r.norm == f.norm
  }

  /** Attempt 0 takes the cooldown key at time 0. */
  lemma FirstTakesKey(c: Config, bound: nat, f: Filing, instant: bool)
    returns (states: seq<World>, actions: seq<Action>, s: World)
    requires c.cap >= 1 && ValidIds(f)
    ensures RunWithin(c, bound, states, actions) && CleanRun(c, states, actions) && s == states[|actions|]
    ensures s.now == 0 && s.reports == [] && s.used == {0} && s.counter == map[f.reporter := 1]
    ensures s.cooldown == map[Slot(f.reporter, f.guild) := Cool(0, c.cooldownMs)]
    ensures s.attempts == map[0 := Submitted(f, instant, 0, AtInsert(0, 0))]
  {
    var s0 := World(0, map[], {}, [], map[], map[], map[], map[], map[]);
    states, actions, s := Extend(c, bound, [s0], [], Submit(0, f, instant));
    states, actions, s := Extend(c, bound, states, actions, Lookup(0));
    states, actions, s := Extend(c, bound, states, actions, Incr(0));
    states, actions, s := Extend(c, bound, states, actions, SetCooldown(0));
  }

  /** Then attempt 1 looks up and counts itself; neither has committed. */
  lemma BothLookedUp(c: Config, bound: nat, f: Filing, instant: bool)
    returns (states: seq<World>, actions: seq<Action>, s: World)
    requires c.cap >= 2 && ValidIds(f)
    ensures RunWithin(c, bound, states, actions) && CleanRun(c, states, actions) && s == states[|actions|]
    ensures s.now == bound && s.reports == []
    ensures s.cooldown == map[Slot(f.reporter, f.guild) := Cool(0, c.cooldownMs)]
    ensures s.attempts == map[0 := Submitted(f, instant, 0, AtInsert(0, 0)),
                              1 := Submitted(f, instant, bound, AtCooldown(0))]
  {
    states, actions, s := FirstTakesKey(c, bound, f, instant);
    states, actions, s := Extend(c, bound, states, actions, Tick(bound));
    states, actions, s := Extend(c, bound, states, actions, Submit(1, f, instant));
    states, actions, s := Extend(c, bound, states, actions, Lookup(1));
    states, actions, s := Extend(c, bound, states, actions, Incr(1));
  }

  /** Once the key is free, attempt 1 commits behind attempt 0's report. */
  lemma SecondCommits(c: Config, bound: nat, f: Filing, states: seq<World>, actions: seq<Action>)
    returns (states': seq<World>, actions': seq<Action>)
    requires RunWithin(c, bound, states, actions)
    requires
      var s := states[|actions|];
      && 1 in s.attempts && s.attempts[1] == Submitted(f, s.attempts[1].instant, s.attempts[1].start, AtCooldown(0))
      && InTime(bound, s, s.attempts[1]) && !CooldownLive(s, Slot(f.reporter, f.guild))
      && |s.reports| == 1 && Reports(s.reports[0], f) && s.now - s.reports[0].createdAt <= c.windowMs
    ensures RunWithin(c, bound, states', actions') && Twice(c, states'[|actions'|].reports, f)
    ensures CleanRun(c, states, actions) ==> CleanRun(c, states', actions')
  {
    var s := states[|actions|];
    states', actions', s := Extend(c, bound, states, actions, SetCooldown(1));
    states', actions', s := Extend(c, bound, states', actions', Insert(1));
    states', actions', s := Extend(c, bound, states', actions', CommitTx(1, Acked));
    assert |s.reports| == 2;
  }

  /** Two reports of the same filing, not more than the window apart. */
  ghost predicate Twice(c: Config, reports: seq<Row>, f: Filing) {
    |reports| == 2 && Reports(reports[0], f) && Reports(reports[1], f)
    && reports[1].createdAt - reports[0].createdAt <= c.windowMs
  }

  /** For every bound that is not enough and every filing there is a clean run that keeps it and commits it twice. */
  lemma SlowAttemptsDuplicate(c: Config, bound: nat, f: Filing) returns (states: seq<World>, actions: seq<Action>)
    requires c.cap >= 2 && !Enough(c, bound) && ValidIds(f)
    ensures RunWithin(c, bound, states, actions) && CleanRun(c, states, actions)
    ensures Twice(c, states[|actions|].reports, f)
  {
    var s;
    states, actions, s := BothLookedUp(c, bound, f, false);
    states, actions, s := Extend(c, bound, states, actions, Insert(0));
    states, actions, s := Extend(c, bound, states, actions, CommitTx(0, Acked));
    var later := if bound > c.cooldownMs then bound else c.cooldownMs + 1;
    states, actions, s := Extend(c, bound, states, actions, Tick(later));
    states, actions := SecondCommits(c, bound, f, states, actions);
  }

  /** Every clean run whose attempts last at most `bound` keeps equal reports apart. */
  ghost predicate AlwaysApart(c: Config, bound: nat) {
    forall states: seq<World>, actions: seq<Action> |
      RunWithin(c, bound, states, actions) && CleanRun(c, states, actions) :: SpacedOut(c, states[|actions|].reports)
  }

  /** The exact condition for every configuration that lets a reporter file two reports a day. */
  lemma ApartOnlyWhenEnough(c: Config, bound: nat)
    requires c.cap >= 2
    ensures AlwaysApart(c, bound) <==> Enough(c, bound)
  {
    if Enough(c, bound) {
      forall states: seq<World>, actions: seq<Action> |
        RunWithin(c, bound, states, actions) && CleanRun(c, states, actions)
        ensures SpacedOut(c, states[|actions|].reports) {
        NoDuplicates(c, bound, states, actions, |actions|);
      }
    } else {
      var f := Filing("1", "2", None, "spam");
      var states, actions := SlowAttemptsDuplicate(c, bound, f);
    }
  }

  /**
   The instant path rolls back too much: its cache write sits inside the same
   `try` as the transaction, so when that write fails the attempt frees the
   cooldown of a report that is already committed, and an equal report that
   looked up before gets through, however fast both are.
   */
  lemma RollbackAfterCommitDuplicates(c: Config, f: Filing) returns (states: seq<World>, actions: seq<Action>)
    requires c.cap >= 2 && ValidIds(f)
    ensures RunWithin(c, 0, states, actions) && Twice(c, states[|actions|].reports, f)
  {
    var s;
    states, actions, s := BothLookedUp(c, 0, f, true);
    states, actions, s := Extend(c, 0, states, actions, Insert(0));
    states, actions, s := Extend(c, 0, states, actions, CommitTx(0, Acked));
    assert s.attempts[0].pc == AtCacheWrite(0, 0) && s.attempts[1].pc == AtCooldown(0);
    states, actions, s := Extend(c, 0, states, actions, CacheWrite(0, false));
    states, actions, s := Extend(c, 0, states, actions, RollbackDel(0));
    assert s.cooldown == map[];
    states, actions := SecondCommits(c, 0, f, states, actions);
  }
}
