/**
 The daily cap: how the day key, which every attempt increments before it knows
 whether it may go on, counts the reports of a reporter.
 */
module ReportCap {
  import opened Options
  import opened ReportIntake
  import opened ReportDedupe
  import ReportLimits

  function CountedOf(s: World, r: string): set<AttemptId> {
    set x | x in s.attempts && s.attempts[x].reporter == r && Counted(s.attempts[x].pc)
  }

  function AdmittedOf(s: World, r: string): set<AttemptId> {
    set x | x in s.attempts && s.attempts[x].reporter == r && Admitted(s.attempts[x].pc)
  }

  function Owners(reports: seq<Row>): set<AttemptId> {
    set i | 0 <= i < |reports| :: reports[i].owner
  }

  /** The attempts that have committed their report and not ended yet. */
  function CommittedOf(s: World, r: string): set<AttemptId> {
    set x | x in s.attempts && s.attempts[x].reporter == r && x in Owners(s.reports)
  }

  function ReportsOf(reports: seq<Row>, r: string): nat {
    if reports == [] then 0
    else ReportsOf(reports[..|reports| - 1], r) + if reports[|reports| - 1].slot.reporter == r then 1 else 0
  }

  /** The day key counts the attempts in flight and those that ended without giving their count back. */
  ghost predicate Books(c: Config, s: World, r: string) {
    && s.attempts.Keys <= s.used
    && Get(s.kept, r) >= 0 && Get(s.lost, r) >= 0 && Get(s.leaked, r) >= 0
    && Get(s.counter, r) == |CountedOf(s, r)| + Get(s.kept, r) + Get(s.lost, r) + Get(s.leaked, r)
    && |AdmittedOf(s, r)| + Get(s.kept, r) + Get(s.lost, r) <= c.cap
  }

  lemma OneMember(a: set<AttemptId>, b: set<AttemptId>, x: AttemptId)
    requires a - {x} == b - {x}
    ensures |a| - (if x in a then 1 else 0) == |b| - (if x in b then 1 else 0)
  {
    assert |a - {x}| == |a| - if x in a then 1 else 0;
    assert |b - {x}| == |b| - if x in b then 1 else 0;
  }

  lemma CountsMove(s: World, t: World, x: AttemptId, r: string)
    requires t.attempts - {x} == s.attempts - {x}
    ensures |CountedOf(t, r)| - (if x in CountedOf(t, r) then 1 else 0)
         == |CountedOf(s, r)| - (if x in CountedOf(s, r) then 1 else 0)
    ensures |AdmittedOf(t, r)| - (if x in AdmittedOf(t, r) then 1 else 0)
         == |AdmittedOf(s, r)| - (if x in AdmittedOf(s, r) then 1 else 0)
  {
    forall y | y != x ensures y in t.attempts <==> y in s.attempts
                      ensures y in s.attempts ==> t.attempts[y] == s.attempts[y] {
      assert y in t.attempts - {x} <==> y in s.attempts - {x};
      if y in s.attempts { assert (t.attempts - {x})[y] == (s.attempts - {x})[y]; }
    }
    assert CountedOf(t, r) - {x} == CountedOf(s, r) - {x};
    assert AdmittedOf(t, r) - {x} == AdmittedOf(s, r) - {x};
    OneMember(CountedOf(t, r), CountedOf(s, r), x);
    OneMember(AdmittedOf(t, r), AdmittedOf(s, r), x);
  }

  /** An attempt that is admitted is counted. */
  lemma AdmittedAreCounted(s: World, r: string)
    ensures AdmittedOf(s, r) <= CountedOf(s, r) && |AdmittedOf(s, r)| <= |CountedOf(s, r)|
  {
    var a, b := AdmittedOf(s, r), CountedOf(s, r);
    assert b == a + (b - a);
  }

  /** The books balance again when `x` moves and the ledgers follow. */
  lemma BooksFollow(c: Config, s: World, t: World, x: AttemptId, r: string)
    requires Books(c, s, r) && t.attempts - {x} == s.attempts - {x} && t.used == s.used + {x}
    requires Get(t.kept, r) >= Get(s.kept, r) && Get(t.lost, r) >= Get(s.lost, r) && Get(t.leaked, r) >= Get(s.leaked, r)
    requires
      Get(t.counter, r) - Get(s.counter, r) ==
      Bit(x in CountedOf(t, r)) - Bit(x in CountedOf(s, r))
      + Get(t.kept, r) - Get(s.kept, r) + Get(t.lost, r) - Get(s.lost, r) + Get(t.leaked, r) - Get(s.leaked, r)
    requires
      || Bit(x in AdmittedOf(t, r)) + Get(t.kept, r) + Get(t.lost, r)
           <= Bit(x in AdmittedOf(s, r)) + Get(s.kept, r) + Get(s.lost, r)
      || (x !in CountedOf(s, r) && Get(t.counter, r) <= c.cap
          && Get(t.kept, r) == Get(s.kept, r) && Get(t.lost, r) == Get(s.lost, r))
    ensures Books(c, t, r)
  {
    CountsMove(s, t, x, r);
    AdmittedAreCounted(s, r);
    assert forall y | y in t.attempts && y != x :: y in t.attempts - {x};
  }

  function Bit(b: bool): int {
    if b then 1 else 0
  }

  lemma IncrKeepsBooks(c: Config, s: World, x: AttemptId, r: string)
    requires Enabled(c, s, Incr(x)) && Books(c, s, r)
    ensures Books(c, Apply(c, s, Incr(x)), r)
  {
    var t := Apply(c, s, Incr(x));
    assert t.attempts - {x} == s.attempts - {x};
    BooksFollow(c, s, t, x, r);
  }

  lemma RefuseKeepsBooks(c: Config, s: World, x: AttemptId, r: string)
    requires Enabled(c, s, Refuse(x)) && Books(c, s, r)
    ensures Books(c, Apply(c, s, Refuse(x)), r)
  {
    var t := Apply(c, s, Refuse(x));
    assert t.attempts - {x} == s.attempts - {x};
    BooksFollow(c, s, t, x, r);
  }

  lemma RollbackKeepsBooks(c: Config, s: World, x: AttemptId, r: string)
    requires Enabled(c, s, RollbackDecr(x)) && Books(c, s, r)
    ensures Books(c, Apply(c, s, RollbackDecr(x)), r)
  {
    var t := Apply(c, s, RollbackDecr(x));
    assert t.attempts - {x} == s.attempts - {x};
    BooksFollow(c, s, t, x, r);
  }

  lemma AdvanceKeepsBooks(c: Config, s: World, x: AttemptId, a: Action, r: string)
    requires Enabled(c, s, a) && Books(c, s, r) && (a == Insert(x) || a == RollbackDel(x))
    ensures Books(c, Apply(c, s, a), r)
  {
    var t := Apply(c, s, a);
    assert t.attempts - {x} == s.attempts - {x};
    BooksFollow(c, s, t, x, r);
  }

  lemma CooldownKeepsBooks(c: Config, s: World, x: AttemptId, r: string)
    requires Enabled(c, s, SetCooldown(x)) && Books(c, s, r)
    ensures Books(c, Apply(c, s, SetCooldown(x)), r)
  {
    var t := Apply(c, s, SetCooldown(x));
    assert t.attempts - {x} == s.attempts - {x};
    BooksFollow(c, s, t, x, r);
  }

  lemma CacheWriteKeepsBooks(c: Config, s: World, x: AttemptId, ok: bool, r: string)
    requires Enabled(c, s, CacheWrite(x, ok)) && Books(c, s, r)
    ensures Books(c, Apply(c, s, CacheWrite(x, ok)), r)
  {
    var t := Apply(c, s, CacheWrite(x, ok));
    assert t.attempts - {x} == s.attempts - {x};
    BooksFollow(c, s, t, x, r);
  }

  /** A lookup ends the attempt or moves it on; which, does not matter to the counts. */
  ghost predicate Looked(s: World, x: AttemptId, t: World) {
    && x in s.attempts && s.attempts[x].pc.AtLookup?
    && (t == End(s, x) || t == Goto(s, x, AtIncr(|s.reports|)))
  }

  lemma LookupKeepsBooks(c: Config, s: World, x: AttemptId, t: World, r: string)
    requires Looked(s, x, t) && Books(c, s, r)
    ensures Books(c, t, r)
  {
    assert t.attempts - {x} == s.attempts - {x};
    BooksFollow(c, s, t, x, r);
  }

  lemma CommitKeepsBooks(c: Config, s: World, x: AttemptId, outcome: Outcome, r: string)
    requires Enabled(c, s, CommitTx(x, outcome)) && Books(c, s, r)
    requires !outcome.Acked? || s.attempts[x].instant
    ensures Books(c, Apply(c, s, CommitTx(x, outcome)), r)
  {
    var t := Apply(c, s, CommitTx(x, outcome));
    assert t.attempts - {x} == s.attempts - {x};
    BooksFollow(c, s, t, x, r);
  }

  lemma PendingCommitKeepsBooks(c: Config, s: World, x: AttemptId, r: string)
    requires Enabled(c, s, CommitTx(x, Acked)) && Books(c, s, r) && !s.attempts[x].instant
    ensures Books(c, Apply(c, s, CommitTx(x, Acked)), r)
  {
    var t := Apply(c, s, CommitTx(x, Acked));
    assert t.attempts - {x} == s.attempts - {x};
    BooksFollow(c, s, t, x, r);
  }

  lemma CrashKeepsBooks(c: Config, s: World, x: AttemptId, r: string)
    requires Enabled(c, s, Crash(x)) && Books(c, s, r)
    ensures Books(c, Apply(c, s, Crash(x)), r)
  {
    var t := Apply(c, s, Crash(x));
    var u := Abandoned(s, s.attempts[x]);
    assert t == u.(attempts := s.attempts - {x});
    assert t.attempts - {x} == s.attempts - {x};
    assert x !in CountedOf(t, r) && x !in AdmittedOf(t, r);
    BooksFollow(c, s, t, x, r);
  }

  lemma StepKeepsBooks(c: Config, s: World, a: Action, t: World, r: string)
    requires Step(c, s, a, t) && Books(c, s, r)
    ensures Books(c, t, r)
  {
    match a
    case Tick(_) => assert CountedOf(t, r) == CountedOf(s, r) && AdmittedOf(t, r) == AdmittedOf(s, r);
    case Start(x, _, _, _, _, _) =>
      assert t.attempts - {x} == s.attempts - {x};
      BooksFollow(c, s, t, x, r);
    case Lookup(x) => LookupKeepsBooks(c, s, x, t, r);
    case Incr(x) => IncrKeepsBooks(c, s, x, r);
    case Refuse(x) => RefuseKeepsBooks(c, s, x, r);
    case SetCooldown(x) => CooldownKeepsBooks(c, s, x, r);
    case Insert(x) => AdvanceKeepsBooks(c, s, x, a, r);
    case CommitTx(x, outcome) =>
      if outcome.Acked? && !s.attempts[x].instant {
        PendingCommitKeepsBooks(c, s, x, r);
      } else {
        CommitKeepsBooks(c, s, x, outcome, r);
      }
    case CacheWrite(x, ok) => CacheWriteKeepsBooks(c, s, x, ok, r);
    case RollbackDel(x) => AdvanceKeepsBooks(c, s, x, a, r);
    case RollbackDecr(x) => RollbackKeepsBooks(c, s, x, r);
    case Crash(x) => CrashKeepsBooks(c, s, x, r);
  }

  // ---------- the committed reports ----------

  ghost predicate KnownAt(s: World, x: AttemptId)
    requires x in s.attempts
  {
    var pc := s.attempts[x].pc;
    && (pc.AtCacheWrite? ==> x in Owners(s.reports))
    && (x in Owners(s.reports) ==> pc.AtCacheWrite? || pc.AtRollbackDel? || pc.AtRollbackDecr?)
  }

  ghost predicate Known(s: World) {
    && s.attempts.Keys <= s.used && Owners(s.reports) <= s.used
    && forall x | x in s.attempts :: KnownAt(s, x)
  }

  /**
   The committed reports are those of attempts that kept their count, that died
   with it, that are still under way, or that gave it back all the same.
   */
  ghost predicate Balanced(s: World, r: string, refunds: nat) {
    var others := |CommittedOf(s, r)| + refunds;
    Get(s.kept, r) + others <= ReportsOf(s.reports, r) <= Get(s.kept, r) + Get(s.lost, r) + others
  }

  /** The step gives back the count of an attempt whose report is committed. */
  function Refund(s: World, a: Action, r: string): nat {
    if a.RollbackDecr? && a.a in s.attempts && s.attempts[a.a].reporter == r && a.a in Owners(s.reports) then 1 else 0
  }

  /** How often that has happened in the first `k` steps. */
  function Refunds(states: seq<World>, actions: seq<Action>, k: nat, r: string): nat
    requires k <= |actions| < |states|
  {
    if k == 0 then 0 else Refunds(states, actions, k - 1, r) + Refund(states[k - 1], actions[k - 1], r)
  }

  lemma CommittedMoves(s: World, t: World, x: AttemptId, r: string)
    requires t.attempts - {x} == s.attempts - {x} && Owners(t.reports) - {x} == Owners(s.reports) - {x}
    ensures |CommittedOf(t, r)| - Bit(x in CommittedOf(t, r)) == |CommittedOf(s, r)| - Bit(x in CommittedOf(s, r))
    ensures Known(s) && t.used >= s.used + {x} && (x in t.attempts ==> KnownAt(t, x)) ==> Known(t)
  {
    forall y | y != x ensures y in t.attempts <==> y in s.attempts
                      ensures y in s.attempts ==> t.attempts[y] == s.attempts[y]
                      ensures y in Owners(t.reports) <==> y in Owners(s.reports) {
      assert y in t.attempts - {x} <==> y in s.attempts - {x};
      if y in s.attempts { assert (t.attempts - {x})[y] == (s.attempts - {x})[y]; }
      assert y in Owners(t.reports) - {x} <==> y in Owners(s.reports) - {x};
    }
    assert CommittedOf(t, r) - {x} == CommittedOf(s, r) - {x};
    OneMember(CommittedOf(t, r), CommittedOf(s, r), x);
    if Known(s) && t.used >= s.used + {x} && (x in t.attempts ==> KnownAt(t, x)) {
      forall y | y in t.attempts ensures KnownAt(t, y) {
        if y != x { assert KnownAt(s, y); }
      }
    }
  }

  lemma BalanceFollows(s: World, t: World, x: AttemptId, r: string, refunds: nat)
    requires Known(s) && Balanced(s, r, refunds)
    requires t.attempts - {x} == s.attempts - {x} && t.reports == s.reports && t.used == s.used + {x}
    requires x in t.attempts ==> KnownAt(t, x)
    requires
      var bits := Bit(x in CommittedOf(t, r)) - Bit(x in CommittedOf(s, r));
      Get(t.kept, r) - Get(s.kept, r) + bits <= 0 <= Get(t.kept, r) - Get(s.kept, r) + Get(t.lost, r) - Get(s.lost, r) + bits
    ensures Known(t) && Balanced(t, r, refunds)
  {
    CommittedMoves(s, t, x, r);
  }

  lemma LandedBalances(s: World, x: AttemptId, row: Row, t: World, r: string, refunds: nat)
    requires Known(s) && Balanced(s, r, refunds) && x in s.attempts && s.attempts[x].pc.AtCommit?
    requires t.attempts - {x} == s.attempts - {x} && t.used == s.used && t.lost == s.lost
    requires t.reports == s.reports + [row] && row.owner == x && row.slot.reporter == s.attempts[x].reporter
    requires
      || (x !in t.attempts && t.kept == Add(s.kept, s.attempts[x].reporter, 1))
      || (x in t.attempts && t.attempts[x].reporter == s.attempts[x].reporter && t.kept == s.kept
          && (t.attempts[x].pc.AtCacheWrite? || t.attempts[x].pc.AtRollbackDel?))
    ensures Known(t) && Balanced(t, r, refunds)
  {
    assert KnownAt(s, x);
    var n := |s.reports|;
    assert t.reports[..n] == s.reports && t.reports[n].owner == x;
    assert Owners(t.reports) == Owners(s.reports) + {x} by {
      forall y | y in Owners(s.reports) ensures y in Owners(t.reports) {
        var i :| 0 <= i < n && s.reports[i].owner == y;
        assert t.reports[i].owner == y;
      }
    }
    CommittedMoves(s, t, x, r);
  }

  lemma LookupBalances(s: World, x: AttemptId, t: World, r: string, refunds: nat)
    requires Looked(s, x, t) && Known(s) && Balanced(s, r, refunds)
    ensures Known(t) && Balanced(t, r, refunds)
  {
    assert t.attempts - {x} == s.attempts - {x};
    assert KnownAt(s, x);
    BalanceFollows(s, t, x, r, refunds);
  }

  lemma AdvanceBalances(c: Config, s: World, x: AttemptId, a: Action, t: World, r: string, refunds: nat)
    requires Step(c, s, a, t) && Known(s) && Balanced(s, r, refunds) && (a == Incr(x) || a == Insert(x))
    ensures Known(t) && Balanced(t, r, refunds)
  {
    assert t.attempts - {x} == s.attempts - {x};
    assert KnownAt(s, x);
    BalanceFollows(s, t, x, r, refunds);
  }

  lemma CooldownBalances(c: Config, s: World, x: AttemptId, t: World, r: string, refunds: nat)
    requires Step(c, s, SetCooldown(x), t) && Known(s) && Balanced(s, r, refunds)
    ensures Known(t) && Balanced(t, r, refunds)
  {
    assert t.attempts - {x} == s.attempts - {x};
    assert KnownAt(s, x);
    BalanceFollows(s, t, x, r, refunds);
  }

  lemma RefuseBalances(c: Config, s: World, x: AttemptId, t: World, r: string, refunds: nat)
    requires Step(c, s, Refuse(x), t) && Known(s) && Balanced(s, r, refunds)
    ensures Known(t) && Balanced(t, r, refunds)
  {
    assert t.attempts - {x} == s.attempts - {x};
    assert KnownAt(s, x);
    BalanceFollows(s, t, x, r, refunds);
  }

  /** The count goes back: a committed report that it stood for is from now on a refund. */
  lemma RefundBalances(c: Config, s: World, x: AttemptId, t: World, r: string, refunds: nat)
    requires Step(c, s, RollbackDecr(x), t) && Known(s) && Balanced(s, r, refunds)
    ensures Known(t) && Balanced(t, r, refunds + Refund(s, RollbackDecr(x), r))
  {
    assert t.attempts - {x} == s.attempts - {x};
    assert KnownAt(s, x);
    CommittedMoves(s, t, x, r);
  }

  lemma RollbackBalances(c: Config, s: World, x: AttemptId, t: World, r: string, refunds: nat)
    requires Step(c, s, RollbackDel(x), t) && Known(s) && Balanced(s, r, refunds)
    ensures Known(t) && Balanced(t, r, refunds)
  {
    assert t.attempts - {x} == s.attempts - {x};
    assert KnownAt(s, x);
    BalanceFollows(s, t, x, r, refunds);
  }

  lemma CacheWriteBalances(c: Config, s: World, x: AttemptId, ok: bool, t: World, r: string, refunds: nat)
    requires Step(c, s, CacheWrite(x, ok), t) && Known(s) && Balanced(s, r, refunds)
    ensures Known(t) && Balanced(t, r, refunds)
  {
    assert t.attempts - {x} == s.attempts - {x};
    assert KnownAt(s, x);
    BalanceFollows(s, t, x, r, refunds);
  }

  lemma CrashBalances(c: Config, s: World, x: AttemptId, t: World, r: string, refunds: nat)
    requires Step(c, s, Crash(x), t) && Known(s) && Balanced(s, r, refunds)
    ensures Known(t) && Balanced(t, r, refunds)
  {
    assert t.attempts - {x} == s.attempts - {x};
    assert KnownAt(s, x);
    BalanceFollows(s, t, x, r, refunds);
  }

  lemma AbortBalances(c: Config, s: World, x: AttemptId, t: World, r: string, refunds: nat)
    requires Step(c, s, CommitTx(x, NotDone), t) && Known(s) && Balanced(s, r, refunds)
    ensures Known(t) && Balanced(t, r, refunds)
  {
    assert t.attempts - {x} == s.attempts - {x};
    assert KnownAt(s, x);
    BalanceFollows(s, t, x, r, refunds);
  }

  lemma PendingCommitBalances(c: Config, s: World, x: AttemptId, t: World, r: string, refunds: nat)
    requires Step(c, s, CommitTx(x, Acked), t) && Known(s) && Balanced(s, r, refunds) && !s.attempts[x].instant
    ensures Known(t) && Balanced(t, r, refunds)
  {
    assert t.attempts - {x} == s.attempts - {x};
    LandedBalances(s, x, Committed(s.attempts[x], x, s.now), t, r, refunds);
  }

  lemma CommitBalances(c: Config, s: World, x: AttemptId, outcome: Outcome, t: World, r: string, refunds: nat)
    requires Step(c, s, CommitTx(x, outcome), t) && Known(s) && Balanced(s, r, refunds)
    requires outcome.AckLost? || (outcome.Acked? && s.attempts[x].instant)
    ensures Known(t) && Balanced(t, r, refunds)
  {
    assert t.attempts - {x} == s.attempts - {x};
    LandedBalances(s, x, Committed(s.attempts[x], x, s.now), t, r, refunds);
  }

  lemma StepKeepsBalance(c: Config, s: World, a: Action, t: World, r: string, refunds: nat)
    requires Step(c, s, a, t) && Known(s) && Balanced(s, r, refunds)
    ensures Known(t) && Balanced(t, r, refunds + Refund(s, a, r))
  {
    match a
    case Tick(_) =>
      assert forall x | x in t.attempts :: KnownAt(s, x) && KnownAt(t, x);
      assert CommittedOf(t, r) == CommittedOf(s, r);
    case Start(x, _, _, _, _, _) =>
      assert t.attempts - {x} == s.attempts - {x};
      BalanceFollows(s, t, x, r, refunds);
    case Lookup(x) => LookupBalances(s, x, t, r, refunds);
    case Incr(x) => AdvanceBalances(c, s, x, a, t, r, refunds);
    case Refuse(x) => RefuseBalances(c, s, x, t, r, refunds);
    case SetCooldown(x) => CooldownBalances(c, s, x, t, r, refunds);
    case Insert(x) => AdvanceBalances(c, s, x, a, t, r, refunds);
    case CommitTx(x, NotDone) => AbortBalances(c, s, x, t, r, refunds);
    case CommitTx(x, AckLost) => CommitBalances(c, s, x, AckLost, t, r, refunds);
    case CommitTx(x, Acked) =>
      if s.attempts[x].instant {
        CommitBalances(c, s, x, Acked, t, r, refunds);
      } else {
        PendingCommitBalances(c, s, x, t, r, refunds);
      }
    case CacheWrite(x, ok) => CacheWriteBalances(c, s, x, ok, t, r, refunds);
    case RollbackDel(x) => RollbackBalances(c, s, x, t, r, refunds);
    case RollbackDecr(x) => RefundBalances(c, s, x, t, r, refunds);
    case Crash(x) => CrashBalances(c, s, x, t, r, refunds);
  }

  lemma {:induction false} RunKeepsBooks(c: Config, states: seq<World>, actions: seq<Action>, k: nat, r: string)
    requires Run(c, states, actions) && k < |states|
    ensures Books(c, states[k], r)
  {
    if k == 0 {
      assert CountedOf(states[0], r) == {} && AdmittedOf(states[0], r) == {};
    } else {
      RunKeepsBooks(c, states, actions, k - 1, r);
      assert StepAt(c, states, actions, k - 1);
      StepKeepsBooks(c, states[k - 1], actions[k - 1], states[k], r);
    }
  }

  lemma {:induction false} RunKeepsBalance(c: Config, states: seq<World>, actions: seq<Action>, k: nat, r: string)
    requires Run(c, states, actions) && k < |states|
    ensures Known(states[k]) && Balanced(states[k], r, Refunds(states, actions, k, r))
  {
    if k == 0 {
      assert CommittedOf(states[0], r) == {};
    } else {
      RunKeepsBalance(c, states, actions, k - 1, r);
      assert StepAt(c, states, actions, k - 1);
      StepKeepsBalance(c, states[k - 1], actions[k - 1], states[k], r, Refunds(states, actions, k - 1, r));
    }
  }

  lemma {:induction false} NoCrashNoLoss(c: Config, states: seq<World>, actions: seq<Action>, k: nat)
    requires Run(c, states, actions) && k < |states|
    requires forall i | 0 <= i < |actions| :: !actions[i].Crash?
    ensures states[k].lost == map[] && states[k].leaked == map[]
  {
    if k > 0 {
      NoCrashNoLoss(c, states, actions, k - 1);
      assert StepAt(c, states, actions, k - 1) && !actions[k - 1].Crash?;
    }
  }

  // ---------- the theorems ----------

  /**
   At every moment of every run the attempts admitted and not rolled back, those
   in flight included, are within the cap, and the day key is exactly their number
   plus the increments of attempts that are being refused or died uncounted for.
   */
  lemma AdmissionsWithinCap(c: Config, states: seq<World>, actions: seq<Action>, k: nat, r: string)
    requires Run(c, states, actions) && k < |states|
    ensures
      var s := states[k];
      && |AdmittedOf(s, r)| + Get(s.kept, r) + Get(s.lost, r) <= c.cap
      && Get(s.counter, r) == |CountedOf(s, r)| + Get(s.kept, r) + Get(s.lost, r) + Get(s.leaked, r)
  {
    RunKeepsBooks(c, states, actions, k, r);
  }

  /**
   In every run a reporter's committed reports exceed the cap by at most the number
   of times that an attempt gave its count back although its report was committed.
   */
  lemma ReportsWithinCap(c: Config, states: seq<World>, actions: seq<Action>, k: nat, r: string)
    requires Run(c, states, actions) && k < |states|
    ensures ReportsOf(states[k].reports, r) <= c.cap + Refunds(states, actions, k, r)
  {
    var s := states[k];
    RunKeepsBooks(c, states, actions, k, r);
    RunKeepsBalance(c, states, actions, k, r);
    forall x | x in CommittedOf(s, r) ensures x in AdmittedOf(s, r) {
      assert KnownAt(s, x);
    }
    var rest := AdmittedOf(s, r) - CommittedOf(s, r);
    assert AdmittedOf(s, r) == CommittedOf(s, r) + rest;
  }

  /** Without crashes, whenever a reporter has no attempt in flight the day key falls short of their reports by exactly that number. */
  lemma IdleCounterIsExact(c: Config, states: seq<World>, actions: seq<Action>, k: nat, r: string)
    requires Run(c, states, actions) && k < |states|
    requires forall i | 0 <= i < |actions| :: !actions[i].Crash?
    requires forall x | x in states[k].attempts :: states[k].attempts[x].reporter != r
    ensures Get(states[k].counter, r) + Refunds(states, actions, k, r) == ReportsOf(states[k].reports, r)
  {
    var s := states[k];
    RunKeepsBooks(c, states, actions, k, r);
    RunKeepsBalance(c, states, actions, k, r);
    NoCrashNoLoss(c, states, actions, k);
    assert CountedOf(s, r) == {} && CommittedOf(s, r) == {};
  }

  ghost predicate NoOwnerRollsBack(s: World) {
    forall x | x in s.attempts && s.attempts[x].pc.AtRollbackDecr? :: x !in Owners(s.reports)
  }

  lemma OwnersAppend(reports: seq<Row>, row: Row)
    ensures Owners(reports + [row]) <= Owners(reports) + {row.owner}
  {
  }

  lemma CommitKeepsRollbacks(c: Config, s: World, x: AttemptId, outcome: Outcome, t: World)
    requires Step(c, s, CommitTx(x, outcome), t) && NoOwnerRollsBack(s)
    ensures NoOwnerRollsBack(t)
  {
    OwnersAppend(s.reports, Committed(s.attempts[x], x, s.now));
    assert x in t.attempts ==> !t.attempts[x].pc.AtRollbackDecr?;
    assert forall y | y in t.attempts && y != x :: y in s.attempts && t.attempts[y] == s.attempts[y];
  }

  lemma AdvanceKeepsRollbacks(c: Config, s: World, a: Action, t: World)
    requires Step(c, s, a, t) && Clean(s, a) && NoOwnerRollsBack(s)
    requires a.Incr? || a.SetCooldown? || a.Insert? || a.RollbackDel?
    ensures NoOwnerRollsBack(t)
  {
  }

  lemma EndKeepsRollbacks(s: World, x: AttemptId, t: World)
    requires NoOwnerRollsBack(s) && t.reports == s.reports && t.attempts == s.attempts - {x}
    ensures NoOwnerRollsBack(t)
  {
  }

  lemma StepKeepsRollbacks(c: Config, s: World, a: Action, t: World)
    requires Step(c, s, a, t) && Clean(s, a) && NoOwnerRollsBack(s)
    ensures NoOwnerRollsBack(t)
  {
    match a
    case CommitTx(x, outcome) => CommitKeepsRollbacks(c, s, x, outcome, t);
    case Crash(x) => EndKeepsRollbacks(s, x, t);
    case Refuse(x) => EndKeepsRollbacks(s, x, t);
    case RollbackDecr(x) => EndKeepsRollbacks(s, x, t);
    case CacheWrite(x, true) => EndKeepsRollbacks(s, x, t);
    case CacheWrite(_, false) =>
    case Lookup(x) => assert Looked(s, x, t);
    case Tick(_) =>
    case Start(_, _, _, _, _, _) =>
    case _ => AdvanceKeepsRollbacks(c, s, a, t);
  }

  /** In a clean run no count is given back for a committed report, so the cap itself is the bound. */
  lemma {:induction false} CleanRunRefundsNothing(c: Config, states: seq<World>, actions: seq<Action>, k: nat, r: string)
    requires CleanRun(c, states, actions) && k < |states|
    ensures Refunds(states, actions, k, r) == 0 && NoOwnerRollsBack(states[k])
  {
    if k > 0 {
      var s, a, t := states[k - 1], actions[k - 1], states[k];
      CleanRunRefundsNothing(c, states, actions, k - 1, r);
      assert StepAt(c, states, actions, k - 1) && Clean(s, a);
      StepKeepsRollbacks(c, s, a, t);
    }
  }

  // ---------- the excess is reached ----------

  /** A different reason for every report. */
  function Reason(n: nat): (s: string)
    ensures |s| == n
  {
    if n == 0 then "" else Reason(n - 1) + "x"
  }

  lemma ReasonsDiffer(i: nat, j: nat)
    requires i != j
    ensures RawKey("1", "2", None, Reason(i)) != RawKey("1", "2", None, Reason(j))
  {
    if RawKey("1", "2", None, Reason(i)) == RawKey("1", "2", None, Reason(j)) {
      RawKeyInjective("1", "2", None, Reason(i), "1", "2", None, Reason(j));
    }
  }

  lemma {:induction false} SameReporter(reports: seq<Row>, r: string)
    requires forall i | 0 <= i < |reports| :: reports[i].slot.reporter == r
    ensures ReportsOf(reports, r) == |reports|
  {
    if reports != [] { SameReporter(reports[..|reports| - 1], r); }
  }

  /** Reporter "1" has had `n` reports committed, the day key stands at `m`, and nothing is in flight. */
  ghost predicate Idle(c: Config, s: World, n: nat, m: nat) {
    && s.attempts == map[] && (forall x | x in s.used :: x < n) && |s.reports| == n && Get(s.counter, "1") == m
    && (forall i | 0 <= i < n ::
          s.reports[i].slot == Slot("1", None) && s.reports[i].key == RawKey("1", "2", None, Reason(i)) && s.reports[i].owner == i)
    && (Slot("1", None) in s.cooldown ==> s.cooldown[Slot("1", None)].expires <= s.now + c.cooldownMs)
  }

  /** Attempt `n` of reporter "1" stands at `pc`; the rest is as when it was idle. */
  ghost predicate Busy(c: Config, s: World, n: nat, pc: Pc) {
    && s.attempts == map[n := Attempt("1", "2", None, Reason(n), true, s.now, pc)] && s.used >= {n}
    && (forall x | x in s.used :: x <= n)
    && (forall i | 0 <= i < |s.reports| ::
          s.reports[i].slot == Slot("1", None) && s.reports[i].key == RawKey("1", "2", None, Reason(i)) && s.reports[i].owner == i)
    && (Slot("1", None) in s.cooldown ==> s.cooldown[Slot("1", None)].expires <= s.now + c.cooldownMs)
  }

  lemma {:induction false} RefundsOfPrefix(states: seq<World>, actions: seq<Action>, states': seq<World>, actions': seq<Action>,
                                           k: nat, r: string)
    requires states <= states' && actions <= actions' && k <= |actions| < |states| && |actions'| < |states'|
    ensures Refunds(states', actions', k, r) == Refunds(states, actions, k, r)
  {
    if k > 0 { RefundsOfPrefix(states, actions, states', actions', k - 1, r); }
  }

  /** One more step, with the refunds so far. */
  lemma More(c: Config, states: seq<World>, actions: seq<Action>, a: Action)
    returns (states': seq<World>, actions': seq<Action>, s: World)
    requires RunWithin(c, 0, states, actions) && Enabled(c, states[|actions|], a) && Prompt(0, states[|actions|], a)
    ensures RunWithin(c, 0, states', actions') && |states'| == |actions'| + 1
    ensures s == states'[|actions'|] == Apply(c, states[|actions|], a)
    ensures Refunds(states', actions', |actions'|, "1")
         == Refunds(states, actions, |actions|, "1") + Refund(states[|actions|], a, "1")
  {
    states', actions', s := ReportLimits.Extend(c, 0, states, actions, a);
    RefundsOfPrefix(states, actions, states', actions', |actions|, "1");
  }

  lemma Begins(c: Config, states: seq<World>, actions: seq<Action>, n: nat, m: nat)
    returns (states': seq<World>, actions': seq<Action>, s: World)
    requires RunWithin(c, 0, states, actions) && Idle(c, states[|actions|], n, m) && m < c.cap
    ensures RunWithin(c, 0, states', actions') && s == states'[|actions'|] && Busy(c, s, n, AtIncr(n))
    ensures |s.reports| == n && Get(s.counter, "1") == m && !CooldownLive(s, Slot("1", None))
    ensures Refunds(states', actions', |actions'|, "1") == Refunds(states, actions, |actions|, "1")
  {
    states', actions', s := More(c, states, actions, Tick(states[|actions|].now + c.cooldownMs + 1));
    states', actions', s := More(c, states', actions', Start(n, "1", "2", None, Reason(n), true));
    forall i | 0 <= i < n ensures s.reports[i].key != RawKey("1", "2", None, Reason(n)) { ReasonsDiffer(i, n); }
    states', actions', s := More(c, states', actions', Lookup(n));
  }

  lemma TakesKey(c: Config, states: seq<World>, actions: seq<Action>, n: nat, m: nat)
    returns (states': seq<World>, actions': seq<Action>, s: World, setAt: int)
    requires RunWithin(c, 0, states, actions) && Idle(c, states[|actions|], n, m) && m < c.cap
    ensures RunWithin(c, 0, states', actions') && s == states'[|actions'|] && Busy(c, s, n, AtInsert(n, setAt))
    ensures |s.reports| == n && Get(s.counter, "1") == m + 1
    ensures Refunds(states', actions', |actions'|, "1") == Refunds(states, actions, |actions|, "1")
  {
    states', actions', s := Begins(c, states, actions, n, m);
    states', actions', s := More(c, states', actions', Incr(n));
    setAt := s.now;
    states', actions', s := More(c, states', actions', SetCooldown(n));
  }

  lemma Commits(c: Config, states: seq<World>, actions: seq<Action>, n: nat, m: nat)
    returns (states': seq<World>, actions': seq<Action>, s: World, setAt: int)
    requires RunWithin(c, 0, states, actions) && Idle(c, states[|actions|], n, m) && m < c.cap
    ensures RunWithin(c, 0, states', actions') && s == states'[|actions'|] && Busy(c, s, n, AtCacheWrite(n, setAt))
    ensures |s.reports| == n + 1 && Get(s.counter, "1") == m + 1
    ensures Refunds(states', actions', |actions'|, "1") == Refunds(states, actions, |actions|, "1")
  {
    states', actions', s, setAt := TakesKey(c, states, actions, n, m);
    states', actions', s := More(c, states', actions', Insert(n));
    assert s.attempts[n].pc == AtCommit(n, setAt, s.now);
    states', actions', s := More(c, states', actions', CommitTx(n, Acked));
  }

  /** A report whose cache write succeeds. */
  lemma Keeps(c: Config, states: seq<World>, actions: seq<Action>, n: nat, m: nat)
    returns (states': seq<World>, actions': seq<Action>)
    requires RunWithin(c, 0, states, actions) && Idle(c, states[|actions|], n, m) && m < c.cap
    ensures RunWithin(c, 0, states', actions') && Idle(c, states'[|actions'|], n + 1, m + 1)
    ensures Refunds(states', actions', |actions'|, "1") == Refunds(states, actions, |actions|, "1")
  {
    var s, setAt;
    states', actions', s, setAt := Commits(c, states, actions, n, m);
    states', actions', s := More(c, states', actions', CacheWrite(n, true));
    assert s.attempts == map[];
  }

  /** A report whose cache write fails: it is committed, and its count is given back. */
  lemma GivesBack(c: Config, states: seq<World>, actions: seq<Action>, n: nat, m: nat)
    returns (states': seq<World>, actions': seq<Action>)
    requires RunWithin(c, 0, states, actions) && Idle(c, states[|actions|], n, m) && m < c.cap
    ensures RunWithin(c, 0, states', actions') && Idle(c, states'[|actions'|], n + 1, m)
    ensures Refunds(states', actions', |actions'|, "1") == Refunds(states, actions, |actions|, "1") + 1
  {
    var s, setAt;
    states', actions', s, setAt := Commits(c, states, actions, n, m);
    assert s.reports[n].owner == n && n in Owners(s.reports);
    states', actions', s := More(c, states', actions', CacheWrite(n, false));
    states', actions', s := More(c, states', actions', RollbackDel(n));
    assert s.attempts[n].pc == AtRollbackDecr;
    states', actions', s := More(c, states', actions', RollbackDecr(n));
    assert s.attempts == map[];
  }

  /** For any number of refunds, then kept reports up to the cap. */
  lemma {:induction false} ManyReports(c: Config, refunds: nat, kept: nat) returns (states: seq<World>, actions: seq<Action>)
    requires c.cap >= 1 && kept <= c.cap
    ensures RunWithin(c, 0, states, actions) && Idle(c, states[|actions|], refunds + kept, kept)
    ensures Refunds(states, actions, |actions|, "1") == refunds
  {
    if kept > 0 {
      states, actions := ManyReports(c, refunds, kept - 1);
      states, actions := Keeps(c, states, actions, refunds + kept - 1, kept - 1);
    } else if refunds > 0 {
      states, actions := ManyReports(c, refunds - 1, 0);
      states, actions := GivesBack(c, states, actions, refunds - 1, 0);
    } else {
      states, actions := [World(0, map[], {}, [], map[], map[], map[], map[], map[])], [];
    }
  }

  /**
   The excess is reached: for every cap and every number of refunds some run, each
   of its attempts instantaneous, has exactly that many reports above the cap.
   */
  lemma RollbackAfterCommitExceedsCap(c: Config, refunds: nat) returns (states: seq<World>, actions: seq<Action>)
    requires c.cap >= 1
    ensures RunWithin(c, 0, states, actions) && Refunds(states, actions, |actions|, "1") == refunds
    ensures ReportsOf(states[|actions|].reports, "1") == c.cap + refunds
  {
    states, actions := ManyReports(c, refunds, c.cap);
    SameReporter(states[|actions|].reports, "1");
  }

  // ---------- a cap of one leaves nothing to keep apart ----------

  /** Ids are digits, and keys belong to their slots, in every run whatever its timing. */
  ghost predicate KeysMatch(s: World) {
    && (forall x | x in s.attempts :: Ids(s.attempts[x].reporter, s.attempts[x].target, s.attempts[x].guild))
    && (forall i | 0 <= i < |s.reports| :: KeyMatches(s.reports[i]))
  }

  lemma CommitKeepsKeys(c: Config, s: World, x: AttemptId, outcome: Outcome, t: World)
    requires Step(c, s, CommitTx(x, outcome), t) && KeysMatch(s)
    ensures KeysMatch(t)
  {
    var at := s.attempts[x];
    assert t.reports == s.reports || t.reports == s.reports + [Committed(at, x, s.now)];
  }

  lemma AdvanceKeepsKeys(c: Config, s: World, a: Action, t: World)
    requires Step(c, s, a, t) && (a.Incr? || a.SetCooldown? || a.Insert? || a.RollbackDel?) && KeysMatch(s)
    ensures KeysMatch(t)
  {
    assert t.reports == s.reports;
  }

  lemma EndKeepsKeys(s: World, x: AttemptId, t: World)
    requires KeysMatch(s) && t.reports == s.reports && t.attempts == s.attempts - {x}
    ensures KeysMatch(t)
  {
  }

  lemma CacheWriteKeepsKeys(c: Config, s: World, x: AttemptId, ok: bool, t: World)
    requires Step(c, s, CacheWrite(x, ok), t) && KeysMatch(s)
    ensures KeysMatch(t)
  {
    assert t.reports == s.reports;
  }

  lemma StepKeepsKeys(c: Config, s: World, a: Action, t: World)
    requires Step(c, s, a, t) && KeysMatch(s)
    ensures KeysMatch(t)
  {
    match a
    case CommitTx(x, outcome) => CommitKeepsKeys(c, s, x, outcome, t);
    case Crash(x) => EndKeepsKeys(s, x, t);
    case Lookup(x) => assert Looked(s, x, t);
    case CacheWrite(x, ok) => CacheWriteKeepsKeys(c, s, x, ok, t);
    case Refuse(x) => EndKeepsKeys(s, x, t);
    case RollbackDecr(x) => EndKeepsKeys(s, x, t);
    case Tick(_) =>
    case Start(_, _, _, _, _, _) =>
    case _ => AdvanceKeepsKeys(c, s, a, t);
  }

  lemma {:induction false} RunKeepsKeys(c: Config, states: seq<World>, actions: seq<Action>, k: nat)
    requires Run(c, states, actions) && k < |states|
    ensures KeysMatch(states[k])
  {
    if k > 0 {
      RunKeepsKeys(c, states, actions, k - 1);
      assert StepAt(c, states, actions, k - 1);
      StepKeepsKeys(c, states[k - 1], actions[k - 1], states[k]);
    }
  }

  /**
   In every run the lookup ends an attempt exactly when some report with the same
   reporter, target, guild and normalised reason was created inside the window.
   */
  lemma LookupFindsExactly(c: Config, states: seq<World>, actions: seq<Action>, k: nat)
    requires Run(c, states, actions) && k < |actions| && actions[k].Lookup?
    ensures actions[k].a in states[k].attempts
    ensures
      var s, at := states[k], states[k].attempts[actions[k].a];
      actions[k].a !in states[k + 1].attempts <==>
      exists i | 0 <= i < |s.reports| ::
        && s.reports[i].slot.reporter == at.reporter && s.reports[i].target == at.target
        && s.reports[i].slot.guild == at.guild && s.reports[i].norm == at.norm
        && s.reports[i].createdAt >= at.start - c.windowMs
  {
    assert StepAt(c, states, actions, k);
    RunKeepsKeys(c, states, actions, k);
    DuplicateExactlyWhen(c, states[k], actions[k].a);
  }

  lemma DuplicateExactlyWhen(c: Config, s: World, x: AttemptId)
    requires KeysMatch(s) && x in s.attempts
    ensures
      var at := s.attempts[x];
      Duplicate(c, s, at) <==>
      exists i | 0 <= i < |s.reports| ::
        && s.reports[i].slot.reporter == at.reporter && s.reports[i].target == at.target
        && s.reports[i].slot.guild == at.guild && s.reports[i].norm == at.norm
        && s.reports[i].createdAt >= at.start - c.windowMs
  {
    var at := s.attempts[x];
    var own := Row(KeyOf(at), Slot(at.reporter, at.guild), at.target, at.norm, x, at.start, 0, 0, 0);
    forall i | 0 <= i < |s.reports| ensures s.reports[i].key == KeyOf(at) <==> SameReport(s.reports[i], own) {
      SameKeyExactlyWhen(s.reports[i], own);
    }
  }

  lemma {:induction false} TwoReports(reports: seq<Row>, i: nat, j: nat, r: string)
    requires i < j < |reports| && reports[i].slot.reporter == reports[j].slot.reporter == r
    ensures ReportsOf(reports, r) >= 2
  {
    if j < |reports| - 1 {
      TwoReports(reports[..|reports| - 1], i, j, r);
    } else {
      OneReport(reports[..j], i, r);
    }
  }

  lemma {:induction false} OneReport(reports: seq<Row>, i: nat, r: string)
    requires i < |reports| && reports[i].slot.reporter == r
    ensures ReportsOf(reports, r) >= 1
  {
    if i < |reports| - 1 { OneReport(reports[..|reports| - 1], i, r); }
  }

  lemma OneReportIsApart(c: Config, states: seq<World>, actions: seq<Action>, k: nat)
    requires CleanRun(c, states, actions) && k < |states| && c.cap <= 1
    ensures SpacedOut(c, states[k].reports)
  {
    var reports := states[k].reports;
    forall i, j | 0 <= i < j < |reports| && SameReport(reports[i], reports[j])
      ensures ReportsOf(reports, reports[i].slot.reporter) >= 2 {
      TwoReports(reports, i, j, reports[i].slot.reporter);
    }
    forall r ensures ReportsOf(reports, r) <= 1 {
      ReportsWithinCap(c, states, actions, k, r);
      CleanRunRefundsNothing(c, states, actions, k, r);
    }
  }

  /** The exact condition for every configuration and every bound on the attempts. */
  lemma ApartExactlyWhen(c: Config, bound: nat)
    ensures ReportLimits.AlwaysApart(c, bound)
       <==> c.cap <= 1 || 2 * bound <= c.cooldownMs || bound + c.windowMs <= c.cooldownMs
  {
    if c.cap <= 1 {
      forall states: seq<World>, actions: seq<Action> |
        RunWithin(c, bound, states, actions) && CleanRun(c, states, actions)
        ensures SpacedOut(c, states[|actions|].reports) {
        OneReportIsApart(c, states, actions, |actions|);
      }
    } else {
      ReportLimits.ApartOnlyWhenEnough(c, bound);
    }
  }
}
