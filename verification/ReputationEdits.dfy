/**
 Admin edits take no row lock.  Here one is two steps, the reading of the flags
 that it sums up and the writing of the user row, and anything may commit between.
 */
module ReputationEdits {
  import opened Options
  import opened FlagPolicy
  import opened Decay
  import opened Reputation
  import opened ReputationFacts
  import opened ReputationTx
  import ReputationPaths

  type EditId = nat

  /** An edit under way, with the sum over the flags it read. */
  datatype Read = Read(edit: Edit, sum: int)

  datatype Split = Split(sys: Sys, begun: map<EditId, Read>)

  datatype SplitAction =
    | Atomic(a: Action)           // every step but the two edits of flags
    | ReadFlags(k: EditId, e: Edit)
    | WriteUser(k: EditId)
    | GiveUp(k: EditId)

  /** The flag and the user row are changed at the commit; the score was computed from what was read. */
  function WrittenRow(c: Settings, a: Account, flags: seq<Flag>, sum: int): Account {
    Account(sum, LevelFromScore(c.th, sum), a.version + 1, flags)
  }

  function EditWithSum(c: Settings, db: Db, e: Edit, sum: int): Option<Db> {
    if e.FilePending? || e.u !in db.accounts then None
    else
      var a := db.accounts[e.u];
      var flags := EditedFlags(a, e);
      if flags.None? then None
      else
        var after := WrittenRow(c, a, flags.value, sum);
        var events := EditEvents(e, after);
        if Keys(events) !! Keys(db.events)
        then Some(Db(db.accounts[e.u := after], Unlinked(db.reports, e), db.events + events))
        else None
  }

  predicate SplitEnabled(c: Settings, s: Split, a: SplitAction) {
    match a
    case Atomic(x) => Enabled(c, s.sys, x) && (x.Admin? ==> x.edit.FilePending?)
    case ReadFlags(k, e) =>
      k !in s.begun && !e.FilePending? && e.u in s.sys.db.accounts && EditedFlags(s.sys.db.accounts[e.u], e).Some?
    case WriteUser(k) =>
      && k in s.begun && LockFree(s.sys, s.begun[k].edit.u)
      && (forall id | id in s.sys.open_ && s.sys.open_[id].Running? ::
            EditKeys(s.begun[k].edit) !! Keys(s.sys.open_[id].work.events))
      && EditWithSum(c, s.sys.db, s.begun[k].edit, s.begun[k].sum).Some?
    case GiveUp(k) => k in s.begun
  }

  function SplitApply(c: Settings, s: Split, a: SplitAction): Split
    requires SplitEnabled(c, s, a)
  {
    match a
    case Atomic(x) => s.(sys := Apply(c, s.sys, x))
    case ReadFlags(k, e) =>
      s.(begun := s.begun[k := Read(e, Sum(EditedFlags(s.sys.db.accounts[e.u], e).value))])
    case WriteUser(k) =>
      Split(s.sys.(db := EditWithSum(c, s.sys.db, s.begun[k].edit, s.begun[k].sum).value), s.begun - {k})
    case GiveUp(k) => s.(begun := s.begun - {k})
  }

  ghost predicate SplitStep(c: Settings, s: Split, a: SplitAction, t: Split) {
    SplitEnabled(c, s, a) && t == SplitApply(c, s, a) && (a.ReadFlags? ==> ValidEdit(a.e))
  }

  ghost predicate SplitStepAt(c: Settings, states: seq<Split>, actions: seq<SplitAction>, i: nat)
    requires i < |actions| < |states|
  {
    SplitStep(c, states[i], actions[i], states[i + 1])
  }

  ghost predicate SplitRun(c: Settings, states: seq<Split>, actions: seq<SplitAction>) {
    && |states| == |actions| + 1
    && Initial(states[0].sys) && states[0].begun == map[]
    && forall i | 0 <= i < |actions| :: SplitStepAt(c, states, actions, i)
  }

  // ---------- one edit ----------

  /** The sum that the edit read is still that of the flags it leaves. */
  ghost predicate UpToDate(s: Split, k: EditId)
    requires k in s.begun
  {
    var r := s.begun[k];
    EditedFlags(AccountOf(s.sys.db, r.edit.u), r.edit).Some?
    && r.sum == Sum(EditedFlags(AccountOf(s.sys.db, r.edit.u), r.edit).value)
  }

  /**
   For any state `a` that the edit read and any sound state `b` that it writes to:
   the written row is sound exactly when both give the same sum.
   */
  lemma WrittenRowSoundExactlyWhen(c: Settings, a: Account, b: Account, e: Edit)
    requires AccountOk(c, b) && ValidEdit(e) && EditedFlags(a, e).Some? && EditedFlags(b, e).Some?
    ensures
      var sum, flags := Sum(EditedFlags(a, e).value), EditedFlags(b, e).value;
      AccountOk(c, WrittenRow(c, b, flags, sum)) <==> sum == Sum(flags)
  {
    EditKeepsAccount(c, b, e);
  }

  /** A flag that commits between the two steps stays in the table and is missing from the score. */
  lemma FlagCommittedMeanwhileIsLost(c: Settings, s: Split, k: EditId, t: Split, e: Edit, a: Account, f: Flag)
    requires k in s.begun && SplitStep(c, s, WriteUser(k), t)
    requires !e.FilePending? && EditedFlags(a, e).Some? && s.begun[k] == Read(e, Sum(EditedFlags(a, e).value))
    requires NewFlag(f, a.flags) && f.weight > 0 && AccountOf(s.sys.db, e.u) == WithFlag(c, a, f)
    ensures
      && e.u in t.sys.db.accounts && f in t.sys.db.accounts[e.u].flags
      && t.sys.db.accounts[e.u].score == Sum(t.sys.db.accounts[e.u].flags) - f.weight
      && !AccountOk(c, t.sys.db.accounts[e.u])
  {
    EditCommutesWithAppend(c, a, e, f);
    SumAppend(EditedFlags(a, e).value, f);
  }

  lemma EditCommutesWithAppend(c: Settings, a: Account, e: Edit, f: Flag)
    requires !e.FilePending? && EditedFlags(a, e).Some? && NewFlag(f, a.flags)
    ensures EditedFlags(WithFlag(c, a, f), e) == Some(EditedFlags(a, e).value + [f])
  {
    var flags, more := a.flags, a.flags + [f];
    var i := FindFlag(flags, e.fid).value;
    assert more[..|flags|] == flags;
    assert FindFlag(more, e.fid) == Some(i);
    var head, mid, tail := flags[..i], if e.PatchFlag? then [Patched(flags[i], e.weight)] else [], flags[i + 1..];
    AppendSlices(flags, f, i);
    assert head + mid + (tail + [f]) == head + mid + tail + [f];
    assert e.DeleteFlag? ==> head + mid == head;
  }

  lemma AppendSlices<T>(xs: seq<T>, x: T, i: nat)
    requires i < |xs|
    ensures (xs + [x])[..i] == xs[..i] && (xs + [x])[i] == xs[i]
    ensures (xs + [x])[i + 1..] == xs[i + 1..] + [x]
  {
  }

  // ---------- whole runs ----------

  ghost predicate Sound(c: Settings, s: Split) {
    forall u | u in s.sys.db.accounts :: AccountOk(c, s.sys.db.accounts[u])
  }

  ghost predicate SoundThroughout(c: Settings, states: seq<Split>) {
    forall i | 0 <= i < |states| :: Sound(c, states[i])
  }

  /** Among the first `n` steps every edit writes a sum that is still up to date. */
  ghost predicate UpToDateBefore(states: seq<Split>, actions: seq<SplitAction>, n: nat)
    requires |states| == |actions| + 1 && n <= |actions|
  {
    forall i | 0 <= i < n && actions[i].WriteUser? && actions[i].k in states[i].begun ::
      UpToDate(states[i], actions[i].k)
  }

  ghost predicate EditsUpToDate(states: seq<Split>, actions: seq<SplitAction>)
    requires |states| == |actions| + 1
  {
    UpToDateBefore(states, actions, |actions|)
  }

  ghost predicate ReadsValid(s: Split) {
    forall k | k in s.begun :: ValidEdit(s.begun[k].edit) && !s.begun[k].edit.FilePending?
  }

  lemma {:induction false} UpToDateRunIsSound(c: Settings, states: seq<Split>, actions: seq<SplitAction>, k: nat)
    requires PositiveThresholds(c.th) && SplitRun(c, states, actions) && k < |states|
    requires UpToDateBefore(states, actions, k)
    ensures Inv(c, states[k].sys) && ReadsValid(states[k])
  {
    if k == 0 {
      assert Updates([], 0) == [];
    } else {
      UpToDateRunIsSound(c, states, actions, k - 1);
      var s, a, t := states[k - 1], actions[k - 1], states[k];
      assert SplitStepAt(c, states, actions, k - 1);
      match a
      case Atomic(x) => StepKeepsInv(c, s.sys, x, t.sys);
      case WriteUser(e) =>
        StepKeepsInv(c, s.sys, Admin(s.begun[e].edit), t.sys);
      case _ =>
    }
  }

  lemma SoundWriteWasUpToDate(c: Settings, s: Split, k: EditId, t: Split)
    requires SplitStep(c, s, WriteUser(k), t) && Sound(c, t)
    ensures UpToDate(s, k)
  {
    var u := s.begun[k].edit.u;
    assert AccountOk(c, t.sys.db.accounts[u]);
  }

  /**
   In every run, however edits and transactions interleave: the aggregate stays
   sound throughout if and only if every edit's sum was still up to date when it
   was written.
   */
  lemma SoundExactlyWhenUpToDate(c: Settings, states: seq<Split>, actions: seq<SplitAction>)
    requires PositiveThresholds(c.th) && SplitRun(c, states, actions)
    ensures SoundThroughout(c, states) <==> EditsUpToDate(states, actions)
  {
    if EditsUpToDate(states, actions) {
      forall k | 0 <= k < |states| ensures Sound(c, states[k]) {
        UpToDateRunIsSound(c, states, actions, k);
      }
    }
    if SoundThroughout(c, states) {
      forall i | 0 <= i < |actions| && actions[i].WriteUser? && actions[i].k in states[i].begun
        ensures UpToDate(states[i], actions[i].k) {
        assert SplitStepAt(c, states, actions, i);
        SoundWriteWasUpToDate(c, states[i], actions[i].k, states[i + 1]);
      }
    }
  }

  // ---------- what committed between reading and writing ----------

  function EditedSum(a: Account, e: Edit): int {
    if EditedFlags(a, e).Some? then Sum(EditedFlags(a, e).value) else 0
  }

  /** The flag that an edit is about. */
  function Target(a: Account, e: Edit): Flag
    requires EditedFlags(a, e).Some? && !e.FilePending?
  {
    a.flags[FindFlag(a.flags, e.fid).value]
  }

  /** What an edit adds to the sum over the user's flags. */
  function Shift(a: Account, e: Edit): int
    requires EditedFlags(a, e).Some? && !e.FilePending?
  {
    match e
    case DeleteFlag(_, _) => -Effective(Target(a, e))
    case PatchFlag(_, _, w) => if w.None? then 0 else w.value - Effective(Target(a, e))
    case FilePending(_, _, _) => 0
  }

  /** An edit that sets or removes the weight of a flag does not care what that weight was. */
  predicate Overrides(e: Edit, other: Edit)
    requires !e.FilePending? && !other.FilePending?
  {
    e.fid == other.fid && (e.DeleteFlag? || e.weight.Some?)
  }

  /**
   By how much a step moves the sum that edit `e` should write.  Only commits for
   its user do: a new flag by its weight, another edit by its own shift unless `e`
   overrides it, a decay pass by what it takes from the flags that `e` leaves.
   */
  ghost function Moves(c: Settings, s: Split, a: SplitAction, e: Edit): int
    requires !e.FilePending?
  {
    var acct := AccountOf(s.sys.db, e.u);
    match a
    case Atomic(Commit(id)) =>
      if id !in s.sys.open_ then 0
      else
        var t := s.sys.open_[id].txn;
        if !LocksUser(t) || t.u != e.u then 0
        else if t.DecayUser? then EditedSum(ResultAccount(c, t, acct), e) - EditedSum(acct, e)
        else t.flag.weight
    case WriteUser(k) =>
      if k !in s.begun || s.begun[k].edit.FilePending? || s.begun[k].edit.u != e.u
         || EditedFlags(acct, s.begun[k].edit).None? || Overrides(e, s.begun[k].edit) then 0
      else Shift(acct, s.begun[k].edit)
    case _ => 0
  }

  ghost function NetMove(c: Settings, states: seq<Split>, actions: seq<SplitAction>, e: Edit, i: nat, j: nat): int
    requires j <= |actions| < |states| && !e.FilePending?
  {
    if i >= j then 0 else NetMove(c, states, actions, e, i, j - 1) + Moves(c, states[j - 1], actions[j - 1], e)
  }

  /** The edit that reads at step `i` is the one that writes at step `j`. */
  ghost predicate Spans(actions: seq<SplitAction>, i: int, j: int) {
    && 0 <= i < j < |actions| && actions[i].ReadFlags? && !actions[i].e.FilePending?
    && actions[j] == WriteUser(actions[i].k)
    && forall m | i < m < j :: actions[m] != WriteUser(actions[i].k) && actions[m] != GiveUp(actions[i].k)
  }

  /** Between the two steps of every edit the changes to its sum cancel out. */
  ghost predicate NothingMissed(c: Settings, states: seq<Split>, actions: seq<SplitAction>)
    requires |states| == |actions| + 1
  {
    forall i, j | Spans(actions, i, j) :: NetMove(c, states, actions, actions[i].e, i, j) == 0
  }

  /** The flag exists or existed: no transaction will insert it again. */
  ghost predicate Known(s: Split, fid: FlagId) {
    fid in s.sys.used
    && forall id | id in s.sys.open_ && FlagOf(s.sys.open_[id].txn).Some? :: FlagOf(s.sys.open_[id].txn).value != fid
  }

  lemma CommitMoves(c: Settings, s: Split, id: TxId, t: Split, e: Edit)
    requires SplitStep(c, s, Atomic(Commit(id)), t) && Inv(c, s.sys) && !e.FilePending? && Known(s, e.fid)
    requires EditedFlags(AccountOf(t.sys.db, e.u), e).Some?
    ensures EditedFlags(AccountOf(s.sys.db, e.u), e).Some?
    ensures EditedSum(AccountOf(t.sys.db, e.u), e)
         == EditedSum(AccountOf(s.sys.db, e.u), e) + Moves(c, s, Atomic(Commit(id)), e)
  {
    var txn, a := s.sys.open_[id].txn, AccountOf(s.sys.db, e.u);
    CommitIsSerial(c, s.sys, id);
    SerialEffect(c, s.sys.db, txn);
    if LocksUser(txn) && txn.u == e.u {
      assert AccountOf(t.sys.db, e.u) == ResultAccount(c, txn, a);
      FoundBefore(c, txn, a, e);
      if !txn.DecayUser? {
        assert FlagOf(txn) == Some(txn.flag.id);
        EditCommutesWithAppend(c, a, e, txn.flag);
        SumAppend(EditedFlags(a, e).value, txn.flag);
      }
    }
  }

  lemma FoundBefore(c: Settings, t: Txn, a: Account, e: Edit)
    requires !e.FilePending? && EditedFlags(ResultAccount(c, t, a), e).Some?
    requires FlagOf(t).Some? ==> FlagOf(t).value != e.fid
    ensures EditedFlags(a, e).Some?
  {
    var b := ResultAccount(c, t, a);
    var k := FindFlag(b.flags, e.fid).value;
    assert b.flags[k].id == e.fid;
    if k < |a.flags| { assert a.flags[k].id == e.fid; }
  }

  lemma SumOfParts(xs: seq<Flag>, mid: seq<Flag>, i: nat)
    requires i < |xs| && |mid| <= 1
    ensures Sum(xs) == Sum(xs[..i]) + Effective(xs[i]) + Sum(xs[i + 1..])
    ensures Sum(xs[..i] + mid + xs[i + 1..])
         == Sum(xs[..i]) + Sum(xs[i + 1..]) + if mid == [] then 0 else Effective(mid[0])
  {
    assert xs == xs[..i] + [xs[i]] + xs[i + 1..];
    SumConcat(xs[..i] + [xs[i]], xs[i + 1..]);
    SumAppend(xs[..i], xs[i]);
    SumConcat(xs[..i] + mid, xs[i + 1..]);
    if mid == [] { assert xs[..i] + mid == xs[..i]; } else { SumAppend(xs[..i], mid[0]); assert mid == [mid[0]]; }
  }

  lemma SumIsShifted(a: Account, e: Edit)
    requires !e.FilePending? && EditedFlags(a, e).Some?
    ensures EditedSum(a, e) == Sum(a.flags) + Shift(a, e)
  {
    var i := FindFlag(a.flags, e.fid).value;
    if e.PatchFlag? {
      SumOfParts(a.flags, [Patched(a.flags[i], e.weight)], i);
    } else {
      SumOfParts(a.flags, [], i);
      assert a.flags[..i] + [] == a.flags[..i];
    }
  }

  /** After another edit the flag of `e` is the one it was, or that one patched. */
  lemma TargetAfter(a: Account, b: Account, other: Edit, e: Edit)
    requires FlagIdsDistinct(a.flags) && !other.FilePending? && !e.FilePending?
    requires EditedFlags(a, other).Some? && b.flags == EditedFlags(a, other).value && EditedFlags(b, e).Some?
    ensures EditedFlags(a, e).Some?
    ensures Target(b, e) == if e.fid != other.fid then Target(a, e) else Patched(Target(a, e), other.weight)
    ensures e.fid == other.fid ==> other.PatchFlag?
  {
    var i, j := FindFlag(b.flags, e.fid).value, FindFlag(a.flags, other.fid).value;
    var i' := OriginalIndex(a, other, i);
    assert a.flags[i'].id == e.fid;
    assert FindFlag(a.flags, e.fid) == Some(i');
    assert other.DeleteFlag? ==> b.flags[i] == a.flags[i'] && i' != j;
  }

  lemma OtherEditShifts(a: Account, b: Account, other: Edit, e: Edit)
    requires FlagIdsDistinct(a.flags) && !other.FilePending? && !e.FilePending?
    requires EditedFlags(a, other).Some? && b.flags == EditedFlags(a, other).value && EditedFlags(b, e).Some?
    ensures EditedFlags(a, e).Some?
    ensures EditedSum(b, e) == EditedSum(a, e) + if Overrides(e, other) then 0 else Shift(a, other)
  {
    TargetAfter(a, b, other, e);
    SumIsShifted(a, e);
    SumIsShifted(b, e);
    SumIsShifted(a, other);
  }

  lemma WriteMoves(c: Settings, s: Split, k: EditId, t: Split, e: Edit)
    requires SplitStep(c, s, WriteUser(k), t) && Inv(c, s.sys) && !e.FilePending?
    requires EditedFlags(AccountOf(t.sys.db, e.u), e).Some?
    ensures EditedFlags(AccountOf(s.sys.db, e.u), e).Some?
    ensures EditedSum(AccountOf(t.sys.db, e.u), e)
         == EditedSum(AccountOf(s.sys.db, e.u), e) + Moves(c, s, WriteUser(k), e)
  {
    var other := s.begun[k].edit;
    if other.u == e.u {
      assert AccountOk(c, s.sys.db.accounts[e.u]);
      OtherEditShifts(AccountOf(s.sys.db, e.u), AccountOf(t.sys.db, e.u), other, e);
    }
  }

  lemma StepMoves(c: Settings, s: Split, a: SplitAction, t: Split, e: Edit)
    requires SplitStep(c, s, a, t) && Inv(c, s.sys) && !e.FilePending? && Known(s, e.fid)
    requires EditedFlags(AccountOf(t.sys.db, e.u), e).Some?
    ensures EditedFlags(AccountOf(s.sys.db, e.u), e).Some?
    ensures EditedSum(AccountOf(t.sys.db, e.u), e) == EditedSum(AccountOf(s.sys.db, e.u), e) + Moves(c, s, a, e)
  {
    match a
    case Atomic(x) =>
      if x.Commit? { CommitMoves(c, s, x.id, t, e); }
      if x.Admin? { EditFrame(c, s.sys.db, x.edit, e.u); }
    case WriteUser(k) => WriteMoves(c, s, k, t, e);
    case _ =>
  }

  lemma {:induction false} KnownSince(c: Settings, states: seq<Split>, actions: seq<SplitAction>, i: nat, j: nat, fid: FlagId)
    requires SplitRun(c, states, actions) && i <= j < |states| && Known(states[i], fid)
    ensures Known(states[j], fid)
  {
    if i < j {
      KnownSince(c, states, actions, i, j - 1, fid);
      assert SplitStepAt(c, states, actions, j - 1);
    }
  }

  lemma LastStepMoves(c: Settings, states: seq<Split>, actions: seq<SplitAction>, e: Edit, i: nat, j: nat)
    requires PositiveThresholds(c.th) && SplitRun(c, states, actions) && i < j < |states|
    requires UpToDateBefore(states, actions, j) && !e.FilePending? && Known(states[i], e.fid)
    requires EditedFlags(AccountOf(states[j].sys.db, e.u), e).Some?
    ensures EditedFlags(AccountOf(states[j - 1].sys.db, e.u), e).Some?
    ensures EditedSum(AccountOf(states[j].sys.db, e.u), e)
         == EditedSum(AccountOf(states[j - 1].sys.db, e.u), e) + Moves(c, states[j - 1], actions[j - 1], e)
  {
    UpToDateRunIsSound(c, states, actions, j - 1);
    KnownSince(c, states, actions, i, j - 1, e.fid);
    assert SplitStepAt(c, states, actions, j - 1);
    StepMoves(c, states[j - 1], actions[j - 1], states[j], e);
  }

  /** The sum of an edit whose flag is still there is the earlier one and what has moved it since. */
  lemma {:induction false} SumMoves(c: Settings, states: seq<Split>, actions: seq<SplitAction>, e: Edit, i: nat, j: nat)
    requires PositiveThresholds(c.th) && SplitRun(c, states, actions) && i <= j < |states|
    requires UpToDateBefore(states, actions, j) && !e.FilePending? && Known(states[i], e.fid)
    requires EditedFlags(AccountOf(states[j].sys.db, e.u), e).Some?
    ensures EditedFlags(AccountOf(states[i].sys.db, e.u), e).Some?
    ensures EditedSum(AccountOf(states[j].sys.db, e.u), e)
         == EditedSum(AccountOf(states[i].sys.db, e.u), e) + NetMove(c, states, actions, e, i, j)
  {
    if i < j {
      LastStepMoves(c, states, actions, e, i, j);
      SumMoves(c, states, actions, e, i, j - 1);
    }
  }

  lemma ReadIsKnown(c: Settings, s: Split, k: EditId, e: Edit)
    requires SplitEnabled(c, s, ReadFlags(k, e)) && Inv(c, s.sys)
    ensures Known(s, e.fid)
  {
    var flags := s.sys.db.accounts[e.u].flags;
    var i := FindFlag(flags, e.fid).value;
    assert flags[i].id == e.fid;
  }

  /** What an edit read stays as it was until it writes. */
  lemma {:induction false} ReadStays(c: Settings, states: seq<Split>, actions: seq<SplitAction>, i: nat, j: nat, m: nat)
    requires SplitRun(c, states, actions) && Spans(actions, i, j) && i < m <= j
    ensures
      var k, e := actions[i].k, actions[i].e;
      k in states[m].begun && states[m].begun[k] == Read(e, EditedSum(AccountOf(states[i].sys.db, e.u), e))
    ensures SplitEnabled(c, states[i], actions[i])
  {
    assert SplitStepAt(c, states, actions, m - 1);
    if m > i + 1 { ReadStays(c, states, actions, i, j, m - 1); }
  }

  /** Given that all earlier edits were up to date, an edit is so exactly when the changes since it read cancel out. */
  lemma UpToDateExactlyWhen(c: Settings, states: seq<Split>, actions: seq<SplitAction>, i: nat, j: nat)
    requires PositiveThresholds(c.th) && SplitRun(c, states, actions) && Spans(actions, i, j)
    requires UpToDateBefore(states, actions, j)
    ensures actions[j].k in states[j].begun
    ensures UpToDate(states[j], actions[j].k) <==> NetMove(c, states, actions, actions[i].e, i, j) == 0
  {
    var e := actions[i].e;
    ReadStays(c, states, actions, i, j, j);
    assert SplitStepAt(c, states, actions, j);
    UpToDateRunIsSound(c, states, actions, i);
    ReadIsKnown(c, states[i], actions[i].k, e);
    SumMoves(c, states, actions, e, i, j);
  }

  lemma {:induction false} ReadExists(c: Settings, states: seq<Split>, actions: seq<SplitAction>, k: EditId, n: nat)
    returns (i: nat)
    requires SplitRun(c, states, actions) && n <= |actions| && k in states[n].begun
    ensures i < n && actions[i].ReadFlags? && actions[i].k == k && !actions[i].e.FilePending?
    ensures forall m | i < m < n :: actions[m] != WriteUser(k) && actions[m] != GiveUp(k)
  {
    assert SplitStepAt(c, states, actions, n - 1);
    if k in states[n - 1].begun { i := ReadExists(c, states, actions, k, n - 1); } else { i := n - 1; }
  }

  lemma {:induction false} NothingMissedIsUpToDate(c: Settings, states: seq<Split>, actions: seq<SplitAction>, n: nat)
    requires PositiveThresholds(c.th) && SplitRun(c, states, actions) && n <= |actions|
    requires NothingMissed(c, states, actions)
    ensures UpToDateBefore(states, actions, n)
  {
    if n > 0 {
      var j := n - 1;
      NothingMissedIsUpToDate(c, states, actions, j);
      if actions[j].WriteUser? && actions[j].k in states[j].begun {
        var i := ReadExists(c, states, actions, actions[j].k, j);
        assert Spans(actions, i, j);
        UpToDateExactlyWhen(c, states, actions, i, j);
      }
    }
  }

  /**
   In every run: the aggregate stays sound throughout if and only if, for every
   edit, what committed for its user between its reading of the flags and its
   writing of the row leaves its sum unchanged on balance.
   */
  lemma SoundExactlyWhenNothingMissed(c: Settings, states: seq<Split>, actions: seq<SplitAction>)
    requires PositiveThresholds(c.th) && SplitRun(c, states, actions)
    ensures SoundThroughout(c, states) <==> NothingMissed(c, states, actions)
  {
    SoundExactlyWhenUpToDate(c, states, actions);
    if EditsUpToDate(states, actions) {
      forall i, j | Spans(actions, i, j) ensures NetMove(c, states, actions, actions[i].e, i, j) == 0 {
        UpToDateExactlyWhen(c, states, actions, i, j);
      }
    }
    if NothingMissed(c, states, actions) { NothingMissedIsUpToDate(c, states, actions, |actions|); }
  }

  // ---------- the interleaving happens ----------

  lemma ExtendSplit(c: Settings, states: seq<Split>, actions: seq<SplitAction>, a: SplitAction)
    returns (states': seq<Split>, actions': seq<SplitAction>, s: Split)
    requires SplitRun(c, states, actions) && SplitEnabled(c, states[|actions|], a)
    requires a.ReadFlags? ==> ValidEdit(a.e)
    requires a.Atomic? && a.a.Admin? ==> ValidEdit(a.a.edit)
    ensures s == SplitApply(c, states[|actions|], a) && states' == states + [s] && actions' == actions + [a]
    ensures SplitRun(c, states', actions')
  {
    s := SplitApply(c, states[|actions|], a);
    states', actions' := states + [s], actions + [a];
    forall i | 0 <= i < |actions'| ensures SplitStepAt(c, states', actions', i) {
      if i < |actions| { assert SplitStepAt(c, states, actions, i); }
    }
  }

  /** Steps of transactions at the end of a run. */
  lemma Follow(c: Settings, states: seq<Split>, actions: seq<SplitAction>, path: seq<Sys>, steps: seq<Action>)
    returns (states': seq<Split>, actions': seq<SplitAction>, s: Split)
    requires SplitRun(c, states, actions) && ReputationPaths.Path(c, path, steps) && path[0] == states[|actions|].sys
    requires forall i | 0 <= i < |steps| :: !steps[i].Admin?
    ensures SplitRun(c, states', actions') && s == states'[|actions'|]
    ensures s == states[|actions|].(sys := path[|steps|])
  {
    var n, begun := |actions|, states[|actions|].begun;
    states' := states + seq(|steps|, i requires 0 <= i < |steps| => Split(path[i + 1], begun));
    actions' := actions + seq(|steps|, i requires 0 <= i < |steps| => Atomic(steps[i]));
    s := states'[|actions'|];
    forall i | 0 <= i < |actions'| ensures SplitStepAt(c, states', actions', i) {
      if i < n { assert SplitStepAt(c, states, actions, i); } else {
        assert StepAt(c, path, steps, i - n);
        assert states'[i] == Split(path[i - n], begun) && states'[i + 1] == Split(path[i - n + 1], begun);
      }
    }
  }

  /** From a state with nothing open a flag is created without anybody else acting. */
  lemma FlagIsCreated(c: Settings, states: seq<Split>, actions: seq<SplitAction>, u: UserId, f: Flag)
    returns (states': seq<Split>, actions': seq<SplitAction>, s: Split)
    requires SplitRun(c, states, actions) && states[|actions|].sys.open_ == map[]
    requires f.weight >= 0 && f.effective == Some(f.weight) && f.id !in states[|actions|].sys.used
    requires Keys(states[|actions|].sys.db.events) !! {UserFlagged(f.id), UpdatedByFlag(u, f.id)}
    ensures SplitRun(c, states', actions') && s == states'[|actions'|]
    ensures
      var before := states[|actions|];
      && s.begun == before.begun && s.sys.open_ == map[] && s.sys.used == before.sys.used + {f.id}
      && s.sys.db.accounts == before.sys.db.accounts[u := WithFlag(c, AccountOf(before.sys.db, u), f)]
      && Keys(s.sys.db.events) == Keys(before.sys.db.events) + {UserFlagged(f.id), UpdatedByFlag(u, f.id)}
  {
    var path, steps := ReputationPaths.FlagIsCreated(c, states[|actions|].sys, u, f);
    states', actions', s := Follow(c, states, actions, path, steps);
  }

  /** A user has one flag, and an admin who is deleting it has read that none is left. */
  lemma DeletionHasRead(c: Settings, u: UserId, first: Flag)
    returns (states: seq<Split>, actions: seq<SplitAction>, s: Split)
    requires first.weight >= 0 && first.effective == Some(first.weight)
    ensures SplitRun(c, states, actions) && s == states[|actions|]
    ensures s.begun == map[0 := Read(DeleteFlag(u, first.id), 0)] && s.sys.open_ == map[] && s.sys.used == {first.id}
    ensures s.sys.db.accounts == map[u := WithFlag(c, FRESH, first)]
    ensures Keys(s.sys.db.events) == {UserFlagged(first.id), UpdatedByFlag(u, first.id)}
  {
    s := Split(Sys(Db(map[], map[], []), map[], {}), map[]);
    OnlyFlagDeleted(c, WithFlag(c, FRESH, first), u, first);
    states, actions, s := FlagIsCreated(c, [s], [], u, first);
    states, actions, s := ExtendSplit(c, states, actions, ReadFlags(0, DeleteFlag(u, first.id)));
  }

  lemma OnlySecondIsLeft(c: Settings, u: UserId, first: Flag, second: Flag)
    requires first.id != second.id && NewFlag(second, [first])
    ensures EditedFlags(WithFlag(c, WithFlag(c, FRESH, first), second), DeleteFlag(u, first.id)) == Some([second])
  {
    var a := WithFlag(c, FRESH, first);
    OnlyFlagDeleted(c, a, u, first);
    assert a.flags == [first];
    EditCommutesWithAppend(c, a, DeleteFlag(u, first.id), second);
    assert [] + [second] == [second];
  }

  /** A deletion that has read no other flag is written although a second flag is there. */
  lemma StaleDeletionIsWritten(c: Settings, s: Split, u: UserId, first: Flag, second: Flag)
    requires s.sys.open_ == map[] && s.begun == map[0 := Read(DeleteFlag(u, first.id), 0)]
    requires first.id != second.id && NewFlag(second, [first]) && second.weight > 0
    requires s.sys.db.accounts == map[u := WithFlag(c, WithFlag(c, FRESH, first), second)]
    requires FlagRemoved(first.id) !in Keys(s.sys.db.events) && UpdatedByDelete(u, first.id) !in Keys(s.sys.db.events)
    ensures SplitEnabled(c, s, WriteUser(0))
    ensures
      var db := SplitApply(c, s, WriteUser(0)).sys.db;
      u in db.accounts && db.accounts[u].flags == [second] && db.accounts[u].score == 0 && !AccountOk(c, db.accounts[u])
  {
    var a := WithFlag(c, WithFlag(c, FRESH, first), second);
    OnlySecondIsLeft(c, u, first, second);
    assert AccountOf(s.sys.db, u) == a;
    EditKeysAre(DeleteFlag(u, first.id), WrittenRow(c, a, [second], 0));
    SumAppend([], second);
    assert [] + [second] == [second];
  }

  /** The second flag is created after the deletion has read. */
  lemma SecondFlagFollows(c: Settings, u: UserId, first: Flag, second: Flag)
    returns (states: seq<Split>, actions: seq<SplitAction>)
    requires first.id != second.id && first.weight >= 0 && second.weight > 0
    requires first.effective == Some(first.weight) && second.effective == Some(second.weight)
    ensures SplitRun(c, states, actions)
    ensures
      var s := states[|actions|];
      && s.sys.open_ == map[] && s.begun == map[0 := Read(DeleteFlag(u, first.id), 0)]
      && s.sys.db.accounts == map[u := WithFlag(c, WithFlag(c, FRESH, first), second)]
      && FlagRemoved(first.id) !in Keys(s.sys.db.events) && UpdatedByDelete(u, first.id) !in Keys(s.sys.db.events)
  {
    var s;
    states, actions, s := DeletionHasRead(c, u, first);
    states, actions, s := FlagIsCreated(c, states, actions, u, second);
  }

  /** A second flag is created between the two steps: the user ends up with that flag and no points. */
  lemma UnlockedRecomputeLosesFlag(c: Settings, u: UserId, first: Flag, second: Flag)
    returns (states: seq<Split>, actions: seq<SplitAction>)
    requires first.id != second.id && first.weight >= 0 && second.weight > 0
    requires first.effective == Some(first.weight) && second.effective == Some(second.weight)
    ensures SplitRun(c, states, actions)
    ensures
      var db := states[|actions|].sys.db;
      u in db.accounts && db.accounts[u].flags == [second] && db.accounts[u].score == 0 && !AccountOk(c, db.accounts[u])
  {
    states, actions := SecondFlagFollows(c, u, first, second);
    StaleDeletionIsWritten(c, states[|actions|], u, first, second);
    var s;
    states, actions, s := ExtendSplit(c, states, actions, WriteUser(0));
  }

  lemma OnlyFlagDeleted(c: Settings, a: Account, u: UserId, f: Flag)
    requires a == WithFlag(c, FRESH, f)
    ensures EditedFlags(a, DeleteFlag(u, f.id)) == Some([])
  {
    assert a.flags == [f] && FindFlag(a.flags, f.id) == Some(0);
    assert a.flags[..0] + a.flags[1..] == [];
  }
}
