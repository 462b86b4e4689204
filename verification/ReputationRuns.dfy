/**
 What holds of every run of the reputation transactions, however their
 statements interleave.
 */
module ReputationRuns {
  import opened Options
  import opened FlagPolicy
  import opened Powers
  import opened Decay
  import opened Reputation
  import opened ReputationFacts
  import opened ReputationTx

  // ---------- every run commits a serial history ----------

  datatype Op = Whole(txn: Txn) | ByAdmin(edit: Edit)

  function ApplyOp(c: Settings, db: Db, op: Op): Option<Db> {
    match op
    case Whole(t) => Serial(c, db, t)
    case ByAdmin(e) => ApplyEdit(c, db, e)
  }

  /** `dbs` are the states of the database while `ops` run one after the other, none of them rolled back. */
  ghost predicate SerialHistory(c: Settings, ops: seq<Op>, dbs: seq<Db>) {
    && |dbs| == |ops| + 1 && dbs[0] == Db(map[], map[], [])
    && forall i {:trigger ops[i]} | 0 <= i < |ops| :: ApplyOp(c, dbs[i], ops[i]) == Some(dbs[i + 1])
  }

  /** The operations of a run in the order in which they committed. */
  function Committed(states: seq<Sys>, actions: seq<Action>, k: nat): seq<Op>
    requires k <= |actions| < |states|
  {
    if k == 0 then [] else Committed(states, actions, k - 1) + OpsOf(states[k - 1], actions[k - 1])
  }

  /** What one step adds to the committed operations. */
  function OpsOf(s: Sys, a: Action): seq<Op> {
    match a
    case Commit(id) => if id in s.open_ then [Whole(s.open_[id].txn)] else []
    case Admin(e) => [ByAdmin(e)]
    case _ => []
  }

  /** And that it has the effect of that operation, carried out whole. */
  lemma StepHasEffect(c: Settings, s: Sys, a: Action, t: Sys)
    requires PositiveThresholds(c.th) && Inv(c, s) && Step(c, s, a, t)
    ensures OpsOf(s, a) == [] ==> t.db == s.db
    ensures OpsOf(s, a) != [] ==> |OpsOf(s, a)| == 1 && ApplyOp(c, s.db, OpsOf(s, a)[0]) == Some(t.db)
  {
    if a.Commit? { CommitIsSerial(c, s, a.id); }
  }

  lemma NextHasEffect(c: Settings, states: seq<Sys>, actions: seq<Action>, k: nat)
    requires PositiveThresholds(c.th) && Run(c, states, actions) && k < |actions|
    ensures
      var more := OpsOf(states[k], actions[k]);
      if more == [] then states[k + 1].db == states[k].db
      else |more| == 1 && ApplyOp(c, states[k].db, more[0]) == Some(states[k + 1].db)
  {
    RunKeepsInv(c, states, actions, k);
    assert StepAt(c, states, actions, k);
    StepHasEffect(c, states[k], actions[k], states[k + 1]);
  }

  /**
   However statements interleave, roll back or wait, the committed database is
   the one that the committed transactions produce one after the other.
   */
  lemma {:induction false} InterleavingsAreSerial(c: Settings, states: seq<Sys>, actions: seq<Action>, k: nat)
    returns (dbs: seq<Db>)
    requires PositiveThresholds(c.th) && Run(c, states, actions) && k < |states|
    ensures SerialHistory(c, Committed(states, actions, k), dbs) && dbs[|dbs| - 1] == states[k].db
  {
    if k == 0 {
      dbs := [states[0].db];
    } else {
      dbs := InterleavingsAreSerial(c, states, actions, k - 1);
      NextHasEffect(c, states, actions, k - 1);
      var ops, more := Committed(states, actions, k - 1), OpsOf(states[k - 1], actions[k - 1]);
      if more == [] {
        assert ops + more == ops;
      } else {
        assert more == [more[0]];
        dbs := dbs + [states[k].db];
      }
    }
  }

  // ---------- the aggregate and its history ----------

  /** At every moment of every run, the consistency check has nothing to report about any user. */
  lemma AggregateAlwaysSound(c: Settings, states: seq<Sys>, actions: seq<Action>, k: nat, u: UserId)
    requires PositiveThresholds(c.th) && Run(c, states, actions) && k < |states| && u in states[k].db.accounts
    ensures
      var a := states[k].db.accounts[u];
      a.score == Sum(a.flags) && a.level == LevelFromScore(c.th, a.score) && a.score >= 0
  {
    RunKeepsInv(c, states, actions, k);
    SumNonNegative(states[k].db.accounts[u].flags);
  }

  /** The committed `user.updated` events of a user are numbered 1 to its version, without gap or repeat. */
  lemma HistoryIsGapless(c: Settings, states: seq<Sys>, actions: seq<Action>, k: nat, u: UserId)
    requires PositiveThresholds(c.th) && Run(c, states, actions) && k < |states|
    ensures Numbered(Updates(states[k].db.events, u), u, AccountOf(states[k].db, u))
  {
    RunKeepsInv(c, states, actions, k);
  }

  /** A consumer that keeps the payload with the highest version it has seen. */
  function Latest(delivered: seq<Body>, u: UserId): Body {
    if delivered == [] then UserUpdated(u, Clean, 0, 0)
    else
      var before := Latest(delivered[..|delivered| - 1], u);
      var b := delivered[|delivered| - 1];
      if b.UserUpdated? && before.UserUpdated? && b.version > before.version then b else before
  }

  lemma {:induction false} LatestIsMaximal(delivered: seq<Body>, u: UserId)
    requires forall b | b in delivered :: b.UserUpdated?
    ensures Latest(delivered, u).UserUpdated?
    ensures Latest(delivered, u) in delivered || Latest(delivered, u) == UserUpdated(u, Clean, 0, 0)
    ensures forall b | b in delivered :: b.version <= Latest(delivered, u).version
  {
    if delivered != [] {
      var n := |delivered| - 1;
      LatestIsMaximal(delivered[..n], u);
      assert delivered == delivered[..n] + [delivered[n]];
    }
  }

  /**
   Delivered in any order, and any number of times each, a user's events
   rebuild its current level, score and version.
   */
  lemma AnyDeliveryOrderRebuilds(us: seq<Body>, u: UserId, a: Account, delivered: seq<Body>)
    requires Numbered(us, u, a)
    requires forall b :: b in us <==> b in delivered
    ensures Latest(delivered, u) == UserUpdated(u, a.level, a.score, a.version)
  {
    LatestIsMaximal(delivered, u);
    var last := Latest(delivered, u);
    if us == [] {
      if delivered != [] { assert delivered[0] in us; }
    } else {
      assert us[|us| - 1] in us;
      assert last.version >= a.version >= 1;
      var i :| 0 <= i < |us| && us[i] == last;
      assert i == |us| - 1;
    }
  }

  // ---------- approval ----------

  lemma {:induction false} KeysStay(c: Settings, states: seq<Sys>, actions: seq<Action>, i: nat, j: nat, key: Key)
    requires Run(c, states, actions) && i <= j < |states| && key in Keys(states[i].db.events)
    ensures key in Keys(states[j].db.events)
  {
    if i < j {
      KeysStay(c, states, actions, i, j - 1, key);
      var s, a := states[j - 1], actions[j - 1];
      assert StepAt(c, states, actions, j - 1);
      var more := states[j].db.events[|s.db.events|..];
      assert states[j].db.events == s.db.events + more;
      ConcatKeys(s.db.events, more);
    }
  }

  ghost predicate Approves(c: Settings, states: seq<Sys>, actions: seq<Action>, i: nat, rid: ReportId)
    requires Run(c, states, actions) && i < |actions|
  {
    actions[i].Commit? && actions[i].id in states[i].open_ && states[i].open_[actions[i].id].txn.Approve?
    && states[i].open_[actions[i].id].txn.rid == rid
  }

  /** The one effect of a committed approval: one flag, its weight, one version, an accepted report. */
  lemma ApprovalEffect(c: Settings, states: seq<Sys>, actions: seq<Action>, i: nat, rid: ReportId)
    requires PositiveThresholds(c.th) && Run(c, states, actions) && i < |actions|
    requires Approves(c, states, actions, i, rid)
    ensures
      var t := states[i].open_[actions[i].id].txn;
      var db, db' := states[i].db, states[i + 1].db;
      && t.u in db'.accounts && db'.accounts[t.u] == WithFlag(c, AccountOf(db, t.u), t.flag)
      && rid in db'.reports && db'.reports[rid] == Report(Accepted, Some(t.flag.id))
      && ReportApproved(rid) !in Keys(db.events) && ReportApproved(rid) in Keys(db'.events)
  {
    var s, id := states[i], actions[i].id;
    var t := s.open_[id].txn;
    assert StepAt(c, states, actions, i);
    RunKeepsInv(c, states, actions, i);
    CommitIsSerial(c, s, id);
    SerialEffect(c, s.db, t);
    var es := ResultEvents(c, t, StartOf(s.db, t));
    assert es[0] in es && es[0].key == ReportApproved(rid);
    ConcatKeys(s.db.events, es);
  }

  /** However many approvals of a report pass the pending check, at most one ever commits. */
  lemma ApprovalCommitsOnce(c: Settings, states: seq<Sys>, actions: seq<Action>, i: nat, j: nat, rid: ReportId)
    requires PositiveThresholds(c.th) && Run(c, states, actions) && i <= j < |actions|
    requires Approves(c, states, actions, i, rid) && Approves(c, states, actions, j, rid)
    ensures i == j
  {
    ApprovalEffect(c, states, actions, i, rid);
    ApprovalEffect(c, states, actions, j, rid);
    if i < j { KeysStay(c, states, actions, i + 1, j, ReportApproved(rid)); }
  }

  /** A flag can be patched once: its event key has no part for the edit, so the second patch rolls back. */
  lemma SecondPatchRollsBack(c: Settings, states: seq<Sys>, actions: seq<Action>, i: nat, j: nat,
                             u: UserId, fid: FlagId, w: Option<int>, w': Option<int>)
    requires Run(c, states, actions) && i < j < |states|
    requires actions[i] == Admin(PatchFlag(u, fid, w))
    ensures ApplyEdit(c, states[j].db, PatchFlag(u, fid, w')).None?
  {
    assert StepAt(c, states, actions, i);
    EditFrame(c, states[i].db, PatchFlag(u, fid, w), u);
    KeysStay(c, states, actions, i + 1, j, UpdatedByPatch(u, fid));
    var e := PatchFlag(u, fid, w');
    if u in states[j].db.accounts && EditedFlags(states[j].db.accounts[u], e).Some? {
      var after := Recomputed(c, states[j].db.accounts[u], EditedFlags(states[j].db.accounts[u], e).value);
      EditKeysAre(e, after);
      assert UpdatedByPatch(u, fid) in Keys(EditEvents(e, after)) * Keys(states[j].db.events);
    }
  }

  /** What a committed transaction makes of its user. */
  lemma CommittedAccount(c: Settings, s: Sys, id: TxId)
    requires Inv(c, s) && Enabled(c, s, Commit(id)) && LocksUser(s.open_[id].txn)
    ensures
      var txn, t := s.open_[id].txn, Apply(c, s, Commit(id));
      txn.u in t.db.accounts && t.db.accounts[txn.u] == ResultAccount(c, txn, AccountOf(s.db, txn.u))
  {
    CommitIsSerial(c, s, id);
    SerialEffect(c, s.db, s.open_[id].txn);
  }

  lemma ScoreNonNegative(c: Settings, s: Sys, u: UserId)
    requires Inv(c, s)
    ensures AccountOf(s.db, u).score >= 0
  {
    if u in s.db.accounts { SumNonNegative(s.db.accounts[u].flags); }
  }

  /** A trusted flag or an approval at a severity leaves the user at that level or above. */
  lemma FlagReachesSeverity(c: Settings, states: seq<Sys>, actions: seq<Action>, i: nat, severity: Level)
    requires PositiveThresholds(c.th) && Run(c, states, actions) && i < |actions| && severity != Clean
    requires actions[i].Commit? && actions[i].id in states[i].open_
    requires
      var t := states[i].open_[actions[i].id].txn;
      (t.CreateFlag? || t.Approve?) && t.flag.weight == TierWeight(DefaultTiers(c.th), severity)
    ensures
      var u := states[i].open_[actions[i].id].txn.u;
      u in states[i + 1].db.accounts && Rank(states[i + 1].db.accounts[u].level) >= Rank(severity)
    ensures
      var u := states[i].open_[actions[i].id].txn.u;
      Increasing(c.th) && AccountOf(states[i].db, u).score == 0 ==> states[i + 1].db.accounts[u].level == severity
  {
    var s, id := states[i], actions[i].id;
    var t := s.open_[id].txn;
    assert StepAt(c, states, actions, i);
    RunKeepsInv(c, states, actions, i);
    CommittedAccount(c, s, id);
    ScoreNonNegative(c, s, t.u);
  }

  // ---------- decay over whole runs ----------

  ghost predicate DecaysAt(c: Settings, states: seq<Sys>, actions: seq<Action>, i: nat, now: int)
    requires Run(c, states, actions) && i < |actions|
  {
    actions[i].Commit? && actions[i].id in states[i].open_ && states[i].open_[actions[i].id].txn.DecayUser?
    && states[i].open_[actions[i].id].txn.now == now
  }

  ghost function DecayedUser(c: Settings, states: seq<Sys>, actions: seq<Action>, i: nat, now: int): UserId
    requires Run(c, states, actions) && i < |actions| && DecaysAt(c, states, actions, i, now)
  {
    states[i].open_[actions[i].id].txn.u
  }

  /** Job times never run backwards in commit order. */
  ghost predicate ClockedRun(c: Settings, states: seq<Sys>, actions: seq<Action>) {
    && ValidSettings(c) && PositiveThresholds(c.th)
    && Run(c, states, actions)
    && (forall i, j, t0, t1 | 0 <= i < j < |actions|
                              && DecaysAt(c, states, actions, i, t0) && DecaysAt(c, states, actions, j, t1) ::
          t0 <= t1)
  }

  ghost predicate AllAged(c: Settings, a: Account, since: int) {
    forall k | 0 <= k < |a.flags| :: Aged(c, a.flags[k], since)
  }

  lemma ResultAged(c: Settings, t: Txn, a: Account, since: int)
    requires AllAged(c, a, since) && ValidFor(t, a)
    requires t.DecayUser? ==> t.now <= since
    ensures AllAged(c, ResultAccount(c, t, a), since)
  {
    var b := ResultAccount(c, t, a);
    forall k | 0 <= k < |b.flags| ensures Aged(c, b.flags[k], since) {
      if k < |a.flags| {
        assert Aged(c, a.flags[k], since);
        if t.DecayUser? && !DecaySkips(c, a, t.now) { PassAges(c, a.flags[k], t.now); }
      }
    }
  }

  lemma EditAged(c: Settings, a: Account, e: Edit, since: int)
    requires AllAged(c, a, since) && ValidEdit(e) && EditedFlags(a, e).Some?
    ensures AllAged(c, Recomputed(c, a, EditedFlags(a, e).value), since)
  {
    var flags := EditedFlags(a, e).value;
    forall k | 0 <= k < |flags| ensures Aged(c, flags[k], since) {
      if !(e.PatchFlag? && k == FindFlag(a.flags, e.fid).value && e.weight.Some?) {
        var k' := OriginalIndex(a, e, k);
        assert Aged(c, a.flags[k'], since);
      }
    }
  }

  lemma StepAged(c: Settings, s: Sys, a: Action, t: Sys, since: int, u: UserId)
    requires Inv(c, s) && Step(c, s, a, t) && AllAged(c, AccountOf(s.db, u), since)
    requires a.Commit? && s.open_[a.id].txn.DecayUser? ==> s.open_[a.id].txn.now <= since
    ensures AllAged(c, AccountOf(t.db, u), since)
  {
    if a.Commit? {
      var txn := s.open_[a.id].txn;
      CommitIsSerial(c, s, a.id);
      SerialEffect(c, s.db, txn);
      if LocksUser(txn) && txn.u == u { ResultAged(c, txn, AccountOf(s.db, u), since); }
    } else if a.Admin? {
      AdminAged(c, s, a.edit, since, u);
    }
  }

  lemma AdminAged(c: Settings, s: Sys, e: Edit, since: int, u: UserId)
    requires Enabled(c, s, Admin(e)) && ValidEdit(e) && AllAged(c, AccountOf(s.db, u), since)
    ensures AllAged(c, AccountOf(Apply(c, s, Admin(e)).db, u), since)
  {
    EditFrame(c, s.db, e, u);
    if !e.FilePending? && e.u == u { EditAged(c, AccountOf(s.db, u), e, since); }
  }

  /** In every run a flag has its full weight or that of some earlier pass. */
  lemma {:induction false} RunAged(c: Settings, states: seq<Sys>, actions: seq<Action>, k: nat, since: int, u: UserId)
    requires ClockedRun(c, states, actions) && k < |states|
    requires forall i, now | 0 <= i < k && DecaysAt(c, states, actions, i, now) :: now <= since
    ensures AllAged(c, AccountOf(states[k].db, u), since)
  {
    if k > 0 {
      var s, a := states[k - 1], actions[k - 1];
      RunAged(c, states, actions, k - 1, since, u);
      RunKeepsInv(c, states, actions, k - 1);
      assert StepAt(c, states, actions, k - 1);
      if a.Commit? && s.open_[a.id].txn.DecayUser? {
        assert DecaysAt(c, states, actions, k - 1, s.open_[a.id].txn.now);
      }
      StepAged(c, s, a, states[k], since, u);
    }
  }

  /** No flag, no score and no level is raised, and overrides stay at their weight. */
  ghost predicate NothingRaised(a: Account, b: Account) {
    && b.score <= a.score && Rank(b.level) <= Rank(a.level) && |b.flags| == |a.flags|
    && forall k | 0 <= k < |a.flags| ::
         && Effective(b.flags[k]) <= Effective(a.flags[k])
         && (a.flags[k].source == AdminOverride ==> Effective(b.flags[k]) == a.flags[k].weight)
  }

  /** Some flag still has its full weight and is dated ahead of the pass. */
  ghost predicate SomeFullFlagAhead(c: Settings, a: Account, now: int) {
    exists k | 0 <= k < |a.flags| :: Effective(a.flags[k]) == a.flags[k].weight && DatedAhead(c, a.flags[k], now)
  }

  lemma PassRaisesFlag(c: Settings, u: UserId, a: Account, now: int, k: nat)
    requires ValidSettings(c) && AllAged(c, a, now) && k < |a.flags|
    ensures
      var b := ResultAccount(c, DecayUser(u, now), a);
      && |b.flags| == |a.flags|
      && (Effective(b.flags[k]) > Effective(a.flags[k])
          <==> Effective(a.flags[k]) == a.flags[k].weight && DatedAhead(c, a.flags[k], now))
      && (a.flags[k].source == AdminOverride ==> Effective(b.flags[k]) == a.flags[k].weight)
  {
    assert Aged(c, a.flags[k], now);
    RaisedExactlyWhen(c, a.flags[k], now);
  }

  /** A pass over a sound user raises something if and only if such a flag exists. */
  lemma PassRaisesExactlyWhen(c: Settings, u: UserId, a: Account, now: int)
    requires ValidSettings(c) && AllAged(c, a, now)
    requires a.score == Sum(a.flags) && a.level == LevelFromScore(c.th, a.score)
    ensures NothingRaised(a, ResultAccount(c, DecayUser(u, now), a)) <==> !SomeFullFlagAhead(c, a, now)
  {
    forall k | 0 <= k < |a.flags|
      ensures
        var b := ResultAccount(c, DecayUser(u, now), a);
        && |b.flags| == |a.flags|
        && (Effective(b.flags[k]) > Effective(a.flags[k])
            <==> Effective(a.flags[k]) == a.flags[k].weight && DatedAhead(c, a.flags[k], now))
        && (a.flags[k].source == AdminOverride ==> Effective(b.flags[k]) == a.flags[k].weight)
    {
      PassRaisesFlag(c, u, a, now, k);
    }
    if !SomeFullFlagAhead(c, a, now) {
      forall k | 0 <= k < |a.flags| ensures EffectiveWeightForFlag(c, a.flags[k], now) <= Effective(a.flags[k]) {
        assert Aged(c, a.flags[k], now);
        RaisedExactlyWhen(c, a.flags[k], now);
      }
      PassNeverRaisesSum(c, a.flags, now);
      LevelMonotone(c.th, Sum(DecayAll(c, a.flags, now)), a.score);
    }
  }

  lemma UserRowSound(c: Settings, db: Db, u: UserId)
    requires PositiveThresholds(c.th) && DbOk(c, db)
    ensures AccountOf(db, u).score == Sum(AccountOf(db, u).flags)
    ensures AccountOf(db, u).level == LevelFromScore(c.th, AccountOf(db, u).score)
  {
  }

  /**
   In every run, flags committed between the reading of the job's clock and the
   user's turn included: a decay pass raises a flag, a score or a level exactly
   when some flag of the user still has its full weight and is dated ahead.
   */
  lemma DecayRaisesExactlyWhen(c: Settings, states: seq<Sys>, actions: seq<Action>, i: nat, now: int)
    requires ClockedRun(c, states, actions) && i < |actions| && DecaysAt(c, states, actions, i, now)
    ensures
      var u := DecayedUser(c, states, actions, i, now);
      var a, b := AccountOf(states[i].db, u), AccountOf(states[i + 1].db, u);
      && (NothingRaised(a, b) <==> !SomeFullFlagAhead(c, a, now))
      && |b.flags| == |a.flags|
      && forall k | 0 <= k < |a.flags| ::
           (Effective(b.flags[k]) > Effective(a.flags[k])
            <==> Effective(a.flags[k]) == a.flags[k].weight && DatedAhead(c, a.flags[k], now))
  {
    var s, id := states[i], actions[i].id;
    var u := s.open_[id].txn.u;
    var a := AccountOf(s.db, u);
    assert StepAt(c, states, actions, i);
    RunKeepsInv(c, states, actions, i);
    CommittedAccount(c, s, id);
    RunAged(c, states, actions, i, now, u);
    UserRowSound(c, s.db, u);
    PassRaisesExactlyWhen(c, u, a, now);
    forall k | 0 <= k < |a.flags|
      ensures
        var b := ResultAccount(c, DecayUser(u, now), a);
        && |b.flags| == |a.flags|
        && (Effective(b.flags[k]) > Effective(a.flags[k])
            <==> Effective(a.flags[k]) == a.flags[k].weight && DatedAhead(c, a.flags[k], now))
    {
      PassRaisesFlag(c, u, a, now, k);
    }
  }

  /** A pass repeated at the same instant changes nothing and raises no version. */
  lemma RepeatedDecayIsIdle(c: Settings, u: UserId, a: Account, now: int)
    ensures
      var once := ResultAccount(c, DecayUser(u, now), a);
      ResultAccount(c, DecayUser(u, now), once) == once && ResultEvents(c, DecayUser(u, now), once) == []
  {
    RepeatedPassChangesNothing(c, a.flags, now);
  }

  /** After enough half-lives a pass brings a sound user down to exactly its override flags. */
  lemma DecayLeavesOverrides(c: Settings, u: UserId, a: Account, halfLife: nat, k: nat, now: int)
    requires AccountOk(c, a) && ExactHalving(c.pow) && (forall s :: c.mult(s) == 1.0)
    requires halfLife >= 1 && c.halfLifeDays == halfLife as real
    requires forall i | 0 <= i < |a.flags| && a.flags[i].source != AdminOverride ::
               a.flags[i].weight < Pow2(k) && a.flags[i].createdAt + (k * halfLife) * 86400000 <= now
    ensures ResultAccount(c, DecayUser(u, now), a).score == OverrideSum(a.flags)
  {
    OnlyOverridesRemain(c, a.flags, halfLife, k, now);
  }
}
