/**
 Reputation transactions under concurrency.  Each statement of a transaction is
 a step of its own; a transaction sees the committed database with its own
 writes on top, holds the user's row lock from its first statement to its end,
 and waits for report rows and unique keys that another open transaction has
 written.  A key that is already committed makes it roll back.
 */
module ReputationTx {
  import opened Options
  import opened FlagPolicy
  import opened Decay
  import opened Reputation
  import opened ReputationFacts

  type TxId = nat

  /** `Waiting` has still to obtain the row lock; `done` counts executed statements. */
  datatype Tx = Waiting(txn: Txn) | Running(txn: Txn, done: nat, work: Work)

  /** `used` holds every flag id ever generated. */
  datatype Sys = Sys(db: Db, open_: map<TxId, Tx>, used: set<FlagId>)

  datatype Action =
    | Begin(id: TxId, txn: Txn)
    | Lock(id: TxId)
    | Execute(id: TxId)
    | Commit(id: TxId)
    | Abort(id: TxId)
    | Admin(edit: Edit)

  ghost predicate Initial(s: Sys) {
    s == Sys(Db(map[], map[], []), map[], {})
  }

  predicate Holds(tx: Tx, u: UserId) {
    tx.Running? && LocksUser(tx.txn) && tx.txn.u == u
  }

  predicate LockFree(s: Sys, u: UserId) {
    forall id | id in s.open_ :: !Holds(s.open_[id], u)
  }

  function FlagOf(t: Txn): Option<FlagId> {
    if t.CreateFlag? || t.InstantReport? || t.Approve? then Some(t.flag.id) else None
  }

  /** What the services check before they open the transaction. */
  predicate Precheck(db: Db, t: Txn) {
    match t
    case CreateFlag(_, f) => f.weight >= 0 && f.effective == Some(f.weight)
    case InstantReport(_, rid, f) => f.weight >= 0 && f.effective == Some(f.weight) && rid !in db.reports
    case Approve(_, rid, f, _) =>
      && f.weight >= 0 && f.effective == Some(f.weight)
      && rid in db.reports && db.reports[rid].status == Pending && db.reports[rid].flagId.None?
    case DecayUser(u, _) => u in db.accounts
    case Reject(_, rid, _) => rid in db.reports && db.reports[rid].status == Pending
  }

  /** The report row that a statement writes. */
  function ReportOf(s: Stmt): Option<ReportId> {
    match s
    case InsertReport(rid) => Some(rid)
    case LinkReport(rid, _) => Some(rid)
    case AcceptReport(rid, _) => Some(rid)
    case RejectReport(rid) => Some(rid)
    case _ => None
  }

  /** The unique key that a statement inserts. */
  function KeyOf(s: Stmt, wk: Work): Option<Key> {
    match s
    case Enqueue(key) => Some(key)
    case EnqueueUpdated(key) => Some(key)
    case EnqueueDecay(now) => if wk.skip then None else Some(UpdatedByDecay(wk.u, now))
    case _ => None
  }

  predicate RowsFree(s: Sys, id: TxId, st: Stmt, wk: Work) {
    forall other | other in s.open_ && other != id && s.open_[other].Running? ::
      && (ReportOf(st).Some? ==> ReportOf(st).value !in s.open_[other].work.reports)
      && (KeyOf(st, wk).Some? ==> KeyOf(st, wk).value !in Keys(s.open_[other].work.events))
  }

  predicate Enabled(c: Settings, s: Sys, a: Action) {
    match a
    case Begin(id, t) =>
      id !in s.open_ && Precheck(s.db, t) && (FlagOf(t).Some? ==> FlagOf(t).value !in s.used)
    case Lock(id) =>
      id in s.open_ && s.open_[id].Waiting? && LockFree(s, s.open_[id].txn.u)
    case Execute(id) =>
      && id in s.open_ && s.open_[id].Running?
      && var tx := s.open_[id];
      && tx.done < |Program(tx.txn)| && RowsFree(s, id, Program(tx.txn)[tx.done], tx.work)
    case Commit(id) =>
      id in s.open_ && s.open_[id].Running? && s.open_[id].done == |Program(s.open_[id].txn)|
    case Abort(id) => id in s.open_
    case Admin(e) =>
      && (!e.FilePending? ==> LockFree(s, e.u))
      && (e.FilePending? ==> LockFree(s, e.u) || e.u in s.db.accounts)
      && (e.FilePending? ==> LockFree(s, e.reporter) || e.reporter in s.db.accounts)
      && (forall id | id in s.open_ && s.open_[id].Running? :: EditKeys(e) !! Keys(s.open_[id].work.events))
      && ApplyEdit(c, s.db, e).Some?
  }

  /** The statement's unique key is already committed: the transaction rolls back. */
  predicate Violates(s: Sys, tx: Tx)
    requires tx.Running? && tx.done < |Program(tx.txn)|
  {
    var key := KeyOf(Program(tx.txn)[tx.done], tx.work);
    key.Some? && key.value in Keys(s.db.events)
  }

  function Apply(c: Settings, s: Sys, a: Action): Sys
    requires Enabled(c, s, a)
  {
    match a
    case Begin(id, t) =>
      s.(open_ := s.open_[id := if LocksUser(t) then Waiting(t) else Running(t, 0, InitWork(t.u, FRESH))],
         used := s.used + if FlagOf(t).Some? then {FlagOf(t).value} else {})
    case Lock(id) =>
      var t := s.open_[id].txn;
      s.(open_ := s.open_[id := Running(t, 0, InitWork(t.u, AccountOf(s.db, t.u)))])
    case Execute(id) =>
      var tx := s.open_[id];
      if Violates(s, tx) then s.(open_ := s.open_ - {id})
      else s.(open_ := s.open_[id := Running(tx.txn, tx.done + 1, Do(c, Program(tx.txn)[tx.done], tx.work))])
    case Commit(id) =>
      s.(db := Merge(s.db, s.open_[id].txn, s.open_[id].work), open_ := s.open_ - {id})
    case Abort(id) => s.(open_ := s.open_ - {id})
    case Admin(e) => s.(db := ApplyEdit(c, s.db, e).value)
  }

  ghost predicate Step(c: Settings, s: Sys, a: Action, t: Sys) {
    Enabled(c, s, a) && t == Apply(c, s, a) && (a.Admin? ==> ValidEdit(a.edit))
  }

  ghost predicate StepAt(c: Settings, states: seq<Sys>, actions: seq<Action>, i: nat)
    requires i < |actions| < |states|
  {
    Step(c, states[i], actions[i], states[i + 1])
  }

  ghost predicate Run(c: Settings, states: seq<Sys>, actions: seq<Action>) {
    && |states| == |actions| + 1
    && Initial(states[0])
    && forall i | 0 <= i < |actions| :: StepAt(c, states, actions, i)
  }

  // ---------- why interleaving does not matter ----------

  /** An open transaction has done exactly what it would have done alone on the committed database. */
  ghost predicate Alone(c: Settings, db: Db, tx: Tx) {
    if tx.Waiting? then LocksUser(tx.txn) else
      && tx.done <= |Program(tx.txn)|
      && tx.work == RunStmts(c, Program(tx.txn)[..tx.done], InitWork(tx.txn.u, StartOf(db, tx.txn)))
      && Keys(tx.work.events) !! Keys(db.events)
  }

  ghost predicate Separate(s: Sys) {
    forall i, j | i in s.open_ && j in s.open_ && i != j && s.open_[i].Running? && s.open_[j].Running? ::
      && (LocksUser(s.open_[i].txn) && LocksUser(s.open_[j].txn) ==> s.open_[i].txn.u != s.open_[j].txn.u)
      && Keys(s.open_[i].work.events) !! Keys(s.open_[j].work.events)
  }

  /** Flag ids are handed out once, so no two transactions insert the same one. */
  ghost predicate FlagsFresh(s: Sys) {
    && (forall i | i in s.open_ && FlagOf(s.open_[i].txn).Some? :: FlagOf(s.open_[i].txn).value in s.used)
    && (forall i, j | i in s.open_ && j in s.open_ && i != j
                      && FlagOf(s.open_[i].txn).Some? && FlagOf(s.open_[j].txn).Some? ::
          FlagOf(s.open_[i].txn).value != FlagOf(s.open_[j].txn).value)
    && (forall u, k | u in s.db.accounts && 0 <= k < |s.db.accounts[u].flags| ::
          s.db.accounts[u].flags[k].id in s.used
          && forall i | i in s.open_ && FlagOf(s.open_[i].txn).Some? ::
               FlagOf(s.open_[i].txn).value != s.db.accounts[u].flags[k].id)
  }

  ghost predicate Inv(c: Settings, s: Sys) {
    && (forall i | i in s.open_ :: Alone(c, s.db, s.open_[i]))
    && Separate(s)
    && FlagsFresh(s)
    && (forall i | i in s.open_ && FlagOf(s.open_[i].txn).Some? ::
          s.open_[i].txn.flag.weight >= 0
          && s.open_[i].txn.flag.effective == Some(s.open_[i].txn.flag.weight))
    && DbOk(c, s.db)
  }

  // ---------- every step keeps it, and commits are serial ----------

  lemma DoKeys(c: Settings, st: Stmt, wk: Work)
    ensures Keys(Do(c, st, wk).events)
         == Keys(wk.events) + if KeyOf(st, wk).Some? then {KeyOf(st, wk).value} else {}
  {
    var more := Do(c, st, wk).events;
    if more != wk.events {
      assert more == wk.events + [more[|more| - 1]];
      assert forall e :: e in more <==> e in wk.events || e == more[|more| - 1];
    }
  }

  lemma ConcatKeys(xs: seq<Event>, ys: seq<Event>)
    ensures Keys(xs + ys) == Keys(xs) + Keys(ys)
  {
    assert forall e :: e in xs + ys <==> e in xs || e in ys;
  }

  /** Replacing one open transaction keeps the database and the other transactions as they were. */
  lemma ReplaceKeeps(c: Settings, s: Sys, id: TxId, tx: Tx)
    requires Inv(c, s) && id in s.open_ && tx.txn == s.open_[id].txn && Alone(c, s.db, tx)
    requires tx.Running? ==> forall other | other in s.open_ && other != id && s.open_[other].Running? ::
               && (LocksUser(tx.txn) && LocksUser(s.open_[other].txn) ==> tx.txn.u != s.open_[other].txn.u)
               && Keys(tx.work.events) !! Keys(s.open_[other].work.events)
    ensures Inv(c, s.(open_ := s.open_[id := tx]))
  {
    var t := s.(open_ := s.open_[id := tx]);
    forall i | i in t.open_ ensures Alone(c, t.db, t.open_[i]) {
      if i != id { assert Alone(c, s.db, s.open_[i]); }
    }
    ReplaceKeepsSeparate(s, id, tx);
    SameTransactionsKeepFlags(s, t);
  }

  lemma SameTransactionsKeepFlags(s: Sys, t: Sys)
    requires FlagsFresh(s) && t.db == s.db && t.used == s.used && t.open_.Keys == s.open_.Keys
    requires forall i | i in t.open_ :: t.open_[i].txn == s.open_[i].txn
    ensures FlagsFresh(t)
  {
  }

  lemma ReplaceKeepsSeparate(s: Sys, id: TxId, tx: Tx)
    requires Separate(s) && id in s.open_
    requires tx.Running? ==> forall other | other in s.open_ && other != id && s.open_[other].Running? ::
               && (LocksUser(tx.txn) && LocksUser(s.open_[other].txn) ==> tx.txn.u != s.open_[other].txn.u)
               && Keys(tx.work.events) !! Keys(s.open_[other].work.events)
    ensures Separate(s.(open_ := s.open_[id := tx]))
  {
  }

  /** At its first statement a transaction has done nothing. */
  lemma StartsAlone(c: Settings, db: Db, t: Txn)
    ensures Alone(c, db, Running(t, 0, InitWork(t.u, StartOf(db, t))))
  {
    assert Program(t)[..0] == [];
  }

  lemma BeginKeeps(c: Settings, s: Sys, a: Action)
    requires Inv(c, s) && Enabled(c, s, a) && a.Begin?
    ensures Inv(c, Apply(c, s, a))
  {
    var t := Apply(c, s, a);
    StartsAlone(c, s.db, a.txn);
    forall i | i in t.open_ ensures Alone(c, t.db, t.open_[i]) {
      if i != a.id { assert Alone(c, s.db, s.open_[i]); }
    }
    BeginKeepsFlags(c, s, a);
  }

  lemma BeginKeepsFlags(c: Settings, s: Sys, a: Action)
    requires Inv(c, s) && Enabled(c, s, a) && a.Begin?
    ensures FlagsFresh(Apply(c, s, a))
  {
  }

  lemma LockKeeps(c: Settings, s: Sys, id: TxId)
    requires Inv(c, s) && Enabled(c, s, Lock(id))
    ensures Inv(c, Apply(c, s, Lock(id)))
  {
    var txn := s.open_[id].txn;
    assert Alone(c, s.db, s.open_[id]);
    StartsAlone(c, s.db, txn);
    ReplaceKeeps(c, s, id, Running(txn, 0, InitWork(txn.u, StartOf(s.db, txn))));
  }

  lemma ExecuteKeepsAlone(c: Settings, db: Db, tx: Tx)
    requires Alone(c, db, tx) && tx.Running? && tx.done < |Program(tx.txn)|
    requires var key := KeyOf(Program(tx.txn)[tx.done], tx.work); key.Some? ==> key.value !in Keys(db.events)
    ensures Alone(c, db, Running(tx.txn, tx.done + 1, Do(c, Program(tx.txn)[tx.done], tx.work)))
  {
    RunStep(c, Program(tx.txn), tx.done, InitWork(tx.txn.u, StartOf(db, tx.txn)));
    DoKeys(c, Program(tx.txn)[tx.done], tx.work);
  }

  lemma ExecuteKeeps(c: Settings, s: Sys, id: TxId)
    requires Inv(c, s) && Enabled(c, s, Execute(id))
    ensures Inv(c, Apply(c, s, Execute(id)))
  {
    var tx := s.open_[id];
    assert Alone(c, s.db, tx);
    if Violates(s, tx) {
      AbortKeeps(c, s, id);
    } else {
      ExecuteKeepsAlone(c, s.db, tx);
      DoKeys(c, Program(tx.txn)[tx.done], tx.work);
      ReplaceKeeps(c, s, id, Running(tx.txn, tx.done + 1, Do(c, Program(tx.txn)[tx.done], tx.work)));
    }
  }

  lemma AbortKeeps(c: Settings, s: Sys, id: TxId)
    requires Inv(c, s) && Enabled(c, s, Abort(id))
    ensures Inv(c, Apply(c, s, Abort(id)))
  {
  }

  /** What a transaction commits is what it would have done alone, at that moment. */
  lemma CommitIsSerial(c: Settings, s: Sys, id: TxId)
    requires Inv(c, s) && Enabled(c, s, Commit(id))
    ensures Serial(c, s.db, s.open_[id].txn) == Some(Apply(c, s, Commit(id)).db)
    ensures ValidFor(s.open_[id].txn, AccountOf(s.db, s.open_[id].txn.u))
  {
    var tx := s.open_[id];
    assert Alone(c, s.db, tx);
    assert Program(tx.txn)[..|Program(tx.txn)|] == Program(tx.txn);
  }

  lemma CommitKeepsOthers(c: Settings, s: Sys, id: TxId, i: TxId)
    requires Inv(c, s) && Enabled(c, s, Commit(id)) && i in s.open_ && i != id
    ensures Alone(c, Apply(c, s, Commit(id)).db, s.open_[i])
  {
    assert Alone(c, s.db, s.open_[i]);
    ConcatKeys(s.db.events, s.open_[id].work.events);
  }

  lemma CommitKeepsFlags(c: Settings, s: Sys, id: TxId)
    requires Inv(c, s) && Enabled(c, s, Commit(id))
    ensures FlagsFresh(Apply(c, s, Commit(id)))
  {
    var t, txn := Apply(c, s, Commit(id)), s.open_[id].txn;
    CommitIsSerial(c, s, id);
    SerialEffect(c, s.db, txn);
    forall u, k | u in t.db.accounts && 0 <= k < |t.db.accounts[u].flags|
      ensures t.db.accounts[u].flags[k].id in t.used
      ensures forall i | i in t.open_ && FlagOf(t.open_[i].txn).Some? ::
                FlagOf(t.open_[i].txn).value != t.db.accounts[u].flags[k].id
    {
      var f := t.db.accounts[u].flags[k];
      if u == txn.u && LocksUser(txn) {
        var before := AccountOf(s.db, u).flags;
        if k < |before| { assert f.id == before[k].id; } else { assert f.id == FlagOf(txn).value; }
      }
    }
  }

  lemma CommitKeeps(c: Settings, s: Sys, id: TxId)
    requires PositiveThresholds(c.th) && Inv(c, s) && Enabled(c, s, Commit(id))
    ensures Inv(c, Apply(c, s, Commit(id)))
  {
    var t := Apply(c, s, Commit(id));
    CommitIsSerial(c, s, id);
    SerialKeepsDb(c, s.db, s.open_[id].txn);
    forall i | i in t.open_ ensures Alone(c, t.db, t.open_[i]) {
      CommitKeepsOthers(c, s, id, i);
    }
    CommitKeepsFlags(c, s, id);
  }

  lemma EditKeysAre(e: Edit, after: Account)
    ensures Keys(EditEvents(e, after)) == EditKeys(e)
  {
    var es := EditEvents(e, after);
    assert forall x :: x in es <==> x == es[0] || (|es| == 2 && x == es[1]);
    assert Keys(es) == {es[0].key} + if |es| == 2 then {es[1].key} else {};
  }

  lemma EditFrame(c: Settings, db: Db, e: Edit, u: UserId)
    requires ApplyEdit(c, db, e).Some?
    ensures u != e.u || e.FilePending? ==> AccountOf(ApplyEdit(c, db, e).value, u) == AccountOf(db, u)
    ensures Keys(ApplyEdit(c, db, e).value.events) == Keys(db.events) + EditKeys(e)
  {
    var after := if e.FilePending? then FRESH else ApplyEdit(c, db, e).value.accounts[e.u];
    ConcatKeys(db.events, EditEvents(e, after));
    EditKeysAre(e, after);
  }

  /** An edit under free locks leaves every open transaction's account alone. */
  lemma AdminKeepsOthers(c: Settings, s: Sys, e: Edit, i: TxId)
    requires Inv(c, s) && Enabled(c, s, Admin(e)) && i in s.open_
    ensures Alone(c, Apply(c, s, Admin(e)).db, s.open_[i])
  {
    var tx := s.open_[i];
    EditFrame(c, s.db, e, tx.txn.u);
    assert Alone(c, s.db, tx);
    if tx.Running? && LocksUser(tx.txn) { assert Holds(tx, tx.txn.u); }
  }

  lemma AdminKeepsFlags(c: Settings, s: Sys, e: Edit)
    requires Inv(c, s) && Enabled(c, s, Admin(e))
    ensures FlagsFresh(Apply(c, s, Admin(e)))
  {
    var t := Apply(c, s, Admin(e));
    forall u, k | u in t.db.accounts && 0 <= k < |t.db.accounts[u].flags|
      ensures t.db.accounts[u].flags[k].id in t.used
      ensures forall i | i in t.open_ && FlagOf(t.open_[i].txn).Some? ::
                FlagOf(t.open_[i].txn).value != t.db.accounts[u].flags[k].id
    {
      if u == e.u && !e.FilePending? {
        var k' := OriginalIndex(s.db.accounts[u], e, k);
        assert t.db.accounts[u].flags[k].id == s.db.accounts[u].flags[k'].id;
      } else {
        assert u in s.db.accounts && t.db.accounts[u] == s.db.accounts[u];
      }
    }
  }

  lemma OriginalIndex(a: Account, e: Edit, k: nat) returns (k': nat)
    requires EditedFlags(a, e).Some? && k < |EditedFlags(a, e).value|
    ensures k' < |a.flags| && a.flags[k'].id == EditedFlags(a, e).value[k].id
  {
    k' := if e.DeleteFlag? && k >= FindFlag(a.flags, e.fid).value then k + 1 else k;
  }

  lemma AdminKeeps(c: Settings, s: Sys, e: Edit)
    requires PositiveThresholds(c.th) && Inv(c, s) && Enabled(c, s, Admin(e)) && ValidEdit(e)
    ensures Inv(c, Apply(c, s, Admin(e)))
  {
    var t := Apply(c, s, Admin(e));
    EditKeepsDb(c, s.db, e);
    forall i | i in t.open_ ensures Alone(c, t.db, t.open_[i]) {
      AdminKeepsOthers(c, s, e, i);
    }
    AdminKeepsFlags(c, s, e);
  }

  lemma StepKeepsInv(c: Settings, s: Sys, a: Action, t: Sys)
    requires PositiveThresholds(c.th) && Inv(c, s) && Step(c, s, a, t)
    ensures Inv(c, t)
  {
    match a
    case Begin(_, _) => BeginKeeps(c, s, a);
    case Lock(id) => LockKeeps(c, s, id);
    case Execute(id) => ExecuteKeeps(c, s, id);
    case Commit(id) => CommitKeeps(c, s, id);
    case Abort(id) => AbortKeeps(c, s, id);
    case Admin(e) => AdminKeeps(c, s, e);
  }

  lemma {:induction false} RunKeepsInv(c: Settings, states: seq<Sys>, actions: seq<Action>, k: nat)
    requires PositiveThresholds(c.th) && Run(c, states, actions) && k < |states|
    ensures Inv(c, states[k])
  {
    if k > 0 {
      RunKeepsInv(c, states, actions, k - 1);
      assert StepAt(c, states, actions, k - 1);
      StepKeepsInv(c, states[k - 1], actions[k - 1], states[k]);
    } else {
      assert Updates([], 0) == [];
    }
  }
}
