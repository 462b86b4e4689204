/**
 What each reputation transaction amounts to, and what all of them keep: the
 score is the sum over the flags, the level follows the score, and the
 `user.updated` events number every change without a gap.
 */
module ReputationFacts {
  import opened Options
  import opened FlagPolicy
  import opened Decay
  import opened Reputation

  // ---------- the programs, statement by statement ----------

  /** Executing one more statement of a program. */
  lemma RunStep(c: Settings, stmts: seq<Stmt>, k: nat, wk: Work)
    requires k < |stmts|
    ensures RunStmts(c, stmts[..k + 1], wk) == Do(c, stmts[k], RunStmts(c, stmts[..k], wk))
  {
    assert stmts[..k + 1][..k] == stmts[..k];
  }

  /** Running a first statement, then the rest. */
  lemma {:induction false} RunCons(c: Settings, s: Stmt, rest: seq<Stmt>, wk: Work)
    ensures RunStmts(c, [s] + rest, wk) == RunStmts(c, rest, Do(c, s, wk))
  {
    var all := [s] + rest;
    var n := |all| - 1;
    if rest == [] {
      assert all[..n] == [];
    } else {
      RunCons(c, s, rest[..|rest| - 1], wk);
      assert all[..n] == [s] + rest[..|rest| - 1];
    }
  }

  /** The first two statements of a program, then the others. */
  lemma RunTwo(c: Settings, stmts: seq<Stmt>, wk: Work)
    requires |stmts| >= 2
    ensures RunStmts(c, stmts, wk) == RunStmts(c, stmts[2..], Do(c, stmts[1], Do(c, stmts[0], wk)))
  {
    assert stmts == [stmts[0]] + stmts[1..];
    assert stmts[1..] == [stmts[1]] + stmts[2..];
    RunCons(c, stmts[0], stmts[1..], wk);
    RunCons(c, stmts[1], stmts[2..], Do(c, stmts[0], wk));
  }

  /** The statements shared by all flag transactions: increment, read back, save level and version. */
  function SaveThen(w: int, tail: seq<Stmt>): seq<Stmt> {
    [AddScore(w)] + ([ReadScore] + ([SaveLevel] + tail))
  }

  function Saved(c: Settings, w: int, wk: Work): Work {
    var score := wk.acct.score + w;
    wk.(acct := Account(score, LevelFromScore(c.th, score), wk.acct.version + 1, wk.acct.flags), read := score)
  }

  lemma SaveSegment(c: Settings, w: int, tail: seq<Stmt>, wk: Work)
    ensures RunStmts(c, SaveThen(w, tail), wk) == RunStmts(c, tail, Saved(c, w, wk))
  {
    var wk1 := Do(c, AddScore(w), wk);
    var wk2 := Do(c, ReadScore, wk1);
    RunCons(c, AddScore(w), [ReadScore] + ([SaveLevel] + tail), wk);
    RunCons(c, ReadScore, [SaveLevel] + tail, wk1);
    RunCons(c, SaveLevel, tail, wk2);
    assert Do(c, SaveLevel, wk2) == Saved(c, w, wk);
  }

  lemma RunLast(c: Settings, s: Stmt, wk: Work)
    ensures RunStmts(c, [s], wk) == Do(c, s, wk)
  {
    assert [s] == [s] + [];
    RunCons(c, s, [], wk);
  }

  /** A user after a new flag: the incremental update of all three aggregate columns. */
  function WithFlag(c: Settings, a: Account, f: Flag): Account {
    Account(a.score + f.weight, LevelFromScore(c.th, a.score + f.weight), a.version + 1, a.flags + [f])
  }

  function UpdatedEvent(key: Key, u: UserId, a: Account): Event {
    Event(key, UserUpdated(u, a.level, a.score, a.version))
  }

  /** A user after a decay pass that changed something. */
  function Decayed(c: Settings, a: Account, now: int): Account {
    var flags := DecayAll(c, a.flags, now);
    Account(Sum(flags), LevelFromScore(c.th, Sum(flags)), a.version + 1, flags)
  }

  predicate DecaySkips(c: Settings, a: Account, now: int) {
    var sum := Sum(DecayAll(c, a.flags, now));
    a.flags == [] || (sum == a.score && !AnyChanged(c, a.flags, now) && LevelFromScore(c.th, sum) == a.level)
  }

  function ResultAccount(c: Settings, t: Txn, a: Account): Account {
    match t
    case CreateFlag(_, f) => WithFlag(c, a, f)
    case InstantReport(_, _, f) => WithFlag(c, a, f)
    case Approve(_, _, f, _) => WithFlag(c, a, f)
    case DecayUser(_, now) => if DecaySkips(c, a, now) then a else Decayed(c, a, now)
    case Reject(_, _, _) => a
  }

  function ResultReports(t: Txn): map<ReportId, ReportWrite> {
    match t
    case InstantReport(_, rid, f) => map[rid := Put(Report(Accepted, Some(f.id)))]
    case Approve(_, rid, f, _) => map[rid := Put(Report(Accepted, Some(f.id)))]
    case Reject(_, rid, _) => map[rid := SetStatus(Rejected)]
    case _ => map[]
  }

  function ResultEvents(c: Settings, t: Txn, a: Account): seq<Event> {
    var after := ResultAccount(c, t, a);
    match t
    case CreateFlag(u, f) =>
      [Event(UserFlagged(f.id), Other), UpdatedEvent(UpdatedByFlag(u, f.id), u, after)]
    case InstantReport(u, rid, f) =>
      [Event(UserReported(rid), Other), UpdatedEvent(UpdatedByReport(u, rid, f.id), u, after)]
    case Approve(u, rid, f, ticket) =>
      [Event(ReportApproved(rid), Other), UpdatedEvent(UpdatedByApprove(u, rid, f.id), u, after)]
      + if ticket then [Event(TicketResolved(rid, true), Other)] else []
    case DecayUser(u, now) =>
      if DecaySkips(c, a, now) then [] else [UpdatedEvent(UpdatedByDecay(u, now), u, after)]
    case Reject(_, rid, ticket) =>
      if ticket then [Event(TicketResolved(rid, false), Other)] else []
  }

  ghost predicate Amounts(c: Settings, t: Txn, a: Account) {
    var wk := RunStmts(c, Program(t), InitWork(t.u, a));
    && wk.acct == ResultAccount(c, t, a)
    && wk.reports == ResultReports(t)
    && wk.events == ResultEvents(c, t, a)
  }

  lemma CreateFlagAmounts(c: Settings, t: Txn, a: Account)
    requires t.CreateFlag?
    ensures Amounts(c, t, a)
  {
    var f, wk := t.flag, InitWork(t.u, a);
    var tail := [Enqueue(UserFlagged(f.id)), EnqueueUpdated(UpdatedByFlag(t.u, f.id))];
    assert Program(t) == [InsertFlag(f)] + SaveThen(f.weight, tail);
    RunCons(c, InsertFlag(f), SaveThen(f.weight, tail), wk);
    SaveSegment(c, f.weight, tail, Do(c, InsertFlag(f), wk));
    RunTwo(c, tail, wk.(acct := WithFlag(c, a, f), read := a.score + f.weight));
  }

  lemma InstantReportAmounts(c: Settings, t: Txn, a: Account)
    requires t.InstantReport?
    ensures Amounts(c, t, a)
  {
    var f, wk := t.flag, InitWork(t.u, a);
    var tail := [Enqueue(UserReported(t.rid)), EnqueueUpdated(UpdatedByReport(t.u, t.rid, f.id))];
    var save := SaveThen(f.weight, tail);
    RunTwo(c, Program(t), wk);
    assert Program(t)[2..] == [LinkReport(t.rid, f.id)] + save;
    var wk2 := Do(c, InsertFlag(f), Do(c, InsertReport(t.rid), wk));
    RunCons(c, LinkReport(t.rid, f.id), save, wk2);
    var wk3 := Do(c, LinkReport(t.rid, f.id), wk2);
    SaveSegment(c, f.weight, tail, wk3);
    RunTwo(c, tail, wk3.(acct := WithFlag(c, a, f), read := a.score + f.weight));
    assert wk3.reports == ResultReports(t);
  }

  function ApproveTail(t: Txn): seq<Stmt>
    requires t.Approve?
  {
    [AcceptReport(t.rid, t.flag.id), Enqueue(ReportApproved(t.rid))]
    + ([EnqueueUpdated(UpdatedByApprove(t.u, t.rid, t.flag.id))]
       + if t.ticket then [Enqueue(TicketResolved(t.rid, true))] else [])
  }

  lemma ApproveTailAmounts(c: Settings, t: Txn, wk: Work)
    requires t.Approve? && wk.events == [] && wk.u == t.u
    ensures
      var end := RunStmts(c, ApproveTail(t), wk);
      && end.acct == wk.acct
      && end.reports == wk.reports[t.rid := Put(Report(Accepted, Some(t.flag.id)))]
      && end.events == [Event(ReportApproved(t.rid), Other),
                        UpdatedEvent(UpdatedByApprove(t.u, t.rid, t.flag.id), t.u, wk.acct)]
                       + if t.ticket then [Event(TicketResolved(t.rid, true), Other)] else []
  {
    var last := if t.ticket then [Enqueue(TicketResolved(t.rid, true))] else [];
    var key := UpdatedByApprove(t.u, t.rid, t.flag.id);
    RunTwo(c, ApproveTail(t), wk);
    var wk2 := Do(c, Enqueue(ReportApproved(t.rid)), Do(c, AcceptReport(t.rid, t.flag.id), wk));
    assert ApproveTail(t)[2..] == [EnqueueUpdated(key)] + last;
    RunCons(c, EnqueueUpdated(key), last, wk2);
    if t.ticket { RunLast(c, Enqueue(TicketResolved(t.rid, true)), Do(c, EnqueueUpdated(key), wk2)); }
  }

  lemma ApproveAmounts(c: Settings, t: Txn, a: Account)
    requires t.Approve?
    ensures Amounts(c, t, a)
  {
    var f, wk, tail := t.flag, InitWork(t.u, a), ApproveTail(t);
    assert Program(t) == [InsertFlag(f)] + SaveThen(f.weight, tail);
    RunCons(c, InsertFlag(f), SaveThen(f.weight, tail), wk);
    SaveSegment(c, f.weight, tail, Do(c, InsertFlag(f), wk));
    ApproveTailAmounts(c, t, wk.(acct := WithFlag(c, a, f), read := a.score + f.weight));
  }

  lemma DecayAmounts(c: Settings, t: Txn, a: Account)
    requires t.DecayUser?
    ensures Amounts(c, t, a)
  {
    var wk := InitWork(t.u, a);
    RunTwo(c, Program(t), wk);
    var wk2 := Do(c, UpdateFlags(t.now), Do(c, CompareDecay(t.now), wk));
    assert wk2.skip == DecaySkips(c, a, t.now);
    assert Program(t)[2..] == [SaveDecay, EnqueueDecay(t.now)];
    RunTwo(c, [SaveDecay, EnqueueDecay(t.now)], wk2);
  }

  lemma RejectAmounts(c: Settings, t: Txn, a: Account)
    requires t.Reject?
    ensures Amounts(c, t, a)
  {
    var wk := InitWork(t.u, a);
    if t.ticket {
      RunTwo(c, Program(t), wk);
    } else {
      assert Program(t) == [RejectReport(t.rid)];
      RunLast(c, RejectReport(t.rid), wk);
    }
  }

  /** Read back, incremented and saved in separate statements, each program has this one effect. */
  lemma TransactionAmounts(c: Settings, t: Txn, a: Account)
    ensures Amounts(c, t, a)
  {
    match t
    case CreateFlag(_, _) => CreateFlagAmounts(c, t, a);
    case InstantReport(_, _, _) => InstantReportAmounts(c, t, a);
    case Approve(_, _, _, _) => ApproveAmounts(c, t, a);
    case DecayUser(_, _) => DecayAmounts(c, t, a);
    case Reject(_, _, _) => RejectAmounts(c, t, a);
  }

  // ---------- the aggregate ----------

  ghost predicate PositiveThresholds(th: Thresholds) {
    th.watch > 0 && th.suspicious > 0 && th.highRisk > 0 && th.confirmed > 0
  }

  ghost predicate FlagIdsDistinct(flags: seq<Flag>) {
    forall i, j | 0 <= i < j < |flags| :: flags[i].id != flags[j].id
  }

  /** `validate` finds nothing to report about the user row. */
  ghost predicate AccountOk(c: Settings, a: Account) {
    && FlagIdsDistinct(a.flags)
    && (forall i | 0 <= i < |a.flags| :: a.flags[i].weight >= 0 && Effective(a.flags[i]) >= 0)
    && a.score == Sum(a.flags)
    && a.level == LevelFromScore(c.th, a.score)
  }

  lemma SumAppend(flags: seq<Flag>, f: Flag)
    ensures Sum(flags + [f]) == Sum(flags) + Effective(f)
    ensures Effective(f) == if f.effective.Some? then f.effective.value else f.weight
  {
    assert (flags + [f])[..|flags|] == flags;
  }

  lemma {:induction false} SumNonNegative(flags: seq<Flag>)
    requires forall i | 0 <= i < |flags| :: Effective(flags[i]) >= 0
    ensures Sum(flags) >= 0
  {
    if flags != [] { SumNonNegative(flags[..|flags| - 1]); }
  }

  lemma {:induction false} SumConcat(xs: seq<Flag>, ys: seq<Flag>)
    ensures Sum(xs + ys) == Sum(xs) + Sum(ys)
  {
    if ys == [] {
      assert xs + ys == xs;
    } else {
      var n := |ys| - 1;
      SumConcat(xs, ys[..n]);
      assert (xs + ys)[..|xs + ys| - 1] == xs + ys[..n];
    }
  }

  /** The services hand a new flag its full weight, and the database a new id. */
  ghost predicate NewFlag(f: Flag, flags: seq<Flag>) {
    f.weight >= 0 && f.effective == Some(f.weight) && forall i | 0 <= i < |flags| :: flags[i].id != f.id
  }

  ghost predicate ValidFor(t: Txn, a: Account) {
    t.CreateFlag? || t.InstantReport? || t.Approve? ==> NewFlag(t.flag, a.flags)
  }

  lemma NewFlagKeepsAccount(c: Settings, a: Account, f: Flag)
    requires AccountOk(c, a) && NewFlag(f, a.flags)
    ensures AccountOk(c, WithFlag(c, a, f))
  {
    SumAppend(a.flags, f);
  }

  lemma DecayKeepsAccount(c: Settings, a: Account, now: int)
    requires AccountOk(c, a)
    ensures AccountOk(c, Decayed(c, a, now))
  {
  }

  lemma ResultKeepsAccount(c: Settings, t: Txn, a: Account)
    requires AccountOk(c, a) && ValidFor(t, a)
    ensures AccountOk(c, ResultAccount(c, t, a))
  {
    match t
    case CreateFlag(_, f) => NewFlagKeepsAccount(c, a, f);
    case InstantReport(_, _, f) => NewFlagKeepsAccount(c, a, f);
    case Approve(_, _, f, _) => NewFlagKeepsAccount(c, a, f);
    case DecayUser(_, now) => DecayKeepsAccount(c, a, now);
    case Reject(_, _, _) =>
  }

  // ---------- admin edits: whole recomputation ----------

  /** Admin edits and the filing of a pending report; they take no row lock and run as one step. */
  datatype Edit =
    | DeleteFlag(u: UserId, fid: FlagId)
    | PatchFlag(u: UserId, fid: FlagId, weight: Option<int>)
    | FilePending(u: UserId, reporter: UserId, rid: ReportId)

  function FindFlag(flags: seq<Flag>, fid: FlagId): (i: Option<nat>)
    ensures i.Some? ==> i.value < |flags| && flags[i.value].id == fid
    ensures i.None? ==> forall k | 0 <= k < |flags| :: flags[k].id != fid
  {
    if flags == [] then None
    else if flags[|flags| - 1].id == fid then Some(|flags| - 1)
    else FindFlag(flags[..|flags| - 1], fid)
  }

  function Recomputed(c: Settings, a: Account, flags: seq<Flag>): Account {
    Account(Sum(flags), LevelFromScore(c.th, Sum(flags)), a.version + 1, flags)
  }

  function Patched(f: Flag, weight: Option<int>): Flag {
    match weight
    case None => f
    case Some(w) => f.(weight := w, effective := Some(w))
  }

  function EditedFlags(a: Account, e: Edit): Option<seq<Flag>> {
    match e
    case DeleteFlag(_, fid) =>
      (match FindFlag(a.flags, fid)
       case None => None
       case Some(i) => Some(a.flags[..i] + a.flags[i + 1..]))
    case PatchFlag(_, fid, w) =>
      (match FindFlag(a.flags, fid)
       case None => None
       case Some(i) => Some(a.flags[..i] + [Patched(a.flags[i], w)] + a.flags[i + 1..]))
    case FilePending(_, _, _) => Some(a.flags)
  }

  function EditEvents(e: Edit, after: Account): seq<Event> {
    match e
    case DeleteFlag(u, fid) =>
      [Event(FlagRemoved(fid), Other), UpdatedEvent(UpdatedByDelete(u, fid), u, after)]
    case PatchFlag(u, fid, _) => [UpdatedEvent(UpdatedByPatch(u, fid), u, after)]
    case FilePending(_, _, rid) => [Event(ReportPending(rid), Other)]
  }

  function EditKeys(e: Edit): set<Key> {
    match e
    case DeleteFlag(u, fid) => {FlagRemoved(fid), UpdatedByDelete(u, fid)}
    case PatchFlag(u, fid, _) => {UpdatedByPatch(u, fid)}
    case FilePending(_, _, rid) => {ReportPending(rid)}
  }

  function Ensure(accounts: map<UserId, Account>, u: UserId): map<UserId, Account> {
    if u in accounts then accounts else accounts[u := FRESH]
  }

  /** Deleting a flag sets the link of the report it came from to null. */
  function Unlinked(reports: map<ReportId, Report>, e: Edit): map<ReportId, Report> {
    if e.DeleteFlag? then
      map rid | rid in reports ::
        if reports[rid].flagId == Some(e.fid) then reports[rid].(flagId := None) else reports[rid]
    else
      reports
  }

  /** None when the user or flag is missing, or when a unique key is taken. */
  function ApplyEdit(c: Settings, db: Db, e: Edit): Option<Db> {
    if e.FilePending? then
      if e.rid in db.reports || ReportPending(e.rid) in Keys(db.events) then None
      else Some(Db(Ensure(Ensure(db.accounts, e.u), e.reporter),
                   db.reports[e.rid := Report(Pending, None)],
                   db.events + EditEvents(e, FRESH)))
    else if e.u !in db.accounts then None
    else
      var a := db.accounts[e.u];
      var flags := EditedFlags(a, e);
      if flags.None? then None
      else
        var after := Recomputed(c, a, flags.value);
        var events := EditEvents(e, after);
        if Keys(events) !! Keys(db.events)
        then Some(Db(db.accounts[e.u := after], Unlinked(db.reports, e), db.events + events))
        else None
  }

  /** Filing a pending report creates what is missing and changes nobody's aggregate. */
  lemma FilingEffect(c: Settings, db: Db, u: UserId, reporter: UserId, rid: ReportId)
    ensures
      var after := ApplyEdit(c, db, FilePending(u, reporter, rid));
      && (after.None? <==> rid in db.reports || ReportPending(rid) in Keys(db.events))
      && (after.Some? ==>
            && after.value.accounts.Keys == db.accounts.Keys + {u, reporter}
            && (forall v | v in after.value.accounts ::
                  after.value.accounts[v] == if v in db.accounts then db.accounts[v] else Account(0, Clean, 0, []))
            && after.value.reports == db.reports[rid := Report(Pending, None)]
            && after.value.events == db.events + [Event(ReportPending(rid), Other)])
  {
  }

  ghost predicate ValidEdit(e: Edit) {
    e.PatchFlag? && e.weight.Some? ==> e.weight.value >= 1
  }

  lemma EditKeepsAccount(c: Settings, a: Account, e: Edit)
    requires AccountOk(c, a) && ValidEdit(e) && EditedFlags(a, e).Some?
    ensures AccountOk(c, Recomputed(c, a, EditedFlags(a, e).value))
  {
    var flags := EditedFlags(a, e).value;
    forall i | 0 <= i < |flags| ensures flags[i].weight >= 0 && Effective(flags[i]) >= 0 {
    }
    assert FlagIdsDistinct(flags);
  }

  // ---------- the event history ----------

  /** The `user.updated` payloads of a user, in commit order. */
  function Updates(events: seq<Event>, u: UserId): seq<Body> {
    if events == [] then []
    else
      var e := events[|events| - 1];
      Updates(events[..|events| - 1], u) + if e.body.UserUpdated? && e.body.u == u then [e.body] else []
  }

  lemma {:induction false} UpdatesConcat(xs: seq<Event>, ys: seq<Event>, u: UserId)
    ensures Updates(xs + ys, u) == Updates(xs, u) + Updates(ys, u)
  {
    if ys == [] {
      assert xs + ys == xs;
    } else {
      var n := |ys| - 1;
      UpdatesConcat(xs, ys[..n], u);
      assert (xs + ys)[..|xs + ys| - 1] == xs + ys[..n];
    }
  }

  /** The updates carry the versions 1, 2, ... up to the user's, and the last carries its state. */
  ghost predicate Numbered(us: seq<Body>, u: UserId, a: Account) {
    && |us| == a.version
    && (forall i | 0 <= i < |us| :: us[i].UserUpdated? && us[i].u == u && us[i].version == i + 1)
    && (us == [] ==> a.score == 0 && a.level == Clean)
    && (us != [] ==> us[|us| - 1] == UserUpdated(u, a.level, a.score, a.version))
  }

  ghost predicate KeysUnique(events: seq<Event>) {
    forall i, j | 0 <= i < j < |events| :: events[i].key != events[j].key
  }

  ghost predicate DbOk(c: Settings, db: Db) {
    && (forall u | u in db.accounts :: AccountOk(c, db.accounts[u]))
    && (forall u :: Numbered(Updates(db.events, u), u, AccountOf(db, u)))
    && KeysUnique(db.events)
  }

  /** The new events number the change of `u`, if it changed. */
  ghost predicate Continues(events: seq<Event>, u: UserId, a: Account, b: Account) {
    var us := Updates(events, u);
    || (us == [] && b.version == a.version && b.score == a.score && b.level == a.level)
    || (us == [UserUpdated(u, b.level, b.score, b.version)] && b.version == a.version + 1)
  }

  lemma HistoryGrows(old_: seq<Event>, more: seq<Event>, u: UserId, a: Account, b: Account)
    requires Numbered(Updates(old_, u), u, a) && Continues(more, u, a, b)
    ensures Numbered(Updates(old_ + more, u), u, b)
  {
    UpdatesConcat(old_, more, u);
  }

  lemma KeysStayUnique(events: seq<Event>, more: seq<Event>)
    requires KeysUnique(events) && KeysUnique(more) && Keys(more) !! Keys(events)
    ensures KeysUnique(events + more)
  {
    forall i, j | 0 <= i < j < |events + more| ensures (events + more)[i].key != (events + more)[j].key {
      if i < |events| <= j {
        assert events[i].key in Keys(events) && more[j - |events|].key in Keys(more);
      }
    }
  }

  lemma UpdatesOfFew(es: seq<Event>, u: UserId)
    requires |es| <= 3
    ensures |es| == 1 ==> Updates(es, u) == Pick(es[0], u)
    ensures |es| == 2 ==> Updates(es, u) == Pick(es[0], u) + Pick(es[1], u)
    ensures |es| == 3 ==> Updates(es, u) == Pick(es[0], u) + Pick(es[1], u) + Pick(es[2], u)
  {
    if |es| >= 1 { UpdatesOfOne(es[0], u); assert es[..1] == [es[0]]; }
    if |es| >= 2 { assert es[..2][..1] == es[..1]; }
    if |es| == 3 { assert es[..3] == es; }
    if |es| == 1 { assert es == [es[0]]; }
    if |es| == 2 { assert es[..2] == es; }
  }

  function Pick(e: Event, u: UserId): seq<Body> {
    if e.body.UserUpdated? && e.body.u == u then [e.body] else []
  }

  lemma UpdatesOfOne(e: Event, u: UserId)
    ensures Updates([e], u) == Pick(e, u)
  {
    assert [e][..0] == [];
  }

  lemma ResultContinues(c: Settings, t: Txn, a: Account, u: UserId)
    ensures u == t.u && LocksUser(t) ==> Continues(ResultEvents(c, t, a), u, a, ResultAccount(c, t, a))
    ensures u != t.u || !LocksUser(t) ==> Updates(ResultEvents(c, t, a), u) == []
    ensures KeysUnique(ResultEvents(c, t, a))
  {
    UpdatesOfFew(ResultEvents(c, t, a), u);
  }

  lemma EditContinues(c: Settings, e: Edit, a: Account, b: Account, u: UserId)
    requires b.version == a.version + 1 && !e.FilePending?
    ensures u == e.u ==> Continues(EditEvents(e, b), u, a, b)
    ensures u != e.u ==> Updates(EditEvents(e, b), u) == []
    ensures KeysUnique(EditEvents(e, b))
  {
    UpdatesOfFew(EditEvents(e, b), u);
  }

  // ---------- a whole transaction keeps the database sound ----------

  lemma SerialEffect(c: Settings, db: Db, t: Txn)
    ensures
      var a := StartOf(db, t);
      Serial(c, db, t) ==
      if Keys(ResultEvents(c, t, a)) !! Keys(db.events)
      then Some(Db(if LocksUser(t) then db.accounts[t.u := ResultAccount(c, t, a)] else db.accounts,
                   MergeReports(db.reports, ResultReports(t)),
                   db.events + ResultEvents(c, t, a)))
      else None
  {
    TransactionAmounts(c, t, StartOf(db, t));
  }

  lemma SerialKeepsDb(c: Settings, db: Db, t: Txn)
    requires PositiveThresholds(c.th) && DbOk(c, db) && ValidFor(t, AccountOf(db, t.u))
    requires Serial(c, db, t).Some?
    ensures DbOk(c, Serial(c, db, t).value)
  {
    var a := StartOf(db, t);
    var es := ResultEvents(c, t, a);
    var db' := Serial(c, db, t).value;
    SerialEffect(c, db, t);
    if LocksUser(t) { ResultKeepsAccount(c, t, a); }
    ResultContinues(c, t, a, t.u);
    KeysStayUnique(db.events, es);
    forall u ensures Numbered(Updates(db'.events, u), u, AccountOf(db', u)) {
      ResultContinues(c, t, a, u);
      assert Numbered(Updates(db.events, u), u, AccountOf(db, u));
      HistoryGrows(db.events, es, u, AccountOf(db, u), AccountOf(db', u));
    }
  }

  lemma RecomputeKeepsDb(c: Settings, db: Db, e: Edit)
    requires DbOk(c, db) && ValidEdit(e) && !e.FilePending? && ApplyEdit(c, db, e).Some?
    ensures DbOk(c, ApplyEdit(c, db, e).value)
  {
    var db' := ApplyEdit(c, db, e).value;
    var a, b := db.accounts[e.u], db'.accounts[e.u];
    var more := EditEvents(e, b);
    EditKeepsAccount(c, a, e);
    EditContinues(c, e, a, b, e.u);
    KeysStayUnique(db.events, more);
    forall u ensures Numbered(Updates(db'.events, u), u, AccountOf(db', u)) {
      assert Numbered(Updates(db.events, u), u, AccountOf(db, u));
      EditContinues(c, e, a, b, u);
      HistoryGrows(db.events, more, u, AccountOf(db, u), AccountOf(db', u));
    }
  }

  lemma FilingKeepsDb(c: Settings, db: Db, e: Edit)
    requires PositiveThresholds(c.th) && DbOk(c, db) && e.FilePending? && ApplyEdit(c, db, e).Some?
    ensures DbOk(c, ApplyEdit(c, db, e).value)
  {
    var db' := ApplyEdit(c, db, e).value;
    var more := [Event(ReportPending(e.rid), Other)];
    assert db'.events == db.events + more;
    assert Keys(more) == {ReportPending(e.rid)};
    KeysStayUnique(db.events, more);
    forall u ensures Numbered(Updates(db'.events, u), u, AccountOf(db', u)) {
      assert Numbered(Updates(db.events, u), u, AccountOf(db, u));
      UpdatesOfOne(more[0], u);
      HistoryGrows(db.events, more, u, AccountOf(db, u), AccountOf(db', u));
    }
  }

  lemma EditKeepsDb(c: Settings, db: Db, e: Edit)
    requires PositiveThresholds(c.th) && DbOk(c, db) && ValidEdit(e) && ApplyEdit(c, db, e).Some?
    ensures DbOk(c, ApplyEdit(c, db, e).value)
  {
    if e.FilePending? { FilingKeepsDb(c, db, e); } else { RecomputeKeepsDb(c, db, e); }
  }
}
