/**
 Reputation transactions.  A transaction is the list of its statements; here
 each runs alone.  `ReputationTx` interleaves the statements and shows that
 every interleaving commits what some order of whole transactions commits.
 */
module Reputation {
  import opened Options
  import opened FlagPolicy
  import opened Decay

  type UserId = nat
  type FlagId = nat
  type ReportId = nat

  /** A row of `users` with its flags in table order. */
  datatype Account = Account(score: int, level: Level, version: nat, flags: seq<Flag>)

  const FRESH := Account(0, Clean, 0, [])

  datatype ReportStatus = Pending | Accepted | Rejected | Spam

  datatype Report = Report(status: ReportStatus, flagId: Option<FlagId>)

  /** The idempotency keys of outbox rows, by the template they are built from. */
  datatype Key =
    | UserFlagged(fid: FlagId)
    | UpdatedByFlag(u: UserId, fid: FlagId)
    | UserReported(rid: ReportId)
    | UpdatedByReport(u: UserId, rid: ReportId, fid: FlagId)
    | ReportApproved(rid: ReportId)
    | UpdatedByApprove(u: UserId, rid: ReportId, fid: FlagId)
    | UpdatedByDecay(u: UserId, now: int)
    | FlagRemoved(fid: FlagId)
    | UpdatedByDelete(u: UserId, fid: FlagId)
    | UpdatedByPatch(u: UserId, fid: FlagId)
    | ReportPending(rid: ReportId)
    | TicketResolved(rid: ReportId, resolved: bool)

  /** The payload of `user.updated`; other events carry nothing the model follows. */
  datatype Body = UserUpdated(u: UserId, level: Level, score: int, version: nat) | Other

  datatype Event = Event(key: Key, body: Body)

  datatype Db = Db(accounts: map<UserId, Account>, reports: map<ReportId, Report>, events: seq<Event>)

  function AccountOf(db: Db, u: UserId): Account {
    if u in db.accounts then db.accounts[u] else FRESH
  }

  // ---------- statements ----------

  datatype Txn =
    | CreateFlag(u: UserId, flag: Flag)
    | InstantReport(u: UserId, rid: ReportId, flag: Flag)
    | Approve(u: UserId, rid: ReportId, flag: Flag, ticket: bool)
    | DecayUser(u: UserId, now: int)
    | Reject(u: UserId, rid: ReportId, ticket: bool)

  datatype Stmt =
    | InsertReport(rid: ReportId)
    | InsertFlag(flag: Flag)
    | LinkReport(rid: ReportId, fid: FlagId)
    | AddScore(weight: int)
    | ReadScore
    | SaveLevel
    | AcceptReport(rid: ReportId, fid: FlagId)
    | RejectReport(rid: ReportId)
    | Enqueue(key: Key)
    | EnqueueUpdated(key: Key)
    | CompareDecay(now: int)
    | UpdateFlags(now: int)
    | SaveDecay
    | EnqueueDecay(now: int)

  /** An update of a report row: a whole new row, or its status alone. */
  datatype ReportWrite = Put(report: Report) | SetStatus(status: ReportStatus)

  /**
   What a transaction sees and has written: the user row with its flags, the
   score it read back, its report writes and its new outbox rows.  `skip` is
   the decay job's early return.
   */
  datatype Work = Work(u: UserId, acct: Account, read: int, reports: map<ReportId, ReportWrite>,
                       events: seq<Event>, skip: bool)

  function InitWork(u: UserId, acct: Account): Work {
    Work(u, acct, 0, map[], [], false)
  }

  function UpdatedBody(wk: Work): Body {
    UserUpdated(wk.u, wk.acct.level, wk.acct.score, wk.acct.version)
  }

  function Do(c: Settings, s: Stmt, wk: Work): Work {
    match s
    case InsertReport(rid) => wk.(reports := wk.reports[rid := Put(Report(Accepted, None))])
    case InsertFlag(f) => wk.(acct := wk.acct.(flags := wk.acct.flags + [f]))
    case LinkReport(rid, fid) => wk.(reports := wk.reports[rid := Put(Report(Accepted, Some(fid)))])
    case AddScore(w) => wk.(acct := wk.acct.(score := wk.acct.score + w))
    case ReadScore => wk.(read := wk.acct.score)
    case SaveLevel =>
      wk.(acct := wk.acct.(level := LevelFromScore(c.th, wk.read), version := wk.acct.version + 1))
    case AcceptReport(rid, fid) => wk.(reports := wk.reports[rid := Put(Report(Accepted, Some(fid)))])
    case RejectReport(rid) => wk.(reports := wk.reports[rid := SetStatus(Rejected)])
    case Enqueue(key) => wk.(events := wk.events + [Event(key, Other)])
    case EnqueueUpdated(key) => wk.(events := wk.events + [Event(key, UpdatedBody(wk))])
    case CompareDecay(now) =>
      var sum := Sum(DecayAll(c, wk.acct.flags, now));
      wk.(skip := wk.acct.flags == []
                  || (sum == wk.acct.score && !AnyChanged(c, wk.acct.flags, now)
                      && LevelFromScore(c.th, sum) == wk.acct.level))
    case UpdateFlags(now) =>
      if wk.skip then wk else wk.(acct := wk.acct.(flags := DecayAll(c, wk.acct.flags, now)))
    case SaveDecay =>
      if wk.skip then wk
      else wk.(acct := wk.acct.(score := Sum(wk.acct.flags), level := LevelFromScore(c.th, Sum(wk.acct.flags)),
                                version := wk.acct.version + 1))
    case EnqueueDecay(now) =>
      if wk.skip then wk else wk.(events := wk.events + [Event(UpdatedByDecay(wk.u, now), UpdatedBody(wk))])
  }

  /** The transactions that take the user's row lock as their first statement. */
  predicate LocksUser(t: Txn) {
    !t.Reject?
  }

  /** The statements after the lock. */
  function Program(t: Txn): seq<Stmt> {
    match t
    case CreateFlag(u, f) =>
      [InsertFlag(f), AddScore(f.weight), ReadScore, SaveLevel,
       Enqueue(UserFlagged(f.id)), EnqueueUpdated(UpdatedByFlag(u, f.id))]
    case InstantReport(u, rid, f) =>
      [InsertReport(rid), InsertFlag(f), LinkReport(rid, f.id), AddScore(f.weight), ReadScore, SaveLevel,
       Enqueue(UserReported(rid)), EnqueueUpdated(UpdatedByReport(u, rid, f.id))]
    case Approve(u, rid, f, ticket) =>
      [InsertFlag(f), AddScore(f.weight), ReadScore, SaveLevel, AcceptReport(rid, f.id),
       Enqueue(ReportApproved(rid)), EnqueueUpdated(UpdatedByApprove(u, rid, f.id))]
      + if ticket then [Enqueue(TicketResolved(rid, true))] else []
    case DecayUser(u, now) => [CompareDecay(now), UpdateFlags(now), SaveDecay, EnqueueDecay(now)]
    case Reject(_, rid, ticket) =>
      [RejectReport(rid)] + if ticket then [Enqueue(TicketResolved(rid, false))] else []
  }

  function RunStmts(c: Settings, stmts: seq<Stmt>, wk: Work): Work {
    if stmts == [] then wk
    else Do(c, stmts[|stmts| - 1], RunStmts(c, stmts[..|stmts| - 1], wk))
  }

  // ---------- commit ----------

  function Keys(events: seq<Event>): set<Key> {
    set e | e in events :: e.key
  }

  function MergeReports(reports: map<ReportId, Report>, writes: map<ReportId, ReportWrite>): map<ReportId, Report> {
    map rid | rid in reports.Keys + writes.Keys
              && (rid in reports || writes[rid].Put?)
      :: if rid !in writes then reports[rid]
         else if writes[rid].Put? then writes[rid].report
         else reports[rid].(status := writes[rid].status)
  }

  function Merge(db: Db, t: Txn, wk: Work): Db {
    Db(if LocksUser(t) then db.accounts[t.u := wk.acct] else db.accounts,
       MergeReports(db.reports, wk.reports),
       db.events + wk.events)
  }

  /** The account a transaction works on: the committed one, under the row lock. */
  function StartOf(db: Db, t: Txn): Account {
    if LocksUser(t) then AccountOf(db, t.u) else FRESH
  }

  /** A whole transaction on its own; None when a unique key is already taken. */
  function Serial(c: Settings, db: Db, t: Txn): Option<Db> {
    var wk := RunStmts(c, Program(t), InitWork(t.u, StartOf(db, t)));
    if Keys(wk.events) !! Keys(db.events) then Some(Merge(db, t, wk)) else None
  }
}
