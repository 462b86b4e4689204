/**
 The reputation services as programs over one database object, statement by
 statement: inserts, increments, read-backs, loops over flags, and the rollback
 that a taken idempotency key forces.  Each method is one service call with
 nobody else acting, and is shown to leave exactly what the serial transaction
 of `Reputation` leaves.
 */
module ReputationStore {
  import opened Options
  import opened FlagPolicy
  import opened Decay
  import opened Reputation
  import opened ReputationFacts

  /** What the database holds after a call that ran transaction `t`. */
  function Outcome(c: Settings, db: Db, t: Txn): Db {
    var after := Serial(c, db, t);
    if after.Some? then after.value else db
  }

  /** The writes of transaction `t`, if its keys are free. */
  function Written(c: Settings, db: Db, t: Txn, accounts: map<UserId, Account>, reports: map<ReportId, Report>): Db {
    var es := ResultEvents(c, t, StartOf(db, t));
    if Keys(es) !! Keys(db.events) then Db(accounts, reports, db.events + es) else db
  }

  lemma OutcomeIsWritten(c: Settings, db: Db, t: Txn)
    requires forall rid | rid in ResultReports(t) :: ResultReports(t)[rid].Put? || rid in db.reports
    ensures
      var a := ResultAccount(c, t, StartOf(db, t));
      Outcome(c, db, t) ==
      Written(c, db, t, if LocksUser(t) then db.accounts[t.u := a] else db.accounts,
              MergeReports(db.reports, ResultReports(t)))
    ensures Serial(c, db, t).Some? <==> Keys(ResultEvents(c, t, StartOf(db, t))) !! Keys(db.events)
  {
    SerialEffect(c, db, t);
  }

  lemma PatchApplies(c: Settings, db: Db, u: UserId, fid: FlagId, i: nat, weight: Option<int>)
    requires u in db.accounts && FindFlag(db.accounts[u].flags, fid) == Some(i)
    ensures
      var flags := db.accounts[u].flags;
      var after := Recomputed(c, db.accounts[u], flags[..i] + [Patched(flags[i], weight)] + flags[i + 1..]);
      var es := [UpdatedEvent(UpdatedByPatch(u, fid), u, after)];
      ApplyEdit(c, db, Edit.PatchFlag(u, fid, weight)) ==
      if Keys(es) !! Keys(db.events) then Some(Db(db.accounts[u := after], db.reports, db.events + es)) else None
  {
  }

  lemma MergeNothing(reports: map<ReportId, Report>)
    ensures MergeReports(reports, map[]) == reports
  {
  }

  lemma MergeOne(reports: map<ReportId, Report>, rid: ReportId, w: ReportWrite)
    requires w.Put? || rid in reports
    ensures MergeReports(reports, map[rid := w])
         == reports[rid := if w.Put? then w.report else reports[rid].(status := w.status)]
  {
  }

  // ---------- what a call leaves, column by column ----------

  /** One user has one flag more, its weight on the score, the level of that score and the next version. */
  ghost predicate Gains(c: Settings, before: Db, after: Db, u: UserId, f: Flag) {
    var a := if u in before.accounts then before.accounts[u] else Account(0, Clean, 0, []);
    after.accounts == before.accounts[u := Account(a.score + f.weight, LevelFromScore(c.th, a.score + f.weight),
                                                   a.version + 1, a.flags + [f])]
  }

  /** One user has these flags, their sum as score, the level of that score and the next version. */
  ghost predicate Resummed(c: Settings, before: Db, after: Db, u: UserId, flags: seq<Flag>) {
    u in before.accounts
    && after.accounts == before.accounts[u := Account(Sum(flags), LevelFromScore(c.th, Sum(flags)),
                                                      before.accounts[u].version + 1, flags)]
  }

  /** The outbox row that carries the user's stored state. */
  ghost function Announced(db: Db, u: UserId, key: Key): Event
    requires u in db.accounts
  {
    Event(key, UserUpdated(u, db.accounts[u].level, db.accounts[u].score, db.accounts[u].version))
  }

  /** A flag's decayed weight, the score or the level differs from what is stored. */
  ghost predicate DecayNeeded(c: Settings, a: Account, now: int) {
    || (exists i | 0 <= i < |a.flags| ::
          (if a.flags[i].effective.Some? then a.flags[i].effective.value else a.flags[i].weight)
          != EffectiveWeightForFlag(c, a.flags[i], now))
    || a.score != Sum(DecayAll(c, a.flags, now))
    || a.level != LevelFromScore(c.th, Sum(DecayAll(c, a.flags, now)))
  }

  /** Every flag weighs what it decays to, score and level follow; the version rises if anything was needed. */
  ghost predicate DecayedRow(c: Settings, a: Account, b: Account, now: int) {
    && |b.flags| == |a.flags|
    && (forall i | 0 <= i < |a.flags| ::
          && b.flags[i] == a.flags[i].(effective := b.flags[i].effective)
          && (if b.flags[i].effective.Some? then b.flags[i].effective.value else b.flags[i].weight)
             == EffectiveWeightForFlag(c, a.flags[i], now))
    && b.score == Sum(b.flags) && b.level == LevelFromScore(c.th, b.score)
    && b.version == a.version + if DecayNeeded(c, a, now) then 1 else 0
  }

  ghost predicate DecayWritten(c: Settings, before: Db, after: Db, u: UserId, now: int) {
    && u in before.accounts && u in after.accounts && after.reports == before.reports
    && after.accounts == before.accounts[u := after.accounts[u]]
    && DecayedRow(c, before.accounts[u], after.accounts[u], now)
  }

  lemma FlagLeaves(c: Settings, db: Db, u: UserId, f: Flag)
    requires Serial(c, db, Txn.CreateFlag(u, f)).Some?
    ensures
      var after := Serial(c, db, Txn.CreateFlag(u, f)).value;
      && u in after.accounts && Gains(c, db, after, u, f) && after.reports == db.reports
      && after.events == db.events + [Event(UserFlagged(f.id), Other), Announced(after, u, UpdatedByFlag(u, f.id))]
  {
    SerialEffect(c, db, Txn.CreateFlag(u, f));
    MergeNothing(db.reports);
  }

  lemma InstantReportLeaves(c: Settings, db: Db, u: UserId, rid: ReportId, f: Flag)
    requires Serial(c, db, InstantReport(u, rid, f)).Some?
    ensures
      var after := Serial(c, db, InstantReport(u, rid, f)).value;
      && u in after.accounts && Gains(c, db, after, u, f)
      && after.reports == db.reports[rid := Report(Accepted, Some(f.id))]
      && after.events == db.events + [Event(UserReported(rid), Other),
                                      Announced(after, u, UpdatedByReport(u, rid, f.id))]
  {
    SerialEffect(c, db, InstantReport(u, rid, f));
    MergeOne(db.reports, rid, Put(Report(Accepted, Some(f.id))));
  }

  lemma ApprovalLeaves(c: Settings, db: Db, u: UserId, rid: ReportId, f: Flag, ticket: bool)
    requires Serial(c, db, Txn.Approve(u, rid, f, ticket)).Some?
    ensures
      var after := Serial(c, db, Txn.Approve(u, rid, f, ticket)).value;
      && u in after.accounts && Gains(c, db, after, u, f)
      && after.reports == db.reports[rid := Report(Accepted, Some(f.id))]
      && after.events == db.events + [Event(ReportApproved(rid), Other), Announced(after, u, UpdatedByApprove(u, rid, f.id))]
                         + if ticket then [Event(TicketResolved(rid, true), Other)] else []
  {
    SerialEffect(c, db, Txn.Approve(u, rid, f, ticket));
    MergeOne(db.reports, rid, Put(Report(Accepted, Some(f.id))));
    var es := ResultEvents(c, Txn.Approve(u, rid, f, ticket), AccountOf(db, u));
    var two, more := es[..2], es[2..];
    assert es == two + more && db.events + es == db.events + two + more;
  }

  lemma RowDecays(c: Settings, u: UserId, a: Account, now: int)
    requires a.flags != []
    ensures DecaySkips(c, a, now) <==> !DecayNeeded(c, a, now)
    ensures DecayedRow(c, a, ResultAccount(c, Txn.DecayUser(u, now), a), now)
  {
    if DecaySkips(c, a, now) { SameWeightsSameSum(a.flags, DecayAll(c, a.flags, now)); }
  }

  lemma DecayLeaves(c: Settings, db: Db, u: UserId, now: int)
    requires u in db.accounts && db.accounts[u].flags != [] && Serial(c, db, Txn.DecayUser(u, now)).Some?
    ensures DecaySkips(c, db.accounts[u], now) <==> !DecayNeeded(c, db.accounts[u], now)
    ensures
      var after := Serial(c, db, Txn.DecayUser(u, now)).value;
      && DecayWritten(c, db, after, u, now)
      && after.events == db.events + if DecayNeeded(c, db.accounts[u], now)
                                     then [Announced(after, u, UpdatedByDecay(u, now))] else []
  {
    SerialEffect(c, db, Txn.DecayUser(u, now));
    MergeNothing(db.reports);
    RowDecays(c, u, db.accounts[u], now);
  }

  lemma {:induction false} SameWeightsSameSum(xs: seq<Flag>, ys: seq<Flag>)
    requires |xs| == |ys| && forall i | 0 <= i < |xs| :: Effective(xs[i]) == Effective(ys[i])
    ensures Sum(xs) == Sum(ys)
  {
    if xs != [] { SameWeightsSameSum(xs[..|xs| - 1], ys[..|ys| - 1]); }
  }

  // ---------- a whole decay job ----------

  function DecayPass(c: Settings, db: Db, users: seq<UserId>, now: int): Db {
    if users == [] then db
    else
      var n := |users| - 1;
      Outcome(c, DecayPass(c, db, users[..n], now), Txn.DecayUser(users[n], now))
  }

  ghost predicate Distinct(users: seq<UserId>) {
    forall i, j | 0 <= i < j < |users| :: users[i] != users[j]
  }

  /** No earlier job captured the same instant for one of these users. */
  ghost predicate KeysFree(db: Db, users: seq<UserId>, now: int) {
    forall u | u in users :: u in db.accounts && UpdatedByDecay(u, now) !in Keys(db.events)
  }

  /** Every user has had its pass, and the cache keys of exactly the changed users are deleted. */
  ghost predicate JobDone(c: Settings, before: Db, after: Db, evicted: seq<UserId>, now: int) {
    && after.reports == before.reports && after.accounts.Keys == before.accounts.Keys
    && forall u | u in before.accounts ::
         var a, b := before.accounts[u], after.accounts[u];
         if a.flags == [] then b == a && u !in evicted
         else DecayedRow(c, a, b, now) && (u in evicted <==> DecayNeeded(c, a, now))
  }

  /** When a user's turn comes, its row is still as before the job. */
  lemma UntouchedBefore(c: Settings, db: Db, users: seq<UserId>, i: nat, now: int)
    requires Distinct(users) && KeysFree(db, users, now) && i < |users|
    ensures
      var mid := DecayPass(c, db, users[..i], now);
      && users[i] in mid.accounts && mid.accounts[users[i]] == db.accounts[users[i]]
      && Serial(c, mid, Txn.DecayUser(users[i], now)).Some?
  {
    PassAccounts(c, db, users[..i], now);
    assert users[i] in users && users[i] !in users[..i];
    PassFrame(c, DecayPass(c, db, users[..i], now), users[i], now);
  }

  /** One user's pass touches that user's row and that user's key only. */
  lemma PassFrame(c: Settings, db: Db, u: UserId, now: int)
    requires UpdatedByDecay(u, now) !in Keys(db.events) && u in db.accounts
    ensures
      var after := Outcome(c, db, Txn.DecayUser(u, now));
      && after.accounts == db.accounts[u := ResultAccount(c, Txn.DecayUser(u, now), db.accounts[u])]
      && after.reports == db.reports
      && Keys(after.events) <= Keys(db.events) + {UpdatedByDecay(u, now)}
      && Serial(c, db, Txn.DecayUser(u, now)).Some?
  {
    OutcomeIsWritten(c, db, Txn.DecayUser(u, now));
    MergeNothing(db.reports);
  }

  /** A job over distinct users gives each of them its own pass over the state before the job. */
  lemma {:induction false} PassAccounts(c: Settings, db: Db, users: seq<UserId>, now: int)
    requires Distinct(users) && KeysFree(db, users, now)
    ensures
      var after := DecayPass(c, db, users, now);
      && after.accounts.Keys == db.accounts.Keys && after.reports == db.reports
      && (forall u | u in db.accounts ::
            after.accounts[u] == if u in users then ResultAccount(c, Txn.DecayUser(u, now), db.accounts[u]) else db.accounts[u])
      && (forall u | UpdatedByDecay(u, now) in Keys(after.events) :: u in users || UpdatedByDecay(u, now) in Keys(db.events))
  {
    if users != [] {
      var n := |users| - 1;
      PassAccounts(c, db, users[..n], now);
      var mid := DecayPass(c, db, users[..n], now);
      assert users[n] !in users[..n] && forall u :: u in users <==> u in users[..n] || u == users[n];
      assert UpdatedByDecay(users[n], now) !in Keys(mid.events);
      PassFrame(c, mid, users[n], now);
    }
  }

  /** What a service call tells its caller: the exceptions are named after their HTTP status. */
  datatype Reply = Done | NotFound | BadRequest | Conflict | CacheFailed

  class Store {
    const c: Settings
    var accounts: map<UserId, Account>
    var reports: map<ReportId, Report>
    var events: seq<Event>

    constructor (c: Settings)
      ensures this.c == c && View() == Db(map[], map[], [])
    {
      this.c, accounts, reports, events := c, map[], map[], [];
    }

    function View(): Db
      reads this
    {
      Db(accounts, reports, events)
    }

    // ---------- statements ----------

    method Rollback(saved: Db)
      modifies this
      ensures View() == saved
    {
      accounts, reports, events := saved.accounts, saved.reports, saved.events;
    }

    method UpsertUser(u: UserId)
      modifies this`accounts
      ensures accounts == Ensure(old(accounts), u) && u in accounts && accounts[u] == AccountOf(old(View()), u)
    {
      if u !in accounts { accounts := accounts[u := FRESH]; }
    }

    method InsertFlagRow(u: UserId, f: Flag)
      requires u in accounts
      modifies this`accounts
      ensures accounts == old(accounts)[u := old(accounts[u]).(flags := old(accounts[u]).flags + [f])]
    {
      accounts := accounts[u := accounts[u].(flags := accounts[u].flags + [f])];
    }

    method IncrementScore(u: UserId, weight: int)
      requires u in accounts
      modifies this`accounts
      ensures accounts == old(accounts)[u := old(accounts[u]).(score := old(accounts[u]).score + weight)]
    {
      accounts := accounts[u := accounts[u].(score := accounts[u].score + weight)];
    }

    /** The update that sets the level and increments the version. */
    method SaveUser(u: UserId, score: int, level: Level)
      requires u in accounts
      modifies this`accounts
      ensures accounts == old(accounts)[u := Account(score, level, old(accounts[u]).version + 1, old(accounts[u]).flags)]
    {
      accounts := accounts[u := accounts[u].(score := score, level := level, version := accounts[u].version + 1)];
    }

    /** The insert fails as a whole when one of the keys exists. */
    method EnqueueMany(rows: seq<Event>) returns (ok: bool)
      modifies this`events
      ensures ok <==> Keys(rows) !! Keys(old(events))
      ensures events == if ok then old(events) + rows else old(events)
    {
      ok := Keys(rows) !! Keys(events);
      if ok { events := events + rows; }
    }

    method PutReport(rid: ReportId, report: Report)
      modifies this`reports
      ensures reports == old(reports)[rid := report]
    {
      reports := reports[rid := report];
    }

    /** Increment, read back, save: how the flag services keep the aggregate. */
    method AddToAggregate(u: UserId, weight: int)
      requires u in accounts
      modifies this`accounts
      ensures
        var a := old(accounts[u]);
        accounts == old(accounts)[u := Account(a.score + weight, LevelFromScore(c.th, a.score + weight), a.version + 1, a.flags)]
    {
      IncrementScore(u, weight);
      var afterScore := accounts[u].score;
      SaveUser(u, afterScore, LevelFromScore(c.th, afterScore));
    }

    /** Read all flags, reduce, save: how the admin services keep it. */
    method RecomputeUser(u: UserId)
      requires u in accounts
      modifies this`accounts
      ensures accounts == old(accounts)[u := Recomputed(c, old(accounts[u]), old(accounts[u]).flags)]
    {
      var flags := accounts[u].flags;
      var score := 0;
      for i := 0 to |flags|
        invariant score == Sum(flags[..i])
      {
        assert flags[..i + 1][..i] == flags[..i];
        score := score + Effective(flags[i]);
      }
      assert flags[..|flags|] == flags;
      SaveUser(u, score, LevelFromScore(c.th, score));
    }

    // ---------- flags and reports ----------

    method CreateFlag(u: UserId, f: Flag) returns (reply: Reply)
      modifies this
      ensures reply == if Serial(c, old(View()), Txn.CreateFlag(u, f)).Some? then Done else Conflict
      ensures View() == Outcome(c, old(View()), Txn.CreateFlag(u, f))
      ensures reply == Conflict ==> View() == old(View())
      ensures reply == Done ==>
                && Gains(c, old(View()), View(), u, f) && reports == old(reports)
                && events == old(events) + [Event(UserFlagged(f.id), Other), Announced(View(), u, UpdatedByFlag(u, f.id))]
    {
      var saved := View();
      UpsertUser(u);
      InsertFlagRow(u, f);
      AddToAggregate(u, f.weight);
      var row := accounts[u];
      assert accounts == saved.accounts[u := row] && row == WithFlag(c, AccountOf(saved, u), f);
      var ok := EnqueueMany([Event(UserFlagged(f.id), Other), UpdatedEvent(UpdatedByFlag(u, f.id), u, row)]);
      if !ok { Rollback(saved); }
      OutcomeIsWritten(c, saved, Txn.CreateFlag(u, f));
      MergeNothing(saved.reports);
      if ok { FlagLeaves(c, saved, u, f); }
      reply := if ok then Done else Conflict;
    }

    /** The transaction of an instant report. */
    method SaveInstantReport(u: UserId, rid: ReportId, f: Flag) returns (ok: bool)
      requires rid !in reports
      modifies this
      ensures ok <==> Serial(c, old(View()), InstantReport(u, rid, f)).Some?
      ensures View() == Outcome(c, old(View()), InstantReport(u, rid, f))
    {
      var saved := View();
      UpsertUser(u);
      PutReport(rid, Report(Accepted, None));
      InsertFlagRow(u, f);
      PutReport(rid, reports[rid].(flagId := Some(f.id)));
      assert reports == saved.reports[rid := Report(Accepted, Some(f.id))];
      AddToAggregate(u, f.weight);
      var row := accounts[u];
      assert accounts == saved.accounts[u := row] && row == WithFlag(c, AccountOf(saved, u), f);
      ok := EnqueueMany([Event(UserReported(rid), Other), UpdatedEvent(UpdatedByReport(u, rid, f.id), u, row)]);
      if !ok { Rollback(saved); }
      OutcomeIsWritten(c, saved, InstantReport(u, rid, f));
      MergeOne(saved.reports, rid, Put(Report(Accepted, Some(f.id))));
    }

    method CreateInstantReport(u: UserId, rid: ReportId, f: Flag) returns (reply: Reply)
      requires rid !in reports
      modifies this
      ensures reply == if Serial(c, old(View()), InstantReport(u, rid, f)).Some? then Done else Conflict
      ensures View() == Outcome(c, old(View()), InstantReport(u, rid, f))
      ensures reply == Conflict ==> View() == old(View())
      ensures reply == Done ==>
                && Gains(c, old(View()), View(), u, f)
                && reports == old(reports)[rid := Report(Accepted, Some(f.id))]
                && events == old(events) + [Event(UserReported(rid), Other),
                                            Announced(View(), u, UpdatedByReport(u, rid, f.id))]
    {
      ghost var saved := View();
      var ok := SaveInstantReport(u, rid, f);
      if ok { InstantReportLeaves(c, saved, u, rid, f); }
      reply := if ok then Done else Conflict;
    }

    /** The flag that an approval gives the reported user. */
    function ApprovalFlag(tiers: Tiers, severity: Level, fid: FlagId, now: int): Flag {
      var weight := TierWeight(tiers, severity);
      Flag(fid, weight, Some(weight), CommunityReport, now)
    }

    /** The transaction of an approval. */
    method SaveApproval(u: UserId, rid: ReportId, f: Flag, ticket: bool) returns (ok: bool)
      requires rid in reports && u in accounts
      modifies this
      ensures ok <==> Serial(c, old(View()), Txn.Approve(u, rid, f, ticket)).Some?
      ensures View() == Outcome(c, old(View()), Txn.Approve(u, rid, f, ticket))
    {
      var saved := View();
      InsertFlagRow(u, f);
      AddToAggregate(u, f.weight);
      PutReport(rid, reports[rid].(status := Accepted, flagId := Some(f.id)));
      var row := accounts[u];
      assert accounts == saved.accounts[u := row] && row == WithFlag(c, AccountOf(saved, u), f);
      var rows := [Event(ReportApproved(rid), Other), UpdatedEvent(UpdatedByApprove(u, rid, f.id), u, row)];
      if ticket { rows := rows + [Event(TicketResolved(rid, true), Other)]; }
      ok := EnqueueMany(rows);
      if !ok { Rollback(saved); }
      OutcomeIsWritten(c, saved, Txn.Approve(u, rid, f, ticket));
      MergeOne(saved.reports, rid, Put(Report(Accepted, Some(f.id))));
    }

    method Approve(u: UserId, rid: ReportId, tiers: Tiers, severity: Level, fid: FlagId, now: int, ticket: bool)
      returns (reply: Reply)
      requires rid in reports ==> u in accounts
      modifies this
      ensures
        var f := ApprovalFlag(tiers, severity, fid, now);
        var t := Txn.Approve(u, rid, f, ticket);
        if severity.Clean? then reply == BadRequest && View() == old(View())
        else if rid !in old(reports) then reply == NotFound && View() == old(View())
        else if old(reports)[rid].status != Pending || old(reports)[rid].flagId.Some? then
          reply == BadRequest && View() == old(View())
        else
          View() == Outcome(c, old(View()), t) && reply == if Serial(c, old(View()), t).Some? then Done else Conflict
      ensures reply == Conflict ==> View() == old(View())
      ensures
        var weight := match severity
                      case Suspicious => tiers.suspicious
                      case HighRisk => tiers.highRisk
                      case ConfirmedCheater => tiers.confirmed
                      case _ => tiers.watch;
        reply == Done ==>
          && Gains(c, old(View()), View(), u, Flag(fid, weight, Some(weight), CommunityReport, now))
          && reports == old(reports)[rid := Report(Accepted, Some(fid))]
          && events == old(events) + [Event(ReportApproved(rid), Other), Announced(View(), u, UpdatedByApprove(u, rid, fid))]
                       + if ticket then [Event(TicketResolved(rid, true), Other)] else []
    {
      if severity.Clean? { return BadRequest; }
      if rid !in reports { return NotFound; }
      if reports[rid].status != Pending || reports[rid].flagId.Some? { return BadRequest; }
      ghost var saved := View();
      var f := ApprovalFlag(tiers, severity, fid, now);
      var ok := SaveApproval(u, rid, f, ticket);
      if ok { ApprovalLeaves(c, saved, u, rid, f, ticket); }
      reply := if ok then Done else Conflict;
    }

    method Reject(u: UserId, rid: ReportId, ticket: bool) returns (reply: Reply)
      modifies this
      ensures
        var t := Txn.Reject(u, rid, ticket);
        if rid !in old(reports) then reply == NotFound && View() == old(View())
        else if old(reports)[rid].status != Pending then reply == BadRequest && View() == old(View())
        else
          View() == Outcome(c, old(View()), t) && reply == if Serial(c, old(View()), t).Some? then Done else Conflict
      ensures reply == Conflict ==> View() == old(View())
      ensures reply == Done ==>
                && accounts == old(accounts)
                && reports == old(reports)[rid := Report(Rejected, old(reports)[rid].flagId)]
                && events == old(events) + if ticket then [Event(TicketResolved(rid, false), Other)] else []
    {
      if rid !in reports { return NotFound; }
      if reports[rid].status != Pending { return BadRequest; }
      var saved := View();
      PutReport(rid, reports[rid].(status := Rejected));
      var ok := EnqueueMany(if ticket then [Event(TicketResolved(rid, false), Other)] else []);
      if !ok { Rollback(saved); }
      OutcomeIsWritten(c, saved, Txn.Reject(u, rid, ticket));
      MergeOne(saved.reports, rid, SetStatus(Rejected));
      reply := if ok then Done else Conflict;
    }

    // ---------- admin edits ----------

    method DeleteFlag(u: UserId, fid: FlagId) returns (reply: Reply)
      modifies this
      ensures
        var e := Edit.DeleteFlag(u, fid);
        var done := ApplyEdit(c, old(View()), e);
        View() == (if done.Some? then done.value else old(View()))
        && (reply == Done <==> done.Some?)
        && (reply == NotFound <==> u !in old(accounts) || FindFlag(old(accounts)[u].flags, fid).None?)
      ensures reply != Done ==> View() == old(View())
      ensures reply == Done ==>
                && u in old(accounts)
                && (exists i | 0 <= i < |old(accounts)[u].flags| ::
                      && old(accounts)[u].flags[i].id == fid
                      && Resummed(c, old(View()), View(), u, old(accounts)[u].flags[..i] + old(accounts)[u].flags[i + 1..]))
                && reports.Keys == old(reports).Keys
                && (forall rid | rid in reports ::
                      reports[rid] == Report(old(reports)[rid].status,
                                             if old(reports)[rid].flagId == Some(fid) then None else old(reports)[rid].flagId))
                && u in accounts
                && events == old(events) + [Event(FlagRemoved(fid), Other), Announced(View(), u, UpdatedByDelete(u, fid))]
    {
      if u !in accounts { return NotFound; }
      var i := FindFlag(accounts[u].flags, fid);
      if i.None? { return NotFound; }
      assert accounts[u].flags[i.value].id == fid;
      var saved := View();
      var flags := accounts[u].flags;
      accounts := accounts[u := accounts[u].(flags := flags[..i.value] + flags[i.value + 1..])];
      reports := map rid | rid in reports ::
        if reports[rid].flagId == Some(fid) then reports[rid].(flagId := None) else reports[rid];
      RecomputeUser(u);
      var row := accounts[u];
      var ok := EnqueueMany([Event(FlagRemoved(fid), Other), UpdatedEvent(UpdatedByDelete(u, fid), u, row)]);
      if !ok { Rollback(saved); }
      reply := if ok then Done else Conflict;
    }

    method UpdateFlagRow(u: UserId, i: nat, weight: Option<int>)
      requires u in accounts && i < |accounts[u].flags|
      modifies this`accounts
      ensures
        var a := old(accounts[u]);
        accounts == old(accounts)[u := a.(flags := a.flags[..i] + [Patched(a.flags[i], weight)] + a.flags[i + 1..])]
    {
      var flags := accounts[u].flags;
      if weight.Some? { flags := flags[i := flags[i].(weight := weight.value, effective := weight)]; }
      accounts := accounts[u := accounts[u].(flags := flags)];
      ghost var a := old(accounts[u]);
      assert flags == a.flags[..i] + [Patched(a.flags[i], weight)] + a.flags[i + 1..];
    }

    /** The transaction of an accepted patch. */
    method SavePatched(u: UserId, fid: FlagId, i: nat, weight: Option<int>) returns (ok: bool)
      requires u in accounts && FindFlag(accounts[u].flags, fid) == Some(i)
      modifies this
      ensures
        var done := ApplyEdit(c, old(View()), Edit.PatchFlag(u, fid, weight));
        View() == (if done.Some? then done.value else old(View())) && (ok <==> done.Some?)
    {
      var saved := View();
      UpdateFlagRow(u, i, weight);
      RecomputeUser(u);
      var row := accounts[u];
      assert accounts == saved.accounts[u := row];
      ok := EnqueueMany([UpdatedEvent(UpdatedByPatch(u, fid), u, row)]);
      if !ok { Rollback(saved); }
      PatchApplies(c, saved, u, fid, i, weight);
    }

    /** `newReason` tells whether a reason was given; reasons themselves are not followed. */
    method PatchFlag(u: UserId, fid: FlagId, newReason: bool, weight: Option<int>) returns (reply: Reply)
      modifies this
      ensures
        var done := ApplyEdit(c, old(View()), Edit.PatchFlag(u, fid, weight));
        if !newReason && weight.None? then reply == BadRequest && View() == old(View())
        else
          View() == (if done.Some? then done.value else old(View()))
          && (reply == Done <==> done.Some?)
          && (reply == NotFound <==> u !in old(accounts) || FindFlag(old(accounts)[u].flags, fid).None?)
      ensures reply != Done ==> View() == old(View())
      ensures reply == Done ==>
                && u in old(accounts) && reports == old(reports)
                && (exists i | 0 <= i < |old(accounts)[u].flags| ::
                      var f := old(accounts)[u].flags[i];
                      var patched := if weight.Some? then f.(weight := weight.value, effective := weight) else f;
                      f.id == fid && Resummed(c, old(View()), View(), u, old(accounts)[u].flags[i := patched]))
                && u in accounts && events == old(events) + [Announced(View(), u, UpdatedByPatch(u, fid))]
    {
      if !newReason && weight.None? { return BadRequest; }
      if u !in accounts { return NotFound; }
      var i := FindFlag(accounts[u].flags, fid);
      if i.None? { return NotFound; }
      ghost var flags := accounts[u].flags;
      assert flags[i.value].id == fid;
      assert flags[..i.value] + [Patched(flags[i.value], weight)] + flags[i.value + 1..] == flags[i.value := Patched(flags[i.value], weight)];
      var ok := SavePatched(u, fid, i.value, weight);
      reply := if ok then Done else Conflict;
    }

    // ---------- decay ----------

    /** The sum and the new weights, in one loop over the user's flags. */
    method WeighFlags(flags: seq<Flag>, now: int) returns (sum: int, weights: seq<int>)
      ensures sum == Sum(DecayAll(c, flags, now))
      ensures |weights| == |flags| && forall i | 0 <= i < |flags| :: weights[i] == EffectiveWeightForFlag(c, flags[i], now)
    {
      sum, weights := 0, [];
      ghost var decayed := DecayAll(c, flags, now);
      for i := 0 to |flags|
        invariant sum == Sum(decayed[..i])
        invariant |weights| == i && forall k | 0 <= k < i :: weights[k] == EffectiveWeightForFlag(c, flags[k], now)
      {
        var ew := EffectiveWeightForFlag(c, flags[i], now);
        weights := weights + [ew];
        assert decayed[..i + 1][..i] == decayed[..i];
        sum := sum + ew;
      }
      assert decayed[..|flags|] == decayed;
    }

    method SomeWeightChanged(flags: seq<Flag>, weights: seq<int>, ghost now: int) returns (changed: bool)
      requires |weights| == |flags| && forall i | 0 <= i < |flags| :: weights[i] == EffectiveWeightForFlag(c, flags[i], now)
      ensures changed <==> AnyChanged(c, flags, now)
    {
      changed := false;
      for i := 0 to |flags|
        invariant changed <==> exists k | 0 <= k < i :: Effective(flags[k]) != EffectiveWeightForFlag(c, flags[k], now)
      {
        if Effective(flags[i]) != weights[i] { changed := true; }
      }
    }

    /** One update statement per flag. */
    method WriteWeights(u: UserId, weights: seq<int>, ghost now: int)
      requires u in accounts && |weights| == |accounts[u].flags|
      requires forall i | 0 <= i < |weights| :: weights[i] == EffectiveWeightForFlag(c, accounts[u].flags[i], now)
      modifies this`accounts
      ensures accounts == old(accounts)[u := old(accounts[u]).(flags := DecayAll(c, old(accounts[u]).flags, now))]
    {
      ghost var flags := accounts[u].flags;
      for i := 0 to |weights|
        invariant u in accounts && |accounts[u].flags| == |flags|
        invariant accounts == old(accounts)[u := old(accounts[u]).(flags := accounts[u].flags)]
        invariant forall k | 0 <= k < i :: accounts[u].flags[k] == DecayFlag(c, flags[k], now)
        invariant forall k | i <= k < |flags| :: accounts[u].flags[k] == flags[k]
      {
        var row := accounts[u];
        accounts := accounts[u := row.(flags := row.flags[i := row.flags[i].(effective := Some(weights[i]))])];
      }
      assert accounts[u].flags == DecayAll(c, flags, now);
    }

    /** The transaction of the decay job for one user. */
    method DecayInTransaction(u: UserId, now: int) returns (reply: Reply, didMutate: bool)
      modifies this
      ensures accounts.Keys == old(accounts.Keys)
      ensures u !in old(accounts) ==> reply == Done && !didMutate && View() == old(View())
      ensures u in old(accounts) ==>
                && View() == Outcome(c, old(View()), Txn.DecayUser(u, now))
                && reply == (if Serial(c, old(View()), Txn.DecayUser(u, now)).Some? then Done else Conflict)
                && (didMutate <==> reply.Done? && !DecaySkips(c, old(accounts)[u], now))
      ensures !didMutate ==> View() == old(View())
    {
      if u !in accounts || accounts[u].flags == [] {
        if u in accounts { SkippedDecay(u, now); }
        return Done, false;
      }
      var user := accounts[u];
      var sum, weights := WeighFlags(user.flags, now);
      var nextLevel := LevelFromScore(c.th, sum);
      var changed := SomeWeightChanged(user.flags, weights, now);
      if sum == user.score && !changed && nextLevel == user.level {
        SkippedDecay(u, now);
        return Done, false;
      }
      reply := SaveDecayed(u, sum, weights, now);
      didMutate := reply.Done?;
    }

    /** One user's turn in the decay job. */
    method DecayUser(u: UserId, now: int) returns (reply: Reply, didMutate: bool)
      modifies this
      ensures accounts.Keys == old(accounts.Keys)
      ensures u !in old(accounts) ==> reply == Done && !didMutate && View() == old(View())
      ensures u in old(accounts) ==>
                && View() == Outcome(c, old(View()), Txn.DecayUser(u, now))
                && reply == (if Serial(c, old(View()), Txn.DecayUser(u, now)).Some? then Done else Conflict)
                && (didMutate <==> reply.Done? && !DecaySkips(c, old(accounts)[u], now))
      ensures !didMutate ==> View() == old(View())
      ensures u in old(accounts) && old(accounts)[u].flags != [] && reply == Done ==>
                && DecayWritten(c, old(View()), View(), u, now)
                && (didMutate <==> DecayNeeded(c, old(accounts)[u], now))
                && events == old(events) + if didMutate then [Announced(View(), u, UpdatedByDecay(u, now))] else []
    {
      ghost var saved := View();
      reply, didMutate := DecayInTransaction(u, now);
      if u in saved.accounts && saved.accounts[u].flags != [] && reply == Done { DecayLeaves(c, saved, u, now); }
    }

    lemma SkippedDecay(u: UserId, now: int)
      requires u in accounts && DecaySkips(c, accounts[u], now)
      ensures Outcome(c, View(), Txn.DecayUser(u, now)) == View()
      ensures Serial(c, View(), Txn.DecayUser(u, now)).Some?
    {
      OutcomeIsWritten(c, View(), Txn.DecayUser(u, now));
      MergeNothing(reports);
    }

    /** The statements after the comparison, when something is to be written. */
    method SaveDecayed(u: UserId, sum: int, weights: seq<int>, now: int) returns (reply: Reply)
      requires u in accounts && |weights| == |accounts[u].flags| && !DecaySkips(c, accounts[u], now)
      requires forall i | 0 <= i < |weights| :: weights[i] == EffectiveWeightForFlag(c, accounts[u].flags[i], now)
      requires sum == Sum(DecayAll(c, accounts[u].flags, now))
      modifies this
      ensures accounts.Keys == old(accounts.Keys)
      ensures View() == Outcome(c, old(View()), Txn.DecayUser(u, now))
      ensures reply == if Serial(c, old(View()), Txn.DecayUser(u, now)).Some? then Done else Conflict
    {
      var saved := View();
      WriteWeights(u, weights, now);
      SaveUser(u, sum, LevelFromScore(c.th, sum));
      var row := accounts[u];
      assert accounts == saved.accounts[u := row] && row == Decayed(c, saved.accounts[u], now);
      var ok := EnqueueMany([UpdatedEvent(UpdatedByDecay(u, now), u, row)]);
      if !ok { Rollback(saved); }
      OutcomeIsWritten(c, saved, Txn.DecayUser(u, now));
      MergeNothing(saved.reports);
      reply := if ok then Done else Conflict;
    }

    /** SELECT DISTINCT user_id FROM flags. */
    method UsersWithFlags() returns (users: seq<UserId>)
      ensures Distinct(users) && forall u :: u in users <==> u in accounts && accounts[u].flags != []
    {
      users := [];
      var rest := set u | u in accounts && accounts[u].flags != [];
      while rest != {}
        invariant Distinct(users) && forall u | u in users :: u !in rest
        invariant forall u :: u in users || u in rest <==> u in accounts && accounts[u].flags != []
      {
        var u :| u in rest;
        users, rest := users + [u], rest - {u};
      }
    }

    lemma JobIsDone(before: Db, users: seq<UserId>, evicted: seq<UserId>, now: int)
      requires Distinct(users) && KeysFree(before, users, now)
      requires forall u :: u in users <==> u in before.accounts && before.accounts[u].flags != []
      requires forall u :: u in evicted <==> u in users && !DecaySkips(c, before.accounts[u], now)
      ensures JobDone(c, before, DecayPass(c, before, users, now), evicted, now)
    {
      PassAccounts(c, before, users, now);
      forall u | u in users
        ensures DecaySkips(c, before.accounts[u], now) <==> !DecayNeeded(c, before.accounts[u], now)
        ensures DecayedRow(c, before.accounts[u], ResultAccount(c, Txn.DecayUser(u, now), before.accounts[u]), now)
      {
        RowDecays(c, u, before.accounts[u], now);
      }
    }

    /**
     The job: one transaction per user, then that user's cache keys.  A conflict
     or a failed cache delete ends it, with the users before it already decayed.
     */
    method RunDecayJob(now: int) returns (reply: Reply, evicted: seq<UserId>, ghost users: seq<UserId>, ghost done: nat)
      modifies this
      ensures Distinct(users) && forall u :: u in users <==> u in old(accounts) && old(accounts)[u].flags != []
      ensures done <= |users| && View() == DecayPass(c, old(View()), users[..done], now)
      ensures reply.Done? ==> done == |users|
      ensures KeysFree(old(View()), users, now) ==>
                reply != Conflict && (reply.Done? ==> JobDone(c, old(View()), View(), evicted, now))
    {
      ghost var before := View();
      var todo := UsersWithFlags();
      users, done, evicted := todo, 0, [];
      for i := 0 to |todo|
        invariant accounts.Keys == before.accounts.Keys
        invariant done == i && View() == DecayPass(c, before, todo[..i], now)
        invariant KeysFree(before, todo, now) ==>
                    forall u :: u in evicted <==> u in todo[..i] && !DecaySkips(c, before.accounts[u], now)
      {
        if KeysFree(before, todo, now) { UntouchedBefore(c, before, todo, i, now); }
        assert todo[..i + 1][..i] == todo[..i];
        var didMutate;
        reply, didMutate := DecayUser(todo[i], now);
        done := i + 1;
        if reply != Done { return; }
        if didMutate {
          var deleted: bool := *;
          if !deleted { return CacheFailed, evicted, users, done; }
          evicted := evicted + [todo[i]];
        }
      }
      assert todo[..|todo|] == todo;
      if KeysFree(before, todo, now) { JobIsDone(before, todo, evicted, now); }
      reply := Done;
    }

    // ---------- the consistency check ----------

    /** `validate` without its cache part: true, true when it has nothing to report. */
    method Validate(u: UserId) returns (scoreOk: bool, levelOk: bool)
      ensures u !in accounts ==> scoreOk && levelOk
      ensures u in accounts ==>
                && (scoreOk <==> accounts[u].score == Sum(accounts[u].flags))
                && (levelOk <==> accounts[u].level == LevelFromScore(c.th, Sum(accounts[u].flags)))
      ensures DbOk(c, View()) ==> scoreOk && levelOk
    {
      if u !in accounts { return true, true; }
      var user := accounts[u];
      var expected := 0;
      for i := 0 to |user.flags|
        invariant expected == Sum(user.flags[..i])
      {
        assert user.flags[..i + 1][..i] == user.flags[..i];
        expected := expected + Effective(user.flags[i]);
      }
      assert user.flags[..|user.flags|] == user.flags;
      scoreOk := user.score == expected;
      levelOk := user.level == LevelFromScore(c.th, expected);
    }
  }
}
