/**
 Building runs: a transaction that is alone runs to its commit, whatever the
 database.  With it a run in which a decay pass raises a flag.
 */
module ReputationPaths {
  import opened Options
  import opened FlagPolicy
  import opened Decay
  import opened Reputation
  import opened ReputationFacts
  import opened ReputationTx
  import ReputationRuns

  // ---------- paths ----------

  /** Steps from any state. */
  ghost predicate Path(c: Settings, states: seq<Sys>, actions: seq<Action>) {
    && |states| == |actions| + 1
    && forall i | 0 <= i < |actions| :: StepAt(c, states, actions, i)
  }

  lemma ExtendPath(c: Settings, states: seq<Sys>, actions: seq<Action>, a: Action)
    returns (states': seq<Sys>, actions': seq<Action>, s: Sys)
    requires Path(c, states, actions) && Enabled(c, states[|actions|], a) && !a.Admin?
    ensures s == Apply(c, states[|actions|], a) && states' == states + [s] && actions' == actions + [a]
    ensures Path(c, states', actions')
  {
    s := Apply(c, states[|actions|], a);
    states', actions' := states + [s], actions + [a];
    forall i | 0 <= i < |actions'| ensures StepAt(c, states', actions', i) {
      if i < |actions| { assert StepAt(c, states, actions, i); }
    }
  }

  lemma Join(c: Settings, states: seq<Sys>, actions: seq<Action>, more: seq<Sys>, steps: seq<Action>)
    requires Path(c, states, actions) && Path(c, more, steps) && more[0] == states[|actions|]
    ensures Path(c, states + more[1..], actions + steps)
  {
    var all, acts := states + more[1..], actions + steps;
    forall i | 0 <= i < |acts| ensures StepAt(c, all, acts, i) {
      if i < |actions| { assert StepAt(c, states, actions, i); }
      else {
        assert StepAt(c, more, steps, i - |actions|);
        assert all[i] == more[i - |actions|] && all[i + 1] == more[i - |actions| + 1];
      }
    }
  }

  // ---------- one transaction, with nothing else open ----------

  /** On this path nothing but transaction `t` is ever open, and nothing commits before the last step. */
  ghost predicate OnlyOpen(states: seq<Sys>, actions: seq<Action>, t: Txn) {
    && (forall i, id | 0 <= i < |states| && id in states[i].open_ :: states[i].open_[id].txn == t)
    && (forall i | 0 <= i < |actions| :: !actions[i].Admin?)
  }

  /** Only `t` is open; it has executed `n` statements. */
  ghost predicate Executing(c: Settings, s: Sys, id: TxId, t: Txn, n: nat) {
    && n <= |Program(t)|
    && s.open_ == map[id := Running(t, n, RunStmts(c, Program(t)[..n], InitWork(t.u, StartOf(s.db, t))))]
  }

  lemma {:induction false} KeysGrow(c: Settings, stmts: seq<Stmt>, k: nat, wk: Work)
    requires k <= |stmts|
    ensures Keys(RunStmts(c, stmts[..k], wk).events) <= Keys(RunStmts(c, stmts, wk).events)
  {
    if k < |stmts| {
      var n := |stmts| - 1;
      KeysGrow(c, stmts[..n], k, wk);
      assert stmts[..n][..k] == stmts[..k];
      DoKeys(c, stmts[n], RunStmts(c, stmts[..n], wk));
    } else {
      assert stmts[..k] == stmts;
    }
  }

  /** No statement of a transaction whose keys are free meets a taken one. */
  lemma NoViolation(c: Settings, s: Sys, id: TxId, t: Txn, n: nat)
    requires Executing(c, s, id, t, n) && n < |Program(t)| && Serial(c, s.db, t).Some?
    ensures !Violates(s, s.open_[id])
  {
    var wk := InitWork(t.u, StartOf(s.db, t));
    RunStep(c, Program(t), n, wk);
    DoKeys(c, Program(t)[n], RunStmts(c, Program(t)[..n], wk));
    KeysGrow(c, Program(t), n + 1, wk);
  }

  lemma {:induction false} StatementsRun(c: Settings, states: seq<Sys>, actions: seq<Action>, id: TxId, t: Txn, n: nat)
    returns (states': seq<Sys>, actions': seq<Action>, s: Sys)
    requires Path(c, states, actions) && Executing(c, states[|actions|], id, t, n) && OnlyOpen(states, actions, t)
    requires Serial(c, states[|actions|].db, t).Some?
    ensures Path(c, states', actions') && s == states'[|actions'|] && OnlyOpen(states', actions', t)
    ensures states'[0] == states[0] && Executing(c, s, id, t, |Program(t)|)
    ensures s == states[|actions|].(open_ := s.open_)
    decreases |Program(t)| - n
  {
    s := states[|actions|];
    if n == |Program(t)| {
      states', actions' := states, actions;
    } else {
      NoViolation(c, s, id, t, n);
      RunStep(c, Program(t), n, InitWork(t.u, StartOf(s.db, t)));
      states', actions', s := ExtendPath(c, states, actions, Execute(id));
      states', actions', s := StatementsRun(c, states', actions', id, t, n + 1);
    }
  }

  lemma BeginAlone(c: Settings, s: Sys, id: TxId, t: Txn) returns (states: seq<Sys>, actions: seq<Action>)
    requires s.open_ == map[] && Enabled(c, s, Begin(id, t))
    ensures Path(c, states, actions) && states[0] == s && OnlyOpen(states, actions, t)
    ensures Executing(c, states[|actions|], id, t, 0)
    ensures states[|actions|].db == s.db
    ensures states[|actions|].used == s.used + if FlagOf(t).Some? then {FlagOf(t).value} else {}
  {
    assert Program(t)[..0] == [];
    var s';
    states, actions, s' := ExtendPath(c, [s], [], Begin(id, t));
    if LocksUser(t) {
      states, actions, s' := ExtendPath(c, states, actions, Lock(id));
    }
  }

  /**
   The converse of `CommitIsSerial`: a transaction that passes its check and whose
   keys are free does commit, when nothing else is open, with its serial effect.
   */
  lemma RunsAlone(c: Settings, s: Sys, id: TxId, t: Txn) returns (states: seq<Sys>, actions: seq<Action>)
    requires s.open_ == map[] && Enabled(c, s, Begin(id, t)) && Serial(c, s.db, t).Some?
    ensures Path(c, states, actions) && states[0] == s && OnlyOpen(states, actions, t)
    ensures states[|actions|]
         == Sys(Serial(c, s.db, t).value, map[], s.used + if FlagOf(t).Some? then {FlagOf(t).value} else {})
  {
    var s';
    states, actions := BeginAlone(c, s, id, t);
    states, actions, s' := StatementsRun(c, states, actions, id, t, 0);
    assert Program(t)[..|Program(t)|] == Program(t);
    states, actions, s' := ExtendPath(c, states, actions, Commit(id));
  }

  /** So a flag of any weight is created for any user, as long as its keys are free. */
  lemma FlagIsCreated(c: Settings, s: Sys, u: UserId, f: Flag) returns (states: seq<Sys>, actions: seq<Action>)
    requires s.open_ == map[] && f.weight >= 0 && f.effective == Some(f.weight) && f.id !in s.used
    requires Keys(s.db.events) !! {UserFlagged(f.id), UpdatedByFlag(u, f.id)}
    ensures Path(c, states, actions) && states[0] == s && OnlyOpen(states, actions, Txn.CreateFlag(u, f))
    ensures
      var t := states[|actions|];
      && t.open_ == map[] && t.used == s.used + {f.id}
      && t.db.accounts == s.db.accounts[u := WithFlag(c, AccountOf(s.db, u), f)]
      && Keys(t.db.events) == Keys(s.db.events) + {UserFlagged(f.id), UpdatedByFlag(u, f.id)}
  {
    var t := Txn.CreateFlag(u, f);
    SerialEffect(c, s.db, t);
    var es := ResultEvents(c, t, AccountOf(s.db, u));
    assert forall e :: e in es <==> e == es[0] || e == es[1];
    assert Keys(es) == {es[0].key, es[1].key};
    ConcatKeys(s.db.events, es);
    states, actions := RunsAlone(c, s, 0, t);
  }

  // ---------- raising ----------

  /** Enough whole milliseconds for one half-life of the flag's source. */
  function HalfLifeMs(c: Settings, source: Source): int
    requires c.halfLifeDays > 0.0 && c.mult(source) > 0.0
  {
    (DAY_MS * (c.halfLifeDays / c.mult(source))).Floor + 1
  }

  lemma ExponentFarAhead(c: Settings, f: Flag, now: int)
    requires c.halfLifeDays > 0.0 && c.mult(f.source) > 0.0 && f.createdAt - now >= HalfLifeMs(c, f.source)
    ensures Exponent(c, f, now) <= -1.0
  {
    var h, m := c.halfLifeDays, c.mult(f.source);
    var q := h / m;
    assert q * m == h;
    var days := (now - f.createdAt) as real / DAY_MS;
    assert (f.createdAt - now) as real >= DAY_MS * q;
    assert (now - f.createdAt) as real <= -(DAY_MS * q);
    assert days <= -q;
    ScaledMonotone(m, days, -q);
    assert days * m <= -h;
    assert (-h) / h == -1.0;
  }

  lemma NoExponent(c: Settings, f: Flag, now: int)
    requires c.halfLifeDays > 0.0 && c.mult(f.source) == 0.0
    ensures Exponent(c, f, now) == 0.0
  {
    assert (now - f.createdAt) as real / DAY_MS * 0.0 == 0.0;
  }

  /** Whatever the half-life, a flag can be dated ahead exactly when it weighs something and decays at all. */
  lemma CanBeAheadExactlyWhen(c: Settings, f: Flag, now: int)
    requires ValidSettings(c) && c.pow(-1.0) == 2.0 && f.weight >= 0
    ensures (exists t :: DatedAhead(c, f.(createdAt := t), now))
       <==> f.weight >= 1 && f.source != AdminOverride && c.halfLifeDays > 0.0 && c.mult(f.source) > 0.0
  {
    if f.weight >= 1 && f.source != AdminOverride && c.halfLifeDays > 0.0 && c.mult(f.source) > 0.0 {
      var g := f.(createdAt := now + HalfLifeMs(c, f.source));
      ExponentFarAhead(c, g, now);
      assert DatedAhead(c, f.(createdAt := g.createdAt), now);
    } else {
      forall t ensures !DatedAhead(c, f.(createdAt := t), now) {
        if f.source != AdminOverride && c.halfLifeDays > 0.0 && c.mult(f.source) <= 0.0 {
          NoExponent(c, f.(createdAt := t), now);
        }
      }
    }
  }

  lemma OneFlagSum(f: Flag)
    ensures Sum([f]) == Effective(f)
  {
    assert [f][..0] == [];
  }

  lemma PassRaisesOnlyFlag(c: Settings, a: Account, u: UserId, f: Flag, now: int)
    requires ValidSettings(c) && f.weight >= 0 && f.effective == Some(f.weight) && DatedAhead(c, f, now)
    requires a == WithFlag(c, FRESH, f)
    ensures
      var b := ResultAccount(c, DecayUser(u, now), a);
      b.flags == [DecayFlag(c, f, now)] && b.score == Effective(DecayFlag(c, f, now)) > a.score == f.weight
    ensures Keys(ResultEvents(c, DecayUser(u, now), a)) <= {UpdatedByDecay(u, now)}
  {
    ExceedsExactlyWhenAhead(c, f, now);
    assert a.flags == [f];
    var flags := DecayAll(c, a.flags, now);
    assert flags == [DecayFlag(c, f, now)];
    assert Effective(a.flags[0]) != EffectiveWeightForFlag(c, a.flags[0], now);
    OneFlagSum(flags[0]);
  }

  /** A pass over a user whose only flag is dated ahead. */
  lemma PassRuns(c: Settings, s: Sys, u: UserId, f: Flag, now: int) returns (states: seq<Sys>, actions: seq<Action>)
    requires ValidSettings(c) && f.weight >= 0 && f.effective == Some(f.weight) && DatedAhead(c, f, now)
    requires s.open_ == map[] && u in s.db.accounts && s.db.accounts[u] == WithFlag(c, FRESH, f)
    requires UpdatedByDecay(u, now) !in Keys(s.db.events)
    ensures Path(c, states, actions) && states[0] == s && OnlyOpen(states, actions, DecayUser(u, now))
    ensures u in states[|actions|].db.accounts
    ensures states[|actions|].db.accounts[u] == ResultAccount(c, DecayUser(u, now), s.db.accounts[u])
  {
    PassRaisesOnlyFlag(c, s.db.accounts[u], u, f, now);
    SerialEffect(c, s.db, DecayUser(u, now));
    states, actions := RunsAlone(c, s, 0, DecayUser(u, now));
  }

  lemma JoinedIsClocked(c: Settings, states: seq<Sys>, actions: seq<Action>, more: seq<Sys>, steps: seq<Action>,
                        t: Txn, t': Txn)
    requires ValidSettings(c) && PositiveThresholds(c.th) && !t.DecayUser?
    requires Path(c, states, actions) && Path(c, more, steps) && more[0] == states[|actions|] && Initial(states[0])
    requires OnlyOpen(states, actions, t) && OnlyOpen(more, steps, t')
    ensures ReputationRuns.ClockedRun(c, states + more[1..], actions + steps)
  {
    Join(c, states, actions, more, steps);
    var all, acts := states + more[1..], actions + steps;
    forall i, now | 0 <= i < |acts| && ReputationRuns.DecaysAt(c, all, acts, i, now)
      ensures t'.DecayUser? && now == t'.now
    {
      if i >= |actions| { assert all[i] == more[i - |actions|]; }
    }
  }

  /** Every flag dated ahead is raised in some run: it is created, and a pass lifts its weight and the user's score. */
  lemma AheadFlagIsRaised(c: Settings, u: UserId, f: Flag, now: int)
    returns (states: seq<Sys>, actions: seq<Action>, k: nat)
    requires ValidSettings(c) && PositiveThresholds(c.th)
    requires f.weight >= 0 && f.effective == Some(f.weight) && DatedAhead(c, f, now)
    ensures ReputationRuns.ClockedRun(c, states, actions) && k < |states|
    ensures u in states[k].db.accounts && u in states[|actions|].db.accounts
    ensures
      var a, b := states[k].db.accounts[u], states[|actions|].db.accounts[u];
      && a.flags == [f] && a.score == f.weight
      && |b.flags| == 1 && b.flags[0].id == f.id && Effective(b.flags[0]) > f.weight && b.score > f.weight
  {
    var first, begun := FlagIsCreated(c, Sys(Db(map[], map[], []), map[], {}), u, f);
    k := |begun|;
    var second, steps := PassRuns(c, first[k], u, f, now);
    PassRaisesOnlyFlag(c, first[k].db.accounts[u], u, f, now);
    JoinedIsClocked(c, first, begun, second, steps, Txn.CreateFlag(u, f), DecayUser(u, now));
    states, actions := first + second[1..], begun + steps;
    assert states[|actions|] == second[|steps|];
  }
}
