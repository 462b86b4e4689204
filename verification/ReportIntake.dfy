/**
 Report intake: the dedupe lookup, the daily counter, the cooldown and the
 insert, each a step of its own, with any number of attempts in flight.
 */
module ReportIntake {
  import opened Options

  type AttemptId = nat

  /** Times are in milliseconds. */
  datatype Config = Config(windowMs: nat, cooldownMs: nat, cap: nat)

  // ---------- the dedupe key ----------

  /** Discord ids are digit strings. */
  predicate DigitsOnly(s: string) {
    forall i | 0 <= i < |s| :: '0' <= s[i] <= '9'
  }

  function GuildPart(guild: Option<string>): string {
    if guild.Some? then guild.value else ""
  }

  /** The string that is hashed; `norm` is the trimmed, lower-cased, truncated reason. */
  function RawKey(reporter: string, target: string, guild: Option<string>, norm: string): string {
    reporter + "|" + target + "|" + GuildPart(guild) + "|" + norm
  }

  lemma SplitAtBar(a: string, b: string, x: string, y: string)
    requires DigitsOnly(a) && DigitsOnly(b) && a + "|" + x == b + "|" + y
    ensures a == b && x == y
  {
    var s := a + "|" + x;
    assert s[|a|] == '|' && s[|b|] == (b + "|" + y)[|b|] == '|';
    assert forall k | 0 <= k < |a| :: s[k] == a[k] != '|';
    assert forall k | 0 <= k < |b| :: s[k] == (b + "|" + y)[k] == b[k] != '|';
    assert a == s[..|a|] && b == s[..|b|];
    assert x == s[|a| + 1..] && y == s[|b| + 1..];
  }

  predicate Ids(reporter: string, target: string, guild: Option<string>) {
    DigitsOnly(reporter) && DigitsOnly(target)
    && (guild.Some? ==> guild.value != "" && DigitsOnly(guild.value))
  }

  /** For digit ids the key determines who reported whom, where, and why. */
  lemma RawKeyInjective(r0: string, t0: string, g0: Option<string>, n0: string,
                        r1: string, t1: string, g1: Option<string>, n1: string)
    requires Ids(r0, t0, g0) && Ids(r1, t1, g1)
    requires RawKey(r0, t0, g0, n0) == RawKey(r1, t1, g1, n1)
    ensures r0 == r1 && t0 == t1 && g0 == g1 && n0 == n1
  {
    var rest0, rest1 := GuildPart(g0) + "|" + n0, GuildPart(g1) + "|" + n1;
    assert RawKey(r0, t0, g0, n0) == r0 + "|" + (t0 + "|" + rest0);
    assert RawKey(r1, t1, g1, n1) == r1 + "|" + (t1 + "|" + rest1);
    SplitAtBar(r0, r1, t0 + "|" + rest0, t1 + "|" + rest1);
    SplitAtBar(t0, t1, rest0, rest1);
    SplitAtBar(GuildPart(g0), GuildPart(g1), n0, n1);
  }

  // ---------- the state ----------

  /** One cooldown key per reporter and guild; None is the key for reports outside guilds. */
  datatype Slot = Slot(reporter: string, guild: Option<string>)

  datatype Cool = Cool(owner: AttemptId, expires: int)

  datatype Pc =
    | AtLookup
    | AtIncr(seen: nat)                     // `seen` reports were visible to the lookup
    | AtRefuse
    | AtCooldown(seen: nat)
    | AtInsert(seen: nat, setAt: int)
    | AtCommit(seen: nat, setAt: int, createdAt: int)
    | AtCacheWrite(seen: nat, setAt: int)   // instant reports only, after the commit
    | AtRollbackDel(seen: nat, setAt: int)
    | AtRollbackDecr

  /** `instant` tells a trusted reporter's report from a community report. */
  datatype Attempt = Attempt(reporter: string, target: string, guild: Option<string>, norm: string,
                             instant: bool, start: int, pc: Pc)

  /** A committed report, with the times that the argument needs; the slot holds its reporter and guild. */
  datatype Row = Row(key: string, slot: Slot, target: string, norm: string, owner: AttemptId, start: int,
                     setAt: int, createdAt: int, committedAt: int)

  /** The same reporter, target, guild and normalised reason. */
  predicate SameReport(a: Row, b: Row) {
    a.slot.reporter == b.slot.reporter && a.target == b.target && a.slot.guild == b.slot.guild && a.norm == b.norm
  }

  /**
   `counter` is the day key of each reporter.  `kept` counts its attempts that
   ended with a committed report, `lost` and `leaked` those that crashed while
   counted, after and before being admitted.
   */
  datatype World = World(now: int, attempts: map<AttemptId, Attempt>, used: set<AttemptId>, reports: seq<Row>,
                         counter: map<string, int>, cooldown: map<Slot, Cool>,
                         kept: map<string, int>, lost: map<string, int>, leaked: map<string, int>)

  datatype Outcome = Acked | AckLost | NotDone

  datatype Action =
    | Tick(now: int)
    | Start(a: AttemptId, reporter: string, target: string, guild: Option<string>, norm: string, instant: bool)
    | Lookup(a: AttemptId)
    | Incr(a: AttemptId)
    | Refuse(a: AttemptId)
    | SetCooldown(a: AttemptId)
    | Insert(a: AttemptId)
    | CommitTx(a: AttemptId, outcome: Outcome)
    | CacheWrite(a: AttemptId, ok: bool)
    | RollbackDel(a: AttemptId)
    | RollbackDecr(a: AttemptId)
    | Crash(a: AttemptId)

  ghost predicate Initial(s: World) {
    s.attempts == map[] && s.used == {} && s.reports == [] && s.counter == map[] && s.cooldown == map[]
    && s.kept == map[] && s.lost == map[] && s.leaked == map[]
  }

  function Get(m: map<string, int>, k: string): int {
    if k in m then m[k] else 0
  }

  function Add(m: map<string, int>, k: string, d: int): map<string, int> {
    m[k := Get(m, k) + d]
  }

  function SlotOf(at: Attempt): Slot {
    Slot(at.reporter, at.guild)
  }

  function KeyOf(at: Attempt): string {
    RawKey(at.reporter, at.target, at.guild, at.norm)
  }

  predicate Duplicate(c: Config, s: World, at: Attempt) {
    exists i | 0 <= i < |s.reports| ::
      s.reports[i].key == KeyOf(at) && s.reports[i].createdAt >= at.start - c.windowMs
  }

  /** Redis drops a key once the clock has passed its expiry. */
  predicate CooldownLive(s: World, slot: Slot) {
    slot in s.cooldown && s.now <= s.cooldown[slot].expires
  }

  predicate Enabled(c: Config, s: World, a: Action) {
    match a
    case Tick(now) => s.now <= now
    case Start(x, r, t, g, _, _) => x !in s.used && Ids(r, t, g)
    case Lookup(x) => x in s.attempts && s.attempts[x].pc.AtLookup?
    case Incr(x) => x in s.attempts && s.attempts[x].pc.AtIncr?
    case Refuse(x) => x in s.attempts && s.attempts[x].pc.AtRefuse?
    case SetCooldown(x) => x in s.attempts && s.attempts[x].pc.AtCooldown?
    case Insert(x) => x in s.attempts && s.attempts[x].pc.AtInsert?
    case CommitTx(x, _) => x in s.attempts && s.attempts[x].pc.AtCommit?
    case CacheWrite(x, _) => x in s.attempts && s.attempts[x].pc.AtCacheWrite?
    case RollbackDel(x) => x in s.attempts && s.attempts[x].pc.AtRollbackDel?
    case RollbackDecr(x) => x in s.attempts && s.attempts[x].pc.AtRollbackDecr?
    case Crash(x) => x in s.attempts
  }

  function Goto(s: World, x: AttemptId, pc: Pc): World
    requires x in s.attempts
  {
    s.(attempts := s.attempts[x := s.attempts[x].(pc := pc)])
  }

  function End(s: World, x: AttemptId): World {
    s.(attempts := s.attempts - {x})
  }

  /** The attempt has incremented the day key and not decremented it. */
  predicate Counted(pc: Pc) {
    !pc.AtLookup? && !pc.AtIncr?
  }

  /** The attempt was found within the cap and still counts. */
  predicate Admitted(pc: Pc) {
    Counted(pc) && !pc.AtRefuse?
  }

  /** The books after an attempt's process died: its increment of the day key stays. */
  function Abandoned(s: World, at: Attempt): World {
    s.(leaked := if at.pc.AtRefuse? then Add(s.leaked, at.reporter, 1) else s.leaked,
       kept := if at.pc.AtCacheWrite? then Add(s.kept, at.reporter, 1) else s.kept,
       lost := if Admitted(at.pc) && !at.pc.AtCacheWrite? then Add(s.lost, at.reporter, 1) else s.lost)
  }

  function Committed(at: Attempt, x: AttemptId, now: int): Row
    requires at.pc.AtCommit?
  {
    Row(KeyOf(at), SlotOf(at), at.target, at.norm, x, at.start, at.pc.setAt, at.pc.createdAt, now)
  }

  function Apply(c: Config, s: World, a: Action): World
    requires Enabled(c, s, a)
  {
    match a
    case Tick(now) => s.(now := now)
    case Start(x, r, t, g, norm, instant) =>
      s.(attempts := s.attempts[x := Attempt(r, t, g, norm, instant, s.now, AtLookup)], used := s.used + {x})
    case Lookup(x) =>
      if Duplicate(c, s, s.attempts[x]) then End(s, x) else Goto(s, x, AtIncr(|s.reports|))
    case Incr(x) =>
      var at := s.attempts[x];
      var n := Get(s.counter, at.reporter) + 1;
      Goto(s.(counter := s.counter[at.reporter := n]), x,
           if n > c.cap then AtRefuse else AtCooldown(at.pc.seen))
    case Refuse(x) =>
      End(s.(counter := Add(s.counter, s.attempts[x].reporter, -1)), x)
    case SetCooldown(x) =>
      var at := s.attempts[x];
      if CooldownLive(s, SlotOf(at)) then Goto(s, x, AtRefuse)
      else Goto(s.(cooldown := s.cooldown[SlotOf(at) := Cool(x, s.now + c.cooldownMs)]), x,
                AtInsert(at.pc.seen, s.now))
    case Insert(x) =>
      var pc := s.attempts[x].pc;
      Goto(s, x, AtCommit(pc.seen, pc.setAt, s.now))
    case CommitTx(x, outcome) =>
      var at := s.attempts[x];
      var s' := if outcome.NotDone? then s else s.(reports := s.reports + [Committed(at, x, s.now)]);
      if !outcome.Acked? then Goto(s', x, AtRollbackDel(at.pc.seen, at.pc.setAt))
      else if at.instant then Goto(s', x, AtCacheWrite(at.pc.seen, at.pc.setAt))
      else End(s'.(kept := Add(s.kept, at.reporter, 1)), x)
    case CacheWrite(x, ok) =>
      var at := s.attempts[x];
      if ok then End(s.(kept := Add(s.kept, at.reporter, 1)), x)
      else Goto(s, x, AtRollbackDel(at.pc.seen, at.pc.setAt))
    case RollbackDel(x) =>
      Goto(s.(cooldown := s.cooldown - {SlotOf(s.attempts[x])}), x, AtRollbackDecr)
    case RollbackDecr(x) =>
      End(s.(counter := Add(s.counter, s.attempts[x].reporter, -1)), x)
    case Crash(x) => End(Abandoned(s, s.attempts[x]), x)
  }

  ghost predicate Step(c: Config, s: World, a: Action, t: World) {
    Enabled(c, s, a) && t == Apply(c, s, a)
  }

  ghost predicate StepAt(c: Config, states: seq<World>, actions: seq<Action>, i: nat)
    requires i < |actions| < |states|
  {
    Step(c, states[i], actions[i], states[i + 1])
  }

  ghost predicate Run(c: Config, states: seq<World>, actions: seq<Action>) {
    && |states| == |actions| + 1
    && Initial(states[0])
    && forall i | 0 <= i < |actions| :: StepAt(c, states, actions, i)
  }
}
