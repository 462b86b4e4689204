/**
 The user cache: three Redis keys per user beside the user's row.  Redis may
 drop each key on its own when its time is up.
 */
module UserCache {
  import opened Options
  import opened FlagPolicy

  /** What is shown of a user, with its aggregate version. */
  datatype Public = Public(score: int, level: Level, count: nat, version: nat)

  const UNFLAGGED := Public(0, Clean, 0, 0)

  /**
   `snaps[v]` is the committed state of the user at version v; until the row
   exists there is only the empty state, and no query returns it.
   */
  datatype State = State(exists_: bool, snaps: seq<Public>, payload: Option<Public>, stver: Option<nat>, neg: bool)

  function Current(s: State): Public
    requires s.snaps != []
  {
    s.snaps[|s.snaps| - 1]
  }

  ghost predicate Db(s: State) {
    && s.snaps != [] && s.snaps[0] == UNFLAGGED
    && (forall v | 0 <= v < |s.snaps| :: s.snaps[v].version == v)
    && (!s.exists_ ==> |s.snaps| == 1)
  }

  // ---------- the cache's operations ----------

  function SetAuthoritative(s: State, p: Public): State {
    s.(stver := Some(p.version), payload := Some(p), neg := false)
  }

  /** The Lua script: refuse a version older than the stored one. */
  function SetIfNewer(s: State, p: Public): State {
    if s.stver.Some? && s.stver.value > p.version then s
    else s.(stver := Some(p.version), payload := Some(p), neg := false)
  }

  function SetNegative(s: State, negTtl: int): State {
    if negTtl <= 0 then s else s.(neg := true)
  }

  function Invalidate(s: State): State {
    s.(payload := None, stver := None, neg := false)
  }

  /** The decay job deletes the payload and the negative marker, and leaves the version key. */
  function DecayDelete(s: State): State {
    s.(payload := None, neg := false)
  }

  /** The write of a transaction that changed the user: the next version is committed. */
  function CommitNext(s: State, score: int, level: Level, count: nat): State {
    s.(exists_ := true, snaps := s.snaps + [Public(score, level, count, |s.snaps|)])
  }

  // ---------- whole operations, one after the other ----------

  datatype Op =
    | WriteThenRefresh(score: int, level: Level, count: nat)    // flag created, deleted or patched
    | WriteThenSetIfNewer(score: int, level: Level, count: nat) // instant report, approval
    | DecayThenDelete(score: int, level: Level, count: nat)
    | CreateRow                                                 // a pending report names the user
    | Repair
    | CachedRead
    | ExpirePayload
    | ExpireVersion
    | ExpireNegative

  function Refresh(s: State): State
    requires s.snaps != []
  {
    if s.exists_ then SetAuthoritative(s, Current(s)) else Invalidate(s)
  }

  /** The state after a read that missed the cache. */
  function ReadThrough(s: State, negTtl: int): State
    requires s.snaps != []
  {
    if s.exists_ then SetAuthoritative(s, Current(s)) else SetNegative(s, negTtl)
  }

  /** Does the read end in the cache? */
  predicate CacheAnswers(s: State, negTtl: int) {
    s.payload.Some? || (negTtl > 0 && s.neg)
  }

  function Answer(s: State, negTtl: int): Public
    requires s.snaps != []
  {
    if s.payload.Some? then s.payload.value
    else if negTtl > 0 && s.neg then UNFLAGGED
    else SkipCacheAnswer(s)
  }

  function SkipCacheAnswer(s: State): Public
    requires s.snaps != []
  {
    if s.exists_ then Current(s) else UNFLAGGED
  }

  function ApplyOp(s: State, op: Op, negTtl: int): (t: State)
    requires s.snaps != []
    ensures t.snaps != []
  {
    match op
    case WriteThenRefresh(x, l, n) => Refresh(CommitNext(s, x, l, n))
    case WriteThenSetIfNewer(x, l, n) => var t := CommitNext(s, x, l, n); SetIfNewer(t, Current(t))
    case DecayThenDelete(x, l, n) => DecayDelete(CommitNext(s, x, l, n))
    case CreateRow => s.(exists_ := true)
    case Repair => Refresh(s)
    case CachedRead => if CacheAnswers(s, negTtl) then s else ReadThrough(s, negTtl)
    case ExpirePayload => s.(payload := None)
    case ExpireVersion => s.(stver := None)
    case ExpireNegative => s.(neg := false)
  }

  predicate SameToReaders(p: Public, q: Public) {
    p.score == q.score && p.level == q.level && p.count == q.count
  }

  ghost predicate Coherent(s: State) {
    && Db(s)
    && (s.payload.Some? ==> s.exists_ && s.payload.value == Current(s))
    && (s.stver.Some? ==> s.stver.value < |s.snaps|)
    && (s.neg ==> SameToReaders(SkipCacheAnswer(s), UNFLAGGED))
  }

  lemma OpKeepsCoherent(s: State, op: Op, negTtl: int)
    requires Coherent(s)
    ensures Coherent(ApplyOp(s, op, negTtl))
  {
  }

  function RunOps(s: State, ops: seq<Op>, negTtl: int): (t: State)
    requires s.snaps != []
    ensures t.snaps != []
  {
    if ops == [] then s else ApplyOp(RunOps(s, ops[..|ops| - 1], negTtl), ops[|ops| - 1], negTtl)
  }

  const EMPTY := State(false, [UNFLAGGED], None, None, false)

  lemma {:induction false} OpsKeepCoherent(ops: seq<Op>, negTtl: int)
    ensures Coherent(RunOps(EMPTY, ops, negTtl))
  {
    if ops != [] {
      OpsKeepCoherent(ops[..|ops| - 1], negTtl);
      OpKeepsCoherent(RunOps(EMPTY, ops[..|ops| - 1], negTtl), ops[|ops| - 1], negTtl);
    }
  }

  /**
   After any sequence of whole operations, reads, decay deletes and separate
   expiries, a cached answer is the answer of a read that skips the cache.
   */
  lemma CachedReadsAgree(ops: seq<Op>, negTtl: int)
    ensures
      var s := RunOps(EMPTY, ops, negTtl);
      SameToReaders(Answer(s, negTtl), SkipCacheAnswer(s))
  {
    OpsKeepCoherent(ops, negTtl);
  }

  // ---------- a read returns what was written ----------

  predicate IsWrite(op: Op) {
    op.WriteThenRefresh? || op.WriteThenSetIfNewer? || op.DecayThenDelete?
  }

  function Writes(ops: seq<Op>): nat {
    if ops == [] then 0 else Writes(ops[..|ops| - 1]) + if IsWrite(ops[|ops| - 1]) then 1 else 0
  }

  /** Position `k` of the operations holds their last write. */
  predicate LastWrite(ops: seq<Op>, k: nat) {
    k < |ops| && IsWrite(ops[k]) && forall j | k < j < |ops| :: !IsWrite(ops[j])
  }

  /** The newest committed state is that of the last write, and its version counts the writes. */
  lemma {:induction false} StateOfLastWrite(ops: seq<Op>, negTtl: int)
    ensures
      var s := RunOps(EMPTY, ops, negTtl);
      var p := s.snaps[|s.snaps| - 1];
      && p.version == Writes(ops) == |s.snaps| - 1
      && (Writes(ops) > 0 ==> s.exists_)
      && (Writes(ops) == 0 ==> p.score == 0 && p.level == Clean && p.count == 0)
      && (forall k: nat | LastWrite(ops, k) ::
            Writes(ops) > 0 && p.score == ops[k].score && p.level == ops[k].level && p.count == ops[k].count)
  {
    if ops != [] {
      var n := |ops| - 1;
      StateOfLastWrite(ops[..n], negTtl);
      forall k: nat | LastWrite(ops, k) ensures IsWrite(ops[n]) ==> k == n {
      }
      forall k: nat | LastWrite(ops, k) && k < n ensures LastWrite(ops[..n], k) {
      }
    }
  }

  /**
   After any sequence of whole operations a read, through the cache or past it,
   answers the score, level and count of the last write, and nothing flagged
   before the first.
   */
  lemma ReadsReturnLastWrite(ops: seq<Op>, negTtl: int, skipCache: bool)
    ensures
      var s := RunOps(EMPTY, ops, negTtl);
      var p := if skipCache then SkipCacheAnswer(s) else Answer(s, negTtl);
      && (Writes(ops) == 0 ==> p.score == 0 && p.level == Clean && p.count == 0)
      && (forall k: nat | LastWrite(ops, k) ::
            p.score == ops[k].score && p.level == ops[k].level && p.count == ops[k].count)
  {
    StateOfLastWrite(ops, negTtl);
    CachedReadsAgree(ops, negTtl);
  }

  // ---------- the services ----------

  class Users {
    const negTtl: int
    var exists_: bool
    var snaps: seq<Public>
    var payload: Option<Public>
    var stver: Option<nat>
    var neg: bool

    function View(): State
      reads this
    {
      State(exists_, snaps, payload, stver, neg)
    }

    constructor (negTtl: int)
      ensures View() == EMPTY && this.negTtl == negTtl
    {
      this.negTtl := negTtl;
      exists_, snaps := false, [UNFLAGGED];
      payload, stver, neg := None, None, false;
    }

    method WriteAuthoritative(p: Public)
      modifies this`payload, this`stver, this`neg
      ensures payload == Some(p) && stver == Some(p.version) && !neg
    {
      stver := Some(p.version);
      payload := Some(p);
      neg := false;
    }

    method WriteIfNewer(p: Public) returns (written: bool)
      modifies this`payload, this`stver, this`neg
      ensures written <==> old(stver).None? || old(stver).value <= p.version
      ensures if written then payload == Some(p) && stver == Some(p.version) && !neg
              else payload == old(payload) && stver == old(stver) && neg == old(neg)
    {
      if stver.Some? && stver.value > p.version { return false; }
      stver := Some(p.version);
      payload := Some(p);
      neg := false;
      written := true;
    }

    method MarkAbsent()
      modifies this`neg
      ensures neg == (old(neg) || negTtl > 0)
    {
      if negTtl > 0 { neg := true; }
    }

    method InvalidateAll()
      modifies this`payload, this`stver, this`neg
      ensures payload == None && stver == None && !neg
    {
      payload, stver, neg := None, None, false;
    }

    method GetPublicByDiscordId(skipCache: bool) returns (answer: Public)
      requires Coherent(View())
      modifies this
      ensures View() == if skipCache then old(View()) else ApplyOp(old(View()), CachedRead, negTtl)
      ensures answer == if skipCache then SkipCacheAnswer(old(View())) else Answer(old(View()), negTtl)
      ensures Coherent(View()) && SameToReaders(answer, SkipCacheAnswer(View()))
      ensures
        var last := old(snaps)[|old(snaps)| - 1];
        answer.score == last.score && answer.level == last.level && answer.count == last.count
      ensures
        var found := skipCache || old(payload).Some? || (negTtl > 0 && old(neg));
        if found then View() == old(View())
        else if exists_ then payload == Some(snaps[|snaps| - 1]) && stver == Some(snaps[|snaps| - 1].version) && !neg
        else payload == None && stver == old(stver) && neg == (old(neg) || negTtl > 0)
    {
      OpKeepsCoherent(View(), CachedRead, negTtl);
      if !skipCache {
        if payload.Some? { return payload.value; }
        if negTtl > 0 && neg { return UNFLAGGED; }
      }
      if !exists_ {
        if !skipCache { MarkAbsent(); }
        return UNFLAGGED;
      }
      answer := snaps[|snaps| - 1];
      if !skipCache { WriteAuthoritative(answer); }
    }

    method RefreshPublicCache()
      requires Coherent(View())
      modifies this
      ensures View() == ApplyOp(old(View()), Repair, negTtl) && Coherent(View())
      ensures !neg && payload == (if exists_ then Some(snaps[|snaps| - 1]) else None)
      ensures stver == if exists_ then Some(snaps[|snaps| - 1].version) else None
    {
      OpKeepsCoherent(View(), Repair, negTtl);
      if !exists_ {
        InvalidateAll();
      } else {
        WriteAuthoritative(snaps[|snaps| - 1]);
      }
    }

    /** A flag was created, deleted or patched; the service then refreshes the cache. */
    method ChangeAndRefresh(score: int, level: Level, count: nat)
      requires Coherent(View())
      modifies this
      ensures View() == ApplyOp(old(View()), WriteThenRefresh(score, level, count), negTtl) && Coherent(View())
      ensures snaps == old(snaps) + [Public(score, level, count, |old(snaps)|)] && exists_
      ensures payload == Some(Public(score, level, count, |old(snaps)|)) && stver == Some(|old(snaps)|) && !neg
    {
      OpKeepsCoherent(View(), WriteThenRefresh(score, level, count), negTtl);
      exists_, snaps := true, snaps + [Public(score, level, count, |snaps|)];
      WriteAuthoritative(snaps[|snaps| - 1]);
    }

    /** An instant report or an approval; the service offers the cache the row it wrote. */
    method ChangeAndOffer(score: int, level: Level, count: nat)
      requires Coherent(View())
      modifies this
      ensures View() == ApplyOp(old(View()), WriteThenSetIfNewer(score, level, count), negTtl) && Coherent(View())
      ensures snaps == old(snaps) + [Public(score, level, count, |old(snaps)|)] && exists_
      ensures payload == Some(Public(score, level, count, |old(snaps)|)) && stver == Some(|old(snaps)|) && !neg
    {
      OpKeepsCoherent(View(), WriteThenSetIfNewer(score, level, count), negTtl);
      exists_, snaps := true, snaps + [Public(score, level, count, |snaps|)];
      var written := WriteIfNewer(snaps[|snaps| - 1]);
      assert written;
    }

    method DecayAndDelete(score: int, level: Level, count: nat)
      requires Coherent(View())
      modifies this
      ensures View() == ApplyOp(old(View()), DecayThenDelete(score, level, count), negTtl) && Coherent(View())
      ensures snaps == old(snaps) + [Public(score, level, count, |old(snaps)|)] && exists_
      ensures payload == None && stver == old(stver) && !neg
    {
      OpKeepsCoherent(View(), DecayThenDelete(score, level, count), negTtl);
      exists_, snaps := true, snaps + [Public(score, level, count, |snaps|)];
      payload, neg := None, false;
    }
  }
}
