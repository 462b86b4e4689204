/**
 The user cache when nothing is serialized: database reads, commits and cache
 writes of any number of requests interleave, requests stop anywhere, and keys
 expire at any time.
 */
module UserCacheRuns {
  import opened Options
  import opened FlagPolicy
  import opened UserCache

  type ReqId = nat

  /** Where a request stands; the payload it carries was read or written earlier. */
  datatype Req =
    | AtRead(negative: bool)       // about to read the row; a miss may mark the user absent
    | AtAuthoritative(p: Public)
    | AtIfNewer(p: Public)
    | AtDecayDelete
    | AtMarkAbsent
    | AtInvalidate

  datatype World = World(s: State, reqs: map<ReqId, Req>)

  /** What a committed write does to the cache next. */
  datatype Follow = ThenRefresh | ThenOffer | ThenDelete

  datatype Action =
    | StartRead(r: ReqId, negative: bool)  // a cache miss, or a refresh
    | CommitWrite(r: ReqId, score: int, level: Level, count: nat, follow: Follow)
    | CreateOnly
    | ReadRow(r: ReqId)
    | WriteCache(r: ReqId)
    | Stop(r: ReqId)
    | Expire(op: Op)

  ghost predicate Initial(w: World) {
    w == World(EMPTY, map[])
  }

  predicate Enabled(w: World, a: Action) {
    match a
    case StartRead(r, _) => r !in w.reqs
    case CommitWrite(r, _, _, _, _) => r !in w.reqs
    case CreateOnly => true
    case ReadRow(r) => r in w.reqs && w.reqs[r].AtRead? && w.s.snaps != []
    case WriteCache(r) => r in w.reqs && !w.reqs[r].AtRead?
    case Stop(r) => r in w.reqs
    case Expire(op) => op.ExpirePayload? || op.ExpireVersion? || op.ExpireNegative?
  }

  function Apply(w: World, a: Action, negTtl: int): World
    requires Enabled(w, a)
  {
    match a
    case StartRead(r, negative) => w.(reqs := w.reqs[r := AtRead(negative)])
    case CommitWrite(r, x, l, n, follow) =>
      var t := CommitNext(w.s, x, l, n);
      World(t, w.reqs[r := match follow
                           case ThenRefresh => AtRead(false)
                           case ThenOffer => AtIfNewer(Current(t))
                           case ThenDelete => AtDecayDelete])
    case CreateOnly => w.(s := w.s.(exists_ := true))
    case ReadRow(r) =>
      w.(reqs := w.reqs[r := if w.s.exists_ then AtAuthoritative(Current(w.s))
                             else if w.reqs[r].negative then AtMarkAbsent else AtInvalidate])
    case WriteCache(r) =>
      World(match w.reqs[r]
            case AtAuthoritative(p) => SetAuthoritative(w.s, p)
            case AtIfNewer(p) => SetIfNewer(w.s, p)
            case AtDecayDelete => DecayDelete(w.s)
            case AtMarkAbsent => SetNegative(w.s, negTtl)
            case AtInvalidate => Invalidate(w.s)
            case AtRead(_) => w.s,
            w.reqs - {r})
    case Stop(r) => w.(reqs := w.reqs - {r})
    case Expire(op) =>
      w.(s := match op
              case ExpirePayload => w.s.(payload := None)
              case ExpireVersion => w.s.(stver := None)
              case _ => w.s.(neg := false))
  }

  ghost predicate Step(w: World, a: Action, t: World, negTtl: int) {
    Enabled(w, a) && t == Apply(w, a, negTtl)
  }

  ghost predicate StepAt(worlds: seq<World>, actions: seq<Action>, negTtl: int, i: nat)
    requires i < |actions| < |worlds|
  {
    Step(worlds[i], actions[i], worlds[i + 1], negTtl)
  }

  ghost predicate Run(worlds: seq<World>, actions: seq<Action>, negTtl: int) {
    && |worlds| == |actions| + 1
    && Initial(worlds[0])
    && forall i | 0 <= i < |actions| :: StepAt(worlds, actions, negTtl, i)
  }

  /** `p` is the committed state of the user at the version it carries. */
  ghost predicate Snapshot(s: State, p: Public) {
    s.exists_ && p.version < |s.snaps| && s.snaps[p.version] == p
  }

  ghost predicate Inv(w: World) {
    && Db(w.s)
    && (w.s.payload.Some? ==> Snapshot(w.s, w.s.payload.value))
    && (w.s.stver.Some? ==> w.s.exists_ && w.s.stver.value < |w.s.snaps|)
    && (w.s.payload.Some? && w.s.stver.Some? ==> w.s.payload.value.version == w.s.stver.value)
    && (forall r | r in w.reqs && w.reqs[r].AtAuthoritative? :: Snapshot(w.s, w.reqs[r].p))
    && (forall r | r in w.reqs && w.reqs[r].AtIfNewer? :: Snapshot(w.s, w.reqs[r].p))
  }

  lemma StepKeepsInv(w: World, a: Action, t: World, negTtl: int)
    requires Inv(w) && Step(w, a, t, negTtl)
    ensures Inv(t)
  {
  }

  lemma {:induction false} RunKeepsInv(worlds: seq<World>, actions: seq<Action>, negTtl: int, k: nat)
    requires Run(worlds, actions, negTtl) && k < |worlds|
    ensures Inv(worlds[k])
  {
    if k > 0 {
      RunKeepsInv(worlds, actions, negTtl, k - 1);
      assert StepAt(worlds, actions, negTtl, k - 1);
      StepKeepsInv(worlds[k - 1], actions[k - 1], worlds[k], negTtl);
    }
  }

  /**
   Whatever the interleaving, what the cache serves was once the committed state
   of the user, the version key never runs ahead of the database, and the two
   keys agree whenever both are present.
   */
  lemma CacheServesSnapshots(worlds: seq<World>, actions: seq<Action>, negTtl: int, k: nat)
    requires Run(worlds, actions, negTtl) && k < |worlds|
    ensures
      var s := worlds[k].s;
      && (s.payload.Some? ==> s.exists_ && s.payload.value.version < |s.snaps|
                              && s.payload.value == s.snaps[s.payload.value.version])
      && (s.stver.Some? ==> s.stver.value < |s.snaps|)
      && (s.payload.Some? && s.stver.Some? ==> s.payload.value.version == s.stver.value)
  {
    RunKeepsInv(worlds, actions, negTtl, k);
  }

  /** An offer of the newest version is never refused, even after the decay job left the version key behind. */
  lemma NewestOfferLands(worlds: seq<World>, actions: seq<Action>, negTtl: int, k: nat, r: ReqId)
    requires Run(worlds, actions, negTtl) && k < |actions| && actions[k] == WriteCache(r)
    requires r in worlds[k].reqs && worlds[k].reqs[r].AtIfNewer?
    requires worlds[k].reqs[r].p.version == |worlds[k].s.snaps| - 1
    ensures worlds[k + 1].s.payload == Some(worlds[k].s.snaps[|worlds[k].s.snaps| - 1])
    ensures !worlds[k + 1].s.neg
  {
    RunKeepsInv(worlds, actions, negTtl, k);
    assert StepAt(worlds, actions, negTtl, k);
  }

  /**
   An offer never takes the cache back: it is refused exactly when the version
   key is ahead of it, and otherwise becomes what is served.
   */
  lemma OffersNeverRegress(worlds: seq<World>, actions: seq<Action>, negTtl: int, k: nat, r: ReqId)
    requires Run(worlds, actions, negTtl) && k < |actions| && actions[k] == WriteCache(r)
    requires r in worlds[k].reqs && worlds[k].reqs[r].AtIfNewer?
    ensures
      var s, t, p := worlds[k].s, worlds[k + 1].s, worlds[k].reqs[r].p;
      if s.stver.Some? && s.stver.value > p.version then t == s
      else t.payload == Some(p) && t.stver == Some(p.version)
           && (s.payload.Some? && s.stver.Some? ==> s.payload.value.version <= p.version)
  {
    RunKeepsInv(worlds, actions, negTtl, k);
    assert StepAt(worlds, actions, negTtl, k);
  }

  // ---------- a row read returns the last commit ----------

  function Commits(actions: seq<Action>, k: nat): nat
    requires k <= |actions|
  {
    if k == 0 then 0 else Commits(actions, k - 1) + if actions[k - 1].CommitWrite? then 1 else 0
  }

  /** Step `i` is the last write to commit among the first `k` steps. */
  predicate LastCommit(actions: seq<Action>, i: nat, k: nat)
    requires k <= |actions|
  {
    i < k && actions[i].CommitWrite? && forall j | i < j < k :: !actions[j].CommitWrite?
  }

  /** The version, score, level and count that `p` shows are those of the last of the first `k` steps to commit. */
  ghost predicate ShowsLastCommit(actions: seq<Action>, k: nat, p: Public)
    requires k <= |actions|
  {
    && p.version == Commits(actions, k)
    && (Commits(actions, k) == 0 ==> p.score == 0 && p.level == Clean && p.count == 0)
    && (forall i: nat | LastCommit(actions, i, k) ::
          p.score == actions[i].score && p.level == actions[i].level && p.count == actions[i].count)
  }

  lemma {:induction false} StateOfLastCommit(worlds: seq<World>, actions: seq<Action>, negTtl: int, k: nat)
    requires Run(worlds, actions, negTtl) && k < |worlds|
    ensures
      var s := worlds[k].s;
      && s.snaps != [] && |s.snaps| == Commits(actions, k) + 1 && ShowsLastCommit(actions, k, s.snaps[|s.snaps| - 1])
      && (Commits(actions, k) > 0 ==> s.exists_)
  {
    if k > 0 {
      StateOfLastCommit(worlds, actions, negTtl, k - 1);
      assert StepAt(worlds, actions, negTtl, k - 1);
      var p := worlds[k].s.snaps[|worlds[k].s.snaps| - 1];
      forall i: nat | LastCommit(actions, i, k)
        ensures p.score == actions[i].score && p.level == actions[i].level && p.count == actions[i].count {
        if i < k - 1 { assert LastCommit(actions, i, k - 1); }
      }
    }
  }

  /**
   In every run a request that reads the row carries the score, level and count of
   the last write committed before, with its version; it finds no row only when
   nothing has been written.
   */
  lemma RowReadsLastCommit(worlds: seq<World>, actions: seq<Action>, negTtl: int, k: nat)
    requires Run(worlds, actions, negTtl) && k < |actions| && actions[k].ReadRow?
    ensures actions[k].r in worlds[k + 1].reqs
    ensures
      var req := worlds[k + 1].reqs[actions[k].r];
      && (req.AtAuthoritative? <==> worlds[k].s.exists_)
      && (if req.AtAuthoritative? then ShowsLastCommit(actions, k, req.p)
          else (req.AtMarkAbsent? || req.AtInvalidate?) && Commits(actions, k) == 0)
  {
    StateOfLastCommit(worlds, actions, negTtl, k);
    assert StepAt(worlds, actions, negTtl, k);
  }

  /** An offer carries what its own request has committed. */
  lemma OfferCarriesCommit(worlds: seq<World>, actions: seq<Action>, negTtl: int, k: nat)
    requires Run(worlds, actions, negTtl) && k < |actions| && actions[k].CommitWrite? && actions[k].follow.ThenOffer?
    ensures actions[k].r in worlds[k + 1].reqs
    ensures
      var a := actions[k];
      worlds[k + 1].reqs[a.r] == AtIfNewer(Public(a.score, a.level, a.count, Commits(actions, k) + 1))
  {
    StateOfLastCommit(worlds, actions, negTtl, k);
    assert StepAt(worlds, actions, negTtl, k);
  }

  // ---------- where a cached answer comes from ----------

  lemma {:induction false} SnapshotsGrow(worlds: seq<World>, actions: seq<Action>, negTtl: int, i: nat, k: nat)
    requires Run(worlds, actions, negTtl) && i <= k < |worlds|
    ensures worlds[i].s.snaps <= worlds[k].s.snaps
  {
    if i < k {
      SnapshotsGrow(worlds, actions, negTtl, i, k - 1);
      assert StepAt(worlds, actions, negTtl, k - 1);
    }
  }

  /** The step that put the payload into the cache. */
  lemma {:induction false} PayloadWriter(worlds: seq<World>, actions: seq<Action>, negTtl: int, k: nat) returns (j: nat)
    requires Run(worlds, actions, negTtl) && k < |worlds| && worlds[k].s.payload.Some?
    ensures j < k && actions[j].WriteCache? && actions[j].r in worlds[j].reqs
    ensures
      var req := worlds[j].reqs[actions[j].r];
      (req.AtAuthoritative? || req.AtIfNewer?) && req.p == worlds[k].s.payload.value
  {
    assert k > 0;
    assert StepAt(worlds, actions, negTtl, k - 1);
    if worlds[k - 1].s.payload == worlds[k].s.payload {
      j := PayloadWriter(worlds, actions, negTtl, k - 1);
    } else {
      j := k - 1;
    }
  }

  /** The step that put the negative marker there. */
  lemma {:induction false} MarkerWriter(worlds: seq<World>, actions: seq<Action>, negTtl: int, k: nat) returns (j: nat)
    requires Run(worlds, actions, negTtl) && k < |worlds| && worlds[k].s.neg
    ensures j < k && actions[j].WriteCache? && actions[j].r in worlds[j].reqs
    ensures worlds[j].reqs[actions[j].r].AtMarkAbsent?
  {
    assert k > 0;
    assert StepAt(worlds, actions, negTtl, k - 1);
    if worlds[k - 1].s.neg {
      j := MarkerWriter(worlds, actions, negTtl, k - 1);
    } else {
      j := k - 1;
    }
  }

  /** The step at which a request learnt what it is about to write: its read of the row, or its own commit. */
  lemma {:induction false} RequestOrigin(worlds: seq<World>, actions: seq<Action>, negTtl: int, j: nat, r: ReqId)
    returns (i: nat)
    requires Run(worlds, actions, negTtl) && j < |worlds| && r in worlds[j].reqs
    requires
      var req := worlds[j].reqs[r];
      req.AtAuthoritative? || req.AtIfNewer? || req.AtMarkAbsent?
    ensures i < j && (actions[i].ReadRow? || actions[i].CommitWrite?) && actions[i].r == r
    ensures worlds[i + 1].s.snaps != []
    ensures
      var req := worlds[j].reqs[r];
      if req.AtMarkAbsent? then !worlds[i + 1].s.exists_
      else worlds[i + 1].s.exists_ && req.p == Current(worlds[i + 1].s)
  {
    assert j > 0;
    assert StepAt(worlds, actions, negTtl, j - 1);
    if r in worlds[j - 1].reqs && worlds[j - 1].reqs[r] == worlds[j].reqs[r] {
      i := RequestOrigin(worlds, actions, negTtl, j - 1, r);
    } else {
      i := j - 1;
    }
  }

  /** What a read gets from the cache: it asks for the payload first and for the marker at some later moment. */
  function CachedAnswer(first: State, second: State, negTtl: int): Option<Public> {
    if first.payload.Some? then first.payload
    else if negTtl > 0 && second.neg then Some(UNFLAGGED)
    else None
  }

  /**
   A read asks for the payload at moment `k0` and, on a miss, for the marker at
   `k1`.  Whichever answers, it was written at some step `j` and is what a direct
   read returned right after step `i`, the row read or commit of the request that
   wrote it; at any later moment `m` it is out of date exactly when a write of the
   user has committed since step `i`.
   */
  lemma StaleExactlyWhenWrittenSince(worlds: seq<World>, actions: seq<Action>, negTtl: int, k0: nat, k1: nat, m: nat)
    returns (i: nat, j: nat)
    requires Run(worlds, actions, negTtl) && k0 <= k1 <= m < |worlds|
    requires CachedAnswer(worlds[k0].s, worlds[k1].s, negTtl).Some?
    ensures i < j < k1 && (actions[i].ReadRow? || actions[i].CommitWrite?) && actions[j] == WriteCache(actions[i].r)
    ensures worlds[i + 1].s.snaps != [] && worlds[m].s.snaps != []
    ensures CachedAnswer(worlds[k0].s, worlds[k1].s, negTtl).value == SkipCacheAnswer(worlds[i + 1].s)
    ensures CachedAnswer(worlds[k0].s, worlds[k1].s, negTtl).value == SkipCacheAnswer(worlds[m].s)
       <==> |worlds[i + 1].s.snaps| == |worlds[m].s.snaps|
  {
    if worlds[k0].s.payload.Some? {
      j := PayloadWriter(worlds, actions, negTtl, k0);
    } else {
      j := MarkerWriter(worlds, actions, negTtl, k1);
    }
    i := RequestOrigin(worlds, actions, negTtl, j, actions[j].r);
    RunKeepsInv(worlds, actions, negTtl, i + 1);
    RunKeepsInv(worlds, actions, negTtl, m);
    SnapshotsGrow(worlds, actions, negTtl, i + 1, m);
  }

  /** A late negative marker: the user is at the highest level, and the cache says there is nothing about them. */
  lemma LateMarkerServesOldState(negTtl: int) returns (worlds: seq<World>, actions: seq<Action>)
    requires negTtl > 0
    ensures Run(worlds, actions, negTtl)
    ensures
      var s := worlds[|actions|].s;
      Db(s) && s.payload.None? && SkipCacheAnswer(s) == Public(25, ConfirmedCheater, 1, 1) && Answer(s, negTtl) == UNFLAGGED
  {
    actions := [StartRead(0, true), ReadRow(0), CommitWrite(1, 25, ConfirmedCheater, 1, ThenOffer),
                WriteCache(1), Expire(ExpirePayload), WriteCache(0)];
    var w0 := World(EMPTY, map[]);
    var w1 := Apply(w0, actions[0], negTtl);
    var w2 := Apply(w1, actions[1], negTtl);
    assert w2.reqs[0] == AtMarkAbsent;
    var w3 := Apply(w2, actions[2], negTtl);
    assert w3.s.snaps == [UNFLAGGED, Public(25, ConfirmedCheater, 1, 1)];
    var w4 := Apply(w3, actions[3], negTtl);
    var w5 := Apply(w4, actions[4], negTtl);
    assert w5.s.payload.None? && w5.reqs == map[0 := AtMarkAbsent];
    var w6 := Apply(w5, actions[5], negTtl);
    worlds := [w0, w1, w2, w3, w4, w5, w6];
    forall i | 0 <= i < |actions| ensures StepAt(worlds, actions, negTtl, i) {
      if i == 0 {} else if i == 1 {} else if i == 2 {} else if i == 3 {} else if i == 4 {} else { assert i == 5; }
    }
  }

  /**
   Under interleaving a cached read can be stale: a read-through that loaded the
   row before a write puts the old state back after the write's own cache update.
   */
  lemma SlowReadThroughServesOldState(negTtl: int) returns (worlds: seq<World>, actions: seq<Action>)
    ensures Run(worlds, actions, negTtl)
    ensures
      var s := worlds[|actions|].s;
      Db(s) && SkipCacheAnswer(s) == Public(25, ConfirmedCheater, 1, 1) && Answer(s, negTtl) == UNFLAGGED
  {
    actions := [CreateOnly, StartRead(0, true), ReadRow(0), CommitWrite(1, 25, ConfirmedCheater, 1, ThenOffer),
                WriteCache(1), WriteCache(0)];
    var w0 := World(EMPTY, map[]);
    var w1 := Apply(w0, actions[0], negTtl);
    var w2 := Apply(w1, actions[1], negTtl);
    var w3 := Apply(w2, actions[2], negTtl);
    assert w3.reqs[0] == AtAuthoritative(UNFLAGGED);
    var w4 := Apply(w3, actions[3], negTtl);
    assert w4.s.snaps == [UNFLAGGED, Public(25, ConfirmedCheater, 1, 1)];
    var w5 := Apply(w4, actions[4], negTtl);
    assert w5.s.payload == Some(Public(25, ConfirmedCheater, 1, 1));
    var w6 := Apply(w5, actions[5], negTtl);
    worlds := [w0, w1, w2, w3, w4, w5, w6];
    forall i | 0 <= i < |actions| ensures StepAt(worlds, actions, negTtl, i) {
      if i == 0 {} else if i == 1 {} else if i == 2 {} else if i == 3 {} else if i == 4 {} else { assert i == 5; }
    }
  }
}
