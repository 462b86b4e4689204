/**
 The bot's per-guild command limiter: a window opens with the first call after
 the previous one has run out, and admits so many calls.
 */
module RateLimiter {
  import opened Options

  const WINDOW_MS := 60_000

  datatype Window = Window(count: int, resetAt: int)

  datatype Call = Call(guild: string, now: int)

  function Lookup(windows: map<string, Window>, guild: string): Option<Window> {
    if guild in windows then Some(windows[guild]) else None
  }

  /** The window that a call falls into. */
  function Current(w: Option<Window>, now: int): Window {
    if w.None? || now >= w.value.resetAt then Window(0, now + WINDOW_MS) else w.value
  }

  predicate Allowed(perMinute: int, w: Option<Window>, now: int) {
    Current(w, now).count < perMinute
  }

  function Consume(perMinute: int, w: Option<Window>, now: int): Window {
    var cur := Current(w, now);
    if cur.count >= perMinute then cur else cur.(count := cur.count + 1)
  }

  /** The windows after a history of calls. */
  function After(perMinute: int, calls: seq<Call>): map<string, Window> {
    if calls == [] then map[]
    else
      var n := |calls| - 1;
      var windows, call := After(perMinute, calls[..n]), calls[n];
      windows[call.guild := Consume(perMinute, Lookup(windows, call.guild), call.now)]
  }

  /** Call `i` of a history got the answer true. */
  predicate Admits(perMinute: int, calls: seq<Call>, i: nat)
    requires i < |calls|
  {
    Allowed(perMinute, Lookup(After(perMinute, calls[..i]), calls[i].guild), calls[i].now)
  }

  predicate InOrder(calls: seq<Call>) {
    forall i, j | 0 <= i < j < |calls| :: calls[i].now <= calls[j].now
  }

  /** How many calls of `guild` were admitted at times from `lo` up to but excluding `hi`. */
  function Admissions(perMinute: int, calls: seq<Call>, guild: string, lo: int, hi: int): nat {
    if calls == [] then 0
    else
      var n := |calls| - 1;
      Admissions(perMinute, calls[..n], guild, lo, hi)
      + if calls[n].guild == guild && lo <= calls[n].now < hi && Admits(perMinute, calls, n) then 1 else 0
  }

  // ---------- counting ----------

  lemma {:induction false} WiderCountsMore(p: int, calls: seq<Call>, guild: string, lo: int, hi: int, lo': int, hi': int)
    requires lo' <= lo && hi <= hi'
    ensures Admissions(p, calls, guild, lo, hi) <= Admissions(p, calls, guild, lo', hi')
  {
    if calls != [] { WiderCountsMore(p, calls[..|calls| - 1], guild, lo, hi, lo', hi'); }
  }

  lemma {:induction false} SplitInterval(p: int, calls: seq<Call>, guild: string, lo: int, mid: int, hi: int)
    requires lo <= mid <= hi
    ensures Admissions(p, calls, guild, lo, hi)
         == Admissions(p, calls, guild, lo, mid) + Admissions(p, calls, guild, mid, hi)
  {
    if calls != [] { SplitInterval(p, calls[..|calls| - 1], guild, lo, mid, hi); }
  }

  // ---------- the bound ----------

  /**
   The open window began with an admitted call.  Since then at most `count` were
   admitted, one of them at that instant, and none from `resetAt` on; in the
   minute before, its first instant excluded, at most `p - 1`.
   */
  ghost predicate WindowOk(p: int, calls: seq<Call>, guild: string, w: Window) {
    var begin := w.resetAt - WINDOW_MS;
    && 1 <= w.count <= p
    && (forall lo, hi | lo >= begin :: Admissions(p, calls, guild, lo, hi) <= w.count)
    && (forall lo, hi | lo > begin :: Admissions(p, calls, guild, lo, hi) <= w.count - 1)
    && (forall lo, hi | lo >= w.resetAt :: Admissions(p, calls, guild, lo, hi) == 0)
    && (forall lo, hi | begin - WINDOW_MS < lo && hi <= begin :: Admissions(p, calls, guild, lo, hi) <= p - 1)
  }

  ghost predicate Bounded(p: int, calls: seq<Call>, guild: string) {
    forall lo, hi | hi <= lo + WINDOW_MS :: Admissions(p, calls, guild, lo, hi) <= 2 * p - 1
  }

  ghost predicate Inv(p: int, calls: seq<Call>, guild: string) {
    var w := Lookup(After(p, calls), guild);
    && Bounded(p, calls, guild)
    && (w.Some? ==> calls != [] && w.value.resetAt - WINDOW_MS <= calls[|calls| - 1].now
                    && WindowOk(p, calls, guild, w.value))
    && (w.None? ==> forall lo, hi :: Admissions(p, calls, guild, lo, hi) == 0)
  }

  /** Room for one more admission inside the open window. */
  lemma RoomInWindow(p: int, calls: seq<Call>, guild: string, w: Window, now: int, lo: int, hi: int)
    requires WindowOk(p, calls, guild, w) && w.resetAt - WINDOW_MS <= now < w.resetAt && w.count < p
    requires lo <= now < hi <= lo + WINDOW_MS
    ensures Admissions(p, calls, guild, lo, hi) <= 2 * p - 2
  {
    var begin := w.resetAt - WINDOW_MS;
    if lo < begin { SplitInterval(p, calls, guild, lo, begin, hi); }
  }

  /** After it has run out, whatever reaches up to the present began inside it or later. */
  lemma RoomAfterWindow(p: int, calls: seq<Call>, guild: string, w: Window, now: int, lo: int, hi: int)
    requires WindowOk(p, calls, guild, w) && now >= w.resetAt && now - WINDOW_MS < lo
    ensures Admissions(p, calls, guild, lo, hi) <= p - 1
  {
  }

  lemma {:induction false} CallsKeepInv(p: int, calls: seq<Call>, guild: string)
    requires p >= 1 && InOrder(calls)
    ensures Inv(p, calls, guild)
  {
    if calls == [] {
      assert forall lo, hi :: Admissions(p, calls, guild, lo, hi) == 0;
    } else {
      CallsKeepInv(p, calls[..|calls| - 1], guild);
      CallKeepsInv(p, calls, guild);
    }
  }

  /** How one call changes the counts. */
  lemma CallCounts(p: int, calls: seq<Call>, guild: string)
    requires calls != []
    ensures
      var n := |calls| - 1;
      forall lo, hi :: Admissions(p, calls, guild, lo, hi) ==
                       Admissions(p, calls[..n], guild, lo, hi)
                       + if calls[n].guild == guild && lo <= calls[n].now < hi && Admits(p, calls, n) then 1 else 0
  {
  }

  lemma CallKeepsBound(p: int, calls: seq<Call>, guild: string)
    requires p >= 1 && calls != [] && InOrder(calls)
    requires Inv(p, calls[..|calls| - 1], guild)
    ensures Bounded(p, calls, guild)
  {
    var n := |calls| - 1;
    var before, call := calls[..n], calls[n];
    var w := Lookup(After(p, before), guild);
    CallCounts(p, calls, guild);
    if call.guild == guild && Admits(p, calls, n) {
      forall lo, hi | hi <= lo + WINDOW_MS ensures Admissions(p, calls, guild, lo, hi) <= 2 * p - 1 {
        if lo <= call.now < hi && w.Some? {
          if call.now < w.value.resetAt {
            RoomInWindow(p, before, guild, w.value, call.now, lo, hi);
          } else {
            RoomAfterWindow(p, before, guild, w.value, call.now, lo, hi);
          }
        }
      }
    }
  }

  lemma CallKeepsInv(p: int, calls: seq<Call>, guild: string)
    requires p >= 1 && calls != [] && InOrder(calls)
    requires Inv(p, calls[..|calls| - 1], guild)
    ensures Inv(p, calls, guild)
  {
    CallKeepsBound(p, calls, guild);
    CallCounts(p, calls, guild);
  }

  /**
   However the calls fall, no half-open minute holds more than `2 * perMinute - 1`
   admissions of one guild.
   */
  lemma SlidingBound(perMinute: int, calls: seq<Call>, guild: string, t: int)
    requires perMinute >= 1 && InOrder(calls)
    ensures Admissions(perMinute, calls, guild, t, t + 60000) <= 2 * perMinute - 1
  {
    CallsKeepInv(perMinute, calls, guild);
  }

  // ---------- when a call must be admitted ----------

  /** The open window counts exactly the admissions since it began. */
  ghost predicate CountIsExact(p: int, calls: seq<Call>, guild: string) {
    var w := Lookup(After(p, calls), guild);
    w.Some? && calls != [] ==>
      && w.value.resetAt - WINDOW_MS <= calls[|calls| - 1].now
      && forall lo, hi | lo == w.value.resetAt - WINDOW_MS && hi > calls[|calls| - 1].now ::
           Admissions(p, calls, guild, lo, hi) == w.value.count
  }

  lemma {:induction false} CountsAreExact(p: int, calls: seq<Call>, guild: string)
    requires p >= 1 && InOrder(calls)
    ensures CountIsExact(p, calls, guild)
  {
    if calls != [] {
      var n := |calls| - 1;
      CountsAreExact(p, calls[..n], guild);
      CallsKeepInv(p, calls[..n], guild);
      CallCounts(p, calls, guild);
    }
  }

  /**
   A call is refused only if as many calls of its guild as the limit allows were
   admitted in the minute up to it.
   */
  lemma RefusedOnlyWhenFull(p: int, calls: seq<Call>, n: nat)
    requires p >= 1 && InOrder(calls) && n < |calls| && !Admits(p, calls, n)
    ensures Admissions(p, calls[..n], calls[n].guild, calls[n].now - 60000 + 1, calls[n].now + 1) >= p
  {
    var guild, now, before := calls[n].guild, calls[n].now, calls[..n];
    var w := Lookup(After(p, before), guild);
    CountsAreExact(p, before, guild);
    CallsKeepInv(p, before, guild);
    assert w.Some? && now < w.value.resetAt && w.value.count >= p;
    var begin := w.value.resetAt - WINDOW_MS;
    assert Admissions(p, before, guild, begin, now + 1) == w.value.count;
    WiderCountsMore(p, before, guild, begin, now + 1, now - 60000 + 1, now + 1);
  }

  // ---------- the bound is reached, and a limit below one admits nothing ----------

  /** `k` calls at one instant into an open window with room for them. */
  lemma {:induction false} Burst(p: int, calls: seq<Call>, call: Call, k: nat, lo: int, hi: int)
    returns (more: seq<Call>)
    requires call.guild in After(p, calls) && lo <= call.now < hi
    requires call.now < After(p, calls)[call.guild].resetAt && After(p, calls)[call.guild].count + k <= p
    ensures calls <= more && forall i | |calls| <= i < |more| :: more[i] == call
    ensures Admissions(p, more, call.guild, lo, hi) == Admissions(p, calls, call.guild, lo, hi) + k
    ensures
      var w := After(p, calls)[call.guild];
      Lookup(After(p, more), call.guild) == Some(Window(w.count + k, w.resetAt))
  {
    if k == 0 {
      more := calls;
    } else {
      var fewer := Burst(p, calls, call, k - 1, lo, hi);
      more := fewer + [call];
      assert more[..|more| - 1] == fewer;
    }
  }

  /** A call at 0, the rest of the window at its last millisecond, and a whole window right after. */
  lemma BoundIsReached(p: int, guild: string) returns (calls: seq<Call>)
    requires p >= 1
    ensures InOrder(calls) && Admissions(p, calls, guild, 1, 1 + 60000) == 2 * p - 1
  {
    var first := [Call(guild, 0)];
    assert first[..0] == [];
    assert After(p, first) == map[guild := Window(1, WINDOW_MS)];
    assert Admissions(p, first, guild, 1, 1 + WINDOW_MS) == 0;
    var full := Burst(p, first, Call(guild, WINDOW_MS - 1), p - 1, 1, 1 + WINDOW_MS);
    var next := full + [Call(guild, WINDOW_MS)];
    assert next[..|full|] == full;
    assert After(p, next)[guild] == Window(1, 2 * WINDOW_MS);
    calls := Burst(p, next, Call(guild, WINDOW_MS), p - 1, 1, 1 + WINDOW_MS);
  }

  lemma {:induction false} NoLimitNoAdmission(p: int, calls: seq<Call>, guild: string, lo: int, hi: int)
    requires p <= 0
    ensures Admissions(p, calls, guild, lo, hi) == 0
    ensures guild in After(p, calls) ==> After(p, calls)[guild].count == 0
  {
    if calls != [] {
      var n := |calls| - 1;
      NoLimitNoAdmission(p, calls[..n], guild, lo, hi);
      NoLimitNoAdmission(p, calls[..n], calls[n].guild, lo, hi);
    }
  }

  // ---------- guilds do not affect one another ----------

  function Only(calls: seq<Call>, guild: string): seq<Call> {
    if calls == [] then []
    else
      var n := |calls| - 1;
      Only(calls[..n], guild) + if calls[n].guild == guild then [calls[n]] else []
  }

  /** A guild's window, and so its answers, are those it would have without anybody else's calls. */
  lemma {:induction false} GuildsIndependent(p: int, calls: seq<Call>, guild: string)
    ensures Lookup(After(p, calls), guild) == Lookup(After(p, Only(calls, guild)), guild)
    ensures forall lo, hi :: Admissions(p, calls, guild, lo, hi) == Admissions(p, Only(calls, guild), guild, lo, hi)
  {
    if calls != [] {
      var n := |calls| - 1;
      GuildsIndependent(p, calls[..n], guild);
      if calls[n].guild == guild {
        var own := Only(calls, guild);
        assert own[..|own| - 1] == Only(calls[..n], guild) && own[|own| - 1] == calls[n];
        CallCounts(p, own, guild);
      } else {
        assert Only(calls, guild) == Only(calls[..n], guild);
      }
      CallCounts(p, calls, guild);
    }
  }

  // ---------- the program ----------

  class Bucket {
    var count: int
    var resetAt: int

    constructor (resetAt: int)
      ensures count == 0 && this.resetAt == resetAt
    {
      count, this.resetAt := 0, resetAt;
    }
  }

  class GuildRateLimiter {
    const perMinute: int
    var buckets: map<string, Bucket>
    ghost var calls: seq<Call>

    ghost function View(): map<string, Window>
      reads this, buckets.Values
    {
      map g | g in buckets :: Window(buckets[g].count, buckets[g].resetAt)
    }

    /** No two guilds share a bucket. */
    ghost predicate Separate()
      reads this
    {
      forall g, h | g in buckets && h in buckets && g != h :: buckets[g] != buckets[h]
    }

    /** The buckets are what the calls so far leave. */
    ghost predicate Valid()
      reads this, buckets.Values
    {
      Separate() && View() == After(perMinute, calls)
    }

    constructor (perMinute: int)
      ensures Valid() && calls == [] && this.perMinute == perMinute && buckets == map[]
    {
      this.perMinute, buckets, calls := perMinute, map[], [];
    }

    /** The guild's bucket, replaced if its minute is over. */
    method BucketFor(guild: string, now: int) returns (b: Bucket)
      requires Separate()
      modifies this`buckets
      ensures Separate() && fresh(buckets.Values - old(buckets.Values))
      ensures guild in buckets && b == buckets[guild]
      ensures View() == old(View())[guild := Current(Lookup(old(View()), guild), now)]
    {
      if guild !in buckets || now >= buckets[guild].resetAt {
        b := new Bucket(now + WINDOW_MS);
        buckets := buckets[guild := b];
      }
      b := buckets[guild];
    }

    /** No guild, or an empty id, is never limited. */
    method TryConsume(guildId: Option<string>, now: int) returns (allowed: bool)
      requires Valid()
      modifies this, buckets.Values
      ensures Valid() && fresh(buckets.Values - old(buckets.Values))
      ensures guildId.None? || guildId.value == "" ==> allowed && calls == old(calls)
      ensures guildId.Some? && guildId.value != "" ==>
                calls == old(calls) + [Call(guildId.value, now)] && allowed == Admits(perMinute, calls, |calls| - 1)
    {
      if guildId.None? || guildId.value == "" { return true; }
      var b := BucketFor(guildId.value, now);
      ghost var guild, n, windows := guildId.value, |calls|, After(perMinute, calls);
      assert View()[guild] == Current(Lookup(windows, guild), now);
      calls := calls + [Call(guild, now)];
      assert calls[..n] == old(calls);
      if b.count >= perMinute {
        assert !Admits(perMinute, calls, n);
        return false;
      }
      b.count := b.count + 1;
      assert View() == windows[guild := Consume(perMinute, Lookup(windows, guild), now)];
      return true;
    }

    /** Whatever the program was asked, in a minute it admitted fewer than twice the limit. */
    lemma ProgramBounded(guild: string, t: int)
      requires Valid() && perMinute >= 1 && InOrder(calls)
      ensures Admissions(perMinute, calls, guild, t, t + 60000) < 2 * perMinute
    {
      SlidingBound(perMinute, calls, guild, t);
    }
  }
}
