/**
 The periodic member sync: every tick tries to enqueue one event per licensed
 guild, under a key made of the guild and the scheduler bucket.  Other workers
 run the same schedule and may insert between any two inserts.
 */
module MemberSync {
  type GuildId = nat

  datatype Key = Key(guild: GuildId, bucket: int)

  function Bucket(now: nat, intervalMs: int): int
    requires intervalMs > 0
  {
    now / intervalMs
  }

  /** Ticks fall into one bucket exactly when they are in one interval, and ticks an interval apart never do. */
  lemma BucketsAreIntervals(now: nat, later: nat, intervalMs: int)
    requires intervalMs > 0 && now <= later
    ensures Bucket(now, intervalMs) == Bucket(later, intervalMs)
       <==> exists b: int :: b * intervalMs <= now && later < (b + 1) * intervalMs
    ensures later >= now + intervalMs ==> Bucket(later, intervalMs) > Bucket(now, intervalMs)
  {
    var b, d := Bucket(now, intervalMs), Bucket(later, intervalMs);
    Bounds(now, intervalMs);
    Bounds(later, intervalMs);
    if b > d { AtLeast(b - d, intervalMs); }
    forall x: int | x * intervalMs <= now && later < (x + 1) * intervalMs ensures x == b == d {
      Within(now, intervalMs, x);
      Within(later, intervalMs, x);
    }
    if later >= now + intervalMs && d <= b { Ordered(d, b, intervalMs); }
  }

  lemma Bounds(now: nat, intervalMs: int)
    requires intervalMs > 0
    ensures Bucket(now, intervalMs) * intervalMs <= now < (Bucket(now, intervalMs) + 1) * intervalMs
  {
  }

  lemma AtLeast(k: int, d: int)
    requires k >= 1 && d > 0
    ensures k * d >= d
  {
  }

  lemma Ordered(x: int, y: int, d: int)
    requires x <= y && d > 0
    ensures x * d <= y * d
  {
  }

  lemma Within(now: nat, intervalMs: int, x: int)
    requires intervalMs > 0 && x * intervalMs <= now < (x + 1) * intervalMs
    ensures x == Bucket(now, intervalMs)
  {
    var b := Bucket(now, intervalMs);
    Bounds(now, intervalMs);
    if x > b { Ordered(b + 1, x, intervalMs); }
    if x < b { Ordered(x + 1, b, intervalMs); }
  }

  ghost predicate Unique(rows: seq<Key>) {
    forall i, j | 0 <= i < j < |rows| :: rows[i] != rows[j]
  }

  /** How many of the guilds' inserts the database answers. */
  function Reachable(guilds: seq<GuildId>, down: set<GuildId>): nat {
    if guilds == [] then 0
    else Reachable(guilds[..|guilds| - 1], down) + if guilds[|guilds| - 1] in down then 0 else 1
  }

  datatype Insert = Inserted | KeyTaken | OtherError

  class Outbox {
    var rows: seq<Key>

    ghost predicate Valid()
      reads this
    {
      Unique(rows)
    }

    constructor ()
      ensures Valid() && rows == []
    {
      rows := [];
    }

    /** The unique index refuses a second row with the same key; `up` tells whether the database answers. */
    method Create(key: Key, up: bool) returns (r: Insert)
      requires Valid()
      modifies this
      ensures Valid()
      ensures r == if !up then OtherError else if key in old(rows) then KeyTaken else Inserted
      ensures rows == if r.Inserted? then old(rows) + [key] else old(rows)
    {
      if !up { return OtherError; }
      if key in rows { return KeyTaken; }
      rows := rows + [key];
      r := Inserted;
    }

    /** Other workers' inserts; none when it is `quiet`. */
    method Interfere(quiet: bool)
      requires Valid()
      modifies this
      ensures Valid() && old(rows) <= rows && (quiet ==> rows == old(rows))
    {
      if quiet { return; }
      var keys: seq<Key> := *;
      for i := 0 to |keys|
        invariant Valid() && old(rows) <= rows
      {
        if keys[i] !in rows { rows := rows + [keys[i]]; }
      }
    }

    /** One guild's turn: others may insert before it. */
    method EnqueueFor(key: Key, up: bool, quiet: bool) returns (r: Insert)
      requires Valid()
      modifies this
      ensures Valid() && old(rows) <= rows
      ensures r.OtherError? <==> !up
      ensures up ==> key in rows
      ensures r.Inserted? ==> key !in old(rows)
      ensures quiet ==> rows == if r.Inserted? then old(rows) + [key] else old(rows)
    {
      ghost var before := rows;
      Interfere(quiet);
      assert forall k | k in before :: k in rows;
      r := Create(key, up);
    }

    /**
     However many workers run it at once, a guild gets at most one event per
     bucket.  `down` are the guilds whose insert fails for another reason; after
     the tick every other guild has its event, and `own` are those this tick made:
     when nobody interferes, one for every guild that had none in this bucket.
     */
    method RunMemberSyncSchedule(guilds: seq<GuildId>, now: nat, intervalMs: int, down: set<GuildId>, quiet: bool)
      returns (enqueued: nat, skipped: nat, ghost own: seq<Key>)
      requires Valid()
      modifies this
      ensures Valid() && old(rows) <= rows
      ensures intervalMs <= 0 ==> rows == old(rows) && enqueued == skipped == 0
      ensures intervalMs > 0 ==>
                && enqueued + skipped == Reachable(guilds, down)
                && (forall g | g in guilds && g !in down :: Key(g, Bucket(now, intervalMs)) in rows)
                && |own| == enqueued && Unique(own)
                && (quiet ==> forall g | g in guilds && g !in down && Key(g, Bucket(now, intervalMs)) !in old(rows) ::
                      Key(g, Bucket(now, intervalMs)) in own)
                && (forall k | k in own ::
                      k.bucket == Bucket(now, intervalMs) && k.guild in guilds && k in rows && k !in old(rows))
    {
      enqueued, skipped, own := 0, 0, [];
      if intervalMs <= 0 { return; }
      var bucket := Bucket(now, intervalMs);
      for i := 0 to |guilds|
        invariant Valid() && old(rows) <= rows && enqueued + skipped == Reachable(guilds[..i], down)
        invariant forall g | g in guilds[..i] && g !in down :: Key(g, bucket) in rows
        invariant |own| == enqueued && Unique(own)
        invariant quiet ==> forall k | k in rows :: k in old(rows) || k in own
        invariant forall k | k in own :: k.bucket == bucket && k.guild in guilds && k in rows && k !in old(rows)
      {
        ghost var before := rows;
        var r := EnqueueFor(Key(guilds[i], bucket), guilds[i] !in down, quiet);
        assert forall k | k in before :: k in rows;
        assert guilds[..i + 1] == guilds[..i] + [guilds[i]];
        match r
        case Inserted =>
          enqueued := enqueued + 1;
          own := own + [Key(guilds[i], bucket)];
        case KeyTaken => skipped := skipped + 1;
        case OtherError =>
      }
      assert guilds[..|guilds|] == guilds;
    }
  }
}
