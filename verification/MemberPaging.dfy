/**
 Paging through a guild's cached members: each page asks for one row more than
 it shows, to know whether another page follows.
 */
module MemberPaging {
  import opened Options

  datatype Page<T> = Page(take: int, skip: int, hasMore: bool, nextSkip: Option<int>, items: seq<T>)

  function Take(raw: Option<int>): (t: int)
    ensures 1 <= t <= 500
  {
    var n := if raw.Some? then raw.value else 10;
    if n < 1 then 1 else if n > 500 then 500 else n
  }

  function Skip(raw: Option<int>): (s: int)
    ensures s >= 0
  {
    if raw.None? || raw.value < 0 then 0 else raw.value
  }

  /** OFFSET and LIMIT on a fixed order of rows. */
  function Rows<T>(members: seq<T>, skip: nat, limit: nat): seq<T> {
    if skip >= |members| then []
    else if skip + limit >= |members| then members[skip..]
    else members[skip..skip + limit]
  }

  function ListGuildMembers<T>(members: seq<T>, take: Option<int>, skip: Option<int>): Page<T> {
    var t, s := Take(take), Skip(skip);
    var rows := Rows(members, s, t + 1);
    var hasMore := |rows| > t;
    Page(t, s, hasMore, if hasMore then Some(s + t) else None, if hasMore then rows[..t] else rows)
  }

  /** What the two query parameters ask for: 1 to 500 rows, by default 10, from a row on, by default the first. */
  predicate Asks(take: Option<int>, skip: Option<int>, n: nat, from: nat) {
    && (if take.None? then n == 10 else if take.value < 1 then n == 1 else if take.value > 500 then n == 500 else n == take.value)
    && (if skip.None? || skip.value < 0 then from == 0 else from == skip.value)
  }

  /** A page holds as many rows as were asked for while so many remain, and says exactly whether more follow. */
  lemma PageHoldsWhatIsAsked<T>(members: seq<T>, take: Option<int>, skip: Option<int>, n: nat, from: nat)
    requires Asks(take, skip, n, from)
    ensures
      var page := ListGuildMembers(members, take, skip);
      && page.take == n && page.skip == from
      && (from + n <= |members| ==> page.items == members[from..from + n])
      && (from <= |members| < from + n ==> page.items == members[from..])
      && (from > |members| ==> page.items == [])
      && (page.hasMore <==> from + n < |members|)
      && page.nextSkip == if page.hasMore then Some(from + n) else None
  {
    var rows := Rows(members, from, n + 1);
    if from + n < |members| { assert rows[..n] == members[from..from + n]; }
  }

  /** The rows that a client sees who starts at `skip` and follows `nextSkip` to its end. */
  function Follow<T>(members: seq<T>, take: Option<int>, skip: Option<int>): seq<T>
    decreases if Skip(skip) < |members| then |members| - Skip(skip) else 0
  {
    var page := ListGuildMembers(members, take, skip);
    if page.hasMore then page.items + Follow(members, take, page.nextSkip) else page.items
  }

  /** Wherever it starts and whatever it asks for, a client sees every row from there on, once and in order. */
  lemma {:induction false} FollowingSeesAll<T>(members: seq<T>, take: Option<int>, skip: Option<int>)
    ensures Follow(members, take, skip) == if Skip(skip) < |members| then members[Skip(skip)..] else []
    decreases if Skip(skip) < |members| then |members| - Skip(skip) else 0
  {
    var page := ListGuildMembers(members, take, skip);
    if page.hasMore {
      FollowingSeesAll(members, take, page.nextSkip);
      var s, t := Skip(skip), Take(take);
      assert members[s..] == members[s..s + t] + members[s + t..];
    }
  }

  /** The number of requests it makes. */
  function Requests<T>(members: seq<T>, take: Option<int>, skip: Option<int>): nat
    decreases if Skip(skip) < |members| then |members| - Skip(skip) else 0
  {
    var page := ListGuildMembers(members, take, skip);
    1 + if page.hasMore then Requests(members, take, page.nextSkip) else 0
  }

  /** No request is wasted: all pages but the last are full, and the last is empty only if the first is. */
  lemma {:induction false} NoRequestWasted<T>(members: seq<T>, take: Option<int>, skip: Option<int>)
    requires Skip(skip) < |members|
    ensures
      var left, n := |members| - Skip(skip), Requests(members, take, skip);
      (n - 1) * Take(take) < left <= n * Take(take)
    decreases |members| - Skip(skip)
  {
    var page := ListGuildMembers(members, take, skip);
    if page.hasMore {
      NoRequestWasted(members, take, page.nextSkip);
      var n := Requests(members, take, page.nextSkip);
      assert (n + 1) * Take(take) == n * Take(take) + Take(take);
      assert n * Take(take) == (n - 1) * Take(take) + Take(take);
    }
  }
}
