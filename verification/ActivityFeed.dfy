/**
 The live activity feed.  A timer polls the audit log: each poll is issued with
 the watermark of the moment, later reads the first hundred rows after it, and
 later still answers, sending its rows and moving the watermark.  The timer does
 not wait for answers, so polls can overlap.
 */
module ActivityFeed {
  const PAGE := 100

  type PollId = nat

  datatype Row = Row(id: nat, timestamp: int)

  predicate Before(a: Row, b: Row) {
    a.timestamp < b.timestamp || (a.timestamp == b.timestamp && a.id < b.id)
  }

  /** The rows after `since`, ordered by timestamp and id, cut off after a hundred. */
  ghost predicate IsPage(table: set<Row>, since: int, page: seq<Row>) {
    && |page| <= PAGE
    && (forall i, j | 0 <= i < j < |page| :: Before(page[i], page[j]))
    && (forall r | r in page :: r in table && r.timestamp > since)
    && (forall r | r in table && r.timestamp > since && r !in page ::
          |page| == PAGE && Before(page[|page| - 1], r))
  }

  /** An empty answer gives the old watermark back. */
  function Watermark(since: int, page: seq<Row>): int {
    if page == [] then since else page[|page| - 1].timestamp
  }

  /** `table` is the audit log as the poll read it. */
  datatype Poll = Issued(since: int) | Read(since: int, page: seq<Row>, table: set<Row>)

  datatype Stream = Stream(table: set<Row>, watermark: int, sent: seq<Row>, polls: map<PollId, Poll>)

  datatype Event =
    | Logged(row: Row)
    | Issue(p: PollId)
    | Query(p: PollId, page: seq<Row>)
    | Answer(p: PollId)

  ghost predicate Enabled(s: Stream, e: Event) {
    match e
    case Logged(row) => forall r | r in s.table :: r.id != row.id
    case Issue(p) => p !in s.polls
    case Query(p, page) => p in s.polls && s.polls[p].Issued? && IsPage(s.table, s.polls[p].since, page)
    case Answer(p) => p in s.polls && s.polls[p].Read?
  }

  ghost function Apply(s: Stream, e: Event): Stream
    requires Enabled(s, e)
  {
    match e
    case Logged(row) => s.(table := s.table + {row})
    case Issue(p) => s.(polls := s.polls[p := Issued(s.watermark)])
    case Query(p, page) => s.(polls := s.polls[p := Read(s.polls[p].since, page, s.table)])
    case Answer(p) =>
      var q := s.polls[p];
      s.(watermark := Watermark(q.since, q.page), sent := s.sent + q.page, polls := s.polls - {p})
  }

  ghost predicate StepAt(states: seq<Stream>, events: seq<Event>, i: nat)
    requires i < |events| < |states|
  {
    Enabled(states[i], events[i]) && states[i + 1] == Apply(states[i], events[i])
  }

  ghost predicate Run(states: seq<Stream>, events: seq<Event>) {
    && |states| == |events| + 1 && states[0].sent == [] && states[0].polls == map[]
    && forall i | 0 <= i < |events| :: StepAt(states, events, i)
  }

  /** No poll is issued while another is open. */
  ghost predicate NoOverlap(states: seq<Stream>, events: seq<Event>)
    requires |events| < |states|
  {
    forall i | 0 <= i < |events| && events[i].Issue? :: states[i].polls == map[]
  }

  // ---------- how often a row is sent, in any run ----------

  function Count(rows: seq<Row>, r: Row): nat {
    if rows == [] then 0 else Count(rows[..|rows| - 1], r) + if rows[|rows| - 1] == r then 1 else 0
  }

  lemma {:induction false} CountConcat(xs: seq<Row>, ys: seq<Row>, r: Row)
    ensures Count(xs + ys, r) == Count(xs, r) + Count(ys, r)
  {
    if ys == [] {
      assert xs + ys == xs;
    } else {
      var n := |ys| - 1;
      CountConcat(xs, ys[..n], r);
      assert (xs + ys)[..|xs + ys| - 1] == xs + ys[..n];
    }
  }

  lemma {:induction false} CountInPage(page: seq<Row>, r: Row)
    requires forall i, j | 0 <= i < j < |page| :: Before(page[i], page[j])
    ensures Count(page, r) == if r in page then 1 else 0
  {
    if page != [] {
      var n := |page| - 1;
      CountInPage(page[..n], r);
      assert page == page[..n] + [page[n]];
    }
  }

  /** Step `i` answers with a page that contains `r`. */
  ghost predicate Delivers(states: seq<Stream>, events: seq<Event>, i: nat, r: Row)
    requires i < |events| < |states|
  {
    events[i].Answer? && events[i].p in states[i].polls && states[i].polls[events[i].p].Read?
    && r in states[i].polls[events[i].p].page
  }

  ghost function Deliveries(states: seq<Stream>, events: seq<Event>, k: nat, r: Row): nat
    requires k <= |events| < |states|
  {
    if k == 0 then 0 else Deliveries(states, events, k - 1, r) + if Delivers(states, events, k - 1, r) then 1 else 0
  }

  /** What an open poll has read is a page of the log as it then was. */
  ghost predicate PollOk(s: Stream, p: PollId)
    requires p in s.polls
  {
    s.polls[p].Read? ==> s.polls[p].table <= s.table && IsPage(s.polls[p].table, s.polls[p].since, s.polls[p].page)
  }

  lemma {:induction false} PollsOk(states: seq<Stream>, events: seq<Event>, k: nat)
    requires Run(states, events) && k < |states|
    ensures forall p | p in states[k].polls :: PollOk(states[k], p)
  {
    if k > 0 {
      PollsOk(states, events, k - 1);
      assert StepAt(states, events, k - 1);
      forall p | p in states[k].polls ensures PollOk(states[k], p) {
        if p in states[k - 1].polls { assert PollOk(states[k - 1], p); }
      }
    }
  }

  /** In every run, overlapping or not, a row has been sent exactly as often as answers contained it. */
  lemma {:induction false} SentAsOftenAsAnswered(states: seq<Stream>, events: seq<Event>, k: nat, r: Row)
    requires Run(states, events) && k < |states|
    ensures Count(states[k].sent, r) == Deliveries(states, events, k, r)
  {
    if k > 0 {
      SentAsOftenAsAnswered(states, events, k - 1, r);
      PollsOk(states, events, k - 1);
      assert StepAt(states, events, k - 1);
      if events[k - 1].Answer? {
        var q := states[k - 1].polls[events[k - 1].p];
        assert PollOk(states[k - 1], events[k - 1].p);
        CountConcat(states[k - 1].sent, q.page, r);
        CountInPage(q.page, r);
      }
    }
  }

  lemma {:induction false} TwoDeliveries(states: seq<Stream>, events: seq<Event>, i: nat, j: nat, k: nat, r: Row)
    requires i < j < k <= |events| < |states| && Delivers(states, events, i, r) && Delivers(states, events, j, r)
    ensures Deliveries(states, events, k, r) >= 2
  {
    if k == j + 1 {
      OneDelivery(states, events, i, j, r);
    } else {
      TwoDeliveries(states, events, i, j, k - 1, r);
    }
  }

  lemma {:induction false} OneDelivery(states: seq<Stream>, events: seq<Event>, i: nat, k: nat, r: Row)
    requires i < k <= |events| < |states| && Delivers(states, events, i, r)
    ensures Deliveries(states, events, k, r) >= 1
  {
    if k > i + 1 { OneDelivery(states, events, i, k - 1, r); }
  }

  /**
   Two polls issued from one watermark repeat each other: whichever answers first,
   if the one that read the log later got a page that is not full, it contains
   every row of the other, and all those rows are sent twice.
   */
  lemma OverlappingPollsRepeat(states: seq<Stream>, events: seq<Event>, i: nat, j: nat, k: nat, r: Row)
    requires Run(states, events) && i < k <= |events| && j < k && i != j
    requires events[i].Answer? && events[j].Answer?
    requires events[i].p in states[i].polls && events[j].p in states[j].polls
    requires
      var a, b := states[i].polls[events[i].p], states[j].polls[events[j].p];
      a.Read? && b.Read? && a.since == b.since && a.table <= b.table && |b.page| < PAGE && r in a.page
    ensures Count(states[k].sent, r) >= 2
  {
    PollsOk(states, events, i);
    PollsOk(states, events, j);
    assert PollOk(states[i], events[i].p) && PollOk(states[j], events[j].p);
    assert Delivers(states, events, i, r) && Delivers(states, events, j, r);
    SentAsOftenAsAnswered(states, events, k, r);
    if i < j { TwoDeliveries(states, events, i, j, k, r); } else { TwoDeliveries(states, events, j, i, k, r); }
  }

  // ---------- polls that do not overlap: nothing twice ----------

  /** At most one poll is open, it started from the watermark, and what was sent is in order and not after it. */
  ghost predicate Inv(start: int, s: Stream) {
    && (forall p, q | p in s.polls && q in s.polls :: p == q)
    && (forall p | p in s.polls :: s.polls[p].since == s.watermark && PollOk(s, p))
    && start <= s.watermark
    && (forall i, j | 0 <= i < j < |s.sent| :: Before(s.sent[i], s.sent[j]))
    && (forall r | r in s.sent :: r in s.table && start < r.timestamp <= s.watermark)
  }

  lemma LastIsLatest(table: set<Row>, since: int, page: seq<Row>)
    requires IsPage(table, since, page)
    ensures since <= Watermark(since, page) && forall r | r in page :: since < r.timestamp <= Watermark(since, page)
  {
    if page != [] {
      var n := |page| - 1;
      assert page[n] in page;
      forall r | r in page ensures r.timestamp <= page[n].timestamp {
        var i :| 0 <= i <= n && page[i] == r;
        assert i < n ==> Before(page[i], page[n]);
      }
    }
  }

  lemma AnswerKeepsInv(start: int, s: Stream, p: PollId)
    requires Inv(start, s) && Enabled(s, Answer(p))
    ensures Inv(start, Apply(s, Answer(p))) && s.watermark <= Apply(s, Answer(p)).watermark
  {
    var t, q := Apply(s, Answer(p)), s.polls[p];
    assert PollOk(s, p);
    LastIsLatest(q.table, q.since, q.page);
    forall i, j | 0 <= i < j < |t.sent| ensures Before(t.sent[i], t.sent[j]) {
      if i < |s.sent| <= j { assert s.sent[i] in s.sent && q.page[j - |s.sent|] in q.page; }
    }
  }

  lemma StepKeepsInv(start: int, s: Stream, e: Event)
    requires Inv(start, s) && Enabled(s, e) && (e.Issue? ==> s.polls == map[])
    ensures Inv(start, Apply(s, e)) && s.watermark <= Apply(s, e).watermark
  {
    match e
    case Answer(p) => AnswerKeepsInv(start, s, p);
    case _ =>
      assert forall p | p in s.polls :: PollOk(s, p);
  }

  lemma {:induction false} RunKeepsInv(states: seq<Stream>, events: seq<Event>, k: nat)
    requires Run(states, events) && NoOverlap(states, events) && k < |states|
    ensures Inv(states[0].watermark, states[k])
  {
    if k > 0 {
      RunKeepsInv(states, events, k - 1);
      assert StepAt(states, events, k - 1);
      StepKeepsInv(states[0].watermark, states[k - 1], events[k - 1]);
    }
  }

  /**
   When no poll is issued while another is open, the feed is strictly ordered, so
   no row appears twice, and the watermark never falls.
   */
  lemma NothingTwice(states: seq<Stream>, events: seq<Event>, k: nat)
    requires Run(states, events) && NoOverlap(states, events) && k < |states|
    ensures forall i, j | 0 <= i < j < |states[k].sent| ::
              Before(states[k].sent[i], states[k].sent[j]) && states[k].sent[i] != states[k].sent[j]
    ensures k > 0 ==> states[k - 1].watermark <= states[k].watermark
  {
    RunKeepsInv(states, events, k);
    if k > 0 {
      RunKeepsInv(states, events, k - 1);
      assert StepAt(states, events, k - 1);
      StepKeepsInv(states[0].watermark, states[k - 1], events[k - 1]);
    }
  }

  // ---------- everything: exactly when ----------

  /** The watermark that a poll will set, as far as that is decided. */
  function Reach(q: Poll): int {
    if q.Issued? then q.since else Watermark(q.since, q.page)
  }

  /** The row was sent, and every open poll that will pass it sends it or finds it sent. */
  ghost predicate CoversRow(s: Stream, r: Row) {
    && (r.timestamp <= s.watermark ==> r in s.sent)
    && (forall p | p in s.polls && r.timestamp <= Reach(s.polls[p]) ::
          r in s.sent || (s.polls[p].Read? && r in s.polls[p].page))
  }

  ghost predicate Covered(start: int, s: Stream) {
    forall r | r in s.table && r.timestamp > start :: CoversRow(s, r)
  }

  /** A row is logged after the watermark and all open polls, and no full page ends inside a group of equal timestamps. */
  ghost predicate Safe(start: int, s: Stream, e: Event) {
    match e
    case Logged(row) =>
      || row.timestamp <= start
      || (row.timestamp > s.watermark && forall p | p in s.polls :: row.timestamp > Reach(s.polls[p]))
    case Query(_, page) =>
      page != [] ==> forall r | r in s.table && r.timestamp == page[|page| - 1].timestamp :: r in page
    case _ => true
  }

  /** A page that does not cut a group of equal timestamps contains all that its watermark passes. */
  lemma WholeGroupInPage(table: set<Row>, since: int, page: seq<Row>, r: Row)
    requires IsPage(table, since, page) && r in table && since < r.timestamp <= Watermark(since, page)
    requires page != [] ==> forall x | x in table && x.timestamp == page[|page| - 1].timestamp :: x in page
    ensures r in page
  {
  }

  lemma SafeStepCovers(start: int, s: Stream, e: Event)
    requires Covered(start, s) && Enabled(s, e) && Safe(start, s, e)
    ensures Covered(start, Apply(s, e))
  {
    var t := Apply(s, e);
    forall r | r in t.table && r.timestamp > start ensures CoversRow(t, r) {
      if r in s.table {
        assert CoversRow(s, r);
        if e.Query? && s.polls[e.p].since < r.timestamp <= Watermark(s.polls[e.p].since, e.page) {
          WholeGroupInPage(s.table, s.polls[e.p].since, e.page, r);
        }
      }
    }
  }

  /** In every run, overlapping or not, whose steps are safe nothing that the watermark has passed is missing. */
  lemma {:induction false} SafeRunMissesNothing(states: seq<Stream>, events: seq<Event>, k: nat)
    requires Run(states, events) && k < |states|
    requires forall i | 0 <= i < k :: Safe(states[0].watermark, states[i], events[i])
    ensures Covered(states[0].watermark, states[k])
  {
    if k > 0 {
      SafeRunMissesNothing(states, events, k - 1);
      assert StepAt(states, events, k - 1);
      SafeStepCovers(states[0].watermark, states[k - 1], events[k - 1]);
    }
  }

  lemma UnsafeStepLoses(start: int, s: Stream, e: Event) returns (r: Row)
    requires Inv(start, s) && Enabled(s, e) && !Safe(start, s, e)
    ensures r in Apply(s, e).table && r.timestamp > start && !CoversRow(Apply(s, e), r)
  {
    match e
    case Logged(row) =>
      r := row;
      forall p | p in s.polls ensures row !in s.sent && (s.polls[p].Read? ==> row !in s.polls[p].page) {
        assert PollOk(s, p);
      }
    case Query(p, page) =>
      r :| r in s.table && r.timestamp == page[|page| - 1].timestamp && r !in page;
      assert page[|page| - 1] in page;
      var t := Apply(s, e);
      assert p in t.polls && Reach(t.polls[p]) == r.timestamp;
  }

  lemma LossStays(start: int, s: Stream, e: Event, r: Row)
    requires Inv(start, s) && Enabled(s, e) && (e.Issue? ==> s.polls == map[])
    requires r in s.table && r.timestamp > start && !CoversRow(s, r)
    ensures r in Apply(s, e).table && !CoversRow(Apply(s, e), r)
  {
    var t := Apply(s, e);
    if r.timestamp <= s.watermark {
      assert r !in s.sent by {
        if r in s.sent { assert CoversRow(s, r); }
      }
      if e.Answer? {
        assert PollOk(s, e.p);
        LastIsLatest(s.polls[e.p].table, s.polls[e.p].since, s.polls[e.p].page);
      }
    } else {
      var p :| p in s.polls && r.timestamp <= Reach(s.polls[p])
               && r !in s.sent && !(s.polls[p].Read? && r in s.polls[p].page);
      if !e.Answer? { assert p in t.polls && t.polls[p] == s.polls[p]; }
    }
  }

  /** Without overlap a row left behind is never sent. */
  lemma {:induction false} LeftBehindForever(states: seq<Stream>, events: seq<Event>, i: nat, k: nat, r: Row)
    requires Run(states, events) && NoOverlap(states, events) && i <= k < |states|
    requires r in states[i].table && r.timestamp > states[0].watermark && !CoversRow(states[i], r)
    ensures r in states[k].table && !CoversRow(states[k], r)
  {
    if i < k {
      LeftBehindForever(states, events, i, k - 1, r);
      RunKeepsInv(states, events, k - 1);
      assert StepAt(states, events, k - 1);
      LossStays(states[0].watermark, states[k - 1], events[k - 1], r);
    }
  }

  /**
   When polls do not overlap, every row that the feed has passed was sent, and
   exactly once, if and only if no row was logged behind it and no full page cut
   a group of equal timestamps.
   */
  lemma EverythingOnceExactlyWhen(states: seq<Stream>, events: seq<Event>)
    requires Run(states, events) && NoOverlap(states, events)
    ensures Covered(states[0].watermark, states[|events|])
       <==> forall i | 0 <= i < |events| :: Safe(states[0].watermark, states[i], events[i])
  {
    var start := states[0].watermark;
    if forall i | 0 <= i < |events| :: Safe(start, states[i], events[i]) {
      SafeRunMissesNothing(states, events, |events|);
    } else {
      var i :| 0 <= i < |events| && !Safe(start, states[i], events[i]);
      RunKeepsInv(states, events, i);
      assert StepAt(states, events, i);
      var r := UnsafeStepLoses(start, states[i], events[i]);
      LeftBehindForever(states, events, i + 1, |events|, r);
    }
  }

  // ---------- overlap happens ----------

  lemma Extend(states: seq<Stream>, events: seq<Event>, e: Event) returns (states': seq<Stream>, events': seq<Event>, s: Stream)
    requires Run(states, events) && Enabled(states[|events|], e)
    ensures Run(states', events') && s == Apply(states[|events|], e)
    ensures states' == states + [s] && events' == events + [e]
  {
    s := Apply(states[|events|], e);
    states', events' := states + [s], events + [e];
    forall i | 0 <= i < |events'| ensures StepAt(states', events', i) {
      if i < |events| { assert StepAt(states, events, i); }
    }
  }

  /** One poll has read row `a` and another has been issued from the same watermark. */
  lemma BothOpen(a: Row, since: int) returns (states: seq<Stream>, events: seq<Event>, s: Stream)
    requires since < a.timestamp
    ensures Run(states, events) && s == states[|events|]
    ensures s == Stream({a}, since, [], map[0 := Read(since, [a], {a}), 1 := Issued(since)])
  {
    s := Stream({}, since, [], map[]);
    states, events, s := Extend([s], [], Logged(a));
    assert s.table == {a};
    states, events, s := Extend(states, events, Issue(0));
    states, events, s := Extend(states, events, Query(0, [a]));
    states, events, s := Extend(states, events, Issue(1));
  }

  /** A poll that answers late repeats a row and sets the watermark back, for any two rows logged in order. */
  lemma LateAnswerFallsBack(a: Row, b: Row, since: int) returns (states: seq<Stream>, events: seq<Event>)
    requires since < a.timestamp < b.timestamp && a.id != b.id
    ensures Run(states, events) && |events| > 0
    ensures
      var before, after := states[|events| - 1], states[|events|];
      after.sent == [a, b, a] && before.watermark == b.timestamp && after.watermark == a.timestamp
  {
    var s;
    states, events, s := BothOpen(a, since);
    states, events, s := Extend(states, events, Logged(b));
    assert s.table == {a, b};
    states, events, s := Extend(states, events, Query(1, [a, b]));
    states, events, s := Extend(states, events, Answer(1));
    assert s.polls == map[0 := Read(since, [a], {a})] && s.sent == [a, b] && s.watermark == b.timestamp;
    states, events, s := Extend(states, events, Answer(0));
  }

  // ---------- the program ----------

  /** Puts a row into its place in an ordered list. */
  method Insert(sorted: seq<Row>, r: Row) returns (more: seq<Row>)
    requires forall i, j | 0 <= i < j < |sorted| :: Before(sorted[i], sorted[j])
    requires r !in sorted
    ensures forall i, j | 0 <= i < j < |more| :: Before(more[i], more[j])
    ensures forall x :: x in more <==> x in sorted || x == r
  {
    var i := 0;
    while i < |sorted| && Before(sorted[i], r)
      invariant 0 <= i <= |sorted| && forall j | 0 <= j < i :: Before(sorted[j], r)
    {
      i := i + 1;
    }
    more := sorted[..i] + [r] + sorted[i..];
  }

  /** The query of a poll. */
  method FindMany(table: set<Row>, since: int) returns (page: seq<Row>)
    ensures IsPage(table, since, page) && |page| <= 100
    ensures forall i, j | 0 <= i < j < |page| ::
              page[i].timestamp < page[j].timestamp || (page[i].timestamp == page[j].timestamp && page[i].id < page[j].id)
    ensures forall r | r in page :: r in table && r.timestamp > since
    ensures forall r | r in table && r.timestamp > since && r !in page ::
              |page| == 100 && (page[99].timestamp < r.timestamp || (page[99].timestamp == r.timestamp && page[99].id < r.id))
  {
    var rest, sorted: seq<Row> := table, [];
    while rest != {}
      invariant rest <= table && forall i, j | 0 <= i < j < |sorted| :: Before(sorted[i], sorted[j])
      invariant forall r :: r in sorted <==> r in table && r !in rest && r.timestamp > since
      decreases rest
    {
      var r :| r in rest;
      rest := rest - {r};
      if r.timestamp > since { sorted := Insert(sorted, r); }
    }
    page := if |sorted| > PAGE then sorted[..PAGE] else sorted;
  }

  class ActivityStream {
    var table: set<Row>
    var watermark: int
    var sent: seq<Row>
    var polls: map<PollId, Poll>
    ghost var states: seq<Stream>
    ghost var events: seq<Event>

    function View(): Stream
      reads this
    {
      Stream(table, watermark, sent, polls)
    }

    ghost predicate Valid()
      reads this
    {
      Run(states, events) && states[|events|] == View()
    }

    /** A new stream looks back five seconds. */
    constructor (table: set<Row>, now: int)
      ensures Valid() && events == [] && View() == Stream(table, now - 5000, [], map[])
    {
      this.table, watermark, sent, polls := table, now - 5000, [], map[];
      states, events := [Stream(table, now - 5000, [], map[])], [];
    }

    ghost method Record(e: Event)
      requires Run(states, events) && Enabled(states[|events|], e) && View() == Apply(states[|events|], e)
      modifies this`states, this`events
      ensures Valid() && events == old(events) + [e]
    {
      var n := |events|;
      states, events := states + [View()], events + [e];
      forall i | 0 <= i < |events| ensures StepAt(states, events, i) {
        if i < n { assert StepAt(old(states), old(events), i); }
      }
    }

    /** Somebody logs an audit row. */
    method Log(row: Row)
      requires Valid() && forall r | r in table :: r.id != row.id
      modifies this
      ensures Valid() && events == old(events) + [Logged(row)]
      ensures View() == old(View()).(table := old(table) + {row})
    {
      table := table + {row};
      Record(Logged(row));
    }

    /** The timer fires: the poll takes the watermark of this moment, whatever else is open. */
    method OnInterval(p: PollId)
      requires Valid() && p !in polls
      modifies this
      ensures Valid() && events == old(events) + [Issue(p)]
      ensures View() == old(View()).(polls := old(polls)[p := Issued(old(watermark))])
    {
      polls := polls[p := Issued(watermark)];
      Record(Issue(p));
    }

    method PollAuditSince(p: PollId) returns (page: seq<Row>)
      requires Valid() && p in polls && polls[p].Issued?
      modifies this
      ensures Valid() && events == old(events) + [Query(p, page)] && IsPage(table, old(polls)[p].since, page)
      ensures table == old(table) && watermark == old(watermark) && sent == old(sent)
      ensures polls == old(polls)[p := Read(old(polls)[p].since, page, table)]
    {
      page := FindMany(table, polls[p].since);
      polls := polls[p := Read(polls[p].since, page, table)];
      Record(Query(p, page));
    }

    /** The poll's promise resolves: the watermark is overwritten, then the rows are sent one by one. */
    method OnAnswer(p: PollId)
      requires Valid() && p in polls && polls[p].Read?
      modifies this
      ensures Valid() && events == old(events) + [Answer(p)]
      ensures
        var page := old(polls)[p].page;
        watermark == if page == [] then old(polls)[p].since else page[|page| - 1].timestamp
      ensures sent == old(sent) + old(polls)[p].page && polls == old(polls) - {p} && table == old(table)
    {
      var items := polls[p].page;
      watermark := if |items| == 0 then polls[p].since else items[|items| - 1].timestamp;
      for i := 0 to |items|
        invariant sent == old(sent) + items[..i]
        invariant watermark == Watermark(old(polls)[p].since, items)
        invariant table == old(table) && polls == old(polls) && states == old(states) && events == old(events)
      {
        sent := sent + [items[i]];
        assert items[..i + 1] == items[..i] + [items[i]];
      }
      assert items[..|items|] == items;
      polls := polls - {p};
      Record(Answer(p));
    }

    /** As long as the timer never fires while a poll is open, nothing has been sent twice. */
    lemma ProgramSendsOnce()
      requires Valid() && NoOverlap(states, events)
      ensures forall i, j | 0 <= i < j < |sent| :: sent[i] != sent[j]
    {
      NothingTwice(states, events, |events|);
    }
  }
}
