/** The arrival-clock follow loop: the `poll` closure of observed_time_test.go, documented in README.md,
    over the observed-time part of build_log_query (rust/src/lib.rs). */
module LogTail {
  import opened Wrappers
  import opened Ordering

  /** A stored record; a producer need not send an observed time. */
  datatype Record = Record(id: nat, observed: Option<int>)

  /** LogEntry.ObservedTime: 0 for a missing one. */
  function ObservedTime(r: Record): int {
    if r.observed.Some? then r.observed.value else 0
  }

  /** observed_after: 0 means no filter; otherwise strictly later, and never a missing time. */
  predicate Matches(r: Record, watermark: int) {
    watermark != 0 ==> r.observed.Some? && r.observed.value > watermark
  }

  /** ORDER BY observed_time, missing times last; ties in any order. */
  predicate NotAfter(a: Record, b: Record) {
    b.observed == None || (a.observed.Some? && a.observed.value <= b.observed.value)
  }

  datatype Tail = Tail(store: seq<Record>, watermark: int, delivered: seq<Record>)

  /** Records arrive, or the loop polls; `full` is the engine's ordered list of matches before LIMIT. */
  datatype Event = Arrive(recs: seq<Record>) | Poll(full: seq<Record>)

  ghost predicate IsMatchList(store: seq<Record>, watermark: int, full: seq<Record>) {
    && Distinct(full)
    && (forall r :: r in full <==> r in store && Matches(r, watermark))
    && (forall i, j :: 0 <= i < j < |full| ==> NotAfter(full[i], full[j]))
  }

  ghost predicate Legal(t: Tail, e: Event) {
    match e
    case Arrive(recs) => Distinct(t.store + recs)
    case Poll(full) => IsMatchList(t.store, t.watermark, full)
  }

  function Limited(full: seq<Record>, limit: nat): seq<Record> {
    if |full| <= limit then full else full[..limit]
  }

  /** The watermark after the entries of one poll. */
  function Advance(watermark: int, entries: seq<Record>): int {
    if entries == [] then watermark
    else
      var w := Advance(watermark, entries[..|entries| - 1]);
      var o := ObservedTime(entries[|entries| - 1]);
      if o > w then o else w
  }

  function Step(t: Tail, limit: nat, e: Event): Tail {
    match e
    case Arrive(recs) => t.(store := t.store + recs)
    case Poll(full) =>
      var entries := Limited(full, limit);
      Tail(t.store, Advance(t.watermark, entries), t.delivered + entries)
  }

  /** The loop's two captured variables. */
  class Follower {
    var watermark: int
    var delivered: seq<Record>

    constructor ()
      ensures watermark == 0 && delivered == []
    {
      watermark, delivered := 0, [];
    }

    /** poll, given what the query returned. */
    method PollOnce(entries: seq<Record>)
      modifies this
      ensures delivered == old(delivered) + entries
      ensures watermark >= old(watermark)
      ensures forall r :: r in entries && r.observed.Some? ==> r.observed.value <= watermark
      ensures watermark == old(watermark) || (exists r :: r in entries && r.observed == Some(watermark)) ||
              (old(watermark) < 0 && watermark == 0)
      ensures watermark == Advance(old(watermark), entries)
    {
      for i := 0 to |entries|
        invariant delivered == old(delivered) + entries[..i]
        invariant watermark == Advance(old(watermark), entries[..i])
      {
        var e := entries[i];
        assert entries[..i + 1][..i] == entries[..i];
        delivered := delivered + [e];
        if ObservedTime(e) > watermark {
          watermark := ObservedTime(e);
        }
      }
      assert entries[..|entries|] == entries;
      AdvanceBounds(old(watermark), entries);
    }
  }

  ghost predicate IsRun(t: Tail, limit: nat, events: seq<Event>, u: Tail)
    decreases |events|
  {
    if events == [] then t == u
    else Legal(t, events[0]) && IsRun(Step(t, limit, events[0]), limit, events[1..], u)
  }

  const START := Tail([], 0, [])

  // ---------------------------------------------------------------- the watermark

  lemma {:induction false} AdvanceBounds(w: int, entries: seq<Record>)
    ensures Advance(w, entries) >= w
    ensures forall r :: r in entries ==> ObservedTime(r) <= Advance(w, entries)
    ensures Advance(w, entries) == w || exists r :: r in entries && ObservedTime(r) == Advance(w, entries)
  {
    if entries != [] {
      var n := |entries| - 1;
      AdvanceBounds(w, entries[..n]);
      assert entries == entries[..n] + [entries[n]];
      var o := ObservedTime(entries[n]);
      if o > Advance(w, entries[..n]) {
        assert entries[n] in entries;
      }
    }
  }

  predicate Positive(r: Record) {
    r.observed.Some? && r.observed.value > 0
  }

  // ---------------------------------------------------------------- at most once

  /** What was delivered lies at or below the watermark, and each positive record only once. */
  ghost predicate OnceOk(t: Tail) {
    && t.watermark >= 0
    && Distinct(t.store)
    && (forall r :: r in t.delivered ==> r in t.store && ObservedTime(r) <= t.watermark)
    && (forall r :: Positive(r) ==> multiset(t.delivered)[r] <= 1)
  }

  lemma {:induction false} DistinctOnce(s: seq<Record>, r: Record)
    requires Distinct(s)
    ensures multiset(s)[r] <= 1
  {
    if s != [] {
      var n := |s| - 1;
      DistinctOnce(s[..n], r);
      assert s == s[..n] + [s[n]];
      assert s[n] !in s[..n];
      assert multiset(s) == multiset(s[..n]) + multiset{s[n]};
    }
  }

  lemma OnceStep(t: Tail, limit: nat, e: Event)
    requires OnceOk(t) && Legal(t, e)
    ensures OnceOk(Step(t, limit, e))
  {
    if e.Poll? {
      var entries := Limited(e.full, limit);
      AdvanceBounds(t.watermark, entries);
      assert forall r :: r in entries ==> r in e.full;
      forall r | Positive(r)
        ensures multiset(t.delivered + entries)[r] <= 1
      {
        DistinctOnce(entries, r);
        assert r in entries ==> r !in t.delivered;
        assert r in t.delivered <==> multiset(t.delivered)[r] > 0;
        assert r in entries <==> multiset(entries)[r] > 0;
      }
    } else {
      var all := t.store + e.recs;
      assert forall r :: r in t.store ==> r in all;
    }
  }

  lemma {:induction false} OnceRun(t: Tail, limit: nat, events: seq<Event>, u: Tail)
    requires OnceOk(t) && IsRun(t, limit, events, u)
    ensures OnceOk(u)
    decreases |events|
  {
    if events != [] {
      OnceStep(t, limit, events[0]);
      OnceRun(Step(t, limit, events[0]), limit, events[1..], u);
    }
  }

  /** Polls of a run that were issued at watermark 0 and returned `r`. */
  ghost function ZeroPolls(t: Tail, limit: nat, events: seq<Event>, r: Record): nat
    decreases |events|
  {
    if events == [] then 0
    else (if events[0].Poll? && t.watermark == 0 && r in Limited(events[0].full, limit) then 1 else 0)
         + ZeroPolls(Step(t, limit, events[0]), limit, events[1..], r)
  }

  lemma LimitedIsDistinct(full: seq<Record>, limit: nat, r: Record)
    requires Distinct(full)
    ensures multiset(Limited(full, limit))[r] == if r in Limited(full, limit) then 1 else 0
  {
    DistinctOnce(Limited(full, limit), r);
    assert r in multiset(Limited(full, limit)) <==> r in Limited(full, limit);
  }

  /** A record without a positive observed time is delivered by every such poll, and by no other. */
  lemma {:induction false} NonPositiveCount(t: Tail, limit: nat, events: seq<Event>, u: Tail, r: Record)
    requires OnceOk(t) && IsRun(t, limit, events, u) && !Positive(r)
    ensures multiset(u.delivered)[r] == multiset(t.delivered)[r] + ZeroPolls(t, limit, events, r)
    ensures t.watermark > 0 ==> ZeroPolls(t, limit, events, r) == 0
    decreases |events|
  {
    if events != [] {
      var e := events[0];
      OnceStep(t, limit, e);
      NonPositiveCount(Step(t, limit, e), limit, events[1..], u, r);
      if e.Poll? {
        LimitedIsDistinct(e.full, limit, r);
        AdvanceBounds(t.watermark, Limited(e.full, limit));
        assert r in Limited(e.full, limit) ==> r in e.full;
        assert multiset(t.delivered + Limited(e.full, limit)) ==
               multiset(t.delivered) + multiset(Limited(e.full, limit));
      }
    }
  }

  /** Over any run, a record with a positive observed time is delivered at most once; any other exactly as
      often as a poll at watermark 0 returned it, so more than once as soon as two such polls did. */
  lemma DeliveryCount(limit: nat, events: seq<Event>, u: Tail, r: Record)
    requires IsRun(START, limit, events, u)
    ensures Positive(r) ==> multiset(u.delivered)[r] <= 1
    ensures !Positive(r) ==> multiset(u.delivered)[r] == ZeroPolls(START, limit, events, r)
  {
    OnceRun(START, limit, events, u);
    if !Positive(r) {
      NonPositiveCount(START, limit, events, u, r);
    }
  }

  lemma {:induction false} PollsAgain(t: Tail, limit: nat, r: Record, n: nat) returns (events: seq<Event>, u: Tail)
    requires t.store == [r] && t.watermark == 0 && limit > 0 && !Positive(r)
    ensures IsRun(t, limit, events, u) && events == seq(n, _ => Poll([r]))
    ensures multiset(u.delivered)[r] == multiset(t.delivered)[r] + n
    decreases n
  {
    if n == 0 {
      events, u := [], t;
    } else {
      var poll := Poll([r]);
      assert Advance(0, [r]) == 0 by {
        AdvanceBounds(0, [r]);
        assert forall x :: x in [r] ==> x == r;
      }
      var rest: seq<Event>;
      rest, u := PollsAgain(Step(t, limit, poll), limit, r, n - 1);
      events := [poll] + rest;
      assert events[1..] == rest;
      assert multiset(t.delivered + [r]) == multiset(t.delivered) + multiset{r};
    }
  }

  /** "Left out of the loop rather than replayed on every poll" fails at watermark 0: a lone record without
      a positive observed time is delivered once by each of any number of polls. */
  lemma ReplayedOnEveryPoll(limit: nat, r: Record, n: nat) returns (events: seq<Event>, u: Tail)
    requires limit > 0 && !Positive(r)
    ensures IsRun(START, limit, events, u) && events == [Arrive([r])] + seq(n, _ => Poll([r]))
    ensures multiset(u.delivered)[r] == n
  {
    var t := Step(START, limit, Arrive([r]));
    assert t == Tail([r], 0, []);
    var rest: seq<Event>;
    rest, u := PollsAgain(t, limit, r, n);
    events := [Arrive([r])] + rest;
    assert events[1..] == rest;
  }

  // ---------------------------------------------------------------- leaving watermark 0

  /** Sorts before every record with a positive observed time. */
  predicate Early(r: Record) {
    r.observed.Some? && r.observed.value <= 0
  }

  ghost function EarlyOf(s: seq<Record>): set<Record> {
    set r | r in s && Early(r)
  }

  lemma {:induction false} EarlyFirst(full: seq<Record>)
    requires Distinct(full) && forall i, j :: 0 <= i < j < |full| ==> NotAfter(full[i], full[j])
    ensures |EarlyOf(full)| <= |full|
    ensures forall i :: 0 <= i < |full| ==> (Early(full[i]) <==> i < |EarlyOf(full)|)
  {
    if full == [] {
      assert EarlyOf(full) == {};
    } else {
      var n := |full| - 1;
      var before, x := full[..n], full[n];
      EarlyFirst(before);
      assert full == before + [x];
      assert x !in before;
      assert forall i :: 0 <= i < n ==> NotAfter(before[i], x);
      if Early(x) {
        assert EarlyOf(full) == EarlyOf(before) + {x};
        assert n > 0 ==> Early(before[n - 1]);
      } else {
        assert EarlyOf(full) == EarlyOf(before);
      }
    }
  }

  lemma PositiveGetsPast(full: seq<Record>, limit: nat, j: nat)
    requires Distinct(full) && forall i, j :: 0 <= i < j < |full| ==> NotAfter(full[i], full[j])
    requires j < |full| && Positive(full[j]) && |EarlyOf(full)| < limit
    ensures Advance(0, Limited(full, limit)) > 0
  {
    var entries, c := Limited(full, limit), |EarlyOf(full)|;
    EarlyFirst(full);
    AdvanceBounds(0, entries);
    assert c <= j && (c < j ==> NotAfter(full[c], full[j]));
    assert Positive(full[c]);
    assert entries[c] == full[c] && full[c] in entries;
  }

  /** A poll at watermark 0 gets past it exactly when some stored record has a positive observed time and
      fewer than `limit` have one at or below 0. */
  lemma LeavesZeroIff(t: Tail, limit: nat, full: seq<Record>)
    requires t.watermark == 0 && limit > 0 && IsMatchList(t.store, 0, full)
    ensures Advance(0, Limited(full, limit)) > 0 <==>
            (exists r :: r in t.store && Positive(r)) && |EarlyOf(t.store)| < limit
  {
    var entries := Limited(full, limit);
    assert EarlyOf(full) == EarlyOf(t.store);
    EarlyFirst(full);
    AdvanceBounds(0, entries);
    if Advance(0, entries) > 0 {
      var r :| r in entries && ObservedTime(r) == Advance(0, entries);
      var j :| 0 <= j < |entries| && entries[j] == r;
      assert full[j] == r && !Early(full[j]);
      assert r in full;
    }
    if r :| r in t.store && Positive(r) && |EarlyOf(full)| < limit {
      assert Matches(r, 0);
      assert r in full;
      var j :| 0 <= j < |full| && full[j] == r;
      PositiveGetsPast(full, limit, j);
    }
  }

  lemma SubsetCount(a: set<Record>, b: set<Record>)
    requires a <= b
    ensures |a| <= |b|
  {
    assert b == a + (b - a);
  }

  /** `limit` records with an observed time at or below 0 starve the loop: its watermark stays 0 and no
      record with a positive observed time is ever delivered. */
  lemma {:induction false} Starved(t: Tail, limit: nat, events: seq<Event>, u: Tail)
    requires OnceOk(t) && t.watermark == 0 && limit > 0 && |EarlyOf(t.store)| >= limit
    requires IsRun(t, limit, events, u)
    ensures u.watermark == 0 && forall r :: r in u.delivered ==> !Positive(r)
    decreases |events|
  {
    if events != [] {
      var e := events[0];
      OnceStep(t, limit, e);
      match e {
        case Arrive(recs) =>
          SubsetCount(EarlyOf(t.store), EarlyOf(t.store + recs));
        case Poll(full) =>
          AdvanceBounds(0, Limited(full, limit));
          LeavesZeroIff(t, limit, full);
      }
      Starved(Step(t, limit, e), limit, events[1..], u);
    }
  }

  // ---------------------------------------------------------------- nothing skipped

  /** Every positive record the watermark has passed was delivered. */
  ghost predicate NothingSkipped(t: Tail) {
    forall r :: r in t.store && Positive(r) && r.observed.value <= t.watermark ==> r in t.delivered
  }

  /** LIMIT cut the list between two records with the same positive observed time. */
  predicate TieSplit(full: seq<Record>, limit: nat) {
    0 < limit < |full| && Positive(full[limit]) && full[limit - 1].observed == full[limit].observed
  }

  /** Steps the follow loop's promise covers: new records are later than the watermark, and LIMIT does
      not cut between records of one instant. */
  ghost predicate Clean(t: Tail, limit: nat, e: Event) {
    match e
    case Arrive(recs) => forall r :: r in recs && Positive(r) ==> r.observed.value > t.watermark
    case Poll(full) => !TieSplit(full, limit)
  }

  /** The watermark after a poll is the observed time of some returned record, or where it was. */
  lemma PollReaches(t: Tail, limit: nat, full: seq<Record>, i: nat)
    requires OnceOk(t) && IsMatchList(t.store, t.watermark, full) && limit > 0
    requires limit <= i < |full| && Positive(full[i])
    requires full[i].observed.value <= Advance(t.watermark, Limited(full, limit))
    ensures full[limit - 1].observed == full[limit].observed == full[i].observed
  {
    var entries := Limited(full, limit);
    AdvanceBounds(t.watermark, entries);
    assert full[i] in full;
    assert full[i].observed.value > t.watermark;
    var r :| r in entries && ObservedTime(r) == Advance(t.watermark, entries);
    var j :| 0 <= j < limit && full[j] == r;
    assert NotAfter(full[j], full[i]);
    if j < limit - 1 {
      assert NotAfter(full[j], full[limit - 1]);
    }
    assert NotAfter(full[limit - 1], full[i]);
    if limit < i {
      assert NotAfter(full[limit - 1], full[limit]);
      assert NotAfter(full[limit], full[i]);
    }
  }

  /** One step keeps the promise exactly when it is clean. */
  lemma CleanKeeps(t: Tail, limit: nat, e: Event)
    requires limit > 0 && OnceOk(t) && NothingSkipped(t) && Legal(t, e) && Clean(t, limit, e)
    ensures NothingSkipped(Step(t, limit, e))
  {
    if e.Poll? {
      var entries := Limited(e.full, limit);
      AdvanceBounds(t.watermark, entries);
      var u := Step(t, limit, e);
      forall r | r in u.store && Positive(r) && r.observed.value <= u.watermark
        ensures r in u.delivered
      {
        if r.observed.value > t.watermark {
          assert Matches(r, t.watermark);
          var i :| 0 <= i < |e.full| && e.full[i] == r;
          if i >= limit && |e.full| > limit {
            PollReaches(t, limit, e.full, i);
          } else {
            assert entries[i] == r;
          }
        }
      }
    }
  }

  lemma ArrivalIsNew(store: seq<Record>, recs: seq<Record>, i: nat)
    requires Distinct(store + recs) && i < |recs|
    ensures recs[i] !in store
  {
    var all := store + recs;
    assert all[|store| + i] == recs[i];
    assert forall j :: 0 <= j < |store| ==> all[j] == store[j];
  }

  lemma UncleanSkips(t: Tail, limit: nat, e: Event)
    requires limit > 0 && OnceOk(t) && Legal(t, e) && !Clean(t, limit, e)
    ensures !NothingSkipped(Step(t, limit, e))
  {
    var u := Step(t, limit, e);
    match e
    case Arrive(recs) =>
      var i :| 0 <= i < |recs| && Positive(recs[i]) && recs[i].observed.value <= t.watermark;
      ArrivalIsNew(t.store, recs, i);
      assert recs[i] in u.store && recs[i] !in u.delivered;
    case Poll(full) =>
      var r := full[limit];
      assert r in full;
      assert full[limit - 1] in Limited(full, limit);
      AdvanceBounds(t.watermark, Limited(full, limit));
      assert forall j :: 0 <= j < limit ==> full[j] != r;
      assert r !in u.delivered;
  }

  /** A record skipped once is lost for good: the strict bound never comes back to it. */
  lemma SkippedForever(t: Tail, limit: nat, e: Event)
    requires OnceOk(t) && !NothingSkipped(t) && Legal(t, e)
    ensures !NothingSkipped(Step(t, limit, e))
  {
    var r :| r in t.store && Positive(r) && r.observed.value <= t.watermark && r !in t.delivered;
    var u := Step(t, limit, e);
    if e.Poll? {
      AdvanceBounds(t.watermark, Limited(e.full, limit));
      assert forall x :: x in Limited(e.full, limit) ==> x in e.full;
      assert r !in u.delivered;
    }
    assert r in u.store;
  }

  ghost predicate CleanRun(t: Tail, limit: nat, events: seq<Event>)
    decreases |events|
  {
    events == [] || (Clean(t, limit, events[0]) && CleanRun(Step(t, limit, events[0]), limit, events[1..]))
  }

  lemma {:induction false} SkippedRun(t: Tail, limit: nat, events: seq<Event>, u: Tail)
    requires OnceOk(t) && !NothingSkipped(t) && IsRun(t, limit, events, u)
    ensures !NothingSkipped(u)
    decreases |events|
  {
    if events != [] {
      OnceStep(t, limit, events[0]);
      SkippedForever(t, limit, events[0]);
      SkippedRun(Step(t, limit, events[0]), limit, events[1..], u);
    }
  }

  lemma {:induction false} NoSkipFrom(t: Tail, limit: nat, events: seq<Event>, u: Tail)
    requires limit > 0 && OnceOk(t) && NothingSkipped(t) && IsRun(t, limit, events, u)
    ensures NothingSkipped(u) <==> CleanRun(t, limit, events)
    decreases |events|
  {
    if events != [] {
      var e := events[0];
      OnceStep(t, limit, e);
      if Clean(t, limit, e) {
        CleanKeeps(t, limit, e);
        NoSkipFrom(Step(t, limit, e), limit, events[1..], u);
      } else {
        UncleanSkips(t, limit, e);
        SkippedRun(Step(t, limit, e), limit, events[1..], u);
      }
    }
  }

  /** Over a whole run of the loop nothing the watermark has passed is missing, exactly when every
      arrival came in above the watermark of its moment and no poll's LIMIT split an instant. */
  lemma NoSkipIffClean(limit: nat, events: seq<Event>, u: Tail)
    requires limit > 0 && IsRun(START, limit, events, u)
    ensures NothingSkipped(u) <==> CleanRun(START, limit, events)
  {
    NoSkipFrom(START, limit, events, u);
  }

  // ---------------------------------------------------------------- catching up

  /** Stored records the watermark has not reached. */
  ghost function Pending(t: Tail): set<Record> {
    set r | r in t.store && Positive(r) && r.observed.value > t.watermark
  }

  /** The loop can get past watermark 0, or is past it. */
  ghost predicate CanMove(t: Tail, limit: nat) {
    t.watermark > 0 || |EarlyOf(t.store)| < limit
  }

  lemma ProperSubsetCount(a: set<Record>, b: set<Record>, x: Record)
    requires a <= b && x in b && x !in a
    ensures |a| < |b|
  {
    assert b == a + (b - a) && x in b - a;
    assert |b| == |a| + |b - a|;
  }

  /** Past watermark 0 the first record of a poll is new, and the watermark reaches it. */
  lemma PollReachesFirst(t: Tail, limit: nat, full: seq<Record>) returns (r: Record)
    requires OnceOk(t) && IsMatchList(t.store, t.watermark, full) && limit > 0 && CanMove(t, limit)
    requires Pending(t) != {}
    ensures r in Pending(t) && r.observed.value <= Advance(t.watermark, Limited(full, limit))
  {
    var entries := Limited(full, limit);
    AdvanceBounds(t.watermark, entries);
    var x :| x in Pending(t);
    assert Matches(x, t.watermark) && x in full;
    if t.watermark > 0 {
      r := full[0];
      assert r in full && entries[0] == r && r in entries;
    } else {
      LeavesZeroIff(t, limit, full);
      r :| r in entries && ObservedTime(r) == Advance(t.watermark, entries);
      var i :| 0 <= i < |entries| && entries[i] == r;
      assert full[i] == r && r in full;
    }
  }

  lemma PollShrinksPending(t: Tail, limit: nat, full: seq<Record>)
    requires OnceOk(t) && IsMatchList(t.store, t.watermark, full) && limit > 0 && CanMove(t, limit)
    ensures var u := Step(t, limit, Poll(full));
            && CanMove(u, limit) && (Pending(t) == {} ==> Pending(u) == {})
            && (Pending(t) != {} ==> |Pending(u)| < |Pending(t)|)
  {
    var u := Step(t, limit, Poll(full));
    AdvanceBounds(t.watermark, Limited(full, limit));
    assert Pending(u) <= Pending(t);
    if Pending(t) != {} {
      var r := PollReachesFirst(t, limit, full);
      ProperSubsetCount(Pending(u), Pending(t), r);
    }
  }

  lemma {:induction false} PollsEmptyPending(t: Tail, limit: nat, events: seq<Event>, u: Tail)
    requires OnceOk(t) && limit > 0 && CanMove(t, limit) && IsRun(t, limit, events, u)
    requires forall e :: e in events ==> e.Poll?
    requires |events| >= |Pending(t)|
    ensures OnceOk(u) && u.store == t.store && Pending(u) == {}
    decreases |events|
  {
    if events != [] {
      var e := events[0];
      assert e in events;
      OnceStep(t, limit, e);
      PollShrinksPending(t, limit, e.full);
      PollsEmptyPending(Step(t, limit, e), limit, events[1..], u);
    }
  }

  lemma {:induction false} AtMostStored(s: seq<Record>, pending: set<Record>)
    requires forall r :: r in pending ==> r in s
    ensures |pending| <= |s|
  {
    if s == [] {
      assert pending == {};
    } else {
      var n := |s| - 1;
      assert s == s[..n] + [s[n]];
      AtMostStored(s[..n], pending - {s[n]});
      assert pending <= (pending - {s[n]}) + {s[n]};
      SubsetCount(pending, (pending - {s[n]}) + {s[n]});
    }
  }

  ghost predicate AllDelivered(t: Tail) {
    forall r :: r in t.store && Positive(r) ==> r in t.delivered
  }

  /** Catching up: once records stop arriving, a loop that has skipped nothing and can leave watermark 0 has
      delivered every record with a positive observed time after as many polls as there are records,
      exactly when no poll's LIMIT split an instant. Without room to leave watermark 0 see `Starved`. */
  lemma CatchesUpIffClean(t: Tail, limit: nat, events: seq<Event>, u: Tail)
    requires OnceOk(t) && NothingSkipped(t) && limit > 0 && CanMove(t, limit) && IsRun(t, limit, events, u)
    requires (forall e :: e in events ==> e.Poll?) && |events| >= |t.store|
    ensures AllDelivered(u) <==> CleanRun(t, limit, events)
  {
    AtMostStored(t.store, Pending(t));
    PollsEmptyPending(t, limit, events, u);
    NoSkipFrom(t, limit, events, u);
    assert forall r :: r in u.store && Positive(r) ==> r !in Pending(u);
  }
}
