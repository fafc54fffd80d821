/** Runs that show where the streaming protocol's comments promise more than the code keeps. */
module StreamWitnesses {
  import opened Wrappers
  import opened Shells
  import opened StreamProtocol
  import opened StreamTheorems

  /** One step of a run on stream `q`, described by its effect on that stream and the shared state. */
  lemma Go(s: State, q: Qid, a: Action) returns (t: State)
    requires Reachable(s) && q in s.streams
    requires IsStreamAction(a) && a.q == q && StreamEnabled(s.cap, s.streams[q], a)
    ensures Reachable(t) && q in t.streams && t.cap == s.cap && t.dbs == s.dbs
    ensures t.streams[q] == NextStream(s.dbs, s.mem, LookupError(s, q), LookupMeta(s, q), s.streams[q], a)
    ensures t.mem == NextMem(s.mem, q, s.streams[q], a)
    ensures t.errors == NextErrors(s.errors, q, s.streams[q].h.prod, a)
    ensures t.pageMeta == NextMeta(s.pageMeta, q, s.streams[q].script, a)
  {
    t := Step(s, a);
    StepReachable(s, a);
  }

  /** A process with one open database. */
  lemma OpenedDb() returns (s: State)
    ensures Reachable(s) && s == InitState(1).(ctr := 1, dbCtr := 2, dbs := {1}, opens := map[1 := Opened(1)])
  {
    s := InitState(1);
    assert IsRun(s, [], s);
    StepReachable(s, BeginOpen);
    s := Step(s, BeginOpen);
    StepReachable(s, OpenSucceeds(1));
    s := Step(s, OpenSucceeds(1));
  }

  /** A fresh stream on an open database. */
  lemma Open(sc: Script) returns (s: State, q: Qid)
    ensures Reachable(s) && q in s.streams && s.streams[q] == NewStream(1, sc) && 1 in s.dbs
    ensures s.cap == 1 && s.mem == EMPTY_MEM && s.errors == map[] && s.pageMeta == map[]
  {
    s := OpenedDb();
    StepReachable(s, OpenStream(1, sc));
    s, q := Step(s, OpenStream(1, sc)), 2;
  }

  /** The handler starts and exports its first batch. */
  lemma FirstExport(b: Batch, msg: string) returns (s: State, q: Qid)
    ensures Reachable(s) && q in s.streams && s.errors == map[] && s.cap == 1
    ensures s.streams[q] ==
              NewStream(1, Script(None, None, None, [Yield(b), Broken(msg)])).(
                h := Handler(Sending(1), 0, [], false, false, false))
    ensures 1 in s.mem.heap && s.mem.heap[1] == Shell(q, b, true)
  {
    s, q := Open(Script(None, None, None, [Yield(b), Broken(msg)]));
    s := Go(s, q, Begin(q));
    assert s.streams[q].h == Handler(Polling, 0, [], false, false, false);
    s := Go(s, q, Poll(q));
  }

  /** The batch crosses the channel and is taken. */
  lemma FirstPull(b: Batch, msg: string) returns (s: State, q: Qid)
    ensures Reachable(s) && q in s.streams && s.errors == map[] && s.cap == 1
    ensures s.streams[q] ==
              Stream(1, Script(None, None, None, [Yield(b), Broken(msg)]),
                     Handler(Polling, 1, [], false, false, false), Channel([], false),
                     Cursor(Pulled(1), false, None, false, [], false, false, false, [], []))
    ensures 1 in s.mem.heap && s.mem.heap[1] == Shell(q, b, true)
  {
    s, q := FirstExport(b, msg);
    s := Go(s, q, Send(q));
    assert s.streams[q].ch == Channel([1], false);
    s := Go(s, q, Pull(q));
  }

  /** The handler's first batch reaches the client. */
  lemma FirstDelivered(b: Batch, msg: string) returns (s: State, q: Qid)
    ensures Reachable(s) && q in s.streams && s.errors == map[] && s.cap == 1
    ensures s.streams[q] ==
              Stream(1, Script(None, None, None, [Yield(b), Broken(msg)]),
                     Handler(Polling, 1, [], false, false, false), Channel([], false),
                     Cursor(Idle, false, None, false, [b], false, false, false, [], []))
  {
    s, q := FirstPull(b, msg);
    s := Go(s, q, Import(q, true));
    assert s.streams[q].c.cons == Imported(1, None);
    s := Go(s, q, FreeShell(q));
  }

  /** The engine fails; the handler stores the message and returns. */
  lemma FailureStored(b: Batch, msg: string) returns (s: State, q: Qid)
    ensures Reachable(s) && q in s.streams && q in s.errors && s.errors[q] == msg
    ensures s.streams[q] ==
              Stream(1, Script(None, None, None, [Yield(b), Broken(msg)]),
                     Handler(Gone, 1, [msg], false, false, false), Channel([], false),
                     Cursor(Idle, false, None, false, [b], false, false, false, [], []))
  {
    s, q := FirstDelivered(b, msg);
    s := Go(s, q, Poll(q));
    assert s.streams[q].h == Handler(Storing(msg), 1, [], false, false, false);
    s := Go(s, q, StoreError(q));
    s := Go(s, q, DropSender(q));
  }

  /** A query that fails with an empty message after its first batch ends like a clean one. */
  lemma EmptyMessageTruncates(b: Batch) returns (s: State, q: Qid)
    ensures Reachable(s) && q in s.streams
    ensures s.streams[q].script.items == [Yield(b), Broken("")]
    ensures var c := s.streams[q].c; c.ended && !c.closedByCaller && c.err == None && c.delivered == [b]
    ensures !Complete(s.streams[q].script, s.streams[q].c.delivered)
  {
    s, q := FailureStored(b, "");
    s := Go(s, q, PullNothing(q));
    s := Go(s, q, Fetch(q, true));
    assert s.streams[q].c.cons == Deciding(None, None);
    s := Go(s, q, Decide(q));
  }

  /** The cursor is closed by its user before the handler ran. */
  lemma ClosedEarly(sc: Script) returns (s: State, q: Qid)
    ensures Reachable(s) && q in s.streams && s.errors == map[] && 1 in s.dbs
    ensures s.streams[q] ==
              Stream(1, sc, NewStream(1, sc).h, Channel([], true),
                     Cursor(Idle, true, None, false, [], false, false, true, [Got("")], []))
  {
    s, q := Open(sc);
    s := Go(s, q, CallerClose(q));
    assert s.streams[q].c.cons == CloseFetching;
    s := Go(s, q, Fetch(q, true));
  }

  /** A stream closed before its handler ran strands the error that handler then stores. */
  lemma LateStoreLeaks(msg: string) returns (s: State, q: Qid)
    ensures Reachable(s) && q in s.streams && s.streams[q].h.prod.Gone? && s.streams[q].c.cons.Idle?
    ensures s.streams[q].c.fetches == [Got("")] && s.streams[q].h.late
    ensures q in s.errors && s.errors[q] == msg
  {
    s, q := ClosedEarly(Script(None, Some(msg), None, []));
    s := Go(s, q, Begin(q));
    assert s.streams[q].h.prod == Storing(msg);
    s := Go(s, q, StoreError(q));
    s := Go(s, q, DropSender(q));
  }

  /** The context is cancelled before the handler ran; finish runs to its decision. */
  lemma Cancelled(page: PageMeta) returns (s: State, q: Qid)
    ensures Reachable(s) && q in s.streams && s.pageMeta == map[] && 1 in s.dbs
    ensures var sc := Script(None, None, Some(page), []);
            s.streams[q] ==
              Stream(1, sc, NewStream(1, sc).h, Channel([], false),
                     Cursor(Deciding(None, None), false, None, true, [], false, false, false, [Got("")], []))
  {
    s, q := Open(Script(None, None, Some(page), []));
    s := Go(s, q, CancelCtx(q));
    s := Go(s, q, PullNothing(q));
    assert s.streams[q].c.cons == Fetching(None) && !s.streams[q].c.sawEnd;
    s := Go(s, q, Fetch(q, true));
  }

  /** ... and the page metadata is asked for, in vain. */
  lemma CancelledMetaFetched(page: PageMeta) returns (s: State, q: Qid)
    ensures Reachable(s) && q in s.streams && s.pageMeta == map[] && 1 in s.dbs
    ensures var sc := Script(None, None, Some(page), []);
            s.streams[q] ==
              Stream(1, sc, NewStream(1, sc).h, Channel([], true),
                     Cursor(Idle, true, Some(CtxErr), true, [], false, false, false, [Got("")], [Got(None)]))
  {
    s, q := Cancelled(page);
    s := Go(s, q, Decide(q));
    assert s.streams[q].c.cons == Closing && s.streams[q].c.err == Some(CtxErr);
    s := Go(s, q, FinishClose(q));
    s := Go(s, q, MetaFetch(q, true));
  }

  /** A paged query cancelled before its handler ran strands its page metadata. */
  lemma CancelledPageLeaks(page: PageMeta) returns (s: State, q: Qid)
    ensures Reachable(s) && q in s.streams && s.streams[q].c.metaFetches == [Got(None)]
    ensures s.streams[q].h.metaLate && q in s.pageMeta && s.pageMeta[q] == page
  {
    s, q := CancelledMetaFetched(page);
    s := Go(s, q, Begin(q));
    s := Go(s, q, StoreMeta(q));
  }

  /** A paged query whose planning fails with an empty message; its handler has returned. */
  lemma UnplannedPage(page: PageMeta) returns (s: State, q: Qid)
    ensures Reachable(s) && q in s.streams && s.errors == map[q := ""] && s.pageMeta == map[]
    ensures var sc := Script(None, Some(""), Some(page), []);
            s.streams[q] ==
              Stream(1, sc, Handler(Gone, 0, [""], false, false, false), Channel([], false), NewStream(1, sc).c)
  {
    s, q := Open(Script(None, Some(""), Some(page), []));
    s := Go(s, q, Begin(q));
    assert s.streams[q].h == Handler(Storing(""), 0, [], false, false, false);
    s := Go(s, q, StoreError(q));
    s := Go(s, q, DropSender(q));
  }

  lemma UnplannedPageFetched(page: PageMeta) returns (s: State, q: Qid)
    ensures Reachable(s) && q in s.streams && s.pageMeta == map[]
    ensures var sc := Script(None, Some(""), Some(page), []);
            s.streams[q] ==
              Stream(1, sc, Handler(Gone, 0, [""], false, false, false), Channel([], false),
                     Cursor(Deciding(None, None), false, None, false, [], false, true, false, [Got("")], []))
  {
    s, q := UnplannedPage(page);
    s := Go(s, q, PullNothing(q));
    s := Go(s, q, Fetch(q, true));
  }

  /** ... so its page comes back with a nil error, no rows and no metadata. */
  lemma EmptyMessageLosesPage(page: PageMeta) returns (s: State, q: Qid)
    ensures Reachable(s) && q in s.streams && s.streams[q].script.page == Some(page)
    ensures var c := s.streams[q].c; c.ended && !c.closedByCaller && c.err == None && c.metaFetches == [Got(None)]
  {
    s, q := UnplannedPageFetched(page);
    s := Go(s, q, Decide(q));
    assert s.streams[q].c.cons == Closing && s.streams[q].c.err == None;
    s := Go(s, q, FinishClose(q));
    s := Go(s, q, MetaFetch(q, true));
  }
}
