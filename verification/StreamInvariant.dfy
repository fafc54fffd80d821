/** The inductive invariant of the streaming protocol; `StreamPreservation` proves that every action keeps it. */
module StreamInvariant {
  import opened Wrappers
  import opened Shells
  import opened StreamProtocol

  function Hand(c: Consumer): seq<Ptr> {
    match c
    case Pulled(p) => [p]
    case Imported(p, _) => [p]
    case _ => []
  }

  function InSend(p: Producer): seq<Ptr> {
    if p.Sending? then [p.ptr] else []
  }

  /** Boxes taken or buffered but not being sent: what the consumer will see next, in order. */
  function Ahead(st: Stream): seq<Ptr> {
    Hand(st.c.cons) + st.ch.queue
  }

  /** Every box this stream currently has in flight, with multiplicity. */
  function Flight(st: Stream): multiset<Ptr> {
    multiset(Hand(st.c.cons)) + multiset(st.ch.queue) + multiset(InSend(st.h.prod))
  }

  /** Past planning: a paged query has stashed its metadata by now. */
  ghost predicate Started(sc: Script, h: Handler) {
    StartFailure(sc) == None && (sc.page.Some? ==> h.metaStored)
  }

  /** The message the handler may store from where it stands. */
  ghost predicate Reason(sc: Script, h: Handler, msg: string) {
    || (h.pos == 0 && (StartFailure(sc) == Some(msg) || msg == UNKNOWN_DB))
    || (Started(sc, h) && h.pos < |sc.items| && sc.items[h.pos] == Broken(msg))
  }

  /** Handler control state. */
  ghost predicate HandlerOk(sc: Script, h: Handler, rxClosed: bool) {
    && h.pos <= |sc.items|
    && (forall i :: 0 <= i < h.pos ==> sc.items[i].Yield?)
    && |h.stores| <= 1
    && (h.pos > 0 ==> Started(sc, h))
    && (h.metaStored ==> sc.page.Some? && Started(sc, h))
    && (!h.prod.Returning? && !h.prod.Gone? ==> h.stores == [])
    && match h.prod
       case Spawned => h.pos == 0 && !h.metaStored
       case StoringMeta => h.pos == 0 && !h.metaStored && sc.page.Some? && StartFailure(sc) == None
       case Polling => Started(sc, h)
       case Sending(_) => Started(sc, h) && h.pos < |sc.items| && sc.items[h.pos].Yield?
       case Storing(msg) => Reason(sc, h, msg)
       case _ =>
         if h.stores == [] then Started(sc, h) && (rxClosed || h.pos == |sc.items|)
         else Reason(sc, h, h.stores[0])
  }

  /** What finish recorded: an import error, the cancelled context, or the fetched error at the end. */
  ghost predicate EndedRight(c: Cursor)
    requires |c.fetches| == 1
  {
    if c.importFailed then c.err.Some? && c.err.value.ImportErr?
    else (c.sawEnd && c.err == StoredError(c.fetches[0])) || (c.ctxDone && c.err == Some(CtxErr))
  }

  /** Cursor control state; `eos` says whether the channel is at end-of-stream. */
  ghost predicate CursorOk(c: Cursor, rxClosed: bool, eos: bool) {
    && |c.fetches| <= 1
    && (c.sawEnd ==> eos)
    && (!c.ended ==> c.err == None && !c.closedByCaller)
    && (c.ended && !c.closedByCaller ==> |c.fetches| == 1 && EndedRight(c))
    && (c.closedByCaller ==> c.ended && c.err == None && !c.importFailed && !c.sawEnd)
    && (c.metaFetches != [] ==> c.ended && c.cons.Idle? && |c.metaFetches| == 1)
    && match c.cons
       case Idle =>
         if c.ended then |c.fetches| == 1 && rxClosed
         else c.fetches == [] && !rxClosed && !c.importFailed && !c.sawEnd
       case Pulled(_) => !c.ended && c.fetches == [] && !rxClosed && !c.importFailed && !c.sawEnd
       case Imported(_, f) =>
         !c.ended && c.fetches == [] && !rxClosed && (f.Some? <==> c.importFailed) && !c.sawEnd
       case Fetching(ie) =>
         && !c.ended && c.fetches == [] && !rxClosed
         && (ie.Some? <==> c.importFailed) && (ie.Some? ==> ie.value.ImportErr?)
         && (ie == None ==> c.sawEnd || c.ctxDone)
       case Deciding(ie, stored) =>
         && !c.ended && |c.fetches| == 1 && !rxClosed && stored == StoredError(c.fetches[0])
         && (ie.Some? <==> c.importFailed) && (ie.Some? ==> ie.value.ImportErr?)
         && (ie == None ==> c.sawEnd || c.ctxDone)
       case Closing => c.ended && |c.fetches| == 1 && !rxClosed && !c.closedByCaller
       case CloseFetching => c.ended && c.fetches == [] && rxClosed && c.closedByCaller
  }

  /** A box no importer has touched yet. */
  ghost predicate Fresh(m: Mem, p: Ptr) {
    p in m.heap && m.heap[p].armed && p !in m.lost
  }

  /** `flight` lists exactly the live boxes of query `q`, once each. */
  ghost predicate CountOk(flight: multiset<Ptr>, heap: map<Ptr, Shell>, q: Qid) {
    forall p :: flight[p] == if p in heap && heap[p].owner == q then 1 else 0
  }

  /** The boxes in flight are this query's live boxes, and no importer has touched the untaken ones. */
  ghost predicate FlightOk(cap: nat, m: Mem, q: Qid, st: Stream) {
    && CountOk(Flight(st), m.heap, q)
    && FreshOk(cap, m, st)
  }

  ghost predicate FreshOk(cap: nat, m: Mem, st: Stream) {
    && |st.ch.queue| <= cap
    && (forall p :: p in st.ch.queue ==> Fresh(m, p))
    && (st.h.prod.Sending? ==> Fresh(m, st.h.prod.ptr))
    && (st.c.cons.Pulled? ==> st.c.cons.ptr !in m.lost)
    && (st.c.cons.Imported? ==> (st.c.cons.ptr in m.lost <==> st.c.cons.failure.Some?))
  }

  ghost predicate Holds(m: Mem, p: Ptr, item: Item) {
    p in m.heap && item == Yield(m.heap[p].batch)
  }

  /** The boxes in flight continue what was delivered, in the order the engine yielded it. */
  ghost predicate PipeOk(m: Mem, st: Stream) {
    var d := |st.c.delivered|;
    && d <= st.h.pos <= |st.script.items|
    && PrefixOfYields(st.script.items, st.c.delivered)
    && (st.h.prod.Sending? ==>
          st.h.pos < |st.script.items| && Holds(m, st.h.prod.ptr, st.script.items[st.h.pos]))
    && (!st.ch.rxClosed && !st.c.importFailed ==>
          && d + |Ahead(st)| == st.h.pos
          && (forall i :: 0 <= i < |Ahead(st)| ==> Holds(m, Ahead(st)[i], st.script.items[d + i])))
    && (st.c.sawEnd && !st.c.importFailed ==>
          d == st.h.pos && (st.h.stores == [] ==> st.h.pos == |st.script.items|))
  }

  ghost predicate Claimed(c: Cursor) {
    |c.fetches| == 1 && c.fetches[0].Got?
  }

  ghost predicate MetaClaimed(c: Cursor) {
    |c.metaFetches| == 1 && c.metaFetches[0].Got?
  }

  /** The error slot of stream `q`. */
  ghost predicate SlotOk(errors: map<Qid, string>, q: Qid, h: Handler, c: Cursor) {
    && (q in errors <==> h.stores != [] && (h.late || !Claimed(c)))
    && (q in errors ==> h.stores == [errors[q]])
    && (h.late ==> h.stores != [] && c.fetches != [])
    && (c.sawEnd ==> !h.late)
    && (Claimed(c) ==>
          c.fetches[0].value == if h.stores != [] && !h.late then h.stores[0] else "")
  }

  /** The page-metadata slot of stream `q`. */
  ghost predicate MetaOk(pageMeta: map<Qid, PageMeta>, q: Qid, sc: Script, h: Handler, c: Cursor) {
    && (q in pageMeta <==> h.metaStored && (h.metaLate || !MetaClaimed(c)))
    && (q in pageMeta ==> sc.page == Some(pageMeta[q]))
    && (c.metaFetches != [] ==> sc.page.Some?)
    && (h.metaLate ==> h.metaStored && c.metaFetches != [])
    && (c.sawEnd ==> !h.metaLate)
    && (MetaClaimed(c) ==>
          c.metaFetches[0].value == if h.metaStored && !h.metaLate then sc.page else None)
  }

  ghost predicate StreamOk(s: State, q: Qid)
    requires q in s.streams
  {
    var st := s.streams[q];
    && HandlerOk(st.script, st.h, st.ch.rxClosed)
    && CursorOk(st.c, st.ch.rxClosed, EndOfStream(st.h, st.ch))
    && FlightOk(s.cap, s.mem, q, st)
    && PipeOk(s.mem, st)
    && SlotOk(s.errors, q, st.h, st.c)
    && MetaOk(s.pageMeta, q, st.script, st.h, st.c)
  }

  /** The error slot of open attempt `id`. */
  ghost predicate OpenOk(errors: map<Qid, string>, id: Qid, o: Opening) {
    match o
    case Failed(cause) => id in errors && errors[id] == cause
    case Reported(cause, Got(reply)) => id !in errors && reply == cause
    case Reported(cause, CallFailed) => id in errors && errors[id] == cause
    case _ => id !in errors
  }

  ghost predicate IdsOk(s: State) {
    && (forall q :: q in s.streams ==> 1 <= q <= s.ctr && q !in s.opens)
    && (forall id :: id in s.opens ==> 1 <= id <= s.ctr)
    && (forall id :: id in s.errors ==> id in s.streams || id in s.opens)
    && (forall id :: id in s.pageMeta ==> id in s.streams)
    && 1 <= s.dbCtr
    && (forall d :: d in s.dbs ==> 1 <= d < s.dbCtr)
  }

  /** Every live box belongs to a query. */
  ghost predicate OwnersOk(s: State) {
    forall p :: p in s.mem.heap ==> s.mem.heap[p].owner in s.streams
  }

  ghost predicate StreamsOk(s: State) {
    forall q :: q in s.streams ==> StreamOk(s, q)
  }

  ghost predicate OpensOk(s: State) {
    forall id :: id in s.opens ==> OpenOk(s.errors, id, s.opens[id])
  }

  ghost predicate Inv(s: State) {
    && IdsOk(s)
    && MemOk(s.mem)
    && OwnersOk(s)
    && StreamsOk(s)
    && OpensOk(s)
  }

  lemma InitInv(cap: nat)
    ensures Inv(InitState(cap))
  {
  }
}
