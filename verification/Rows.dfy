/** The Go cursor `Rows` (db.go) as imperative code over the shared process state. Each statement of
    Next, finish and Close that is visible to others is one action of the protocol; between any two of
    them the rest of the process runs, as a schedule chosen from outside dictates. */
module RowsCursor {
  import opened Wrappers
  import opened Shells
  import opened StreamProtocol
  import opened StreamInvariant
  import opened StreamPreservation
  import opened StreamTheorems

  /** Actions only the goroutine iterating stream `q` takes. */
  predicate OwnAction(a: Action, q: Qid) {
    && IsStreamAction(a) && a.q == q
    && !IsHandlerAction(a) && !a.CancelCtx? && !a.Drain?
  }

  /** The rest of the process follows a schedule, skipping what cannot happen. */
  function Others(s: State, q: Qid, acts: seq<Action>): State
    decreases |acts|
  {
    if acts == [] then s
    else Others(if !OwnAction(acts[0], q) && Enabled(s, acts[0]) then Step(s, acts[0]) else s, q, acts[1..])
  }

  /** What the others cannot do to a cursor: only its context can change, and only to cancelled. */
  ghost predicate CursorKept(s: State, t: State, q: Qid) {
    && q in s.streams && q in t.streams
    && t.streams[q].script == s.streams[q].script
    && t.streams[q].ch.rxClosed == s.streams[q].ch.rxClosed
    && t.streams[q].c == s.streams[q].c.(ctxDone := t.streams[q].c.ctxDone)
    && (s.streams[q].c.ctxDone ==> t.streams[q].c.ctxDone)
  }

  lemma OtherStepKept(s: State, q: Qid, a: Action)
    requires q in s.streams && q <= s.ctr && !OwnAction(a, q) && Enabled(s, a)
    ensures CursorKept(s, Step(s, a), q)
  {
  }

  lemma {:induction false} OthersKept(s: State, q: Qid, acts: seq<Action>)
    requires Reachable(s) && q in s.streams
    ensures Reachable(Others(s, q, acts)) && CursorKept(s, Others(s, q, acts), q)
    decreases |acts|
  {
    if acts != [] {
      if !OwnAction(acts[0], q) && Enabled(s, acts[0]) {
        OpenInv(s);
        OtherStepKept(s, q, acts[0]);
        StepReachable(s, acts[0]);
        OthersKept(Step(s, acts[0]), q, acts[1..]);
      } else {
        OthersKept(s, q, acts[1..]);
      }
    }
  }

  /** What arrow-go's import of one batch does. */
  datatype ImportOutcome = Moved(nulls: bool) | Rejected(msg: string, nulls: bool, released: bool)

  /** Can NextCtx return for `q`, or would it stay parked? */
  predicate PullReady(s: State, q: Qid) {
    && q in s.streams
    && (s.streams[q].ch.queue != [] || EndOfStream(s.streams[q].h, s.streams[q].ch) || s.streams[q].c.ctxDone)
  }

  /** NextCtx hands out a batch: one is queued, and the pull does not settle for the cancelled context. */
  predicate BatchWaits(s: State, q: Qid, preferCancel: bool) {
    q in s.streams && s.streams[q].ch.queue != [] && !(preferCancel && s.streams[q].c.ctxDone)
  }

  /** A step of `q`'s own goroutine, seen from its cursor. */
  lemma OwnStep(s: State, a: Action)
    requires Reachable(s) && Enabled(s, a) && IsStreamAction(a) && OwnAction(a, a.q)
    ensures var st, t := s.streams[a.q], Step(s, a);
            && Reachable(t) && a.q in t.streams && t.streams[a.q].script == st.script
            && t.streams[a.q].c == NextCursor(s.mem.heap, LookupError(s, a.q), LookupMeta(s, a.q), st, a)
            && t.streams[a.q].ch == NextChannel(st, a)
  {
    StepReachable(s, a);
  }

  /** The process: registries, channels and heap on the Rust side, every cursor on the Go side. Its
      methods are the calls Rows makes into sable, arrow-go and the C ABI. */
  class Process {
    var s: State

    constructor (cap: nat)
      ensures s == InitState(cap) && Reachable(s)
    {
      s := InitState(cap);
      assert IsRun(InitState(cap), [], InitState(cap));
    }

    ghost function Cur(q: Qid): Cursor
      reads this
      requires q in s.streams
    {
      s.streams[q].c
    }

    /** `q` is there, and its request and receiver are as before. */
    ghost predicate Same(before: State, q: Qid)
      reads this
    {
      && Reachable(s) && q in s.streams && q in before.streams
      && s.streams[q].script == before.streams[q].script
      && s.streams[q].ch.rxClosed == before.streams[q].ch.rxClosed
    }

    /** Everyone else runs. */
    method Yield(q: Qid, acts: seq<Action>)
      requires Reachable(s) && q in s.streams
      modifies this
      ensures s == Others(old(s), q, acts) && Same(old(s), q)
      ensures Cur(q) == old(Cur(q)).(ctxDone := Cur(q).ctxDone)
      ensures old(Cur(q)).ctxDone ==> Cur(q).ctxDone
    {
      OthersKept(s, q, acts);
      s := Others(s, q, acts);
    }

    /** sable.OpenStream under the next query id. */
    method OpenCursor(db: nat, script: Script) returns (q: Qid)
      requires Reachable(s)
      modifies this
      ensures q == old(s.ctr) + 1 && q !in old(s.streams) && q !in old(s.opens)
      ensures Reachable(s) && q in s.streams && s.streams[q] == NewStream(db, script)
    {
      OpenInv(s);
      q := s.ctr + 1;
      StepReachable(s, OpenStream(db, script));
      s := Step(s, OpenStream(db, script));
    }

    /** Stream.NextCtx: the next pointer, or nothing at end-of-stream or on cancellation. */
    method NextCtx(q: Qid, preferCancel: bool) returns (ptr: Option<Ptr>)
      requires Reachable(s) && PullReady(s, q) && Cur(q).cons.Idle? && !Cur(q).ended
      modifies this
      ensures Same(old(s), q)
      ensures match ptr
              case Some(p) => Cur(q) == old(Cur(q)).(cons := Pulled(p))
              case None => Cur(q) == old(Cur(q)).(cons := Fetching(None), sawEnd := Cur(q).sawEnd)
      ensures ptr.Some? <==> old(s.streams[q].ch.queue != [] && !(preferCancel && Cur(q).ctxDone))
    {
      if s.streams[q].ch.queue == [] || (preferCancel && s.streams[q].c.ctxDone) {
        OwnStep(s, PullNothing(q));
        s := Step(s, PullNothing(q));
        ptr := None;
      } else {
        OwnStep(s, Pull(q));
        ptr := Some(s.streams[q].ch.queue[0]);
        s := Step(s, Pull(q));
      }
    }

    /** cdata.ImportCRecordBatch on the pointer just taken. */
    method ImportRecord(q: Qid, imp: ImportOutcome)
      requires Reachable(s) && q in s.streams && Cur(q).cons.Pulled?
      modifies this
      ensures Same(old(s), q)
      ensures Cur(q) == old(Cur(q)).(
                cons := Imported(old(Cur(q)).cons.ptr, if imp.Moved? then None else Some(imp.msg)),
                importFailed := old(Cur(q)).importFailed || imp.Rejected?)
    {
      var a := match imp
        case Moved(nulls) => Import(q, nulls)
        case Rejected(msg, nulls, released) => ImportFail(q, msg, nulls, released);
      OwnStep(s, a);
      s := Step(s, a);
    }

    /** imbhgo_shell_free; `batch` is what the imported record holds. */
    method FreeTaken(q: Qid) returns (batch: Batch)
      requires Reachable(s) && q in s.streams && Cur(q).cons.Imported?
      modifies this
      ensures Same(old(s), q)
      ensures match old(Cur(q)).cons.failure
              case None => Cur(q) == old(Cur(q)).(cons := Idle, delivered := old(Cur(q)).delivered + [batch])
              case Some(msg) => Cur(q) == old(Cur(q)).(cons := Fetching(Some(ImportErr(msg))))
    {
      StreamInv(s, q);
      assert Flight(s.streams[q])[s.streams[q].c.cons.ptr] >= 1 by { InFlight(s.streams[q]); }
      batch := s.mem.heap[s.streams[q].c.cons.ptr].batch;
      OwnStep(s, FreeShell(q));
      s := Step(s, FreeShell(q));
    }

    /** takeStoredError: fetch and clear the slot. */
    method TakeStoredError(q: Qid, callOk: bool) returns (reply: Reply<string>)
      requires Reachable(s) && q in s.streams && (Cur(q).cons.Fetching? || Cur(q).cons.CloseFetching?)
      modifies this
      ensures Same(old(s), q)
      ensures Cur(q) == old(Cur(q)).(
                fetches := old(Cur(q)).fetches + [reply],
                cons := if old(Cur(q)).cons.Fetching?
                        then Deciding(old(Cur(q)).cons.importErr, StoredError(reply)) else Idle)
      ensures callOk <==> reply.Got?
    {
      reply := if callOk then Got(LookupError(s, q)) else CallFailed;
      OwnStep(s, Fetch(q, callOk));
      s := Step(s, Fetch(q, callOk));
    }

    /** The goroutine writes the terminal state into its Rows. */
    method RecordEnd(q: Qid) returns (e: Option<Err>)
      requires Reachable(s) && q in s.streams && Cur(q).cons.Deciding?
      modifies this
      ensures Same(old(s), q)
      ensures e == FinishErr(old(Cur(q)).cons.importErr, old(Cur(q)).ctxDone, old(Cur(q)).cons.stored)
      ensures Cur(q) == old(Cur(q)).(cons := Closing, ended := true, err := e)
    {
      OwnStep(s, Decide(q));
      s := Step(s, Decide(q));
      e := s.streams[q].c.err;
    }

    /** The op behind fetchLogPageMeta: fetch and clear the metadata slot. */
    method TakePageMeta(q: Qid, callOk: bool) returns (reply: Reply<Option<PageMeta>>)
      requires Reachable(s) && q in s.streams && Cur(q).cons.Idle? && Cur(q).ended
      requires s.streams[q].script.page.Some? && Cur(q).metaFetches == []
      modifies this
      ensures Same(old(s), q)
      ensures Cur(q) == old(Cur(q)).(metaFetches := [reply])
      ensures reply == if callOk then Got(LookupMeta(old(s), q)) else CallFailed
    {
      reply := if callOk then Got(LookupMeta(s, q)) else CallFailed;
      OwnStep(s, MetaFetch(q, callOk));
      s := Step(s, MetaFetch(q, callOk));
    }

    /** Stream.Close from finish. */
    method CloseEnded(q: Qid)
      requires Reachable(s) && q in s.streams && Cur(q).cons.Closing?
      modifies this
      ensures Reachable(s) && q in s.streams && s.streams[q].ch.rxClosed
      ensures s.streams[q].script == old(s.streams[q].script)
      ensures Cur(q) == old(Cur(q)).(cons := Idle)
    {
      OwnStep(s, FinishClose(q));
      s := Step(s, FinishClose(q));
    }

    /** Stream.Close from the caller's Close, with the `ended` flag it sets. */
    method CloseByCaller(q: Qid)
      requires Reachable(s) && q in s.streams && Cur(q).cons.Idle?
      modifies this
      ensures Reachable(s) && q in s.streams && s.streams[q].ch.rxClosed
      ensures s.streams[q].script == old(s.streams[q].script)
      ensures Cur(q) == if old(Cur(q)).ended then old(Cur(q))
                        else old(Cur(q)).(cons := CloseFetching, ended := true, closedByCaller := true)
    {
      OwnStep(s, CallerClose(q));
      s := Step(s, CallerClose(q));
    }
  }

  class Rows {
    const w: Process
    const q: Qid
    var ended: bool
    var err: Option<Err>

    /** The fields mirror the protocol's view of this cursor, which is between two calls. */
    ghost predicate Valid()
      reads this, w
    {
      && Reachable(w.s) && q in w.s.streams
      && w.Cur(q).cons.Idle?
      && w.Cur(q).ended == ended
      && w.Cur(q).err == err
    }

    ghost function Delivered(): seq<Batch>
      reads this, w
      requires q in w.s.streams
    {
      w.Cur(q).delivered
    }

    ghost function Query(): Script
      reads this, w
      requires q in w.s.streams
    {
      w.s.streams[q].script
    }

    /** openStream: a query id nobody else has or ever had, and a cursor for it. */
    constructor (w: Process, db: nat, script: Script)
      requires Reachable(w.s)
      modifies w
      ensures Valid() && this.w == w
      ensures q !in old(w.s.streams) && q !in old(w.s.opens)
      ensures !ended && err == None && Query() == script && Delivered() == []
    {
      var id := w.OpenCursor(db, script);
      this.w, q := w, id;
      ended, err := false, None;
    }

    /** finish: fetch (and so clear) the stored error, record the terminal error once, close. An import error
        comes first, then a cancelled context, then the fetched error. */
    method Finish(sched: nat -> seq<Action>, callOk: bool) returns (e: Option<Err>)
      requires Reachable(w.s) && q in w.s.streams && w.Cur(q).cons.Fetching?
      requires !ended && !w.Cur(q).closedByCaller
      modifies this, w
      ensures Valid() && ended && e == err && !w.Cur(q).closedByCaller
      ensures Query() == old(Query()) && Delivered() == old(Delivered())
      ensures w.s.streams[q].ch.rxClosed
      ensures w.Cur(q).importFailed == old(w.Cur(q).importFailed)
      ensures |w.Cur(q).fetches| == 1 && (w.Cur(q).fetches[0].Got? <==> callOk)
      ensures old(w.Cur(q).cons.importErr).Some? ==> e == old(w.Cur(q).cons.importErr)
      ensures old(w.Cur(q).cons.importErr == None && w.Cur(q).ctxDone) ==> e == Some(CtxErr)
      ensures old(w.Cur(q).cons.importErr) == None ==>
                e == StoredError(w.Cur(q).fetches[0]) || (e == Some(CtxErr) && w.Cur(q).ctxDone)
    {
      NothingFetchedYet(w.s, q);
      var reply := w.TakeStoredError(q, callOk);
      w.Yield(q, sched(4));
      err := w.RecordEnd(q);
      ended := true;
      e := err;
      w.Yield(q, sched(5));
      w.CloseEnded(q);
    }

    /** The taken half of the two frees: import the batch, then free its shell. */
    method TakePulled(sched: nat -> seq<Action>, imp: ImportOutcome) returns (batch: Batch)
      requires Reachable(w.s) && q in w.s.streams && w.Cur(q).cons.Pulled?
      modifies w
      ensures w.Same(old(w.s), q)
      ensures w.Cur(q).err == old(w.Cur(q).err) && w.Cur(q).ended == old(w.Cur(q).ended)
      ensures w.Cur(q).closedByCaller == old(w.Cur(q).closedByCaller)
      ensures w.Cur(q).importFailed == (old(w.Cur(q).importFailed) || imp.Rejected?)
      ensures old(w.Cur(q).ctxDone) ==> w.Cur(q).ctxDone
      ensures w.Cur(q).cons == if imp.Moved? then Idle else Fetching(Some(ImportErr(imp.msg)))
      ensures Delivered() == old(Delivered()) + if imp.Moved? then [batch] else []
    {
      w.Yield(q, sched(1));
      w.ImportRecord(q, imp);
      w.Yield(q, sched(2));
      batch := w.FreeTaken(q);
    }

    /** The way out of Next: others may run, then finish; what the error means follows. */
    method EndIteration(sched: nat -> seq<Action>, callOk: bool) returns (e: Option<Err>)
      requires Reachable(w.s) && q in w.s.streams && w.Cur(q).cons.Fetching?
      requires !ended && !w.Cur(q).closedByCaller
      modifies this, w
      ensures Valid() && ended && e == err
      ensures Query() == old(Query()) && Delivered() == old(Delivered())
      ensures w.Cur(q).importFailed == old(w.Cur(q).importFailed)
      ensures w.Cur(q).sawEnd || w.Cur(q).ctxDone || w.Cur(q).importFailed
      ensures old(w.Cur(q).cons.importErr).Some? ==> e == old(w.Cur(q).cons.importErr)
      ensures old(w.Cur(q).cons.importErr == None && w.Cur(q).ctxDone) ==> e == Some(CtxErr)
      ensures !w.Cur(q).importFailed && !w.Cur(q).ctxDone ==>
                e == if callOk then OwnError(w.s.streams[q].h) else Some(TransportErr)
      ensures e == None ==> (Complete(Query(), Delivered()) <==> Failure(Query()) != Some(""))
    {
      w.Yield(q, sched(3));
      e := Finish(sched, callOk);
      EndReason(w.s, q);
      if e == None {
        NoSilentTruncation(w.s, q);
      }
    }

    /** Next. `sched` says what the others do between its steps, `preferCancel` which way a pull goes
        when a batch is waiting and the context is done, `imp` and `callOk` what the importer and the
        error fetch do. The call returns only if the pull does. */
    method Next(sched: nat -> seq<Action>, preferCancel: bool, imp: ImportOutcome, callOk: bool)
        returns (rec: Option<Batch>, ok: bool, e: Option<Err>)
      requires Valid()
      requires !ended ==> PullReady(Others(w.s, q, sched(0)), q)
      modifies this, w
      ensures Valid() && Query() == old(Query())
      ensures old(ended) ==> !ok && e == old(err) && ended && err == old(err) && w.s == old(w.s)
      ensures ok <==> !old(ended) && imp.Moved? && BatchWaits(Others(old(w.s), q, sched(0)), q, preferCancel)
      ensures ok ==> rec.Some? && e == None && !ended
      ensures ok ==> Delivered() == old(Delivered()) + [rec.value] && PrefixOfYields(Query().items, Delivered())
      ensures !ok ==> ended && e == err && Delivered() == old(Delivered())
      ensures !ok && !old(ended) ==> w.Cur(q).sawEnd || w.Cur(q).ctxDone || w.Cur(q).importFailed
      ensures !ok && !old(ended) && w.Cur(q).importFailed ==> imp.Rejected? && e == Some(ImportErr(imp.msg))
      ensures !ok && !old(ended) && !w.Cur(q).importFailed && old(w.Cur(q).ctxDone) ==> e == Some(CtxErr)
      ensures !ok && !old(ended) && !w.Cur(q).importFailed && !w.Cur(q).ctxDone ==>
                e == if callOk then OwnError(w.s.streams[q].h) else Some(TransportErr)
      ensures !ok && !old(ended) && e == None ==>
                (Complete(Query(), Delivered()) <==> Failure(Query()) != Some(""))
    {
      if ended {
        return None, false, err;
      }
      NotClosedYet(w.s, q);
      w.Yield(q, sched(0));
      var ptr := w.NextCtx(q, preferCancel);
      if ptr.Some? {
        var batch := TakePulled(sched, imp);
        if imp.Moved? {
          DeliveredIsPrefix(w.s, q);
          return Some(batch), true, None;
        }
      }
      e := EndIteration(sched, callOk);
      return None, false, e;
    }

    /** fetchLogPageMeta, which QueryLogPage calls once its rows have ended: after a nil error the reply is
        the metadata this query's own handler stored, unless planning failed with an empty message. */
    method FetchLogPageMeta(callOk: bool) returns (reply: Reply<Option<PageMeta>>)
      requires Valid() && ended && Query().page.Some? && w.Cur(q).metaFetches == []
      modifies w
      ensures Valid() && Query() == old(Query()) && Delivered() == old(Delivered())
      ensures !callOk ==> reply == CallFailed
      ensures callOk && q in old(w.s.pageMeta) ==> reply == Got(Some(old(w.s).pageMeta[q]))
      ensures callOk && q !in old(w.s.pageMeta) ==> reply == Got(None)
      ensures callOk && err == None && !old(w.Cur(q).closedByCaller) ==>
                (reply == Got(Query().page) <==> StartFailure(Query()) != Some(""))
      ensures callOk && old(w.Cur(q).sawEnd) ==> q !in w.s.pageMeta
    {
      reply := w.TakePageMeta(q, callOk);
      if callOk {
        if err == None && !w.Cur(q).closedByCaller {
          PageMetadataPairing(w.s, q);
        }
        if w.Cur(q).sawEnd {
          ClaimedMeta(w.s, q);
        }
      }
    }

    /** Close: drop the receiver; if iteration had not ended, also claim (and discard) the error. */
    method Close(sched: nat -> seq<Action>, callOk: bool)
      requires Valid()
      modifies this, w
      ensures Valid() && ended && Query() == old(Query()) && Delivered() == old(Delivered())
      ensures w.s.streams[q].ch.rxClosed && err == old(err)
      ensures !old(ended) ==> err == None && w.Cur(q).closedByCaller
      ensures !old(ended) ==> |w.Cur(q).fetches| == 1 && (w.Cur(q).fetches[0].Got? <==> callOk)
      ensures !old(ended) && callOk ==> (q in w.s.errors ==> w.s.streams[q].h.late)
    {
      NotClosedYet(w.s, q);
      w.CloseByCaller(q);
      if !ended {
        ended := true;
        w.Yield(q, sched(0));
        var reply := w.TakeStoredError(q, callOk);
        assert w.Cur(q).fetches == [reply];
        ClaimedSlot(w.s, q);
      }
    }
  }

  /** A cursor that has not ended recorded nothing and fetched nothing. */
  lemma NotClosedYet(s: State, q: Qid)
    requires Reachable(s) && q in s.streams && s.streams[q].c.cons.Idle?
    ensures var c := s.streams[q].c;
            !c.ended ==> !c.closedByCaller && c.err == None && c.fetches == [] && !c.importFailed
  {
    StreamInv(s, q);
  }

  lemma NothingFetchedYet(s: State, q: Qid)
    requires Reachable(s) && q in s.streams && s.streams[q].c.cons.Fetching?
    ensures s.streams[q].c.fetches == []
  {
    StreamInv(s, q);
  }

  /** What takeStoredError makes of what the handler stored. */
  function OwnError(h: Handler): Option<Err> {
    if h.stores == [] || h.stores[0] == "" then None else Some(QueryErr(h.stores[0]))
  }

  /** Why Next ended the iteration, and with which error at end-of-stream under a live context. */
  lemma EndReason(s: State, q: Qid)
    requires Reachable(s) && q in s.streams
    requires var c := s.streams[q].c; c.ended && !c.closedByCaller && |c.fetches| == 1
    ensures var c := s.streams[q].c;
            && (c.sawEnd || c.ctxDone || c.importFailed)
            && (!c.importFailed && !c.ctxDone ==>
                  c.err == if c.fetches[0].Got? then OwnError(s.streams[q].h) else Some(TransportErr))
  {
    StreamInv(s, q);
    var c := s.streams[q].c;
    if !c.importFailed && !c.ctxDone && Claimed(c) {
      StoredErrorSurfaces(s, q);
    }
  }

  lemma ClaimedMeta(s: State, q: Qid)
    requires Reachable(s) && q in s.streams && s.streams[q].c.sawEnd && MetaClaimed(s.streams[q].c)
    ensures q !in s.pageMeta
  {
    StreamInv(s, q);
  }

  lemma ClaimedSlot(s: State, q: Qid)
    requires Reachable(s) && q in s.streams && |s.streams[q].c.fetches| == 1
    ensures s.streams[q].c.fetches[0].Got? && q in s.errors ==> s.streams[q].h.late
  {
    StreamInv(s, q);
  }
}
