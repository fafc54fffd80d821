/** Database handles and the queries on them (insert_db, lookup_db and the handlers of rust/src/lib.rs): which
    handle an open returns, that a closed one stays closed, and what a query gets on either. */
module StreamHandles {
  import opened Wrappers
  import opened Shells
  import opened StreamProtocol
  import opened StreamInvariant
  import opened StreamPreservation
  import opened StreamTheorems

  // ---------------------------------------------------------------- handles

  /** Handles of successful opens were handed out, each once. */
  ghost predicate HandlesOk(s: State) {
    && (forall id :: id in s.opens && s.opens[id].Opened? ==> 1 <= s.opens[id].db < s.dbCtr)
    && (forall i, j :: i in s.opens && j in s.opens && i != j && s.opens[i].Opened? && s.opens[j].Opened? ==>
          s.opens[i].db != s.opens[j].db)
  }

  lemma HandlesStep(s: State, a: Action)
    requires IdsOk(s) && HandlesOk(s) && Enabled(s, a)
    ensures HandlesOk(Step(s, a))
  {
    if IsStreamAction(a) {
      assert Step(s, a).opens == s.opens && Step(s, a).dbCtr == s.dbCtr;
    }
  }

  lemma {:induction false} HandlesRun(s: State, acts: seq<Action>, t: State)
    requires Reachable(s) && HandlesOk(s) && IsRun(s, acts, t)
    ensures HandlesOk(t)
    decreases |acts|
  {
    if acts != [] {
      OpenInv(s);
      HandlesStep(s, acts[0]);
      StepReachable(s, acts[0]);
      HandlesRun(Step(s, acts[0]), acts[1..], t);
    }
  }

  /** No two opens ever get the same handle, and none gets 0, which stands for failure. */
  lemma HandlesAreUnique(s: State, i: Qid, j: Qid)
    requires Reachable(s) && i in s.opens && j in s.opens && i != j && s.opens[i].Opened? && s.opens[j].Opened?
    ensures s.opens[i].db != s.opens[j].db && s.opens[i].db != 0
  {
    var cap: nat, acts :| IsRun(InitState(cap), acts, s);
    assert IsRun(InitState(cap), [], InitState(cap));
    HandlesRun(InitState(cap), acts, s);
  }

  /** A successful open registers the handle it returns and closes none. */
  lemma OpenRegisters(s: State, id: Qid)
    requires Reachable(s) && id in s.opens && s.opens[id].Trying?
    ensures var t := Step(s, OpenSucceeds(id));
            && t.opens[id].Opened? && t.opens[id].db in t.dbs && t.opens[id].db !in s.dbs
            && (forall d :: d in s.dbs ==> d in t.dbs)
  {
    OpenInv(s);
  }

  /** Handed out and closed since; 0 was never handed out. */
  predicate ClosedHandle(s: State, d: nat) {
    d < s.dbCtr && d !in s.dbs
  }

  lemma CloseCloses(s: State, d: nat)
    requires d < s.dbCtr
    ensures ClosedHandle(Step(s, CloseDb(d)), d)
    ensures forall e :: e != d ==> (e in Step(s, CloseDb(d)).dbs <==> e in s.dbs)
  {
  }

  lemma ClosedStep(s: State, a: Action, d: nat)
    requires ClosedHandle(s, d) && Enabled(s, a)
    ensures ClosedHandle(Step(s, a), d)
  {
    if IsStreamAction(a) {
      assert Step(s, a).dbs == s.dbs && Step(s, a).dbCtr == s.dbCtr;
    }
  }

  /** A closed handle stays closed in every later state. */
  lemma {:induction false} ClosedForever(s: State, acts: seq<Action>, t: State, d: nat)
    requires ClosedHandle(s, d) && IsRun(s, acts, t)
    ensures ClosedHandle(t, d)
    decreases |acts|
  {
    if acts != [] {
      ClosedStep(s, acts[0], d);
      ClosedForever(Step(s, acts[0]), acts[1..], t, d);
    }
  }

  /** Every open of a database or a stream, refused ones included, takes the next id; nothing else does. */
  lemma EveryOpenTakesAnId(s: State, a: Action)
    requires Enabled(s, a)
    ensures Step(s, a).ctr == s.ctr + if a.BeginOpen? || a.OpenStream? || a.OpenRefused? then 1 else 0
  {
  }

  /** A failed open can report its own cause: the message is there until it is fetched, and then gone. */
  lemma OpenFailureReachesCaller(s: State, id: Qid, cause: string)
    requires Reachable(s) && id in s.opens && s.opens[id].Trying?
    ensures Enabled(s, OpenFails(id, cause)) && Enabled(Step(s, OpenFails(id, cause)), OpenReport(id, true))
    ensures var t := Step(Step(s, OpenFails(id, cause)), OpenReport(id, true));
            && t.opens[id].Reported? && t.opens[id].reply == Got(cause) && id !in t.errors
            && t.dbs == s.dbs
  {
    OpenInv(s);
  }

  /** A handler is never stuck while its stream is open, except at a full channel. */
  lemma HandlerProceeds(s: State, q: Qid) returns (a: Action)
    requires q in s.streams && !s.streams[q].h.prod.Gone?
    requires s.streams[q].h.prod.Sending? && !s.streams[q].ch.rxClosed ==> |s.streams[q].ch.queue| < s.cap
    ensures IsHandlerAction(a) && a.q == q && Enabled(s, a)
  {
    match s.streams[q].h.prod
    case Spawned => a := Begin(q);
    case StoringMeta => a := StoreMeta(q);
    case Polling => a := Poll(q);
    case Sending(_) => a := if s.streams[q].ch.rxClosed then SendError(q) else Send(q);
    case Storing(_) => a := StoreError(q);
    case Returning => a := DropSender(q);
  }

  // ---------------------------------------------------------------- a query on a closed handle

  /** What such a query is refused with: its own parse error comes first. */
  function Refusal(sc: Script): string {
    if sc.parseErr.Some? then sc.parseErr.value else "unknown db handle"
  }

  /** No batch and no metadata came of the query. */
  ghost predicate Untouched(st: Stream) {
    && st.h.pos == 0 && !st.h.metaStored && st.ch.queue == [] && st.c.delivered == [] && !st.c.importFailed
    && !st.c.cons.Pulled? && !st.c.cons.Imported?
  }

  /** Nothing came of the query but the refusal. */
  ghost predicate Refused(st: Stream) {
    && Untouched(st)
    && (st.h.prod.Spawned? || st.h.prod.Storing? || st.h.prod.Returning? || st.h.prod.Gone?)
    && (st.h.prod.Storing? ==> st.h.prod.msg == Refusal(st.script))
    && st.h.stores == if st.h.prod.Spawned? || st.h.prod.Storing? then [] else [Refusal(st.script)]
  }

  /** Until its handler begins, a query is untouched. */
  ghost predicate SpawnedOk(s: State) {
    forall q :: q in s.streams && s.streams[q].h.prod.Spawned? ==>
      Untouched(s.streams[q]) && s.streams[q].h.stores == []
  }

  lemma SpawnedOwnStep(s: State, a: Action)
    requires IsStreamAction(a) && Enabled(s, a) && s.streams[a.q].h.prod.Spawned?
    requires Untouched(s.streams[a.q]) && s.streams[a.q].h.stores == []
    ensures var st := Step(s, a).streams[a.q]; st.h.prod.Spawned? ==> Untouched(st) && st.h.stores == []
  {
    StepShape(s, a);
  }

  lemma LeavesSpawned(s: State, a: Action)
    requires IsStreamAction(a) && Enabled(s, a) && !s.streams[a.q].h.prod.Spawned?
    ensures !Step(s, a).streams[a.q].h.prod.Spawned?
  {
    StepShape(s, a);
  }

  lemma SpawnedStep(s: State, a: Action)
    requires IdsOk(s) && SpawnedOk(s) && Enabled(s, a)
    ensures SpawnedOk(Step(s, a))
  {
    var t := Step(s, a);
    forall q | q in t.streams && t.streams[q].h.prod.Spawned?
      ensures Untouched(t.streams[q]) && t.streams[q].h.stores == []
    {
      if IsStreamAction(a) && a.q == q {
        if s.streams[q].h.prod.Spawned? {
          SpawnedOwnStep(s, a);
        } else {
          LeavesSpawned(s, a);
        }
      } else if q in s.streams {
        OtherKeepsStream(s, a, q);
      }
    }
  }

  lemma {:induction false} SpawnedRun(s: State, acts: seq<Action>, t: State)
    requires Reachable(s) && SpawnedOk(s) && IsRun(s, acts, t)
    ensures SpawnedOk(t)
    decreases |acts|
  {
    if acts != [] {
      OpenInv(s);
      SpawnedStep(s, acts[0]);
      StepReachable(s, acts[0]);
      SpawnedRun(Step(s, acts[0]), acts[1..], t);
    }
  }

  lemma RefusedOwnStep(s: State, a: Action)
    requires IsStreamAction(a) && Enabled(s, a) && Refused(s.streams[a.q]) && ClosedHandle(s, s.streams[a.q].db)
    ensures a.q in Step(s, a).streams && Refused(Step(s, a).streams[a.q])
    ensures Step(s, a).streams[a.q].db == s.streams[a.q].db && Step(s, a).streams[a.q].script == s.streams[a.q].script
  {
    StepShape(s, a);
  }

  lemma OtherKeepsStream(s: State, a: Action, q: Qid)
    requires q in s.streams && q <= s.ctr && Enabled(s, a) && !(IsStreamAction(a) && a.q == q)
    ensures q in Step(s, a).streams && Step(s, a).streams[q] == s.streams[q]
  {
  }

  lemma {:induction false} RefusedRun(s: State, acts: seq<Action>, t: State, q: Qid)
    requires Reachable(s) && q in s.streams && Refused(s.streams[q]) && ClosedHandle(s, s.streams[q].db)
    requires IsRun(s, acts, t)
    ensures Reachable(t) && q in t.streams && t.streams[q].script == s.streams[q].script && Refused(t.streams[q])
    decreases |acts|
  {
    if acts != [] {
      var a := acts[0];
      if IsStreamAction(a) && a.q == q {
        RefusedOwnStep(s, a);
      } else {
        OpenInv(s);
        OtherKeepsStream(s, a, q);
      }
      ClosedStep(s, a, s.streams[q].db);
      StepReachable(s, a);
      RefusedRun(Step(s, a), acts[1..], t, q);
    }
  }

  lemma SpawnedIsUntouched(s: State, q: Qid)
    requires Reachable(s) && q in s.streams && s.streams[q].h.prod.Spawned?
    ensures Refused(s.streams[q])
  {
    var cap: nat, acts :| IsRun(InitState(cap), acts, s);
    assert IsRun(InitState(cap), [], InitState(cap));
    SpawnedRun(InitState(cap), acts, s);
  }

  /** A refused query that ended under a live context ended at end-of-stream, with its refusal. */
  lemma RefusalSurfaces(s: State, q: Qid)
    requires Reachable(s) && q in s.streams && Refused(s.streams[q])
    requires var c := s.streams[q].c; c.ended && !c.closedByCaller && !c.ctxDone && Claimed(c)
    ensures s.streams[q].c.err == Some(QueryErr(Refusal(s.streams[q].script)))
  {
    EndedAtEos(s, q);
    StoredErrorSurfaces(s, q);
  }

  lemma EndedAtEos(s: State, q: Qid)
    requires Reachable(s) && q in s.streams && Refused(s.streams[q])
    requires var c := s.streams[q].c; c.ended && !c.closedByCaller && !c.ctxDone
    ensures s.streams[q].c.sawEnd && s.streams[q].h.prod.Gone?
  {
    StreamInv(s, q);
  }

  /** If a stream's handle is closed before its handler begins, then in every later state it has delivered
      nothing, has stored no metadata, and stores its parse error or "unknown db handle" and nothing else;
      at end-of-stream, with a live context and a working fetch, Next reports exactly that. */
  lemma ClosedHandleIsRefused(s: State, acts: seq<Action>, t: State, q: Qid)
    requires Reachable(s) && q in s.streams && s.streams[q].h.prod.Spawned? && ClosedHandle(s, s.streams[q].db)
    requires IsRun(s, acts, t)
    ensures q in t.streams && t.streams[q].script == s.streams[q].script
    ensures var st := t.streams[q];
            && st.c.delivered == [] && st.ch.queue == [] && !st.h.metaStored
            && (st.h.prod.Gone? ==> st.h.stores == [Refusal(st.script)])
            && (forall msg :: msg in st.h.stores ==> msg == Refusal(st.script))
    ensures var st := t.streams[q];
            st.c.ended && !st.c.closedByCaller && !st.c.ctxDone && Claimed(st.c) ==>
              st.c.err == Some(QueryErr(Refusal(st.script)))
  {
    SpawnedIsUntouched(s, q);
    RefusedRun(s, acts, t, q);
    var c := t.streams[q].c;
    if c.ended && !c.closedByCaller && !c.ctxDone && Claimed(c) {
      RefusalSurfaces(t, q);
    }
  }

  // ---------------------------------------------------------------- a query on an open handle

  /** The handler is past its lookup and stores nothing but the query's own failure. */
  ghost predicate OwnFailureOnly(st: Stream) {
    && !st.h.prod.Spawned?
    && (st.h.prod.Storing? ==> Failure(st.script) == Some(st.h.prod.msg))
    && (st.h.stores == [] || (Failure(st.script).Some? && st.h.stores == [Failure(st.script).value]))
  }

  lemma OwnFailureStep(s: State, a: Action)
    requires IsStreamAction(a) && Enabled(s, a) && OwnFailureOnly(s.streams[a.q])
    requires HandlerOk(s.streams[a.q].script, s.streams[a.q].h, s.streams[a.q].ch.rxClosed)
    ensures a.q in Step(s, a).streams && OwnFailureOnly(Step(s, a).streams[a.q])
    ensures Step(s, a).streams[a.q].script == s.streams[a.q].script
  {
    var st := s.streams[a.q];
    StepShape(s, a);
    FirstBrokenAt(st.script.items, st.h.pos);
    var h := Acted(s, a).h;
    if a.StoreError? {
      assert h.stores == [st.h.prod.msg];
    } else {
      assert h.stores == st.h.stores;
    }
    if a.Poll? && h.prod.Storing? {
      assert st.script.items[st.h.pos] == Broken(h.prod.msg);
    }
  }

  lemma {:induction false} OwnFailureRun(s: State, acts: seq<Action>, t: State, q: Qid)
    requires Reachable(s) && q in s.streams && OwnFailureOnly(s.streams[q]) && IsRun(s, acts, t)
    ensures q in t.streams && t.streams[q].script == s.streams[q].script && OwnFailureOnly(t.streams[q])
    decreases |acts|
  {
    if acts != [] {
      var a := acts[0];
      if IsStreamAction(a) && a.q == q {
        StreamInv(s, q);
        OwnFailureStep(s, a);
      } else {
        OpenInv(s);
        OtherKeepsStream(s, a, q);
      }
      StepReachable(s, a);
      OwnFailureRun(Step(s, a), acts[1..], t, q);
    }
  }

  /** If the handle is open when the handler begins, every message stored in any later state is the query's
      own failure, whatever is closed meanwhile; "unknown db handle" is none of them, unless the query's
      failure has that text. A query that does not fail stores nothing. */
  lemma OpenHandleIsServed(s: State, acts: seq<Action>, t: State, q: Qid)
    requires Reachable(s) && q in s.streams && s.streams[q].h.prod.Spawned? && s.streams[q].db in s.dbs
    requires IsRun(Step(s, Begin(q)), acts, t)
    ensures q in t.streams && t.streams[q].script == s.streams[q].script
    ensures var st, own := t.streams[q], Failure(t.streams[q].script);
            st.h.stores == [] || (own.Some? && st.h.stores == [own.value])
  {
    SpawnedIsUntouched(s, q);
    StepReachable(s, Begin(q));
    var u := Step(s, Begin(q));
    StepShape(s, Begin(q));
    assert u.streams[q].script == s.streams[q].script;
    OwnFailureRun(u, acts, t, q);
  }
}
