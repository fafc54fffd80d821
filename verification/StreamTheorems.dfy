/** What the streaming protocol guarantees in every reachable state, whatever the interleaving. */
module StreamTheorems {
  import opened Wrappers
  import opened Shells
  import opened StreamProtocol
  import opened StreamInvariant
  import opened StreamPreservation

  /** The invariant of one stream, without the rest. */
  lemma StreamInv(s: State, q: Qid)
    requires Reachable(s) && q in s.streams
    ensures StreamOk(s, q)
  {
    ReachableInv(s);
  }

  lemma MemInv(s: State)
    requires Reachable(s)
    ensures MemOk(s.mem) && OwnersOk(s)
    ensures forall q :: q in s.streams ==> CountOk(Flight(s.streams[q]), s.mem.heap, q)
  {
    ReachableInv(s);
    forall q | q in s.streams
      ensures CountOk(Flight(s.streams[q]), s.mem.heap, q)
    {
      StreamInv(s, q);
    }
  }

  // ---------------------------------------------------------------- no silent truncation

  lemma {:induction false} FirstBrokenAt(items: seq<Item>, k: nat)
    requires k <= |items| && forall i :: 0 <= i < k ==> items[i].Yield?
    ensures k == |items| ==> FirstBroken(items) == None
    ensures k < |items| && items[k].Broken? ==> FirstBroken(items) == Some(items[k].msg)
  {
    if k > 0 {
      FirstBrokenAt(items[1..], k - 1);
    }
  }

  /** The only messages a handler stores: the query's own failure, or the unknown-handle report. */
  lemma StoredIsFailure(sc: Script, h: Handler, rxClosed: bool)
    requires HandlerOk(sc, h, rxClosed) && h.stores != []
    ensures h.stores == [h.stores[0]]
    ensures h.stores[0] == UNKNOWN_DB || Failure(sc) == Some(h.stores[0])
  {
    FirstBrokenAt(sc.items, h.pos);
  }

  /** Batches come out of Next as an in-order prefix of what the engine yielded. */
  lemma DeliveredIsPrefix(s: State, q: Qid)
    requires Reachable(s) && q in s.streams
    ensures PrefixOfYields(s.streams[q].script.items, s.streams[q].c.delivered)
  {
    StreamInv(s, q);
  }

  /** When Next itself ends the iteration with a nil error, the caller holds the whole result of a
      clean query exactly when the query did not fail with an empty message: takeStoredError cannot
      tell an empty message from no message. */
  lemma NoSilentTruncation(s: State, q: Qid)
    requires Reachable(s) && q in s.streams
    requires var c := s.streams[q].c; c.ended && !c.closedByCaller && c.err == None
    ensures var st := s.streams[q];
            Complete(st.script, st.c.delivered) <==> Failure(st.script) != Some("")
  {
    StreamInv(s, q);
    var st := s.streams[q];
    FirstBrokenAt(st.script.items, st.h.pos);
    if st.h.stores != [] {
      StoredIsFailure(st.script, st.h, st.ch.rxClosed);
      assert st.h.stores[0] == "";
      assert Failure(st.script) == Some("");
    } else {
      assert Failure(st.script) == None;
    }
  }

  /** A failure whose message is not empty reaches the caller: at end-of-stream, with a live context
      and a working fetch, Next reports exactly what this query's handler stored. */
  lemma StoredErrorSurfaces(s: State, q: Qid)
    requires Reachable(s) && q in s.streams
    requires var c := s.streams[q].c; c.ended && !c.closedByCaller && c.sawEnd && !c.importFailed && !c.ctxDone
    requires Claimed(s.streams[q].c)
    ensures var st := s.streams[q];
            st.c.err == if st.h.stores == [] || st.h.stores[0] == "" then None
                        else Some(QueryErr(st.h.stores[0]))
    ensures var st := s.streams[q];
            st.h.stores == [] || st.h.stores[0] == UNKNOWN_DB || Failure(st.script) == Some(st.h.stores[0])
  {
    StreamInv(s, q);
    var st := s.streams[q];
    if st.h.stores != [] {
      StoredIsFailure(st.script, st.h, st.ch.rxClosed);
    }
  }

  /** After an early Close, Next reports nil whatever is missing. */
  lemma EarlyCloseReportsNil(s: State, q: Qid)
    requires Reachable(s) && q in s.streams && s.streams[q].c.closedByCaller
    ensures s.streams[q].c.ended && s.streams[q].c.err == None
  {
    StreamInv(s, q);
  }

  // ---------------------------------------------------------------- the two-free protocol

  /** Boxes queued, being sent, or taken but not yet freed. */
  ghost function InFlightBoxes(s: State): set<Ptr> {
    set q, p | q in s.streams && p in Flight(s.streams[q]) :: p
  }

  lemma HeapInFlight(s: State, p: Ptr)
    requires Reachable(s) && p in s.mem.heap
    ensures p in InFlightBoxes(s)
  {
    MemInv(s);
    assert Flight(s.streams[s.mem.heap[p].owner])[p] == 1;
  }

  lemma FlightInHeap(s: State, p: Ptr, q: Qid)
    requires Reachable(s) && q in s.streams && p in Flight(s.streams[q])
    ensures p in s.mem.heap
  {
    MemInv(s);
    assert Flight(s.streams[q])[p] >= 1;
  }

  lemma InFlightIsHeap(s: State)
    requires Reachable(s)
    ensures InFlightBoxes(s) == s.mem.heap.Keys
  {
    forall p | p in s.mem.heap
      ensures p in InFlightBoxes(s)
    {
      HeapInFlight(s, p);
    }
    forall p | p in InFlightBoxes(s)
      ensures p in s.mem.heap
    {
      var q :| q in s.streams && p in Flight(s.streams[q]);
      FlightInHeap(s, p, q);
    }
  }

  /** Every exported box is freed at most once, and has been freed exactly when it is no longer in
      flight; LIVE_BATCHES counts the boxes in flight. */
  lemma TwoFree(s: State)
    requires Reachable(s)
    ensures forall p :: s.mem.shellFrees[p] <= 1
    ensures forall p :: 1 <= p < s.mem.nextPtr ==> (s.mem.shellFrees[p] == 1 <==> p !in InFlightBoxes(s))
    ensures s.mem.live == |InFlightBoxes(s)|
  {
    MemInv(s);
    InFlightIsHeap(s);
  }

  /** Apart from failed imports, a batch's Arrow buffers are released exactly once, at the moment the
      box is abandoned or the client releases its record; never twice, even for failed imports. */
  lemma BuffersReleasedOnce(s: State, p: Ptr)
    requires Reachable(s)
    ensures s.mem.bufReleases[p] <= 1
    ensures 1 <= p < s.mem.nextPtr && p !in s.mem.lost ==>
              (s.mem.bufReleases[p] == 1 <==> p !in InFlightBoxes(s) && p !in s.mem.records)
  {
    MemInv(s);
    InFlightIsHeap(s);
  }

  /** The handler's and sable's own actions on query `q`. */
  predicate Internal(a: Action, q: Qid) {
    (IsHandlerAction(a) || a.Drain?) && a.q == q
  }

  /** Steps a closed stream still has to make. */
  function Work(st: Stream): nat {
    |st.ch.queue| + match st.h.prod
      case Spawned => 6
      case StoringMeta => 5
      case Polling => 4
      case Sending(_) => 3
      case Storing(_) => 2
      case Returning => 1
      case Gone => 0
  }

  predicate IsHandlerAction(a: Action) {
    a.Begin? || a.StoreMeta? || a.Poll? || a.Send? || a.SendError? || a.StoreError? || a.DropSender?
  }

  /** Once the cursor is closed, every step of the other side is progress. */
  lemma ClosedStepShrinks(s: State, a: Action, q: Qid)
    requires Internal(a, q) && Enabled(s, a) && s.streams[q].ch.rxClosed
    ensures Work(Step(s, a).streams[q]) < Work(s.streams[q])
    ensures Step(s, a).streams[q].ch.rxClosed
    ensures Step(s, a).streams[q].c == s.streams[q].c
  {
  }

  /** ... and as long as there is work left, some step is enabled. */
  lemma ClosedStepExists(s: State, q: Qid) returns (a: Action)
    requires q in s.streams && s.streams[q].ch.rxClosed && Work(s.streams[q]) > 0
    ensures Internal(a, q) && Enabled(s, a)
  {
    var st := s.streams[q];
    if st.ch.queue != [] {
      a := Drain(q);
    } else {
      match st.h.prod
      case Spawned => a := Begin(q);
      case StoringMeta => a := StoreMeta(q);
      case Polling => a := Poll(q);
      case Sending(_) => a := SendError(q);
      case Storing(_) => a := StoreError(q);
      case Returning => a := DropSender(q);
    }
  }

  lemma NothingCounted(f: multiset<Ptr>, heap: map<Ptr, Shell>, q: Qid)
    requires CountOk(f, heap, q) && f == multiset{}
    ensures forall p :: p in heap ==> heap[p].owner != q
  {
    assert forall p :: f[p] == 0;
  }

  /** A stopped handler and an empty channel leave no box behind: LIVE_BATCHES holds none of this query. */
  lemma SettledHoldsNothing(s: State, q: Qid)
    requires Reachable(s) && q in s.streams
    requires Work(s.streams[q]) == 0 && s.streams[q].c.cons.Idle?
    ensures forall p :: p in s.mem.heap ==> s.mem.heap[p].owner != q
  {
    StreamInv(s, q);
    NothingCounted(Flight(s.streams[q]), s.mem.heap, q);
  }

  lemma {:induction false} RunAppend(s: State, acts: seq<Action>, t: State, a: Action)
    requires IsRun(s, acts, t) && Enabled(t, a)
    ensures IsRun(s, acts + [a], Step(t, a))
    decreases |acts|
  {
    if acts == [] {
      assert IsRun(Step(t, a), [], Step(t, a));
      assert ([] + [a])[1..] == [];
    } else {
      RunAppend(Step(s, acts[0]), acts[1..], t, a);
      assert (acts + [a])[1..] == acts[1..] + [a];
    }
  }

  lemma StepReachable(s: State, a: Action)
    requires Reachable(s) && Enabled(s, a)
    ensures Reachable(Step(s, a))
  {
    var cap: nat, acts :| IsRun(InitState(cap), acts, s);
    RunAppend(InitState(cap), acts, s, a);
  }

  /** From every reachable state in which the cursor is closed, the handler and the channel on their
      own run to a state where none of the query's boxes is left, in at most `Work` steps. */
  lemma {:induction false} ClosedStreamSettles(s: State, q: Qid) returns (acts: seq<Action>, t: State)
    requires Reachable(s) && q in s.streams
    requires s.streams[q].ch.rxClosed && s.streams[q].c.cons.Idle?
    ensures IsRun(s, acts, t) && |acts| <= Work(s.streams[q])
    ensures forall i :: 0 <= i < |acts| ==> Internal(acts[i], q)
    ensures forall p :: p in t.mem.heap ==> t.mem.heap[p].owner != q
    decreases Work(s.streams[q])
  {
    if Work(s.streams[q]) == 0 {
      SettledHoldsNothing(s, q);
      acts, t := [], s;
    } else {
      var a := ClosedStepExists(s, q);
      ClosedStepShrinks(s, a, q);
      StepReachable(s, a);
      var rest;
      rest, t := ClosedStreamSettles(Step(s, a), q);
      acts := [a] + rest;
      assert acts[1..] == rest;
    }
  }

  /** Closed for good: the goroutine is between two calls and the receiver is dropped. */
  predicate ClosedIdle(s: State, q: Qid) {
    q in s.streams && s.streams[q].ch.rxClosed && s.streams[q].c.cons.Idle? && s.streams[q].c.ended
  }

  lemma OthersLeaveWork(s: State, a: Action, q: Qid)
    requires ClosedIdle(s, q) && q <= s.ctr && Enabled(s, a) && !Internal(a, q)
    ensures ClosedIdle(Step(s, a), q) && Work(Step(s, a).streams[q]) == Work(s.streams[q])
  {
  }

  function InternalSteps(acts: seq<Action>, q: Qid): nat {
    if acts == [] then 0 else (if Internal(acts[0], q) then 1 else 0) + InternalSteps(acts[1..], q)
  }

  lemma {:induction false} WorkIsUsedUp(s: State, acts: seq<Action>, t: State, q: Qid)
    requires Reachable(s) && ClosedIdle(s, q) && IsRun(s, acts, t)
    ensures Reachable(t) && ClosedIdle(t, q)
    ensures Work(t.streams[q]) + InternalSteps(acts, q) <= Work(s.streams[q])
    decreases |acts|
  {
    if acts != [] {
      OpenInv(s);
      if Internal(acts[0], q) {
        ClosedStepShrinks(s, acts[0], q);
      } else {
        OthersLeaveWork(s, acts[0], q);
      }
      StepReachable(s, acts[0]);
      WorkIsUsedUp(Step(s, acts[0]), acts[1..], t, q);
    }
  }

  /** However the rest of the process interleaves, a closed stream takes at most `Work` more steps of its
      handler and channel, and every run that contains as many of them leaves none of its boxes. While
      there is work left such a step is enabled (`ClosedStepExists`). */
  lemma EveryRunSettles(s: State, acts: seq<Action>, t: State, q: Qid)
    requires Reachable(s) && q in s.streams && IsRun(s, acts, t)
    requires s.streams[q].ch.rxClosed && s.streams[q].c.cons.Idle?
    ensures InternalSteps(acts, q) <= Work(s.streams[q])
    ensures InternalSteps(acts, q) == Work(s.streams[q]) ==> forall p :: p in t.mem.heap ==> t.mem.heap[p].owner != q
  {
    StreamInv(s, q);
    WorkIsUsedUp(s, acts, t, q);
    if InternalSteps(acts, q) == Work(s.streams[q]) {
      SettledHoldsNothing(t, q);
    }
  }

  // ---------------------------------------------------------------- the out-of-band slots

  lemma OpenInv(s: State)
    requires Reachable(s)
    ensures IdsOk(s) && OpensOk(s)
  {
    ReachableInv(s);
  }

  lemma QueryErrorIsOwn(s: State, q: Qid)
    requires Reachable(s) && q in s.streams
    ensures var st := s.streams[q];
            && |st.h.stores| <= 1
            && (forall r :: r in st.c.fetches && r.Got? && r.value != "" ==> st.h.stores == [r.value])
  {
    StreamInv(s, q);
  }

  /** No consumer sees another's error: what a query's fetch returned was stored by its own handler,
      and what a failed open reports was stored by that open. */
  lemma ErrorsAreOwn(s: State, id: Qid)
    requires Reachable(s)
    ensures id in s.streams ==>
              var st := s.streams[id];
              && |st.h.stores| <= 1
              && (forall r :: r in st.c.fetches && r.Got? && r.value != "" ==> st.h.stores == [r.value])
    ensures id in s.opens && s.opens[id].Reported? && s.opens[id].reply.Got? ==>
              s.opens[id].reply.value == s.opens[id].cause
    ensures !(id in s.streams && id in s.opens)
  {
    if id in s.streams {
      QueryErrorIsOwn(s, id);
    }
    OpenInv(s);
  }

  /** Once a query is over on both sides, its error slot is still occupied exactly when the handler
      stored and either stored after the cursor's only fetch or that fetch failed in transport. */
  lemma ErrorSlotLeftover(s: State, q: Qid)
    requires Reachable(s) && q in s.streams
    requires s.streams[q].h.prod.Gone? && s.streams[q].c.ended && s.streams[q].c.cons.Idle?
    ensures var st := s.streams[q];
            q in s.errors <==> st.h.stores != [] && (st.h.late || st.c.fetches == [CallFailed])
  {
    StreamInv(s, q);
    assert s.streams[q].c.fetches == [s.streams[q].c.fetches[0]];
  }

  /** The same for the page metadata of a paged query after its one metadata fetch. */
  lemma PageMetaLeftover(s: State, q: Qid)
    requires Reachable(s) && q in s.streams && s.streams[q].c.metaFetches != []
    ensures var st := s.streams[q];
            q in s.pageMeta <==> st.h.metaStored && (st.h.metaLate || st.c.metaFetches == [CallFailed])
  {
    StreamInv(s, q);
    assert s.streams[q].c.metaFetches == [s.streams[q].c.metaFetches[0]];
  }

  /** The cursor saw end-of-stream and its slot fetches went through. */
  ghost predicate Drained(s: State, q: Qid) {
    q in s.streams && s.streams[q].c.sawEnd && Claimed(s.streams[q].c)
  }

  lemma DrainedOwn(s: State, a: Action)
    requires IsStreamAction(a) && Enabled(s, a) && Drained(s, a.q)
    requires CursorOk(s.streams[a.q].c, s.streams[a.q].ch.rxClosed, EndOfStream(s.streams[a.q].h, s.streams[a.q].ch))
    ensures var c, d := s.streams[a.q].c, Step(s, a).streams[a.q].c;
            d.sawEnd && d.fetches == c.fetches && (MetaClaimed(c) ==> MetaClaimed(d))
  {
    StepShape(s, a);
  }

  lemma DrainedStep(s: State, a: Action, q: Qid)
    requires Enabled(s, a) && Drained(s, q)
    requires CursorOk(s.streams[q].c, s.streams[q].ch.rxClosed, EndOfStream(s.streams[q].h, s.streams[q].ch))
    requires IdsOk(s)
    ensures Drained(Step(s, a), q)
    ensures MetaClaimed(s.streams[q].c) ==> MetaClaimed(Step(s, a).streams[q].c)
  {
    if IsStreamAction(a) && a.q == q {
      DrainedOwn(s, a);
    } else {
      assert Step(s, a).streams[q] == s.streams[q];
    }
  }

  /** A stream drained to its end leaks nothing, then or in any later state of the process. */
  lemma {:induction false} DrainedNeverLeaks(s: State, acts: seq<Action>, t: State, q: Qid)
    requires Reachable(s) && Drained(s, q) && IsRun(s, acts, t)
    ensures q in t.streams && q !in t.errors
    ensures MetaClaimed(s.streams[q].c) ==> q !in t.pageMeta
    decreases |acts|
  {
    StreamInv(s, q);
    if acts != [] {
      OpenInv(s);
      DrainedStep(s, acts[0], q);
      StepReachable(s, acts[0]);
      DrainedNeverLeaks(Step(s, acts[0]), acts[1..], t, q);
    }
  }

  /** A paged query whose rows ended with a nil error gets the metadata its own handler stored, unless
      it failed with an empty message before it had any. */
  lemma PageMetadataPairing(s: State, q: Qid)
    requires Reachable(s) && q in s.streams
    requires var c := s.streams[q].c; c.ended && !c.closedByCaller && c.err == None && MetaClaimed(c)
    ensures var st := s.streams[q];
            st.c.metaFetches == [Got(st.script.page)] <==> StartFailure(st.script) != Some("")
    ensures s.streams[q].script.page.Some?
  {
    StreamInv(s, q);
    var st := s.streams[q];
    assert st.c.metaFetches == [st.c.metaFetches[0]];
    if st.h.stores != [] {
      StoredIsFailure(st.script, st.h, st.ch.rxClosed);
      assert st.h.stores[0] == "";
    }
  }
}
