/** Every action of the streaming protocol preserves the invariant, so it holds in every reachable state. */
module StreamPreservation {
  import opened Wrappers
  import opened Shells
  import opened StreamProtocol
  import opened StreamInvariant

  /** `s` and `t` look the same to every stream and open other than `q`. */
  ghost predicate OthersSame(s: State, t: State, q: Qid) {
    && t.cap == s.cap && t.opens == s.opens
    && t.ctr == s.ctr && t.dbCtr == s.dbCtr && t.dbs == s.dbs
    && q in s.streams && q in t.streams
    && t.streams == s.streams[q := t.streams[q]]
    && (forall id :: id != q ==> (id in t.errors <==> id in s.errors))
    && (forall id :: id != q && id in s.errors ==> t.errors[id] == s.errors[id])
    && (forall id :: id != q ==> (id in t.pageMeta <==> id in s.pageMeta))
    && (forall id :: id != q && id in s.pageMeta ==> t.pageMeta[id] == s.pageMeta[id])
    && (forall p :: p in s.mem.heap && s.mem.heap[p].owner != q ==>
          p in t.mem.heap && t.mem.heap[p] == s.mem.heap[p] && (p in t.mem.lost <==> p in s.mem.lost))
    && (forall p :: p in t.mem.heap && t.mem.heap[p].owner != q ==> p in s.mem.heap && s.mem.heap[p] == t.mem.heap[p])
  }

  lemma FrameOwners(s: State, t: State, q: Qid)
    requires OwnersOk(s) && OthersSame(s, t, q)
    ensures OwnersOk(t)
  {
  }

  lemma FrameRest(s: State, t: State, q: Qid)
    requires IdsOk(s) && OthersSame(s, t, q)
    requires OpensOk(s)
    ensures IdsOk(t)
    ensures OpensOk(t)
  {
    forall id | id in t.opens
      ensures OpenOk(t.errors, id, t.opens[id])
    {
      assert id != q;
    }
  }

  lemma FrameStreams(s: State, t: State, q: Qid)
    requires OthersSame(s, t, q)
    requires StreamsOk(s)
    requires StreamOk(t, q)
    ensures StreamsOk(t)
  {
    forall x | x in t.streams
      ensures StreamOk(t, x)
    {
      if x == q {
        assert StreamOk(t, x);
      } else {
        FrameOne(s, t, q, x);
      }
    }
  }

  /** Frame rule: a step on stream `q` only has to re-establish what concerns `q`. */
  lemma Frame(s: State, t: State, q: Qid)
    requires Inv(s) && OthersSame(s, t, q)
    requires MemOk(t.mem)
    requires StreamOk(t, q)
    ensures Inv(t)
  {
    FrameRest(s, t, q);
    FrameOwners(s, t, q);
    FrameStreams(s, t, q);
  }

  lemma FrameOne(s: State, t: State, q: Qid, x: Qid)
    requires OthersSame(s, t, q) && x in s.streams && x != q
    requires StreamOk(s, x)
    ensures StreamOk(t, x)
  {
    FrameFlight(s, t, q, x);
    FramePipe(s, t, q, x);
  }

  lemma FrameFlight(s: State, t: State, q: Qid, x: Qid)
    requires OthersSame(s, t, q) && x in s.streams && x != q
    requires FlightOk(s.cap, s.mem, x, s.streams[x])
    ensures FlightOk(t.cap, t.mem, x, t.streams[x])
  {
    InFlight(s.streams[x]);
  }

  lemma FramePipe(s: State, t: State, q: Qid, x: Qid)
    requires OthersSame(s, t, q) && x in s.streams && x != q
    requires FlightOk(s.cap, s.mem, x, s.streams[x]) && PipeOk(s.mem, s.streams[x])
    ensures PipeOk(t.mem, t.streams[x])
  {
    InFlight(s.streams[x]);
  }

  /** Membership in a flight, by where the box is. */
  lemma InFlight(st: Stream)
    ensures forall p :: p in st.ch.queue ==> Flight(st)[p] >= 1
    ensures forall p :: p in Ahead(st) ==> Flight(st)[p] >= 1
    ensures forall p :: p in InSend(st.h.prod) ==> Flight(st)[p] >= 1
    ensures st.c.cons.Pulled? || st.c.cons.Imported? ==>
              st.c.cons.ptr in Hand(st.c.cons) && Flight(st)[st.c.cons.ptr] >= 1
    ensures st.h.prod.Sending? ==> st.h.prod.ptr in InSend(st.h.prod)
  {
    forall p | p in Ahead(st)
      ensures Flight(st)[p] >= 1
    {
      assert p in Hand(st.c.cons) || p in st.ch.queue;
    }
    assert st.c.cons.Pulled? || st.c.cons.Imported? ==> st.c.cons.ptr in Hand(st.c.cons);
  }

  // ---------------------------------------------------------------- one stream, without the others

  lemma HandlerKeeps(cap: nat, dbs: set<nat>, nextPtr: Ptr, st: Stream, a: Action)
    requires HandlerOk(st.script, st.h, st.ch.rxClosed)
    requires StreamEnabled(cap, st, a)
    ensures HandlerOk(st.script, NextHandler(dbs, nextPtr, st, a), NextChannel(st, a).rxClosed)
  {
  }

  lemma CursorKeeps(cap: nat, dbs: set<nat>, m: Mem, err: string, meta: Option<PageMeta>, st: Stream, a: Action)
    requires CursorOk(st.c, st.ch.rxClosed, EndOfStream(st.h, st.ch))
    requires StreamEnabled(cap, st, a)
    ensures var t := NextStream(dbs, m, err, meta, st, a);
            CursorOk(t.c, t.ch.rxClosed, EndOfStream(t.h, t.ch))
  {
  }

  lemma SlotKeeps(cap: nat, dbs: set<nat>, m: Mem, errors: map<Qid, string>,
                  err: string, meta: Option<PageMeta>, q: Qid, st: Stream, a: Action)
    requires HandlerOk(st.script, st.h, st.ch.rxClosed)
    requires CursorOk(st.c, st.ch.rxClosed, EndOfStream(st.h, st.ch))
    requires SlotOk(errors, q, st.h, st.c)
    requires err == if q in errors then errors[q] else ""
    requires StreamEnabled(cap, st, a)
    ensures var t := NextStream(dbs, m, err, meta, st, a);
            SlotOk(NextErrors(errors, q, st.h.prod, a), q, t.h, t.c)
  {
  }

  lemma MetaKeeps(cap: nat, dbs: set<nat>, m: Mem, pageMeta: map<Qid, PageMeta>,
                  err: string, meta: Option<PageMeta>, q: Qid, st: Stream, a: Action)
    requires HandlerOk(st.script, st.h, st.ch.rxClosed)
    requires CursorOk(st.c, st.ch.rxClosed, EndOfStream(st.h, st.ch))
    requires MetaOk(pageMeta, q, st.script, st.h, st.c)
    requires meta == if q in pageMeta then Some(pageMeta[q]) else None
    requires StreamEnabled(cap, st, a)
    ensures var t := NextStream(dbs, m, err, meta, st, a);
            MetaOk(NextMeta(pageMeta, q, st.script, a), q, t.script, t.h, t.c)
  {
  }

  lemma MemKeeps(cap: nat, m: Mem, q: Qid, st: Stream, a: Action)
    requires MemOk(m) && FlightOk(cap, m, q, st)
    requires StreamEnabled(cap, st, a)
    ensures MemOk(NextMem(m, q, st, a))
  {
    InFlight(st);
    Apart(m, q, st);
    if a.Poll? && !TouchesNoBox(st, a) {
      ExportKeeps(m, q, st.script.items[st.h.pos].batch);
    } else if a.SendError? {
      BatchReleaseKeeps(m, st.h.prod.ptr);
    } else if a.Drain? {
      assert st.ch.queue[0] in st.ch.queue;
      BatchReleaseKeeps(m, st.ch.queue[0]);
    } else if a.Import? {
      ImportOkKeeps(m, st.c.cons.ptr, a.nulls);
    } else if a.ImportFail? {
      ImportFailedKeeps(m, st.c.cons.ptr, a.nulls, a.released);
    } else if a.FreeShell? {
      if st.c.cons.failure.Some? {
        ShellFreeLostKeeps(m, st.c.cons.ptr);
      } else {
        TakeRecordKeeps(m, st.c.cons.ptr);
      }
    } else {
      assert NextMem(m, q, st, a) == m;
    }
  }

  // ---------------------------------------------------------------- boxes in flight

  /** Actions that touch no box: neither the flight nor the memory changes. */
  predicate TouchesNoBox(st: Stream, a: Action) {
    match a
    case Poll(_) => st.h.pos >= |st.script.items| || st.script.items[st.h.pos].Broken?
    case Send(_) => false
    case SendError(_) => false
    case Drain(_) => false
    case Pull(_) => false
    case Import(_, _) => false
    case ImportFail(_, _, _, _) => false
    case FreeShell(_) => false
    case _ => true
  }

  lemma HeadOnce(queue: seq<Ptr>)
    requires queue != [] && multiset(queue)[queue[0]] <= 1
    ensures queue[0] !in queue[1..]
  {
    assert queue == [queue[0]] + queue[1..];
    assert multiset(queue) == multiset{queue[0]} + multiset(queue[1..]);
  }

  /** No box sits in two places of one flight. */
  lemma Apart(m: Mem, q: Qid, st: Stream)
    requires CountOk(Flight(st), m.heap, q)
    ensures forall p :: p in Hand(st.c.cons) ==> p in m.heap && p !in st.ch.queue && p !in InSend(st.h.prod)
    ensures forall p :: p in st.ch.queue ==> p !in InSend(st.h.prod)
    ensures forall p :: p in InSend(st.h.prod) ==> p in m.heap
    ensures st.ch.queue != [] ==> st.ch.queue[0] in m.heap && st.ch.queue[0] !in st.ch.queue[1..]
  {
    var a, b, c := multiset(Hand(st.c.cons)), multiset(st.ch.queue), multiset(InSend(st.h.prod));
    forall p
      ensures a[p] + b[p] + c[p] == Flight(st)[p] <= 1
      ensures Flight(st)[p] > 0 ==> p in m.heap
    {
    }
    if st.ch.queue != [] {
      assert b[st.ch.queue[0]] <= 1;
      HeadOnce(st.ch.queue);
    }
  }

  lemma CountAdd(f: multiset<Ptr>, heap: map<Ptr, Shell>, q: Qid, p: Ptr, box: Shell)
    requires CountOk(f, heap, q) && p !in heap && box.owner == q
    ensures CountOk(f + multiset{p}, heap[p := box], q)
  {
  }

  lemma CountRemove(f: multiset<Ptr>, rest: multiset<Ptr>, heap: map<Ptr, Shell>, q: Qid, p: Ptr)
    requires CountOk(f, heap, q) && f == rest + multiset{p}
    ensures CountOk(rest, heap - {p}, q)
    ensures p in heap
  {
    assert f[p] == rest[p] + 1;
    forall x
      ensures rest[x] == if x in heap - {p} && (heap - {p})[x].owner == q then 1 else 0
    {
      assert x != p ==> f[x] == rest[x];
    }
  }

  lemma CountSame(f: multiset<Ptr>, heap: map<Ptr, Shell>, p: Ptr, armed: bool, q: Qid)
    requires CountOk(f, heap, q) && p in heap
    ensures CountOk(f, heap[p := heap[p].(armed := armed)], q)
  {
  }

  /** Same boxes, same places. */
  lemma FlightSame(cap: nat, m: Mem, q: Qid, st: Stream, t: Stream)
    requires FlightOk(cap, m, q, st)
    requires Hand(t.c.cons) == Hand(st.c.cons) && t.ch.queue == st.ch.queue
    requires InSend(t.h.prod) == InSend(st.h.prod)
    requires t.c.cons.Pulled? ==> t.c.cons == st.c.cons
    requires t.c.cons.Imported? ==> t.c.cons == st.c.cons
    ensures FlightOk(cap, m, q, t)
  {
    assert Flight(t) == Flight(st);
    assert t.h.prod.Sending? ==> InSend(t.h.prod)[0] == InSend(st.h.prod)[0];
  }

  /** One box leaves the flight and the heap together. */
  lemma FlightDrop(cap: nat, m: Mem, n: Mem, q: Qid, st: Stream, t: Stream, p: Ptr)
    requires FlightOk(cap, m, q, st)
    requires Flight(st) == Flight(t) + multiset{p}
    requires n.heap == m.heap - {p} && n.lost == m.lost
    requires |t.ch.queue| <= |st.ch.queue|
    requires forall x :: x in t.ch.queue ==> x in st.ch.queue && x != p
    requires t.h.prod.Sending? ==> t.h.prod == st.h.prod && t.h.prod.ptr != p
    requires !t.c.cons.Pulled? && !t.c.cons.Imported?
    ensures FlightOk(cap, n, q, t)
  {
    CountRemove(Flight(st), Flight(t), m.heap, q, p);
  }

  lemma QuietShape(cap: nat, dbs: set<nat>, m: Mem, err: string, meta: Option<PageMeta>, q: Qid, st: Stream, a: Action)
    requires StreamEnabled(cap, st, a) && TouchesNoBox(st, a)
    requires CursorOk(st.c, st.ch.rxClosed, EndOfStream(st.h, st.ch))
    ensures var t := NextStream(dbs, m, err, meta, st, a);
            && Hand(t.c.cons) == Hand(st.c.cons) && t.ch.queue == st.ch.queue
            && InSend(t.h.prod) == InSend(st.h.prod)
            && (t.c.cons.Pulled? ==> t.c.cons == st.c.cons)
            && (t.c.cons.Imported? ==> t.c.cons == st.c.cons)
    ensures NextMem(m, q, st, a) == m
  {
  }

  lemma QuietFlight(cap: nat, dbs: set<nat>, m: Mem, err: string, meta: Option<PageMeta>, q: Qid, st: Stream, a: Action)
    requires FlightOk(cap, m, q, st) && StreamEnabled(cap, st, a) && TouchesNoBox(st, a)
    requires CursorOk(st.c, st.ch.rxClosed, EndOfStream(st.h, st.ch))
    ensures FlightOk(cap, NextMem(m, q, st, a), q, NextStream(dbs, m, err, meta, st, a))
  {
    var t := NextStream(dbs, m, err, meta, st, a);
    QuietShape(cap, dbs, m, err, meta, q, st, a);
    FlightSame(cap, m, q, st, t);
  }

  lemma PollFlight(cap: nat, dbs: set<nat>, m: Mem, err: string, meta: Option<PageMeta>, q: Qid, st: Stream, a: Action)
    requires FlightOk(cap, m, q, st) && StreamEnabled(cap, st, a) && a.Poll? && !TouchesNoBox(st, a)
    requires m.nextPtr !in m.heap && m.nextPtr !in m.lost
    ensures FlightOk(cap, NextMem(m, q, st, a), q, NextStream(dbs, m, err, meta, st, a))
  {
    var t := NextStream(dbs, m, err, meta, st, a);
    assert Flight(t) == Flight(st) + multiset{m.nextPtr};
    CountAdd(Flight(st), m.heap, q, m.nextPtr, Shell(q, st.script.items[st.h.pos].batch, true));
  }

  lemma SendFlight(cap: nat, dbs: set<nat>, m: Mem, err: string, meta: Option<PageMeta>, q: Qid, st: Stream, a: Action)
    requires FlightOk(cap, m, q, st) && StreamEnabled(cap, st, a) && a.Send?
    ensures FlightOk(cap, NextMem(m, q, st, a), q, NextStream(dbs, m, err, meta, st, a))
  {
    var t := NextStream(dbs, m, err, meta, st, a);
    assert Flight(t) == Flight(st);
  }

  lemma PullFlight(cap: nat, dbs: set<nat>, m: Mem, err: string, meta: Option<PageMeta>, q: Qid, st: Stream, a: Action)
    requires FlightOk(cap, m, q, st) && StreamEnabled(cap, st, a) && a.Pull?
    ensures FlightOk(cap, NextMem(m, q, st, a), q, NextStream(dbs, m, err, meta, st, a))
  {
    var t := NextStream(dbs, m, err, meta, st, a);
    assert st.ch.queue == [st.ch.queue[0]] + st.ch.queue[1..];
    assert Flight(t) == Flight(st);
    assert st.ch.queue[0] in st.ch.queue;
  }

  /** An import changes only the box in hand. */
  lemma FlightImport(cap: nat, m: Mem, n: Mem, q: Qid, st: Stream, t: Stream, p: Ptr, armed: bool)
    requires FlightOk(cap, m, q, st) && st.c.cons == Pulled(p)
    requires p in m.heap && n.heap == m.heap[p := m.heap[p].(armed := armed)]
    requires t.ch == st.ch && t.h == st.h && t.c.cons.Imported? && t.c.cons.ptr == p
    requires n.lost == if t.c.cons.failure.Some? then m.lost + {p} else m.lost
    ensures FlightOk(cap, n, q, t)
  {
    assert Hand(t.c.cons) == Hand(st.c.cons);
    assert Flight(t) == Flight(st);
    CountSame(Flight(st), m.heap, p, armed, q);
    Apart(m, q, st);
    assert p in Hand(st.c.cons);
    assert st.h.prod.Sending? ==> st.h.prod.ptr in InSend(st.h.prod);
  }

  lemma ImportFlight(cap: nat, dbs: set<nat>, m: Mem, err: string, meta: Option<PageMeta>,
                     q: Qid, st: Stream, a: Action)
    requires FlightOk(cap, m, q, st) && StreamEnabled(cap, st, a) && (a.Import? || a.ImportFail?)
    ensures FlightOk(cap, NextMem(m, q, st, a), q, NextStream(dbs, m, err, meta, st, a))
  {
    var t := NextStream(dbs, m, err, meta, st, a);
    InFlight(st);
    Apart(m, q, st);
    FlightImport(cap, m, NextMem(m, q, st, a), q, st, t, st.c.cons.ptr, !a.nulls);
  }

  lemma SendErrorFlight(cap: nat, dbs: set<nat>, m: Mem, err: string, meta: Option<PageMeta>,
                        q: Qid, st: Stream, a: Action)
    requires FlightOk(cap, m, q, st) && StreamEnabled(cap, st, a) && a.SendError?
    requires 0 !in m.heap
    requires CursorOk(st.c, st.ch.rxClosed, EndOfStream(st.h, st.ch))
    ensures FlightOk(cap, NextMem(m, q, st, a), q, NextStream(dbs, m, err, meta, st, a))
  {
    var t := NextStream(dbs, m, err, meta, st, a);
    InFlight(st);
    Apart(m, q, st);
    assert Flight(st) == Flight(t) + multiset{st.h.prod.ptr};
    FlightDrop(cap, m, NextMem(m, q, st, a), q, st, t, st.h.prod.ptr);
  }

  lemma DrainShape(dbs: set<nat>, m: Mem, err: string, meta: Option<PageMeta>, q: Qid, st: Stream, a: Action)
    requires a.Drain? && st.ch.queue != [] && st.ch.queue[0] != 0
    ensures var t := NextStream(dbs, m, err, meta, st, a);
            t.ch.queue == st.ch.queue[1..] && t.h == st.h && t.c == st.c
    ensures NextMem(m, q, st, a).heap == m.heap - {st.ch.queue[0]}
    ensures NextMem(m, q, st, a).lost == m.lost
  {
  }

  lemma HeadTaken(st: Stream, t: Stream)
    requires st.ch.queue != [] && t.ch.queue == st.ch.queue[1..] && t.h == st.h && t.c == st.c
    ensures Flight(st) == Flight(t) + multiset{st.ch.queue[0]}
  {
    assert st.ch.queue == [st.ch.queue[0]] + st.ch.queue[1..];
  }

  lemma DrainFlight(cap: nat, dbs: set<nat>, m: Mem, err: string, meta: Option<PageMeta>, q: Qid, st: Stream, a: Action)
    requires FlightOk(cap, m, q, st) && StreamEnabled(cap, st, a) && a.Drain?
    requires 0 !in m.heap
    requires CursorOk(st.c, st.ch.rxClosed, EndOfStream(st.h, st.ch))
    ensures FlightOk(cap, NextMem(m, q, st, a), q, NextStream(dbs, m, err, meta, st, a))
  {
    var t, p := NextStream(dbs, m, err, meta, st, a), st.ch.queue[0];
    InFlight(st);
    Apart(m, q, st);
    assert p in st.ch.queue;
    DrainShape(dbs, m, err, meta, q, st, a);
    HeadTaken(st, t);
    FlightDrop(cap, m, NextMem(m, q, st, a), q, st, t, p);
  }

  lemma FreeShellShape(dbs: set<nat>, m: Mem, err: string, meta: Option<PageMeta>, q: Qid, st: Stream, a: Action)
    requires a.FreeShell? && st.c.cons.Imported? && st.c.cons.ptr != 0
    ensures var t := NextStream(dbs, m, err, meta, st, a);
            t.ch == st.ch && t.h == st.h && Hand(t.c.cons) == []
    ensures NextMem(m, q, st, a).heap == m.heap - {st.c.cons.ptr}
    ensures NextMem(m, q, st, a).lost == m.lost
  {
  }

  lemma HandFreed(st: Stream, t: Stream)
    requires t.ch == st.ch && t.h == st.h && Hand(t.c.cons) == [] && st.c.cons.Imported?
    ensures Flight(st) == Flight(t) + multiset{st.c.cons.ptr}
  {
  }

  lemma FreeShellFlight(cap: nat, dbs: set<nat>, m: Mem, err: string, meta: Option<PageMeta>,
                        q: Qid, st: Stream, a: Action)
    requires FlightOk(cap, m, q, st) && StreamEnabled(cap, st, a) && a.FreeShell?
    requires 0 !in m.heap
    ensures FlightOk(cap, NextMem(m, q, st, a), q, NextStream(dbs, m, err, meta, st, a))
  {
    InFlight(st);
    Apart(m, q, st);
    FreeShellShape(dbs, m, err, meta, q, st, a);
    HandFreed(st, NextStream(dbs, m, err, meta, st, a));
    FlightDrop(cap, m, NextMem(m, q, st, a), q, st, NextStream(dbs, m, err, meta, st, a), st.c.cons.ptr);
  }

  lemma QuietPipe(cap: nat, dbs: set<nat>, m: Mem, err: string, meta: Option<PageMeta>, q: Qid, st: Stream, a: Action)
    requires PipeOk(m, st) && StreamEnabled(cap, st, a) && TouchesNoBox(st, a)
    requires CursorOk(st.c, st.ch.rxClosed, EndOfStream(st.h, st.ch))
    requires HandlerOk(st.script, st.h, st.ch.rxClosed)
    ensures PipeOk(NextMem(m, q, st, a), NextStream(dbs, m, err, meta, st, a))
  {
    var t := NextStream(dbs, m, err, meta, st, a);
  }

  lemma PollPipe(cap: nat, dbs: set<nat>, m: Mem, err: string, meta: Option<PageMeta>, q: Qid, st: Stream, a: Action)
    requires PipeOk(m, st) && StreamEnabled(cap, st, a) && a.Poll? && !TouchesNoBox(st, a)
    requires CursorOk(st.c, st.ch.rxClosed, EndOfStream(st.h, st.ch))
    requires m.nextPtr !in m.heap
    ensures PipeOk(NextMem(m, q, st, a), NextStream(dbs, m, err, meta, st, a))
  {
    var t := NextStream(dbs, m, err, meta, st, a);
  }

  lemma SendPipe(cap: nat, dbs: set<nat>, m: Mem, err: string, meta: Option<PageMeta>, q: Qid, st: Stream, a: Action)
    requires PipeOk(m, st) && StreamEnabled(cap, st, a) && a.Send?
    requires CursorOk(st.c, st.ch.rxClosed, EndOfStream(st.h, st.ch))
    ensures PipeOk(NextMem(m, q, st, a), NextStream(dbs, m, err, meta, st, a))
  {
    var t := NextStream(dbs, m, err, meta, st, a);
    assert Ahead(t) == Ahead(st) + [st.h.prod.ptr];
  }

  lemma PullPipe(cap: nat, dbs: set<nat>, m: Mem, err: string, meta: Option<PageMeta>, q: Qid, st: Stream, a: Action)
    requires PipeOk(m, st) && StreamEnabled(cap, st, a) && a.Pull?
    requires CursorOk(st.c, st.ch.rxClosed, EndOfStream(st.h, st.ch))
    ensures PipeOk(NextMem(m, q, st, a), NextStream(dbs, m, err, meta, st, a))
  {
    var t := NextStream(dbs, m, err, meta, st, a);
    assert st.ch.queue == [st.ch.queue[0]] + st.ch.queue[1..];
    assert Ahead(t) == Ahead(st);
  }

  lemma ImportPipe(cap: nat, dbs: set<nat>, m: Mem, err: string, meta: Option<PageMeta>, q: Qid, st: Stream, a: Action)
    requires PipeOk(m, st) && StreamEnabled(cap, st, a) && (a.Import? || a.ImportFail?)
    requires CursorOk(st.c, st.ch.rxClosed, EndOfStream(st.h, st.ch))
    ensures PipeOk(NextMem(m, q, st, a), NextStream(dbs, m, err, meta, st, a))
  {
    var t := NextStream(dbs, m, err, meta, st, a);
    assert Ahead(t) == Ahead(st);
  }

  lemma SendErrorPipe(cap: nat, dbs: set<nat>, m: Mem, err: string, meta: Option<PageMeta>,
                      q: Qid, st: Stream, a: Action)
    requires PipeOk(m, st) && StreamEnabled(cap, st, a) && a.SendError?
    requires CursorOk(st.c, st.ch.rxClosed, EndOfStream(st.h, st.ch))
    ensures PipeOk(NextMem(m, q, st, a), NextStream(dbs, m, err, meta, st, a))
  {
    var t := NextStream(dbs, m, err, meta, st, a);
  }

  lemma DrainPipe(cap: nat, dbs: set<nat>, m: Mem, err: string, meta: Option<PageMeta>, q: Qid, st: Stream, a: Action)
    requires PipeOk(m, st) && StreamEnabled(cap, st, a) && a.Drain? && 0 !in m.heap
    requires CursorOk(st.c, st.ch.rxClosed, EndOfStream(st.h, st.ch))
    requires FlightOk(cap, m, q, st)
    ensures PipeOk(NextMem(m, q, st, a), NextStream(dbs, m, err, meta, st, a))
  {
    var t := NextStream(dbs, m, err, meta, st, a);
    Apart(m, q, st);
    InFlight(st);
  }

  /** The box in hand leaves; its batch is delivered unless its import failed. */
  lemma PipeTake(m: Mem, n: Mem, st: Stream, t: Stream, p: Ptr)
    requires PipeOk(m, st) && p in m.heap && n.heap == m.heap - {p}
    requires Hand(st.c.cons) == [p] && Hand(t.c.cons) == []
    requires t.ch == st.ch && t.h == st.h && t.script == st.script
    requires t.c.importFailed == st.c.importFailed && t.c.sawEnd == st.c.sawEnd && !st.c.sawEnd
    requires !st.ch.rxClosed
    requires t.c.delivered == if st.c.importFailed then st.c.delivered else st.c.delivered + [m.heap[p].batch]
    requires p !in st.ch.queue
    requires st.h.prod.Sending? ==> st.h.prod.ptr != p
    ensures PipeOk(n, t)
  {
    assert Ahead(st) == [p] + st.ch.queue;
    assert Ahead(t) == st.ch.queue;
    if !st.c.importFailed {
      assert Holds(m, Ahead(st)[0], st.script.items[|st.c.delivered|]);
      forall i | 0 <= i < |Ahead(t)|
        ensures Holds(n, Ahead(t)[i], st.script.items[|t.c.delivered| + i])
      {
        assert Holds(m, Ahead(st)[i + 1], st.script.items[|st.c.delivered| + (i + 1)]);
      }
    }
  }

  lemma FreeShellPipe(cap: nat, dbs: set<nat>, m: Mem, err: string, meta: Option<PageMeta>,
                      q: Qid, st: Stream, a: Action)
    requires PipeOk(m, st) && StreamEnabled(cap, st, a) && a.FreeShell? && 0 !in m.heap
    requires CursorOk(st.c, st.ch.rxClosed, EndOfStream(st.h, st.ch))
    requires CountOk(Flight(st), m.heap, q)
    ensures PipeOk(NextMem(m, q, st, a), NextStream(dbs, m, err, meta, st, a))
  {
    Apart(m, q, st);
    InFlight(st);
    PipeTake(m, NextMem(m, q, st, a), st, NextStream(dbs, m, err, meta, st, a), st.c.cons.ptr);
  }

  lemma FlightKeeps(cap: nat, dbs: set<nat>, m: Mem, err: string, meta: Option<PageMeta>, q: Qid, st: Stream, a: Action)
    requires CursorOk(st.c, st.ch.rxClosed, EndOfStream(st.h, st.ch))
    requires MemOk(m) && FlightOk(cap, m, q, st)
    requires StreamEnabled(cap, st, a)
    ensures FlightOk(cap, NextMem(m, q, st, a), q, NextStream(dbs, m, err, meta, st, a))
  {
    if TouchesNoBox(st, a) {
      QuietFlight(cap, dbs, m, err, meta, q, st, a);
    } else {
      match a
      case Poll(_) => PollFlight(cap, dbs, m, err, meta, q, st, a);
      case Send(_) => SendFlight(cap, dbs, m, err, meta, q, st, a);
      case SendError(_) => SendErrorFlight(cap, dbs, m, err, meta, q, st, a);
      case Drain(_) => DrainFlight(cap, dbs, m, err, meta, q, st, a);
      case Pull(_) => PullFlight(cap, dbs, m, err, meta, q, st, a);
      case Import(_, _) => ImportFlight(cap, dbs, m, err, meta, q, st, a);
      case ImportFail(_, _, _, _) => ImportFlight(cap, dbs, m, err, meta, q, st, a);
      case FreeShell(_) => FreeShellFlight(cap, dbs, m, err, meta, q, st, a);
    }
  }

  lemma PipeKeeps(cap: nat, dbs: set<nat>, m: Mem, err: string, meta: Option<PageMeta>, q: Qid, st: Stream, a: Action)
    requires HandlerOk(st.script, st.h, st.ch.rxClosed)
    requires CursorOk(st.c, st.ch.rxClosed, EndOfStream(st.h, st.ch))
    requires MemOk(m) && FlightOk(cap, m, q, st) && PipeOk(m, st)
    requires StreamEnabled(cap, st, a)
    ensures PipeOk(NextMem(m, q, st, a), NextStream(dbs, m, err, meta, st, a))
  {
    if TouchesNoBox(st, a) {
      QuietPipe(cap, dbs, m, err, meta, q, st, a);
    } else {
      match a
      case Poll(_) => PollPipe(cap, dbs, m, err, meta, q, st, a);
      case Send(_) => SendPipe(cap, dbs, m, err, meta, q, st, a);
      case SendError(_) => SendErrorPipe(cap, dbs, m, err, meta, q, st, a);
      case Drain(_) => DrainPipe(cap, dbs, m, err, meta, q, st, a);
      case Pull(_) => PullPipe(cap, dbs, m, err, meta, q, st, a);
      case Import(_, _) => ImportPipe(cap, dbs, m, err, meta, q, st, a);
      case ImportFail(_, _, _, _) => ImportPipe(cap, dbs, m, err, meta, q, st, a);
      case FreeShell(_) => FreeShellPipe(cap, dbs, m, err, meta, q, st, a);
    }
  }

  // ---------------------------------------------------------------- every action

  /** Boxes of other queries are the same before and after. */
  ghost predicate MemApart(m: Mem, n: Mem, q: Qid) {
    && (forall p :: p in m.heap && m.heap[p].owner != q ==>
          p in n.heap && n.heap[p] == m.heap[p] && (p in n.lost <==> p in m.lost))
    && (forall p :: p in n.heap && n.heap[p].owner != q ==> p in m.heap && m.heap[p] == n.heap[p])
  }

  lemma ExportApart(m: Mem, q: Qid, batch: Batch)
    requires m.nextPtr !in m.heap
    ensures MemApart(m, Export(m, q, batch), q)
  {
  }

  lemma ReleaseApart(m: Mem, q: Qid, p: Ptr)
    requires p in m.heap && m.heap[p].owner == q
    ensures MemApart(m, BatchRelease(m, p), q)
  {
  }

  lemma ImportApart(m: Mem, q: Qid, p: Ptr, nulls: bool, released: bool)
    requires p in m.heap && m.heap[p].owner == q
    ensures MemApart(m, ImportOk(m, p, nulls), q) && MemApart(m, ImportFailed(m, p, nulls, released), q)
  {
  }

  lemma FreeApart(m: Mem, q: Qid, p: Ptr)
    requires p in m.heap && m.heap[p].owner == q
    ensures MemApart(m, ShellFree(m, p), q) && MemApart(m, TakeRecord(m, p), q)
  {
  }

  /** A box in flight is one of the query's own. */
  lemma OwnBox(m: Mem, q: Qid, st: Stream, p: Ptr)
    requires CountOk(Flight(st), m.heap, q) && Flight(st)[p] >= 1
    ensures p in m.heap && m.heap[p].owner == q
  {
  }

  lemma PollOthers(m: Mem, q: Qid, st: Stream, a: Action)
    requires a.Poll? && m.nextPtr !in m.heap
    ensures MemApart(m, NextMem(m, q, st, a), q)
  {
    if st.h.pos < |st.script.items| && st.script.items[st.h.pos].Yield? {
      ExportApart(m, q, st.script.items[st.h.pos].batch);
    }
  }

  lemma AbandonOthers(cap: nat, m: Mem, q: Qid, st: Stream, a: Action)
    requires StreamEnabled(cap, st, a) && CountOk(Flight(st), m.heap, q) && (a.Drain? || a.SendError?)
    ensures MemApart(m, NextMem(m, q, st, a), q)
  {
    InFlight(st);
    var p := if a.Drain? then st.ch.queue[0] else st.h.prod.ptr;
    assert a.Drain? ==> p in st.ch.queue;
    OwnBox(m, q, st, p);
    ReleaseApart(m, q, p);
  }

  lemma TakenOthers(cap: nat, m: Mem, q: Qid, st: Stream, a: Action)
    requires StreamEnabled(cap, st, a) && CountOk(Flight(st), m.heap, q)
    requires a.Import? || a.ImportFail? || a.FreeShell?
    ensures MemApart(m, NextMem(m, q, st, a), q)
  {
    InFlight(st);
    OwnBox(m, q, st, st.c.cons.ptr);
    match a
    case Import(_, nulls) => ImportApart(m, q, st.c.cons.ptr, nulls, false);
    case ImportFail(_, _, nulls, released) => ImportApart(m, q, st.c.cons.ptr, nulls, released);
    case FreeShell(_) => FreeApart(m, q, st.c.cons.ptr);
  }

  lemma QuietMem(m: Mem, q: Qid, st: Stream, a: Action)
    requires !a.Poll? && !a.Drain? && !a.SendError? && !a.Import? && !a.ImportFail? && !a.FreeShell?
    ensures NextMem(m, q, st, a) == m
  {
  }

  /** A step of query `q` leaves the boxes of the other queries alone. */
  lemma MemOthers(cap: nat, m: Mem, q: Qid, st: Stream, a: Action)
    requires StreamEnabled(cap, st, a) && CountOk(Flight(st), m.heap, q)
    requires m.nextPtr !in m.heap
    ensures MemApart(m, NextMem(m, q, st, a), q)
  {
    if a.Poll? {
      PollOthers(m, q, st, a);
    } else if a.Drain? || a.SendError? {
      AbandonOthers(cap, m, q, st, a);
    } else if a.Import? || a.ImportFail? || a.FreeShell? {
      TakenOthers(cap, m, q, st, a);
    } else {
      QuietMem(m, q, st, a);
    }
  }

  lemma StreamActionSame(s: State, a: Action)
    requires IsStreamAction(a) && Enabled(s, a)
    requires s.mem.nextPtr !in s.mem.heap
    requires CountOk(Flight(s.streams[a.q]), s.mem.heap, a.q)
    ensures OthersSame(s, Step(s, a), a.q)
  {
    MemOthers(s.cap, s.mem, a.q, s.streams[a.q], a);
    SlotsOthers(s.errors, s.pageMeta, a.q, s.streams[a.q], a);
  }

  lemma SlotsOthers(errors: map<Qid, string>, pageMeta: map<Qid, PageMeta>, q: Qid, st: Stream, a: Action)
    ensures var e := NextErrors(errors, q, st.h.prod, a);
            && (forall id :: id != q ==> (id in e <==> id in errors))
            && (forall id :: id != q && id in errors ==> e[id] == errors[id])
    ensures var pm := NextMeta(pageMeta, q, st.script, a);
            && (forall id :: id != q ==> (id in pm <==> id in pageMeta))
            && (forall id :: id != q && id in pageMeta ==> pm[id] == pageMeta[id])
  {
  }

  /** The acting stream after the step, and the parts of the state it reads. */
  function Acted(s: State, a: Action): Stream
    requires IsStreamAction(a) && Enabled(s, a)
  {
    NextStream(s.dbs, s.mem, LookupError(s, a.q), LookupMeta(s, a.q), s.streams[a.q], a)
  }

  lemma StepShape(s: State, a: Action)
    requires IsStreamAction(a) && Enabled(s, a)
    ensures var t, st := Step(s, a), s.streams[a.q];
            && a.q in t.streams && t.streams[a.q] == Acted(s, a) && t.cap == s.cap
            && t.mem == NextMem(s.mem, a.q, st, a)
            && t.errors == NextErrors(s.errors, a.q, st.h.prod, a)
            && t.pageMeta == NextMeta(s.pageMeta, a.q, st.script, a)
  {
  }

  lemma ControlKeeps(s: State, a: Action)
    requires IsStreamAction(a) && Enabled(s, a)
    requires var st := s.streams[a.q];
             && HandlerOk(st.script, st.h, st.ch.rxClosed)
             && CursorOk(st.c, st.ch.rxClosed, EndOfStream(st.h, st.ch))
    ensures var t := Acted(s, a);
            && HandlerOk(t.script, t.h, t.ch.rxClosed)
            && CursorOk(t.c, t.ch.rxClosed, EndOfStream(t.h, t.ch))
  {
    var q, st := a.q, s.streams[a.q];
    HandlerKeeps(s.cap, s.dbs, s.mem.nextPtr, st, a);
    CursorKeeps(s.cap, s.dbs, s.mem, LookupError(s, q), LookupMeta(s, q), st, a);
  }

  lemma SlotsKeep(s: State, a: Action)
    requires IsStreamAction(a) && Enabled(s, a)
    requires var st := s.streams[a.q];
             && HandlerOk(st.script, st.h, st.ch.rxClosed)
             && CursorOk(st.c, st.ch.rxClosed, EndOfStream(st.h, st.ch))
             && SlotOk(s.errors, a.q, st.h, st.c)
             && MetaOk(s.pageMeta, a.q, st.script, st.h, st.c)
    ensures var t, st := Acted(s, a), s.streams[a.q];
            && SlotOk(NextErrors(s.errors, a.q, st.h.prod, a), a.q, t.h, t.c)
            && MetaOk(NextMeta(s.pageMeta, a.q, st.script, a), a.q, t.script, t.h, t.c)
  {
    var q, st := a.q, s.streams[a.q];
    var err, meta := LookupError(s, q), LookupMeta(s, q);
    SlotKeeps(s.cap, s.dbs, s.mem, s.errors, err, meta, q, st, a);
    MetaKeeps(s.cap, s.dbs, s.mem, s.pageMeta, err, meta, q, st, a);
  }

  lemma BoxesKeep(s: State, a: Action)
    requires IsStreamAction(a) && Enabled(s, a)
    requires var st := s.streams[a.q];
             && HandlerOk(st.script, st.h, st.ch.rxClosed)
             && CursorOk(st.c, st.ch.rxClosed, EndOfStream(st.h, st.ch))
             && MemOk(s.mem) && FlightOk(s.cap, s.mem, a.q, st) && PipeOk(s.mem, st)
    ensures var n, t := NextMem(s.mem, a.q, s.streams[a.q], a), Acted(s, a);
            MemOk(n) && FlightOk(s.cap, n, a.q, t) && PipeOk(n, t)
  {
    var q, st := a.q, s.streams[a.q];
    MemKeeps(s.cap, s.mem, q, st, a);
    FlightKeeps(s.cap, s.dbs, s.mem, LookupError(s, q), LookupMeta(s, q), q, st, a);
    PipeKeeps(s.cap, s.dbs, s.mem, LookupError(s, q), LookupMeta(s, q), q, st, a);
  }

  lemma LocalKeeps(s: State, a: Action)
    requires IsStreamAction(a) && Enabled(s, a)
    requires MemOk(s.mem) && StreamOk(s, a.q)
    ensures MemOk(Step(s, a).mem) && StreamOk(Step(s, a), a.q)
  {
    ControlKeeps(s, a);
    SlotsKeep(s, a);
    BoxesKeep(s, a);
    StepShape(s, a);
  }

  lemma StreamActionKeeps(s: State, a: Action)
    requires Inv(s) && IsStreamAction(a) && Enabled(s, a)
    ensures Inv(Step(s, a))
  {
    assert StreamOk(s, a.q);
    LocalKeeps(s, a);
    StreamActionSame(s, a);
    Frame(s, Step(s, a), a.q);
  }

  /** A stream only reads its own slots, the live boxes and the channel bound. */
  lemma SlotFrameOne(s: State, t: State, q: Qid)
    requires t.cap == s.cap && t.pageMeta == s.pageMeta
    requires t.mem.heap == s.mem.heap && t.mem.lost == s.mem.lost
    requires q in s.streams && q in t.streams && t.streams[q] == s.streams[q]
    requires (q in t.errors <==> q in s.errors) && (q in s.errors ==> t.errors[q] == s.errors[q])
    requires StreamOk(s, q)
    ensures StreamOk(t, q)
  {
  }

  lemma SlotFrame(s: State, t: State)
    requires t.cap == s.cap && t.pageMeta == s.pageMeta
    requires t.mem.heap == s.mem.heap && t.mem.lost == s.mem.lost
    requires forall q :: q in s.streams ==> q in t.streams && t.streams[q] == s.streams[q]
    requires forall q :: q in s.streams ==> (q in t.errors <==> q in s.errors)
    requires forall q :: q in s.streams && q in s.errors ==> t.errors[q] == s.errors[q]
    requires StreamsOk(s)
    requires forall q :: q in t.streams && q !in s.streams ==> StreamOk(t, q)
    ensures StreamsOk(t)
  {
    forall q | q in t.streams
      ensures StreamOk(t, q)
    {
      if q in s.streams {
        SlotFrameOne(s, t, q);
      }
    }
  }

  /** Opens take fresh ids and touch only their own slot. */
  lemma OpenActionIds(s: State, a: Action)
    requires IdsOk(s) && OpensOk(s) && Enabled(s, a)
    requires a.BeginOpen? || a.OpenSucceeds? || a.OpenFails? || a.OpenReport? || a.CloseDb? || a.OpenRefused?
    ensures IdsOk(Step(s, a)) && OpensOk(Step(s, a))
    ensures forall q :: q in s.streams ==> (q in Step(s, a).errors <==> q in s.errors)
    ensures forall q :: q in s.streams && q in s.errors ==> Step(s, a).errors[q] == s.errors[q]
  {
    var t := Step(s, a);
    forall id | id in t.opens
      ensures OpenOk(t.errors, id, t.opens[id])
    {
      if id in s.opens {
        assert OpenOk(s.errors, id, s.opens[id]);
      }
    }
  }

  lemma OpenActionShape(s: State, a: Action)
    requires Enabled(s, a)
    requires a.BeginOpen? || a.OpenSucceeds? || a.OpenFails? || a.OpenReport? || a.CloseDb? || a.OpenRefused?
    ensures var t := Step(s, a);
            t.cap == s.cap && t.mem == s.mem && t.streams == s.streams && t.pageMeta == s.pageMeta
  {
  }

  lemma OpenActionStreams(s: State, t: State)
    requires StreamsOk(s) && OwnersOk(s) && MemOk(s.mem)
    requires t.cap == s.cap && t.mem == s.mem && t.streams == s.streams && t.pageMeta == s.pageMeta
    requires forall q :: q in s.streams ==> (q in t.errors <==> q in s.errors)
    requires forall q :: q in s.streams && q in s.errors ==> t.errors[q] == s.errors[q]
    ensures StreamsOk(t) && OwnersOk(t) && MemOk(t.mem)
  {
    SlotFrame(s, t);
  }

  lemma OpenActionKeeps(s: State, a: Action)
    requires Inv(s) && Enabled(s, a)
    requires a.BeginOpen? || a.OpenSucceeds? || a.OpenFails? || a.OpenReport? || a.CloseDb? || a.OpenRefused?
    ensures Inv(Step(s, a))
  {
    OpenActionIds(s, a);
    OpenActionShape(s, a);
    OpenActionStreams(s, Step(s, a));
  }

  lemma NewStreamOk(s: State, q: Qid)
    requires q in s.streams && s.streams[q].h == NewStream(0, s.streams[q].script).h
    requires s.streams[q].ch == Channel([], false) && s.streams[q].c == NewStream(0, s.streams[q].script).c
    requires q !in s.errors && q !in s.pageMeta
    requires forall p :: p in s.mem.heap ==> s.mem.heap[p].owner != q
    ensures StreamOk(s, q)
  {
    assert Flight(s.streams[q]) == multiset{};
  }

  lemma OpenStreamShape(s: State, a: Action)
    requires a.OpenStream?
    ensures var t := Step(s, a);
            && t.cap == s.cap && t.mem == s.mem && t.errors == s.errors && t.pageMeta == s.pageMeta
            && t.streams == s.streams[s.ctr + 1 := NewStream(a.db, a.script)]
  {
  }

  lemma StreamsWithNew(s: State, t: State, q: Qid, db: nat, sc: Script)
    requires StreamsOk(s) && q !in s.streams && q !in s.errors && q !in s.pageMeta
    requires forall p :: p in s.mem.heap ==> s.mem.heap[p].owner != q
    requires t.cap == s.cap && t.mem == s.mem && t.errors == s.errors && t.pageMeta == s.pageMeta
    requires t.streams == s.streams[q := NewStream(db, sc)]
    ensures StreamsOk(t)
  {
    NewStreamOk(t, q);
    SlotFrame(s, t);
  }

  lemma OpenStreamStreams(s: State, a: Action)
    requires StreamsOk(s) && a.OpenStream?
    requires var q := s.ctr + 1;
             && q !in s.streams && q !in s.errors && q !in s.pageMeta
             && (forall p :: p in s.mem.heap ==> s.mem.heap[p].owner != q)
    ensures StreamsOk(Step(s, a))
  {
    OpenStreamShape(s, a);
    StreamsWithNew(s, Step(s, a), s.ctr + 1, a.db, a.script);
  }

  /** A new stream gets an id no other stream or open ever had. */
  lemma OpenStreamKeeps(s: State, a: Action)
    requires Inv(s) && a.OpenStream?
    ensures Inv(Step(s, a))
    ensures s.ctr + 1 !in s.streams && s.ctr + 1 !in s.opens && s.ctr + 1 !in s.errors
  {
    OpenStreamIds(s, a);
    OpenStreamStreams(s, a);
  }

  lemma OpenStreamIds(s: State, a: Action)
    requires IdsOk(s) && OpensOk(s) && OwnersOk(s) && a.OpenStream?
    ensures var t, q := Step(s, a), s.ctr + 1;
            && IdsOk(t) && OpensOk(t) && OwnersOk(t)
            && q !in s.streams && q !in s.opens && q !in s.errors && q !in s.pageMeta
            && (forall p :: p in s.mem.heap ==> s.mem.heap[p].owner != q)
  {
  }

  lemma ReleaseStreams(s: State, a: Action)
    requires StreamsOk(s) && a.Release? && Enabled(s, a)
    ensures StreamsOk(Step(s, a))
  {
    SlotFrame(s, Step(s, a));
  }

  lemma ReleaseIds(s: State, a: Action)
    requires IdsOk(s) && OpensOk(s) && OwnersOk(s) && a.Release? && Enabled(s, a)
    ensures IdsOk(Step(s, a)) && OpensOk(Step(s, a)) && OwnersOk(Step(s, a))
    ensures Step(s, a).mem == ReleaseRecord(s.mem, a.p)
  {
  }

  lemma ReleaseKeeps(s: State, a: Action)
    requires Inv(s) && a.Release? && Enabled(s, a)
    ensures Inv(Step(s, a))
  {
    ReleaseRecordKeeps(s.mem, a.p);
    ReleaseStreams(s, a);
    ReleaseIds(s, a);
  }

  lemma StepKeeps(s: State, a: Action)
    requires Inv(s) && Enabled(s, a)
    ensures Inv(Step(s, a))
  {
    if IsStreamAction(a) {
      StreamActionKeeps(s, a);
    } else if a.OpenStream? {
      OpenStreamKeeps(s, a);
    } else if a.Release? {
      ReleaseKeeps(s, a);
    } else {
      OpenActionKeeps(s, a);
    }
  }

  lemma {:induction false} RunKeeps(s: State, acts: seq<Action>, t: State)
    requires Inv(s) && IsRun(s, acts, t)
    ensures Inv(t)
    decreases |acts|
  {
    if acts != [] {
      StepKeeps(s, acts[0]);
      RunKeeps(Step(s, acts[0]), acts[1..], t);
    }
  }

  /** The invariant holds in every state any interleaving can reach. */
  lemma ReachableInv(s: State)
    requires Reachable(s)
    ensures Inv(s)
  {
    var cap: nat, acts :| IsRun(InitState(cap), acts, s);
    InitInv(cap);
    RunKeeps(InitState(cap), acts, s);
  }
}
