/** The streaming query protocol as an interleaved transition system: the Rust handlers and registries
    (rust/src/lib.rs), sable's bounded channel, and the Go `Rows` cursor (db.go, logpage.go).
    Every atomic effect of either side is one `Action`; a run is any sequence of enabled actions over
    any number of concurrent queries and opens. */
module StreamProtocol {
  import opened Wrappers
  import opened Shells

  type Qid = nat

  // ---------------------------------------------------------------- what a query does

  /** One poll of the engine stream: a batch, or a failure (of the scan or of its export). */
  datatype Item = Yield(batch: Batch) | Broken(msg: string)

  /** The page metadata a paged log query stashes. */
  datatype PageMeta = PageMeta(next: Option<nat>, rowsReturned: nat)

  /** A message the handlers write themselves; those all have text of their own. Messages of the engine
      need not. */
  type Message = s: string | s != "" witness "?"

  /** A request as the handler will experience it: a parse failure found before the Db lookup, a
      plan/open failure found after it, the page metadata of a paged query, and the polls. */
  datatype Script = Script(
    parseErr: Option<Message>,
    openErr: Option<string>,
    page: Option<PageMeta>,
    items: seq<Item>)

  const UNKNOWN_DB := "unknown db handle"

  function StartFailure(sc: Script): Option<string> {
    if sc.parseErr.Some? then sc.parseErr else sc.openErr
  }

  function FirstBroken(items: seq<Item>): Option<string> {
    if items == [] then None
    else if items[0].Broken? then Some(items[0].msg)
    else FirstBroken(items[1..])
  }

  /** The failure this query ends with on a known Db, if it is left to run. */
  function Failure(sc: Script): Option<string> {
    if StartFailure(sc).Some? then StartFailure(sc) else FirstBroken(sc.items)
  }

  /** `delivered` is an in-order prefix of what the engine stream yielded. */
  ghost predicate PrefixOfYields(items: seq<Item>, delivered: seq<Batch>) {
    |delivered| <= |items| && forall i :: 0 <= i < |delivered| ==> items[i] == Yield(delivered[i])
  }

  /** The engine ended cleanly and every batch it yielded was delivered. */
  ghost predicate Complete(sc: Script, delivered: seq<Batch>) {
    Failure(sc) == None && |delivered| == |sc.items| && PrefixOfYields(sc.items, delivered)
  }

  // ---------------------------------------------------------------- state

  datatype Err = ImportErr(msg: string) | CtxErr | QueryErr(msg: string) | TransportErr

  /** Where the handler is. `tx` is held in every state but Gone. */
  datatype Producer =
    | Spawned
    | StoringMeta
    | Polling
    | Sending(ptr: Ptr)
    | Storing(msg: string)
    | Returning
    | Gone

  /** Where the goroutine using the Rows is, between two of its atomic effects. */
  datatype Consumer =
    | Idle
    | Pulled(ptr: Ptr)
    | Imported(ptr: Ptr, failure: Option<string>)
    | Fetching(importErr: Option<Err>)
    | Deciding(importErr: Option<Err>, stored: Option<Err>)
    | Closing
    | CloseFetching

  /** The outcome of one byte-Call to a slot: a transport failure, or the (possibly empty) reply. */
  datatype Reply<T> = CallFailed | Got(value: T)

  /** The Rust side of one query. `pos` counts the batches sent; `stores` lists what it stored in
      QUERY_ERRORS; `late` and `metaLate` record that the store came after the cursor's fetch. */
  datatype Handler = Handler(
    prod: Producer, pos: nat,
    stores: seq<string>, late: bool,
    metaStored: bool, metaLate: bool)

  /** sable's bounded channel, and whether the cursor dropped its receiver. */
  datatype Channel = Channel(queue: seq<Ptr>, rxClosed: bool)

  /** The Go side of one query: the fields of `Rows`, the caller's context, and what happened so far
      (`delivered` are the batches Next returned, `sawEnd` that the channel reported end-of-stream). */
  datatype Cursor = Cursor(
    cons: Consumer, ended: bool, err: Option<Err>, ctxDone: bool,
    delivered: seq<Batch>, importFailed: bool, sawEnd: bool, closedByCaller: bool,
    fetches: seq<Reply<string>>, metaFetches: seq<Reply<Option<PageMeta>>>)

  datatype Stream = Stream(db: nat, script: Script, h: Handler, ch: Channel, c: Cursor)

  function NewStream(db: nat, sc: Script): Stream {
    Stream(db, sc, Handler(Spawned, 0, [], false, false, false), Channel([], false),
           Cursor(Idle, false, None, false, [], false, false, false, [], []))
  }

  /** One imbhgo_open* call and its openFailure. */
  datatype Opening =
    | Trying
    | Opened(db: nat)
    | Failed(cause: string)
    | Reported(cause: string, reply: Reply<string>)

  datatype State = State(
    cap: nat,                         // channel bound
    ctr: Qid,                         // queryCtr
    dbCtr: nat, dbs: set<nat>,        // DB_CTR, DBS
    errors: map<Qid, string>,         // QUERY_ERRORS
    pageMeta: map<Qid, PageMeta>,     // PAGE_META
    mem: Mem,
    streams: map<Qid, Stream>,
    opens: map<Qid, Opening>)

  function InitState(cap: nat): State {
    State(cap, 0, 1, {}, map[], map[], EMPTY_MEM, map[], map[])
  }

  // ---------------------------------------------------------------- actions

  datatype Action =
    // opens and closes of databases
    | BeginOpen
    | OpenSucceeds(id: Qid)
    | OpenFails(id: Qid, cause: string)
    | OpenReport(id: Qid, callOk: bool)
    | CloseDb(db: nat)
    // opening a stream, and the caller's context
    | OpenStream(db: nat, script: Script)
    | OpenRefused
    | CancelCtx(q: Qid)
    // the handler
    | Begin(q: Qid)
    | StoreMeta(q: Qid)
    | Poll(q: Qid)
    | Send(q: Qid)
    | SendError(q: Qid)
    | StoreError(q: Qid)
    | DropSender(q: Qid)
    // sable dropping a buffered payload after the cursor closed
    | Drain(q: Qid)
    // the Rows cursor
    | Pull(q: Qid)
    | PullNothing(q: Qid)
    | Import(q: Qid, nulls: bool)
    | ImportFail(q: Qid, msg: string, nulls: bool, released: bool)
    | FreeShell(q: Qid)
    | Fetch(q: Qid, callOk: bool)
    | Decide(q: Qid)
    | FinishClose(q: Qid)
    | CallerClose(q: Qid)
    | MetaFetch(q: Qid, callOk: bool)
    // the client releasing an imported record batch
    | Release(p: Ptr)

  /** The channel is empty and its sender is gone: the only way sable reports end-of-stream. */
  predicate EndOfStream(h: Handler, ch: Channel) {
    ch.queue == [] && h.prod.Gone?
  }

  predicate StreamEnabled(cap: nat, st: Stream, a: Action) {
    match a
    case CancelCtx(_) => true
    case Begin(_) => st.h.prod.Spawned?
    case StoreMeta(_) => st.h.prod.StoringMeta?
    case Poll(_) => st.h.prod.Polling?
    case Send(_) => st.h.prod.Sending? && !st.ch.rxClosed && |st.ch.queue| < cap
    case SendError(_) => st.h.prod.Sending? && st.ch.rxClosed
    case StoreError(_) => st.h.prod.Storing?
    case DropSender(_) => st.h.prod.Returning?
    case Drain(_) => st.ch.rxClosed && st.ch.queue != []
    case Pull(_) => st.c.cons.Idle? && !st.c.ended && st.ch.queue != []
    case PullNothing(_) => st.c.cons.Idle? && !st.c.ended && (EndOfStream(st.h, st.ch) || st.c.ctxDone)
    case Import(_, _) => st.c.cons.Pulled?
    case ImportFail(_, _, _, _) => st.c.cons.Pulled?
    case FreeShell(_) => st.c.cons.Imported?
    case Fetch(_, _) => st.c.cons.Fetching? || st.c.cons.CloseFetching?
    case Decide(_) => st.c.cons.Deciding?
    case FinishClose(_) => st.c.cons.Closing?
    case CallerClose(_) => st.c.cons.Idle?
    case MetaFetch(_, _) => st.c.cons.Idle? && st.c.ended && st.script.page.Some? && st.c.metaFetches == []
    case _ => false
  }

  predicate IsStreamAction(a: Action) {
    a.CancelCtx? || a.Begin? || a.StoreMeta? || a.Poll? || a.Send? || a.SendError? || a.StoreError? ||
    a.DropSender? || a.Drain? || a.Pull? || a.PullNothing? || a.Import? || a.ImportFail? ||
    a.FreeShell? || a.Fetch? || a.Decide? || a.FinishClose? || a.CallerClose? || a.MetaFetch?
  }

  predicate Enabled(s: State, a: Action) {
    if IsStreamAction(a) then a.q in s.streams && StreamEnabled(s.cap, s.streams[a.q], a)
    else match a
      case OpenSucceeds(id) => id in s.opens && s.opens[id].Trying?
      case OpenFails(id, _) => id in s.opens && s.opens[id].Trying?
      case OpenReport(id, _) => id in s.opens && s.opens[id].Failed?
      case Release(p) => p in s.mem.records
      case _ => true
  }

  /** The handler after its request is parsed: Db lookup, then planning, then (paged) the metadata. */
  function AfterLookup(dbs: set<nat>, db: nat, sc: Script): Producer {
    if sc.parseErr.Some? then Storing(sc.parseErr.value)
    else if db !in dbs then Storing(UNKNOWN_DB)
    else if sc.openErr.Some? then Storing(sc.openErr.value)
    else if sc.page.Some? then StoringMeta
    else Polling
  }

  /** takeStoredError's view of a reply: the empty message means "no error". */
  function StoredError(r: Reply<string>): Option<Err> {
    match r
    case CallFailed => Some(TransportErr)
    case Got(msg) => if msg != "" then Some(QueryErr(msg)) else None
  }

  /** finish's precedence: import error, then context, then the stored query error. */
  function FinishErr(importErr: Option<Err>, ctxDone: bool, stored: Option<Err>): Option<Err> {
    if importErr.Some? then importErr else if ctxDone then Some(CtxErr) else stored
  }

  function LookupError(s: State, q: Qid): string {
    if q in s.errors then s.errors[q] else ""
  }

  function LookupMeta(s: State, q: Qid): Option<PageMeta> {
    if q in s.pageMeta then Some(s.pageMeta[q]) else None
  }

  /** The handler after action `a`; `nextPtr` is the address a new box would get. */
  function NextHandler(dbs: set<nat>, nextPtr: Ptr, st: Stream, a: Action): Handler {
    var h := st.h;
    match a
    case Begin(_) => h.(prod := AfterLookup(dbs, st.db, st.script))
    case StoreMeta(_) => h.(prod := Polling, metaStored := true, metaLate := st.c.metaFetches != [])
    case Poll(_) =>
      if h.pos >= |st.script.items| then h.(prod := Returning)
      else (match st.script.items[h.pos]
            case Yield(_) => h.(prod := Sending(nextPtr))
            case Broken(msg) => h.(prod := Storing(msg)))
    case Send(_) => h.(prod := Polling, pos := h.pos + 1)
    case SendError(_) => h.(prod := Returning)
    case StoreError(_) =>
      if h.prod.Storing? then
        h.(prod := Returning, stores := h.stores + [h.prod.msg], late := st.c.fetches != [])
      else h
    case DropSender(_) => h.(prod := Gone)
    case _ => h
  }

  /** The channel after action `a`. */
  function NextChannel(st: Stream, a: Action): Channel {
    var ch := st.ch;
    match a
    case Send(_) => if st.h.prod.Sending? then ch.(queue := ch.queue + [st.h.prod.ptr]) else ch
    case Drain(_) => if ch.queue != [] then ch.(queue := ch.queue[1..]) else ch
    case Pull(_) => if ch.queue != [] then ch.(queue := ch.queue[1..]) else ch
    case FinishClose(_) => ch.(rxClosed := true)
    case CallerClose(_) => ch.(rxClosed := true)
    case _ => ch
  }

  /** The cursor after action `a`; `err` and `meta` are what the query's two slots hold. */
  function NextCursor(heap: map<Ptr, Shell>, err: string, meta: Option<PageMeta>, st: Stream, a: Action): Cursor {
    var c := st.c;
    match a
    case CancelCtx(_) => c.(ctxDone := true)
    case Pull(_) => if st.ch.queue != [] then c.(cons := Pulled(st.ch.queue[0])) else c
    case PullNothing(_) => c.(cons := Fetching(None), sawEnd := EndOfStream(st.h, st.ch))
    case Import(_, _) => if c.cons.Pulled? then c.(cons := Imported(c.cons.ptr, None)) else c
    case ImportFail(_, msg, _, _) =>
      if c.cons.Pulled? then c.(cons := Imported(c.cons.ptr, Some(msg)), importFailed := true) else c
    case FreeShell(_) =>
      if !c.cons.Imported? then c
      else if c.cons.failure.Some? then c.(cons := Fetching(Some(ImportErr(c.cons.failure.value))))
      else if c.cons.ptr in heap then
        c.(cons := Idle, delivered := c.delivered + [heap[c.cons.ptr].batch])
      else c.(cons := Idle)
    case Fetch(_, callOk) =>
      var reply := if callOk then Got(err) else CallFailed;
      c.(fetches := c.fetches + [reply],
         cons := if c.cons.Fetching? then Deciding(c.cons.importErr, StoredError(reply)) else Idle)
    case Decide(_) =>
      if c.cons.Deciding? then
        c.(cons := Closing, ended := true, err := FinishErr(c.cons.importErr, c.ctxDone, c.cons.stored))
      else c
    case FinishClose(_) => c.(cons := Idle)
    case CallerClose(_) =>
      if c.ended then c else c.(cons := CloseFetching, ended := true, closedByCaller := true)
    case MetaFetch(_, callOk) => c.(metaFetches := [if callOk then Got(meta) else CallFailed])
    case _ => c
  }

  /** The batch memory after action `a` of stream `q`. */
  function NextMem(m: Mem, q: Qid, st: Stream, a: Action): Mem {
    match a
    case Poll(_) =>
      if st.h.pos < |st.script.items| && st.script.items[st.h.pos].Yield? then
        Export(m, q, st.script.items[st.h.pos].batch)
      else m
    case SendError(_) => if st.h.prod.Sending? then BatchRelease(m, st.h.prod.ptr) else m
    case Drain(_) => if st.ch.queue != [] then BatchRelease(m, st.ch.queue[0]) else m
    case Import(_, nulls) => if st.c.cons.Pulled? then Shells.ImportOk(m, st.c.cons.ptr, nulls) else m
    case ImportFail(_, _, nulls, released) =>
      if st.c.cons.Pulled? then ImportFailed(m, st.c.cons.ptr, nulls, released) else m
    case FreeShell(_) =>
      if !st.c.cons.Imported? then m
      else if st.c.cons.failure.Some? then ShellFree(m, st.c.cons.ptr)
      else TakeRecord(m, st.c.cons.ptr)
    case _ => m
  }

  /** QUERY_ERRORS after action `a` of stream `q`. */
  function NextErrors(errors: map<Qid, string>, q: Qid, prod: Producer, a: Action): map<Qid, string> {
    match a
    case StoreError(_) => if prod.Storing? then errors[q := prod.msg] else errors
    case Fetch(_, callOk) => if callOk then errors - {q} else errors
    case _ => errors
  }

  /** PAGE_META after action `a` of stream `q`. */
  function NextMeta(pageMeta: map<Qid, PageMeta>, q: Qid, sc: Script, a: Action): map<Qid, PageMeta> {
    match a
    case StoreMeta(_) => if sc.page.Some? then pageMeta[q := sc.page.value] else pageMeta
    case MetaFetch(_, callOk) => if callOk then pageMeta - {q} else pageMeta
    case _ => pageMeta
  }

  function NextStream(dbs: set<nat>, m: Mem, err: string, meta: Option<PageMeta>, st: Stream, a: Action): Stream {
    st.(h := NextHandler(dbs, m.nextPtr, st, a),
        ch := NextChannel(st, a),
        c := NextCursor(m.heap, err, meta, st, a))
  }

  /** One atomic effect on stream `a.q`. */
  function StreamStep(s: State, a: Action): State
    requires IsStreamAction(a) && Enabled(s, a)
  {
    var q := a.q;
    var st := s.streams[q];
    s.(streams := s.streams[q := NextStream(s.dbs, s.mem, LookupError(s, q), LookupMeta(s, q), st, a)],
       mem := NextMem(s.mem, q, st, a),
       errors := NextErrors(s.errors, q, st.h.prod, a),
       pageMeta := NextMeta(s.pageMeta, q, st.script, a))
  }

  function Step(s: State, a: Action): State
    requires Enabled(s, a)
  {
    if IsStreamAction(a) then StreamStep(s, a)
    else match a
      case BeginOpen => s.(ctr := s.ctr + 1, opens := s.opens[s.ctr + 1 := Trying])
      case OpenSucceeds(id) =>
        s.(dbCtr := s.dbCtr + 1, dbs := s.dbs + {s.dbCtr}, opens := s.opens[id := Opened(s.dbCtr)])
      case OpenFails(id, cause) =>
        // store_open_error ignores id 0, which the counter never issues
        s.(opens := s.opens[id := Failed(cause)],
           errors := if id != 0 then s.errors[id := cause] else s.errors)
      case OpenReport(id, callOk) =>
        s.(opens := s.opens[id := Reported(s.opens[id].cause,
                                           if callOk then Got(LookupError(s, id)) else CallFailed)],
           errors := if callOk then s.errors - {id} else s.errors)
      case CloseDb(db) => s.(dbs := s.dbs - {db})
      case OpenStream(db, script) =>
        s.(ctr := s.ctr + 1, streams := s.streams[s.ctr + 1 := NewStream(db, script)])
      case OpenRefused => s.(ctr := s.ctr + 1)
      case Release(p) => s.(mem := ReleaseRecord(s.mem, p))
      case _ => s
  }

  /** `acts` is a run from `s` to `t`. */
  ghost predicate IsRun(s: State, acts: seq<Action>, t: State)
    decreases |acts|
  {
    if acts == [] then s == t
    else Enabled(s, acts[0]) && IsRun(Step(s, acts[0]), acts[1..], t)
  }

  ghost predicate Reachable(s: State) {
    exists cap: nat, acts :: IsRun(InitState(cap), acts, s)
  }
}
