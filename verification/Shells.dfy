/** The two-free batch handoff: boxed `FfiBatch` shells, the LIVE_BATCHES counter and the Arrow
    buffers behind each shell (rust/src/lib.rs). An address stands for one allocation, so a second
    free of the same box shows up as a second entry in `shellFrees`. */
module Shells {
  /** What a result batch contains; the protocol never looks inside. */
  type Batch = int

  type Ptr = nat

  /** One boxed batch. `owner` is the query that exported it; `armed` says whether the Arrow structs
      still carry their release callback (an importer may null it when it moves the array). */
  datatype Shell = Shell(owner: nat, batch: Batch, armed: bool)

  /** `shellFrees` and `bufReleases` are ledgers: how often each box was freed and how often each
      batch's Arrow buffers were released. `records` are the imported record batches the client still
      holds; `lost` are the batches whose import failed. */
  datatype Mem = Mem(
    heap: map<Ptr, Shell>,
    nextPtr: Ptr,
    live: int,
    shellFrees: multiset<Ptr>,
    bufReleases: multiset<Ptr>,
    records: set<Ptr>,
    lost: set<Ptr>)

  const EMPTY_MEM := Mem(map[], 1, 0, multiset{}, multiset{}, {}, {})

  /** export_batch: box the batch and count it. The new address is `m.nextPtr`. */
  function Export(m: Mem, owner: nat, batch: Batch): Mem {
    m.(heap := m.heap[m.nextPtr := Shell(owner, batch, true)],
       nextPtr := m.nextPtr + 1,
       live := m.live + 1)
  }

  /** imbhgo_shell_free: free only the box; the Arrow structs are forgotten, not dropped. */
  function ShellFree(m: Mem, p: Ptr): Mem {
    if p == 0 then m
    else m.(heap := m.heap - {p},
            live := m.live - 1,
            shellFrees := m.shellFrees + multiset{p})
  }

  /** imbhgo_batch_release: drop the box with its Arrow structs; an armed one releases its buffers. */
  function BatchRelease(m: Mem, p: Ptr): Mem {
    if p == 0 then m
    else m.(heap := m.heap - {p},
            live := m.live - 1,
            shellFrees := m.shellFrees + multiset{p},
            bufReleases := m.bufReleases +
              (if p in m.heap && m.heap[p].armed then multiset{p} else multiset{}))
  }

  /** A successful import moves the array; whether it also nulls the source is the importer's choice. */
  function ImportOk(m: Mem, p: Ptr, nulls: bool): Mem {
    if p in m.heap then m.(heap := m.heap[p := m.heap[p].(armed := !nulls)]) else m
  }

  /** A failed import: what the importer did to the buffers is unknown (`released`, `nulls`). */
  function ImportFailed(m: Mem, p: Ptr, nulls: bool, released: bool): Mem {
    ImportOk(m, p, nulls).(
      lost := m.lost + {p},
      bufReleases := m.bufReleases + (if released then multiset{p} else multiset{}))
  }

  /** The taken path's last step in Go: the shell is gone and the client owns the record. */
  function TakeRecord(m: Mem, p: Ptr): Mem {
    ShellFree(m, p).(records := m.records + {p})
  }

  /** rec.Release(): drives the C release callback that came with the moved array. */
  function ReleaseRecord(m: Mem, p: Ptr): Mem {
    m.(records := m.records - {p}, bufReleases := m.bufReleases + multiset{p})
  }

  /** Boxes, records and lost batches are addresses handed out; LIVE_BATCHES counts the live boxes. */
  ghost predicate ShapeOk(m: Mem) {
    && 1 <= m.nextPtr
    && (forall p :: p in m.heap ==> 1 <= p < m.nextPtr)
    && (forall p :: p in m.records ==> 1 <= p < m.nextPtr && p !in m.heap && p !in m.lost)
    && (forall p :: p in m.lost ==> 1 <= p < m.nextPtr)
    && m.live == |m.heap|
  }

  /** Every box that ever existed is either live or freed exactly once. */
  ghost predicate FreesOk(m: Mem) {
    forall p :: m.shellFrees[p] == if 1 <= p < m.nextPtr && p !in m.heap then 1 else 0
  }

  /** A batch's buffers are released once, at the moment nobody holds them any more; at most once where an
      import failed. */
  ghost predicate ReleasesOk(m: Mem) {
    && (forall p :: p !in m.lost ==>
          m.bufReleases[p] ==
            if 1 <= p < m.nextPtr && p !in m.heap && p !in m.records then 1 else 0)
    && (forall p :: p in m.lost ==> m.bufReleases[p] <= 1)
  }

  ghost predicate MemOk(m: Mem) {
    ShapeOk(m) && FreesOk(m) && ReleasesOk(m)
  }

  lemma AddKeyGrows(h: map<Ptr, Shell>, p: Ptr, shell: Shell)
    requires p !in h
    ensures |h[p := shell]| == |h| + 1
  {
    assert h[p := shell].Keys == h.Keys + {p};
    assert |h| == |h.Keys| && |h[p := shell]| == |h[p := shell].Keys|;
  }

  lemma ExportLedgers(m: Mem, owner: nat, batch: Batch)
    requires MemOk(m)
    ensures FreesOk(Export(m, owner, batch)) && ReleasesOk(Export(m, owner, batch))
  {
    assert m.nextPtr !in m.heap && m.nextPtr !in m.records && m.nextPtr !in m.lost;
    assert m.shellFrees[m.nextPtr] == 0 && m.bufReleases[m.nextPtr] == 0;
  }

  lemma ExportKeeps(m: Mem, owner: nat, batch: Batch)
    requires MemOk(m)
    ensures MemOk(Export(m, owner, batch))
  {
    AddKeyGrows(m.heap, m.nextPtr, Shell(owner, batch, true));
    ExportLedgers(m, owner, batch);
  }

  lemma RemoveKeyShrinks(h: map<Ptr, Shell>, p: Ptr)
    requires p in h
    ensures |h - {p}| == |h| - 1
  {
    assert (h - {p}).Keys == h.Keys - {p};
    assert |h| == |h.Keys| && |h - {p}| == |(h - {p}).Keys|;
  }

  /** The taken path frees the box once and releases nothing, whether or not the importer nulled it. */
  lemma TakeRecordKeeps(m: Mem, p: Ptr)
    requires MemOk(m) && p in m.heap && p !in m.lost
    ensures MemOk(TakeRecord(m, p))
    ensures TakeRecord(m, p).bufReleases == m.bufReleases
  {
    RemoveKeyShrinks(m.heap, p);
  }

  lemma ShellFreeLostKeeps(m: Mem, p: Ptr)
    requires MemOk(m) && p in m.heap && p in m.lost
    ensures MemOk(ShellFree(m, p))
  {
    RemoveKeyShrinks(m.heap, p);
  }

  /** The abandoned path frees the box once and releases its still-armed buffers once. */
  lemma BatchReleaseKeeps(m: Mem, p: Ptr)
    requires MemOk(m) && p in m.heap && m.heap[p].armed && p !in m.lost
    ensures MemOk(BatchRelease(m, p))
    ensures BatchRelease(m, p).bufReleases[p] == 1
  {
    RemoveKeyShrinks(m.heap, p);
  }

  lemma ImportOkKeeps(m: Mem, p: Ptr, nulls: bool)
    requires MemOk(m) && p in m.heap
    ensures MemOk(ImportOk(m, p, nulls))
  {
    assert ImportOk(m, p, nulls).heap.Keys == m.heap.Keys;
    assert |ImportOk(m, p, nulls).heap.Keys| == |m.heap.Keys|;
  }

  lemma ImportFailedKeeps(m: Mem, p: Ptr, nulls: bool, released: bool)
    requires MemOk(m) && p in m.heap && p !in m.lost
    ensures MemOk(ImportFailed(m, p, nulls, released))
  {
    ImportOkKeeps(m, p, nulls);
  }

  lemma ReleaseRecordKeeps(m: Mem, p: Ptr)
    requires MemOk(m) && p in m.records
    ensures MemOk(ReleaseRecord(m, p))
  {
  }
}
