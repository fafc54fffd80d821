/** When one cache directory may serve several expected sums (cmd/imbhgo-fetch/main.go): what the sidecar can
    come to hold while any number of processes write it, and which runs print flags for a wrong archive. */
module FetchSums {
  import opened Wrappers
  import opened Ordering
  import opened FetchCache

  /** A sum with an asset behind it: what a process must have to get as far as the sidecar. */
  ghost predicate Source(env: Env, v: string) {
    v in env.wants && IsPublished(env, v)
  }

  /** Some published sum's line has `c` at position `i`. */
  ghost predicate FromSum(env: Env, i: nat, c: char) {
    exists v :: Source(env, v) && i < |SidecarLine(v)| && SidecarLine(v)[i] == c
  }

  /** What processes that truncate and write their own line, each at its own offset, can leave behind. */
  ghost predicate SidecarOk(env: Env, content: string) {
    && |content| <= 65
    && (forall i :: 0 <= i < |content| ==> content[i] == '\0' || FromSum(env, i, content[i]))
    && (content != [] ==> content[|content| - 1] != '\0')
  }

  /** The sums a cache lookup can find in such a sidecar, beside an installed archive. */
  ghost predicate Spliced(env: Env, w: string) {
    && (exists v :: Source(env, v))
    && |w| <= 64
    && (forall i :: 0 <= i < |w| ==> w[i] == '\0' || FromSum(env, i, w[i]))
    && (0 < |w| < 64 ==> w[|w| - 1] != '\0')
  }

  lemma SourceLine(env: Env, v: string)
    requires HexSums(env) && Source(env, v)
    ensures IsHexSum(v) && |SidecarLine(v)| == 65 && SidecarLine(v)[64] == '\n'
    ensures forall i :: 0 <= i < 64 ==> SidecarLine(v)[i] == v[i] && !IsSpace(v[i]) && v[i] != '\0'
  {
    var raw :| Verified(env, v, raw);
    var a :| env.sha(a) == v && env.unz(a) == Some(raw);
    assert forall i :: 0 <= i < 64 ==> v[i] in v;
  }

  lemma FromSumIs(env: Env, i: nat, c: char)
    requires HexSums(env) && FromSum(env, i, c)
    ensures i <= 64 && c != '\0'
    ensures i < 64 ==> !IsSpace(c)
    ensures i == 64 ==> c == '\n'
  {
    var v :| Source(env, v) && i < |SidecarLine(v)| && SidecarLine(v)[i] == c;
    SourceLine(env, v);
  }

  // ---------------------------------------------------------------- what the sidecar can hold

  lemma OverlayKeeps(env: Env, content: string, v: string, n: nat, k: nat)
    requires HexSums(env) && SidecarOk(env, content) && Source(env, v) && n + k <= 65
    ensures |SidecarLine(v)| == 65
    ensures SidecarOk(env, Overlay(content, n, SidecarLine(v)[n..n + k]))
  {
    SourceLine(env, v);
    var line := SidecarLine(v);
    var out := Overlay(content, n, line[n..n + k]);
    forall i | 0 <= i < |out|
      ensures out[i] == '\0' || FromSum(env, i, out[i])
    {
      assert n <= i < n + k ==> out[i] == line[i];
      assert i < n && i < |content| ==> out[i] == content[i];
      assert n + k <= i ==> out[i] == content[i];
    }
    assert k > 0 && |content| <= n + k ==> out[|out| - 1] == line[n + k - 1];
  }

  /** What a process knows beyond `Inv`: it has an asset once past the download, and a cache hit found a
      published or a spliced sum. */
  ghost predicate SumOk(env: Env, w: string) {
    IsPublished(env, w) || Spliced(env, w)
  }

  ghost predicate ProcSum(env: Env, q: Proc) {
    && (q.pc.Renamed? || q.pc.SidecarOpen? ==> IsPublished(env, q.want))
    && (q.pc.Printing? && q.pc.known ==> SumOk(env, q.want))
  }

  ghost predicate SumsInv(env: Env, s: State) {
    && (s.disk.sidecar.Some? ==> SidecarOk(env, s.disk.sidecar.value))
    && (forall p :: p in s.procs ==> ProcSum(env, s.procs[p]))
    && (forall e :: e in s.emissions && e.want.Some? ==> SumOk(env, e.want.value))
  }

  lemma TrimmedSidecar(env: Env, content: string)
    requires HexSums(env) && SidecarOk(env, content)
    ensures TrimSpace(content) == if |content| == 65 then content[..64] else content
  {
    var w := if |content| == 65 then content[..64] else content;
    forall i | 0 <= i < |content|
      ensures i < 64 ==> !IsSpace(content[i])
      ensures i == 64 ==> IsSpace(content[i])
    {
      if content[i] != '\0' {
        FromSumIs(env, i, content[i]);
      }
    }
    var after := content[|w|..];
    assert content == [] + w + after;
    assert AllSpace([]) && AllSpace(after);
    TrimSpaceIff(content, w);
  }

  /** A cache hit beside an archive finds a spliced sum. */
  lemma HitIsSpliced(env: Env, s: State, w: string)
    requires HexSums(env) && Inv(env, s) && SumsInv(env, s) && s.disk.archive.Some? && SidecarMatches(s.disk, w)
    ensures Spliced(env, w)
  {
    var content := s.disk.sidecar.value;
    TrimmedSidecar(env, content);
    var v :| v in env.wants && Verified(env, v, s.disk.archive.value);
    assert Source(env, v);
    assert |w| < 64 ==> w == content;
  }

  lemma SidecarStep(env: Env, s: State, e: Event)
    requires HexSums(env) && Inv(env, s) && SumsInv(env, s) && Enabled(env, s, e)
    ensures var d := Step(env, s, e).disk; d.sidecar.Some? ==> SidecarOk(env, d.sidecar.value)
  {
    if e.WriteSidecar? {
      var q := s.procs[e.p];
      assert ProcOk(env, s.disk, e.p, q) && ProcSum(env, q);
      SourceLine(env, q.want);
      OverlayKeeps(env, s.disk.sidecar.value, q.want, q.pc.n, e.k);
    }
  }

  lemma ActorSum(env: Env, s: State, e: Event)
    requires HexSums(env) && Inv(env, s) && SumsInv(env, s) && Enabled(env, s, e)
    ensures ProcSum(env, Step(env, s, e).procs[e.p])
  {
    if !e.Launch? {
      assert ProcOk(env, s.disk, e.p, s.procs[e.p]) && ProcSum(env, s.procs[e.p]);
    }
    if e.ReadSidecar? && SidecarMatches(s.disk, s.procs[e.p].want) {
      HitIsSpliced(env, s, s.procs[e.p].want);
    }
  }

  lemma SumsStep(env: Env, s: State, e: Event)
    requires HexSums(env) && Inv(env, s) && SumsInv(env, s) && Enabled(env, s, e)
    ensures SumsInv(env, Step(env, s, e))
  {
    var t := Step(env, s, e);
    SidecarStep(env, s, e);
    ActorSum(env, s, e);
    forall p | p in t.procs
      ensures ProcSum(env, t.procs[p])
    {
      if p != e.p {
        assert ProcSum(env, s.procs[p]);
      }
    }
    if e.Emit? {
      assert ProcSum(env, s.procs[e.p]);
    }
  }

  lemma {:induction false} SumsRun(env: Env, events: seq<Event>, u: State)
    requires HexSums(env) && Reaches(env, events, u)
    ensures Inv(env, u) && SumsInv(env, u)
    decreases |events|
  {
    RunKeeps(env, EMPTY, events);
    if events != [] {
      var m := After(env, EMPTY, events[..|events| - 1]).value;
      SumsRun(env, events[..|events| - 1], m);
      SumsStep(env, m, events[|events| - 1]);
    }
  }

  // ---------------------------------------------------------------- enough for safety

  /** No sum without an asset can be spliced from sums that have one. */
  ghost predicate NoPhantom(env: Env) {
    forall w :: w in env.wants && Spliced(env, w) ==> IsPublished(env, w)
  }

  lemma AgreeIsSafe(env: Env, events: seq<Event>, u: State)
    requires HexSums(env) && Agree(env) && NoPhantom(env) && Reaches(env, events, u)
    ensures EmissionsSound(env, u)
  {
    SumsRun(env, events, u);
    forall e | e in u.emissions && e.want.Some?
      ensures e.archive.Some? && Verified(env, e.want.value, e.archive.value)
    {
      assert EmissionOk(env, e) && SumOk(env, e.want.value);
    }
  }

  lemma DisagreeBreaks(env: Env) returns (tr: Trace)
    requires HexSums(env) && !Agree(env)
    ensures Sequential(env, tr) && tr.from == EMPTY && !EmissionsSound(env, tr.now)
  {
    var w, v, raw :| w in env.wants && v in env.wants && Verified(env, w, raw) && IsPublished(env, v) &&
                     !Verified(env, v, raw);
    var b :| env.sha(b) == w && env.unz(b) == Some(raw);
    var other :| Verified(env, v, other);
    var a :| env.sha(a) == v && env.unz(a) == Some(other);
    tr := TwoSumsBreak(env, v, w, a, b);
  }

  // ---------------------------------------------------------------- splicing a sum

  /** The sidecar text a lookup for `w` needs: 64 characters take the line break with them. */
  function TextFor(w: string): string {
    if |w| == 64 then w + "\n" else w
  }

  ghost function SumAt(env: Env, c: string, i: nat): (v: string)
    requires i < |c| && FromSum(env, i, c[i])
    ensures Source(env, v) && i < |SidecarLine(v)| && SidecarLine(v)[i] == c[i]
  {
    var v :| Source(env, v) && i < |SidecarLine(v)| && SidecarLine(v)[i] == c[i];
    v
  }

  /** `q` is about to write character `i` of its line, which is the one `c` has there. */
  ghost predicate Ready(env: Env, q: Proc, c: string, i: nat) {
    && Source(env, q.want) && q.pc == SidecarOpen(i)
    && i < |c| && i < |SidecarLine(q.want)| && SidecarLine(q.want)[i] == c[i]
  }

  /** A forced run of `p` for a published sum `v`, stopped `i` characters into the sidecar. */
  lemma Prepare(env: Env, tr: Trace, p: nat, v: string, i: nat) returns (more: Trace)
    requires HexSums(env) && IsTrace(env, tr) && CanLaunch(env, tr, p, v) && Source(env, v) && i < 65
    ensures IsTrace(env, more) && more.alone == tr.alone && more.from == tr.from
    ensures more.now.procs == tr.now.procs[p := Proc(v, true, SidecarOpen(i))]
    ensures more.now.disk.temps == tr.now.disk.temps && more.now.disk.archive.Some?
    ensures more.now.disk.sidecar == Some(SidecarLine(v)[..i]) && more.now.emissions == tr.now.emissions
  {
    var raw :| Verified(env, v, raw);
    var a :| env.sha(a) == v && env.unz(a) == Some(raw);
    SourceLine(env, v);
    more := Lookup(env, tr, p, v, true);
    more := Extend(env, more, Download(p, a));
    more := Unpack(env, more, p, raw);
    more := StoreLine(env, more, p, i);
  }

  ghost predicate Prepared(env: Env, s: State, c: string, n: nat) {
    && n <= |c| && s.disk.temps == map[]
    && (forall p :: p in s.procs ==> p < n)
    && (forall i :: 0 <= i < n && c[i] != '\0' ==> i in s.procs && Ready(env, s.procs[i], c, i))
  }

  /** One process per character, each about to write its own. */
  lemma {:induction false} PrepareAll(env: Env, c: string, n: nat) returns (tr: Trace)
    requires HexSums(env) && SidecarOk(env, c) && n <= |c|
    ensures IsTrace(env, tr) && !tr.alone && tr.from == EMPTY && Prepared(env, tr.now, c, n)
    ensures tr.now.emissions == []
    decreases n
  {
    if n == 0 {
      tr := Trace(false, EMPTY, [], EMPTY);
    } else {
      tr := PrepareAll(env, c, n - 1);
      if c[n - 1] != '\0' {
        var before := tr.now;
        var v := SumAt(env, c, n - 1);
        tr := Prepare(env, tr, n - 1, v, n - 1);
        forall i | 0 <= i < n && c[i] != '\0'
          ensures i in tr.now.procs && Ready(env, tr.now.procs[i], c, i)
        {
          assert i < n - 1 ==> tr.now.procs[i] == before.procs[i];
        }
      }
    }
  }

  /** The sidecar after the first `n` characters were given their chance to be written. */
  ghost predicate WrittenTo(c: string, content: string, n: nat) {
    && |content| <= n <= |c| && content == c[..|content|]
    && forall i :: |content| <= i < n ==> c[i] == '\0'
  }

  lemma WriteOne(c: string, content: string, n: nat)
    requires WrittenTo(c, content, n) && n < |c|
    ensures WrittenTo(c, if c[n] == '\0' then content else Overlay(content, n, [c[n]]), n + 1)
  {
    if c[n] != '\0' {
      var out := Overlay(content, n, [c[n]]);
      assert |out| == n + 1;
      forall i | 0 <= i < n + 1
        ensures out[i] == c[i]
      {
        assert i < |content| ==> out[i] == content[i];
      }
      assert out == c[..n + 1];
    }
  }

  ghost predicate StillReady(env: Env, s: State, c: string, n: nat) {
    forall i :: n <= i < |c| && c[i] != '\0' ==> i in s.procs && Ready(env, s.procs[i], c, i)
  }

  /** Every process writes its one character into the truncated file. */
  lemma {:induction false} WriteAll(env: Env, tr: Trace, c: string, n: nat) returns (more: Trace)
    requires HexSums(env) && IsTrace(env, tr) && !tr.alone && tr.from == EMPTY && n <= |c| <= 65
    requires tr.now.disk.sidecar.Some? && WrittenTo(c, tr.now.disk.sidecar.value, n) && StillReady(env, tr.now, c, n)
    requires tr.now.disk.temps == map[] && tr.now.disk.archive.Some? && forall p :: p in tr.now.procs ==> p < 66
    ensures IsTrace(env, more) && !more.alone && more.from == EMPTY
    ensures more.now.disk.sidecar.Some? && WrittenTo(c, more.now.disk.sidecar.value, |c|)
    ensures more.now.disk.temps == map[] && more.now.disk.archive.Some? && forall p :: p in more.now.procs ==> p < 66
    decreases |c| - n
  {
    if n == |c| {
      more := tr;
    } else {
      var content := tr.now.disk.sidecar.value;
      WriteOne(c, content, n);
      more := tr;
      if c[n] != '\0' {
        var line := SidecarLine(tr.now.procs[n].want);
        SourceLine(env, tr.now.procs[n].want);
        more := Extend(env, tr, WriteSidecar(n, 1));
        assert line[n..n + 1] == [c[n]];
      }
      more := WriteAll(env, more, c, n + 1);
    }
  }

  /** Processes that overlap can leave any such text in the sidecar of an installed archive. */
  lemma BuildSidecar(env: Env, v: string, c: string) returns (tr: Trace)
    requires HexSums(env) && Source(env, v) && SidecarOk(env, c)
    ensures IsTrace(env, tr) && !tr.alone && tr.from == EMPTY
    ensures tr.now.disk.sidecar == Some(c) && tr.now.disk.temps == map[] && tr.now.disk.archive.Some?
    ensures forall p :: p in tr.now.procs ==> p < 66
  {
    tr := PrepareAll(env, c, |c|);
    var before := tr.now;
    tr := Prepare(env, tr, 65, v, 0);
    assert tr.now.disk.sidecar.value == [];
    assert forall i :: 0 <= i < |c| && i in before.procs ==> tr.now.procs[i] == before.procs[i];
    tr := WriteAll(env, tr, c, 0);
    assert c[..|c|] == c;
  }

  lemma TextIsSidecar(env: Env, w: string)
    requires HexSums(env) && Spliced(env, w)
    ensures SidecarOk(env, TextFor(w)) && TrimSpace(TextFor(w)) == w
  {
    var c := TextFor(w);
    var v :| Source(env, v);
    SourceLine(env, v);
    forall i | 0 <= i < |c|
      ensures c[i] == '\0' || FromSum(env, i, c[i])
    {
      assert i == 64 ==> c[i] == SidecarLine(v)[64];
    }
    TrimmedSidecar(env, c);
  }

  /** A sum without an asset, spliced from sums that have one: a lookup for it is a false hit. */
  lemma PhantomBreaks(env: Env, w: string) returns (tr: Trace)
    requires HexSums(env) && w in env.wants && Spliced(env, w) && !IsPublished(env, w)
    ensures IsTrace(env, tr) && tr.from == EMPTY && !EmissionsSound(env, tr.now)
  {
    TextIsSidecar(env, w);
    var v :| Source(env, v);
    tr := BuildSidecar(env, v, TextFor(w));
    var emitted := tr.now.emissions;
    tr := HitRun(env, tr, 66, w);
    var e := tr.now.emissions[|emitted|];
    assert e in tr.now.emissions && e.want == Some(w);
  }

  // ---------------------------------------------------------------- runs that never overlap

  /** Left behind by a run killed while it wrote the sidecar: the start of one published sum's line. */
  ghost predicate CutLine(env: Env, content: string) {
    exists v :: Source(env, v) && content <= SidecarLine(v)
  }

  ghost predicate Cut(env: Env, w: string) {
    exists v :: Source(env, v) && w <= v
  }

  ghost predicate AloneProc(env: Env, d: Disk, q: Proc) {
    && (q.pc.Renamed? || q.pc.SidecarOpen? ==> IsPublished(env, q.want))
    && (q.pc.SidecarOpen? ==>
          q.pc.n <= |SidecarLine(q.want)| && d.sidecar == Some(SidecarLine(q.want)[..q.pc.n]))
    && (q.pc.Printing? && q.pc.known ==> IsPublished(env, q.want) || Cut(env, q.want))
  }

  /** What holds throughout a run without overlap. */
  ghost predicate AloneInv(env: Env, s: State) {
    && (s.disk.sidecar.Some? ==> CutLine(env, s.disk.sidecar.value))
    && (forall p, q :: p in s.procs && q in s.procs && !s.procs[p].pc.Done? && !s.procs[q].pc.Done? ==> p == q)
    && (forall p :: p in s.procs ==> AloneProc(env, s.disk, s.procs[p]))
    && (forall e :: e in s.emissions && e.want.Some? ==> IsPublished(env, e.want.value) || Cut(env, e.want.value))
  }

  lemma CutLineTrims(env: Env, content: string)
    requires HexSums(env) && CutLine(env, content)
    ensures Cut(env, TrimSpace(content))
  {
    var v :| Source(env, v) && content <= SidecarLine(v);
    SourceLine(env, v);
    var w := if |content| == 65 then content[..64] else content;
    var after := content[|w|..];
    assert forall i :: 0 <= i < |content| ==> content[i] == SidecarLine(v)[i];
    assert content == [] + w + after && AllSpace([]) && AllSpace(after);
    TrimSpaceIff(content, w);
    assert w <= v;
  }

  lemma AloneActor(env: Env, s: State, e: Event)
    requires HexSums(env) && Inv(env, s) && AloneInv(env, s) && Enabled(env, s, e)
    ensures AloneProc(env, Step(env, s, e).disk, Step(env, s, e).procs[e.p])
  {
    if !e.Launch? {
      assert ProcOk(env, s.disk, e.p, s.procs[e.p]) && AloneProc(env, s.disk, s.procs[e.p]);
    }
    if e.ReadSidecar? && SidecarMatches(s.disk, s.procs[e.p].want) {
      CutLineTrims(env, s.disk.sidecar.value);
    }
    if e.WriteSidecar? {
      AppendLine(SidecarLine(s.procs[e.p].want), s.procs[e.p].pc.n, e.k);
    }
  }

  /** A process that wrote `n` characters of its line goes on where it stopped. */
  lemma AppendLine(line: string, n: nat, k: nat)
    requires n + k <= |line|
    ensures Overlay(line[..n], n, line[n..n + k]) == line[..n + k]
  {
    assert line[..n + k] == line[..n] + line[n..n + k];
  }

  lemma AloneSidecar(env: Env, s: State, e: Event)
    requires HexSums(env) && Inv(env, s) && AloneInv(env, s) && Enabled(env, s, e)
    ensures var d := Step(env, s, e).disk; d.sidecar.Some? ==> CutLine(env, d.sidecar.value)
  {
    if e.OpenSidecar? || e.WriteSidecar? {
      var q := s.procs[e.p];
      assert ProcOk(env, s.disk, e.p, q) && AloneProc(env, s.disk, q);
      assert Source(env, q.want);
      if e.WriteSidecar? {
        AppendLine(SidecarLine(q.want), q.pc.n, e.k);
        assert SidecarLine(q.want)[..q.pc.n + e.k] <= SidecarLine(q.want);
      } else {
        assert [] <= SidecarLine(q.want);
      }
    }
  }

  lemma AloneStep(env: Env, s: State, e: Event)
    requires HexSums(env) && Inv(env, s) && AloneInv(env, s) && Enabled(env, s, e) && (e.Launch? ==> Quiet(s))
    ensures AloneInv(env, Step(env, s, e))
  {
    var t := Step(env, s, e);
    AloneActor(env, s, e);
    AloneSidecar(env, s, e);
    forall p | p in t.procs
      ensures AloneProc(env, t.disk, t.procs[p])
    {
      if p != e.p {
        assert AloneProc(env, s.disk, s.procs[p]);
        assert s.procs[p].pc.Done?;
      }
    }
    if e.Emit? {
      assert AloneProc(env, s.disk, s.procs[e.p]);
    }
  }

  lemma {:induction false} AloneRun(env: Env, events: seq<Event>, u: State)
    requires HexSums(env) && Reaches(env, events, u) && OneAtATime(env, EMPTY, events)
    ensures Inv(env, u) && AloneInv(env, u)
    decreases |events|
  {
    RunKeeps(env, EMPTY, events);
    if events != [] {
      var m := After(env, EMPTY, events[..|events| - 1]).value;
      AloneRun(env, events[..|events| - 1], m);
      AloneStep(env, m, events[|events| - 1]);
    }
  }

  /** No sum without an asset is the start of one that has an asset. */
  ghost predicate NoCut(env: Env) {
    forall w :: w in env.wants && Cut(env, w) ==> IsPublished(env, w)
  }

  lemma AloneIsSafe(env: Env, tr: Trace)
    requires HexSums(env) && Agree(env) && NoCut(env) && Sequential(env, tr) && tr.from == EMPTY
    ensures EmissionsSound(env, tr.now)
  {
    AloneRun(env, tr.events, tr.now);
    forall e | e in tr.now.emissions && e.want.Some?
      ensures e.archive.Some? && Verified(env, e.want.value, e.archive.value)
    {
      assert EmissionOk(env, e);
    }
  }

  /** A first run, for `v`, killed `n` characters into its sidecar. */
  lemma KilledAt(env: Env, v: string, n: nat) returns (tr: Trace)
    requires HexSums(env) && Source(env, v) && n < 65
    ensures Sequential(env, tr) && tr.from == EMPTY && CanLaunch(env, tr, 1, v)
    ensures tr.now.disk.archive.Some? && tr.now.disk.temps == map[]
    ensures |SidecarLine(v)| == 65 && tr.now.disk.sidecar == Some(SidecarLine(v)[..n])
  {
    SourceLine(env, v);
    var raw :| Verified(env, v, raw);
    var a :| env.sha(a) == v && env.unz(a) == Some(raw);
    tr := InstallAsset(env, Trace(true, EMPTY, [], EMPTY), 0, v, a);
    tr := StoreLine(env, tr, 0, n);
    tr := Extend(env, tr, Killed(0));
  }

  /** A run killed after as many characters as the shorter sum has, then a lookup for that one. */
  lemma CutBreaks(env: Env, w: string) returns (tr: Trace)
    requires HexSums(env) && w in env.wants && Cut(env, w) && !IsPublished(env, w)
    ensures Sequential(env, tr) && tr.from == EMPTY && !EmissionsSound(env, tr.now)
  {
    var v :| Source(env, v) && w <= v;
    SourceLine(env, v);
    tr := KilledAt(env, v, |w|);
    assert SidecarLine(v)[..|w|] == w;
    TextStaysWhole(env, v, w);
    var emitted := tr.now.emissions;
    tr := HitRun(env, tr, 1, w);
    var e := tr.now.emissions[|emitted|];
    assert e in tr.now.emissions && e.want == Some(w);
  }

  lemma TextStaysWhole(env: Env, v: string, w: string)
    requires HexSums(env) && Source(env, v) && w <= v
    ensures TrimSpace(w) == w
  {
    SourceLine(env, v);
    assert forall i :: 0 <= i < |w| ==> w[i] == v[i];
    assert w == [] + w + [] && AllSpace([]);
    TrimSpaceIff(w, w);
  }

  // ---------------------------------------------------------------- the exact condition

  lemma CutIsSpliced(env: Env, w: string)
    requires HexSums(env) && Cut(env, w)
    ensures Spliced(env, w)
  {
    var v :| Source(env, v) && w <= v;
    SourceLine(env, v);
    assert forall i :: 0 <= i < |w| ==> w[i] == v[i] && SidecarLine(v)[i] == w[i];
  }

  /** Every process that knew its sum printed flags for an archive of that sum, in every run over one
      directory, exactly when all the sums used with it stand for the same archives and no sum without an
      asset is spliced from sums that have one. For runs that never overlap the second condition is that
      no sum without an asset is the start of one that has one. */
  lemma CacheSafeIff(env: Env)
    requires HexSums(env)
    ensures (forall events, u :: Reaches(env, events, u) ==> EmissionsSound(env, u)) <==> Agree(env) && NoPhantom(env)
    ensures (forall tr :: Sequential(env, tr) && tr.from == EMPTY ==> EmissionsSound(env, tr.now)) <==>
            Agree(env) && NoCut(env)
    ensures NoPhantom(env) ==> NoCut(env)
  {
    if Agree(env) && NoPhantom(env) {
      forall events, u | Reaches(env, events, u)
        ensures EmissionsSound(env, u)
      {
        AgreeIsSafe(env, events, u);
      }
    }
    if Agree(env) && NoCut(env) {
      forall tr | Sequential(env, tr) && tr.from == EMPTY
        ensures EmissionsSound(env, tr.now)
      {
        AloneIsSafe(env, tr);
      }
    }
    if !Agree(env) {
      var tr := DisagreeBreaks(env);
      assert Reaches(env, tr.events, tr.now);
    }
    if w :| w in env.wants && Spliced(env, w) && !IsPublished(env, w) {
      var tr := PhantomBreaks(env, w);
      assert Reaches(env, tr.events, tr.now);
    }
    if w :| w in env.wants && Cut(env, w) && !IsPublished(env, w) {
      CutIsSpliced(env, w);
      var tr := CutBreaks(env, w);
    }
  }

  // ---------------------------------------------------------------- each condition can fail on its own

  /** A sum of one digit repeated. */
  function Digits(c: char): string {
    seq(64, _ => c)
  }

  /** A hash with two values, which is all these environments need. */
  function TwoSums(b: Bytes): string {
    if b == [] then Digits('0') else Digits('1')
  }

  lemma TwoSumsDiffer()
    ensures Digits('0') != Digits('1') && TwoSums([]) == Digits('0') && TwoSums([1]) == Digits('1')
  {
    assert Digits('0')[0] != Digits('1')[0];
  }

  /** Two sums for two archives: they disagree, and there is no other sum to splice. */
  lemma TwoArchives() returns (env: Env)
    ensures HexSums(env) && !Agree(env) && NoPhantom(env)
  {
    env := Env(TwoSums, b => Some(b), {Digits('0'), Digits('1')});
    TwoSumsDiffer();
    assert env.sha([]) == Digits('0') && env.unz([]) == Some([]);
    assert env.sha([1]) == Digits('1') && env.unz([1]) == Some([1]);
    assert Verified(env, Digits('0'), []) && Verified(env, Digits('1'), [1]);
    assert !Verified(env, Digits('1'), []);
  }

  ghost function OneArchive(more: string): Env {
    Env(TwoSums, b => Some([]), {Digits('0'), Digits('1'), more})
  }

  lemma OneArchiveAgrees(more: string)
    ensures HexSums(OneArchive(more)) && Agree(OneArchive(more))
    ensures Source(OneArchive(more), Digits('0')) && Source(OneArchive(more), Digits('1'))
    ensures more != Digits('0') && more != Digits('1') ==> !IsPublished(OneArchive(more), more)
  {
    var env := OneArchive(more);
    TwoSumsDiffer();
    assert env.sha([]) == Digits('0') && env.unz([]) == Some([]);
    assert env.sha([1]) == Digits('1') && env.unz([1]) == Some([]);
    assert Verified(env, Digits('0'), []) && Verified(env, Digits('1'), []);
    forall v, w, raw | Verified(env, v, raw) && IsPublished(env, w)
      ensures Verified(env, w, raw)
    {
      var other :| Verified(env, w, other);
    }
  }

  lemma OnlyTwoSources(more: string)
    requires more != Digits('0') && more != Digits('1')
    ensures forall v :: Source(OneArchive(more), v) ==> v == Digits('0') || v == Digits('1')
  {
    OneArchiveAgrees(more);
  }

  /** A text with a character of one sum at every position is spliced from the two. */
  lemma SplicedFromTwo(mixed: string)
    requires |mixed| == 64 && forall i :: 0 <= i < 64 ==> mixed[i] == '0' || mixed[i] == '1'
    ensures Spliced(OneArchive(mixed), mixed)
  {
    var env := OneArchive(mixed);
    OneArchiveAgrees(mixed);
    forall i | 0 <= i < 64
      ensures FromSum(env, i, mixed[i])
    {
      assert SidecarLine(Digits(mixed[i]))[i] == mixed[i];
    }
  }

  /** Two sums for one archive, and a third, without an asset, made of their characters. */
  lemma SplicedThirdSum() returns (env: Env)
    ensures HexSums(env) && Agree(env) && NoCut(env) && !NoPhantom(env)
  {
    var mixed := ['0'] + Digits('1')[1..];
    assert mixed[0] == '0' && mixed[1] == '1' && |mixed| == 64;
    assert mixed != Digits('0') && mixed != Digits('1') by {
      assert Digits('0')[1] == '0' && Digits('1')[0] == '1';
    }
    env := OneArchive(mixed);
    OneArchiveAgrees(mixed);
    SplicedFromTwo(mixed);
    OnlyTwoSources(mixed);
  }

  /** Two sums for one archive, and a third, without an asset, that is the start of one of them. */
  lemma ShortThirdSum() returns (env: Env)
    ensures HexSums(env) && Agree(env) && !NoCut(env)
  {
    env := OneArchive("0");
    OneArchiveAgrees("0");
    assert |Digits('0')| == 64 && "0" <= Digits('0');
    assert Cut(env, "0");
  }
}
