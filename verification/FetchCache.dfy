/** The archive cache of cmd/imbhgo-fetch: fetch, cachedMatches and decompressToFile as interleaved steps of
    any number of processes that may fail or be killed between any two file operations. */
module FetchCache {
  import opened Wrappers
  import opened Ordering

  /** What a run depends on: SHA-256 in hex, zstd decoding (None: corrupt), the sums manifests may list.
      Nothing is assumed of the hash but its form; two bodies may share a sum. */
  datatype Env = Env(sha: Bytes -> string, unz: Bytes -> Option<Bytes>, wants: set<string>)

  predicate IsHexSum(s: string) {
    |s| == 64 && forall c :: c in s ==> '0' <= c <= '9' || 'a' <= c <= 'f'
  }

  ghost predicate HexSums(env: Env) {
    forall a :: IsHexSum(env.sha(a))
  }

  /** Some body with this sum decompresses to `raw`. */
  ghost predicate Verified(env: Env, sum: string, raw: Bytes) {
    exists a :: env.sha(a) == sum && env.unz(a) == Some(raw)
  }

  /** Some published asset has this sum. */
  ghost predicate IsPublished(env: Env, sum: string) {
    exists raw :: Verified(env, sum, raw)
  }

  // ---------------------------------------------------------------- the directory

  /** libimbhgo.a, libimbhgo.a.sha256, and the temporary file of each process that has one. */
  datatype Disk = Disk(archive: Option<Bytes>, sidecar: Option<string>, temps: map<nat, Bytes>)

  /** unicode.IsSpace */
  predicate IsSpace(c: char) {
    var u := c as int;
    || 0x09 <= u <= 0x0D || u == 0x20 || u == 0x85 || u == 0xA0 || u == 0x1680 || 0x2000 <= u <= 0x200A
    || u == 0x2028 || u == 0x2029 || u == 0x202F || u == 0x205F || u == 0x3000
  }

  function TrimLeft(s: string): string {
    if s != [] && IsSpace(s[0]) then TrimLeft(s[1..]) else s
  }

  function TrimRight(s: string): string {
    if s != [] && IsSpace(s[|s| - 1]) then TrimRight(s[..|s| - 1]) else s
  }

  function TrimSpace(s: string): string {
    TrimRight(TrimLeft(s))
  }

  predicate AllSpace(s: string) {
    forall i :: 0 <= i < |s| ==> IsSpace(s[i])
  }

  /** `s` is `w` with white space around it, and `w` has none of its own at either end. */
  ghost predicate Padded(s: string, w: string) {
    && (exists before, after :: s == before + w + after && AllSpace(before) && AllSpace(after))
    && (w != [] ==> !IsSpace(w[0]) && !IsSpace(w[|w| - 1]))
  }

  lemma {:induction false} TrimLeftCuts(s: string) returns (before: string)
    ensures s == before + TrimLeft(s) && AllSpace(before)
    ensures TrimLeft(s) != [] ==> !IsSpace(TrimLeft(s)[0])
  {
    if s != [] && IsSpace(s[0]) {
      var rest := TrimLeftCuts(s[1..]);
      before := [s[0]] + rest;
      assert s == [s[0]] + s[1..];
    } else {
      before := [];
    }
  }

  lemma {:induction false} TrimRightCuts(s: string) returns (after: string)
    ensures s == TrimRight(s) + after && AllSpace(after)
    ensures TrimRight(s) != [] ==> !IsSpace(TrimRight(s)[|TrimRight(s)| - 1])
  {
    if s != [] && IsSpace(s[|s| - 1]) {
      var rest := TrimRightCuts(s[..|s| - 1]);
      after := rest + [s[|s| - 1]];
      assert s == s[..|s| - 1] + [s[|s| - 1]];
    } else {
      after := [];
    }
  }

  lemma {:induction false} TrimLeftOf(before: string, s: string)
    requires AllSpace(before) && (s != [] ==> !IsSpace(s[0]))
    ensures TrimLeft(before + s) == s
  {
    if before == [] {
      assert [] + s == s;
    } else {
      assert (before + s)[1..] == before[1..] + s;
      TrimLeftOf(before[1..], s);
    }
  }

  lemma {:induction false} TrimRightOf(s: string, after: string)
    requires AllSpace(after) && (s != [] ==> !IsSpace(s[|s| - 1]))
    ensures TrimRight(s + after) == s
  {
    if after == [] {
      assert s + [] == s;
    } else {
      var n := |after| - 1;
      assert (s + after)[..|s + after| - 1] == s + after[..n];
      TrimRightOf(s, after[..n]);
    }
  }

  /** strings.TrimSpace gives `w` exactly for what is `w` with white space around it. */
  lemma TrimSpaceIff(s: string, w: string)
    ensures TrimSpace(s) == w <==> Padded(s, w)
  {
    if TrimSpace(s) == w {
      var before := TrimLeftCuts(s);
      var after := TrimRightCuts(TrimLeft(s));
      assert s == before + w + after;
      assert w != [] ==> w[0] == TrimLeft(s)[0];
    }
    if Padded(s, w) {
      var before, after :| s == before + w + after && AllSpace(before) && AllSpace(after);
      if w == [] {
        assert s == before + after + [] && AllSpace(before + after);
        TrimLeftOf(before + after, []);
      } else {
        assert s == before + (w + after);
        TrimLeftOf(before, w + after);
        TrimRightOf(w, after);
      }
    }
  }

  predicate SidecarMatches(d: Disk, want: string) {
    d.sidecar.Some? && TrimSpace(d.sidecar.value) == want
  }

  /** A write at an offset of a file another process may have truncated: the gap reads as NUL. */
  function Overlay(content: string, offset: nat, data: string): string {
    if data == [] then content
    else
      var head := if offset <= |content| then content[..offset]
                  else content + seq(offset - |content|, i => '\0');
      var tail := if offset + |data| <= |content| then content[offset + |data|..] else [];
      head + data + tail
  }

  // ---------------------------------------------------------------- processes

  datatype Pc =
    | Begin                          // about to fetch the manifest
    | Known                          // knows the expected sum, about to look at the cache
    | Statted                        // the archive exists, about to read the sidecar
    | Missed                         // about to download
    | Decoded(raw: Bytes)            // checksum matched and the body decoded
    | Writing(raw: Bytes, n: nat)    // n bytes are in the temporary file
    | Renamed                        // the archive is installed, about to open the sidecar
    | SidecarOpen(n: nat)            // truncated it and wrote n characters
    | Printing(known: bool)          // about to emit
    | Done

  datatype Proc = Proc(want: string, force: bool, pc: Pc)

  /** The flags printed by one process, with the archive they pointed at; no sum when it ran offline. */
  datatype Emission = Emission(want: Option<string>, archive: Option<Bytes>)

  datatype State = State(disk: Disk, procs: map<nat, Proc>, emissions: seq<Emission>)

  datatype Event =
    | Launch(p: nat, want: string, force: bool)
    | ManifestFails(p: nat)
    | ManifestArrives(p: nat)
    | Stat(p: nat)
    | ReadSidecar(p: nat)
    | Download(p: nat, body: Bytes)
    | CreateTemp(p: nat)
    | WriteTemp(p: nat, k: nat)
    | Rename(p: nat)
    | OpenSidecar(p: nat)
    | WriteSidecar(p: nat, k: nat)
    | Emit(p: nat)
    | ReturnError(p: nat)
    | Killed(p: nat)

  predicate Enabled(env: Env, s: State, e: Event) {
    if e.Launch? then e.p !in s.procs && e.p !in s.disk.temps && e.want in env.wants
    else if e.p !in s.procs then false
    else
      var pc := s.procs[e.p].pc;
      match e
      case ManifestFails(_) | ManifestArrives(_) => pc.Begin?
      case Stat(_) => pc.Known?
      case ReadSidecar(_) => pc.Statted?
      case Download(_, _) => pc.Missed?
      case CreateTemp(_) => pc.Decoded? && e.p !in s.disk.temps
      case WriteTemp(_, k) => pc.Writing? && pc.n + k <= |pc.raw| && e.p in s.disk.temps
      case Rename(_) => pc.Writing? && pc.n == |pc.raw| && e.p in s.disk.temps
      case OpenSidecar(_) => pc.Renamed?
      case WriteSidecar(p, k) => pc.SidecarOpen? && pc.n + k <= |SidecarLine(s.procs[p].want)| && s.disk.sidecar.Some?
      case Emit(_) => pc.Printing?
      case ReturnError(_) | Killed(_) => !pc.Done?
  }

  function SidecarLine(want: string): string {
    want + "\n"
  }

  function Move(s: State, d: Disk, p: nat, pc: Pc): State
    requires p in s.procs
  {
    s.(disk := d, procs := s.procs[p := s.procs[p].(pc := pc)])
  }

  function Step(env: Env, s: State, e: Event): State
    requires Enabled(env, s, e)
  {
    var d := s.disk;
    match e
    case Launch(p, want, force) => s.(procs := s.procs[p := Proc(want, force, Begin)])
    case ManifestFails(p) =>
      Move(s, d, p, if !s.procs[p].force && d.archive.Some? then Printing(false) else Done)
    case ManifestArrives(p) => Move(s, d, p, Known)
    case Stat(p) => Move(s, d, p, if !s.procs[p].force && d.archive.Some? then Statted else Missed)
    case ReadSidecar(p) => Move(s, d, p, if SidecarMatches(d, s.procs[p].want) then Printing(true) else Missed)
    case Download(p, body) =>
      Move(s, d, p, if env.sha(body) == s.procs[p].want && env.unz(body).Some? then Decoded(env.unz(body).value)
                    else Done)
    case CreateTemp(p) => Move(s, d.(temps := d.temps[p := []]), p, Writing(s.procs[p].pc.raw, 0))
    case WriteTemp(p, k) =>
      var pc := s.procs[p].pc;
      Move(s, d.(temps := d.temps[p := d.temps[p] + pc.raw[pc.n..pc.n + k]]), p, Writing(pc.raw, pc.n + k))
    case Rename(p) => Move(s, d.(archive := Some(d.temps[p]), temps := d.temps - {p}), p, Renamed)
    case OpenSidecar(p) => Move(s, d.(sidecar := Some([])), p, SidecarOpen(0))
    case WriteSidecar(p, k) =>
      var line := SidecarLine(s.procs[p].want);
      var n := s.procs[p].pc.n;
      Move(s, d.(sidecar := Some(Overlay(d.sidecar.value, n, line[n..n + k]))), p,
           if n + k == |line| then Printing(true) else SidecarOpen(n + k))
    case Emit(p) =>
      var known := s.procs[p].pc.known;
      var e := Emission(if known then Some(s.procs[p].want) else None, d.archive);
      Move(s, d, p, Done).(emissions := s.emissions + [e])
    case ReturnError(p) => Move(s, d.(temps := d.temps - {p}), p, Done)
    case Killed(p) => Move(s, d, p, Done)
  }

  /** The state a run of events leads to, if each is possible in its turn. */
  function After(env: Env, s: State, events: seq<Event>): Option<State>
    decreases |events|
  {
    if events == [] then Some(s)
    else
      var last := events[|events| - 1];
      var m := After(env, s, events[..|events| - 1]);
      if m.Some? && Enabled(env, m.value, last) then Some(Step(env, m.value, last)) else None
  }

  const EMPTY := State(Disk(None, None, map[]), map[], [])

  /** `u` is a state some run from the empty directory reaches. */
  ghost predicate Reaches(env: Env, events: seq<Event>, u: State) {
    After(env, EMPTY, events) == Some(u)
  }

  // ---------------------------------------------------------------- integrity

  ghost predicate Installable(env: Env, raw: Bytes) {
    exists w :: w in env.wants && Verified(env, w, raw)
  }

  ghost predicate ProcOk(env: Env, d: Disk, p: nat, q: Proc) {
    && q.want in env.wants
    && (q.pc.Statted? || q.pc.Renamed? || q.pc.SidecarOpen? || q.pc.Printing? ==> d.archive.Some?)
    && (q.pc.Decoded? || q.pc.Writing? ==> Verified(env, q.want, q.pc.raw))
    && (q.pc.Writing? ==> q.pc.n <= |q.pc.raw| && p in d.temps && d.temps[p] == q.pc.raw[..q.pc.n])
  }

  ghost predicate EmissionOk(env: Env, e: Emission) {
    && e.archive.Some?
    && Installable(env, e.archive.value)
    && (e.want.Some? ==> e.want.value in env.wants)
  }

  ghost predicate Inv(env: Env, s: State) {
    && (s.disk.archive.Some? ==> Installable(env, s.disk.archive.value))
    && (forall p :: p in s.procs ==> ProcOk(env, s.disk, p, s.procs[p]))
    && (forall e :: e in s.emissions ==> EmissionOk(env, e))
  }

  lemma StepKeeps(env: Env, s: State, e: Event)
    requires Inv(env, s) && Enabled(env, s, e)
    ensures Inv(env, Step(env, s, e))
  {
    var t := Step(env, s, e);
    if !e.Launch? {
      assert ProcOk(env, s.disk, e.p, s.procs[e.p]);
    }
    if e.Rename? {
      var raw := s.procs[e.p].pc.raw;
      assert raw[..|raw|] == raw;
    }
    forall p | p in t.procs
      ensures ProcOk(env, t.disk, p, t.procs[p])
    {
      if p != e.p {
        assert ProcOk(env, s.disk, p, s.procs[p]);
      }
    }
  }

  lemma {:induction false} RunKeeps(env: Env, s: State, events: seq<Event>)
    requires Inv(env, s)
    ensures After(env, s, events).Some? ==> Inv(env, After(env, s, events).value)
    decreases |events|
  {
    if events != [] && After(env, s, events).Some? {
      RunKeeps(env, s, events[..|events| - 1]);
      StepKeeps(env, After(env, s, events[..|events| - 1]).value, events[|events| - 1]);
    }
  }

  /** However runs interleave and wherever they are killed, the archive is absent or the complete
      decompression of a checksummed asset, and flags are printed only when it is present. */
  lemma ArchiveIsWhole(env: Env, events: seq<Event>, u: State)
    requires Reaches(env, events, u)
    ensures u.disk.archive.Some? ==> Installable(env, u.disk.archive.value)
    ensures forall e :: e in u.emissions ==> e.archive.Some? && Installable(env, e.archive.value)
  {
    RunKeeps(env, EMPTY, events);
    assert forall e :: e in u.emissions ==> EmissionOk(env, e);
  }

  // ---------------------------------------------------------------- one sum, several sums

  /** Flags printed by a process that knew its sum point at the archive of that sum. */
  ghost predicate EmissionsSound(env: Env, s: State) {
    forall e :: e in s.emissions && e.want.Some? ==> e.archive.Some? && Verified(env, e.want.value, e.archive.value)
  }

  /** A directory with one expected checksum: the archive is always the one that was verified, and
      every set of flags printed, cache hit or not, online or off, points at it. */
  lemma OneSumIsSafe(env: Env, sum: string, events: seq<Event>, u: State)
    requires env.wants == {sum} && Reaches(env, events, u)
    ensures u.disk.archive.Some? ==> Verified(env, sum, u.disk.archive.value)
    ensures forall e :: e in u.emissions ==> e.archive.Some? && Verified(env, sum, e.archive.value)
    ensures EmissionsSound(env, u)
  {
    RunKeeps(env, EMPTY, events);
    assert forall e :: e in u.emissions ==> EmissionOk(env, e);
  }

  /** All the sums used with one directory stand for the same archives: what one of them verifies, every
      other with an asset verifies too. Free of collisions, that is one archive for all of them. */
  ghost predicate Agree(env: Env) {
    forall v, w, raw :: v in env.wants && w in env.wants && Verified(env, v, raw) && IsPublished(env, w) ==>
      Verified(env, w, raw)
  }

  // ---------------------------------------------------------------- runs that never overlap

  ghost predicate Quiet(s: State) {
    forall p :: p in s.procs ==> s.procs[p].pc.Done?
  }

  /** No process starts before the previous one returned or was killed. */
  ghost predicate OneAtATime(env: Env, from: State, events: seq<Event>)
    decreases |events|
  {
    events == []
    || var n := |events| - 1;
       && OneAtATime(env, from, events[..n])
       && (events[n].Launch? ==> After(env, from, events[..n]).Some? && Quiet(After(env, from, events[..n]).value))
  }

  /** A run so far: the events that led from one state to another. In a run that is `alone` no two
      processes overlap. */
  datatype Trace = Trace(alone: bool, from: State, events: seq<Event>, now: State)

  ghost predicate IsTrace(env: Env, tr: Trace) {
    After(env, tr.from, tr.events) == Some(tr.now) && (tr.alone ==> OneAtATime(env, tr.from, tr.events))
  }

  ghost predicate Sequential(env: Env, tr: Trace) {
    IsTrace(env, tr) && tr.alone
  }

  /** `more` continues `tr` and ends in `now`. */
  ghost predicate Leads(env: Env, tr: Trace, more: Trace, now: State) {
    IsTrace(env, more) && more.alone == tr.alone && more.from == tr.from && more.now == now
  }

  lemma Extend(env: Env, tr: Trace, e: Event) returns (more: Trace)
    requires IsTrace(env, tr) && Enabled(env, tr.now, e) && (e.Launch? && tr.alone ==> Quiet(tr.now))
    ensures Leads(env, tr, more, Step(env, tr.now, e))
  {
    more := Trace(tr.alone, tr.from, tr.events + [e], Step(env, tr.now, e));
    assert more.events[..|tr.events|] == tr.events;
  }

  ghost predicate CanLaunch(env: Env, tr: Trace, p: nat, want: string) {
    && (tr.alone ==> Quiet(tr.now))
    && p !in tr.now.procs && p !in tr.now.disk.temps && want in env.wants
  }

  predicate IsHit(d: Disk, want: string, force: bool) {
    !force && d.archive.Some? && SidecarMatches(d, want)
  }

  /** An online run up to the look at the archive. */
  lemma StatArchive(env: Env, tr: Trace, p: nat, want: string, force: bool) returns (more: Trace)
    requires IsTrace(env, tr) && CanLaunch(env, tr, p, want)
    ensures var pc := if !force && tr.now.disk.archive.Some? then Statted else Missed;
            Leads(env, tr, more, tr.now.(procs := tr.now.procs[p := Proc(want, force, pc)]))
  {
    more := Extend(env, tr, Launch(p, want, force));
    more := Extend(env, more, ManifestArrives(p));
    more := Extend(env, more, Stat(p));
  }

  /** An online run up to the outcome of the cache lookup. */
  lemma Lookup(env: Env, tr: Trace, p: nat, want: string, force: bool) returns (more: Trace)
    requires IsTrace(env, tr) && CanLaunch(env, tr, p, want)
    ensures var pc := if IsHit(tr.now.disk, want, force) then Printing(true) else Missed;
            Leads(env, tr, more, tr.now.(procs := tr.now.procs[p := Proc(want, force, pc)]))
  {
    more := StatArchive(env, tr, p, want, force);
    if !force && tr.now.disk.archive.Some? {
      more := Extend(env, more, ReadSidecar(p));
    }
  }

  /** A run without a manifest: it settles for any archive present. */
  lemma Offline(env: Env, tr: Trace, p: nat, want: string, force: bool) returns (more: Trace)
    requires IsTrace(env, tr) && CanLaunch(env, tr, p, want)
    ensures var emitted := if !force && tr.now.disk.archive.Some? then [Emission(None, tr.now.disk.archive)] else [];
            Leads(env, tr, more, State(tr.now.disk, tr.now.procs[p := Proc(want, force, Done)],
                                       tr.now.emissions + emitted))
  {
    more := Extend(env, tr, Launch(p, want, force));
    more := Extend(env, more, ManifestFails(p));
    if !force && tr.now.disk.archive.Some? {
      more := Extend(env, more, Emit(p));
    }
  }

  lemma OpenTemp(env: Env, tr: Trace, p: nat, raw: Bytes) returns (more: Trace)
    requires IsTrace(env, tr) && p !in tr.now.disk.temps
    requires p in tr.now.procs && tr.now.procs[p].pc == Decoded(raw)
    ensures var d := tr.now.disk.(temps := tr.now.disk.temps[p := []]);
            Leads(env, tr, more, Move(tr.now, d, p, Writing(raw, 0)))
  {
    more := Extend(env, tr, CreateTemp(p));
  }

  /** `n` bytes of the archive are in a temporary file. */
  lemma FillTemp(env: Env, tr: Trace, p: nat, raw: Bytes, n: nat) returns (more: Trace)
    requires IsTrace(env, tr) && p !in tr.now.disk.temps && n <= |raw|
    requires p in tr.now.procs && tr.now.procs[p].pc == Decoded(raw)
    ensures var d := tr.now.disk.(temps := tr.now.disk.temps[p := raw[..n]]);
            Leads(env, tr, more, Move(tr.now, d, p, Writing(raw, n)))
  {
    more := OpenTemp(env, tr, p, raw);
    assert [] + raw[0..0 + n] == raw[..n];
    more := Extend(env, more, WriteTemp(p, n));
  }

  /** decompressToFile, when every call succeeds. */
  lemma Unpack(env: Env, tr: Trace, p: nat, raw: Bytes) returns (more: Trace)
    requires IsTrace(env, tr) && p !in tr.now.disk.temps
    requires p in tr.now.procs && tr.now.procs[p].pc == Decoded(raw)
    ensures Leads(env, tr, more, Move(tr.now, tr.now.disk.(archive := Some(raw)), p, Renamed))
  {
    more := FillTemp(env, tr, p, raw, |raw|);
    assert raw[..|raw|] == raw;
    more := Extend(env, more, Rename(p));
    assert more.now.disk.temps == tr.now.disk.temps;
  }

  /** Giving up: the deferred Remove takes the temporary file away, if there is one. */
  lemma GiveUp(env: Env, tr: Trace, p: nat) returns (more: Trace)
    requires IsTrace(env, tr) && p in tr.now.procs && !tr.now.procs[p].pc.Done?
    ensures var d := tr.now.disk.(temps := tr.now.disk.temps - {p});
            Leads(env, tr, more, Move(tr.now, d, p, Done))
  {
    more := Extend(env, tr, ReturnError(p));
  }

  /** Writing the sidecar; `n` characters make it to the disk. */
  lemma StoreLine(env: Env, tr: Trace, p: nat, n: nat) returns (more: Trace)
    requires IsTrace(env, tr) && p in tr.now.procs && tr.now.procs[p].pc == Renamed
    requires n <= |SidecarLine(tr.now.procs[p].want)|
    ensures var line := SidecarLine(tr.now.procs[p].want);
            Leads(env, tr, more, Move(tr.now, tr.now.disk.(sidecar := Some(line[..n])), p,
                                      if n == |line| then Printing(true) else SidecarOpen(n)))
  {
    var line := SidecarLine(tr.now.procs[p].want);
    more := Extend(env, tr, OpenSidecar(p));
    assert more.now.procs[p].pc == SidecarOpen(0);
    more := Extend(env, more, WriteSidecar(p, n));
    assert line[0..0 + n] == line[..n];
    assert Overlay([], 0, line[..n]) == line[..n];
  }

  /** `p` installs the asset of `w`, up to the rename. */
  lemma InstallAsset(env: Env, tr: Trace, p: nat, w: string, a: Bytes) returns (more: Trace)
    requires IsTrace(env, tr) && CanLaunch(env, tr, p, w) && !IsHit(tr.now.disk, w, false)
    requires env.sha(a) == w && env.unz(a).Some?
    ensures var s := tr.now;
            Leads(env, tr, more, s.(disk := s.disk.(archive := env.unz(a)),
                                    procs := s.procs[p := Proc(w, false, Renamed)]))
  {
    more := Lookup(env, tr, p, w, false);
    more := Extend(env, more, Download(p, a));
    more := Unpack(env, more, p, env.unz(a).value);
  }

  lemma HexSumTrims(sum: string)
    requires IsHexSum(sum)
    ensures TrimSpace(SidecarLine(sum)) == sum
  {
    var line := SidecarLine(sum);
    assert sum[0] in sum && sum[63] in sum;
    assert line[0] == sum[0] && TrimLeft(line) == line;
    assert line[..64] == sum;
    assert TrimRight(sum) == sum;
  }

  /** The ASCII characters a text editor or a checkout may leave around a sum. */
  predicate IsAsciiSpace(s: string) {
    forall i :: 0 <= i < |s| ==> s[i] == ' ' || s[i] == '\t' || s[i] == '\n' || s[i] == '\r'
  }

  lemma SumInSpaceTrims(before: string, sum: string, after: string)
    requires IsHexSum(sum) && IsAsciiSpace(before) && IsAsciiSpace(after)
    ensures TrimSpace(before + sum + after) == sum
  {
    assert sum[0] in sum && sum[63] in sum;
    assert AllSpace(before) && AllSpace(after);
    var s := before + sum + after;
    assert Padded(s, sum);
    TrimSpaceIff(s, sum);
  }

  /** A kill takes nothing back: the files are as the process left them, its temporary one included. */
  lemma KillLeavesDisk(env: Env, s: State, p: nat)
    requires p in s.procs && !s.procs[p].pc.Done?
    ensures Enabled(env, s, Killed(p)) && Step(env, s, Killed(p)).disk == s.disk
    ensures Step(env, s, Killed(p)).emissions == s.emissions
  {
  }

  // ---------------------------------------------------------------- the run that breaks it

  /** A first, complete run. */
  lemma FirstInstall(env: Env, v: string, a: Bytes) returns (tr: Trace)
    requires v in env.wants && env.sha(a) == v && env.unz(a).Some?
    ensures Sequential(env, tr) && tr.from == EMPTY && tr.now.emissions == [Emission(Some(v), env.unz(a))]
    ensures tr.now.disk == Disk(env.unz(a), Some(SidecarLine(v)), map[])
    ensures tr.now.procs == map[0 := Proc(v, false, Done)]
  {
    tr := InstallAsset(env, Trace(true, EMPTY, [], EMPTY), 0, v, a);
    var line := SidecarLine(v);
    tr := StoreLine(env, tr, 0, |line|);
    assert line[..|line|] == line;
    tr := Extend(env, tr, Emit(0));
  }

  /** Two sums in one directory, the archive of w not one of v's: v is installed, the run for w is killed
      between its rename and its sidecar, and the next run for v takes w's archive as a cache hit. */
  lemma TwoSumsBreak(env: Env, v: string, w: string, a: Bytes, b: Bytes) returns (tr: Trace)
    requires HexSums(env) && v in env.wants && w in env.wants
    requires env.sha(a) == v && env.sha(b) == w && env.unz(a).Some? && env.unz(b).Some?
    requires !Verified(env, v, env.unz(b).value)
    ensures tr.from == EMPTY && Sequential(env, tr) && !EmissionsSound(env, tr.now)
  {
    HexSumTrims(v);
    tr := FirstInstall(env, v, a);
    tr := InstallAsset(env, tr, 1, w, b);
    tr := Extend(env, tr, Killed(1));
    tr := Lookup(env, tr, 2, v, false);
    tr := Extend(env, tr, Emit(2));
    var e := tr.now.emissions[1];
    assert e in tr.now.emissions && e == Emission(Some(v), env.unz(b));
  }

  // ---------------------------------------------------------------- whole runs of the program

  /** `p` is done, having printed `emitted`. */
  function Settled(s: State, d: Disk, p: nat, emitted: seq<Emission>): State
    requires p in s.procs
  {
    Move(s, d, p, Done).(emissions := s.emissions + emitted)
  }

  lemma NoTemp(d: Disk, p: nat)
    requires p !in d.temps
    ensures d.(temps := d.temps - {p}) == d
  {
    assert d.temps - {p} == d.temps;
  }

  /** The end of a run after the rename: how far writing the sidecar came decides what is printed. */
  lemma StoreRun(env: Env, tr: Trace, p: nat, opens: bool, n: nat) returns (more: Trace)
    requires IsTrace(env, tr) && p in tr.now.procs && tr.now.procs[p].pc == Renamed && p !in tr.now.disk.temps
    requires n <= |SidecarLine(tr.now.procs[p].want)|
    ensures var line := SidecarLine(tr.now.procs[p].want);
            var d := if opens then tr.now.disk.(sidecar := Some(line[..n])) else tr.now.disk;
            var printed := if opens && n == |line| then [Emission(Some(tr.now.procs[p].want), d.archive)] else [];
            Leads(env, tr, more, Settled(tr.now, d, p, printed))
  {
    NoTemp(tr.now.disk, p);
    if !opens {
      more := GiveUp(env, tr, p);
    } else {
      more := StoreLine(env, tr, p, n);
      if n == |SidecarLine(tr.now.procs[p].want)| {
        more := Extend(env, more, Emit(p));
      } else {
        more := GiveUp(env, more, p);
      }
    }
  }

  /** The end of a run after a cache miss, up to the decoded body. */
  lemma DownloadRun(env: Env, tr: Trace, p: nat, body: Option<Bytes>) returns (more: Trace)
    requires IsTrace(env, tr) && p in tr.now.procs && tr.now.procs[p].pc == Missed && p !in tr.now.disk.temps
    ensures body.Some? && env.sha(body.value) == tr.now.procs[p].want && env.unz(body.value).Some? ==>
              Leads(env, tr, more, Move(tr.now, tr.now.disk, p, Decoded(env.unz(body.value).value)))
    ensures !(body.Some? && env.sha(body.value) == tr.now.procs[p].want && env.unz(body.value).Some?) ==>
              Leads(env, tr, more, Settled(tr.now, tr.now.disk, p, []))
  {
    NoTemp(tr.now.disk, p);
    if body.None? {
      more := GiveUp(env, tr, p);
    } else {
      more := Extend(env, tr, Download(p, body.value));
    }
  }

  /** A cache hit. */
  lemma HitRun(env: Env, tr: Trace, p: nat, want: string) returns (more: Trace)
    requires IsTrace(env, tr) && CanLaunch(env, tr, p, want) && IsHit(tr.now.disk, want, false)
    ensures Leads(env, tr, more, State(tr.now.disk, tr.now.procs[p := Proc(want, false, Done)],
                                       tr.now.emissions + [Emission(Some(want), tr.now.disk.archive)]))
  {
    more := Lookup(env, tr, p, want, false);
    more := Extend(env, more, Emit(p));
  }

  // ---------------------------------------------------------------- the program

  /** What the network and the file system answer one run: which calls succeed, how much a write takes. */
  datatype Outside = Outside(manifest: bool, body: Option<Bytes>, mkdir: bool, temp: bool, written: nat,
                             installed: bool, sideOpens: bool, line: nat)

  /** An archive is there, and the sidecar is the sum with nothing but white space around it. */
  ghost predicate Hit(d: Disk, want: string, force: bool) {
    !force && d.archive.Some? && d.sidecar.Some? && Padded(d.sidecar.value, want)
  }

  lemma HitIs(d: Disk, want: string, force: bool)
    ensures Hit(d, want, force) <==> IsHit(d, want, force)
  {
    if d.sidecar.Some? {
      TrimSpaceIff(d.sidecar.value, want);
    }
  }

  predicate BodyOk(io: Outside, want: string, sha: Bytes -> string, unz: Bytes -> Option<Bytes>) {
    io.body.Some? && sha(io.body.value) == want && unz(io.body.value).Some?
  }

  predicate Unpacks(io: Outside, raw: Bytes) {
    io.mkdir && io.temp && io.written >= |raw| && io.installed
  }

  /** The directory after a run tried to install `raw`. */
  function Attempted(d: Disk, want: string, raw: Bytes, io: Outside): Disk {
    if !Unpacks(io, raw) then d
    else if !io.sideOpens then d.(archive := Some(raw))
    else
      var line := want + "\n";
      d.(archive := Some(raw), sidecar := Some(if io.line < |line| then line[..io.line] else line))
  }

  /** Did a run that reached the decoded body install it and print? */
  predicate Installs(io: Outside, want: string, raw: Bytes) {
    Unpacks(io, raw) && io.sideOpens && io.line >= |want| + 1
  }

  /** The rest of a run, from the decoded body on. */
  lemma InstallRun(env: Env, tr: Trace, p: nat, raw: Bytes, io: Outside) returns (more: Trace)
    requires IsTrace(env, tr) && p !in tr.now.disk.temps
    requires p in tr.now.procs && tr.now.procs[p].pc == Decoded(raw)
    ensures var want := tr.now.procs[p].want;
            var d := Attempted(tr.now.disk, want, raw, io);
            Leads(env, tr, more,
                  Settled(tr.now, d, p, if Installs(io, want, raw) then [Emission(Some(want), d.archive)] else []))
  {
    if !Unpacks(io, raw) {
      NoTemp(tr.now.disk, p);
      more := GiveUp(env, tr, p);
    } else {
      var line := SidecarLine(tr.now.procs[p].want);
      more := Unpack(env, tr, p, raw);
      more := StoreRun(env, more, p, io.sideOpens, if io.line < |line| then io.line else |line|);
      assert line[..|line|] == line;
    }
  }

  class CacheDir {
    var archive: Option<Bytes>
    var sidecar: Option<string>
    var temps: map<nat, Bytes>

    ghost function Contents(): Disk
      reads this
    {
      Disk(archive, sidecar, temps)
    }

    /** decompressToFile, once the body has decoded: installs all of `raw` or changes nothing. */
    method DecompressToFile(p: nat, raw: Bytes, io: Outside) returns (ok: bool)
      requires p !in temps
      modifies this
      ensures ok <==> io.temp && io.written >= |raw| && io.installed
      ensures Contents() == old(Contents()).(archive := if ok then Some(raw) else old(archive))
    {
      if !io.temp {
        return false;
      }
      temps := temps[p := []];
      var n := if io.written < |raw| then io.written else |raw|;
      temps := temps[p := temps[p] + raw[..n]];
      if n < |raw| || !io.installed {
        temps := temps - {p};
        assert temps == old(temps);
        return false;
      }
      assert temps[p] == raw;
      archive := Some(temps[p]);
      temps := temps - {p};
      assert temps == old(temps);
      return true;
    }

    /** os.WriteFile on the sidecar: it may not open, or stop part way. */
    method StoreSum(want: string, io: Outside) returns (ok: bool)
      modifies this`sidecar
      ensures ok <==> io.sideOpens && io.line >= |want| + 1
      ensures sidecar == if !io.sideOpens then old(sidecar)
                         else Some(if io.line < |want| + 1 then (want + "\n")[..io.line] else want + "\n")
    {
      if !io.sideOpens {
        return false;
      }
      sidecar := Some([]);
      var line := SidecarLine(want);
      var n := if io.line < |line| then io.line else |line|;
      sidecar := Some(sidecar.value + line[..n]);
      assert sidecar.value == line[..n];
      assert line[..|line|] == line;
      return n == |line|;
    }

    /** cachedMatches */
    method CachedMatches(want: string) returns (hit: bool)
      ensures hit <==> archive.Some? && sidecar.Some? && Padded(sidecar.value, want)
    {
      if archive.None? || sidecar.None? {
        return false;
      }
      TrimSpaceIff(sidecar.value, want);
      return TrimSpace(sidecar.value) == want;
    }

    /** fetch after the download. */
    method Install(p: nat, want: string, raw: Bytes, io: Outside, ghost env: Env, ghost tr: Trace)
      returns (ok: bool, ghost more: Trace)
      requires IsTrace(env, tr) && tr.now.disk == Contents() && p !in temps
      requires p in tr.now.procs && tr.now.procs[p].want == want && tr.now.procs[p].pc == Decoded(raw)
      modifies this
      ensures Leads(env, tr, more, Settled(tr.now, Contents(), p, if ok then [Emission(Some(want), archive)] else []))
      ensures ok <==> Unpacks(io, raw) && io.sideOpens && io.line >= |want| + 1
      ensures Contents() == Attempted(old(Contents()), want, raw, io)
      ensures ok ==> sidecar == Some(SidecarLine(want))
    {
      more := InstallRun(env, tr, p, raw, io);
      ok := io.mkdir;
      if ok {
        ok := DecompressToFile(p, raw, io);
      }
      if ok {
        ok := StoreSum(want, io);
      }
    }

    /** fetch after a cache miss. */
    method Acquire(p: nat, want: string, io: Outside, sha: Bytes -> string, unz: Bytes -> Option<Bytes>,
                   ghost env: Env, ghost tr: Trace)
      returns (ok: bool, ghost more: Trace)
      requires env.sha == sha && env.unz == unz && HexSums(env)
      requires IsTrace(env, tr) && tr.now.disk == Contents() && p !in temps
      requires p in tr.now.procs && tr.now.procs[p].want == want && tr.now.procs[p].pc == Missed
      modifies this
      ensures Leads(env, tr, more, Settled(tr.now, Contents(), p, if ok then [Emission(Some(want), archive)] else []))
      ensures ok <==> BodyOk(io, want, sha, unz) && Unpacks(io, unz(io.body.value).value) &&
                      io.sideOpens && io.line >= |want| + 1
      ensures Contents() == if BodyOk(io, want, sha, unz)
                            then Attempted(old(Contents()), want, unz(io.body.value).value, io) else old(Contents())
      ensures ok ==> archive.Some? && Verified(env, want, archive.value) && sidecar == Some(SidecarLine(want))
      ensures ok ==> IsHexSum(want)
      ensures archive == old(archive) || (archive.Some? && Verified(env, want, archive.value))
      ensures temps == old(temps)
    {
      more := DownloadRun(env, tr, p, io.body);
      if io.body.None? {
        return false, more;
      }
      var body := io.body.value;
      if sha(body) != want || unz(body).None? {
        return false, more;
      }
      ok, more := Install(p, want, unz(body).value, io, env, more);
    }

    /** fetch with a manifest, when the cache lookup fails or is skipped. */
    method FetchMissing(p: nat, want: string, force: bool, io: Outside, sha: Bytes -> string,
                        unz: Bytes -> Option<Bytes>, ghost env: Env, ghost tr: Trace)
      returns (ok: bool, ghost more: Trace)
      requires env.sha == sha && env.unz == unz && HexSums(env) && !IsHit(Contents(), want, force)
      requires IsTrace(env, tr) && tr.now.disk == Contents() && CanLaunch(env, tr, p, want)
      modifies this
      ensures Leads(env, tr, more, State(Contents(), tr.now.procs[p := Proc(want, force, Done)],
                                         tr.now.emissions + if ok then [Emission(Some(want), archive)] else []))
      ensures ok <==> BodyOk(io, want, sha, unz) && Unpacks(io, unz(io.body.value).value) &&
                      io.sideOpens && io.line >= |want| + 1
      ensures Contents() == if BodyOk(io, want, sha, unz)
                            then Attempted(old(Contents()), want, unz(io.body.value).value, io) else old(Contents())
      ensures ok ==> archive.Some? && Verified(env, want, archive.value) && SidecarMatches(Contents(), want)
    {
      more := Lookup(env, tr, p, want, force);
      ok, more := Acquire(p, want, io, sha, unz, env, more);
      if ok {
        HexSumTrims(want);
      }
    }

    /** fetch with a manifest. */
    method FetchOnline(p: nat, want: string, force: bool, io: Outside, sha: Bytes -> string,
                       unz: Bytes -> Option<Bytes>, ghost env: Env, ghost tr: Trace)
      returns (ok: bool, ghost more: Trace)
      requires env.sha == sha && env.unz == unz && HexSums(env)
      requires IsTrace(env, tr) && tr.now.disk == Contents() && CanLaunch(env, tr, p, want)
      modifies this
      ensures Leads(env, tr, more, State(Contents(), tr.now.procs[p := Proc(want, force, Done)],
                                         tr.now.emissions + if ok then [Emission(Some(want), archive)] else []))
      ensures ok <==> old(IsHit(Contents(), want, force)) ||
                      (BodyOk(io, want, sha, unz) && Unpacks(io, unz(io.body.value).value) &&
                       io.sideOpens && io.line >= |want| + 1)
      ensures Contents() == if old(IsHit(Contents(), want, force)) || !BodyOk(io, want, sha, unz) then old(Contents())
                            else Attempted(old(Contents()), want, unz(io.body.value).value, io)
      ensures ok ==> SidecarMatches(Contents(), want)
    {
      HitIs(Contents(), want, force);
      var hit := false;
      if !force {
        hit := CachedMatches(want);
      }
      if hit {
        more := HitRun(env, tr, p, want);
        return true, more;
      }
      ok, more := FetchMissing(p, want, force, io, sha, unz, env, tr);
    }

    /** fetch, undisturbed by other processes: it is one process of the interleaved machine, and this is
        exactly when it succeeds and what it leaves behind. Offline it settles for any archive; a hit is an
        archive beside a sidecar that is the sum within white space; otherwise it installs the archive of
        the checksummed body, and a failure after the rename leaves the new archive under an old or partial
        sidecar. After a success online the next run is a cache hit. */
    method Fetch(p: nat, want: string, force: bool, io: Outside, sha: Bytes -> string, unz: Bytes -> Option<Bytes>,
                 ghost env: Env)
      returns (ok: bool, ghost more: Trace)
      requires env.sha == sha && env.unz == unz && HexSums(env) && want in env.wants && p !in temps
      modifies this
      ensures Sequential(env, more) && more.from == State(old(Contents()), map[], [])
      ensures more.now == State(Contents(), map[p := Proc(want, force, Done)],
                                if ok then [Emission(if io.manifest then Some(want) else None, archive)] else [])
      ensures !io.manifest ==> Contents() == old(Contents()) && (ok <==> !force && old(archive.Some?))
      ensures io.manifest && Hit(old(Contents()), want, force) ==> ok && Contents() == old(Contents())
      ensures io.manifest && !Hit(old(Contents()), want, force) ==>
                (ok <==>
                  io.body.Some? && sha(io.body.value) == want && unz(io.body.value).Some? &&
                  io.mkdir && io.temp && io.written >= |unz(io.body.value).value| && io.installed &&
                  io.sideOpens && io.line >= |want| + 1)
      ensures io.manifest && !Hit(old(Contents()), want, force) && ok ==>
                archive == unz(io.body.value) && sidecar == Some(want + "\n") && Verified(env, want, archive.value)
      ensures archive != old(archive) ==>
                io.body.Some? && sha(io.body.value) == want && archive == unz(io.body.value)
      ensures io.manifest && !Hit(old(Contents()), want, force) && !ok ==>
                archive == (if io.body.Some? && sha(io.body.value) == want && unz(io.body.value).Some? &&
                               io.mkdir && io.temp && io.written >= |unz(io.body.value).value| && io.installed
                            then unz(io.body.value) else old(archive))
      ensures io.manifest && !Hit(old(Contents()), want, force) && !ok ==>
                sidecar == (if io.body.Some? && sha(io.body.value) == want && unz(io.body.value).Some? &&
                               io.mkdir && io.temp && io.written >= |unz(io.body.value).value| && io.installed &&
                               io.sideOpens && io.line <= |want|
                            then Some((want + "\n")[..io.line]) else old(sidecar))
      ensures temps == old(temps)
      ensures ok ==> archive.Some?
      ensures ok && io.manifest ==> Hit(Contents(), want, false)
    {
      more := Trace(true, State(Contents(), map[], []), [], State(Contents(), map[], []));
      HitIs(Contents(), want, force);
      if !io.manifest {
        more := Offline(env, more, p, want, force);
        return !force && archive.Some?, more;
      }
      ok, more := FetchOnline(p, want, force, io, sha, unz, env, more);
      HitIs(Contents(), want, false);
    }
  }
}
