/** The bounded security log: size-capped generations of lines, and the gate that collapses bursts
    of authentication failures into one line that carries the count. */
module SecurityLog {

  import opened Options
  import opened SecurityLine
  import opened Text

  /** One serialized event: its JSON text (a newline follows it in the file), whether it is an
      authentication failure, when it was emitted, and the suppressed count it carries. */
  datatype Line = Line(text: string, auth: bool, time: nat, suppressed: nat)

  datatype Config = Config(maxBytes: nat, generations: nat, authMinInterval: nat)

  /** `SecurityLog::new` raises a small cap to 256 bytes. */
  function NewConfig(maxBytes: nat, generations: nat, authMinInterval: nat): Config {
    Config(if maxBytes < 256 then 256 else maxBytes, generations, authMinInterval)
  }

  /** The files by generation; 0 is the current file. A missing key is a missing file. */
  type Files = map<nat, seq<Line>>

  function Bytes(l: Line): nat {
    Utf8Size(l.text) + 1
  }

  function Size(f: seq<Line>): nat {
    if f == [] then 0 else Size(f[..|f| - 1]) + Bytes(f[|f| - 1])
  }

  function FileAt(files: Files, n: nat): seq<Line> {
    if n in files then files[n] else []
  }

  // ---- rotation ----------------------------------------------------------------------------

  function Renamed(files: Files, n: nat, m: nat): Files {
    if n in files then (files - {n})[m := files[n]] else files
  }

  /** security.log -> .1 -> ... -> .N, the oldest dropped; files beyond N are not touched. */
  function Rotated(files: Files, generations: nat): Files {
    map n | n in ShiftedKeys(files, generations) :: if n <= generations then files[n - 1] else files[n]
  }

  function ShiftedKeys(files: Files, generations: nat): (keys: set<nat>)
    ensures forall n :: n in keys <==> if n <= generations then n > 0 && n - 1 in files else n in files
  {
    (set n | n in files && n < generations :: n + 1) + (set n | n in files && n > generations)
  }

  function Get(files: Files, n: int): Option<seq<Line>> {
    if n >= 0 && n in files then Some(files[n]) else None
  }

  lemma SameFiles(a: Files, b: Files)
    requires forall k: nat :: Get(a, k) == Get(b, k)
    ensures a == b
  {
    forall k: nat
      ensures k in a <==> k in b
      ensures k in a ==> a[k] == b[k]
    {
      assert Get(a, k) == Get(b, k);
    }
  }

  lemma RotatedAt(files: Files, generations: nat, k: nat)
    ensures Get(Rotated(files, generations), k) == if k <= generations then Get(files, k - 1) else Get(files, k)
  {
  }

  /** What stands at `k` once the generations from `n` up have moved: nothing at `n` itself. */
  function HalfShifted(files: Files, generations: nat, n: nat, k: nat): Option<seq<Line>> {
    if k == n then None
    else if n < k <= generations then Get(files, k - 1)
    else Get(files, k)
  }

  /** Every generation up to the last one holds what the one before it held. */
  ghost predicate ShiftedByOne(files: Files, generations: nat, r: Files) {
    forall k: nat :: ShiftedAt(files, generations, r, k)
  }

  predicate ShiftedAt(files: Files, generations: nat, r: Files, k: nat) {
    Get(r, k) == if k <= generations then Get(files, k - 1) else Get(files, k)
  }

  lemma ShiftedIsRotated(files: Files, generations: nat, r: Files)
    requires ShiftedByOne(files, generations, r)
    ensures r == Rotated(files, generations)
  {
    forall k: nat
      ensures Get(r, k) == Get(Rotated(files, generations), k)
    {
      assert ShiftedAt(files, generations, r, k);
      RotatedAt(files, generations, k);
    }
    SameFiles(r, Rotated(files, generations));
  }

  ghost predicate IsHalfShifted(files: Files, generations: nat, n: nat, r: Files) {
    forall k: nat :: HalfShiftedAt(files, generations, n, r, k)
  }

  predicate HalfShiftedAt(files: Files, generations: nat, n: nat, r: Files, k: nat) {
    Get(r, k) == HalfShifted(files, generations, n, k)
  }

  lemma OneRename(files: Files, generations: nat, n: nat, r: Files)
    requires 1 <= n < generations && IsHalfShifted(files, generations, n + 1, r)
    ensures IsHalfShifted(files, generations, n, Renamed(r, n, n + 1))
  {
    var r' := Renamed(r, n, n + 1);
    forall k: nat
      ensures HalfShiftedAt(files, generations, n, r', k)
    {
      assert HalfShiftedAt(files, generations, n + 1, r, k) && HalfShiftedAt(files, generations, n + 1, r, n);
    }
  }

  lemma LastRename(files: Files, generations: nat, r: Files)
    requires generations >= 1 && IsHalfShifted(files, generations, 1, r)
    ensures ShiftedByOne(files, generations, Renamed(r, 0, 1))
  {
    var r' := Renamed(r, 0, 1);
    forall k: nat
      ensures ShiftedAt(files, generations, r', k)
    {
      assert HalfShiftedAt(files, generations, 1, r, k) && HalfShiftedAt(files, generations, 1, r, 0);
    }
  }

  /** `rotate`, renaming from the oldest generation down. */
  method Rotate(files: Files, generations: nat) returns (r: Files)
    ensures r == Rotated(files, generations)
  {
    if generations == 0 {
      r := files - {0};
      assert forall k: nat :: ShiftedAt(files, 0, files - {0}, k);
    } else {
      r := files - {generations};
      var n := generations;
      while n > 1
        invariant 1 <= n <= generations
        invariant IsHalfShifted(files, generations, n, r)
      {
        n := n - 1;
        OneRename(files, generations, n, r);
        r := Renamed(r, n, n + 1);
      }
      LastRename(files, generations, r);
      r := Renamed(r, 0, 1);
    }
    ShiftedIsRotated(files, generations, r);
  }

  // ---- appending ---------------------------------------------------------------------------

  function Appended(c: Config, files: Files, l: Line): Files {
    var len := Size(FileAt(files, 0));
    var base := if len > 0 && len + Bytes(l) > c.maxBytes then Rotated(files, c.generations) else files;
    base[0 := FileAt(base, 0) + [l]]
  }

  /** Everything kept, oldest line first. */
  function Kept(files: Files, n: nat): seq<Line> {
    if n == 0 then FileAt(files, 0) else FileAt(files, n) + Kept(files, n - 1)
  }

  predicate IsSuffix(a: seq<Line>, b: seq<Line>) {
    |a| <= |b| && b[|b| - |a|..] == a
  }

  lemma FileAfterRotation(files: Files, generations: nat, n: nat)
    requires n <= generations
    ensures FileAt(Rotated(files, generations), n) == if n == 0 then [] else FileAt(files, n - 1)
  {
    RotatedAt(files, generations, n);
  }

  lemma {:induction false} KeptAfterRotation(files: Files, generations: nat, n: nat)
    requires n <= generations
    ensures n == 0 ==> Kept(Rotated(files, generations), n) == []
    ensures n > 0 ==> Kept(Rotated(files, generations), n) == Kept(files, n - 1)
  {
    FileAfterRotation(files, generations, n);
    if n > 0 {
      KeptAfterRotation(files, generations, n - 1);
      if n == 1 {
        assert FileAt(files, 0) + [] == FileAt(files, 0);
      }
    }
  }

  lemma RotationDropsOldest(files: Files, generations: nat)
    ensures Kept(files, generations) == FileAt(files, generations) + Kept(Rotated(files, generations), generations)
  {
    KeptAfterRotation(files, generations, generations);
    if generations == 0 {
      assert FileAt(files, 0) + [] == FileAt(files, 0);
    }
  }

  lemma {:induction false} KeptGrows(files: Files, l: Line, n: nat)
    ensures Kept(files[0 := FileAt(files, 0) + [l]], n) == Kept(files, n) + [l]
  {
    if n > 0 {
      KeptGrows(files, l, n - 1);
    }
  }

  lemma SuffixGrows(oldest: seq<Line>, kept: seq<Line>, whole: seq<Line>, l: Line)
    requires whole == oldest + kept
    ensures IsSuffix(kept + [l], whole + [l])
  {
    assert oldest + (kept + [l]) == whole + [l];
  }

  /** One append loses nothing but the oldest generation, and only when it rotates. */
  lemma {:induction false} AppendKeepsSuffix(c: Config, files: Files, l: Line)
    ensures IsSuffix(Kept(Appended(c, files, l), c.generations), Kept(files, c.generations) + [l])
    ensures Kept(Appended(c, files, l), c.generations) != []
  {
    var n, rotated := c.generations, Rotated(files, c.generations);
    RotationDropsOldest(files, n);
    if Appended(c, files, l) == files[0 := FileAt(files, 0) + [l]] {
      AppendedKeeps(files, files, l, [], n);
    } else {
      AppendedKeeps(files, rotated, l, FileAt(files, n), n);
    }
  }

  lemma {:induction false} AppendedKeeps(files: Files, base: Files, l: Line, oldest: seq<Line>, n: nat)
    requires Kept(files, n) == oldest + Kept(base, n)
    ensures IsSuffix(Kept(base[0 := FileAt(base, 0) + [l]], n), Kept(files, n) + [l])
    ensures Kept(base[0 := FileAt(base, 0) + [l]], n) != []
  {
    KeptGrows(base, l, n);
    SuffixGrows(oldest, Kept(base, n), Kept(files, n), l);
  }

  /** A file within the cap, or holding a single line. */
  predicate Bounded(c: Config, f: seq<Line>) {
    Size(f) <= c.maxBytes || |f| == 1
  }

  lemma EmptyIsEmpty(f: seq<Line>)
    ensures Size(f) == 0 <==> f == []
  {
  }

  lemma AppendKeepsBounds(c: Config, files: Files, l: Line)
    requires AllBounded(c, files)
    ensures AllBounded(c, Appended(c, files, l))
  {
    var files', f := Appended(c, files, l), FileAt(files, 0);
    var rotates := Size(f) > 0 && Size(f) + Bytes(l) > c.maxBytes;
    EmptyIsEmpty(f);
    forall n: nat | n <= c.generations
      ensures Bounded(c, FileAt(files', n))
    {
      if rotates {
        RotatedAt(files, c.generations, n);
        if n == 0 {
          assert FileAt(files', 0) == [l];
        } else {
          assert FileAt(files', n) == FileAt(files, n - 1);
          assert Bounded(c, FileAt(files, n - 1));
        }
      } else if n == 0 {
        assert FileAt(files', 0) == f + [l];
        assert (f + [l])[..|f|] == f;
      } else {
        assert FileAt(files', n) == FileAt(files, n);
      }
    }
  }

  // ---- total disk use ----------------------------------------------------------------------

  function TotalSize(files: Files, n: nat): nat {
    Size(FileAt(files, n)) + if n == 0 then 0 else TotalSize(files, n - 1)
  }

  function Times(m: nat, n: nat): nat {
    if n == 0 then 0 else Times(m, n - 1) + m
  }

  lemma {:induction false} TimesIsProduct(m: nat, n: nat)
    ensures Times(m, n) == m * n
  {
    if n > 0 {
      TimesIsProduct(m, n - 1);
    }
  }

  lemma {:induction false} TotalWithin(c: Config, files: Files, n: nat)
    requires forall k: nat :: k <= n ==> Size(FileAt(files, k)) <= c.maxBytes
    ensures TotalSize(files, n) <= Times(c.maxBytes, n + 1)
  {
    assert Size(FileAt(files, n)) <= c.maxBytes;
    if n > 0 {
      TotalWithin(c, files, n - 1);
    }
  }

  /** No kept line is longer than `max` bytes. */
  ghost predicate LinesWithin(files: Files, generations: nat, max: nat) {
    forall k: nat :: k <= generations ==> FileWithin(FileAt(files, k), max)
  }

  predicate FileWithin(f: seq<Line>, max: nat) {
    forall i :: 0 <= i < |f| ==> Bytes(f[i]) <= max
  }

  ghost predicate AllBounded(c: Config, files: Files) {
    forall n: nat :: n <= c.generations ==> Bounded(c, FileAt(files, n))
  }

  /** Total disk use while no kept line is larger than the cap. */
  lemma TotalBound(c: Config, files: Files)
    requires AllBounded(c, files) && LinesWithin(files, c.generations, c.maxBytes)
    ensures TotalSize(files, c.generations) <= c.maxBytes * (c.generations + 1)
  {
    forall k: nat | k <= c.generations
      ensures Size(FileAt(files, k)) <= c.maxBytes
    {
      assert FileWithin(FileAt(files, k), c.maxBytes) && Bounded(c, FileAt(files, k));
      OverCapExactly(c, FileAt(files, k));
    }
    TotalWithin(c, files, c.generations);
    TimesIsProduct(c.maxBytes, c.generations + 1);
  }

  lemma {:induction false} SizeAtLeastLine(f: seq<Line>, i: nat)
    requires i < |f|
    ensures Size(f) >= Bytes(f[i])
  {
    if i < |f| - 1 {
      SizeAtLeastLine(f[..|f| - 1], i);
    }
  }

  /** The exact condition for the documented per-file cap: a bounded file exceeds it exactly when it
      consists of one line that is larger than the cap by itself. */
  lemma OverCapExactly(c: Config, f: seq<Line>)
    requires Bounded(c, f)
    ensures Size(f) > c.maxBytes <==> exists i :: 0 <= i < |f| && Bytes(f[i]) > c.maxBytes
  {
    if Size(f) > c.maxBytes {
      OneLine(f[0]);
      assert f == [f[0]];
    } else {
      forall i | 0 <= i < |f|
        ensures Bytes(f[i]) <= c.maxBytes
      {
        SizeAtLeastLine(f, i);
      }
    }
  }

  lemma OneLine(l: Line)
    ensures Size([l]) == Bytes(l)
  {
    assert [l][..0] == [];
  }

  // ---- the authentication gate -------------------------------------------------------------

  datatype Gate = Gate(lastEmit: Option<nat>, suppressed: nat)

  /** An event and its serialized form, which depends on the suppressed count it is given. */
  datatype Event = Event(auth: bool, time: nat, render: nat -> string)

  /** `written` is history: every line ever appended. */
  datatype LogState = LogState(files: Files, gate: Gate, written: seq<Line>)

  /** `duration_since` saturates at zero. */
  function Since(now: nat, earlier: nat): nat {
    if now >= earlier then now - earlier else 0
  }

  predicate Suppresses(c: Config, g: Gate, e: Event) {
    e.auth && g.lastEmit.Some? && Since(e.time, g.lastEmit.value) < c.authMinInterval
  }

  function LineFor(g: Gate, e: Event): Line {
    var carried := if e.auth then g.suppressed else 0;
    Line(e.render(carried), e.auth, e.time, carried)
  }

  function Recorded(c: Config, s: LogState, e: Event): LogState {
    if Suppresses(c, s.gate, e) then s.(gate := s.gate.(suppressed := s.gate.suppressed + 1))
    else
      var l := LineFor(s.gate, e);
      LogState(Appended(c, s.files, l), if e.auth then Gate(Some(e.time), 0) else s.gate, s.written + [l])
  }

  function RunLog(c: Config, files: Files, events: seq<Event>): LogState {
    if events == [] then LogState(files, Gate(None, 0), [])
    else Recorded(c, RunLog(c, files, events[..|events| - 1]), events[|events| - 1])
  }

  function AuthLines(ls: seq<Line>): seq<Line> {
    if ls == [] then []
    else AuthLines(ls[..|ls| - 1]) + if ls[|ls| - 1].auth then [ls[|ls| - 1]] else []
  }

  function Carried(ls: seq<Line>): nat {
    if ls == [] then 0 else Carried(ls[..|ls| - 1]) + ls[|ls| - 1].suppressed
  }

  function Failures(events: seq<Event>): nat {
    if events == [] then 0 else Failures(events[..|events| - 1]) + if events[|events| - 1].auth then 1 else 0
  }

  predicate Chronological(events: seq<Event>) {
    forall i, j :: 0 <= i < j < |events| ==> events[i].time <= events[j].time
  }

  lemma {:induction false} IsSuffixExtends(a: seq<Line>, b: seq<Line>, l: Line, d: seq<Line>)
    requires IsSuffix(a, b) && IsSuffix(d, a + [l])
    ensures IsSuffix(d, b + [l])
  {
    assert b + [l] == b[..|b| - |a|] + (a + [l]);
  }

  lemma OneMoreLineKept(c: Config, files: Files, before: seq<Line>, written: seq<Line>, l: Line)
    requires IsSuffix(Kept(files, c.generations), before + written)
    ensures IsSuffix(Kept(Appended(c, files, l), c.generations), before + (written + [l]))
  {
    AppendKeepsSuffix(c, files, l);
    assert before + (written + [l]) == (before + written) + [l];
    IsSuffixExtends(Kept(files, c.generations), before + written, l, Kept(Appended(c, files, l), c.generations));
  }

  /** However long the log runs, what is kept is the end of everything ever written. */
  lemma {:induction false} KeptIsSuffix(c: Config, files: Files, events: seq<Event>)
    ensures var s := RunLog(c, files, events);
      IsSuffix(Kept(s.files, c.generations), Kept(files, c.generations) + s.written)
  {
    var before := Kept(files, c.generations);
    if events == [] {
      assert before + [] == before;
    } else {
      var e := events[|events| - 1];
      var s := RunLog(c, files, events[..|events| - 1]);
      KeptIsSuffix(c, files, events[..|events| - 1]);
      if !Suppresses(c, s.gate, e) {
        OneMoreLineKept(c, s.files, before, s.written, LineFor(s.gate, e));
      }
    }
  }

  /** Every file stays within the cap or holds a single line. */
  lemma {:induction false} FilesStayBounded(c: Config, files: Files, events: seq<Event>)
    requires AllBounded(c, files)
    ensures AllBounded(c, RunLog(c, files, events).files)
  {
    if events != [] {
      var e := events[|events| - 1];
      var s := RunLog(c, files, events[..|events| - 1]);
      FilesStayBounded(c, files, events[..|events| - 1]);
      if !Suppresses(c, s.gate, e) {
        AppendKeepsBounds(c, s.files, LineFor(s.gate, e));
      }
    }
  }

  /** There is never a generation beyond the configured number. */
  lemma {:induction false} GenerationsCapped(c: Config, files: Files, events: seq<Event>)
    requires forall n :: n in files ==> n <= c.generations
    ensures forall n :: n in RunLog(c, files, events).files ==> n <= c.generations
  {
    if events != [] {
      GenerationsCapped(c, files, events[..|events| - 1]);
    }
  }

  lemma AppendKeepsLines(c: Config, files: Files, l: Line, max: nat)
    requires LinesWithin(files, c.generations, max) && Bytes(l) <= max
    ensures LinesWithin(Appended(c, files, l), c.generations, max)
  {
    var files', f := Appended(c, files, l), FileAt(files, 0);
    var rotates := Size(f) > 0 && Size(f) + Bytes(l) > c.maxBytes;
    forall n: nat | n <= c.generations
      ensures FileWithin(FileAt(files', n), max)
    {
      if rotates {
        RotatedAt(files, c.generations, n);
        assert n > 0 ==> FileAt(files', n) == FileAt(files, n - 1) && FileWithin(FileAt(files, n - 1), max);
      } else {
        assert FileWithin(FileAt(files, n), max) && FileWithin(f, max);
      }
    }
  }

  lemma {:induction false} WrittenLinesKept(c: Config, files: Files, events: seq<Event>, max: nat)
    requires LinesWithin(files, c.generations, max) && FileWithin(RunLog(c, files, events).written, max)
    ensures LinesWithin(RunLog(c, files, events).files, c.generations, max)
  {
    if events != [] {
      var e := events[|events| - 1];
      var s := RunLog(c, files, events[..|events| - 1]);
      var s' := RunLog(c, files, events);
      assert s.written <= s'.written;
      WrittenLinesKept(c, files, events[..|events| - 1], max);
      if !Suppresses(c, s.gate, e) {
        assert s'.written[|s.written|] == LineFor(s.gate, e);
        AppendKeepsLines(c, s.files, LineFor(s.gate, e), max);
      }
    }
  }

  /** The documented bound on the log as it runs: as long as every line written fits the cap, total disk
      use is at most the cap times the number of files, after every sequence of events. */
  lemma TotalStaysBounded(c: Config, files: Files, events: seq<Event>)
    requires AllBounded(c, files) && LinesWithin(files, c.generations, c.maxBytes)
    requires FileWithin(RunLog(c, files, events).written, c.maxBytes)
    ensures TotalSize(RunLog(c, files, events).files, c.generations) <= c.maxBytes * (c.generations + 1)
  {
    FilesStayBounded(c, files, events);
    WrittenLinesKept(c, files, events, c.maxBytes);
    TotalBound(c, RunLog(c, files, events).files);
  }

  // ---- exactly when the bound holds --------------------------------------------------------

  /** What `record` is given: the time on the monotonic and on the wall clock, and the fields. */
  datatype Given = Given(time: nat, unixMs: nat, fields: Fields)

  /** The event it makes of that. */
  function EventOf(g: Given): Event {
    Event(Clip(g.fields.code) == AUTH_FAILURE, g.time,
          (carried: nat) => Rendered(Clipped(g.fields), g.unixMs, carried))
  }

  function EventsOf(gs: seq<Given>): (events: seq<Event>)
    ensures |events| == |gs| && forall i :: 0 <= i < |gs| ==> events[i] == EventOf(gs[i])
  {
    seq(|gs|, i requires 0 <= i < |gs| => EventOf(gs[i]))
  }

  /** Within the source's integer types. */
  predicate GivenOk(g: Given) {
    g.unixMs <= U64_MAX && g.fields.status <= 0xFFFF
  }

  predicate AllOk(gs: seq<Given>) {
    |gs| <= U64_MAX && forall i :: 0 <= i < |gs| ==> GivenOk(gs[i])
  }

  lemma {:induction false} SuppressedAtMost(c: Config, files: Files, events: seq<Event>)
    ensures RunLog(c, files, events).gate.suppressed <= |events|
  {
    if events != [] {
      SuppressedAtMost(c, files, events[..|events| - 1]);
    }
  }

  predicate Fits(e: Event, max: nat, most: nat) {
    forall carried :: 0 <= carried <= most && (carried > 0 ==> e.auth) ==> Utf8Size(e.render(carried)) + 1 <= max
  }

  lemma RenderedFits(g: Given, carried: nat)
    requires GivenOk(g) && carried <= U64_MAX && (carried > 0 ==> EventOf(g).auth)
    ensures Utf8Size(EventOf(g).render(carried)) + 1 <= MAX_LINE
  {
    LineBound(Clipped(g.fields), g.unixMs, carried);
  }

  lemma EventFits(g: Given)
    requires GivenOk(g)
    ensures Fits(EventOf(g), MAX_LINE, U64_MAX)
  {
    var e := EventOf(g);
    forall carried | 0 <= carried <= U64_MAX && (carried > 0 ==> e.auth)
      ensures Utf8Size(e.render(carried)) + 1 <= MAX_LINE
    {
      RenderedFits(g, carried);
    }
  }

  lemma {:induction false} WrittenWithin(c: Config, files: Files, events: seq<Event>, max: nat, most: nat)
    requires |events| <= most && forall i :: 0 <= i < |events| ==> Fits(events[i], max, most)
    ensures FileWithin(RunLog(c, files, events).written, max)
  {
    if events != [] {
      var rest := events[..|events| - 1];
      WrittenWithin(c, files, rest, max, most);
      SuppressedAtMost(c, files, rest);
      assert Fits(events[|events| - 1], max, most);
    }
  }

  /** The bound, for a log that starts with no files. */
  ghost predicate BoundPromised(c: Config) {
    forall gs :: AllOk(gs) ==> WithinBound(c, EventsOf(gs))
  }

  predicate WithinBound(c: Config, events: seq<Event>) {
    TotalSize(RunLog(c, map[], events).files, c.generations) <= c.maxBytes * (c.generations + 1)
  }

  lemma PromiseKept(c: Config, gs: seq<Given>)
    requires c.maxBytes >= MAX_LINE && AllOk(gs)
    ensures WithinBound(c, EventsOf(gs))
  {
    var events := EventsOf(gs);
    forall i | 0 <= i < |events|
      ensures Fits(events[i], MAX_LINE, U64_MAX)
    {
      EventFits(gs[i]);
    }
    WrittenWithin(c, map[], events, MAX_LINE, U64_MAX);
    TotalStaysBounded(c, map[], events);
  }

  /** An event the clipping lets through whose line is as long as a line can be. */
  const LOUD: Given := Given(0, U64_MAX, LOUDEST)

  lemma LoudEvent(l: Line)
    requires l == LineFor(Gate(None, 0), EventOf(LOUD))
    ensures GivenOk(LOUD) && !EventOf(LOUD).auth && Bytes(l) == MAX_LINE
  {
    LineBoundReached();
  }

  function Repeated(g: Given, n: nat): (gs: seq<Given>)
    ensures |gs| == n && forall i :: 0 <= i < n ==> gs[i] == g
  {
    seq(n, _ => g)
  }

  /** A line over the cap gets a file of its own, each time it is written. */
  lemma {:induction false} OwnFiles(c: Config, e: Event, l: Line, events: seq<Event>)
    requires !e.auth && l == LineFor(Gate(None, 0), e) && Bytes(l) > c.maxBytes
    requires forall i :: 0 <= i < |events| ==> events[i] == e
    ensures forall n: nat :: n <= c.generations ==> OwnFile(RunLog(c, map[], events).files, l, |events|, n)
  {
    if events != [] {
      var rest := events[..|events| - 1];
      OwnFiles(c, e, l, rest);
      var s := RunLog(c, map[], rest);
      assert LineFor(s.gate, e) == l;
      var files, k := Appended(c, s.files, l), |events|;
      forall n: nat | n <= c.generations
        ensures OwnFile(files, l, k, n)
      {
        OwnAppend(c, s.files, l, |rest|, n);
      }
    }
  }

  predicate OwnFile(files: Files, l: Line, k: nat, n: nat) {
    FileAt(files, n) == if n < k then [l] else []
  }

  lemma OwnAppend(c: Config, files: Files, l: Line, k: nat, n: nat)
    requires Bytes(l) > c.maxBytes && n <= c.generations
    requires forall m: nat :: m <= c.generations ==> OwnFile(files, l, k, m)
    ensures OwnFile(Appended(c, files, l), l, k + 1, n)
  {
    OneLine(l);
    assert OwnFile(files, l, k, 0) && OwnFile(files, l, k, n);
    assert [] + [l] == [l];
    RotatedAt(files, c.generations, n);
    RotatedAt(files, c.generations, 0);
    if n > 0 {
      assert OwnFile(files, l, k, n - 1);
    }
  }

  lemma {:induction false} OwnTotal(files: Files, l: Line, n: nat)
    requires forall k: nat :: k <= n ==> FileAt(files, k) == [l]
    ensures TotalSize(files, n) == Times(Bytes(l), n + 1)
  {
    OneLine(l);
    assert FileAt(files, n) == [l];
    if n > 0 {
      OwnTotal(files, l, n - 1);
    }
  }

  lemma {:induction false} TimesLess(a: nat, b: nat, n: nat)
    requires a < b && n > 0
    ensures Times(a, n) < Times(b, n)
  {
    if n > 1 {
      TimesLess(a, b, n - 1);
    }
  }

  /** A line over the cap is written all the same, and one per file takes the total over the bound. */
  lemma OversizeLinesBreakBound(c: Config, e: Event, events: seq<Event>)
    requires !e.auth && Bytes(LineFor(Gate(None, 0), e)) > c.maxBytes
    requires |events| == c.generations + 1 && forall i :: 0 <= i < |events| ==> events[i] == e
    ensures !WithinBound(c, events)
  {
    var l, n, files := LineFor(Gate(None, 0), e), c.generations, RunLog(c, map[], events).files;
    OwnFiles(c, e, l, events);
    forall k: nat | k <= n
      ensures FileAt(files, k) == [l]
    {
      assert OwnFile(files, l, |events|, k);
    }
    OwnTotal(files, l, n);
    TimesLess(c.maxBytes, Bytes(l), n + 1);
    TimesIsProduct(c.maxBytes, n + 1);
  }

  /** The documented disk bound holds, for all events, exactly when the cap is at least the longest line
      the clipping allows. */
  lemma DiskBoundExactly(c: Config)
    requires c.generations <= U32_MAX
    ensures BoundPromised(c) <==> c.maxBytes >= MAX_LINE
  {
    if c.maxBytes >= MAX_LINE {
      forall gs | AllOk(gs)
        ensures WithinBound(c, EventsOf(gs))
      {
        PromiseKept(c, gs);
      }
    } else {
      LoudEvent(LineFor(Gate(None, 0), EventOf(LOUD)));
      RepeatedBreaksBound(c, LOUD);
    }
  }

  lemma RepeatedBreaksBound(c: Config, g: Given)
    requires c.generations <= U32_MAX && GivenOk(g) && !EventOf(g).auth && Bytes(LineFor(Gate(None, 0), EventOf(g))) > c.maxBytes
    ensures !BoundPromised(c)
  {
    var gs := Repeated(g, c.generations + 1);
    assert AllOk(gs);
    OversizeLinesBreakBound(c, EventOf(g), EventsOf(gs));
  }

  const DEFAULT_MAX_BYTES: nat := 1024 * 1024
  const DEFAULT_GENERATIONS: nat := 4

  /** So it holds of every log the product opens, whatever the interval. */
  lemma DefaultsKeepPromise(authMinInterval: nat)
    ensures BoundPromised(NewConfig(DEFAULT_MAX_BYTES, DEFAULT_GENERATIONS, authMinInterval))
  {
    DiskBoundExactly(NewConfig(DEFAULT_MAX_BYTES, DEFAULT_GENERATIONS, authMinInterval));
  }

  lemma WrittenGrows(ls: seq<Line>, l: Line)
    ensures AuthLines(ls + [l]) == AuthLines(ls) + if l.auth then [l] else []
    ensures Carried(ls + [l]) == Carried(ls) + l.suppressed
  {
    assert (ls + [l])[..|ls|] == ls;
  }

  /** No failure is lost or counted twice: each one is a line of its own, is counted on a later
      line, or is still pending at the gate. */
  lemma {:induction false} FailuresConserved(c: Config, files: Files, events: seq<Event>)
    ensures var s := RunLog(c, files, events);
      Failures(events) == |AuthLines(s.written)| + Carried(s.written) + s.gate.suppressed
  {
    if events != [] {
      var e := events[|events| - 1];
      var s := RunLog(c, files, events[..|events| - 1]);
      FailuresConserved(c, files, events[..|events| - 1]);
      if !Suppresses(c, s.gate, e) {
        WrittenGrows(s.written, LineFor(s.gate, e));
      }
    }
  }

  predicate GateTells(s: LogState) {
    var auth := AuthLines(s.written);
    s.gate.lastEmit == if auth == [] then None else Some(auth[|auth| - 1].time)
  }

  lemma RecordedTells(c: Config, s: LogState, e: Event)
    requires GateTells(s)
    ensures GateTells(Recorded(c, s, e))
  {
    if !Suppresses(c, s.gate, e) {
      WrittenGrows(s.written, LineFor(s.gate, e));
    }
  }

  /** The gate remembers the latest authentication line. */
  lemma {:induction false} GateIsLatest(c: Config, files: Files, events: seq<Event>)
    ensures GateTells(RunLog(c, files, events))
  {
    if events != [] {
      GateIsLatest(c, files, events[..|events| - 1]);
      RecordedTells(c, RunLog(c, files, events[..|events| - 1]), events[|events| - 1]);
    }
  }

  predicate Spaced(c: Config, ls: seq<Line>) {
    forall i :: 0 < i < |ls| ==> ls[i].time >= ls[i - 1].time + c.authMinInterval
  }

  lemma {:induction false} LatestNotAfter(c: Config, files: Files, events: seq<Event>, t: nat)
    requires forall i :: 0 <= i < |events| ==> events[i].time <= t
    ensures var s := RunLog(c, files, events); s.gate.lastEmit.Some? ==> s.gate.lastEmit.value <= t
  {
    if events != [] {
      LatestNotAfter(c, files, events[..|events| - 1], t);
    }
  }

  lemma SpacedExtends(c: Config, ls: seq<Line>, l: Line)
    requires Spaced(c, ls) && (ls != [] ==> l.time >= ls[|ls| - 1].time + c.authMinInterval)
    ensures Spaced(c, ls + [l])
  {
  }

  lemma RecordedSpaced(c: Config, s: LogState, e: Event)
    requires Spaced(c, AuthLines(s.written)) && GateTells(s) && (s.gate.lastEmit.Some? ==> s.gate.lastEmit.value <= e.time)
    ensures Spaced(c, AuthLines(Recorded(c, s, e).written))
  {
    if !Suppresses(c, s.gate, e) {
      WrittenGrows(s.written, LineFor(s.gate, e));
      if e.auth {
        SpacedExtends(c, AuthLines(s.written), LineFor(s.gate, e));
      }
    }
  }

  /** Authentication lines are at least the interval apart. */
  lemma {:induction false} AuthLinesSpaced(c: Config, files: Files, events: seq<Event>)
    requires Chronological(events)
    ensures Spaced(c, AuthLines(RunLog(c, files, events).written))
  {
    if events != [] {
      var n := |events| - 1;
      AuthLinesSpaced(c, files, events[..n]);
      GateIsLatest(c, files, events[..n]);
      LatestNotAfter(c, files, events[..n], events[n].time);
      RecordedSpaced(c, RunLog(c, files, events[..n]), events[n]);
    }
  }

  // ---- when a line is written --------------------------------------------------------------

  /** The failures since the last authentication line: those at the end of the run that wrote nothing. */
  function Unlogged(c: Config, files: Files, events: seq<Event>): nat {
    if events == [] then 0
    else
      var n := |events| - 1;
      if !events[n].auth then Unlogged(c, files, events[..n])
      else if |RunLog(c, files, events).written| > |RunLog(c, files, events[..n]).written| then 0
      else Unlogged(c, files, events[..n]) + 1
  }

  lemma {:induction false} GateCounts(c: Config, files: Files, events: seq<Event>)
    ensures RunLog(c, files, events).gate.suppressed == Unlogged(c, files, events)
  {
    if events != [] {
      GateCounts(c, files, events[..|events| - 1]);
    }
  }

  /** The failure comes less than the interval after the last authentication line. */
  predicate TooSoon(c: Config, written: seq<Line>, e: Event) {
    var auth := AuthLines(written);
    e.auth && auth != [] && c.authMinInterval > 0 && e.time < auth[|auth| - 1].time + c.authMinInterval
  }

  lemma RecordedExactly(c: Config, s: LogState, e: Event)
    requires GateTells(s)
    ensures var s' := Recorded(c, s, e);
      if TooSoon(c, s.written, e) then
        s'.written == s.written && s'.files == s.files
      else
        var carried := if e.auth then s.gate.suppressed else 0;
        s'.written == s.written + [Line(e.render(carried), e.auth, e.time, carried)]
  {
  }

  /** In every run: a failure that comes less than the interval after the last authentication line writes
      nothing; every other event writes one line, and on an authentication line the count is that of the
      failures since the one before. */
  lemma WritesExactly(c: Config, files: Files, events: seq<Event>, e: Event)
    ensures var s, s' := RunLog(c, files, events), RunLog(c, files, events + [e]);
      if TooSoon(c, s.written, e) then
        s'.written == s.written && s'.files == s.files
      else
        var carried := if e.auth then Unlogged(c, files, events) else 0;
        s'.written == s.written + [Line(e.render(carried), e.auth, e.time, carried)]
  {
    assert (events + [e])[..|events|] == events;
    GateIsLatest(c, files, events);
    GateCounts(c, files, events);
    RecordedExactly(c, RunLog(c, files, events), e);
  }

  /** A generation behind the current file was closed because the next line did not fit. */
  ghost predicate ClosedFull(c: Config, files: Files, n: nat)
    requires n > 0
  {
    FileAt(files, n) != [] ==>
      FileAt(files, n - 1) != [] && Size(FileAt(files, n)) + Bytes(FileAt(files, n - 1)[0]) > c.maxBytes
  }

  ghost predicate AllClosedFull(c: Config, files: Files) {
    forall n: nat :: 0 < n <= c.generations ==> ClosedFull(c, files, n)
  }

  lemma AppendedCloses(c: Config, files: Files, l: Line, n: nat)
    requires AllClosedFull(c, files) && 0 < n <= c.generations
    ensures ClosedFull(c, Appended(c, files, l), n)
  {
    var f := FileAt(files, 0);
    EmptyIsEmpty(f);
    if Size(f) > 0 && Size(f) + Bytes(l) > c.maxBytes {
      RotatedCloses(c, files, Rotated(files, c.generations), l, n);
    } else {
      GrownStaysClosed(c, files, l, n);
    }
  }

  lemma RotatedCloses(c: Config, files: Files, rotated: Files, l: Line, n: nat)
    requires AllClosedFull(c, files) && 0 < n <= c.generations && rotated == Rotated(files, c.generations)
    requires Size(FileAt(files, 0)) + Bytes(l) > c.maxBytes
    ensures ClosedFull(c, rotated[0 := FileAt(rotated, 0) + [l]], n)
  {
    FileAfterRotation(files, c.generations, n);
    FileAfterRotation(files, c.generations, n - 1);
    if n > 1 {
      assert ClosedFull(c, files, n - 1);
    }
  }

  lemma GrownStaysClosed(c: Config, files: Files, l: Line, n: nat)
    requires AllClosedFull(c, files) && 0 < n <= c.generations
    ensures ClosedFull(c, files[0 := FileAt(files, 0) + [l]], n)
  {
    assert ClosedFull(c, files, n);
  }

  /** No file is rotated early: however long the log runs, each retained generation had no room for the
      line that came after it. */
  lemma {:induction false} RotatesOnlyWhenFull(c: Config, files: Files, events: seq<Event>)
    requires AllClosedFull(c, files)
    ensures AllClosedFull(c, RunLog(c, files, events).files)
  {
    if events != [] {
      var e := events[|events| - 1];
      var s := RunLog(c, files, events[..|events| - 1]);
      RotatesOnlyWhenFull(c, files, events[..|events| - 1]);
      if !Suppresses(c, s.gate, e) {
        forall n: nat | 0 < n <= c.generations
          ensures ClosedFull(c, Appended(c, s.files, LineFor(s.gate, e)), n)
        {
          AppendedCloses(c, s.files, LineFor(s.gate, e), n);
        }
      }
    }
  }

  // ---- the log -----------------------------------------------------------------------------

  class SecurityLog {
    const config: Config
    var files: Files
    var lastEmit: Option<nat>
    var suppressed: nat
    ghost var written: seq<Line>

    ghost function View(): LogState
      reads this
    {
      LogState(files, Gate(lastEmit, suppressed), written)
    }

    constructor (maxBytes: nat, generations: nat, authMinInterval: nat, files: Files)
      ensures config == NewConfig(maxBytes, generations, authMinInterval)
      ensures config.maxBytes >= 256 && config.maxBytes >= maxBytes && (maxBytes >= 256 ==> config.maxBytes == maxBytes)
      ensures View() == RunLog(config, files, [])
    {
      config := NewConfig(maxBytes, generations, authMinInterval);
      this.files := files;
      lastEmit, suppressed, written := None, 0, [];
    }

    /** `record_owned`: the gate first, then the line. */
    method Record(g: Given)
      modifies this
      ensures View() == Recorded(config, old(View()), EventOf(g))
      ensures GateTells(old(View())) ==>
        && GateTells(View())
        && (written == old(written) <==> TooSoon(config, old(written), EventOf(g)))
        && (written != old(written) ==> |written| == |old(written)| + 1 && written[|old(written)|].time == g.time)
      ensures EventOf(g).auth <==> g.fields.code == AUTH_FAILURE
    {
      ghost var before := View();
      if GateTells(before) {
        RecordedTells(config, before, EventOf(g));
        RecordedExactly(config, before, EventOf(g));
      }
      var carried, fields := 0, Clipped(g.fields);
      var auth := fields.code == AUTH_FAILURE;
      if auth {
        if lastEmit.Some? && Since(g.time, lastEmit.value) < config.authMinInterval {
          suppressed := suppressed + 1;
          return;
        }
        carried := suppressed;
        lastEmit, suppressed := Some(g.time), 0;
      }
      Append(Line(Rendered(fields, g.unixMs, carried), auth, g.time, carried));
    }

    method Append(l: Line)
      modifies this
      ensures files == Appended(config, old(files), l) && written == old(written) + [l]
      ensures lastEmit == old(lastEmit) && suppressed == old(suppressed)
    {
      var len := Size(FileAt(files, 0));
      if len > 0 && len + Bytes(l) > config.maxBytes {
        files := Rotate(files, config.generations);
      }
      files := files[0 := FileAt(files, 0) + [l]];
      written := written + [l];
    }
  }
}
