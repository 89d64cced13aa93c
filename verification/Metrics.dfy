/** Per-route request metrics: counters, a lifetime maximum and a bounded ring of recent latencies
    from which the percentiles are read. */
module Metrics {

  import opened Options

  const RESERVOIR_CAP: nat := 1000
  const MAX_ROUTE_KEYS: nat := 128
  const OVERFLOW_ROUTE: string := "OVERFLOW"

  datatype Stats = Stats(count: nat, errorCount: nat, latencies: seq<real>, nextSlot: nat, maxMs: real)

  const FRESH: Stats := Stats(0, 0, [], 0, 0.0)

  datatype Sample = Sample(ms: real, isError: bool)

  // ---- one route ---------------------------------------------------------------------------

  /** What `finish` does to a route's entry. */
  function Observed(st: Stats, x: Sample): Stats
    requires |st.latencies| < RESERVOIR_CAP || st.nextSlot < |st.latencies|
  {
    Stats(
      st.count + 1,
      st.errorCount + (if x.isError then 1 else 0),
      if |st.latencies| < RESERVOIR_CAP then st.latencies + [x.ms] else st.latencies[st.nextSlot := x.ms],
      (st.nextSlot + 1) % RESERVOIR_CAP,
      if x.ms > st.maxMs then x.ms else st.maxMs)
  }

  /** The ring's shape: not yet full and unwrapped, or full. */
  predicate Shaped(st: Stats) {
    if |st.latencies| < RESERVOIR_CAP then st.nextSlot == |st.latencies|
    else |st.latencies| == RESERVOIR_CAP && st.nextSlot < RESERVOIR_CAP
  }

  /** The entry after a route's samples, in order. */
  function StatsOf(h: seq<Sample>): (st: Stats)
    ensures Shaped(st)
  {
    if h == [] then FRESH else Observed(StatsOf(h[..|h| - 1]), h[|h| - 1])
  }

  function Latencies(h: seq<Sample>): seq<real> {
    seq(|h|, i requires 0 <= i < |h| => h[i].ms)
  }

  /** The last `RESERVOIR_CAP` latencies. */
  function Newest(h: seq<Sample>): seq<real> {
    if |h| <= RESERVOIR_CAP then Latencies(h) else Latencies(h)[|h| - RESERVOIR_CAP..]
  }

  /** The ring read from its oldest slot. */
  function Unrolled(st: Stats): seq<real>
    requires Shaped(st)
  {
    if |st.latencies| < RESERVOIR_CAP then st.latencies
    else st.latencies[st.nextSlot..] + st.latencies[..st.nextSlot]
  }

  lemma OverwriteOldest(ring: seq<real>, at: nat, x: real)
    requires |ring| == RESERVOIR_CAP && at < RESERVOIR_CAP
    ensures var r, n := ring[at := x], (at + 1) % RESERVOIR_CAP;
      r[n..] + r[..n] == (ring[at..] + ring[..at])[1..] + [x]
  {
    if at + 1 == RESERVOIR_CAP {
      assert ring[at := x][0..] + ring[at := x][..0] == ring[..at] + [x];
    }
  }

  lemma NewestGrows(h: seq<Sample>, x: Sample)
    ensures |h| < RESERVOIR_CAP ==> Newest(h + [x]) == Newest(h) + [x.ms]
    ensures |h| >= RESERVOIR_CAP ==> |Newest(h)| == RESERVOIR_CAP && Newest(h + [x]) == Newest(h)[1..] + [x.ms]
  {
    assert Latencies(h + [x]) == Latencies(h) + [x.ms];
  }

  /** Read from its oldest slot, the ring is exactly the newest latencies in order. */
  lemma {:induction false} RingIsNewest(h: seq<Sample>)
    ensures Unrolled(StatsOf(h)) == Newest(h)
  {
    if h != [] {
      var rest, x := h[..|h| - 1], h[|h| - 1];
      var st := StatsOf(rest);
      RingIsNewest(rest);
      NewestGrows(rest, x);
      assert h == rest + [x];
      RingLength(rest);
      if |st.latencies| == RESERVOIR_CAP {
        OverwriteOldest(st.latencies, st.nextSlot, x.ms);
      } else if |st.latencies| + 1 == RESERVOIR_CAP {
        var full := st.latencies + [x.ms];
        assert full[0..] + full[..0] == full;
      }
    }
  }

  lemma {:induction false} RingLength(h: seq<Sample>)
    ensures |StatsOf(h).latencies| == if |h| < RESERVOIR_CAP then |h| else RESERVOIR_CAP
  {
    if h != [] {
      RingLength(h[..|h| - 1]);
    }
  }

  lemma Rotation(ring: seq<real>, n: nat)
    requires n <= |ring|
    ensures multiset(ring[n..] + ring[..n]) == multiset(ring)
  {
    assert ring == ring[..n] + ring[n..];
  }

  /** The reservoir holds the multiset of the last `min(n, 1000)` latencies. */
  lemma ReservoirIsNewest(h: seq<Sample>)
    ensures multiset(StatsOf(h).latencies) == multiset(Newest(h))
  {
    RingIsNewest(h);
    var st := StatsOf(h);
    if |st.latencies| == RESERVOIR_CAP {
      Rotation(st.latencies, st.nextSlot);
    }
  }

  lemma {:induction false} CountsAndMaximum(h: seq<Sample>)
    ensures StatsOf(h).count == |h|
    ensures StatsOf(h).errorCount == ErrorsIn(h)
    ensures forall i :: 0 <= i < |h| ==> h[i].ms <= StatsOf(h).maxMs
    ensures StatsOf(h).maxMs == 0.0 || exists i :: 0 <= i < |h| && h[i].ms == StatsOf(h).maxMs
  {
    if h != [] {
      var rest := h[..|h| - 1];
      CountsAndMaximum(rest);
      assert forall i :: 0 <= i < |rest| ==> h[i] == rest[i];
      assert StatsOf(h).maxMs == StatsOf(rest).maxMs || StatsOf(h).maxMs == h[|h| - 1].ms;
    }
  }

  function ErrorsIn(h: seq<Sample>): nat {
    if h == [] then 0 else ErrorsIn(h[..|h| - 1]) + if h[|h| - 1].isError then 1 else 0
  }

  // ---- percentiles -------------------------------------------------------------------------

  predicate Ascending(s: seq<real>) {
    forall i, j :: 0 <= i < j < |s| ==> s[i] <= s[j]
  }

  function Inserted(s: seq<real>, x: real): seq<real> {
    if s == [] || x < s[0] then [x] + s else [s[0]] + Inserted(s[1..], x)
  }

  function Sort(s: seq<real>): seq<real> {
    if s == [] then [] else Inserted(Sort(s[..|s| - 1]), s[|s| - 1])
  }

  lemma {:induction false} InsertedHolds(s: seq<real>, x: real)
    ensures multiset(Inserted(s, x)) == multiset(s) + multiset{x}
  {
    if s != [] && x >= s[0] {
      InsertedHolds(s[1..], x);
      assert s == [s[0]] + s[1..];
    }
  }

  lemma {:induction false} InsertedAbove(s: seq<real>, x: real, low: real)
    requires low <= x && forall i :: 0 <= i < |s| ==> low <= s[i]
    ensures forall i :: 0 <= i < |Inserted(s, x)| ==> low <= Inserted(s, x)[i]
  {
    if s != [] && x >= s[0] {
      InsertedAbove(s[1..], x, low);
    }
  }

  lemma {:induction false} InsertedSorts(s: seq<real>, x: real)
    requires Ascending(s)
    ensures Ascending(Inserted(s, x))
  {
    if s != [] && x >= s[0] {
      InsertedSorts(s[1..], x);
      InsertedAbove(s[1..], x, s[0]);
    }
  }

  lemma {:induction false} SortAscends(s: seq<real>)
    ensures Ascending(Sort(s))
  {
    if s != [] {
      SortAscends(s[..|s| - 1]);
      InsertedSorts(Sort(s[..|s| - 1]), s[|s| - 1]);
    }
  }

  lemma {:induction false} SortHolds(s: seq<real>)
    ensures multiset(Sort(s)) == multiset(s)
  {
    if s != [] {
      var front, last := s[..|s| - 1], s[|s| - 1];
      SortHolds(front);
      InsertedHolds(Sort(front), last);
      LastCounts(s);
    }
  }

  lemma LastCounts(s: seq<real>)
    requires s != []
    ensures multiset(s) == multiset(s[..|s| - 1]) + multiset{s[|s| - 1]}
  {
    assert s == s[..|s| - 1] + [s[|s| - 1]];
  }

  lemma SortSorts(s: seq<real>)
    ensures Ascending(Sort(s)) && multiset(Sort(s)) == multiset(s) && |Sort(s)| == |s|
  {
    SortAscends(s);
    SortHolds(s);
    assert |Sort(s)| == |multiset(Sort(s))| && |s| == |multiset(s)|;
  }

  /** Where in a sorted copy of `n` latencies the percentile is read: the share of the length, rounded
      down, and never past the end. */
  function Index(n: nat, p: real): nat
    requires n > 0 && 0.0 <= p
  {
    var i := (n as real * p).Floor;
    if i < n - 1 then i else n - 1
  }

  function Percentile(s: seq<real>, p: real): real
    requires s != [] && 0.0 <= p
  {
    SortSorts(s);
    Sort(s)[Index(|s|, p)]
  }

  lemma IndexMonotone(n: nat, p: real, q: real)
    requires n > 0 && 0.0 <= p <= q
    ensures Index(n, p) <= Index(n, q) < n
  {
    var x, y := n as real * p, n as real * q;
    ScaleMonotone(n as real, p, q);
    FloorMonotone(x, y);
    FloorMonotone(0.0, x);
  }

  lemma ScaleMonotone(n: real, p: real, q: real)
    requires n >= 0.0 && 0.0 <= p <= q
    ensures 0.0 <= n * p <= n * q
  {
  }

  lemma FloorMonotone(x: real, y: real)
    requires x <= y
    ensures x.Floor <= y.Floor
  {
    assert x.Floor as real <= x && y < y.Floor as real + 1.0;
  }

  lemma PercentileAmongNewest(h: seq<Sample>, p: real)
    requires StatsOf(h).latencies != [] && 0.0 <= p
    ensures Percentile(StatsOf(h).latencies, p) in Newest(h)
  {
    var s := StatsOf(h).latencies;
    SortSorts(s);
    ReservoirIsNewest(h);
    IndexMonotone(|s|, p, p);
    assert Percentile(s, p) in multiset(Sort(s));
    assert Percentile(s, p) in multiset(Newest(h));
  }

  lemma PercentileMonotone(s: seq<real>, p: real, q: real)
    requires s != [] && 0.0 <= p <= q
    ensures Percentile(s, p) <= Percentile(s, q)
  {
    SortSorts(s);
    IndexMonotone(|s|, p, q);
  }

  /** The three percentiles are ordered, are latencies among the newest, and do not exceed the
      lifetime maximum. */
  lemma PercentilesOrdered(h: seq<Sample>)
    requires h != []
    ensures StatsOf(h).latencies != []
    ensures var s := StatsOf(h).latencies;
      Percentile(s, 0.50) <= Percentile(s, 0.95) <= Percentile(s, 0.99) <= StatsOf(h).maxMs
    ensures forall p: real :: 0.0 <= p ==> Percentile(StatsOf(h).latencies, p) in Newest(h)
  {
    var s := StatsOf(h).latencies;
    RingLength(h);
    PercentileMonotone(s, 0.50, 0.95);
    PercentileMonotone(s, 0.95, 0.99);
    forall p: real | 0.0 <= p
      ensures Percentile(s, p) in Newest(h)
    {
      PercentileAmongNewest(h, p);
    }
    NewestBelowMaximum(h, Percentile(s, 0.99));
  }

  // ---- rank --------------------------------------------------------------------------------

  /** How many are below `x`, or with `orEqual` at most `x`. */
  function Ranked(s: seq<real>, x: real, orEqual: bool): nat {
    if s == [] then 0
    else (if s[0] < x || (orEqual && s[0] == x) then 1 else 0) + Ranked(s[1..], x, orEqual)
  }

  lemma {:induction false} RankedJoin(a: seq<real>, b: seq<real>, x: real, orEqual: bool)
    ensures Ranked(a + b, x, orEqual) == Ranked(a, x, orEqual) + Ranked(b, x, orEqual)
  {
    if a == [] {
      assert a + b == b;
    } else {
      assert (a + b)[1..] == a[1..] + b;
      RankedJoin(a[1..], b, x, orEqual);
    }
  }

  lemma {:induction false} RankedBounds(s: seq<real>, x: real, orEqual: bool)
    ensures Ranked(s, x, orEqual) <= |s|
    ensures (forall i :: 0 <= i < |s| ==> s[i] >= x) ==> Ranked(s, x, false) == 0
    ensures (forall i :: 0 <= i < |s| ==> s[i] <= x) ==> Ranked(s, x, true) == |s|
  {
    if s != [] {
      RankedBounds(s[1..], x, orEqual);
    }
  }

  lemma WithoutOne(s: seq<real>, k: nat)
    requires k < |s|
    ensures multiset(s[..k] + s[k + 1..]) == multiset(s) - multiset{s[k]}
  {
    assert s == s[..k] + [s[k]] + s[k + 1..];
  }

  lemma FirstElsewhere(a: seq<real>, b: seq<real>) returns (k: nat)
    requires a != [] && multiset(a) == multiset(b)
    ensures k < |b| && b[k] == a[0] && multiset(a[1..]) == multiset(b[..k] + b[k + 1..])
  {
    assert a[0] in multiset(b);
    k :| 0 <= k < |b| && b[k] == a[0];
    WithoutOne(b, k);
    WithoutFirst(a);
  }

  lemma WithoutFirst(a: seq<real>)
    requires a != []
    ensures multiset(a[1..]) == multiset(a) - multiset{a[0]}
  {
    assert a == [a[0]] + a[1..];
  }

  lemma NothingLeft(b: seq<real>)
    requires multiset(b) == multiset{}
    ensures b == []
  {
    assert |multiset(b)| == |b|;
  }

  /** Rank does not depend on order. */
  lemma {:induction false} RankedSame(a: seq<real>, b: seq<real>, x: real, orEqual: bool)
    requires multiset(a) == multiset(b)
    ensures Ranked(a, x, orEqual) == Ranked(b, x, orEqual)
    decreases |a|
  {
    if a == [] {
      NothingLeft(b);
    } else {
      var k := FirstElsewhere(a, b);
      RankedSame(a[1..], b[..k] + b[k + 1..], x, orEqual);
      RankedAround(b, k, x, orEqual);
    }
  }

  lemma {:induction false} RankedAround(b: seq<real>, k: nat, x: real, orEqual: bool)
    requires k < |b|
    ensures Ranked(b, x, orEqual)
         == Ranked(b[..k] + b[k + 1..], x, orEqual) + if b[k] < x || (orEqual && b[k] == x) then 1 else 0
  {
    RankedJoin(b[..k], b[k + 1..], x, orEqual);
    RankedJoin(b[..k], b[k..], x, orEqual);
    assert b[..k] + b[k..] == b && b[k..][1..] == b[k + 1..];
  }

  lemma {:induction false} RankAfter(t: seq<real>, i: nat, x: real)
    requires i <= |t| && forall j :: i <= j < |t| ==> t[j] >= x
    ensures Ranked(t, x, false) <= i
  {
    RankedJoin(t[..i], t[i..], x, false);
    assert t[..i] + t[i..] == t;
    RankedBounds(t[..i], x, false);
    RankedBounds(t[i..], x, false);
  }

  lemma {:induction false} RankUpto(t: seq<real>, k: nat, x: real)
    requires k <= |t| && forall j :: 0 <= j < k ==> t[j] <= x
    ensures Ranked(t, x, true) >= k
  {
    RankedJoin(t[..k], t[k..], x, true);
    assert t[..k] + t[k..] == t;
    RankedBounds(t[..k], x, true);
  }

  lemma SortedRank(t: seq<real>, i: nat)
    requires Ascending(t) && i < |t|
    ensures Ranked(t, t[i], false) <= i < Ranked(t, t[i], true)
  {
    RankAfter(t, i, t[i]);
    RankUpto(t, i + 1, t[i]);
  }

  /** What a percentile is: at most the share `p` is below it, and more than that share at most it. */
  predicate IsPercentile(s: seq<real>, p: real, x: real) {
    RanksAt(s, Share(|s|, p), x)
  }

  function Share(n: nat, p: real): real {
    n as real * p
  }

  predicate RanksAt(s: seq<real>, share: real, x: real) {
    Ranked(s, x, false) as real <= share < Ranked(s, x, true) as real
  }

  lemma IndexIsFloor(n: nat, p: real)
    requires n > 0 && 0.0 <= p < 1.0
    ensures Index(n, p) as real <= n as real * p < Index(n, p) as real + 1.0
  {
    var y := n as real * p;
    ScaleMonotone(n as real, 0.0, p);
    assert y < n as real;
    assert y.Floor as real <= y < y.Floor as real + 1.0;
  }

  lemma SameMeasures(a: seq<real>, b: seq<real>, x: real)
    requires multiset(a) == multiset(b)
    ensures |a| == |b| && Ranked(a, x, false) == Ranked(b, x, false) && Ranked(a, x, true) == Ranked(b, x, true)
  {
    RankedSame(a, b, x, false);
    RankedSame(a, b, x, true);
    assert |multiset(a)| == |a| && |multiset(b)| == |b|;
  }

  lemma {:induction false} SamePercentile(a: seq<real>, b: seq<real>, p: real, x: real)
    requires |a| == |b| && Ranked(a, x, false) == Ranked(b, x, false) && Ranked(a, x, true) == Ranked(b, x, true)
    requires IsPercentile(a, p, x)
    ensures IsPercentile(b, p, x)
  {
    SameRanks(a, b, Share(|a|, p), x);
  }

  lemma {:induction false} SameRanks(a: seq<real>, b: seq<real>, share: real, x: real)
    requires Ranked(a, x, false) == Ranked(b, x, false) && Ranked(a, x, true) == Ranked(b, x, true) && RanksAt(a, share, x)
    ensures RanksAt(b, share, x)
  {
  }

  lemma {:induction false} SortedPercentile(t: seq<real>, p: real)
    requires Ascending(t) && t != [] && 0.0 <= p < 1.0
    ensures Index(|t|, p) < |t| && IsPercentile(t, p, t[Index(|t|, p)])
  {
    IndexMonotone(|t|, p, p);
    IndexIsFloor(|t|, p);
    SortedRank(t, Index(|t|, p));
  }

  lemma {:induction false} PercentileRanks(s: seq<real>, v: seq<real>, p: real)
    requires s != [] && 0.0 <= p < 1.0 && multiset(s) == multiset(v)
    ensures IsPercentile(v, p, Percentile(s, p))
  {
    SortSorts(s);
    SortedPercentile(Sort(s), p);
    SameMeasures(Sort(s), v, Percentile(s, p));
    SamePercentile(Sort(s), v, p, Percentile(s, p));
  }

  lemma NewestBelowMaximum(h: seq<Sample>, x: real)
    requires x in Newest(h)
    ensures x <= StatsOf(h).maxMs
  {
    CountsAndMaximum(h);
    assert x in Latencies(h);
    var i :| 0 <= i < |h| && Latencies(h)[i] == x;
    assert h[i].ms == x;
  }

  // ---- all routes --------------------------------------------------------------------------

  datatype Finished = Finished(route: string, sample: Sample)

  type Routes = map<string, Stats>

  /** Past the cap, unknown routes share one entry. */
  function KeyFor(routes: Routes, route: string): string {
    if route in routes || |routes| < MAX_ROUTE_KEYS then route else OVERFLOW_ROUTE
  }

  function Entry(routes: Routes, key: string): Stats {
    if key in routes then routes[key] else FRESH
  }

  predicate AllShaped(routes: Routes) {
    forall k :: k in routes ==> Shaped(routes[k])
  }

  function Recorded(routes: Routes, f: Finished): Routes
    requires AllShaped(routes)
  {
    var key := KeyFor(routes, f.route);
    routes[key := Observed(Entry(routes, key), f.sample)]
  }

  function RoutesOf(events: seq<Finished>): (routes: Routes)
    ensures AllShaped(routes)
  {
    if events == [] then map[] else Recorded(RoutesOf(events[..|events| - 1]), events[|events| - 1])
  }

  /** The samples booked under `key`, in order. */
  function Booked(events: seq<Finished>, key: string): seq<Sample> {
    if events == [] then []
    else
      var n := |events| - 1;
      Booked(events[..n], key)
        + if KeyFor(RoutesOf(events[..n]), events[n].route) == key then [events[n].sample] else []
  }

  /** Each entry is the statistics of the samples booked under its key, and a key exists exactly
      when something was booked under it. */
  lemma {:induction false} EntriesAreBooked(events: seq<Finished>, key: string)
    ensures key in RoutesOf(events) <==> Booked(events, key) != []
    ensures Entry(RoutesOf(events), key) == StatsOf(Booked(events, key))
  {
    if events != [] {
      var n := |events| - 1;
      var was := Booked(events[..n], key);
      EntriesAreBooked(events[..n], key);
      if KeyFor(RoutesOf(events[..n]), events[n].route) == key {
        assert (was + [events[n].sample])[..|was|] == was;
      } else {
        assert Booked(events, key) == was;
      }
    }
  }

  // The routes with an entry of their own are the first ones seen.

  /** The routes in the order of their first request. */
  function FirstSeen(events: seq<Finished>): seq<string> {
    if events == [] then []
    else
      var before, route := FirstSeen(events[..|events| - 1]), events[|events| - 1].route;
      if route in before then before else before + [route]
  }

  /** Up to the cap, the first routes seen. */
  function Early(events: seq<Finished>): seq<string> {
    var seen := FirstSeen(events);
    if |seen| <= MAX_ROUTE_KEYS then seen else seen[..MAX_ROUTE_KEYS]
  }

  predicate Distinct(s: seq<string>) {
    forall i, j :: 0 <= i < j < |s| ==> s[i] != s[j]
  }

  lemma {:induction false} SeenOnce(events: seq<Finished>)
    ensures Distinct(FirstSeen(events))
  {
    if events != [] {
      SeenOnce(events[..|events| - 1]);
    }
  }

  lemma {:induction false} DistinctSize(s: seq<string>)
    requires Distinct(s)
    ensures |set x | x in s| == |s|
  {
    if s != [] {
      var front, last := s[..|s| - 1], s[|s| - 1];
      DistinctSize(front);
      assert (set x | x in s) == (set x | x in front) + {last};
    }
  }

  function EarlyKeys(events: seq<Finished>): set<string> {
    (set x | x in Early(events)) + if |FirstSeen(events)| > MAX_ROUTE_KEYS then {OVERFLOW_ROUTE} else {}
  }

  /** The key a route's requests are booked under. */
  function OwnKey(events: seq<Finished>, route: string): string {
    if route in Early(events) then route else OVERFLOW_ROUTE
  }

  lemma EarlySize(events: seq<Finished>)
    ensures Distinct(Early(events)) && |set x | x in Early(events)| == |Early(events)| <= MAX_ROUTE_KEYS
  {
    SeenOnce(events);
    DistinctSize(Early(events));
  }

  lemma EarlyGrows(events: seq<Finished>, f: Finished)
    ensures FirstSeen(events + [f]) == if f.route in FirstSeen(events) then FirstSeen(events) else FirstSeen(events) + [f.route]
    ensures Early(events + [f]) == if f.route !in FirstSeen(events) && |FirstSeen(events)| < MAX_ROUTE_KEYS
      then Early(events) + [f.route] else Early(events)
  {
    assert (events + [f])[..|events|] == events;
  }

  lemma {:induction false} KeysAreEarly(events: seq<Finished>)
    ensures RoutesOf(events).Keys == EarlyKeys(events)
  {
    if events == [] {
      assert EarlyKeys(events) == {};
    } else {
      var n := |events| - 1;
      var before, f := events[..n], events[n];
      KeysAreEarly(before);
      assert events == before + [f];
      KeyIsOwn(before, f);
      EarlyGrows(before, f);
    }
  }

  lemma RoomLeft(before: seq<Finished>, keys: set<string>)
    requires keys == EarlyKeys(before)
    ensures |keys| < MAX_ROUTE_KEYS <==> |FirstSeen(before)| < MAX_ROUTE_KEYS
  {
    EarlySize(before);
    var early := set x | x in Early(before);
    if |FirstSeen(before)| <= MAX_ROUTE_KEYS {
      assert keys == early;
    } else {
      SubsetSize(early, keys);
    }
  }

  lemma KeyIsOwn(before: seq<Finished>, f: Finished)
    requires RoutesOf(before).Keys == EarlyKeys(before)
    ensures KeyFor(RoutesOf(before), f.route) == OwnKey(before + [f], f.route)
  {
    var routes := RoutesOf(before);
    RoomLeft(before, routes.Keys);
    assert |routes| == |routes.Keys|;
    OwnKeyIs(before, f, routes.Keys);
  }

  lemma OwnKeyIs(before: seq<Finished>, f: Finished, keys: set<string>)
    requires keys == EarlyKeys(before)
    ensures OwnKey(before + [f], f.route)
         == if f.route in keys || |FirstSeen(before)| < MAX_ROUTE_KEYS then f.route else OVERFLOW_ROUTE
  {
    EarlyGrows(before, f);
  }

  lemma SubsetSize(a: set<string>, b: set<string>)
    requires a <= b
    ensures |a| <= |b|
  {
    assert b == a + (b - a);
    assert |b| == |a| + |b - a|;
  }

  /** Every request is booked under its own route if that is among the first ones seen, up to the cap, and
      under the shared entry otherwise. */
  lemma {:induction false} BookedUnder(events: seq<Finished>, i: nat)
    requires i < |events|
    ensures KeyFor(RoutesOf(events[..i]), events[i].route) == OwnKey(events, events[i].route)
  {
    var before, f := events[..i], events[i];
    KeyThen(before, f);
    EarlyGrows(before, f);
    FirstAndNext(events, i);
    KeyStays(events, i + 1, f.route);
  }

  lemma {:induction false} KeyThen(before: seq<Finished>, f: Finished)
    ensures KeyFor(RoutesOf(before), f.route) == OwnKey(before + [f], f.route)
  {
    KeysAreEarly(before);
    KeyIsOwn(before, f);
  }

  lemma FirstAndNext(events: seq<Finished>, i: nat)
    requires i < |events|
    ensures events[..i + 1] == events[..i] + [events[i]]
  {
  }

  lemma {:induction false} KeyStays(events: seq<Finished>, k: nat, route: string)
    requires k <= |events| && route in FirstSeen(events[..k])
    ensures route in FirstSeen(events) && OwnKey(events[..k], route) == OwnKey(events, route)
    decreases |events|
  {
    if k == |events| {
      assert events[..k] == events;
    } else {
      var before, f := events[..|events| - 1], events[|events| - 1];
      assert before[..k] == events[..k] && events == before + [f];
      KeyStays(before, k, route);
      EarlyGrows(before, f);
    }
  }

  /** The key set never grows past the cap plus the overflow entry. */
  lemma {:induction false} KeysCapped(events: seq<Finished>)
    ensures |RoutesOf(events)| <= MAX_ROUTE_KEYS + 1
    ensures |RoutesOf(events)| == MAX_ROUTE_KEYS + 1 ==> OVERFLOW_ROUTE in RoutesOf(events)
  {
    if events != [] {
      var routes, f := RoutesOf(events[..|events| - 1]), events[|events| - 1];
      KeysCapped(events[..|events| - 1]);
      var key := KeyFor(routes, f.route);
      UpdateSize(routes, key, Observed(Entry(routes, key), f.sample));
    }
  }

  lemma UpdateSize(m: Routes, k: string, v: Stats)
    ensures |m[k := v]| == |m| + if k in m then 0 else 1
  {
    assert m[k := v].Keys == m.Keys + {k};
    assert |m[k := v]| == |m[k := v].Keys| && |m| == |m.Keys|;
  }

  // ---- totals ------------------------------------------------------------------------------

  /** Sum of the counts over a set of keys. */
  ghost function CountOver(m: Routes, keys: set<string>): nat
    requires keys <= m.Keys
  {
    if keys == {} then 0
    else
      var k :| k in keys;
      m[k].count + CountOver(m, keys - {k})
  }

  lemma {:induction false} TakeOut(m: Routes, keys: set<string>, k: string)
    requires keys <= m.Keys && k in keys
    ensures CountOver(m, keys) == m[k].count + CountOver(m, keys - {k})
    decreases keys
  {
    var first :| first in keys && CountOver(m, keys) == m[first].count + CountOver(m, keys - {first});
    if first != k {
      TakeOut(m, keys - {first}, k);
      TakeOut(m, keys - {k}, first);
      assert keys - {first} - {k} == keys - {k} - {first};
    }
  }

  lemma {:induction false} SameCounts(m: Routes, m': Routes, keys: set<string>)
    requires keys <= m.Keys && keys <= m'.Keys && forall k :: k in keys ==> m[k].count == m'[k].count
    ensures CountOver(m, keys) == CountOver(m', keys)
    decreases keys
  {
    if keys != {} {
      var k :| k in keys;
      TakeOut(m, keys, k);
      TakeOut(m', keys, k);
      SameCounts(m, m', keys - {k});
    }
  }

  lemma UpdateCount(m: Routes, k: string, v: Stats)
    ensures CountOver(m[k := v], m[k := v].Keys)
         == CountOver(m, m.Keys) + v.count - (if k in m then m[k].count else 0)
  {
    var m' := m[k := v];
    assert m'.Keys == m.Keys + {k};
    TakeOut(m', m'.Keys, k);
    if k in m {
      TakeOut(m, m.Keys, k);
      assert m'.Keys - {k} == m.Keys - {k};
      SameCounts(m, m', m.Keys - {k});
    } else {
      assert m'.Keys - {k} == m.Keys;
      SameCounts(m, m', m.Keys);
    }
  }

  /** The per-route counts add up to all finished requests. */
  lemma {:induction false} CountsAddUp(events: seq<Finished>)
    ensures CountOver(RoutesOf(events), RoutesOf(events).Keys) == |events|
  {
    if events != [] {
      var routes, f := RoutesOf(events[..|events| - 1]), events[|events| - 1];
      CountsAddUp(events[..|events| - 1]);
      var key := KeyFor(routes, f.route);
      UpdateCount(routes, key, Observed(Entry(routes, key), f.sample));
    }
  }

  lemma OneMoreFinished(events: seq<Finished>, f: Finished)
    ensures var routes := RoutesOf(events);
      var key := KeyFor(routes, f.route);
      RoutesOf(events + [f]) == routes[key := Observed(Entry(routes, key), f.sample)]
  {
    assert (events + [f])[..|events|] == events;
  }

  // ---- the metrics object ------------------------------------------------------------------

  class ServiceMetrics {
    var activeRequests: int
    var routes: Routes
    ghost var started: nat
    ghost var dropped: nat
    ghost var finished: seq<Finished>

    ghost predicate Valid()
      reads this
    {
      && routes == RoutesOf(finished)
      && activeRequests == started - dropped
      && |finished| <= dropped <= started
    }

    constructor ()
      ensures Valid() && started == 0 && finished == []
    {
      activeRequests, routes := 0, map[];
      started, dropped, finished := 0, 0, [];
    }

    method StartRequest()
      requires Valid()
      modifies this
      ensures Valid() && started == old(started) + 1 && dropped == old(dropped) && finished == old(finished)
    {
      activeRequests := activeRequests + 1;
      started := started + 1;
    }

    /** `finish`: the entry is updated, then the guard's drop takes the request off the gauge. */
    method Finish(route: string, sample: Sample)
      requires Valid() && dropped < started
      modifies this
      ensures Valid() && started == old(started) && dropped == old(dropped) + 1
      ensures finished == old(finished) + [Finished(route, sample)]
    {
      var key := if route in routes || |routes| < MAX_ROUTE_KEYS then route else OVERFLOW_ROUTE;
      var st := if key in routes then routes[key] else FRESH;
      OneMoreFinished(finished, Finished(route, sample));
      assert key == KeyFor(routes, route) && st == Entry(routes, key);
      routes := routes[key := Observed(st, sample)];
      finished := finished + [Finished(route, sample)];
      activeRequests := activeRequests - 1;
      dropped := dropped + 1;
    }

    /** A guard dropped without `finish` only leaves the gauge. */
    method Abandon()
      requires Valid() && dropped < started
      modifies this
      ensures Valid() && started == old(started) && dropped == old(dropped) + 1 && finished == old(finished)
    {
      activeRequests := activeRequests - 1;
      dropped := dropped + 1;
    }

    /** `None` exactly when nothing was booked under the route's name, never a made-up zero. */
    method RoutePercentiles(route: string) returns (r: Option<(real, real, real)>)
      requires Valid()
      ensures r.None? <==> Booked(finished, route) == []
      ensures r.Some? ==>
        var v := StatsOf(Booked(finished, route)).latencies;
        v != [] && r.value == (Percentile(v, 0.50), Percentile(v, 0.95), Percentile(v, 0.99))
      ensures r.Some? ==> r.value.0 <= r.value.1 <= r.value.2 <= StatsOf(Booked(finished, route)).maxMs
      ensures r.Some? ==> forall x :: x in {r.value.0, r.value.1, r.value.2} ==> x in Newest(Booked(finished, route))
      ensures r.Some? ==>
        var newest := Newest(Booked(finished, route));
        IsPercentile(newest, 0.50, r.value.0) && IsPercentile(newest, 0.95, r.value.1) && IsPercentile(newest, 0.99, r.value.2)
    {
      EntriesAreBooked(finished, route);
      if route !in routes {
        return None;
      }
      PercentilesOrdered(Booked(finished, route));
      var v := routes[route].latencies;
      ReservoirIsNewest(Booked(finished, route));
      PercentileRanks(v, Newest(Booked(finished, route)), 0.50);
      PercentileRanks(v, Newest(Booked(finished, route)), 0.95);
      PercentileRanks(v, Newest(Booked(finished, route)), 0.99);
      r := Some((Percentile(v, 0.50), Percentile(v, 0.95), Percentile(v, 0.99)));
    }
  }
}
