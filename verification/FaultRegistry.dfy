/** The fault registry: ordered rules, their counters, and the log of firings, as a function of the
    sequence of hits; and the object that maintains them hit by hit. */
module FaultRegistry {

  import opened Options
  import opened FaultSpec

  /** A hit of a point, in the scope its thread is in. */
  datatype Hit = Hit(point: Point, scope: Option<Scope>)

  /** Whether `prob=p,seed=s` fires `point` at the rule's `n`-th hit: a pure function of the four. */
  type Chance = (real, nat, Point, nat) -> bool

  datatype Firing = Firing(no: nat, point: Point, scope: Option<Scope>, hit: nat, trigger: string, action: string)

  predicate Matches(r: Rule, h: Hit) {
    r.point == h.point && (r.scope.None? || r.scope == h.scope)
  }

  /** How many of the hits the rule is about. */
  function Matched(r: Rule, hits: seq<Hit>): nat {
    if hits == [] then 0
    else Matched(r, hits[..|hits| - 1]) + if Matches(r, hits[|hits| - 1]) then 1 else 0
  }

  // ---- which rule fires --------------------------------------------------------------------

  /** Rule `i` would fire at the last hit, were it not for the rules before it; `fired` are the rules
      that fired earlier. */
  predicate WantsAfter(c: Chance, rules: seq<Rule>, fired: set<nat>, hits: seq<Hit>, i: nat)
    requires hits != [] && i < |rules|
  {
    && Matches(rules[i], hits[|hits| - 1])
    && match rules[i].trigger
       case Once => i !in fired
       case Nth(n) => Matched(rules[i], hits) == n
       case Prob(p, seed) => c(p, seed, rules[i].point, Matched(rules[i], hits))
  }

  /** The first rule from `i` on that wants the last hit. */
  function FirstWanting(c: Chance, rules: seq<Rule>, fired: set<nat>, hits: seq<Hit>, i: nat): (r: Option<nat>)
    requires hits != [] && i <= |rules|
    ensures match r
      case Some(w) =>
        && i <= w < |rules| && WantsAfter(c, rules, fired, hits, w)
        && forall j :: i <= j < w ==> !WantsAfter(c, rules, fired, hits, j)
      case None => forall j :: i <= j < |rules| ==> !WantsAfter(c, rules, fired, hits, j)
    decreases |rules| - i
  {
    if i == |rules| then None
    else if WantsAfter(c, rules, fired, hits, i) then Some(i)
    else FirstWanting(c, rules, fired, hits, i + 1)
  }

  /** The rules that fired. */
  function FiredRules(c: Chance, rules: seq<Rule>, hits: seq<Hit>): set<nat> {
    if hits == [] then {}
    else
      var before := FiredRules(c, rules, hits[..|hits| - 1]);
      match FirstWanting(c, rules, before, hits, 0)
      case None => before
      case Some(i) => before + {i}
  }

  predicate Wants(c: Chance, rules: seq<Rule>, hits: seq<Hit>, i: nat)
    requires hits != [] && i < |rules|
  {
    WantsAfter(c, rules, FiredRules(c, rules, hits[..|hits| - 1]), hits, i)
  }

  /** The rule that fires at the last hit: the first one that wants it. */
  function Winner(c: Chance, rules: seq<Rule>, hits: seq<Hit>): (r: Option<nat>)
    requires hits != []
    ensures match r
      case Some(w) => w < |rules| && IsFirst(c, rules, hits, w)
      case None => forall j :: 0 <= j < |rules| ==> !Wants(c, rules, hits, j)
  {
    FirstWanting(c, rules, FiredRules(c, rules, hits[..|hits| - 1]), hits, 0)
  }

  /** The firings of a whole history, numbered. */
  function FiringLog(c: Chance, f: FloatText, rules: seq<Rule>, hits: seq<Hit>): seq<Firing> {
    if hits == [] then []
    else
      var before, h := FiringLog(c, f, rules, hits[..|hits| - 1]), hits[|hits| - 1];
      match Winner(c, rules, hits)
      case None => before
      case Some(i) =>
        before + [Firing(|before| + 1, h.point, h.scope, Matched(rules[i], hits),
                         TriggerLabel(f, rules[i].trigger), ActionLabel(rules[i].action))]
  }

  /** Rule `i` wants the hit and no rule before it does. */
  predicate IsFirst(c: Chance, rules: seq<Rule>, hits: seq<Hit>, i: nat)
    requires hits != [] && i < |rules|
  {
    Wants(c, rules, hits, i) && forall j :: 0 <= j < i ==> !Wants(c, rules, hits, j)
  }

  lemma WinnerIs(c: Chance, rules: seq<Rule>, hits: seq<Hit>, i: nat)
    requires hits != [] && i < |rules|
    ensures Winner(c, rules, hits) == Some(i) <==> IsFirst(c, rules, hits, i)
  {
  }

  // ---- whole histories ---------------------------------------------------------------------

  /** The history up to and including hit `k`. */
  function Upto(hits: seq<Hit>, k: nat): (h: seq<Hit>)
    requires k < |hits|
    ensures |h| == k + 1 && h[k] == hits[k]
  {
    hits[..k + 1]
  }

  /** Hit `k` is about rule `i` and no rule before it takes the hit: the rule is not masked there. */
  predicate Unmasked(c: Chance, rules: seq<Rule>, hits: seq<Hit>, k: nat, i: nat)
    requires k < |hits| && i < |rules|
  {
    Matches(rules[i], hits[k]) && forall j :: 0 <= j < i ==> !Wants(c, rules, Upto(hits, k), j)
  }

  predicate FiresAt(c: Chance, rules: seq<Rule>, hits: seq<Hit>, k: nat, i: nat)
    requires k < |hits|
  {
    Winner(c, rules, Upto(hits, k)) == Some(i)
  }

  lemma {:induction false} FiredSomewhere(c: Chance, rules: seq<Rule>, hits: seq<Hit>, k: nat, i: nat)
    requires k <= |hits| && i < |rules|
    ensures i in FiredRules(c, rules, hits[..k]) <==> exists j :: 0 <= j < k && FiresAt(c, rules, hits, j, i)
  {
    if k > 0 {
      FiredSomewhere(c, rules, hits, k - 1, i);
      assert hits[..k][..k - 1] == hits[..k - 1];
      assert Upto(hits, k - 1) == hits[..k];
      assert i in FiredRules(c, rules, hits[..k]) <==>
             i in FiredRules(c, rules, hits[..k - 1]) || FiresAt(c, rules, hits, k - 1, i);
    }
  }

  /** A `once` rule fires at the first hit it is about that no earlier rule takes, and at no other: when
      it is masked it waits for the next one. */
  lemma {:induction false} OnceFiresExactly(c: Chance, rules: seq<Rule>, hits: seq<Hit>, k: nat, i: nat)
    requires k < |hits| && i < |rules| && rules[i].trigger.Once?
    ensures FiresAt(c, rules, hits, k, i) <==>
            (Unmasked(c, rules, hits, k, i) && forall j :: 0 <= j < k ==> !Unmasked(c, rules, hits, j, i))
  {
    WinnerIs(c, rules, Upto(hits, k), i);
    FiredSomewhere(c, rules, hits, k, i);
    assert Upto(hits, k)[..k] == hits[..k];
    forall j | 0 <= j < k
      ensures FiresAt(c, rules, hits, j, i) ==> Unmasked(c, rules, hits, j, i)
    {
      WinnerIs(c, rules, Upto(hits, j), i);
    }
    if exists j :: 0 <= j < k && Unmasked(c, rules, hits, j, i) {
      FiresByThen(c, rules, hits, k, i);
    }
  }

  /** Once there has been an unmasked hit, the rule has fired. */
  lemma {:induction false} FiresByThen(c: Chance, rules: seq<Rule>, hits: seq<Hit>, k: nat, i: nat)
    requires k <= |hits| && i < |rules| && rules[i].trigger.Once?
    requires exists j :: 0 <= j < k && Unmasked(c, rules, hits, j, i)
    ensures exists j :: 0 <= j < k && FiresAt(c, rules, hits, j, i)
  {
    var j :| 0 <= j < k && Unmasked(c, rules, hits, j, i);
    FiredSomewhere(c, rules, hits, j, i);
    assert Upto(hits, j)[..j] == hits[..j];
    if i !in FiredRules(c, rules, hits[..j]) {
      assert Wants(c, rules, Upto(hits, j), i);
      assert FiresAt(c, rules, hits, j, i);
    }
  }

  /** An `nth=N` rule fires exactly at its N-th hit, and only if no earlier rule takes that hit. */
  lemma NthFiresExactly(c: Chance, rules: seq<Rule>, hits: seq<Hit>, k: nat, i: nat)
    requires k < |hits| && i < |rules| && rules[i].trigger.Nth?
    ensures FiresAt(c, rules, hits, k, i) <==>
            (Unmasked(c, rules, hits, k, i) && Matched(rules[i], Upto(hits, k)) == rules[i].trigger.n)
  {
    WinnerIs(c, rules, Upto(hits, k), i);
  }

  lemma {:induction false} MatchedGrows(r: Rule, hits: seq<Hit>, j: nat, k: nat)
    requires j <= k <= |hits|
    ensures Matched(r, hits[..j]) <= Matched(r, hits[..k])
    ensures j < k && Matches(r, hits[k - 1]) ==> Matched(r, hits[..j]) < Matched(r, hits[..k])
  {
    if j < k {
      MatchedGrows(r, hits, j, k - 1);
      assert hits[..k][..k - 1] == hits[..k - 1];
    }
  }

  /** A rule other than `prob` fires at most once. */
  lemma AtMostOnce(c: Chance, rules: seq<Rule>, hits: seq<Hit>, j: nat, k: nat, i: nat)
    requires j < k < |hits| && i < |rules| && FiresAt(c, rules, hits, j, i) && FiresAt(c, rules, hits, k, i)
    ensures rules[i].trigger.Prob?
  {
    match rules[i].trigger
    case Once =>
      OnceFiresExactly(c, rules, hits, k, i);
      OnceFiresExactly(c, rules, hits, j, i);
    case Nth(n) =>
      NthFiresExactly(c, rules, hits, j, i);
      NthFiresExactly(c, rules, hits, k, i);
      MatchedGrows(rules[i], hits, j + 1, k + 1);
    case Prob(_, _) =>
  }

  /** An `nth=N` rule whose N-th hit goes to an earlier rule never fires, however the run goes on. */
  lemma MaskedNthNeverFires(c: Chance, rules: seq<Rule>, hits: seq<Hit>, k: nat, i: nat, j: nat)
    requires k < |hits| && i < |rules| && rules[i].trigger.Nth? && j < |hits|
    requires Matches(rules[i], hits[k]) && Matched(rules[i], Upto(hits, k)) == rules[i].trigger.n
    requires !Unmasked(c, rules, hits, k, i)
    ensures !FiresAt(c, rules, hits, j, i)
  {
    NthFiresExactly(c, rules, hits, j, i);
    if Matches(rules[i], hits[j]) {
      if j < k {
        MatchedGrows(rules[i], hits, j + 1, k + 1);
      } else if k < j {
        MatchedGrows(rules[i], hits, k + 1, j + 1);
      }
    }
  }

  // ---- the log -----------------------------------------------------------------------------

  /** The hits at which some rule fired, in order. */
  function FiringHits(c: Chance, rules: seq<Rule>, hits: seq<Hit>): (ks: seq<nat>)
    ensures forall j :: 0 <= j < |ks| ==> ks[j] < |hits|
  {
    if hits == [] then []
    else
      var before := FiringHits(c, rules, hits[..|hits| - 1]);
      if Winner(c, rules, hits).Some? then before + [|hits| - 1] else before
  }

  /** The entry that rule `i`'s firing at hit `k` leaves. */
  function EntryFor(f: FloatText, rules: seq<Rule>, hits: seq<Hit>, k: nat, i: nat, no: nat): Firing
    requires k < |hits| && i < |rules|
  {
    Firing(no, hits[k].point, hits[k].scope, Matched(rules[i], Upto(hits, k)),
           TriggerLabel(f, rules[i].trigger), ActionLabel(rules[i].action))
  }

  lemma {:induction false} FiringHitsExactly(c: Chance, rules: seq<Rule>, hits: seq<Hit>)
    ensures var ks := FiringHits(c, rules, hits);
      && (forall a, b :: 0 <= a < b < |ks| ==> ks[a] < ks[b])
      && (forall k :: 0 <= k < |hits| ==> (k in ks <==> Winner(c, rules, Upto(hits, k)).Some?))
  {
    if hits != [] {
      var last := |hits| - 1;
      var init := hits[..last];
      FiringHitsExactly(c, rules, init);
      var ks := FiringHits(c, rules, init);
      assert forall j :: 0 <= j < |ks| ==> ks[j] < last;
      assert Upto(hits, last) == hits;
      assert forall k :: 0 <= k < last ==> Upto(hits, k) == Upto(init, k);
    }
  }

  /** The log's entry number `a + 1` is the one that hit `k` leaves. */
  ghost predicate LogsHit(c: Chance, f: FloatText, rules: seq<Rule>, hits: seq<Hit>, e: Firing, k: nat, a: nat) {
    && k < |hits| && Winner(c, rules, Upto(hits, k)).Some?
    && e == EntryFor(f, rules, hits, k, Winner(c, rules, Upto(hits, k)).value, a + 1)
  }

  lemma {:induction false} LogEntries(c: Chance, f: FloatText, rules: seq<Rule>, hits: seq<Hit>)
    ensures var log, ks := FiringLog(c, f, rules, hits), FiringHits(c, rules, hits);
      |log| == |ks| && forall a :: 0 <= a < |log| ==> LogsHit(c, f, rules, hits, log[a], ks[a], a)
  {
    if hits != [] {
      var last := |hits| - 1;
      var init := hits[..last];
      LogEntries(c, f, rules, init);
      var log, ks := FiringLog(c, f, rules, init), FiringHits(c, rules, init);
      forall a | 0 <= a < |log|
        ensures LogsHit(c, f, rules, hits, log[a], ks[a], a)
      {
        assert LogsHit(c, f, rules, init, log[a], ks[a], a);
        assert Upto(hits, ks[a]) == Upto(init, ks[a]);
      }
      assert Upto(hits, last) == hits;
    }
  }

  /** The log has one entry for each hit at which a rule fired, in the order of the hits, numbered 1, 2,
      3 and so on, each naming the hit, the winning rule's own count and its labels. */
  lemma LogExactly(c: Chance, f: FloatText, rules: seq<Rule>, hits: seq<Hit>)
    ensures var log, ks := FiringLog(c, f, rules, hits), FiringHits(c, rules, hits);
      && |log| == |ks|
      && (forall a, b :: 0 <= a < b < |ks| ==> ks[a] < ks[b])
      && (forall k :: 0 <= k < |hits| ==> (k in ks <==> Winner(c, rules, Upto(hits, k)).Some?))
      && (forall a :: 0 <= a < |log| ==>
            && Winner(c, rules, Upto(hits, ks[a])).Some?
            && log[a] == EntryFor(f, rules, hits, ks[a], Winner(c, rules, Upto(hits, ks[a])).value, a + 1))
  {
    FiringHitsExactly(c, rules, hits);
    LogEntries(c, f, rules, hits);
    var log, ks := FiringLog(c, f, rules, hits), FiringHits(c, rules, hits);
    forall a | 0 <= a < |log|
      ensures LogsHit(c, f, rules, hits, log[a], ks[a], a)
    {
    }
  }

  // ---- counters ----------------------------------------------------------------------------

  type HitTable = map<Hit, nat>

  function Get(t: HitTable, h: Hit): nat {
    if h in t then t[h] else 0
  }

  function Bumped(t: HitTable, h: Hit): HitTable {
    t[h := Get(t, h) + 1]
  }

  /** Hits per point and scope. */
  function TableAfter(hits: seq<Hit>): HitTable {
    if hits == [] then map[] else Bumped(TableAfter(hits[..|hits| - 1]), hits[|hits| - 1])
  }

  /** The table's total over the hits a rule is about. */
  function RuleTotal(r: Rule, t: HitTable): nat {
    match r.scope
    case Some(s) => Get(t, Hit(r.point, Some(s)))
    case None => Get(t, Hit(r.point, None)) + Get(t, Hit(r.point, Some(Flush))) + Get(t, Hit(r.point, Some(Compaction)))
  }

  lemma BumpedTotal(r: Rule, t: HitTable, h: Hit)
    ensures RuleTotal(r, Bumped(t, h)) == RuleTotal(r, t) + if Matches(r, h) then 1 else 0
  {
    assert h == Hit(h.point, h.scope);
    if h.scope.Some? {
      assert h.scope == Some(h.scope.value) && (h.scope.value == Flush || h.scope.value == Compaction);
    }
  }

  /** Every rule's own counter is the matching total of the hit table. */
  lemma {:induction false} CountersAddUp(r: Rule, hits: seq<Hit>)
    ensures Matched(r, hits) == RuleTotal(r, TableAfter(hits))
  {
    if hits != [] {
      var before, h := hits[..|hits| - 1], hits[|hits| - 1];
      CountersAddUp(r, before);
      BumpedTotal(r, TableAfter(before), h);
    }
  }

  // ---- the probabilistic schedule ----------------------------------------------------------

  /** The hit numbers, up to `upto`, at which the trigger fires. */
  function Schedule(c: Chance, p: real, seed: nat, point: Point, upto: nat): seq<nat> {
    if upto == 0 then []
    else
      var before := Schedule(c, p, seed, point, upto - 1);
      if c(p, seed, point, upto) then before + [upto] else before
  }

  /** The schedule lists, in ascending order, exactly the hit numbers at which the trigger fires. */
  lemma {:induction false} ScheduleExactly(c: Chance, p: real, seed: nat, point: Point, upto: nat)
    ensures var r := Schedule(c, p, seed, point, upto);
      && (forall h :: h in r <==> 1 <= h <= upto && c(p, seed, point, h))
      && (forall i, j :: 0 <= i < j < |r| ==> r[i] < r[j])
  {
    if upto > 0 {
      ScheduleExactly(c, p, seed, point, upto - 1);
      var before := Schedule(c, p, seed, point, upto - 1);
      assert forall i :: 0 <= i < |before| ==> before[i] in before;
    }
  }

  method ProbSchedule(c: Chance, p: real, seed: nat, point: Point, upto: nat) returns (r: seq<nat>)
    ensures r == Schedule(c, p, seed, point, upto)
  {
    r := [];
    for h := 1 to upto + 1
      invariant r == Schedule(c, p, seed, point, h - 1)
    {
      if c(p, seed, point, h) {
        r := r + [h];
      }
    }
  }

  /** A rule's number at one of its hits is one of its numbers. */
  lemma OwnNumber(r: Rule, hits: seq<Hit>, k: nat)
    requires k < |hits| && Matches(r, hits[k])
    ensures 1 <= Matched(r, Upto(hits, k)) <= Matched(r, hits)
  {
    MatchedGrows(r, hits, k, k + 1);
    MatchedGrows(r, hits, k + 1, |hits|);
    assert hits[..|hits|] == hits;
  }

  /** A `prob` rule, wherever it stands in the list, fires exactly at its hits that its schedule lists and
      no earlier rule takes. */
  lemma ProbFiresExactly(c: Chance, rules: seq<Rule>, hits: seq<Hit>, k: nat, i: nat)
    requires k < |hits| && i < |rules| && rules[i].trigger.Prob?
    ensures var tr := rules[i].trigger;
      FiresAt(c, rules, hits, k, i) <==>
      (Unmasked(c, rules, hits, k, i)
       && Matched(rules[i], Upto(hits, k)) in Schedule(c, tr.p, tr.seed, rules[i].point, Matched(rules[i], hits)))
  {
    var tr := rules[i].trigger;
    WinnerIs(c, rules, Upto(hits, k), i);
    ScheduleExactly(c, tr.p, tr.seed, rules[i].point, Matched(rules[i], hits));
    if Matches(rules[i], hits[k]) {
      OwnNumber(rules[i], hits, k);
    }
  }

  /** The rule's own hit numbers at which it fired. */
  function FiredNumbers(c: Chance, rules: seq<Rule>, hits: seq<Hit>, i: nat): seq<nat>
    requires i < |rules|
  {
    if hits == [] then []
    else
      var before := FiredNumbers(c, rules, hits[..|hits| - 1], i);
      if Winner(c, rules, hits) == Some(i) then before + [Matched(rules[i], hits)] else before
  }

  /** The first rule, when it is `prob`, fires at exactly the hits its schedule lists. */
  lemma {:induction false} FiresOnSchedule(c: Chance, rules: seq<Rule>, hits: seq<Hit>)
    requires rules != [] && rules[0].trigger.Prob?
    ensures var tr := rules[0].trigger;
      FiredNumbers(c, rules, hits, 0) == Schedule(c, tr.p, tr.seed, rules[0].point, Matched(rules[0], hits))
  {
    if hits != [] {
      FiresOnSchedule(c, rules, hits[..|hits| - 1]);
      WinnerIs(c, rules, hits, 0);
    }
  }

  // ---- the registry object -----------------------------------------------------------------

  datatype RuleState = RuleState(rule: Rule, hits: nat, done: bool)

  datatype Outcome = Proceed | Fail(kind: ErrKind) | Short(n: nat) | Halt

  /** `abort`, `simcrash` and a `pause` without end do not come back. */
  function OutcomeOf(a: Action): Outcome {
    match a
    case Abort => Halt
    case SimCrash => Halt
    case Pause(ms) => if ms.None? then Halt else Proceed
    case Error(k) => Fail(k)
    case ShortWrite(n) => Short(n)
    case Delay(_) => Proceed
    case Log => Proceed
  }

  function OutcomeAfter(c: Chance, rules: seq<Rule>, hits: seq<Hit>): Outcome
    requires hits != []
  {
    match Winner(c, rules, hits)
    case None => Proceed
    case Some(i) => OutcomeOf(rules[i].action)
  }

  predicate FiresLast(c: Chance, rules: seq<Rule>, hits: seq<Hit>, i: nat)
    requires hits != []
  {
    FiresAt(c, rules, hits, |hits| - 1, i)
  }

  /** What `evaluate` answers at the last hit: what the rule that fires there asks for. */
  ghost predicate Answers(c: Chance, rules: seq<Rule>, hits: seq<Hit>, o: Outcome)
    requires hits != []
  {
    && ((forall i :: 0 <= i < |rules| ==> !FiresLast(c, rules, hits, i)) ==> o == Proceed)
    && (forall i :: 0 <= i < |rules| && FiresLast(c, rules, hits, i) ==>
          match rules[i].action
          case Error(k) => o == Fail(k)
          case ShortWrite(n) => o == Short(n)
          case Abort => o == Halt
          case SimCrash => o == Halt
          case Pause(None) => o == Halt
          case _ => o == Proceed)
  }

  /** What `fire` answers: a short write means nothing to it. */
  ghost predicate FireAnswers(c: Chance, rules: seq<Rule>, hits: seq<Hit>, o: Outcome)
    requires hits != []
  {
    && ((forall i :: 0 <= i < |rules| ==> !FiresLast(c, rules, hits, i)) ==> o == Proceed)
    && (forall i :: 0 <= i < |rules| && FiresLast(c, rules, hits, i) ==>
          match rules[i].action
          case Error(k) => o == Fail(k)
          case Abort => o == Halt
          case SimCrash => o == Halt
          case Pause(None) => o == Halt
          case _ => o == Proceed)
  }

  /** What `write_all` does with a buffer of `size` items: how many it writes, and what it answers. */
  ghost predicate WriteAnswers(c: Chance, rules: seq<Rule>, hits: seq<Hit>, size: nat, written: nat, o: Outcome)
    requires hits != []
  {
    && ((forall i :: 0 <= i < |rules| ==> !FiresLast(c, rules, hits, i)) ==> o == Proceed && written == size)
    && (forall i :: 0 <= i < |rules| && FiresLast(c, rules, hits, i) ==>
          match rules[i].action
          case Error(k) => o == Fail(k) && written == 0
          case ShortWrite(n) => o == Fail(WriteZero) && written == if size == 0 then 0 else if n < size - 1 then n else size - 1
          case Abort => o == Halt && written == 0
          case SimCrash => o == Halt && written == 0
          case Pause(None) => o == Halt && written == 0
          case _ => o == Proceed && written == size)
  }

  lemma OutcomeAnswers(c: Chance, rules: seq<Rule>, hits: seq<Hit>)
    requires hits != []
    ensures Answers(c, rules, hits, OutcomeAfter(c, rules, hits))
  {
    assert Upto(hits, |hits| - 1) == hits;
    forall i | 0 <= i < |rules|
      ensures FiresLast(c, rules, hits, i) <==> Winner(c, rules, hits) == Some(i)
    {
    }
  }

  lemma FireFollows(c: Chance, rules: seq<Rule>, hits: seq<Hit>, o: Outcome)
    requires hits != [] && Answers(c, rules, hits, o)
    ensures FireAnswers(c, rules, hits, if o.Short? then Proceed else o)
  {
  }

  lemma WriteFollows(c: Chance, rules: seq<Rule>, hits: seq<Hit>, size: nat, o: Outcome)
    requires hits != [] && Answers(c, rules, hits, o)
    ensures match o
      case Proceed => WriteAnswers(c, rules, hits, size, size, Proceed)
      case Short(n) =>
        var room := if size == 0 then 0 else size - 1;
        WriteAnswers(c, rules, hits, size, if n < room then n else room, Fail(WriteZero))
      case _ => WriteAnswers(c, rules, hits, size, 0, o)
  {
    assert (forall i :: 0 <= i < |rules| ==> !FiresLast(c, rules, hits, i)) ==> o == Proceed;
  }

  /** The hits among the first `upto` that are at the rule's point and, if it names a scope, in that scope. */
  function HitsMeant(r: Rule, hits: seq<Hit>, upto: nat): set<nat>
    requires upto <= |hits|
  {
    set j: nat | j < upto && hits[j].point == r.point && (r.scope.None? || hits[j].scope == r.scope)
  }

  lemma {:induction false} MatchedIsMeant(r: Rule, hits: seq<Hit>, k: nat)
    requires k <= |hits|
    ensures Matched(r, hits[..k]) == |HitsMeant(r, hits, k)|
  {
    if k == 0 {
      assert HitsMeant(r, hits, 0) == {};
    } else {
      MatchedIsMeant(r, hits, k - 1);
      assert hits[..k][..k - 1] == hits[..k - 1];
      if Matches(r, hits[k - 1]) {
        assert HitsMeant(r, hits, k) == HitsMeant(r, hits, k - 1) + {k - 1};
      } else {
        assert HitsMeant(r, hits, k) == HitsMeant(r, hits, k - 1);
      }
    }
  }

  lemma {:induction false} OneRuleParsed(t: PointTable, f: FloatText, r: Rule)
    requires TableOk(t) && RuleOk(t, r) && r.trigger.Nth?
    ensures Parsed(t, f, Print(t, f, r)) == Ok([r])
  {
    RoundTrip(t, f, [r], [Print(t, f, r)]);
  }

  lemma {:induction false} OneNthAnswers(r: Rule, c: Chance, hits: seq<Hit>, k: nat, o: Outcome)
    requires r.trigger.Nth? && r.action.Error? && k < |hits| && FireAnswers(c, [r], hits[..k + 1], o)
    ensures o == if k in HitsMeant(r, hits, k + 1) && |HitsMeant(r, hits, k + 1)| == r.trigger.n then Fail(r.action.kind) else Proceed
  {
    var upto := hits[..k + 1];
    assert Upto(upto, k) == upto;
    NthFiresExactly(c, [r], upto, k, 0);
    MatchedIsMeant(r, hits, k + 1);
    assert FiresLast(c, [r], upto, 0) <==> FiresAt(c, [r], upto, k, 0);
  }

  /** From the text of a rule to the answers: with `nth=N:error=K` alone, the N-th call at its point, and in
      its scope, fails with K, and every other call proceeds. */
  lemma NthErrorAnswers(t: PointTable, f: FloatText, r: Rule, c: Chance, hits: seq<Hit>, k: nat, o: Outcome)
    requires TableOk(t) && RuleOk(t, r) && r.trigger.Nth? && r.action.Error? && k < |hits|
    requires FireAnswers(c, [r], hits[..k + 1], o)
    ensures Parsed(t, f, Print(t, f, r)) == Ok([r])
    ensures o == if k in HitsMeant(r, hits, k + 1) && |HitsMeant(r, hits, k + 1)| == r.trigger.n then Fail(r.action.kind) else Proceed
  {
    OneRuleParsed(t, f, r);
    OneNthAnswers(r, c, hits, k, o);
  }

  /** A spec that is accepted never asks a point for what its call site cannot do: an error comes up
      only where there is a `Result` to carry it, a short write only at a wrapper. */
  lemma OutcomesFit(t: PointTable, f: FloatText, spec: string, c: Chance, hits: seq<Hit>)
    requires Parsed(t, f, spec).Ok? && hits != []
    ensures var o, point := OutcomeAfter(c, Parsed(t, f, spec).value, hits), hits[|hits| - 1].point;
      (o.Fail? ==> point in t.fallible) && (o.Short? ==> point in t.wrappers)
  {
    AcceptedExactly(t, f, spec);
    var rules := Parsed(t, f, spec).value;
    var w := Winner(c, rules, hits);
    if w.Some? {
      assert RuleOk(t, rules[w.value]);
    }
  }

  /** What the registry keeps about rule `i` after a history. */
  function RuleStateAfter(c: Chance, rules: seq<Rule>, hits: seq<Hit>, i: nat): RuleState
    requires i < |rules|
  {
    RuleState(rules[i], Matched(rules[i], hits), !rules[i].trigger.Prob? && i in FiredRules(c, rules, hits))
  }

  /** The test `evaluate` makes on a rule's own record, its counter already advanced. */
  predicate FiresNow(c: Chance, st: RuleState) {
    match st.rule.trigger
    case Once => !st.done
    case Nth(n) => !st.done && st.hits == n
    case Prob(p, seed) => c(p, seed, st.rule.point, st.hits)
  }

  lemma {:induction false} DoneIsPast(c: Chance, rules: seq<Rule>, hits: seq<Hit>, i: nat)
    requires i < |rules| && rules[i].trigger.Nth? && i in FiredRules(c, rules, hits)
    ensures Matched(rules[i], hits) >= rules[i].trigger.n
  {
    var before := hits[..|hits| - 1];
    if i in FiredRules(c, rules, before) {
      DoneIsPast(c, rules, before, i);
    } else {
      assert Winner(c, rules, hits) == Some(i);
    }
  }

  /** The test on the record decides what the history says: the rule wants the hit. */
  lemma RecordDecides(c: Chance, rules: seq<Rule>, before: seq<Hit>, h: Hit, i: nat)
    requires i < |rules| && Matches(rules[i], h)
    ensures var st := RuleStateAfter(c, rules, before, i);
      FiresNow(c, st.(hits := st.hits + 1)) <==> Wants(c, rules, before + [h], i)
  {
    assert (before + [h])[..|before|] == before;
    if rules[i].trigger.Nth? && i in FiredRules(c, rules, before) {
      DoneIsPast(c, rules, before, i);
    }
  }

  /** A rule's record after one more hit. */
  lemma RecordStep(c: Chance, rules: seq<Rule>, before: seq<Hit>, h: Hit, i: nat)
    requires i < |rules|
    ensures var st, st' := RuleStateAfter(c, rules, before, i), RuleStateAfter(c, rules, before + [h], i);
      && st'.hits == st.hits + (if Matches(rules[i], h) then 1 else 0)
      && st'.done == (st.done || (!rules[i].trigger.Prob? && Winner(c, rules, before + [h]) == Some(i)))
  {
    assert (before + [h])[..|before|] == before;
  }

  class Registry {
    const table: PointTable
    const text: FloatText
    const chance: Chance
    var armed: bool
    var rules: seq<RuleState>
    var pointHits: HitTable
    var fireNo: nat
    var log: seq<Firing>
    ghost var program: seq<Rule>
    ghost var history: seq<Hit>

    /** Everything the registry keeps is what the hits since `install` say. */
    ghost predicate Valid()
      reads this
    {
      && |rules| == |program|
      && (forall i :: 0 <= i < |rules| ==> rules[i] == RuleStateAfter(chance, program, history, i))
      && pointHits == TableAfter(history)
      && log == FiringLog(chance, text, program, history)
      && fireNo == |log|
    }

    constructor (table: PointTable, text: FloatText, chance: Chance)
      ensures Valid() && !armed && program == [] && history == []
      ensures this.table == table && this.text == text && this.chance == chance
    {
      this.table, this.text, this.chance := table, text, chance;
      armed, rules, pointHits, fireNo, log := false, [], map[], 0, [];
      program, history := [], [];
    }

    /** A spec that does not parse changes nothing; one that does starts afresh. */
    method Install(spec: string, trace: bool) returns (r: Result<()>)
      requires Valid()
      modifies this
      ensures Valid()
      ensures match Parsed(table, text, spec)
        case Err(e) => r == Err(e) && armed == old(armed) && program == old(program) && history == old(history)
        case Ok(parsed) => r == Ok(()) && armed == (parsed != [] || trace) && program == parsed && history == []
    {
      var parsed := ParseSpec(table, text, spec);
      if parsed.Err? {
        return Err(parsed.error);
      }
      var list := parsed.value;
      rules := seq(|list|, i requires 0 <= i < |list| => RuleState(list[i], 0, false));
      pointHits, fireNo, log := map[], 0, [];
      program, history := list, [];
      armed := list != [] || trace;
      r := Ok(());
    }

    /** What the guard does when it goes out of scope: nothing of the program or its history stays. */
    method Disarm()
      modifies this
      ensures Valid() && !armed && program == [] && history == []
    {
      armed, rules, pointHits, fireNo, log := false, [], map[], 0, [];
      program, history := [], [];
    }

    /** Runs the rules over one hit, in order. An unarmed registry does not even count. */
    method Evaluate(point: Point, scope: Option<Scope>) returns (o: Outcome)
      requires Valid()
      modifies this
      ensures Valid() && armed == old(armed) && program == old(program)
      ensures history == if armed then old(history) + [Hit(point, scope)] else old(history)
      ensures o == if armed then OutcomeAfter(chance, program, history) else Proceed
      ensures armed ==> Answers(chance, program, history, o)
    {
      if !armed {
        return Proceed;
      }
      var h := Hit(point, scope);
      ghost var before, after := history, history + [h];
      assert after[..|before|] == before;
      var chosen: Option<RuleState>;
      rules, chosen := Scan(h);
      history := after;
      pointHits := Bumped(pointHits, h);
      if chosen.None? {
        OutcomeAnswers(chance, program, history);
        return Proceed;
      }
      OutcomeAnswers(chance, program, history);
      fireNo := fireNo + 1;
      var st := chosen.value;
      log := log + [Firing(fireNo, point, scope, st.hits, TriggerLabel(text, st.rule.trigger), ActionLabel(st.rule.action))];
      o := OutcomeOf(st.rule.action);
    }

    /** The loop over the rules: advances the counters, and picks and marks the first that fires. */
    method Scan(h: Hit) returns (rs: seq<RuleState>, chosen: Option<RuleState>)
      requires Valid()
      ensures |rs| == |program|
      ensures forall i :: 0 <= i < |rs| ==> rs[i] == RuleStateAfter(chance, program, history + [h], i)
      ensures match Winner(chance, program, history + [h])
        case None => chosen == None
        case Some(w) =>
          && chosen.Some? && chosen.value.rule == program[w]
          && chosen.value.hits == Matched(program[w], history + [h])
    {
      rs, chosen := rules, None;
      ghost var after := history + [h];
      ghost var w: nat := 0;
      for i := 0 to |rules|
        invariant |rs| == |program|
        invariant forall j :: 0 <= j < i ==> rs[j] == RuleStateAfter(chance, program, after, j)
        invariant forall j :: i <= j < |rs| ==> rs[j] == RuleStateAfter(chance, program, history, j)
        invariant chosen.None? ==> forall j :: 0 <= j < i ==> !Wants(chance, program, after, j)
        invariant chosen.Some? ==>
          && w < i && IsFirst(chance, program, after, w) && chosen.value.rule == program[w]
          && chosen.value.hits == Matched(program[w], after)
      {
        RecordStep(chance, program, history, h, i);
        WinnerIs(chance, program, after, i);
        if Matches(rs[i].rule, h) {
          RecordDecides(chance, program, history, h, i);
          var st := rs[i].(hits := rs[i].hits + 1);
          if FiresNow(chance, st) && chosen.None? {
            if !st.rule.trigger.Prob? {
              st := st.(done := true);
            }
            chosen := Some(st);
            w := i;
          }
          rs := rs[i := st];
        }
      }
      if chosen.Some? {
        WinnerIs(chance, program, after, w);
      }
    }

    /** At a fallible point an `error` rule turns into the error; a short write means nothing here. */
    method Fire(point: Point, scope: Option<Scope>) returns (o: Outcome)
      requires Valid()
      modifies this
      ensures Valid() && armed == old(armed) && program == old(program)
      ensures history == if armed then old(history) + [Hit(point, scope)] else old(history)
      ensures !armed ==> o == Proceed
      ensures armed ==>
        match OutcomeAfter(chance, program, history)
        case Short(_) => o == Proceed
        case other => o == other
      ensures armed ==> FireAnswers(chance, program, history, o)
    {
      o := Evaluate(point, scope);
      if armed {
        FireFollows(chance, program, history, o);
      }
      if o.Short? {
        o := Proceed;
      }
    }

    /** Writes the buffer through the point: all of it, or, at a short write, a proper part of it. */
    method WriteAll<T>(point: Point, scope: Option<Scope>, buf: seq<T>) returns (written: seq<T>, o: Outcome)
      requires Valid()
      modifies this
      ensures Valid() && armed == old(armed) && program == old(program)
      ensures history == if armed then old(history) + [Hit(point, scope)] else old(history)
      ensures written <= buf && !o.Short?
      ensures o == Proceed ==> written == buf
      ensures o != Proceed && buf != [] ==> |written| < |buf|
      ensures !armed ==> o == Proceed
      ensures armed ==>
        match OutcomeAfter(chance, program, history)
        case Short(n) => o == Fail(WriteZero) && |written| == if n < |buf| then n else if |buf| == 0 then 0 else |buf| - 1
        case other => o == other && (o != Proceed ==> written == [])
      ensures armed ==> WriteAnswers(chance, program, history, |buf|, |written|, o)
    {
      o := Evaluate(point, scope);
      if armed {
        WriteFollows(chance, program, history, |buf|, o);
      }
      match o
      case Proceed => written := buf;
      case Short(n) =>
        var room := if |buf| == 0 then 0 else |buf| - 1;
        written := buf[..if n < room then n else room];
        o := Fail(WriteZero);
      case _ => written := [];
    }
  }
}
