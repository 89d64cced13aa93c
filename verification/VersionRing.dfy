/** The soak driver's reference model: per key a bounded, seq-sorted slot of recent versions that
    writers fill out of order, answering for the complete history or declining to. */
module VersionRing {

  import opened Options

  const HISTORY_DEPTH: nat := 8
  const KEY_CARDINALITY: nat := 20_000

  type Value = Option<seq<bv8>>

  datatype Version = Version(seqNo: nat, value: Value)

  // ---- one slot ----------------------------------------------------------------------------

  /** One past the last entry not above `seqNo`: where a new version goes. */
  function Place(slot: seq<Version>, seqNo: nat): (pos: nat)
    ensures pos <= |slot|
    ensures pos > 0 ==> slot[pos - 1].seqNo <= seqNo
    ensures forall i :: pos <= i < |slot| ==> slot[i].seqNo > seqNo
  {
    if slot == [] then 0
    else if slot[|slot| - 1].seqNo <= seqNo then |slot|
    else Place(slot[..|slot| - 1], seqNo)
  }

  function InsertAt(slot: seq<Version>, pos: nat, v: Version): seq<Version>
    requires pos <= |slot|
  {
    slot[..pos] + [v] + slot[pos..]
  }

  function Inserted(slot: seq<Version>, v: Version): seq<Version> {
    InsertAt(slot, Place(slot, v.seqNo), v)
  }

  /** The last `HISTORY_DEPTH` entries. */
  function Newest(slot: seq<Version>): seq<Version> {
    if |slot| <= HISTORY_DEPTH then slot else slot[|slot| - HISTORY_DEPTH..]
  }

  function Recorded(slot: seq<Version>, v: Version): seq<Version> {
    Newest(Inserted(slot, v))
  }

  /** The bounded slot after a list of records in arrival order. */
  function SlotOf(history: seq<Version>): seq<Version> {
    if history == [] then []
    else Recorded(SlotOf(history[..|history| - 1]), history[|history| - 1])
  }

  /** The complete history in seq order, nothing dropped. */
  function Sorted(history: seq<Version>): seq<Version> {
    if history == [] then []
    else Inserted(Sorted(history[..|history| - 1]), history[|history| - 1])
  }

  predicate Ascending(slot: seq<Version>) {
    forall i, j :: 0 <= i < j < |slot| ==> slot[i].seqNo <= slot[j].seqNo
  }

  lemma AppendedMultiset(s: seq<Version>, v: Version)
    ensures multiset(s + [v]) == multiset(s) + multiset{v}
  {
  }

  lemma OneMoreEach(slot: seq<Version>, rest: seq<Version>, v: Version)
    requires multiset(slot) == multiset(rest)
    ensures multiset(Inserted(slot, v)) == multiset(rest + [v])
  {
    InsertedMultiset(slot, v);
    AppendedMultiset(rest, v);
  }

  lemma {:induction false} SortedHolds(history: seq<Version>)
    ensures multiset(Sorted(history)) == multiset(history)
  {
    if history != [] {
      var rest, v := history[..|history| - 1], history[|history| - 1];
      SortedHolds(rest);
      assert history == rest + [v];
      OneMoreEach(Sorted(rest), rest, v);
    }
  }

  lemma {:induction false} SortedAscends(history: seq<Version>)
    ensures Ascending(Sorted(history)) && |Sorted(history)| == |history|
  {
    if history != [] {
      var rest, v := history[..|history| - 1], history[|history| - 1];
      SortedAscends(rest);
      InsertedIsSorted(Sorted(rest), v);
    }
  }

  lemma SortedIsSorted(history: seq<Version>)
    ensures Ascending(Sorted(history)) && multiset(Sorted(history)) == multiset(history)
    ensures |Sorted(history)| == |history|
  {
    SortedHolds(history);
    SortedAscends(history);
  }

  lemma InsertedAt(slot: seq<Version>, v: Version, i: nat)
    requires i <= |slot|
    ensures |Inserted(slot, v)| == |slot| + 1
    ensures var pos := Place(slot, v.seqNo);
      Inserted(slot, v)[i] == if i < pos then slot[i] else if i == pos then v else slot[i - 1]
  {
  }

  lemma InsertedInOrder(slot: seq<Version>, v: Version, i: nat, j: nat)
    requires Ascending(slot) && i < j <= |slot|
    ensures Inserted(slot, v)[i].seqNo <= Inserted(slot, v)[j].seqNo
  {
    var pos := Place(slot, v.seqNo);
    InsertedAt(slot, v, i);
    InsertedAt(slot, v, j);
    if i < pos && pos <= j {
      assert slot[i].seqNo <= slot[pos - 1].seqNo;
    }
  }

  lemma InsertedMultiset(slot: seq<Version>, v: Version)
    ensures multiset(Inserted(slot, v)) == multiset(slot) + multiset{v}
  {
    var pos := Place(slot, v.seqNo);
    assert slot == slot[..pos] + slot[pos..];
  }

  lemma InsertedIsSorted(slot: seq<Version>, v: Version)
    requires Ascending(slot)
    ensures Ascending(Inserted(slot, v)) && multiset(Inserted(slot, v)) == multiset(slot) + multiset{v}
  {
    InsertedMultiset(slot, v);
    forall i, j | 0 <= i < j < |Inserted(slot, v)|
      ensures Inserted(slot, v)[i].seqNo <= Inserted(slot, v)[j].seqNo
    {
      InsertedInOrder(slot, v, i, j);
    }
  }

  /** Inserting into the newest part of a sorted list and trimming again is inserting into the whole
      list and trimming: what was dropped earlier never matters. */
  lemma InsertCommutesWithTrim(all: seq<Version>, v: Version)
    requires Ascending(all)
    ensures Newest(Inserted(Newest(all), v)) == Newest(Inserted(all, v))
  {
    if |all| > HISTORY_DEPTH {
      PlaceInSuffix(all, |all| - HISTORY_DEPTH, v.seqNo);
      TrimmedInsert(all, v);
    }
  }

  lemma TrimmedInsert(all: seq<Version>, v: Version)
    requires |all| > HISTORY_DEPTH
    requires var k, p := |all| - HISTORY_DEPTH, Place(all, v.seqNo);
      Place(all[k..], v.seqNo) == if p >= k then p - k else 0
    ensures Newest(Inserted(Newest(all), v)) == Newest(Inserted(all, v))
  {
    TrimmedInsertAt(all, v, Place(all, v.seqNo));
  }

  lemma TrimmedInsertAt(all: seq<Version>, v: Version, p: nat)
    requires |all| > HISTORY_DEPTH && p <= |all|
    ensures var k := |all| - HISTORY_DEPTH;
      Newest(InsertAt(all[k..], if p >= k then p - k else 0, v)) == Newest(InsertAt(all, p, v))
  {
    var k := |all| - HISTORY_DEPTH;
    if p >= k {
      DropAboveCut(all, v, k, p);
    } else {
      DropBelowCut(all, v, k, p);
    }
  }

  lemma DropAboveCut(all: seq<Version>, v: Version, k: nat, p: nat)
    requires k <= p <= |all|
    ensures (all[k..][..p - k] + [v] + all[k..][p - k..])[1..] == (all[..p] + [v] + all[p..])[k + 1..]
  {
    var x, y := all[k..][..p - k] + [v] + all[k..][p - k..], all[..p] + [v] + all[p..];
    assert forall i :: 0 <= i < |x| ==> x[i] == y[k + i];
  }

  lemma DropBelowCut(all: seq<Version>, v: Version, k: nat, p: nat)
    requires p < k <= |all|
    ensures (all[k..][..0] + [v] + all[k..][0..])[1..] == (all[..p] + [v] + all[p..])[k + 1..]
  {
    var x, y := all[k..][..0] + [v] + all[k..][0..], all[..p] + [v] + all[p..];
    assert forall i :: 1 <= i < |x| ==> x[i] == y[k + i];
  }

  lemma PlaceInSuffix(all: seq<Version>, k: nat, seqNo: nat)
    requires Ascending(all) && k <= |all|
    ensures Place(all[k..], seqNo) == if Place(all, seqNo) >= k then Place(all, seqNo) - k else 0
  {
    var p, q := Place(all, seqNo), Place(all[k..], seqNo);
    if q > 0 {
      assert all[k..][q - 1] == all[k + q - 1];
    }
    if p > k {
      assert all[k..][p - 1 - k] == all[p - 1];
    }
    assert forall i :: q <= i < |all| - k ==> all[k..][i] == all[k + i];
  }

  /** However the records arrive, the slot is exactly the newest part of the sorted history. */
  lemma {:induction false} SlotIsNewest(history: seq<Version>)
    ensures SlotOf(history) == Newest(Sorted(history))
  {
    if history != [] {
      var rest, v := history[..|history| - 1], history[|history| - 1];
      SlotIsNewest(rest);
      SortedIsSorted(rest);
      InsertCommutesWithTrim(Sorted(rest), v);
    }
  }

  predicate DistinctSeqs(history: seq<Version>) {
    forall i, j :: 0 <= i < j < |history| ==> history[i].seqNo != history[j].seqNo
  }

  predicate Increasing(s: seq<Version>) {
    forall i, j :: 0 <= i < j < |s| ==> s[i].seqNo < s[j].seqNo
  }

  ghost predicate SameMembers(a: seq<Version>, b: seq<Version>) {
    forall v :: v in a <==> v in b
  }

  lemma SameLast(a: seq<Version>, b: seq<Version>)
    requires Increasing(a) && Increasing(b) && SameMembers(a, b) && |a| == |b| > 0
    ensures a[|a| - 1] == b[|b| - 1]
  {
    var n := |a| - 1;
    assert a[n] in b && b[n] in a;
    var i :| 0 <= i < |b| && b[i] == a[n];
    var j :| 0 <= j < |a| && a[j] == b[n];
  }

  lemma FrontMembers(a: seq<Version>, v: Version)
    requires Increasing(a) && a != []
    ensures v in a[..|a| - 1] <==> v in a && v != a[|a| - 1]
  {
    assert a == a[..|a| - 1] + [a[|a| - 1]];
  }

  lemma {:induction false} IncreasingUnique(a: seq<Version>, b: seq<Version>)
    requires Increasing(a) && Increasing(b) && SameMembers(a, b) && |a| == |b|
    ensures a == b
    decreases |a|
  {
    if a != [] {
      var n := |a| - 1;
      SameLast(a, b);
      forall v
        ensures v in a[..n] <==> v in b[..n]
      {
        FrontMembers(a, v);
        FrontMembers(b, v);
      }
      IncreasingUnique(a[..n], b[..n]);
      assert a == a[..n] + [a[n]] && b == b[..n] + [b[n]];
    }
  }

  lemma MembersOf(a: seq<Version>, b: seq<Version>)
    requires multiset(a) == multiset(b)
    ensures SameMembers(a, b) && |a| == |b|
  {
    assert |a| == |multiset(a)| == |multiset(b)| == |b|;
    forall v
      ensures v in a <==> v in b
    {
      assert v in a <==> v in multiset(a);
      assert v in b <==> v in multiset(b);
    }
  }

  lemma PermutationDistinct(a: seq<Version>, b: seq<Version>)
    requires DistinctSeqs(a) && multiset(a) == multiset(b)
    ensures DistinctSeqs(b)
    decreases |a|
  {
    forall i, j | 0 <= i < j < |b|
      ensures b[i].seqNo != b[j].seqNo
    {
      assert b[i] in multiset(a) && b[j] in multiset(a);
      var p :| 0 <= p < |a| && a[p] == b[i];
      var q :| 0 <= q < |a| && a[q] == b[j];
      if p == q {
        TwiceInSequence(b, i, j);
        OnceInSequence(a, p);
      }
    }
  }

  lemma TwiceInSequence(s: seq<Version>, i: nat, j: nat)
    requires i < j < |s| && s[i] == s[j]
    ensures multiset(s)[s[i]] >= 2
  {
    assert s == s[..i] + [s[i]] + s[i + 1..j] + [s[j]] + s[j + 1..];
  }

  lemma OnceInSequence(s: seq<Version>, p: nat)
    requires p < |s| && DistinctSeqs(s)
    ensures multiset(s)[s[p]] == 1
  {
    assert s == s[..p] + [s[p]] + s[p + 1..];
    assert s[p] !in s[..p] && s[p] !in s[p + 1..];
  }

  lemma SortedIncreases(history: seq<Version>)
    requires DistinctSeqs(history)
    ensures Increasing(Sorted(history)) && SameMembers(Sorted(history), history)
  {
    SortedIsSorted(history);
    PermutationDistinct(history, Sorted(history));
    MembersOf(Sorted(history), history);
  }

  /** With distinct seqs the slot does not depend on the order of arrival. */
  lemma ArrivalOrderIrrelevant(a: seq<Version>, b: seq<Version>)
    requires multiset(a) == multiset(b) && DistinctSeqs(a)
    ensures SlotOf(a) == SlotOf(b)
  {
    PermutationDistinct(a, b);
    MembersOf(a, b);
    SortedIncreases(a);
    SortedIncreases(b);
    SortedAscends(a);
    SortedAscends(b);
    IncreasingUnique(Sorted(a), Sorted(b));
    SlotIsNewest(a);
    SlotIsNewest(b);
  }

  // ---- lookups -----------------------------------------------------------------------------

  /** The last entry not above `asOf`, scanning from the back. */
  function Lookup(slot: seq<Version>, asOf: nat): Option<Version> {
    if slot == [] then None
    else if slot[|slot| - 1].seqNo <= asOf then Some(slot[|slot| - 1])
    else Lookup(slot[..|slot| - 1], asOf)
  }

  function ValueOf(v: Option<Version>): Value {
    match v
    case None => None
    case Some(w) => w.value
  }

  datatype Answer = Ok(value: Value) | Gap

  function AtOrBefore(slot: seq<Version>, asOf: nat): Answer {
    if slot == [] then Ok(None)
    else if slot[0].seqNo > asOf then Gap
    else Ok(ValueOf(Lookup(slot, asOf)))
  }

  lemma {:induction false} LookupInSuffix(all: seq<Version>, k: nat, asOf: nat)
    requires k < |all| && all[k].seqNo <= asOf
    ensures Lookup(all[k..], asOf) == Lookup(all, asOf)
    decreases |all|
  {
    var n := |all| - 1;
    assert all[k..][|all[k..]| - 1] == all[n];
    if all[n].seqNo > asOf {
      assert all[k..][..n - k] == all[..n][k..];
      LookupInSuffix(all[..n], k, asOf);
    }
  }

  lemma NewestIsSuffix(all: seq<Version>)
    ensures |Newest(all)| <= |all| && Newest(all) == all[|all| - |Newest(all)|..]
    ensures Newest(all) == [] <==> all == []
  {
  }

  lemma OldestKept(all: seq<Version>, v: Version)
    requires Ascending(all) && v in Newest(all)
    ensures Newest(all)[0].seqNo <= v.seqNo
  {
    var slot, k := Newest(all), |all| - |Newest(all)|;
    var i :| 0 <= i < |slot| && slot[i] == v;
    assert slot[0] == all[k] && slot[i] == all[k + i];
  }

  lemma NewestAnswers(all: seq<Version>, asOf: nat)
    ensures AtOrBefore(Newest(all), asOf).Ok? ==> AtOrBefore(Newest(all), asOf).value == ValueOf(Lookup(all, asOf))
  {
    NewestIsSuffix(all);
    if Newest(all) != [] && Newest(all)[0].seqNo <= asOf {
      LookupInSuffix(all, |all| - |Newest(all)|, asOf);
    }
  }

  /** Every answer the bounded slot gives is the complete history's answer. */
  lemma AnswersAreComplete(history: seq<Version>, asOf: nat)
    ensures AtOrBefore(SlotOf(history), asOf).Ok? ==>
      AtOrBefore(SlotOf(history), asOf).value == ValueOf(Lookup(Sorted(history), asOf))
  {
    SlotIsNewest(history);
    NewestAnswers(Sorted(history), asOf);
  }

  /** `v` is a version recorded, the highest not above the one asked for. */
  ghost predicate HighestUpto(history: seq<Version>, asOf: nat, v: Version) {
    v in history && v.seqNo <= asOf && forall w :: w in history && w.seqNo <= asOf ==> w.seqNo <= v.seqNo
  }

  lemma FoundIsHighest(history: seq<Version>, all: seq<Version>, asOf: nat)
    requires Ascending(all) && multiset(all) == multiset(history)
    ensures Lookup(all, asOf).Some? ==> HighestUpto(history, asOf, Lookup(all, asOf).value)
    ensures Lookup(all, asOf).None? ==> forall w :: w in history ==> w.seqNo > asOf
  {
    LookupIsHighest(all, asOf);
    forall w
      ensures w in history <==> w in all
    {
      assert w in history <==> w in multiset(history);
      assert w in all <==> w in multiset(all);
    }
  }

  lemma SomethingKept(history: seq<Version>, asOf: nat)
    requires history != [] && AtOrBefore(SlotOf(history), asOf).Ok?
    ensures exists w :: w in history && w.seqNo <= asOf
  {
    var all := Sorted(history);
    SlotIsNewest(history);
    NewestIsSuffix(all);
    SortedIsSorted(history);
    var oldest := Newest(all)[0];
    assert oldest in multiset(all);
    assert oldest in history;
  }

  /** An answer is the value of a version recorded, the highest not above the one asked for. */
  lemma AnswersInFull(history: seq<Version>, asOf: nat)
    requires AtOrBefore(SlotOf(history), asOf).Ok?
    ensures var r := AtOrBefore(SlotOf(history), asOf).value;
      if history == [] then r == None else exists v :: HighestUpto(history, asOf, v) && v.value == r
  {
    if history != [] {
      SortedIsSorted(history);
      FoundIsHighest(history, Sorted(history), asOf);
      SomethingKept(history, asOf);
      AnswersAreComplete(history, asOf);
    }
  }

  /** It declines exactly when something was recorded and everything kept is newer than asked for. */
  lemma DeclinesExactly(history: seq<Version>, asOf: nat)
    ensures AtOrBefore(SlotOf(history), asOf).Gap? <==>
      history != [] && forall v :: v in Newest(Sorted(history)) ==> v.seqNo > asOf
  {
    var all := Sorted(history);
    SlotIsNewest(history);
    SortedIsSorted(history);
    NewestIsSuffix(all);
    if Newest(all) != [] {
      assert Newest(all)[0] in Newest(all);
      forall v | v in Newest(all)
        ensures Newest(all)[0].seqNo <= v.seqNo
      {
        OldestKept(all, v);
      }
    }
  }

  /** What the lookup means: the highest recorded version not above `asOf`, if there is one. */
  lemma {:induction false} LookupIsHighest(all: seq<Version>, asOf: nat)
    requires Ascending(all)
    ensures Lookup(all, asOf).None? <==> forall w :: w in all ==> w.seqNo > asOf
    ensures Lookup(all, asOf).Some? ==> Lookup(all, asOf).value in all && Lookup(all, asOf).value.seqNo <= asOf
    ensures Lookup(all, asOf).Some? ==>
      forall w :: w in all && w.seqNo <= asOf ==> w.seqNo <= Lookup(all, asOf).value.seqNo
  {
    if all != [] {
      var n := |all| - 1;
      if all[n].seqNo <= asOf {
        assert all[n] in all;
        assert forall w :: w in all ==> w.seqNo <= all[n].seqNo;
      } else {
        LookupIsHighest(all[..n], asOf);
        assert all == all[..n] + [all[n]];
      }
    }
  }

  // ---- the model ---------------------------------------------------------------------------

  function HighestSeq(history: seq<Version>): nat {
    if history == [] then 0
    else
      var rest, v := HighestSeq(history[..|history| - 1]), history[|history| - 1].seqNo;
      if v > rest then v else rest
  }

  lemma {:induction false} HighestIsHighest(history: seq<Version>)
    ensures forall v :: v in history ==> v.seqNo <= HighestSeq(history)
    ensures HighestSeq(history) == 0 || exists v :: v in history && v.seqNo == HighestSeq(history)
  {
    if history != [] {
      var rest, last := history[..|history| - 1], history[|history| - 1];
      HighestIsHighest(rest);
      assert history == rest + [last];
      assert last in history;
    }
  }

  lemma {:induction false} LastIsHighest(history: seq<Version>)
    ensures SlotOf(history) == [] <==> history == []
    ensures history != [] ==> SlotOf(history)[|SlotOf(history)| - 1].seqNo == HighestSeq(history)
    ensures history != [] ==> SlotOf(history)[|SlotOf(history)| - 1] in history
  {
    SlotIsNewest(history);
    SortedIsSorted(history);
    NewestIsSuffix(Sorted(history));
    if history != [] {
      SortedLast(history);
      MembersOf(Sorted(history), history);
      assert Sorted(history)[|history| - 1] in Sorted(history);
    }
  }

  lemma {:induction false} SortedLast(history: seq<Version>)
    requires history != []
    ensures Sorted(history) != [] && Sorted(history)[|Sorted(history)| - 1].seqNo == HighestSeq(history)
  {
    var rest, v := history[..|history| - 1], history[|history| - 1];
    if rest != [] {
      SortedLast(rest);
    }
  }

  lemma {:induction false} PlaceStops(slot: seq<Version>, pos: nat, seqNo: nat)
    requires pos <= |slot| && (pos > 0 ==> slot[pos - 1].seqNo <= seqNo)
    requires forall i :: pos <= i < |slot| ==> slot[i].seqNo > seqNo
    ensures Place(slot, seqNo) == pos
    decreases |slot|
  {
    if pos < |slot| {
      PlaceStops(slot[..|slot| - 1], pos, seqNo);
    }
  }

  /** `rposition`, insert, then pop from the front while the slot is too long. */
  method RecordInSlot(slot: seq<Version>, v: Version) returns (r: seq<Version>)
    ensures r == Recorded(slot, v)
  {
    var pos := |slot|;
    while pos > 0 && slot[pos - 1].seqNo > v.seqNo
      invariant 0 <= pos <= |slot|
      invariant forall i :: pos <= i < |slot| ==> slot[i].seqNo > v.seqNo
    {
      pos := pos - 1;
    }
    PlaceStops(slot, pos, v.seqNo);
    r := slot[..pos] + [v] + slot[pos..];
    ghost var full := r;
    while |r| > HISTORY_DEPTH
      invariant Newest(r) == Newest(full)
    {
      PopKeepsNewest(r);
      r := r[1..];
    }
  }

  lemma PopKeepsNewest(r: seq<Version>)
    requires |r| > HISTORY_DEPTH
    ensures Newest(r[1..]) == Newest(r)
  {
  }

  lemma {:induction false} LookupStops(slot: seq<Version>, i: nat, asOf: nat)
    requires i <= |slot| && (i > 0 ==> slot[i - 1].seqNo <= asOf)
    requires forall j :: i <= j < |slot| ==> slot[j].seqNo > asOf
    ensures Lookup(slot, asOf) == if i == 0 then None else Some(slot[i - 1])
    decreases |slot|
  {
    if i < |slot| {
      LookupStops(slot[..|slot| - 1], i, asOf);
    }
  }

  /** The gap test and the scan from the back. */
  method QuerySlot(slot: seq<Version>, asOf: nat) returns (r: Answer)
    ensures r == AtOrBefore(slot, asOf)
  {
    if slot == [] {
      return Ok(None);
    }
    if slot[0].seqNo > asOf {
      return Gap;
    }
    var i := |slot|;
    while i > 0 && slot[i - 1].seqNo > asOf
      invariant 0 <= i <= |slot|
      invariant forall j :: i <= j < |slot| ==> slot[j].seqNo > asOf
    {
      i := i - 1;
    }
    LookupStops(slot, i, asOf);
    r := Ok(if i == 0 then None else slot[i - 1].value);
  }

  lemma OneMoreRecord(history: seq<Version>, v: Version)
    ensures SlotOf(history + [v]) == Recorded(SlotOf(history), v)
    ensures HighestSeq(history + [v]) == if v.seqNo > HighestSeq(history) then v.seqNo else HighestSeq(history)
  {
    assert (history + [v])[..|history|] == history;
  }

  lemma OneKeyRecorded(slots: seq<seq<Version>>, histories: seq<seq<Version>>, k: nat, v: Version)
    requires |slots| == |histories| && k < |slots|
    requires forall i :: 0 <= i < |slots| ==> slots[i] == SlotOf(histories[i])
    ensures var slots', histories' := slots[k := Recorded(slots[k], v)], histories[k := histories[k] + [v]];
      forall i :: 0 <= i < |slots'| ==> slots'[i] == SlotOf(histories'[i])
  {
    OneMoreRecord(histories[k], v);
  }

  /** The slots and the global high-water mark, with the complete histories beside them as ghosts. */
  class RefModel {
    var slots: seq<seq<Version>>
    var lastRecordedSeq: nat
    ghost var histories: seq<seq<Version>>
    ghost var recorded: seq<Version>

    ghost predicate Valid()
      reads this
    {
      && |slots| == |histories| == KEY_CARDINALITY
      && (forall i :: 0 <= i < KEY_CARDINALITY ==> slots[i] == SlotOf(histories[i]))
      && lastRecordedSeq == HighestSeq(recorded)
    }

    constructor ()
      ensures Valid() && recorded == [] && forall i :: 0 <= i < KEY_CARDINALITY ==> histories[i] == []
    {
      slots := seq(KEY_CARDINALITY, _ => []);
      lastRecordedSeq := 0;
      histories := seq(KEY_CARDINALITY, _ => []);
      recorded := [];
    }

    /** The slot is updated under its lock, then the mark is raised. */
    method Record(idx: nat, seqNo: nat, value: Value)
      requires Valid()
      modifies this
      ensures Valid()
      ensures var k := idx % KEY_CARDINALITY;
        histories == old(histories)[k := old(histories)[k] + [Version(seqNo, value)]]
      ensures recorded == old(recorded) + [Version(seqNo, value)]
    {
      var k := idx % KEY_CARDINALITY;
      var v := Version(seqNo, value);
      var slot := RecordInSlot(slots[k], v);
      OneKeyRecorded(slots, histories, k, v);
      OneMoreRecord(recorded, v);
      slots := slots[k := slot];
      if seqNo > lastRecordedSeq {
        lastRecordedSeq := seqNo;
      }
      histories := histories[k := histories[k] + [v]];
      recorded := recorded + [v];
    }

    /** Latest version of a key: one recorded for it, and none recorded for it is higher. */
    method Latest(idx: nat) returns (r: Option<Version>)
      requires Valid()
      ensures r.None? <==> histories[idx % KEY_CARDINALITY] == []
      ensures r.Some? ==> r.value.seqNo == HighestSeq(histories[idx % KEY_CARDINALITY])
      ensures r.Some? ==> r.value in histories[idx % KEY_CARDINALITY]
    {
      var slot := slots[idx % KEY_CARDINALITY];
      LastIsHighest(histories[idx % KEY_CARDINALITY]);
      r := if slot == [] then None else Some(slot[|slot| - 1]);
    }

    method OwnLatestSeq(idx: nat) returns (seqNo: nat)
      requires Valid()
      ensures seqNo == HighestSeq(histories[idx % KEY_CARDINALITY])
    {
      var r := Latest(idx);
      seqNo := if r.None? then 0 else r.value.seqNo;
    }

    method FreshestSafeSeq() returns (r: Option<nat>)
      requires Valid()
      ensures r == if HighestSeq(recorded) == 0 then None else Some(HighestSeq(recorded))
    {
      r := if lastRecordedSeq == 0 then None else Some(lastRecordedSeq);
    }

    /** An `Ok` answer is the complete history's. */
    method Query(idx: nat, asOf: nat) returns (r: Answer)
      requires Valid()
      ensures r.Ok? ==> r.value == ValueOf(Lookup(Sorted(histories[idx % KEY_CARDINALITY]), asOf))
      ensures r.Gap? <==>
        histories[idx % KEY_CARDINALITY] != []
        && forall v :: v in Newest(Sorted(histories[idx % KEY_CARDINALITY])) ==> v.seqNo > asOf
      ensures r.Ok? ==>
        if histories[idx % KEY_CARDINALITY] == [] then r.value == None
        else exists v :: HighestUpto(histories[idx % KEY_CARDINALITY], asOf, v) && v.value == r.value
    {
      r := QuerySlot(slots[idx % KEY_CARDINALITY], asOf);
      if r.Ok? {
        AnswersInFull(histories[idx % KEY_CARDINALITY], asOf);
      }
      AnswersAreComplete(histories[idx % KEY_CARDINALITY], asOf);
      DeclinesExactly(histories[idx % KEY_CARDINALITY], asOf);
    }
  }
}
