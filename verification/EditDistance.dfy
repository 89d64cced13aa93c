/** The edit distance behind "Did you mean ...?" and the choice of the closest keyword. */
module EditDistance {

  import opened Options

  type Word = seq<bv8>

  function Min(x: nat, y: nat): nat {
    if x <= y then x else y
  }

  function Front(s: Word): Word
    requires s != []
  {
    s[..|s| - 1]
  }

  function Last(s: Word): bv8
    requires s != []
  {
    s[|s| - 1]
  }

  function Differ(a: Word, b: Word): nat
    requires a != [] && b != []
  {
    if Last(a) != Last(b) then 1 else 0
  }

  /** The recurrence the dynamic program fills in. */
  function Lev(a: Word, b: Word): nat
    decreases |a| + |b|
  {
    if a == [] then |b|
    else if b == [] then |a|
    else Min(Lev(Front(a), Front(b)) + Differ(a, b), Min(Lev(Front(a), b) + 1, Lev(a, Front(b)) + 1))
  }

  /** Row `i` of the full table. */
  ghost predicate IsRow(row: seq<nat>, a: Word, i: nat, b: Word, n: nat)
    requires i <= |a| && n <= |b| + 1
  {
    |row| == n && forall j :: 0 <= j < n ==> row[j] == Lev(a[..i], b[..j])
  }

  lemma {:induction false} Cell(a: Word, i: nat, b: Word, j: nat)
    requires i < |a| && j < |b|
    ensures Lev(a[..i + 1], b[..j + 1])
         == Min(Lev(a[..i], b[..j]) + (if a[i] != b[j] then 1 else 0),
                Min(Lev(a[..i], b[..j + 1]) + 1, Lev(a[..i + 1], b[..j]) + 1))
  {
    assert Front(a[..i + 1]) == a[..i] && Front(b[..j + 1]) == b[..j];
  }

  lemma {:induction false} CellFrom(prev: seq<nat>, cur: seq<nat>, a: Word, i: nat, b: Word, j: nat)
    requires i < |a| && j < |b| && IsRow(prev, a, i, b, |b| + 1) && IsRow(cur, a, i + 1, b, j + 1)
    ensures Lev(a[..i + 1], b[..j + 1])
         == Min(Min(prev[j] + (if a[i] != b[j] then 1 else 0), prev[j + 1] + 1), cur[j] + 1)
  {
    Cell(a, i, b, j);
    assert prev[j] == Lev(a[..i], b[..j]) && prev[j + 1] == Lev(a[..i], b[..j + 1]);
    assert cur[j] == Lev(a[..i + 1], b[..j]);
  }

  /** The inner loop: one row from the row above it. */
  method NextRow(prev: seq<nat>, a: Word, i: nat, b: Word) returns (cur: seq<nat>)
    requires i < |a| && IsRow(prev, a, i, b, |b| + 1)
    ensures IsRow(cur, a, i + 1, b, |b| + 1)
  {
    cur := [i + 1];
    assert b[..0] == [];
    for j := 0 to |b|
      invariant IsRow(cur, a, i + 1, b, j + 1)
    {
      var sub := prev[j] + if a[i] != b[j] then 1 else 0;
      var cell := Min(Min(sub, prev[j + 1] + 1), cur[j] + 1);
      CellFrom(prev, cur, a, i, b, j);
      RowGrows(cur, a, i + 1, b, j + 1, cell);
      cur := cur + [cell];
    }
  }

  lemma RowGrows(row: seq<nat>, a: Word, i: nat, b: Word, n: nat, x: nat)
    requires i <= |a| && n <= |b| && IsRow(row, a, i, b, n) && x == Lev(a[..i], b[..n])
    ensures IsRow(row + [x], a, i, b, n + 1)
  {
  }

  /** The two-row dynamic program. */
  method Distance(a: Word, b: Word) returns (d: nat)
    ensures d == Lev(a, b)
  {
    var prev: seq<nat> := seq(|b| + 1, (j: nat) => j);
    for i := 0 to |a|
      invariant IsRow(prev, a, i, b, |b| + 1)
    {
      prev := NextRow(prev, a, i, b);
    }
    assert a[..|a|] == a && b[..|b|] == b;
    d := prev[|b|];
  }

  // ---- shortest edit scripts ---------------------------------------------------------------

  datatype Edit = Keep | Substitute(c: bv8) | Insert(c: bv8) | Delete

  /** What a script makes of a word: each edit but `Insert` uses up one byte, each but `Delete`
      produces one. `None` when the script and the word do not fit. */
  function Run(script: seq<Edit>, a: Word): Option<Word>
    decreases |script|
  {
    if script == [] then (if a == [] then Some([]) else None)
    else
      var rest, edit := script[..|script| - 1], script[|script| - 1];
      match edit
      case Insert(c) => Append(Run(rest, a), [c])
      case Delete => if a == [] then None else Run(rest, Front(a))
      case Keep => if a == [] then None else Append(Run(rest, Front(a)), [Last(a)])
      case Substitute(c) => if a == [] then None else Append(Run(rest, Front(a)), [c])
  }

  function Append(w: Option<Word>, s: Word): Option<Word> {
    match w
    case None => None
    case Some(v) => Some(v + s)
  }

  function Cost(script: seq<Edit>): nat {
    if script == [] then 0
    else Cost(script[..|script| - 1]) + if script[|script| - 1].Keep? then 0 else 1
  }

  lemma SnocScript(script: seq<Edit>, edit: Edit)
    ensures (script + [edit])[..|script + [edit]| - 1] == script
    ensures Cost(script + [edit]) == Cost(script) + if edit.Keep? then 0 else 1
  {
    assert (script + [edit])[..|script|] == script;
  }

  lemma SplitLast(s: Word)
    requires s != []
    ensures Front(s) + [Last(s)] == s
  {
  }

  /** Some script reaches `b` at cost `Lev(a, b)`. */
  lemma {:induction false} ScriptExists(a: Word, b: Word) returns (script: seq<Edit>)
    ensures Run(script, a) == Some(b) && Cost(script) == Lev(a, b)
    decreases |a| + |b|
  {
    if a == [] && b == [] {
      script := [];
    } else if b != [] && (a == [] || Lev(a, b) == Lev(a, Front(b)) + 1) {
      var rest := ScriptExists(a, Front(b));
      script := rest + [Insert(Last(b))];
      SnocScript(rest, Insert(Last(b)));
      SplitLast(b);
    } else if b == [] || Lev(a, b) == Lev(Front(a), b) + 1 {
      var rest := ScriptExists(Front(a), b);
      script := rest + [Delete];
      SnocScript(rest, Delete);
    } else {
      var rest := ScriptExists(Front(a), Front(b));
      var edit := if Last(a) == Last(b) then Keep else Substitute(Last(b));
      script := rest + [edit];
      SnocScript(rest, edit);
      SplitLast(b);
    }
  }

  lemma LastOf(v: Word, c: bv8, b: Word)
    requires v + [c] == b
    ensures b != [] && Front(b) == v && Last(b) == c
  {
  }

  /** No script is cheaper. */
  lemma {:induction false} ScriptsCostMore(script: seq<Edit>, a: Word, b: Word)
    requires Run(script, a) == Some(b)
    ensures Cost(script) >= Lev(a, b)
    decreases |script|
  {
    if script != [] {
      var rest, edit := script[..|script| - 1], script[|script| - 1];
      match edit
      case Insert(c) =>
        LastOf(Run(rest, a).value, c, b);
        ScriptsCostMore(rest, a, Front(b));
      case Delete =>
        ScriptsCostMore(rest, Front(a), b);
      case Keep =>
        LastOf(Run(rest, Front(a)).value, Last(a), b);
        ScriptsCostMore(rest, Front(a), Front(b));
      case Substitute(c) =>
        LastOf(Run(rest, Front(a)).value, c, b);
        ScriptsCostMore(rest, Front(a), Front(b));
    }
  }

  /** `Lev` is the length of a shortest insert/delete/substitute script. */
  lemma LevIsShortest(a: Word, b: Word)
    ensures exists script :: Run(script, a) == Some(b) && Cost(script) == Lev(a, b)
    ensures forall script :: Run(script, a) == Some(b) ==> Cost(script) >= Lev(a, b)
  {
    var best := ScriptExists(a, b);
    forall script | Run(script, a) == Some(b)
      ensures Cost(script) >= Lev(a, b)
    {
      ScriptsCostMore(script, a, b);
    }
  }

  // ---- a metric ----------------------------------------------------------------------------

  lemma {:induction false} ZeroMeansEqual(a: Word, b: Word)
    ensures Lev(a, b) == 0 <==> a == b
    decreases |a| + |b|
  {
    if a != [] && b != [] {
      ZeroMeansEqual(Front(a), Front(b));
      SplitLast(a);
      SplitLast(b);
    }
  }

  lemma {:induction false} Symmetric(a: Word, b: Word)
    ensures Lev(a, b) == Lev(b, a)
    decreases |a| + |b|
  {
    if a != [] && b != [] {
      Symmetric(Front(a), Front(b));
      Symmetric(Front(a), b);
      Symmetric(a, Front(b));
    }
  }

  /** How the last step of an optimal alignment of `a` with `b` may look. */
  lemma LastStep(a: Word, b: Word)
    ensures a == [] && b == [] ==> Lev(a, b) == 0
    ensures a != [] ==> Lev(a, b) <= Lev(Front(a), b) + 1
    ensures b != [] ==> Lev(a, b) <= Lev(a, Front(b)) + 1
    ensures a != [] && b != [] ==> Lev(a, b) <= Lev(Front(a), Front(b)) + Differ(a, b)
    ensures a != [] || b != [] ==>
      || (a != [] && Lev(a, b) == Lev(Front(a), b) + 1)
      || (b != [] && Lev(a, b) == Lev(a, Front(b)) + 1)
      || (a != [] && b != [] && Lev(a, b) == Lev(Front(a), Front(b)) + Differ(a, b))
  {
  }

  lemma {:induction false} Triangle(a: Word, b: Word, c: Word)
    ensures Lev(a, c) <= Lev(a, b) + Lev(b, c)
    decreases |a| + |b| + |c|
  {
    LastStep(a, b);
    LastStep(b, c);
    LastStep(a, c);
    if a != [] && Lev(a, b) == Lev(Front(a), b) + 1 {
      Triangle(Front(a), b, c);
    } else if c != [] && Lev(b, c) == Lev(b, Front(c)) + 1 {
      Triangle(a, b, Front(c));
    } else if b != [] {
      if Lev(a, b) == Lev(a, Front(b)) + 1 {
        if Lev(b, c) == Lev(Front(b), c) + 1 {
          Triangle(a, Front(b), c);
        } else {
          Triangle(a, Front(b), Front(c));
        }
      } else if Lev(b, c) == Lev(Front(b), c) + 1 {
        Triangle(Front(a), Front(b), c);
      } else {
        Triangle(Front(a), Front(b), Front(c));
      }
    }
  }

  // ---- the closest candidate ---------------------------------------------------------------

  function Limit(word: Word): nat {
    if |word| <= 4 then 1 else 2
  }

  predicate Qualifies(word: Word, c: Word) {
    0 < Lev(word, c) <= Limit(word)
  }

  /** The index `min_by_key` settles on among the first candidates: the first least distance. */
  function BestIndex(word: Word, candidates: seq<Word>): (best: Option<nat>)
    ensures best.Some? ==> best.value < |candidates| && Qualifies(word, candidates[best.value])
  {
    if candidates == [] then None
    else
      var n := |candidates| - 1;
      var best := BestIndex(word, candidates[..n]);
      if Qualifies(word, candidates[n])
         && (best.None? || Lev(word, candidates[n]) < Lev(word, candidates[best.value]))
      then Some(n)
      else best
  }

  function Closest(word: Word, candidates: seq<Word>): Option<Word> {
    if |word| < 3 then None
    else
      match BestIndex(word, candidates)
      case None => None
      case Some(i) => Some(candidates[i])
  }

  lemma {:induction false} BestIndexIsFirstLeast(word: Word, candidates: seq<Word>)
    ensures BestIndex(word, candidates).None? <==> forall j :: 0 <= j < |candidates| ==> !Qualifies(word, candidates[j])
    ensures BestIndex(word, candidates).Some? ==>
      var i := BestIndex(word, candidates).value;
      forall j :: 0 <= j < |candidates| && Qualifies(word, candidates[j]) ==>
        Lev(word, candidates[i]) <= Lev(word, candidates[j])
        && (j < i ==> Lev(word, candidates[i]) < Lev(word, candidates[j]))
  {
    if candidates != [] {
      var n := |candidates| - 1;
      var front := candidates[..n];
      BestIndexIsFirstLeast(word, front);
      assert forall j :: 0 <= j < n ==> front[j] == candidates[j];
    }
  }

  /** Near enough to suggest: one edit away, or two for words of five letters and more, and not the same. */
  ghost predicate Near(word: Word, c: Word) {
    Lev(word, c) == 1 || (Lev(word, c) == 2 && |word| >= 5)
  }

  lemma {:induction false} NearQualifies(word: Word, c: Word)
    ensures Qualifies(word, c) <==> Near(word, c)
  {
  }

  /** Nothing is suggested exactly when the word is too short or nothing is near enough; otherwise
      the suggestion is the first candidate at the least non-zero distance within the limit. */
  lemma {:induction false} ClosestIsFirstNearest(word: Word, candidates: seq<Word>)
    ensures Closest(word, candidates).None? <==>
      |word| < 3 || forall j :: 0 <= j < |candidates| ==> !Near(word, candidates[j])
    ensures Closest(word, candidates).Some? ==>
      exists i :: 0 <= i < |candidates| && candidates[i] == Closest(word, candidates).value && Near(word, candidates[i])
        && forall j :: 0 <= j < |candidates| && Near(word, candidates[j]) ==>
             Lev(word, candidates[i]) <= Lev(word, candidates[j])
             && (j < i ==> Lev(word, candidates[i]) < Lev(word, candidates[j]))
  {
    BestIndexIsFirstLeast(word, candidates);
    forall j | 0 <= j < |candidates|
      ensures Qualifies(word, candidates[j]) <==> Near(word, candidates[j])
    {
      NearQualifies(word, candidates[j]);
    }
  }
}
