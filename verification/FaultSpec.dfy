/** The fault-rule language: `point[@scope]=trigger:action`, rules separated by `;`, its parser and
    the labels a firing is logged with. */
module FaultSpec {

  import opened Options
  import opened Text

  // ---- points ------------------------------------------------------------------------------

  type Point = nat

  /** The table of named boundaries: which of them can carry an error, which can write short. */
  datatype PointTable = PointTable(names: seq<string>, fallible: set<Point>, wrappers: set<Point>)

  /** The first point that has the name. */
  function FromName(names: seq<string>, name: string): (r: Option<Point>)
    ensures r.Some? ==> r.value < |names| && names[r.value] == name && name !in names[..r.value]
    ensures r.None? ==> name !in names
  {
    if names == [] then None
    else if names[0] == name then Some(0)
    else
      match FromName(names[1..], name)
      case None => None
      case Some(i) =>
        assert names[..i + 1] == [names[0]] + names[1..][..i];
        Some(i + 1)
  }

  predicate NameChar(c: char) {
    'a' <= c <= 'z' || c == '_' || c == '.'
  }

  predicate Plain(s: string) {
    s != "" && forall i :: 0 <= i < |s| ==> NameChar(s[i])
  }

  /** What the source's table of names satisfies: distinct names of lower-case letters, `_` and `.`. */
  ghost predicate TableOk(t: PointTable) {
    && (forall i :: 0 <= i < |t.names| ==> Plain(t.names[i]))
    && (forall i, j :: 0 <= i < j < |t.names| ==> t.names[i] != t.names[j])
  }

  // ---- rules -------------------------------------------------------------------------------

  datatype Scope = Flush | Compaction

  datatype ErrKind = Other | StorageFull | PermissionDenied | WriteZero | Interrupted | UnexpectedEof | Enospc

  datatype Trigger = Once | Nth(n: nat) | Prob(p: real, seed: nat)

  datatype Action = Abort | SimCrash | Pause(ms: Option<nat>) | Error(kind: ErrKind) | ShortWrite(n: nat) | Delay(d: nat) | Log

  datatype Rule = Rule(point: Point, scope: Option<Scope>, trigger: Trigger, action: Action)

  datatype SpecError =
    | NoEquals | UnknownPoint | UnknownScope | NoColon
    | BadNth | NthZero | NoSeed | BadProbability | OutsideRange | BadSeed | UnknownTrigger
    | BadNumber | UnknownKind | UnknownAction | Infallible | NoShortWrite

  datatype Result<+T> = Ok(value: T) | Err(error: SpecError)

  /** Floating-point text is the standard library's: how a number is printed and what a text reads as. */
  datatype Float = Finite(r: real) | NonFinite

  datatype FloatText = FloatText(parse: string -> Option<Float>, show: real -> string)

  predicate TriggerOk(tr: Trigger) {
    match tr
    case Once => true
    case Nth(n) => 1 <= n <= U64_MAX
    case Prob(p, seed) => 0.0 < p <= 1.0 && seed <= U64_MAX
  }

  predicate ActionOk(a: Action) {
    match a
    case Pause(Some(ms)) => ms <= U64_MAX
    case ShortWrite(n) => n <= U64_MAX
    case Delay(ms) => ms <= U64_MAX
    case _ => true
  }

  /** A rule that can fire: its point exists and can do what the action asks. */
  predicate RuleOk(t: PointTable, r: Rule) {
    && r.point < |t.names|
    && TriggerOk(r.trigger)
    && ActionOk(r.action)
    && (r.action.Error? ==> r.point in t.fallible)
    && (r.action.ShortWrite? ==> r.point in t.wrappers)
  }

  // ---- labels ------------------------------------------------------------------------------

  function ScopeName(s: Scope): string {
    match s case Flush => "flush" case Compaction => "compaction"
  }

  function KindName(k: ErrKind): string {
    match k
    case Other => "Other"
    case StorageFull => "StorageFull"
    case PermissionDenied => "PermissionDenied"
    case WriteZero => "WriteZero"
    case Interrupted => "Interrupted"
    case UnexpectedEof => "UnexpectedEof"
    case Enospc => "Enospc"
  }

  function TriggerLabel(f: FloatText, tr: Trigger): string {
    match tr
    case Once => "once"
    case Nth(n) => "nth=" + Digits(n)
    case Prob(p, seed) => "prob=" + (f.show(p) + ",seed=" + Digits(seed))
  }

  function ActionLabel(a: Action): string {
    match a
    case Abort => "abort"
    case SimCrash => "simcrash"
    case Pause(None) => "pause"
    case Pause(Some(ms)) => "pause" + "=" + Digits(ms)
    case Error(k) => "error" + "=" + KindName(k)
    case ShortWrite(n) => "shortwrite" + "=" + Digits(n)
    case Delay(ms) => "delay" + "=" + Digits(ms)
    case Log => "log"
  }

  function Subject(t: PointTable, r: Rule): string
    requires r.point < |t.names|
  {
    if r.scope.Some? then t.names[r.point] + "@" + ScopeName(r.scope.value) else t.names[r.point]
  }

  function Print(t: PointTable, f: FloatText, r: Rule): string
    requires r.point < |t.names|
  {
    Subject(t, r) + "=" + (TriggerLabel(f, r.trigger) + ":" + ActionLabel(r.action))
  }

  // ---- reading -----------------------------------------------------------------------------

  /** Position of the first occurrence of `pat`. */
  function FindText(s: string, pat: string): (r: Option<nat>)
    ensures r.Some? ==> r.value <= |s| && pat <= s[r.value..]
    ensures r.Some? ==> forall j :: 0 <= j < r.value ==> !(pat <= s[j..])
    ensures r.None? ==> forall j :: 0 <= j <= |s| ==> !(pat <= s[j..])
  {
    if pat <= s then
      assert s[0..] == s;
      Some(0)
    else if s == "" then None
    else
      var r := FindText(s[1..], pat);
      assert s[0..] == s;
      assert forall j :: 0 < j <= |s| ==> s[j..] == s[1..][j - 1..];
      if r.None? then None else Some(r.value + 1)
  }

  lemma {:induction false} FindTextAt(a: string, pat: string, b: string)
    requires pat != "" && pat[0] !in a
    ensures FindText(a + pat + b, pat) == Some(|a|)
  {
    var s := a + pat + b;
    if a == "" {
      assert s == pat + b;
    } else {
      assert s[0] == a[0];
      assert s[1..] == a[1..] + pat + b;
      FindTextAt(a[1..], pat, b);
    }
  }

  function LowerChar(c: char): char {
    if 'A' <= c <= 'Z' then c + 32 as char else c
  }

  function Lower(s: string): string {
    seq(|s|, i requires 0 <= i < |s| => LowerChar(s[i]))
  }

  function ParseKind(s: string): Option<ErrKind> {
    var l := Lower(s);
    if l == "other" then Some(Other)
    else if l == "storagefull" then Some(StorageFull)
    else if l == "permissiondenied" then Some(PermissionDenied)
    else if l == "writezero" then Some(WriteZero)
    else if l == "interrupted" then Some(Interrupted)
    else if l == "unexpectedeof" then Some(UnexpectedEof)
    else if l == "enospc" then Some(Enospc)
    else None
  }

  function ParseNth(text: string): Result<Trigger> {
    match ParseUnsigned(text, U64_MAX)
    case None => Err(BadNth)
    case Some(n) => if n == 0 then Err(NthZero) else Ok(Nth(n))
  }

  function ParseChance(f: FloatText, p: string, seed: string): Result<Trigger> {
    match f.parse(p)
    case None => Err(BadProbability)
    case Some(v) =>
      if !(v.Finite? && 0.0 < v.r <= 1.0) then Err(OutsideRange)
      else
        match ParseUnsigned(seed, U64_MAX)
        case None => Err(BadSeed)
        case Some(n) => Ok(Prob(v.r, n))
  }

  function ParseProb(f: FloatText, rest: string): Result<Trigger> {
    match FindText(rest, ",seed=")
    case None => Err(NoSeed)
    case Some(i) => ParseChance(f, rest[..i], rest[i + 6..])
  }

  function ParseTrigger(f: FloatText, s: string): Result<Trigger> {
    if s == "once" then Ok(Once)
    else if "nth=" <= s then ParseNth(s[4..])
    else if "prob=" <= s then ParseProb(f, s[5..])
    else Err(UnknownTrigger)
  }

  function ParseWord(s: string): Result<Action> {
    if s == "abort" then Ok(Abort)
    else if s == "simcrash" then Ok(SimCrash)
    else if s == "pause" then Ok(Pause(None))
    else if s == "log" then Ok(Log)
    else Err(UnknownAction)
  }

  function ParseArg(name: string, arg: string): Result<Action> {
    var n := ParseUnsigned(arg, U64_MAX);
    if name == "pause" then (if n.Some? then Ok(Pause(n)) else Err(BadNumber))
    else if name == "error" then
      (match ParseKind(arg)
       case None => Err(UnknownKind)
       case Some(k) => Ok(Error(k)))
    else if name == "shortwrite" then (if n.Some? then Ok(ShortWrite(n.value)) else Err(BadNumber))
    else if name == "delay" then (if n.Some? then Ok(Delay(n.value)) else Err(BadNumber))
    else Err(UnknownAction)
  }

  function ParseAction(s: string): Result<Action> {
    match SplitOnce(s, '=')
    case None => ParseWord(s)
    case Some(parts) => ParseArg(parts.0, parts.1)
  }

  function ParseScope(s: string): Option<Scope> {
    if s == "flush" then Some(Flush) else if s == "compaction" then Some(Compaction) else None
  }

  function ParseEffect(t: PointTable, f: FloatText, point: Point, scope: Option<Scope>, rhs: string): Result<Rule> {
    match SplitOnce(rhs, ':')
    case None => Err(NoColon)
    case Some(parts) =>
      match ParseTrigger(f, parts.0)
      case Err(e) => Err(e)
      case Ok(trigger) =>
        match ParseAction(parts.1)
        case Err(e) => Err(e)
        case Ok(action) =>
          if action.Error? && point !in t.fallible then Err(Infallible)
          else if action.ShortWrite? && point !in t.wrappers then Err(NoShortWrite)
          else Ok(Rule(point, scope, trigger, action))
  }

  function ParseRule(t: PointTable, f: FloatText, raw: string): Result<Rule> {
    match SplitOnce(raw, '=')
    case None => Err(NoEquals)
    case Some(sides) =>
      var at := SplitOnce(sides.0, '@');
      match FromName(t.names, if at.Some? then at.value.0 else sides.0)
      case None => Err(UnknownPoint)
      case Some(point) =>
        if at.None? then ParseEffect(t, f, point, None, sides.1)
        else if ParseScope(at.value.1).None? then Err(UnknownScope)
        else ParseEffect(t, f, point, ParseScope(at.value.1), sides.1)
  }

  // ---- a whole spec ------------------------------------------------------------------------

  /** Unicode's White_Space. */
  predicate IsSpace(c: char) {
    var n := c as int;
    || 9 <= n <= 13 || n == 0x20 || n == 0x85 || n == 0xA0 || n == 0x1680 || 0x2000 <= n <= 0x200A
    || n == 0x2028 || n == 0x2029 || n == 0x202F || n == 0x205F || n == 0x3000
  }

  function TrimStart(s: string): string {
    if s != "" && IsSpace(s[0]) then TrimStart(s[1..]) else s
  }

  function TrimEnd(s: string): string {
    if s != "" && IsSpace(s[|s| - 1]) then TrimEnd(s[..|s| - 1]) else s
  }

  function Trim(s: string): string {
    TrimEnd(TrimStart(s))
  }

  predicate AllSpace(s: string) {
    forall i :: 0 <= i < |s| ==> IsSpace(s[i])
  }

  /** Nothing left to take off at either end. */
  predicate Trimmed(s: string) {
    s == "" || (!IsSpace(s[0]) && !IsSpace(s[|s| - 1]))
  }

  lemma {:induction false} TrimStartCuts(s: string) returns (a: string)
    ensures s == a + TrimStart(s) && AllSpace(a)
    ensures TrimStart(s) == "" || !IsSpace(TrimStart(s)[0])
  {
    if s != "" && IsSpace(s[0]) {
      var rest := TrimStartCuts(s[1..]);
      a := [s[0]] + rest;
    } else {
      a := "";
    }
  }

  lemma {:induction false} TrimEndCuts(s: string) returns (b: string)
    ensures s == TrimEnd(s) + b && AllSpace(b)
    ensures TrimEnd(s) == "" || !IsSpace(TrimEnd(s)[|TrimEnd(s)| - 1])
  {
    if s != "" && IsSpace(s[|s| - 1]) {
      var rest := TrimEndCuts(s[..|s| - 1]);
      b := rest + [s[|s| - 1]];
    } else {
      b := "";
    }
  }

  /** Trimming takes off space at both ends, all of it, and nothing else. */
  lemma TrimExactly(s: string) returns (a: string, b: string)
    ensures s == a + Trim(s) + b && AllSpace(a) && AllSpace(b) && Trimmed(Trim(s))
  {
    a := TrimStartCuts(s);
    b := TrimEndCuts(TrimStart(s));
    assert s == a + Trim(s) + b;
  }

  type Parser = string -> Result<Rule>

  function RuleParser(t: PointTable, f: FloatText): Parser {
    raw => ParseRule(t, f, raw)
  }

  /** One more piece between separators; a blank one counts for nothing. */
  function AddPiece(parse: Parser, done: Result<seq<Rule>>, piece: string): Result<seq<Rule>> {
    if done.Err? || Trim(piece) == "" then done
    else
      match parse(Trim(piece))
      case Err(e) => Err(e)
      case Ok(rule) => Ok(done.value + [rule])
  }

  function ParsePieces(parse: Parser, pieces: seq<string>): Result<seq<Rule>> {
    if pieces == [] then Ok([])
    else AddPiece(parse, ParsePieces(parse, pieces[..|pieces| - 1]), pieces[|pieces| - 1])
  }

  function Parsed(t: PointTable, f: FloatText, spec: string): Result<seq<Rule>> {
    ParsePieces(RuleParser(t, f), Split(spec, ';'))
  }

  lemma {:induction false} ErrorSticks(parse: Parser, pieces: seq<string>, n: nat)
    requires n <= |pieces| && ParsePieces(parse, pieces[..n]).Err?
    ensures ParsePieces(parse, pieces) == ParsePieces(parse, pieces[..n])
  {
    if n == |pieces| {
      assert pieces[..n] == pieces;
    } else {
      var init := pieces[..|pieces| - 1];
      assert init[..n] == pieces[..n];
      ErrorSticks(parse, init, n);
    }
  }

  method ReadPieces(parse: Parser, pieces: seq<string>) returns (r: Result<seq<Rule>>)
    ensures r == ParsePieces(parse, pieces)
  {
    var rules := [];
    for i := 0 to |pieces|
      invariant ParsePieces(parse, pieces[..i]) == Ok(rules)
    {
      assert pieces[..i + 1][..i] == pieces[..i];
      var raw := Trim(pieces[i]);
      if raw != "" {
        var parsed := parse(raw);
        if parsed.Err? {
          ErrorSticks(parse, pieces, i + 1);
          return Err(parsed.error);
        }
        rules := rules + [parsed.value];
      }
    }
    assert pieces[..|pieces|] == pieces;
    r := Ok(rules);
  }

  method ParseSpec(t: PointTable, f: FloatText, spec: string) returns (r: Result<seq<Rule>>)
    ensures r == Parsed(t, f, spec)
  {
    r := ReadPieces(RuleParser(t, f), Split(spec, ';'));
  }

  // ------------------------------------------------------------------------------------------
  // What is accepted
  // ------------------------------------------------------------------------------------------

  lemma {:induction false} ParsedProbOk(f: FloatText, rest: string)
    ensures ParseProb(f, rest).Ok? ==> TriggerOk(ParseProb(f, rest).value)
  {
  }

  lemma {:induction false} ParsedTriggerOk(f: FloatText, s: string)
    ensures ParseTrigger(f, s).Ok? ==> TriggerOk(ParseTrigger(f, s).value)
  {
    if "prob=" <= s {
      ParsedProbOk(f, s[5..]);
    }
  }

  lemma ParsedActionOk(s: string)
    ensures ParseAction(s).Ok? ==> ActionOk(ParseAction(s).value)
  {
  }

  lemma ParsedEffectOk(t: PointTable, f: FloatText, point: Point, scope: Option<Scope>, rhs: string)
    requires point < |t.names|
    ensures var r := ParseEffect(t, f, point, scope, rhs);
      r.Ok? ==> RuleOk(t, r.value) && r.value.point == point && r.value.scope == scope
  {
    var parts := SplitOnce(rhs, ':');
    if parts.Some? {
      ParsedTriggerOk(f, parts.value.0);
      ParsedActionOk(parts.value.1);
    }
  }

  /** A rule that is accepted can fire, and stands for the point and scope written before the `=`. */
  lemma ParsedRuleOk(t: PointTable, f: FloatText, raw: string)
    ensures ParseRule(t, f, raw).Ok? ==> RuleOk(t, ParseRule(t, f, raw).value)
  {
    var sides := SplitOnce(raw, '=');
    if sides.Some? {
      var at := SplitOnce(sides.value.0, '@');
      var point := FromName(t.names, if at.Some? then at.value.0 else sides.value.0);
      if point.Some? {
        ParsedEffectOk(t, f, point.value, if at.Some? then ParseScope(at.value.1) else None, sides.value.1);
      }
    }
  }

  /** The pieces that are not blank, trimmed. */
  function Statements(pieces: seq<string>): seq<string> {
    if pieces == [] then []
    else
      var init := Statements(pieces[..|pieces| - 1]);
      var last := Trim(pieces[|pieces| - 1]);
      if last == "" then init else init + [last]
  }

  /** Each statement gives the rule in its place. */
  predicate Gives(parse: Parser, raws: seq<string>, rules: seq<Rule>) {
    |rules| == |raws| && forall i :: 0 <= i < |raws| ==> parse(raws[i]) == Ok(rules[i])
  }

  predicate Refuses(parse: Parser, raws: seq<string>, e: SpecError) {
    exists i :: 0 <= i < |raws| && parse(raws[i]) == Err(e) && forall j :: 0 <= j < i ==> parse(raws[j]).Ok?
  }

  lemma {:induction false} PiecewiseParsed(parse: Parser, pieces: seq<string>)
    ensures match ParsePieces(parse, pieces)
      case Ok(rules) => Gives(parse, Statements(pieces), rules)
      case Err(e) => Refuses(parse, Statements(pieces), e)
  {
    if pieces != [] {
      var init, last := pieces[..|pieces| - 1], Trim(pieces[|pieces| - 1]);
      PiecewiseParsed(parse, init);
      var before, raws := Statements(init), Statements(pieces);
      assert forall i :: 0 <= i < |before| ==> raws[i] == before[i];
      if last != "" && ParsePieces(parse, init).Ok? {
        assert raws[|before|] == last;
        assert forall i :: 0 <= i < |before| ==> parse(raws[i]).Ok?;
      }
    }
  }

  /** No rule is skipped: a spec either gives one rule per statement, in order, every one of them able
      to fire, or is refused with the error of its first statement that does not parse. */
  lemma AcceptedExactly(t: PointTable, f: FloatText, spec: string)
    ensures match Parsed(t, f, spec)
      case Ok(rules) =>
        && Gives(RuleParser(t, f), Statements(Split(spec, ';')), rules)
        && forall i :: 0 <= i < |rules| ==> RuleOk(t, rules[i])
      case Err(e) => Refuses(RuleParser(t, f), Statements(Split(spec, ';')), e)
  {
    PiecewiseParsed(RuleParser(t, f), Split(spec, ';'));
    if Parsed(t, f, spec).Ok? {
      var raws, rules := Statements(Split(spec, ';')), Parsed(t, f, spec).value;
      forall i | 0 <= i < |rules|
        ensures RuleOk(t, rules[i])
      {
        assert RuleParser(t, f)(raws[i]) == Ok(rules[i]);
        ParsedRuleOk(t, f, raws[i]);
      }
    }
  }

  // ------------------------------------------------------------------------------------------
  // Joining specs
  // ------------------------------------------------------------------------------------------

  /** The first error, or the two rule lists in order. */
  function Then(a: Result<seq<Rule>>, b: Result<seq<Rule>>): Result<seq<Rule>> {
    if a.Err? then a else if b.Err? then b else Ok(a.value + b.value)
  }

  lemma PrependJoin(x: char, rest: seq<string>, more: seq<string>)
    requires rest != []
    ensures [[x] + (rest + more)[0]] + (rest + more)[1..] == [[x] + rest[0]] + rest[1..] + more
  {
  }

  lemma {:induction false} SplitJoin(a: string, c: char, b: string)
    ensures Split(a + [c] + b, c) == Split(a, c) + Split(b, c)
  {
    var s := a + [c] + b;
    if a == "" {
      assert s[0] == c && s[1..] == b;
    } else {
      var tail := a[1..];
      assert s[0] == a[0] && s[1..] == tail + [c] + b;
      SplitJoin(tail, c, b);
      PrependJoin(a[0], Split(tail, c), Split(b, c));
    }
  }

  lemma {:induction false} PiecesJoin(parse: Parser, a: seq<string>, b: seq<string>)
    ensures ParsePieces(parse, a + b) == Then(ParsePieces(parse, a), ParsePieces(parse, b))
  {
    var left := ParsePieces(parse, a);
    if b == [] {
      assert a + b == a;
      assert left.Ok? ==> left.value + [] == left.value;
    } else {
      var init := b[..|b| - 1];
      assert (a + b)[..|a + b| - 1] == a + init && (a + b)[|a + b| - 1] == b[|b| - 1];
      PiecesJoin(parse, a, init);
      var mid := ParsePieces(parse, init);
      assert left.Ok? && mid.Ok? ==> forall r :: left.value + mid.value + [r] == left.value + (mid.value + [r]);
    }
  }

  /** Specs joined by `;` read as the two rule lists joined. */
  lemma SpecsJoin(t: PointTable, f: FloatText, a: string, b: string)
    ensures Parsed(t, f, a + ";" + b) == Then(Parsed(t, f, a), Parsed(t, f, b))
  {
    SplitJoin(a, ';', b);
    PiecesJoin(RuleParser(t, f), Split(a, ';'), Split(b, ';'));
  }

  // ------------------------------------------------------------------------------------------
  // Printing and reading back
  // ------------------------------------------------------------------------------------------

  /** Neither a separator of the grammar nor white space. */
  predicate Quiet(c: char) {
    '!' <= c <= '~' && c != ';' && c != ':' && c != '@'
  }

  predicate AllQuiet(s: string) {
    forall i :: 0 <= i < |s| ==> Quiet(s[i])
  }

  /** The number's text reads back as the number and is made of digits and a point. */
  predicate FloatOk(f: FloatText, tr: Trigger) {
    tr.Prob? ==>
      && f.parse(f.show(tr.p)) == Some(Finite(tr.p))
      && forall i :: 0 <= i < |f.show(tr.p)| ==> IsDigit(f.show(tr.p)[i]) || f.show(tr.p)[i] == '.'
  }

  lemma QuietJoin(a: string, b: string)
    requires AllQuiet(a) && AllQuiet(b)
    ensures AllQuiet(a + b)
  {
  }

  lemma DigitsRead(n: nat)
    requires n <= U64_MAX
    ensures ParseUnsigned(Digits(n), U64_MAX) == Some(n) && AllQuiet(Digits(n))
  {
    DigitsValue(n);
  }

  lemma LowerIs(s: string, l: string)
    requires |s| == |l| && forall i :: 0 <= i < |s| ==> LowerChar(s[i]) == l[i]
    ensures Lower(s) == l
  {
  }

  lemma KindReads(k: ErrKind)
    ensures ParseKind(KindName(k)) == Some(k)
  {
    match k
    case Other => LowerIs("Other", "other");
    case StorageFull => LowerIs("StorageFull", "storagefull");
    case PermissionDenied => LowerIs("PermissionDenied", "permissiondenied");
    case WriteZero => LowerIs("WriteZero", "writezero");
    case Interrupted => LowerIs("Interrupted", "interrupted");
    case UnexpectedEof => LowerIs("UnexpectedEof", "unexpectedeof");
    case Enospc => LowerIs("Enospc", "enospc");
  }

  lemma CaseIgnored(s: string, t: string)
    requires Lower(s) == Lower(t)
    ensures ParseKind(s) == ParseKind(t)
  {
  }

  /** An error kind is read however its letters are cased. */
  lemma KindReadsAnyCase(k: ErrKind, s: string)
    requires Lower(s) == Lower(KindName(k))
    ensures ParseAction("error" + "=" + s) == Ok(Error(k))
  {
    KindReads(k);
    CaseIgnored(s, KindName(k));
    ErrorReads(k, s);
  }

  lemma ErrorReads(k: ErrKind, s: string)
    requires ParseKind(s) == Some(k)
    ensures ParseAction("error" + "=" + s) == Ok(Error(k))
  {
    ArgSplits("error", s);
  }

  /** A kind is read from its name, in any case, and from nothing else. */
  lemma KindReadsExactly(s: string, k: ErrKind)
    ensures ParseKind(s) == Some(k) <==> Lower(s) == Lower(KindName(k))
  {
    KindReads(k);
    if Lower(s) == Lower(KindName(k)) {
      CaseIgnored(s, KindName(k));
    } else if ParseKind(s) == Some(k) {
      LowerName(k);
    }
  }

  lemma LowerName(k: ErrKind)
    ensures Lower(KindName(k))
         == match k
            case Other => "other" case StorageFull => "storagefull" case PermissionDenied => "permissiondenied"
            case WriteZero => "writezero" case Interrupted => "interrupted" case UnexpectedEof => "unexpectedeof"
            case Enospc => "enospc"
  {
    match k
    case Other => LowerIs("Other", "other");
    case StorageFull => LowerIs("StorageFull", "storagefull");
    case PermissionDenied => LowerIs("PermissionDenied", "permissiondenied");
    case WriteZero => LowerIs("WriteZero", "writezero");
    case Interrupted => LowerIs("Interrupted", "interrupted");
    case UnexpectedEof => LowerIs("UnexpectedEof", "unexpectedeof");
    case Enospc => LowerIs("Enospc", "enospc");
  }

  /** How an action can be written: its word, or its word and an argument. */
  ghost predicate Spells(s: string, a: Action) {
    match a
    case Abort => s == "abort"
    case SimCrash => s == "simcrash"
    case Log => s == "log"
    case Pause(None) => s == "pause"
    case Pause(Some(ms)) => SpellsNumber(s, "pause", ms)
    case ShortWrite(n) => SpellsNumber(s, "shortwrite", n)
    case Delay(d) => SpellsNumber(s, "delay", d)
    case Error(k) => "error" + "=" <= s && Lower(s[|"error"| + 1..]) == Lower(KindName(k))
  }

  predicate SpellsNumber(s: string, word: string, n: nat) {
    word + "=" <= s && ParseUnsigned(s[|word| + 1..], U64_MAX) == Some(n)
  }

  lemma {:induction false} SplitAtEquals(s: string, word: string)
    requires '=' !in word
    ensures SplitOnce(s, '=').Some? && SplitOnce(s, '=').value.0 == word <==> word + "=" <= s
    ensures word + "=" <= s ==> SplitOnce(s, '=') == Some((word, s[|word| + 1..]))
  {
    if word + "=" <= s {
      assert s == word + ['='] + s[|word| + 1..];
      SplitOnceAt(word, '=', s[|word| + 1..]);
    }
  }

  lemma KindIsQuiet(k: ErrKind)
    ensures AllQuiet(KindName(k))
  {
  }

  predicate IsWord(a: Action) {
    a.Abort? || a.SimCrash? || a.Log? || a == Pause(None)
  }

  lemma WordsAre(s: string, a: Action)
    requires SplitOnce(s, '=').None?
    ensures ParseAction(s) == Ok(a) <==> IsWord(a) && Spells(s, a)
  {
  }

  /** The word an action with an argument begins with. */
  function Keyword(a: Action): string
    requires !IsWord(a)
  {
    match a case Pause(_) => "pause" case ShortWrite(_) => "shortwrite" case Delay(_) => "delay" case _ => "error"
  }

  predicate ArgumentIs(arg: string, a: Action)
    requires !IsWord(a)
  {
    match a
    case Pause(ms) => ParseUnsigned(arg, U64_MAX) == ms
    case ShortWrite(n) => ParseUnsigned(arg, U64_MAX) == Some(n)
    case Delay(d) => ParseUnsigned(arg, U64_MAX) == Some(d)
    case Error(k) => ParseKind(arg) == Some(k)
  }

  lemma {:induction false} ArgReads(name: string, arg: string, a: Action)
    ensures ParseArg(name, arg) == Ok(a) <==> !IsWord(a) && name == Keyword(a) && ArgumentIs(arg, a)
  {
  }

  lemma {:induction false} ErrorByParts(s: string, k: ErrKind)
    ensures Spells(s, Error(k)) <==> "error" + "=" <= s && ParseKind(s[|"error"| + 1..]) == Some(k)
  {
    if "error" + "=" <= s {
      KindReadsExactly(s[|"error"| + 1..], k);
    }
  }

  lemma {:induction false} NumberByParts(s: string, a: Action)
    requires !IsWord(a) && !a.Error?
    ensures Spells(s, a) <==> Keyword(a) + "=" <= s && ArgumentIs(s[|Keyword(a)| + 1..], a)
  {
    match a
    case Pause(_) =>
    case ShortWrite(_) =>
    case Delay(_) =>
  }

  lemma {:induction false} SpellsByParts(s: string, a: Action)
    requires !IsWord(a)
    ensures Spells(s, a) <==> Keyword(a) + "=" <= s && ArgumentIs(s[|Keyword(a)| + 1..], a)
  {
    if a.Error? {
      ErrorByParts(s, a.kind);
    } else {
      NumberByParts(s, a);
    }
  }

  lemma {:induction false} WordHasNoEquals(s: string, a: Action)
    requires IsWord(a) && Spells(s, a)
    ensures SplitOnce(s, '=').None?
  {
    match a
    case Abort => SplitOnceNone("abort", '=');
    case SimCrash => SplitOnceNone("simcrash", '=');
    case Log => SplitOnceNone("log", '=');
    case _ => SplitOnceNone("pause", '=');
  }

  lemma {:induction false} ArgumentsAre(s: string, a: Action)
    requires SplitOnce(s, '=').Some? && !IsWord(a)
    ensures ParseAction(s) == Ok(a) <==> Spells(s, a)
  {
    var parts := SplitOnce(s, '=').value;
    ArgReads(parts.0, parts.1, a);
    SpellsByParts(s, a);
    SplitAtEquals(s, Keyword(a));
  }

  lemma EqualsFound(s: string, word: string)
    requires word + "=" <= s
    ensures SplitOnce(s, '=').Some?
  {
    assert s[|word|] == '=';
  }

  /** An action is read from the texts that spell it and from no others. */
  lemma {:induction false} ActionReadsExactly(s: string, a: Action)
    ensures ParseAction(s) == Ok(a) <==> Spells(s, a)
  {
    if SplitOnce(s, '=').None? {
      WordsAre(s, a);
      if !IsWord(a) && Spells(s, a) {
        SpellsByParts(s, a);
        EqualsFound(s, Keyword(a));
      }
    } else if IsWord(a) {
      var parts := SplitOnce(s, '=').value;
      ArgReads(parts.0, parts.1, a);
      if Spells(s, a) {
        WordHasNoEquals(s, a);
      }
    } else {
      ArgumentsAre(s, a);
    }
  }

  /** How a trigger can be written; the seed follows the first `,seed=`. */
  ghost predicate TriggerSpelled(f: FloatText, s: string, tr: Trigger) {
    match tr
    case Once => s == "once"
    case Nth(n) => n >= 1 && "nth=" <= s && ParseUnsigned(s[4..], U64_MAX) == Some(n)
    case Prob(p, seed) => "prob=" <= s && exists i: nat :: ChanceSpelled(f, s[5..], p, seed, i)
  }

  ghost predicate ChanceSpelled(f: FloatText, s: string, p: real, seed: nat, i: nat) {
    && i + 6 <= |s| && ",seed=" <= s[i..] && (forall j :: 0 <= j < i ==> !(",seed=" <= s[j..]))
    && f.parse(s[..i]) == Some(Finite(p)) && 0.0 < p <= 1.0 && ParseUnsigned(s[i + 6..], U64_MAX) == Some(seed)
  }

  lemma {:induction false} ChanceSpelledOut(f: FloatText, s: string, p: real, seed: nat)
    requires ParseProb(f, s) == Ok(Prob(p, seed))
    ensures exists i: nat :: ChanceSpelled(f, s, p, seed, i)
  {
    var i := FindText(s, ",seed=").value;
    assert |s[i..]| >= 6;
    assert ChanceSpelled(f, s, p, seed, i);
  }

  lemma {:induction false} SpelledChanceReads(f: FloatText, s: string, p: real, seed: nat, i: nat)
    requires ChanceSpelled(f, s, p, seed, i)
    ensures ParseProb(f, s) == Ok(Prob(p, seed))
  {
    FoundFirst(s, ",seed=", i);
  }

  lemma {:induction false} ChanceReadsExactly(f: FloatText, s: string, p: real, seed: nat)
    ensures ParseProb(f, s) == Ok(Prob(p, seed)) <==> exists i: nat :: ChanceSpelled(f, s, p, seed, i)
  {
    if ParseProb(f, s) == Ok(Prob(p, seed)) {
      ChanceSpelledOut(f, s, p, seed);
    }
    if i: nat :| ChanceSpelled(f, s, p, seed, i) {
      SpelledChanceReads(f, s, p, seed, i);
    }
  }

  lemma FoundFirst(s: string, pat: string, i: nat)
    requires i <= |s| && pat <= s[i..] && forall j :: 0 <= j < i ==> !(pat <= s[j..])
    ensures FindText(s, pat) == Some(i)
  {
    var r := FindText(s, pat);
  }

  lemma {:induction false} OtherTriggers(f: FloatText, s: string)
    ensures ParseProb(f, s).Ok? ==> ParseProb(f, s).value.Prob?
    ensures ParseNth(s).Ok? ==> ParseNth(s).value.Nth?
  {
  }

  /** A trigger is read from the texts that spell it and from no others. */
  lemma {:induction false} TriggerReadsExactly(f: FloatText, s: string, tr: Trigger)
    ensures ParseTrigger(f, s) == Ok(tr) <==> TriggerSpelled(f, s, tr)
  {
    if "nth=" <= s {
      assert s[0] == 'n';
      OtherTriggers(f, s[4..]);
    } else if "prob=" <= s {
      assert s[0] == 'p';
      OtherTriggers(f, s[5..]);
      if tr.Prob? {
        ChanceReadsExactly(f, s[5..], tr.p, tr.seed);
      }
    }
  }

  /** The left-hand side: the point's name, or its name, `@` and a scope. */
  ghost predicate SubjectSpelled(t: PointTable, s: string, point: Point, scope: Option<Scope>) {
    point < |t.names| && t.names[point] !in t.names[..point] &&
    match scope
    case None => s == t.names[point] && '@' !in s
    case Some(x) => s == t.names[point] + "@" + ScopeName(x) && '@' !in t.names[point]
  }

  /** How a rule can be written. */
  ghost predicate RuleSpelled(t: PointTable, f: FloatText, raw: string, r: Rule, subject: string, trigger: string, action: string) {
    && raw == subject + "=" + (trigger + ":" + action) && '=' !in subject && ':' !in trigger
    && SubjectSpelled(t, subject, r.point, r.scope)
    && TriggerSpelled(f, trigger, r.trigger) && Spells(action, r.action)
    && (r.action.Error? ==> r.point in t.fallible) && (r.action.ShortWrite? ==> r.point in t.wrappers)
  }

  lemma SplitGives(s: string, c: char)
    ensures match SplitOnce(s, c)
      case None => c !in s
      case Some((a, b)) => s == a + [c] + b && c !in a
  {
  }

  lemma FirstOfName(names: seq<string>, point: Point)
    requires point < |names| && names[point] !in names[..point]
    ensures FromName(names, names[point]) == Some(point)
  {
  }

  lemma {:induction false} EffectReads(t: PointTable, f: FloatText, point: Point, scope: Option<Scope>, trigger: string, action: string, r: Rule)
    requires ':' !in trigger
    ensures ParseEffect(t, f, point, scope, trigger + ":" + action) == Ok(r)
      <==> r.point == point && r.scope == scope && TriggerSpelled(f, trigger, r.trigger) && Spells(action, r.action)
           && (r.action.Error? ==> r.point in t.fallible) && (r.action.ShortWrite? ==> r.point in t.wrappers)
  {
    SplitOnceAt(trigger, ':', action);
    TriggerReadsExactly(f, trigger, r.trigger);
    ActionReadsExactly(action, r.action);
  }

  lemma {:induction false} SubjectReadsExactly(t: PointTable, s: string, point: Point, scope: Option<Scope>)
    ensures SubjectSpelled(t, s, point, scope)
      <==> (match SplitOnce(s, '@')
            case None => scope == None && FromName(t.names, s) == Some(point)
            case Some((name, x)) => FromName(t.names, name) == Some(point) && scope.Some? && ParseScope(x) == scope)
  {
    SplitGives(s, '@');
    if SubjectSpelled(t, s, point, scope) {
      FirstOfName(t.names, point);
      if scope.Some? {
        SplitOnceAt(t.names[point], '@', ScopeName(scope.value));
        ScopeReadsExactly(ScopeName(scope.value), scope.value);
      } else {
        SplitOnceNone(s, '@');
      }
    } else if scope.Some? && SplitOnce(s, '@').Some? {
      ScopeReadsExactly(SplitOnce(s, '@').value.1, scope.value);
    }
  }

  /** A rule is read from the texts that spell it and from no others. */
  lemma {:induction false} RuleReadsExactly(t: PointTable, f: FloatText, raw: string, r: Rule)
    ensures ParseRule(t, f, raw) == Ok(r) <==> exists subject, trigger, action :: RuleSpelled(t, f, raw, r, subject, trigger, action)
  {
    if ParseRule(t, f, raw) == Ok(r) {
      RuleSpelledOut(t, f, raw, r);
    }
    if subject, trigger, action :| RuleSpelled(t, f, raw, r, subject, trigger, action) {
      SpelledRuleReads(t, f, raw, r, subject, trigger, action);
    }
  }

  lemma {:induction false} RuleParts(t: PointTable, f: FloatText, raw: string, r: Rule, subject: string, rhs: string)
    requires ParseRule(t, f, raw) == Ok(r) && SplitOnce(raw, '=') == Some((subject, rhs))
    ensures SubjectSpelled(t, subject, r.point, r.scope) && ParseEffect(t, f, r.point, r.scope, rhs) == Ok(r)
  {
    SubjectReadsExactly(t, subject, r.point, r.scope);
  }

  lemma {:induction false} EffectSplits(t: PointTable, f: FloatText, point: Point, scope: Option<Scope>, rhs: string)
    returns (trigger: string, action: string)
    requires ParseEffect(t, f, point, scope, rhs).Ok?
    ensures rhs == trigger + ":" + action && ':' !in trigger
  {
    SplitGives(rhs, ':');
    trigger, action := SplitOnce(rhs, ':').value.0, SplitOnce(rhs, ':').value.1;
  }

  lemma {:induction false} RuleSpelledOut(t: PointTable, f: FloatText, raw: string, r: Rule)
    requires ParseRule(t, f, raw) == Ok(r)
    ensures exists subject, trigger, action :: RuleSpelled(t, f, raw, r, subject, trigger, action)
  {
    SplitGives(raw, '=');
    var subject, rhs := SplitOnce(raw, '=').value.0, SplitOnce(raw, '=').value.1;
    RuleParts(t, f, raw, r, subject, rhs);
    var trigger, action := EffectSplits(t, f, r.point, r.scope, rhs);
    EffectReads(t, f, r.point, r.scope, trigger, action, r);
    assert RuleSpelled(t, f, raw, r, subject, trigger, action);
  }

  lemma {:induction false} SpelledRuleReads(t: PointTable, f: FloatText, raw: string, r: Rule, subject: string, trigger: string, action: string)
    requires RuleSpelled(t, f, raw, r, subject, trigger, action)
    ensures ParseRule(t, f, raw) == Ok(r)
  {
    SplitOnceAt(subject, '=', trigger + ":" + action);
    SubjectReadsExactly(t, subject, r.point, r.scope);
    EffectReads(t, f, r.point, r.scope, trigger, action, r);
  }

  /** Why a trigger is refused. */
  lemma {:induction false} TriggerRefused(f: FloatText, s: string, x: string, p: string, seed: string)
    requires ',' !in p
    ensures s != "once" && !("nth=" <= s) && !("prob=" <= s) ==> ParseTrigger(f, s) == Err(UnknownTrigger)
    ensures ParseUnsigned(x, U64_MAX) == None ==> ParseTrigger(f, "nth=" + x) == Err(BadNth)
    ensures ParseUnsigned(x, U64_MAX) == Some(0) ==> ParseTrigger(f, "nth=" + x) == Err(NthZero)
    ensures ',' !in x ==> ParseTrigger(f, "prob=" + x) == Err(NoSeed)
    ensures f.parse(p) == None ==> ParseTrigger(f, "prob=" + (p + ",seed=" + seed)) == Err(BadProbability)
    ensures f.parse(p).Some? && !(f.parse(p).value.Finite? && 0.0 < f.parse(p).value.r <= 1.0) ==>
      ParseTrigger(f, "prob=" + (p + ",seed=" + seed)) == Err(OutsideRange)
    ensures f.parse(p).Some? && f.parse(p).value.Finite? && 0.0 < f.parse(p).value.r <= 1.0 && ParseUnsigned(seed, U64_MAX) == None ==>
      ParseTrigger(f, "prob=" + (p + ",seed=" + seed)) == Err(BadSeed)
  {
    NthPrefix(f, x);
    ProbPrefix(f, x);
    ProbPrefix(f, p + ",seed=" + seed);
    ChanceSplits(f, p, seed);
    if ',' !in x {
      NoSeedIn(x);
    }
  }

  lemma {:induction false} NoSeedIn(x: string)
    requires ',' !in x
    ensures FindText(x, ",seed=") == None
  {
    forall j | 0 <= j <= |x|
      ensures !(",seed=" <= x[j..])
    {
      if j < |x| {
        assert x[j..][0] == x[j];
      }
    }
    var r := FindText(x, ",seed=");
  }

  /** Why an action is refused. */
  lemma {:induction false} ActionRefused(name: string, arg: string, s: string)
    requires '=' !in name && '=' !in s
    ensures s !in {"abort", "simcrash", "pause", "log"} ==> ParseAction(s) == Err(UnknownAction)
    ensures name in {"pause", "shortwrite", "delay"} && ParseUnsigned(arg, U64_MAX) == None ==>
      ParseAction(name + "=" + arg) == Err(BadNumber)
    ensures name == "error" && ParseKind(arg) == None ==> ParseAction(name + "=" + arg) == Err(UnknownKind)
    ensures name !in {"pause", "error", "shortwrite", "delay"} ==> ParseAction(name + "=" + arg) == Err(UnknownAction)
  {
    SplitOnceAt(name, '=', arg);
    SplitOnceNone(s, '=');
  }

  /** Why a rule is refused: the first thing wrong with it, from left to right. */
  lemma {:induction false} RuleRefused(t: PointTable, f: FloatText, raw: string, name: string, scope: string, rhs: string)
    requires '=' !in name && '@' !in name && '=' !in scope && '=' !in raw
    ensures ParseRule(t, f, raw) == Err(NoEquals)
    ensures name !in t.names ==> ParseRule(t, f, name + "=" + rhs) == ParseRule(t, f, name + "@" + scope + "=" + rhs) == Err(UnknownPoint)
    ensures name in t.names && scope != "flush" && scope != "compaction" ==>
      ParseRule(t, f, name + "@" + scope + "=" + rhs) == Err(UnknownScope)
    ensures name in t.names && ':' !in rhs ==> ParseRule(t, f, name + "=" + rhs) == Err(NoColon)
  {
    SplitOnceNone(raw, '=');
    SplitOnceAt(name, '=', rhs);
    SplitOnceNone(name, '@');
    SplitOnceAt(name + "@" + scope, '=', rhs);
    SplitOnceAt(name, '@', scope);
    if ':' !in rhs {
      SplitOnceNone(rhs, ':');
    }
  }

  /** Why the right-hand side is: the trigger first, then the action, then what the point cannot do. */
  lemma {:induction false} EffectRefused(t: PointTable, f: FloatText, point: Point, scope: Option<Scope>, trigger: string, action: string)
    requires ':' !in trigger
    ensures var r := ParseEffect(t, f, point, scope, trigger + ":" + action);
      && (ParseTrigger(f, trigger).Err? ==> r == Err(ParseTrigger(f, trigger).error))
      && (ParseTrigger(f, trigger).Ok? && ParseAction(action).Err? ==> r == Err(ParseAction(action).error))
      && (ParseTrigger(f, trigger).Ok? && ParseAction(action).Ok? ==>
            var a := ParseAction(action).value;
            && (a.Error? && point !in t.fallible ==> r == Err(Infallible))
            && (a.ShortWrite? && point !in t.wrappers ==> r == Err(NoShortWrite)))
  {
    SplitOnceAt(trigger, ':', action);
  }

  /** And a scope from its name alone. */
  lemma ScopeReadsExactly(s: string, x: Scope)
    ensures ParseScope(s) == Some(x) <==> s == ScopeName(x)
  {
  }

  lemma NthPrefix(f: FloatText, text: string)
    ensures ParseTrigger(f, "nth=" + text) == ParseNth(text)
  {
    assert ("nth=" + text)[0] == 'n' && ("nth=" + text)[4..] == text;
  }

  lemma ProbPrefix(f: FloatText, rest: string)
    ensures ParseTrigger(f, "prob=" + rest) == ParseProb(f, rest)
  {
    assert ("prob=" + rest)[0] == 'p' && ("prob=" + rest)[5..] == rest;
  }

  lemma ChanceSplits(f: FloatText, p: string, seed: string)
    requires ',' !in p
    ensures ParseProb(f, p + ",seed=" + seed) == ParseChance(f, p, seed)
  {
    var rest := p + ",seed=" + seed;
    FindTextAt(p, ",seed=", seed);
    assert rest[..|p|] == p && rest[|p| + 6..] == seed;
  }

  lemma TriggerReads(f: FloatText, tr: Trigger)
    requires TriggerOk(tr) && FloatOk(f, tr)
    ensures ParseTrigger(f, TriggerLabel(f, tr)) == Ok(tr)
  {
    match tr
    case Once =>
    case Nth(n) =>
      DigitsRead(n);
      NthPrefix(f, Digits(n));
    case Prob(p, seed) =>
      DigitsRead(seed);
      ProbPrefix(f, f.show(p) + ",seed=" + Digits(seed));
      ChanceSplits(f, f.show(p), Digits(seed));
  }

  lemma ChanceIsQuiet(p: string, seed: string)
    requires AllQuiet(p) && AllQuiet(seed)
    ensures AllQuiet("prob=" + (p + ",seed=" + seed))
  {
    QuietJoin(p, ",seed=");
    QuietJoin(p + ",seed=", seed);
    QuietJoin("prob=", p + ",seed=" + seed);
  }

  lemma TriggerIsQuiet(f: FloatText, tr: Trigger)
    requires TriggerOk(tr) && FloatOk(f, tr)
    ensures AllQuiet(TriggerLabel(f, tr))
  {
    match tr
    case Once =>
    case Nth(n) =>
      DigitsRead(n);
      QuietJoin("nth=", Digits(n));
    case Prob(p, seed) =>
      DigitsRead(seed);
      assert AllQuiet(f.show(p));
      ChanceIsQuiet(f.show(p), Digits(seed));
  }

  lemma ArgSplits(name: string, arg: string)
    requires '=' !in name
    ensures ParseAction(name + "=" + arg) == ParseArg(name, arg)
  {
    SplitOnceAt(name, '=', arg);
  }

  lemma NumberReads(n: nat)
    requires n <= U64_MAX
    ensures ParseArg("pause", Digits(n)) == Ok(Pause(Some(n)))
    ensures ParseArg("shortwrite", Digits(n)) == Ok(ShortWrite(n))
    ensures ParseArg("delay", Digits(n)) == Ok(Delay(n))
  {
    DigitsRead(n);
  }

  lemma ActionReads(a: Action)
    requires ActionOk(a)
    ensures ParseAction(ActionLabel(a)) == Ok(a)
  {
    match a
    case Pause(Some(ms)) =>
      NumberReads(ms);
      ArgSplits("pause", Digits(ms));
    case Error(k) =>
      KindReads(k);
      ArgSplits("error", KindName(k));
    case ShortWrite(n) =>
      NumberReads(n);
      ArgSplits("shortwrite", Digits(n));
    case Delay(ms) =>
      NumberReads(ms);
      ArgSplits("delay", Digits(ms));
    case _ => SplitOnceNone(ActionLabel(a), '=');
  }

  lemma ArgIsQuiet(name: string, arg: string)
    requires AllQuiet(name) && AllQuiet(arg)
    ensures AllQuiet(name + "=" + arg)
  {
  }

  lemma WordsAreQuiet()
    ensures AllQuiet("abort") && AllQuiet("simcrash") && AllQuiet("pause") && AllQuiet("log")
    ensures AllQuiet("error") && AllQuiet("shortwrite") && AllQuiet("delay")
  {
  }

  lemma ActionIsQuiet(a: Action)
    requires ActionOk(a)
    ensures AllQuiet(ActionLabel(a)) && ActionLabel(a) != ""
  {
    WordsAreQuiet();
    match a
    case Pause(Some(ms)) =>
      DigitsRead(ms);
      ArgIsQuiet("pause", Digits(ms));
    case Error(k) =>
      KindIsQuiet(k);
      ArgIsQuiet("error", KindName(k));
    case ShortWrite(n) =>
      DigitsRead(n);
      ArgIsQuiet("shortwrite", Digits(n));
    case Delay(ms) =>
      DigitsRead(ms);
      ArgIsQuiet("delay", Digits(ms));
    case _ =>
  }

  lemma ScopeReads(s: Scope)
    ensures ParseScope(ScopeName(s)) == Some(s) && '=' !in ScopeName(s)
  {
  }

  lemma NameReads(t: PointTable, p: Point)
    requires TableOk(t) && p < |t.names|
    ensures FromName(t.names, t.names[p]) == Some(p)
    ensures '=' !in t.names[p] && '@' !in t.names[p]
  {
    assert Plain(t.names[p]);
  }

  lemma SubjectReads(t: PointTable, r: Rule)
    requires TableOk(t) && r.point < |t.names|
    ensures '=' !in Subject(t, r)
    ensures var at := SplitOnce(Subject(t, r), '@');
      if r.scope.None? then at.None? && FromName(t.names, Subject(t, r)) == Some(r.point)
      else at.Some? && FromName(t.names, at.value.0) == Some(r.point) && ParseScope(at.value.1) == r.scope
  {
    var name := t.names[r.point];
    NameReads(t, r.point);
    if r.scope.Some? {
      ScopeReads(r.scope.value);
      SplitOnceAt(name, '@', ScopeName(r.scope.value));
    } else {
      SplitOnceNone(name, '@');
    }
  }

  lemma RuleReads(t: PointTable, f: FloatText, r: Rule)
    requires TableOk(t) && RuleOk(t, r) && FloatOk(f, r.trigger)
    ensures ParseRule(t, f, Print(t, f, r)) == Ok(r)
  {
    var trigger, action := TriggerLabel(f, r.trigger), ActionLabel(r.action);
    TriggerReads(f, r.trigger);
    ActionReads(r.action);
    SubjectReads(t, r);
    TriggerIsQuiet(f, r.trigger);
    SplitOnceAt(Subject(t, r), '=', trigger + ":" + action);
    SplitOnceAt(trigger, ':', action);
  }

  lemma TrimsToItself(s: string)
    requires s != "" && !IsSpace(s[0]) && !IsSpace(s[|s| - 1])
    ensures Trim(s) == s
  {
  }

  /** No separator and no space. */
  predicate Unbroken(s: string) {
    forall i :: 0 <= i < |s| ==> s[i] != ';' && !IsSpace(s[i])
  }

  lemma UnbrokenJoin(a: string, b: string)
    requires Unbroken(a) && Unbroken(b)
    ensures Unbroken(a + b)
  {
  }

  lemma QuietUnbroken(s: string)
    requires AllQuiet(s)
    ensures Unbroken(s)
  {
  }

  lemma SubjectUnbroken(t: PointTable, r: Rule)
    requires TableOk(t) && r.point < |t.names|
    ensures Unbroken(Subject(t, r)) && Subject(t, r) != ""
  {
    assert Plain(t.names[r.point]);
    assert Unbroken("@") && Unbroken("flush") && Unbroken("compaction");
  }

  lemma {:induction false} PrintIsOnePiece(t: PointTable, f: FloatText, r: Rule)
    requires TableOk(t) && RuleOk(t, r) && FloatOk(f, r.trigger)
    ensures ';' !in Print(t, f, r) && Print(t, f, r) != "" && Trim(Print(t, f, r)) == Print(t, f, r)
  {
    var subject, trigger, action := Subject(t, r), TriggerLabel(f, r.trigger), ActionLabel(r.action);
    TriggerIsQuiet(f, r.trigger);
    ActionIsQuiet(r.action);
    QuietUnbroken(trigger);
    QuietUnbroken(action);
    SubjectUnbroken(t, r);
    PiecesUnbroken(subject, trigger, action);
  }

  lemma {:induction false} PiecesUnbroken(a: string, b: string, c: string)
    requires Unbroken(a) && Unbroken(b) && Unbroken(c) && a != ""
    ensures var s := a + "=" + (b + ":" + c); ';' !in s && s != "" && Trim(s) == s
  {
    UnbrokenJoin(b, ":");
    UnbrokenJoin(b + ":", c);
    UnbrokenJoin(a, "=");
    UnbrokenJoin(a + "=", b + ":" + c);
    TrimsToItself(a + "=" + (b + ":" + c));
  }

  /** The text is one statement, and reads as the rule. */
  predicate ReadsAs(parse: Parser, s: string, r: Rule) {
    s != "" && ';' !in s && Trim(s) == s && parse(s) == Ok(r)
  }

  lemma OneRuleReads(parse: Parser, s: string, r: Rule)
    requires ReadsAs(parse, s, r)
    ensures ParsePieces(parse, Split(s, ';')) == Ok([r])
  {
    SplitNone(s, ';');
    var none: seq<Rule> := [];
    assert ParsePieces(parse, [s][..0]) == Ok(none);
    assert none + [r] == [r];
  }

  lemma NothingReads(parse: Parser)
    ensures ParsePieces(parse, Split("", ';')) == Ok([])
  {
    assert ParsePieces(parse, [""][..0]) == Ok([]);
  }

  lemma OneMoreReads(parse: Parser, spec: string, rules: seq<Rule>, s: string, r: Rule)
    requires ParsePieces(parse, Split(spec, ';')) == Ok(rules) && ReadsAs(parse, s, r)
    ensures ParsePieces(parse, Split(spec + ";" + s, ';')) == Ok(rules + [r])
  {
    OneRuleReads(parse, s, r);
    SplitJoin(spec, ';', s);
    PiecesJoin(parse, Split(spec, ';'), Split(s, ';'));
  }

  /** The texts with a `;` between each two. */
  function Joined(texts: seq<string>): string {
    if texts == [] then ""
    else if |texts| == 1 then texts[0]
    else Joined(texts[..|texts| - 1]) + ";" + texts[|texts| - 1]
  }

  predicate AllRead(parse: Parser, texts: seq<string>, rules: seq<Rule>) {
    |texts| == |rules| && forall i :: 0 <= i < |rules| ==> ReadsAs(parse, texts[i], rules[i])
  }

  lemma FrontRead(parse: Parser, texts: seq<string>, rules: seq<Rule>)
    requires AllRead(parse, texts, rules) && rules != []
    ensures var last := |rules| - 1;
      AllRead(parse, texts[..last], rules[..last]) && ReadsAs(parse, texts[last], rules[last])
  {
  }

  lemma {:induction false} JoinedReads(parse: Parser, texts: seq<string>, rules: seq<Rule>)
    requires AllRead(parse, texts, rules)
    ensures ParsePieces(parse, Split(Joined(texts), ';')) == Ok(rules)
    decreases |rules|
  {
    if rules == [] {
      NothingReads(parse);
    } else {
      var last := |rules| - 1;
      FrontRead(parse, texts, rules);
      assert rules == rules[..last] + [rules[last]];
      if last == 0 {
        OneRuleReads(parse, texts[0], rules[0]);
      } else {
        JoinedReads(parse, texts[..last], rules[..last]);
        OneMoreReads(parse, Joined(texts[..last]), rules[..last], texts[last], rules[last]);
      }
    }
  }

  predicate Printable(t: PointTable, f: FloatText, r: Rule) {
    RuleOk(t, r) && FloatOk(f, r.trigger)
  }

  lemma RuleReadsAs(t: PointTable, f: FloatText, r: Rule)
    requires TableOk(t) && Printable(t, f, r)
    ensures ReadsAs(RuleParser(t, f), Print(t, f, r), r)
  {
    PrintIsOnePiece(t, f, r);
    RuleReads(t, f, r);
  }

  /** Parser and printer undo each other: every list of rules that can fire, written in the documented
      grammar, is read back as itself. */
  lemma RoundTrip(t: PointTable, f: FloatText, rules: seq<Rule>, texts: seq<string>)
    requires TableOk(t) && |texts| == |rules|
    requires forall i :: 0 <= i < |rules| ==> Printable(t, f, rules[i]) && texts[i] == Print(t, f, rules[i])
    ensures Parsed(t, f, Joined(texts)) == Ok(rules)
  {
    forall i | 0 <= i < |rules|
      ensures ReadsAs(RuleParser(t, f), texts[i], rules[i])
    {
      RuleReadsAs(t, f, rules[i]);
    }
    JoinedReads(RuleParser(t, f), texts, rules);
  }
}
