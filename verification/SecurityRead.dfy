/** The security log read back: a reader of the JSON objects its lines are, and the proof that a line
    reads as exactly the fields it was written from, whatever they hold. */
module SecurityRead {

  import opened Options
  import opened Text
  import opened SecurityLine

  datatype Member = Text(name: string, text: string) | Number(name: string, n: nat)

  // ---- the reader --------------------------------------------------------------------------

  function HexValue(c: char): Option<nat> {
    if '0' <= c <= '9' then Some((c - '0') as nat)
    else if 'a' <= c <= 'f' then Some((c - 'a') as nat + 10)
    else None
  }

  /** What a backslash and the character behind it stand for. */
  function ShortEscape(c: char): Option<char> {
    if c == '\"' || c == '\\' then Some(c)
    else if c == 'n' then Some('\n')
    else if c == 'r' then Some('\r')
    else if c == 't' then Some('\t')
    else if c == 'b' then Some(8 as char)
    else if c == 'f' then Some(12 as char)
    else None
  }

  /** One character of a JSON string and what follows it; the closing quote is none. */
  function ReadChar(t: string): (r: Option<(char, string)>)
    ensures r.Some? ==> |r.value.1| < |t|
  {
    if t == "" || t[0] == '\"' then None
    else if t[0] != '\\' then Some((t[0], t[1..]))
    else if |t| >= 2 && ShortEscape(t[1]).Some? then Some((ShortEscape(t[1]).value, t[2..]))
    else if |t| >= 6 && t[1] == 'u' && t[2] == '0' && t[3] == '0' then
      match (HexValue(t[4]), HexValue(t[5]))
      case (Some(a), Some(b)) => Some(((16 * a + b) as char, t[6..]))
      case _ => None
    else None
  }

  /** A JSON string from behind its opening quote, and what follows its closing one. */
  function ReadString(t: string): (r: Option<(string, string)>)
    ensures r.Some? ==> |r.value.1| < |t|
    decreases |t|
  {
    if t != "" && t[0] == '\"' then Some(("", t[1..]))
    else
      match ReadChar(t)
      case None => None
      case Some((c, rest)) =>
        match ReadString(rest)
        case None => None
        case Some((s, after)) => Some(([c] + s, after))
  }

  function DigitsOf(t: string): (n: nat)
    ensures n <= |t| && AllDigits(t[..n])
  {
    if t == "" || !IsDigit(t[0]) then 0
    else
      var n := DigitsOf(t[1..]);
      assert t[..n + 1] == [t[0]] + t[1..][..n];
      n + 1
  }

  function ReadMember(t: string): (r: Option<(Member, string)>)
    ensures r.Some? ==> |r.value.1| < |t|
  {
    if t == "" || t[0] != '\"' then None
    else
      match ReadString(t[1..])
      case None => None
      case Some((name, t1)) =>
        if t1 == "" || t1[0] != ':' then None
        else if |t1| > 1 && t1[1] == '\"' then
          match ReadString(t1[2..])
          case None => None
          case Some((s, rest)) => Some((Text(name, s), rest))
        else
          var n := DigitsOf(t1[1..]);
          if n == 0 then None else Some((Number(name, Value(t1[1..][..n])), t1[1..][n..]))
  }

  function ReadMembers(t: string): Option<seq<Member>>
    decreases |t|
  {
    match ReadMember(t)
    case None => None
    case Some((m, rest)) =>
      if rest == "}" then Some([m])
      else if rest == "" || rest[0] != ',' then None
      else
        match ReadMembers(rest[1..])
        case None => None
        case Some(more) => Some([m] + more)
  }

  /** A line of the log as an object. */
  function ReadLine(t: string): Option<seq<Member>> {
    if t == "" || t[0] != '{' then None else ReadMembers(t[1..])
  }

  // ---- strings -----------------------------------------------------------------------------

  lemma HexRead(n: nat)
    requires n < 16
    ensures HexValue(HexDigit(n)) == Some(n)
  {
  }

  lemma EscapedReads(c: char, rest: string)
    ensures ReadChar(Escaped(c) + rest) == Some((c, rest))
    ensures Escaped(c) != "" && Escaped(c)[0] != '\"'
  {
    var t := Escaped(c) + rest;
    assert t[|Escaped(c)|..] == rest;
    if |Escaped(c)| == 6 {
      HexRead(c as int / 16);
      HexRead(c as int % 16);
    }
  }

  lemma {:induction false} EscapedHead(c: char, s: string)
    ensures EscapedText([c] + s) == Escaped(c) + EscapedText(s)
  {
    var t := [c] + s;
    if s == "" {
      assert t[..0] == "";
    } else {
      assert t[..|t| - 1] == [c] + s[..|s| - 1];
      EscapedHead(c, s[..|s| - 1]);
    }
  }

  lemma {:induction false} OneMoreChar(t: string, c: char, t1: string, s: string, rest: string)
    requires t != "" && t[0] != '\"' && ReadChar(t) == Some((c, t1)) && ReadString(t1) == Some((s, rest))
    ensures ReadString(t) == Some(([c] + s, rest))
  {
  }

  /** Whatever a value holds, quotes and control characters included, it is read back whole and the text
      behind it is left alone. */
  lemma {:induction false} StringReads(s: string, rest: string)
    ensures ReadString(EscapedText(s) + "\"" + rest) == Some((s, rest))
  {
    if s == "" {
      assert (EscapedText(s) + "\"" + rest)[1..] == rest;
    } else {
      var c, s1 := s[0], s[1..];
      var t1 := EscapedText(s1) + "\"" + rest;
      StringReads(s1, rest);
      EscapedReads(c, t1);
      OneMoreChar(Escaped(c) + t1, c, t1, s1, rest);
      HeadWritten(c, s1, rest);
      assert s == [c] + s1;
    }
  }

  lemma {:induction false} HeadWritten(c: char, s: string, rest: string)
    ensures EscapedText([c] + s) + "\"" + rest == Escaped(c) + (EscapedText(s) + "\"" + rest)
  {
    EscapedHead(c, s);
  }

  // ---- members -----------------------------------------------------------------------------

  function Written(m: Member): string {
    "\"" + EscapedText(m.name) + "\":" + match m case Text(_, s) => "\"" + EscapedText(s) + "\"" case Number(_, n) => Digits(n)
  }

  function Tail(ms: seq<Member>): string {
    if ms == [] then "" else "," + Written(ms[0]) + Tail(ms[1..])
  }

  lemma {:induction false} DigitsEnd(ds: string, rest: string)
    requires AllDigits(ds) && rest != "" && !IsDigit(rest[0])
    ensures DigitsOf(ds + rest) == |ds|
  {
    if ds == "" {
      assert ds + rest == rest;
    } else {
      assert (ds + rest)[1..] == ds[1..] + rest;
      DigitsEnd(ds[1..], rest);
    }
  }

  lemma NameReads(name: string, rest: string)
    ensures ReadString(("\"" + EscapedText(name) + "\":" + rest)[1..]) == Some((name, ":" + rest))
  {
    assert ("\"" + EscapedText(name) + "\":" + rest)[1..] == EscapedText(name) + "\"" + (":" + rest);
    StringReads(name, ":" + rest);
  }

  lemma {:induction false} TextMember(t: string, name: string, t1: string, s: string, rest: string)
    requires t != "" && t[0] == '\"' && ReadString(t[1..]) == Some((name, t1))
    requires |t1| > 1 && t1[0] == ':' && t1[1] == '\"' && ReadString(t1[2..]) == Some((s, rest))
    ensures ReadMember(t) == Some((Text(name, s), rest))
  {
  }

  lemma {:induction false} NumberMember(t: string, name: string, value: string, k: nat)
    requires t != "" && t[0] == '\"' && ReadString(t[1..]) == Some((name, ":" + value))
    requires value != "" && value[0] != '\"' && DigitsOf(value) == k > 0
    ensures ReadMember(t) == Some((Number(name, Value(value[..k])), value[k..]))
  {
    assert (":" + value)[1..] == value;
  }

  lemma {:induction false} Regroups(a: string, b: string, value: string, rest: string)
    ensures a + b + value + rest == a + b + (value + rest)
  {
  }

  lemma QuoteStarts(s: string, rest: string)
    ensures var t := ":" + ("\"" + s + "\"" + rest); t[1] == '\"' && t[2..] == s + "\"" + rest
  {
  }

  lemma {:induction false} TextReads(name: string, s: string, rest: string)
    ensures ReadMember(Written(Text(name, s)) + rest) == Some((Text(name, s), rest))
  {
    var quoted := "\"" + EscapedText(s) + "\"";
    var value := quoted + rest;
    var t := "\"" + EscapedText(name) + "\":" + value;
    Regroups("\"" + EscapedText(name), "\":", quoted, rest);
    NameReads(name, value);
    StringReads(s, rest);
    QuoteStarts(EscapedText(s), rest);
    TextMember(t, name, ":" + value, s, rest);
  }

  lemma {:induction false} NumberReads(name: string, n: nat, rest: string)
    requires rest != "" && !IsDigit(rest[0])
    ensures ReadMember(Written(Number(name, n)) + rest) == Some((Number(name, n), rest))
  {
    var ds := Digits(n);
    var value := ds + rest;
    var t := "\"" + EscapedText(name) + "\":" + value;
    Regroups("\"" + EscapedText(name), "\":", ds, rest);
    NameReads(name, value);
    DigitsEnd(ds, rest);
    assert value[0] == ds[0] && IsDigit(ds[0]);
    assert value[..|ds|] == ds && value[|ds|..] == rest;
    DigitsValue(n);
    NumberMember(t, name, value, |ds|);
  }

  lemma MemberReads(m: Member, rest: string)
    requires rest != "" && !IsDigit(rest[0])
    ensures ReadMember(Written(m) + rest) == Some((m, rest))
  {
    match m
    case Text(name, s) => TextReads(name, s, rest);
    case Number(name, n) => NumberReads(name, n, rest);
  }

  lemma {:induction false} OneMoreRead(t: string, m: Member, rest: string, more: seq<Member>)
    requires ReadMember(t) == Some((m, rest)) && rest != "" && rest[0] == ',' && ReadMembers(rest[1..]) == Some(more)
    ensures ReadMembers(t) == Some([m] + more)
  {
  }

  lemma {:induction false} MembersRead(m: Member, more: seq<Member>)
    ensures ReadMembers(Written(m) + (Tail(more) + "}")) == Some([m] + more)
    decreases |more|
  {
    var rest := Tail(more) + "}";
    if more == [] {
      assert rest == "}";
      MemberReads(m, rest);
      assert [m] + more == [m];
    } else {
      TailStarts(more);
      MemberReads(m, rest);
      MembersRead(more[0], more[1..]);
      OneMoreRead(Written(m) + rest, m, rest, [more[0]] + more[1..]);
      assert more == [more[0]] + more[1..];
    }
  }

  lemma {:induction false} TailStarts(more: seq<Member>)
    requires more != []
    ensures var rest := Tail(more) + "}";
      rest[0] == ',' && rest[1..] == Written(more[0]) + (Tail(more[1..]) + "}")
  {
    CommaStarts(Written(more[0]), Tail(more[1..]), "}");
  }

  lemma CommaStarts(a: string, b: string, c: string)
    ensures ("," + a + b + c)[0] == ',' && ("," + a + b + c)[1..] == a + (b + c)
  {
  }

  // ---- a line ------------------------------------------------------------------------------

  /** What a line holds: the time, then the fields that are not empty, under their names. */
  function Present(name: string, s: string): seq<Member> {
    if s == "" then [] else [Text(name, s)]
  }

  function Counted(name: string, n: nat): seq<Member> {
    if n == 0 then [] else [Number(name, n)]
  }

  function CallerMembers(f: Fields): seq<Member> {
    [Text("code", f.code)] + Present("principal", f.principal) + Present("method", f.verb) + Present("route", f.route)
  }

  function ResultMembers(f: Fields): seq<Member> {
    Counted("status", f.status) + [Text("outcome", f.outcome)] + Present("object_kind", f.kind) + Present("object", f.target)
  }

  function Contents(f: Fields, suppressed: nat): seq<Member> {
    CallerMembers(f) + ResultMembers(f) + Counted("suppressed", suppressed)
  }

  predicate Bare(s: string) {
    forall i :: 0 <= i < |s| ==> 'a' <= s[i] <= 'z' || s[i] == '_'
  }

  lemma BareChar(c: char)
    requires 'a' <= c <= 'z' || c == '_'
    ensures Escaped(c) == [c]
  {
  }

  lemma FrontAndLast(s: string)
    requires s != ""
    ensures s == s[..|s| - 1] + [s[|s| - 1]]
  {
  }

  lemma {:induction false} BareEscapes(s: string)
    requires Bare(s)
    ensures EscapedText(s) == s
  {
    if s != "" {
      var front, c := s[..|s| - 1], s[|s| - 1];
      BareEscapes(front);
      BareChar(c);
      FrontAndLast(s);
    }
  }

  lemma {:induction false} TailJoin(a: seq<Member>, b: seq<Member>)
    ensures Tail(a + b) == Tail(a) + Tail(b)
  {
    if a == [] {
      assert a + b == b;
    } else {
      assert (a + b)[1..] == a[1..] + b;
      TailJoin(a[1..], b);
    }
  }

  lemma OneTail(m: Member)
    ensures Tail([m]) == "," + Written(m)
  {
    assert [m][1..] == [];
  }

  lemma {:induction false} TextTail(name: string, s: string)
    requires Bare(name)
    ensures StringField(name, s) == Tail([Text(name, s)])
  {
    BareEscapes(name);
    OneTail(Text(name, s));
    FieldRegroups(name, EscapedText(s));
  }

  lemma FieldRegroups(name: string, value: string)
    ensures ",\"" + name + "\":\"" + value + "\"" == "," + ("\"" + name + "\":" + ("\"" + value + "\""))
  {
  }

  lemma {:induction false} NumberTail(name: string, n: nat)
    requires Bare(name)
    ensures NumberField(name, n) == Tail(Counted(name, n))
  {
    BareEscapes(name);
    OneTail(Number(name, n));
    NumberRegroups(name, Digits(n));
  }

  lemma NumberRegroups(name: string, value: string)
    ensures ",\"" + name + "\":" + value == "," + ("\"" + name + "\":" + value)
  {
  }

  lemma {:induction false} OptionalTail(name: string, s: string)
    requires Bare(name)
    ensures OptionalField(name, s) == Tail(Present(name, s))
  {
    TextTail(name, s);
  }

  lemma NamesBare()
    ensures Bare("ts_unix_ms") && Bare("code") && Bare("principal") && Bare("method") && Bare("route")
    ensures Bare("status") && Bare("outcome") && Bare("object_kind") && Bare("object") && Bare("suppressed")
  {
  }

  lemma CallerTail(f: Fields)
    ensures Caller(f) == Tail(CallerMembers(f))
  {
    var a, b, c, d := [Text("code", f.code)], Present("principal", f.principal), Present("method", f.verb), Present("route", f.route);
    NamesBare();
    TextTail("code", f.code);
    OptionalTail("principal", f.principal);
    OptionalTail("method", f.verb);
    OptionalTail("route", f.route);
    FourTails(a, b, c, d);
  }

  lemma ResultTail(f: Fields)
    ensures Result(f) == Tail(ResultMembers(f))
  {
    var a, b, c, d := Counted("status", f.status), [Text("outcome", f.outcome)], Present("object_kind", f.kind), Present("object", f.target);
    NamesBare();
    NumberTail("status", f.status);
    TextTail("outcome", f.outcome);
    OptionalTail("object_kind", f.kind);
    OptionalTail("object", f.target);
    FourTails(a, b, c, d);
  }

  lemma FourTails(a: seq<Member>, b: seq<Member>, c: seq<Member>, d: seq<Member>)
    ensures Tail(a + b + c + d) == Tail(a) + Tail(b) + Tail(c) + Tail(d)
  {
    TailJoin(a, b);
    TailJoin(a + b, c);
    TailJoin(a + b + c, d);
  }

  lemma ContentsTail(f: Fields, suppressed: nat)
    ensures Tail(Contents(f, suppressed)) == Body(f) + NumberField("suppressed", suppressed)
  {
    TailJoin(CallerMembers(f), ResultMembers(f));
    TailJoin(CallerMembers(f) + ResultMembers(f), Counted("suppressed", suppressed));
    CallerTail(f);
    ResultTail(f);
    NamesBare();
    NumberTail("suppressed", suppressed);
  }

  lemma LineIsObject(f: Fields, unixMs: nat, suppressed: nat)
    ensures Rendered(f, unixMs, suppressed)
         == "{" + (Written(Number("ts_unix_ms", unixMs)) + (Tail(Contents(f, suppressed)) + "}"))
  {
    NamesBare();
    BareEscapes("ts_unix_ms");
    ContentsTail(f, suppressed);
    LineRegroups(Digits(unixMs), Body(f), NumberField("suppressed", suppressed));
  }

  lemma LineRegroups(time: string, body: string, count: string)
    ensures "{\"ts_unix_ms\":" + time + body + count + "}" == "{" + ("\"" + "ts_unix_ms" + "\":" + time + (body + count + "}"))
  {
  }

  /** No forging: a line reads as the time and exactly the fields it was written from, each under its own
      name, whatever characters they are made of. */
  lemma LineReadsBack(f: Fields, unixMs: nat, suppressed: nat)
    ensures ReadLine(Rendered(f, unixMs, suppressed)) == Some([Number("ts_unix_ms", unixMs)] + Contents(f, suppressed))
  {
    LineIsObject(f, unixMs, suppressed);
    ObjectReads(Number("ts_unix_ms", unixMs), Contents(f, suppressed));
  }

  lemma {:induction false} ObjectReads(m: Member, more: seq<Member>)
    ensures ReadLine("{" + (Written(m) + (Tail(more) + "}"))) == Some([m] + more)
  {
    var inner := Written(m) + (Tail(more) + "}");
    assert ("{" + inner)[1..] == inner;
    MembersRead(m, more);
  }
}
