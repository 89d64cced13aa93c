/** One line of the security log: the fields of an event, clipped and written as JSON, and how many
    bytes that takes. */
module SecurityLine {

  import opened Text

  const MAX_FIELD_CHARS: nat := 128

  /** An event's fields; an absent one is empty, an absent status is zero. */
  datatype Fields = Fields(code: string, principal: string, verb: string, route: string, status: nat,
                           outcome: string, kind: string, target: string)

  const AUTH_FAILURE: string := "auth.failure"

  function Clip(s: string): (r: string)
    ensures r <= s && |r| == if |s| <= MAX_FIELD_CHARS then |s| else MAX_FIELD_CHARS
  {
    if |s| <= MAX_FIELD_CHARS then s else s[..MAX_FIELD_CHARS]
  }

  function Clipped(f: Fields): Fields {
    Fields(Clip(f.code), Clip(f.principal), Clip(f.verb), Clip(f.route), f.status, Clip(f.outcome), Clip(f.kind), Clip(f.target))
  }

  // ---- bytes -------------------------------------------------------------------------------

  /** Bytes of one character in UTF-8. */
  function Utf8(c: char): nat {
    var n := c as int;
    if n < 0x80 then 1 else if n < 0x800 then 2 else if n < 0x1_0000 then 3 else 4
  }

  /** The bytes themselves, by the table of section 3 of RFC 3629. */
  function Encoded(c: char): seq<int> {
    var n := c as int;
    if n < 0x80 then [n]
    else if n < 0x800 then [0xC0 + n / 0x40, 0x80 + n % 0x40]
    else if n < 0x1_0000 then [0xE0 + n / 0x40 / 0x40, 0x80 + n / 0x40 % 0x40, 0x80 + n % 0x40]
    else [0xF0 + n / 0x40 / 0x40 / 0x40, 0x80 + n / 0x40 / 0x40 % 0x40, 0x80 + n / 0x40 % 0x40, 0x80 + n % 0x40]
  }

  /** What the bytes say: the first one how many there are, the rest six bits each. */
  function Decoded(bytes: seq<int>): int {
    if |bytes| == 1 then bytes[0]
    else if |bytes| == 2 then (bytes[0] - 0xC0) * 0x40 + (bytes[1] - 0x80)
    else if |bytes| == 3 then (bytes[0] - 0xE0) * 0x1000 + (bytes[1] - 0x80) * 0x40 + (bytes[2] - 0x80)
    else if |bytes| == 4 then
      (bytes[0] - 0xF0) * 0x4_0000 + (bytes[1] - 0x80) * 0x1000 + (bytes[2] - 0x80) * 0x40 + (bytes[3] - 0x80)
    else -1
  }

  lemma SixBits(n: int)
    requires n >= 0
    ensures n == n / 0x40 * 0x40 + n % 0x40 && 0 <= n % 0x40 < 0x40 && n / 0x40 >= 0
  {
  }

  /** The size is that of the bytes, and the bytes are the character: each fits a byte, the first one tells
      their number, and they read back. */
  lemma Utf8IsEncoding(c: char)
    ensures |Encoded(c)| == Utf8(c) && Decoded(Encoded(c)) == c as int
    ensures forall i :: 0 < i < |Encoded(c)| ==> 0x80 <= Encoded(c)[i] < 0xC0
    ensures var first := Encoded(c)[0];
      first <= 0xF4 && |Encoded(c)| == if first < 0x80 then 1 else if first < 0xE0 then 2 else if first < 0xF0 then 3 else 4
  {
    var n := c as int;
    SixBits(n);
    SixBits(n / 0x40);
    SixBits(n / 0x40 / 0x40);
  }

  function Utf8Size(s: string): nat {
    if s == "" then 0 else Utf8Size(s[..|s| - 1]) + Utf8(s[|s| - 1])
  }

  lemma {:induction false} SizeJoin(a: string, b: string)
    ensures Utf8Size(a + b) == Utf8Size(a) + Utf8Size(b)
  {
    if b == "" {
      assert a + b == a;
    } else {
      assert (a + b)[..|a + b| - 1] == a + b[..|b| - 1];
      SizeJoin(a, b[..|b| - 1]);
    }
  }

  predicate Ascii(s: string) {
    forall i :: 0 <= i < |s| ==> s[i] as int < 0x80
  }

  lemma {:induction false} AsciiSize(s: string)
    requires Ascii(s)
    ensures Utf8Size(s) == |s|
  {
    if s != "" {
      AsciiSize(s[..|s| - 1]);
    }
  }

  // ---- JSON --------------------------------------------------------------------------------

  function HexDigit(n: nat): char
    requires n < 16
  {
    if n < 10 then '0' + n as char else 'a' + (n - 10) as char
  }

  /** A character inside a JSON string, as `serde_json` writes it. */
  function Escaped(c: char): string {
    if c == '\"' then "\\\""
    else if c == '\\' then "\\\\"
    else if c == '\n' then "\\n"
    else if c == '\r' then "\\r"
    else if c == '\t' then "\\t"
    else if c as int == 8 then "\\b"
    else if c as int == 12 then "\\f"
    else if c as int < 0x20 then ['\\', 'u', '0', '0', HexDigit(c as int / 16), HexDigit(c as int % 16)]
    else [c]
  }

  function EscapedText(s: string): string {
    if s == "" then "" else EscapedText(s[..|s| - 1]) + Escaped(s[|s| - 1])
  }

  function StringField(name: string, value: string): string {
    ",\"" + name + "\":\"" + EscapedText(value) + "\""
  }

  function OptionalField(name: string, value: string): string {
    if value == "" then "" else StringField(name, value)
  }

  function NumberField(name: string, n: nat): string {
    if n == 0 then "" else ",\"" + name + "\":" + Digits(n)
  }

  /** The line without its newline; empty fields and zero numbers are left out. */
  function Rendered(f: Fields, unixMs: nat, suppressed: nat): string {
    "{\"ts_unix_ms\":" + Digits(unixMs) + Body(f) + NumberField("suppressed", suppressed) + "}"
  }

  function Body(f: Fields): string {
    Caller(f) + Result(f)
  }

  function Caller(f: Fields): string {
    StringField("code", f.code) + OptionalField("principal", f.principal)
    + OptionalField("method", f.verb) + OptionalField("route", f.route)
  }

  function Result(f: Fields): string {
    NumberField("status", f.status) + StringField("outcome", f.outcome)
    + OptionalField("object_kind", f.kind) + OptionalField("object", f.target)
  }

  // ---- one event, one line -----------------------------------------------------------------

  /** No control character, so no line break. */
  predicate Printable(s: string) {
    forall i :: 0 <= i < |s| ==> s[i] as int >= 0x20
  }

  lemma PrintableJoin(a: string, b: string)
    requires Printable(a) && Printable(b)
    ensures Printable(a + b)
  {
  }

  lemma EscapedPrintable(c: char)
    ensures Printable(Escaped(c))
  {
  }

  lemma {:induction false} EscapedTextPrintable(s: string)
    ensures Printable(EscapedText(s))
  {
    if s != "" {
      EscapedTextPrintable(s[..|s| - 1]);
      EscapedPrintable(s[|s| - 1]);
    }
  }

  lemma FieldPrintable(name: string, value: string, n: nat)
    requires Printable(name)
    ensures Printable(StringField(name, value)) && Printable(OptionalField(name, value)) && Printable(NumberField(name, n))
  {
    EscapedTextPrintable(value);
  }

  lemma NamesPrintable()
    ensures Printable("code") && Printable("principal") && Printable("method") && Printable("route")
    ensures Printable("status") && Printable("outcome") && Printable("object_kind") && Printable("object")
    ensures Printable("suppressed") && Printable("{\"ts_unix_ms\":") && Printable("}")
  {
  }

  lemma JoinFour(a: string, b: string, c: string, d: string)
    requires Printable(a) && Printable(b) && Printable(c) && Printable(d)
    ensures Printable(a + b + c + d)
  {
    PrintableJoin(a, b);
    PrintableJoin(a + b, c);
    PrintableJoin(a + b + c, d);
  }

  lemma BodyPrintable(f: Fields)
    ensures Printable(Caller(f)) && Printable(Result(f))
  {
    NamesPrintable();
    FieldPrintable("code", f.code, 0);
    FieldPrintable("principal", f.principal, 0);
    FieldPrintable("method", f.verb, 0);
    FieldPrintable("route", f.route, 0);
    JoinFour(StringField("code", f.code), OptionalField("principal", f.principal), OptionalField("method", f.verb),
             OptionalField("route", f.route));
    FieldPrintable("status", "", f.status);
    FieldPrintable("outcome", f.outcome, 0);
    FieldPrintable("object_kind", f.kind, 0);
    FieldPrintable("object", f.target, 0);
    JoinFour(NumberField("status", f.status), StringField("outcome", f.outcome), OptionalField("object_kind", f.kind),
             OptionalField("object", f.target));
  }

  /** Whatever the fields hold, an event is one line. */
  lemma OneLinePerEvent(f: Fields, unixMs: nat, suppressed: nat)
    ensures Printable(Rendered(f, unixMs, suppressed)) && '\n' !in Rendered(f, unixMs, suppressed)
  {
    BodyPrintable(f);
    PrintableJoin(Caller(f), Result(f));
    NamesPrintable();
    FieldPrintable("suppressed", "", suppressed);
    PrintableJoin("{\"ts_unix_ms\":", Digits(unixMs));
    JoinFour("{\"ts_unix_ms\":" + Digits(unixMs), Body(f), NumberField("suppressed", suppressed), "}");
  }

  // ---- how long a line can be --------------------------------------------------------------

  lemma EscapedSize(c: char)
    ensures 1 <= Utf8Size(Escaped(c)) <= 6
    ensures c as int == 1 ==> Utf8Size(Escaped(c)) == 6
  {
    if c as int < 0x80 {
      AsciiSize(Escaped(c));
    } else {
      assert [c][..0] == "";
    }
  }

  lemma {:induction false} EscapedTextSize(s: string)
    ensures Utf8Size(EscapedText(s)) <= 6 * |s|
    ensures (forall i :: 0 <= i < |s| ==> s[i] as int == 1) ==> Utf8Size(EscapedText(s)) == 6 * |s|
  {
    if s != "" {
      EscapedTextSize(s[..|s| - 1]);
      EscapedSize(s[|s| - 1]);
      SizeJoin(EscapedText(s[..|s| - 1]), Escaped(s[|s| - 1]));
    }
  }

  lemma StringFieldSize(name: string, value: string)
    requires Ascii(name)
    ensures Utf8Size(StringField(name, value)) == |name| + 6 + Utf8Size(EscapedText(value))
  {
    var head := ",\"" + name + "\":\"";
    AsciiSize(head);
    AsciiSize("\"");
    SizeJoin(head, EscapedText(value));
    SizeJoin(head + EscapedText(value), "\"");
  }

  lemma NumberFieldSize(name: string, n: nat)
    requires Ascii(name) && n > 0
    ensures Utf8Size(NumberField(name, n)) == |name| + 4 + |Digits(n)|
  {
    AsciiSize(NumberField(name, n));
  }

  lemma {:induction false} DigitsLength(n: nat, w: nat)
    requires w >= 1
    ensures n < Pow10(w) ==> |Digits(n)| <= w
    ensures n >= Pow10(w - 1) && n > 0 ==> |Digits(n)| >= w
  {
    if n >= 10 && w > 1 {
      DigitsLength(n / 10, w - 1);
    }
  }

  /** The longest line: seven fields of 128 control characters, each written as six bytes, a five-digit
      status and a twenty-digit time. */
  const MAX_LINE: nat := 5517

  lemma OptionalFieldSize(name: string, value: string)
    requires Ascii(name)
    ensures Utf8Size(OptionalField(name, value)) == if value == "" then 0 else |name| + 6 + Utf8Size(EscapedText(value))
  {
    if value != "" {
      StringFieldSize(name, value);
    }
  }

  lemma SizeOfFour(a: string, b: string, c: string, d: string)
    ensures Utf8Size(a + b + c + d) == Utf8Size(a) + Utf8Size(b) + Utf8Size(c) + Utf8Size(d)
  {
    SizeJoin(a, b);
    SizeJoin(a + b, c);
    SizeJoin(a + b + c, d);
  }

  lemma NamesAscii()
    ensures Ascii("code") && Ascii("principal") && Ascii("method") && Ascii("route")
    ensures Ascii("status") && Ascii("outcome") && Ascii("object_kind") && Ascii("object")
    ensures Ascii("suppressed") && Ascii("{\"ts_unix_ms\":") && Ascii("}")
  {
  }

  predicate Loud(s: string) {
    |s| == MAX_FIELD_CHARS && forall i :: 0 <= i < |s| ==> s[i] as int == 1
  }

  lemma FieldBound(name: string, value: string)
    requires Ascii(name) && |value| <= MAX_FIELD_CHARS
    ensures Utf8Size(StringField(name, value)) <= |name| + 6 + 6 * |value| <= |name| + 774
    ensures Utf8Size(OptionalField(name, value)) <= |name| + 774
    ensures Loud(value) ==> Utf8Size(StringField(name, value)) == Utf8Size(OptionalField(name, value)) == |name| + 774
  {
    StringFieldSize(name, value);
    OptionalFieldSize(name, value);
    EscapedTextSize(value);
  }

  lemma CallerBound(f: Fields)
    requires f == Clipped(f)
    ensures Utf8Size(Caller(f)) <= 4 + 6 + 6 * |f.code| + 2342 <= 3120
    ensures Loud(f.code) && Loud(f.principal) && Loud(f.verb) && Loud(f.route) ==> Utf8Size(Caller(f)) == 3120
  {
    NamesAscii();
    FieldBound("code", f.code);
    FieldBound("principal", f.principal);
    FieldBound("method", f.verb);
    FieldBound("route", f.route);
    SizeOfFour(StringField("code", f.code), OptionalField("principal", f.principal), OptionalField("method", f.verb),
               OptionalField("route", f.route));
  }

  lemma StatusSize(status: nat)
    requires status <= 0xFFFF
    ensures Utf8Size(NumberField("status", status)) <= 15
    ensures status == 0xFFFF ==> Utf8Size(NumberField("status", status)) == 15
  {
    NamesAscii();
    if status > 0 {
      NumberFieldSize("status", status);
      assert Pow10(5) == 100_000 && Pow10(4) == 10_000;
      DigitsLength(status, 5);
    }
  }

  lemma ResultBound(f: Fields)
    requires f == Clipped(f) && f.status <= 0xFFFF
    ensures Utf8Size(Result(f)) <= 2361
    ensures f.status == 0xFFFF && Loud(f.outcome) && Loud(f.kind) && Loud(f.target) ==> Utf8Size(Result(f)) == 2361
  {
    NamesAscii();
    StatusSize(f.status);
    FieldBound("outcome", f.outcome);
    FieldBound("object_kind", f.kind);
    FieldBound("object", f.target);
    SizeOfFour(NumberField("status", f.status), StringField("outcome", f.outcome), OptionalField("object_kind", f.kind),
               OptionalField("object", f.target));
  }

  lemma WideNumber(n: nat)
    requires n <= U64_MAX
    ensures |Digits(n)| <= 20 && (n == U64_MAX ==> |Digits(n)| == 20)
  {
    assert Pow10(5) == 100_000;
    assert Pow10(10) == 10_000_000_000;
    assert Pow10(15) == 1_000_000_000_000_000;
    assert Pow10(20) == 100_000_000_000_000_000_000 && Pow10(19) == 10_000_000_000_000_000_000;
    DigitsLength(n, 20);
  }

  lemma SuppressedSize(n: nat)
    requires n <= U64_MAX
    ensures Utf8Size(NumberField("suppressed", n)) <= if n == 0 then 0 else 34
  {
    NamesAscii();
    if n > 0 {
      NumberFieldSize("suppressed", n);
      WideNumber(n);
    }
  }

  lemma RenderedSize(f: Fields, unixMs: nat, suppressed: nat)
    ensures Utf8Size(Rendered(f, unixMs, suppressed))
         == 14 + |Digits(unixMs)| + Utf8Size(Caller(f)) + Utf8Size(Result(f)) + Utf8Size(NumberField("suppressed", suppressed)) + 1
  {
    NamesAscii();
    var head := "{\"ts_unix_ms\":" + Digits(unixMs);
    AsciiSize(head);
    AsciiSize("}");
    SizeJoin(Caller(f), Result(f));
    SizeOfFour(head, Body(f), NumberField("suppressed", suppressed), "}");
  }

  /** No line, newline included, is longer than `MAX_LINE`: a suppressed count comes only with the short
      code of an authentication failure. */
  lemma LineBound(f: Fields, unixMs: nat, suppressed: nat)
    requires f == Clipped(f) && f.status <= 0xFFFF && unixMs <= U64_MAX && suppressed <= U64_MAX
    requires suppressed > 0 ==> f.code == AUTH_FAILURE
    ensures Utf8Size(Rendered(f, unixMs, suppressed)) + 1 <= MAX_LINE
  {
    RenderedSize(f, unixMs, suppressed);
    WideNumber(unixMs);
    CallerBound(f);
    ResultBound(f);
    SuppressedSize(suppressed);
  }

  function Ones(n: nat): string {
    seq(n, _ => 1 as char)
  }

  const LOUDEST: Fields := Fields(Ones(MAX_FIELD_CHARS), Ones(MAX_FIELD_CHARS), Ones(MAX_FIELD_CHARS), Ones(MAX_FIELD_CHARS),
                                  0xFFFF, Ones(MAX_FIELD_CHARS), Ones(MAX_FIELD_CHARS), Ones(MAX_FIELD_CHARS))

  /** And there is one that long. */
  lemma LineBoundReached()
    ensures Clipped(LOUDEST) == LOUDEST && LOUDEST.code != AUTH_FAILURE
    ensures Utf8Size(Rendered(LOUDEST, U64_MAX, 0)) + 1 == MAX_LINE
  {
    assert Loud(Ones(MAX_FIELD_CHARS));
    RenderedSize(LOUDEST, U64_MAX, 0);
    WideNumber(U64_MAX);
    CallerBound(LOUDEST);
    ResultBound(LOUDEST);
    SuppressedSize(0);
  }
}
