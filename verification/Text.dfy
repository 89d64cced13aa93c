/** Text as the sources print and read it: decimal integers with zero padding, splitting at a
    separator, and lexicographic order. */
module Text {

  import opened Options

  // ---- digits ------------------------------------------------------------------------------

  predicate IsDigit(c: char) {
    '0' <= c <= '9'
  }

  function DigitChar(d: nat): (c: char)
    requires d < 10
    ensures IsDigit(c) && DigitValue(c) == d
  {
    '0' + d as char
  }

  function DigitValue(c: char): (d: nat)
    requires IsDigit(c)
    ensures d < 10
  {
    (c - '0') as nat
  }

  predicate AllDigits(s: string) {
    forall i :: 0 <= i < |s| ==> IsDigit(s[i])
  }

  /** The number a digit string denotes. */
  function Value(s: string): nat
    requires AllDigits(s)
  {
    if s == "" then 0 else 10 * Value(s[..|s| - 1]) + DigitValue(s[|s| - 1])
  }

  lemma {:induction false} ValueBelow(s: string)
    requires AllDigits(s)
    ensures Value(s) < Pow10(|s|)
  {
    if s != "" {
      ValueBelow(s[..|s| - 1]);
    }
  }

  /** Decimal notation without leading zeros. */
  function Digits(n: nat): (s: string)
    ensures AllDigits(s) && |s| >= 1
  {
    if n < 10 then [DigitChar(n)] else Digits(n / 10) + [DigitChar(n % 10)]
  }

  lemma {:induction false} DigitsValue(n: nat)
    ensures Value(Digits(n)) == n
  {
    if n >= 10 {
      DigitsValue(n / 10);
      assert Digits(n)[..|Digits(n)| - 1] == Digits(n / 10);
    }
  }

  function Zeros(k: nat): (s: string)
    ensures AllDigits(s) && |s| == k
  {
    seq(k, _ => '0')
  }

  lemma {:induction false} ZerosValue(k: nat, s: string)
    requires AllDigits(s)
    ensures Value(Zeros(k) + s) == Value(s)
    decreases |s|, k
  {
    var t := Zeros(k) + s;
    if s != "" {
      assert t[..|t| - 1] == Zeros(k) + s[..|s| - 1];
      ZerosValue(k, s[..|s| - 1]);
    } else if k > 0 {
      assert t[..|t| - 1] == Zeros(k - 1) + s;
      ZerosValue(k - 1, s);
    } else {
      assert t == s;
    }
  }

  lemma TenTimes(a: nat, b: nat)
    ensures 10 * (a * b) == a * (10 * b)
  {
  }

  /** Zeros behind a number multiply it. */
  lemma {:induction false} ZerosShift(s: string, k: nat)
    requires AllDigits(s)
    ensures Value(s + Zeros(k)) == Value(s) * Pow10(k)
  {
    var t := s + Zeros(k);
    if k == 0 {
      assert t == s;
    } else {
      ZerosShift(s, k - 1);
      var front := s + Zeros(k - 1);
      assert t[..|t| - 1] == front && t[|t| - 1] == '0';
      assert Value(t) == 10 * Value(front);
      TenTimes(Value(s), Pow10(k - 1));
    }
  }

  /** Digits filled up with zeros to a width. */
  function Filled(ds: string, w: nat): string {
    if |ds| < w then Zeros(w - |ds|) + ds else ds
  }

  lemma FilledValue(ds: string, w: nat)
    requires AllDigits(ds)
    ensures AllDigits(Filled(ds, w)) && |Filled(ds, w)| >= |ds| && |Filled(ds, w)| >= w && Value(Filled(ds, w)) == Value(ds)
  {
    if |ds| < w {
      ZerosValue(w - |ds|, ds);
    }
  }

  /** Rust's `{n:0w}`: the width counts the sign. */
  function ZeroPadded(n: int, w: nat): string {
    if n >= 0 then Filled(Digits(n), w) else "-" + Filled(Digits(-n), if w > 0 then w - 1 else 0)
  }

  /** The last `w` decimal digits of `n`. */
  function Fixed(n: nat, w: nat): (s: string)
    ensures |s| == w && AllDigits(s)
  {
    if w == 0 then "" else Fixed(n / 10, w - 1) + [DigitChar(n % 10)]
  }

  function Pow10(w: nat): (p: nat)
    ensures p >= 1
  {
    if w == 0 then 1 else 10 * Pow10(w - 1)
  }

  lemma {:induction false} FixedZero(w: nat)
    ensures Fixed(0, w) == Zeros(w)
  {
    if w > 0 { FixedZero(w - 1); }
  }

  /** A number that fits its width is printed at exactly that width. */
  lemma {:induction false} PaddedIsFixed(n: nat, w: nat)
    requires n < Pow10(w) && w >= 1
    ensures ZeroPadded(n, w) == Fixed(n, w)
  {
    if n < 10 {
      FixedZero(w - 1);
    } else {
      PaddedIsFixed(n / 10, w - 1);
    }
  }

  lemma {:induction false} FixedValue(n: nat, w: nat)
    requires n < Pow10(w)
    ensures Value(Fixed(n, w)) == n
  {
    if w > 0 {
      FixedValue(n / 10, w - 1);
      var front, last := Fixed(n / 10, w - 1), DigitChar(n % 10);
      assert (front + [last])[..w - 1] == front;
      assert DigitValue(last) == n % 10;
    }
  }

  lemma PaddedDigits(n: nat, w: nat)
    ensures AllDigits(ZeroPadded(n, w)) && |ZeroPadded(n, w)| >= 1 && |ZeroPadded(n, w)| >= w
    ensures Value(ZeroPadded(n, w)) == n
  {
    DigitsValue(n);
    FilledValue(Digits(n), w);
  }

  /** Rust's unsigned `str::parse`: an optional `+`, then digits, within the type's maximum. */
  function ParseUnsigned(s: string, max: nat): Option<nat> {
    var body := if s != "" && s[0] == '+' then s[1..] else s;
    if body != "" && AllDigits(body) && Value(body) <= max then Some(Value(body)) else None
  }

  /** Rust's `str::parse::<i64>`: an optional sign, then digits, within range. */
  function ParseI64(s: string): Option<int> {
    var signed := s != "" && (s[0] == '+' || s[0] == '-');
    var body := if signed then s[1..] else s;
    if body == "" || !AllDigits(body) then None
    else
      var n: int := if signed && s[0] == '-' then 0 - Value(body) else Value(body);
      if InI64(n) then Some(n) else None
  }

  /** A plus sign changes nothing, a minus sign is for signed numbers, and a sign alone is no number. */
  lemma {:induction false} SignsRead(ds: string, max: nat)
    requires AllDigits(ds) && ds != ""
    ensures ParseUnsigned("+" + ds, max) == ParseUnsigned(ds, max) == if Value(ds) <= max then Some(Value(ds)) else None
    ensures ParseUnsigned("-" + ds, max) == None && ParseUnsigned("+", max) == None
    ensures ParseI64("+" + ds) == ParseI64(ds) == if InI64(Value(ds)) then Some(Value(ds)) else None
    ensures ParseI64("-" + ds) == if InI64(0 - Value(ds)) then Some(0 - Value(ds)) else None
  {
    assert ("+" + ds)[1..] == ds && ("-" + ds)[1..] == ds;
    assert ("-" + ds)[0] == '-' && !IsDigit('-');
  }

  predicate InI64(n: int) {
    -0x8000_0000_0000_0000 <= n < 0x8000_0000_0000_0000
  }

  predicate InI32(n: int) {
    -0x8000_0000 <= n < 0x8000_0000
  }

  const U32_MAX: nat := 0xFFFF_FFFF
  const U64_MAX: nat := 0xFFFF_FFFF_FFFF_FFFF

  lemma ParsePadded(n: nat, w: nat, max: nat)
    requires n <= max
    ensures ParseUnsigned(ZeroPadded(n, w), max) == Some(n)
  {
    PaddedDigits(n, w);
  }

  lemma ParsePaddedI64(n: nat, w: nat)
    requires InI64(n)
    ensures ParseI64(ZeroPadded(n, w)) == Some(n)
  {
    PaddedDigits(n, w);
  }

  // ---- separators --------------------------------------------------------------------------

  /** Rust's `str::split` on one character. */
  function Split(s: string, c: char): (parts: seq<string>)
    ensures |parts| >= 1
  {
    if s == "" then [""]
    else
      var rest := Split(s[1..], c);
      if s[0] == c then [""] + rest else [[s[0]] + rest[0]] + rest[1..]
  }

  lemma {:induction false} SplitNone(s: string, c: char)
    requires c !in s
    ensures Split(s, c) == [s]
  {
    if s != "" {
      assert s == [s[0]] + s[1..];
      SplitNone(s[1..], c);
    }
  }

  lemma {:induction false} SplitHead(a: string, c: char, b: string)
    requires c !in a
    ensures Split(a + [c] + b, c) == [a] + Split(b, c)
  {
    var s := a + [c] + b;
    if a == "" {
      assert s[1..] == b;
    } else {
      assert s[1..] == a[1..] + [c] + b;
      SplitHead(a[1..], c, b);
      assert [a[0]] + a[1..] == a;
    }
  }

  /** No piece holds the separator. */
  lemma {:induction false} PiecesHaveNo(s: string, c: char)
    ensures forall i :: 0 <= i < |Split(s, c)| ==> c !in Split(s, c)[i]
  {
    if s != "" {
      PiecesHaveNo(s[1..], c);
      var rest := Split(s[1..], c);
      assert c !in rest[0];
    }
  }

  /** Position of the first character equal to `c` or `d`. */
  function FindEither(s: string, c: char, d: char): (r: Option<nat>)
    ensures r.Some? ==> r.value < |s| && (s[r.value] == c || s[r.value] == d)
    ensures r.Some? ==> forall i :: 0 <= i < r.value ==> s[i] != c && s[i] != d
    ensures r.None? ==> c !in s && d !in s
  {
    if s == "" then None
    else if s[0] == c || s[0] == d then Some(0)
    else
      match FindEither(s[1..], c, d)
      case None => None
      case Some(i) => Some(i + 1)
  }

  /** Rust's `str::split_once`: what stands before and after the first `c`. */
  function SplitOnce(s: string, c: char): Option<(string, string)> {
    match FindEither(s, c, c)
    case None => None
    case Some(i) => Some((s[..i], s[i + 1..]))
  }

  lemma SplitOnceAt(a: string, c: char, b: string)
    requires c !in a
    ensures SplitOnce(a + [c] + b, c) == Some((a, b))
  {
    var s := a + [c] + b;
    assert s[|a|] == c;
    var r := FindEither(s, c, c);
    assert forall i :: 0 <= i < |a| ==> s[i] == a[i];
    assert s[..|a|] == a && s[|a| + 1..] == b;
  }

  lemma SplitOnceNone(s: string, c: char)
    requires c !in s
    ensures SplitOnce(s, c) == None
  {
  }

  // ---- order -------------------------------------------------------------------------------

  /** Strict lexicographic order by character; a proper prefix comes first. */
  predicate LexLess(a: string, b: string) {
    if b == "" then false
    else if a == "" then true
    else a[0] < b[0] || (a[0] == b[0] && LexLess(a[1..], b[1..]))
  }

  lemma {:induction false} LexIrreflexive(a: string)
    ensures !LexLess(a, a)
  {
    if a != "" { LexIrreflexive(a[1..]); }
  }

  lemma {:induction false} LexConcat(a: string, x: string, b: string, y: string)
    requires |a| == |b|
    ensures LexLess(a + x, b + y) <==> LexLess(a, b) || (a == b && LexLess(x, y))
  {
    if a == "" {
      assert a + x == x && b + y == y;
    } else {
      assert (a + x)[1..] == a[1..] + x && (b + y)[1..] == b[1..] + y;
      LexConcat(a[1..], x, b[1..], y);
      assert a == [a[0]] + a[1..] && b == [b[0]] + b[1..];
    }
  }

  lemma LexChar(c: char, d: char)
    ensures LexLess([c], [d]) <==> c < d
  {
  }

  /** Fixed-width decimals sort like the numbers they print. */
  lemma {:induction false} FixedOrder(m: nat, n: nat, w: nat)
    requires m < Pow10(w) && n < Pow10(w)
    ensures LexLess(Fixed(m, w), Fixed(n, w)) <==> m < n
    ensures Fixed(m, w) == Fixed(n, w) <==> m == n
  {
    if w > 0 {
      FixedOrder(m / 10, n / 10, w - 1);
      var c, d := DigitChar(m % 10), DigitChar(n % 10);
      LexConcat(Fixed(m / 10, w - 1), [c], Fixed(n / 10, w - 1), [d]);
      LexChar(c, d);
      FixedValue(m, w);
      FixedValue(n, w);
    }
  }
}
