/** The per-principal token bucket, over the reals, against its closed form. */
module RateLimiter {

  import opened Options

  datatype Bucket = Bucket(tokens: real, lastRefill: real)

  datatype Config = Config(rps: real, burst: nat)

  const MAX_RATE_LIMIT_RPS: real := 1_000_000_000.0

  /** `validate_rate_limit` (NaN and infinities are not reals). */
  predicate Validated(c: Config) {
    0.0 < c.rps <= MAX_RATE_LIMIT_RPS && c.burst != 0
  }

  function MinReal(x: real, y: real): real {
    if x <= y then x else y
  }

  /** Tokens refilled between two moments; `duration_since` saturates at zero. */
  function Refill(rps: real, earlier: real, now: real): real {
    if now >= earlier then (now - earlier) * rps else 0.0
  }

  function Refilled(c: Config, b: Bucket, now: real): real {
    MinReal(b.tokens + Refill(c.rps, b.lastRefill, now), c.burst as real)
  }

  /** What a request leaves of the tokens it finds: one fewer if there is one. */
  function Spent(tokens: real): real {
    if tokens >= 1.0 then tokens - 1.0 else tokens
  }

  /** One request: the bucket afterwards and whether it was admitted. A new principal starts full. */
  function Checked(c: Config, b: Option<Bucket>, now: real): (Bucket, bool) {
    var start := if b.Some? then b.value else Bucket(c.burst as real, now);
    var tokens := Refilled(c, start, now);
    (Bucket(Spent(tokens), now), tokens >= 1.0)
  }

  /** A clock that runs backwards refills nothing. */
  lemma BackwardsRefillsNothing(c: Config, b: Bucket, now: real)
    requires now < b.lastRefill
    ensures Checked(c, Some(b), now).0.tokens <= b.tokens
    ensures Checked(c, Some(b), now).1 ==> b.tokens >= 1.0
  {
  }

  // ---- one principal -----------------------------------------------------------------------

  /** The bucket after requests at `times`. */
  function After(c: Config, times: seq<real>): Option<Bucket> {
    if times == [] then None
    else
      var n := |times| - 1;
      Some(Checked(c, After(c, times[..n]), times[n]).0)
  }

  /** Whether each of the requests at `times` was admitted. */
  function Decisions(c: Config, times: seq<real>): (admitted: seq<bool>)
    ensures |admitted| == |times|
  {
    if times == [] then []
    else
      var n := |times| - 1;
      Decisions(c, times[..n]) + [Checked(c, After(c, times[..n]), times[n]).1]
  }

  /** Admissions among requests `j` to `k - 1`. */
  function Count(admitted: seq<bool>, j: nat, k: nat): nat
    requires j <= k <= |admitted|
    decreases k
  {
    if j == k then 0 else Count(admitted, j, k - 1) + if admitted[k - 1] then 1 else 0
  }

  predicate NonDecreasing(times: seq<real>) {
    forall i, j :: 0 <= i < j < |times| ==> times[i] <= times[j]
  }

  // The same bucket in units of tokens: `credit[k]` is the time of request k times the rate, so the
  // argument below is free of products.

  function TokenLevel(burst: real, credit: seq<real>, k: nat): real
    requires k < |credit|
  {
    if k == 0 then burst
    else MinReal(Spent(TokenLevel(burst, credit, k - 1)) + (credit[k] - credit[k - 1]), burst)
  }

  function TokenDecisions(burst: real, credit: seq<real>): seq<bool> {
    seq(|credit|, k requires 0 <= k < |credit| => TokenLevel(burst, credit, k) >= 1.0)
  }

  /** What request `k` may still have, counted from request `j`. */
  function Allowance(burst: real, credit: seq<real>, j: nat, k: nat): real
    requires j <= k < |credit|
  {
    burst + (credit[k] - credit[j]) - Count(TokenDecisions(burst, credit), j, k) as real
  }

  /** The level is the least allowance over all earlier requests. */
  lemma {:induction false} LevelIsLeastAllowance(burst: real, credit: seq<real>, k: nat) returns (best: nat)
    requires k < |credit|
    ensures best <= k && TokenLevel(burst, credit, k) == Allowance(burst, credit, best, k)
    ensures forall j :: 0 <= j <= k ==> TokenLevel(burst, credit, k) <= Allowance(burst, credit, j, k)
  {
    assert Allowance(burst, credit, k, k) == burst;
    if k == 0 {
      best := 0;
    } else {
      best := LevelIsLeastAllowance(burst, credit, k - 1);
      forall j | 0 <= j < k
        ensures TokenLevel(burst, credit, k) <= Allowance(burst, credit, j, k)
      {
        assert TokenLevel(burst, credit, k - 1) <= Allowance(burst, credit, j, k - 1);
      }
      if TokenLevel(burst, credit, k) == burst {
        best := k;
      }
    }
  }

  predicate OneMoreFits(admitted: nat, burst: real, refilled: real) {
    admitted as real + 1.0 <= burst + refilled
  }

  predicate TokenFits(burst: real, credit: seq<real>, j: nat, k: nat)
    requires j <= k < |credit|
  {
    OneMoreFits(Count(TokenDecisions(burst, credit), j, k), burst, credit[k] - credit[j])
  }

  /** Admission in units of tokens. */
  lemma TokenClosedForm(burst: real, credit: seq<real>, k: nat)
    requires k < |credit|
    ensures TokenLevel(burst, credit, k) >= 1.0 <==> forall j :: 0 <= j <= k ==> TokenFits(burst, credit, j, k)
  {
    var best := LevelIsLeastAllowance(burst, credit, k);
    if TokenLevel(burst, credit, k) >= 1.0 {
      forall j | 0 <= j <= k
        ensures TokenFits(burst, credit, j, k)
      {
        assert TokenLevel(burst, credit, k) <= Allowance(burst, credit, j, k);
      }
    } else {
      assert Allowance(burst, credit, best, k) < 1.0;
      assert !TokenFits(burst, credit, best, k);
    }
  }

  lemma {:induction false} TokenWindow(burst: real, credit: seq<real>, j: nat, k: nat)
    requires j <= k < |credit| && burst >= 0.0
    requires forall i :: 0 < i < |credit| ==> credit[i - 1] <= credit[i]
    ensures Count(TokenDecisions(burst, credit), j, k + 1) as real <= burst + (credit[k] - credit[j])
    decreases k
  {
    if TokenLevel(burst, credit, k) >= 1.0 {
      TokenClosedForm(burst, credit, k);
      assert TokenFits(burst, credit, j, k);
    } else if j < k {
      TokenWindow(burst, credit, j, k - 1);
    }
  }

  lemma {:induction false} TokensNonNegative(burst: real, credit: seq<real>, k: nat)
    requires k < |credit| && burst >= 0.0
    requires forall i :: 0 < i < |credit| ==> credit[i - 1] <= credit[i]
    ensures TokenLevel(burst, credit, k) >= 0.0
  {
    if k > 0 {
      TokensNonNegative(burst, credit, k - 1);
    }
  }

  lemma TokenSpaced(burst: real, credit: seq<real>, k: nat)
    requires k < |credit| && burst >= 1.0 && (k > 0 ==> credit[k] - credit[k - 1] >= 1.0)
    requires forall i :: 0 < i < |credit| ==> credit[i - 1] <= credit[i]
    ensures TokenLevel(burst, credit, k) >= 1.0
  {
    if k > 0 {
      TokensNonNegative(burst, credit, k - 1);
    }
  }

  // Back to times and rates.

  function Scaled(time: real, rps: real): real {
    time * rps
  }

  function Credit(c: Config, times: seq<real>): (credit: seq<real>)
    ensures |credit| == |times|
  {
    if times == [] then [] else Credit(c, times[..|times| - 1]) + [Scaled(times[|times| - 1], c.rps)]
  }

  lemma {:induction false} CreditAt(c: Config, times: seq<real>, i: nat)
    requires i < |times|
    ensures Credit(c, times)[i] == Scaled(times[i], c.rps)
    decreases |times|
  {
    if i < |times| - 1 {
      CreditAt(c, times[..|times| - 1], i);
    }
  }

  lemma RefillSplits(rps: real, earlier: real, now: real)
    requires earlier <= now
    ensures Refill(rps, earlier, now) == Scaled(now, rps) - Scaled(earlier, rps)
  {
  }

  lemma RateTimesSpan(x: real, y: real, rps: real)
    requires x <= y && rps >= 0.0
    ensures Scaled(x, rps) <= Scaled(y, rps)
  {
  }

  lemma CreditSpan(c: Config, times: seq<real>, j: nat, k: nat)
    requires j <= k < |times| && times[j] <= times[k]
    ensures Credit(c, times)[k] - Credit(c, times)[j] == Refill(c.rps, times[j], times[k])
  {
    CreditAt(c, times, j);
    CreditAt(c, times, k);
    RefillSplits(c.rps, times[j], times[k]);
  }

  lemma CreditGrows(c: Config, times: seq<real>)
    requires NonDecreasing(times) && c.rps >= 0.0
    ensures forall i :: 0 < i < |times| ==> Credit(c, times)[i - 1] <= Credit(c, times)[i]
  {
    forall i | 0 < i < |times|
      ensures Credit(c, times)[i - 1] <= Credit(c, times)[i]
    {
      CreditAt(c, times, i - 1);
      CreditAt(c, times, i);
      RateTimesSpan(times[i - 1], times[i], c.rps);
    }
  }

  lemma CheckedInTokens(c: Config, times: seq<real>, tokens: real, k: nat)
    requires 0 < k < |times| && times[k - 1] <= times[k]
    ensures var credit := Credit(c, times);
      var level := MinReal(tokens + (credit[k] - credit[k - 1]), c.burst as real);
      Checked(c, Some(Bucket(tokens, times[k - 1])), times[k])
        == (Bucket(Spent(level), times[k]), level >= 1.0)
  {
    CreditSpan(c, times, k - 1, k);
    var credit := Credit(c, times);
    assert Refilled(c, Bucket(tokens, times[k - 1]), times[k])
        == MinReal(tokens + (credit[k] - credit[k - 1]), c.burst as real);
  }

  lemma {:induction false} PrefixLevels(burst: real, credit: seq<real>, n: nat, k: nat)
    requires k < n <= |credit|
    ensures TokenLevel(burst, credit[..n], k) == TokenLevel(burst, credit, k)
  {
    if k > 0 {
      PrefixLevels(burst, credit, n, k - 1);
    }
  }

  lemma PrefixCredit(c: Config, times: seq<real>)
    requires times != []
    ensures Credit(c, times)[..|times| - 1] == Credit(c, times[..|times| - 1])
  {
  }

  /** The bucket left behind by the last request, in units of tokens. */
  lemma {:induction false} AfterInTokens(c: Config, times: seq<real>)
    requires NonDecreasing(times) && times != []
    ensures var n := |times| - 1;
      var level := TokenLevel(c.burst as real, Credit(c, times), n);
      Checked(c, After(c, times[..n]), times[n])
        == (Bucket(Spent(level), times[n]), level >= 1.0)
    decreases |times|
  {
    var n, burst, credit := |times| - 1, c.burst as real, Credit(c, times);
    if n > 0 {
      AfterInTokens(c, times[..n]);
      PrefixCredit(c, times);
      PrefixLevels(burst, credit, n, n - 1);
      LastInTokens(c, times);
    } else {
      assert times[..n] == [] && Refill(c.rps, times[0], times[0]) == 0.0;
    }
  }

  lemma LastInTokens(c: Config, times: seq<real>)
    requires |times| > 1 && times[|times| - 2] <= times[|times| - 1]
    requires var n := |times| - 1;
      var before := TokenLevel(c.burst as real, Credit(c, times), n - 1);
      After(c, times[..n]) == Some(Bucket(Spent(before), times[n - 1]))
    ensures var n := |times| - 1;
      var level := TokenLevel(c.burst as real, Credit(c, times), n);
      Checked(c, After(c, times[..n]), times[n])
        == (Bucket(Spent(level), times[n]), level >= 1.0)
  {
    var n, before := |times| - 1, TokenLevel(c.burst as real, Credit(c, times), |times| - 2);
    CheckedInTokens(c, times, Spent(before), n);
  }

  /** The decisions, in units of tokens. */
  lemma {:induction false} RunInTokens(c: Config, times: seq<real>)
    requires NonDecreasing(times)
    ensures Decisions(c, times) == TokenDecisions(c.burst as real, Credit(c, times))
    decreases |times|
  {
    if times != [] {
      var n, burst, credit := |times| - 1, c.burst as real, Credit(c, times);
      RunInTokens(c, times[..n]);
      PrefixCredit(c, times);
      AfterInTokens(c, times);
      forall k | 0 <= k < n
        ensures TokenLevel(burst, credit[..n], k) == TokenLevel(burst, credit, k)
      {
        PrefixLevels(burst, credit, n, k);
      }
    }
  }

  /** Within the burst plus what has been refilled since request `j`, one more admission fits. */
  predicate Fits(c: Config, times: seq<real>, j: nat, k: nat)
    requires j <= k < |times|
  {
    OneMoreFits(Count(Decisions(c, times), j, k), c.burst as real, Refill(c.rps, times[j], times[k]))
  }

  /** The closed form: a request is admitted exactly when, counted from every earlier request,
      one more admission stays within the burst plus what has been refilled since. */
  lemma ClosedForm(c: Config, times: seq<real>, k: nat)
    requires k < |times| && NonDecreasing(times)
    ensures Decisions(c, times)[k] <==> forall j :: 0 <= j <= k ==> Fits(c, times, j, k)
  {
    var burst, credit := c.burst as real, Credit(c, times);
    DecisionInTokens(c, times, k);
    TokenClosedForm(burst, credit, k);
    forall j | 0 <= j <= k
      ensures Fits(c, times, j, k) == TokenFits(burst, credit, j, k)
    {
      FitsInTokens(c, times, j, k);
    }
  }

  lemma DecisionInTokens(c: Config, times: seq<real>, k: nat)
    requires k < |times| && NonDecreasing(times)
    ensures Decisions(c, times)[k] <==> TokenLevel(c.burst as real, Credit(c, times), k) >= 1.0
  {
    RunInTokens(c, times);
  }

  lemma FitsInTokens(c: Config, times: seq<real>, j: nat, k: nat)
    requires j <= k < |times| && NonDecreasing(times)
    ensures Fits(c, times, j, k) == TokenFits(c.burst as real, Credit(c, times), j, k)
  {
    RunInTokens(c, times);
    CreditSpan(c, times, j, k);
  }

  /** No window admits more than the burst plus the rate times its length. */
  lemma WindowBound(c: Config, times: seq<real>, j: nat, k: nat)
    requires j <= k < |times| && NonDecreasing(times) && c.rps >= 0.0
    ensures Count(Decisions(c, times), j, k + 1) as real <= c.burst as real + Refill(c.rps, times[j], times[k])
  {
    RunInTokens(c, times);
    CreditGrows(c, times);
    TokenWindow(c.burst as real, Credit(c, times), j, k);
    CreditSpan(c, times, j, k);
  }

  /** With a validated configuration nobody is starved: the first request is admitted, and so is any
      request at least `1/rps` after the one before it. */
  lemma SpacedRequestAdmitted(c: Config, times: seq<real>, k: nat)
    requires k < |times| && NonDecreasing(times) && Validated(c)
    requires k > 0 ==> Refill(c.rps, times[k - 1], times[k]) >= 1.0
    ensures Decisions(c, times)[k]
  {
    DecisionInTokens(c, times, k);
    CreditGrows(c, times);
    if k > 0 {
      CreditSpan(c, times, k - 1, k);
    }
    TokenSpaced(c.burst as real, Credit(c, times), k);
  }

  /** Why a zero burst is refused at startup: it would refuse every request. */
  lemma ZeroBurstRefusesAll(c: Config, times: seq<real>, k: nat)
    requires c.burst == 0 && k < |times| && NonDecreasing(times)
    ensures !Decisions(c, times)[k]
  {
    ClosedForm(c, times, k);
    assert !Fits(c, times, k, k);
  }

  // ---- many principals ---------------------------------------------------------------------

  datatype Request = Request(principal: string, time: real)

  /** The times of one principal's requests. */
  function TimesOf(requests: seq<Request>, p: string): seq<real> {
    if requests == [] then []
    else
      var n := |requests| - 1;
      TimesOf(requests[..n], p) + if requests[n].principal == p then [requests[n].time] else []
  }

  /** All buckets after an interleaved run. */
  function Buckets(c: Config, requests: seq<Request>): map<string, Bucket> {
    if requests == [] then map[]
    else
      var n := |requests| - 1;
      var m, r := Buckets(c, requests[..n]), requests[n];
      m[r.principal := Checked(c, Find(m, r.principal), r.time).0]
  }

  function Find(m: map<string, Bucket>, p: string): Option<Bucket> {
    if p in m then Some(m[p]) else None
  }

  /** Other principals never matter: each bucket is a function of its own principal's requests. */
  lemma {:induction false} PrincipalsIndependent(c: Config, requests: seq<Request>, p: string)
    ensures Find(Buckets(c, requests), p) == After(c, TimesOf(requests, p))
  {
    if requests != [] {
      var n := |requests| - 1;
      var r, ts := requests[n], TimesOf(requests[..n], p);
      PrincipalsIndependent(c, requests[..n], p);
      if r.principal == p {
        assert (ts + [r.time])[..|ts|] == ts;
      } else {
        assert TimesOf(requests, p) == ts;
      }
    }
  }

  lemma OneMoreRequest(c: Config, requests: seq<Request>, r: Request)
    ensures var was, checked := Buckets(c, requests), Checked(c, Find(Buckets(c, requests), r.principal), r.time);
      var times := TimesOf(requests, r.principal) + [r.time];
      && Buckets(c, requests + [r]) == was[r.principal := checked.0]
      && TimesOf(requests + [r], r.principal) == times
      && Decisions(c, times)[|times| - 1] == checked.1
  {
    assert (requests + [r])[..|requests|] == requests;
    PrincipalsIndependent(c, requests, r.principal);
    var ts := TimesOf(requests, r.principal);
    assert (ts + [r.time])[..|ts|] == ts;
  }

  /** Inserting a full bucket first and updating it in place comes to the same. */
  lemma CheckedInPlace(c: Config, held: map<string, Bucket>, p: string, now: real)
    ensures var m := if p in held then held else held[p := Bucket(c.burst as real, now)];
      var tokens := Refilled(c, m[p], now);
      && Checked(c, Find(held, p), now) == (Bucket(Spent(tokens), now), tokens >= 1.0)
      && m[p := Bucket(Spent(tokens), now)] == held[p := Bucket(Spent(tokens), now)]
  {
  }

  class Limiter {
    const config: Config
    var buckets: map<string, Bucket>
    ghost var requests: seq<Request>

    ghost predicate Valid()
      reads this
    {
      buckets == Buckets(config, requests)
    }

    constructor (config: Config)
      ensures Valid() && this.config == config && requests == []
    {
      this.config := config;
      buckets := map[];
      requests := [];
    }

    /** The decision is the closed form's, applied to this principal's own requests. */
    method Check(principal: string, now: real) returns (admitted: bool)
      requires Valid()
      modifies this
      ensures Valid() && requests == old(requests) + [Request(principal, now)]
      ensures TimesOf(requests, principal) == TimesOf(old(requests), principal) + [now]
      ensures var times := TimesOf(requests, principal); admitted == Decisions(config, times)[|times| - 1]
    {
      ghost var was, held := requests, buckets;
      CheckedInPlace(config, held, principal, now);
      if principal !in buckets {
        buckets := buckets[principal := Bucket(config.burst as real, now)];
      }
      var bucket := buckets[principal];
      var tokens := Refilled(config, bucket, now);
      admitted := tokens >= 1.0;
      buckets := buckets[principal := Bucket(if admitted then tokens - 1.0 else tokens, now)];
      requests := was + [Request(principal, now)];
      OneMoreRequest(config, was, Request(principal, now));
    }
  }
}
