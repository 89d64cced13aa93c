/** The draw behind `prob=p,seed=s`: a 64-bit mix of seed, point name and hit number, turned into a
    double and compared with `p`. */
module FaultChance {

  import opened Options
  import opened FaultSpec
  import opened FaultRegistry

  type Byte = bv8

  const TWO_63: nat := 0x8000_0000_0000_0000
  const TWO_64: nat := 0x1_0000_0000_0000_0000

  function Fnv1aStep(h: bv64, b: Byte): bv64 {
    (h ^ (b as bv64)) * 0x0000_0100_0000_01b3
  }

  /** FNV-1a over the bytes of a name. */
  function HashOf(s: seq<Byte>): bv64 {
    if s == [] then 0xcbf2_9ce4_8422_2325 else Fnv1aStep(HashOf(s[..|s| - 1]), s[|s| - 1])
  }

  function SplitMix64(x: bv64): bv64 {
    var z := x + 0x9E37_79B9_7F4A_7C15;
    var z1 := (z ^ (z >> 30)) * 0xBF58_476D_1CE4_E5B9;
    var z2 := (z1 ^ (z1 >> 27)) * 0x94D0_49BB_1331_11EB;
    z2 ^ (z2 >> 31)
  }

  function Draw(seed: bv64, hash: bv64, hit: bv64): bv64 {
    SplitMix64(seed ^ hash ^ hit)
  }

  /** The published first values of both: the offset basis and the hash of "a", and the generator's first
      output from seed zero. */
  lemma KnownValues()
    ensures HashOf([]) == 0xcbf2_9ce4_8422_2325 && HashOf([0x61]) == 0xaf63_dc4c_8601_ec8c
    ensures SplitMix64(0) == 0xe220_a839_7b1d_cdaf
  {
    assert [0x61 as Byte][..0] == [];
  }

  // ---- the comparison ----------------------------------------------------------------------

  /** The spacing of doubles at `r`: they have 53 significant bits. */
  function Ulp(r: nat): (u: nat)
    ensures u >= 1
  {
    if r < 0x20_0000_0000_0000 then 1 else 2 * Ulp(r / 2)
  }

  /** `q` whole units and a rest, to the nearest unit; ties to the even one. */
  function Nearest(q: nat, rest: nat, u: nat): nat {
    q * u + if 2 * rest > u || (2 * rest == u && q % 2 == 1) then u else 0
  }

  function Units(r: nat, u: nat): (q: nat)
    requires u >= 1
    ensures q * u <= r < q * u + u
  {
    r / u
  }

  /** `r as f64`. */
  function Rounded(r: nat): nat {
    var u := Ulp(r);
    var q := Units(r, u);
    Nearest(q, r - q * u, u)
  }

  /** Dividing by 2^64 is exact, so the comparison is one of integers and `p` scaled. */
  predicate Below(r: nat, p: real) {
    Rounded(r) as real < p * (TWO_64 as real)
  }

  function Pow2(k: nat): (p: nat)
    ensures p >= 1
  {
    if k == 0 then 1 else 2 * Pow2(k - 1)
  }

  lemma {:induction false} UlpIs(r: nat, k: nat)
    requires 0x10_0000_0000_0000 * Pow2(k) <= r < 0x20_0000_0000_0000 * Pow2(k)
    ensures Ulp(r) == Pow2(k)
  {
    if k > 0 {
      UlpIs(r / 2, k - 1);
    }
  }

  lemma {:induction false} UlpIsSmall(r: nat)
    ensures r >= 0x20_0000_0000_0000 ==> 0x10_0000_0000_0000 * Ulp(r) <= r
  {
    if r >= 0x20_0000_0000_0000 {
      UlpIsSmall(r / 2);
    }
  }

  lemma NearestIsNear(q: nat, rest: nat, u: nat)
    requires rest < u
    ensures q * u + rest - u < Nearest(q, rest, u) <= q * u + rest + u
  {
  }

  /** Rounding moves a number by less than its spacing. */
  lemma RoundedIsNear(r: nat)
    ensures r - Ulp(r) < Rounded(r) <= r + Ulp(r)
  {
    var u := Ulp(r);
    NearestIsNear(Units(r, u), r - Units(r, u) * u, u);
  }

  lemma NearestWithinHalf(q: nat, rest: nat, u: nat)
    requires rest < u
    ensures 2 * (q * u + rest) - u <= 2 * Nearest(q, rest, u) <= 2 * (q * u + rest) + u
  {
  }

  /** Rounding moves a 64-bit number by at most 1024, and one below 2^53 not at all. */
  lemma RoundedIsClose(r: nat)
    requires r < TWO_64
    ensures r - 1024 <= Rounded(r) <= r + 1024
    ensures r < 0x20_0000_0000_0000 ==> Rounded(r) == r
  {
    var u := Ulp(r);
    NearestWithinHalf(Units(r, u), r - Units(r, u) * u, u);
    UlpIsSmall(r);
    UlpIsPower(r, 11);
    assert Pow2(4) == 16 && Pow2(8) == 256;
    assert Pow2(11) == 2048;
  }

  /** No spacing lies strictly between two powers of two. */
  lemma {:induction false} UlpIsPower(r: nat, k: nat)
    ensures Ulp(r) <= Pow2(k) || Ulp(r) >= 2 * Pow2(k)
  {
    if k > 0 && r >= 0x20_0000_0000_0000 {
      UlpIsPower(r / 2, k - 1);
    }
  }

  /** For every probability: a draw fires when it is below the threshold `p * 2^64` by more than 1024, does
      not when it is above it by 1024, and below 2^53 the comparison is exact. */
  lemma FiresByDraw(draw: nat, p: real)
    requires draw < TWO_64
    ensures draw as real + 1024.0 < p * (TWO_64 as real) ==> Below(draw, p)
    ensures draw as real >= p * (TWO_64 as real) + 1024.0 ==> !Below(draw, p)
    ensures draw < 0x20_0000_0000_0000 ==> (Below(draw, p) <==> draw as real < p * (TWO_64 as real))
  {
    RoundedIsClose(draw);
  }

  /** Below 2^64, only the topmost 1024 numbers round up to 2^64. */
  lemma RoundsToTop(r: nat)
    requires r < TWO_64
    ensures Rounded(r) < TWO_64 <==> r < TWO_64 - 1024
  {
    if r < TWO_63 {
      UlpIsSmall(r);
      RoundedIsNear(r);
    } else {
      assert Pow2(11) == 2048 by {
        assert Pow2(4) == 16;
        assert Pow2(8) == 256;
      }
      UlpIs(r, 11);
      TopRounds(r);
    }
  }

  lemma TopRounds(r: nat)
    requires TWO_63 <= r < TWO_64 && Ulp(r) == 2048
    ensures Rounded(r) < TWO_64 <==> r < TWO_64 - 1024
  {
  }

  /** `prob=1` fires exactly when the draw is not one of the topmost 1024 of the 2^64 possible ones; a
      draw up there becomes 2^64 as a double, and 1 is not below 1. */
  lemma CertainFiresExactly(draw: nat)
    requires draw < TWO_64
    ensures Below(draw, 1.0) <==> draw < TWO_64 - 1024
  {
    RoundsToTop(draw);
  }

  /** A draw by seed, point and hit number. */
  type Draws = (nat, Point, nat) -> nat

  /** The low 64 bits of a number. */
  function Word(n: nat): bv64 {
    if n < TWO_64 then n as bv64 else (n % TWO_64) as bv64
  }

  function NameHash(names: seq<seq<Byte>>, point: Point): bv64 {
    if point < |names| then HashOf(names[point]) else 0
  }

  /** How seed, name and hit number are mixed; the source's way is `Draw`. */
  type Mix = (bv64, bv64, bv64) -> bv64

  /** The registry's draw: counters and seeds are 64-bit, the point goes in by its name. */
  function RegistryDraws(mix: Mix, names: seq<seq<Byte>>): Draws {
    (seed: nat, point: Point, hit: nat) => mix(Word(seed), NameHash(names, point), Word(hit)) as nat
  }

  function ChanceFrom(draws: Draws): Chance {
    (p: real, seed: nat, point: Point, hit: nat) => Below(draws(seed, point, hit), p)
  }

  /** Raising `p` only adds firings. */
  lemma MoreLikelyFiresMore(draws: Draws, p: real, q: real, seed: nat, point: Point, hit: nat)
    requires p <= q && ChanceFrom(draws)(p, seed, point, hit)
    ensures ChanceFrom(draws)(q, seed, point, hit)
  {
    assert Below(draws(seed, point, hit), p);
    assert p * (TWO_64 as real) <= q * (TWO_64 as real);
    assert Below(draws(seed, point, hit), q);
  }

  /** What `prob=1` really schedules: the hits whose draw is not among the topmost 1024. */
  lemma CertainSchedule(draws: Draws, seed: nat, point: Point, upto: nat, h: nat)
    requires draws(seed, point, h) < TWO_64
    ensures h in Schedule(ChanceFrom(draws), 1.0, seed, point, upto) <==>
            (1 <= h <= upto && draws(seed, point, h) < TWO_64 - 1024)
  {
    ScheduleExactly(ChanceFrom(draws), 1.0, seed, point, upto);
    CertainFiresExactly(draws(seed, point, h));
  }

  lemma WordOf(w: bv64)
    ensures (w as nat) < TWO_64 && Word(w as nat) == w
  {
    assert (w as nat) as bv64 == w;
  }

  lemma HighestWord(d: bv64)
    requires d == 0xFFFF_FFFF_FFFF_FFFF
    ensures d as nat == TWO_64 - 1
  {
  }

  /** For every hash and hit there is a seed word whose draw is the highest of all. */
  lemma SeedForHighest(hash: bv64, hit: bv64)
    ensures Draw(0x3162_8af6_7b21_31ab ^ hash ^ hit, hash, hit) == 0xFFFF_FFFF_FFFF_FFFF
  {
    var seed: bv64 := 0x3162_8af6_7b21_31ab ^ hash ^ hit;
    assert seed ^ hash ^ hit == 0x3162_8af6_7b21_31ab;
    assert SplitMix64(0x3162_8af6_7b21_31ab) == 0xFFFF_FFFF_FFFF_FFFF;
  }

  lemma SeedNumber(mix: Mix, w: bv64, names: seq<seq<Byte>>, point: Point, h: nat)
    requires mix(w, NameHash(names, point), Word(h)) == 0xFFFF_FFFF_FFFF_FFFF
    ensures RegistryDraws(mix, names)(w as nat, point, h) == TWO_64 - 1
  {
    WordOf(w);
    HighestWord(mix(w, NameHash(names, point), Word(h)));
  }

  /** The rule `prob=1` with this seed, first in the list and so never masked, does not fire at hit `h` of
      the point, whatever the history; nor is the hit in its schedule. */
  ghost predicate Misses(draws: Draws, seed: nat, point: Point, h: nat) {
    && (forall upto: nat :: h !in Schedule(ChanceFrom(draws), 1.0, seed, point, upto))
    && (forall rules: seq<Rule>, hits: seq<Hit> ::
          rules != [] && rules[0].point == point && rules[0].trigger == Prob(1.0, seed) ==>
            h !in FiredNumbers(ChanceFrom(draws), rules, hits, 0))
  }

  lemma HighestMisses(mix: Mix, w: bv64, names: seq<seq<Byte>>, point: Point, h: nat)
    requires mix(w, NameHash(names, point), Word(h)) == 0xFFFF_FFFF_FFFF_FFFF
    ensures (w as nat) < TWO_64 && Misses(RegistryDraws(mix, names), w as nat, point, h)
  {
    WordOf(w);
    SeedNumber(mix, w, names, point, h);
    NeverScheduled(RegistryDraws(mix, names), w as nat, point, h);
  }

  /** So in the registry itself: for every table of names, every point and every hit number there is a
      64-bit seed with which `prob=1` misses that hit. */
  lemma CertainRuleMisses(names: seq<seq<Byte>>, point: Point, h: nat)
    ensures exists seed: nat :: seed < TWO_64 && Misses(RegistryDraws(Draw, names), seed, point, h)
  {
    SeedForHighest(NameHash(names, point), Word(h));
    HighestMisses(Draw, 0x3162_8af6_7b21_31ab ^ NameHash(names, point) ^ Word(h), names, point, h);
  }

  lemma NeverScheduled(draws: Draws, seed: nat, point: Point, h: nat)
    requires draws(seed, point, h) == TWO_64 - 1
    ensures Misses(draws, seed, point, h)
  {
    forall upto: nat
      ensures h !in Schedule(ChanceFrom(draws), 1.0, seed, point, upto)
    {
      CertainSchedule(draws, seed, point, upto, h);
    }
    forall rules: seq<Rule>, hits: seq<Hit> | rules != [] && rules[0].point == point && rules[0].trigger == Prob(1.0, seed)
      ensures h !in FiredNumbers(ChanceFrom(draws), rules, hits, 0)
    {
      FiresOnSchedule(ChanceFrom(draws), rules, hits);
    }
  }
}
