/**
 * SeededRNG of the network build: a Park–Miller (Lehmer) generator with
 * multiplier 16807 and modulus 2^31 - 1, used so that both peers of a match
 * draw the same pieces and garbage holes from the seed the server sends.
 */
module Lehmer {

  const MODULUS: int := 2147483647
  const MULTIPLIER: int := 16807

  /** JavaScript's `%`: the remainder takes the sign of the dividend. */
  function JsRem(a: int, b: int): (r: int)
    requires b > 0
    ensures a >= 0 ==> 0 <= r < b
    ensures a < 0 ==> -b < r <= 0
  {
    if a >= 0 then a % b else -((-a) % b)
  }

  /** The states the generator is meant to stay in. */
  predicate InRange(s: int)
  {
    1 <= s <= MODULUS - 1
  }

  /** The constructor: `s = seed % 2147483647; if (s <= 0) s += 2147483646`. */
  function InitialState(seed: int): int
  {
    var s := JsRem(seed, MODULUS);
    if s <= 0 then s + 2147483646 else s
  }

  /** The state update of `next()`: `s = s * 16807 % 2147483647`. */
  function NextState(s: int): int
  {
    s * MULTIPLIER % MODULUS
  }

  /**
   * `nextInt(max) = floor(next() * max)` with `next() = (s - 1) / 2147483646`, taken
   * over integers: `((s - 1) * max) / 2147483646`.
   */
  function ScaleIndex(s: int, max: nat): (r: int)
    ensures InRange(s) ==> 0 <= r && (max > 0 ==> r < max)
  {
    ScaleBound(s, max);
    ((s - 1) * max) / (MODULUS - 1)
  }

  lemma ScaleBound(s: int, max: nat)
    ensures InRange(s) ==> 0 <= ((s - 1) * max) / (MODULUS - 1) && (max > 0 ==> ((s - 1) * max) / (MODULUS - 1) < max)
  {
    if InRange(s) && max > 0 {
      var d := MODULUS - 1;
      assert 0 <= s - 1 < d;
      assert (s - 1) * max < d * max by {
        assert (d - (s - 1)) * max > 0;
      }
      assert ((s - 1) * max) / d < max;
    }
  }

  /** Every seed except those congruent to -2147483646 (for which the state would be 0) starts in range. */
  lemma InitialStateInRange(seed: int)
    requires JsRem(seed, MODULUS) != -(MODULUS - 1)
    ensures InRange(InitialState(seed))
  {
  }

  /** In particular every seed the server can send (0 to 999999) starts in range. */
  lemma ServerSeedsInRange(seed: int)
    requires 0 <= seed <= 999999
    ensures InRange(InitialState(seed)) && InitialState(seed) == (if seed == 0 then 2147483646 else seed)
  {
  }

  /** The one bad residue: seed -2147483646 gives state 0, which `next()` never leaves. */
  lemma DegenerateSeed()
    ensures InitialState(-2147483646) == 0 && NextState(0) == 0
  {
  }

  /**
   * Because 2^31 - 1 is prime and 16807 has the inverse 1407677000 modulo it,
   * `next()` never maps an in-range state to 0, so the state stays in range forever.
   */
  lemma NextStateInRange(s: int)
    requires InRange(s)
    ensures InRange(NextState(s))
  {
    var p := s * 16807;
    var q := p / 2147483647;
    var r := p % 2147483647;
    assert p == q * 2147483647 + r;
    // 16807 * 1407677000 == 1 + 11017 * 2147483647, so s == r * 1407677000 (mod 2^31 - 1)
    var t := q * 1407677000 - s * 11017;
    assert s == r * 1407677000 + 2147483647 * t;
  }

  /** The state after `n` calls of `next()`. */
  function StateAfter(seed: int, n: nat): int
  {
    if n == 0 then InitialState(seed) else NextState(StateAfter(seed, n - 1))
  }

  lemma {:induction false} StateAfterInRange(seed: int, n: nat)
    requires JsRem(seed, MODULUS) != -(MODULUS - 1)
    ensures InRange(StateAfter(seed, n))
  {
    if n == 0 {
      InitialStateInRange(seed);
    } else {
      StateAfterInRange(seed, n - 1);
      NextStateInRange(StateAfter(seed, n - 1));
    }
  }

  class SeededRng {
    var s: int
    /** The seed and the number of `next()` calls so far: the state is a function of the two. */
    ghost const seed: int
    ghost var calls: nat

    ghost predicate Valid()
      reads this
    {
      InRange(s) && s == StateAfter(seed, calls)
    }

    constructor (seed: int)
      ensures this.seed == seed && calls == 0 && s == InitialState(seed)
      ensures JsRem(seed, MODULUS) != -(MODULUS - 1) ==> Valid()
    {
      var r := JsRem(seed, MODULUS);
      s := if r <= 0 then r + 2147483646 else r;
      this.seed := seed;
      calls := 0;
      if JsRem(seed, MODULUS) != -(MODULUS - 1) {
        InitialStateInRange(seed);
      }
    }

    /** `next()`: advances the state; the float it returns is rebuilt by NextInt. */
    method Next()
      requires Valid()
      modifies this
      ensures Valid() && s == NextState(old(s)) && calls == old(calls) + 1
    {
      NextStateInRange(s);
      s := s * 16807 % 2147483647;
      calls := calls + 1;
    }

    /** `nextInt(max)`: an index in [0, max) drawn from the next state. */
    method NextInt(max: nat) returns (r: nat)
      requires Valid() && max > 0
      modifies this
      ensures Valid() && s == NextState(old(s)) && calls == old(calls) + 1
      ensures r == ScaleIndex(s, max) && r < max
    {
      Next();
      r := ((s - 1) * max) / 2147483646;
    }
  }
}
