/**
 * The game's pseudo-random generator: xorshift128+ (Vigna) over a global two-word state.
 * All arithmetic is on 64-bit words, so shifts drop bits and the output sum wraps modulo 2^64.
 * Only the raw 64-bit output is modelled; its conversion to a double in [0, 1] is not.
 */
module Xorshift {

  /** The two state words `s[0]` and `s[1]`. */
  datatype State = State(s0: bv64, s1: bv64)

  /** The state before any seeding. */
  const INITIAL: State := State(0xCBBF7A44, 0x0139408D)

  const ZERO: State := State(0, 0)

  /** The first scrambling step: `x ^= x << 23`. */
  function Scramble(x: bv64): bv64 {
    x ^ (x << 23)
  }

  /** The state after one draw: the old second word moves to the front, the new second word mixes both. */
  function Next(st: State): (r: State)
    ensures r.s0 == st.s1
  {
    var x := Scramble(st.s0);
    var y := st.s1;
    State(y, x ^ y ^ (x >> 17) ^ (y >> 26))
  }

  /** The raw output of a draw: the new second word plus the old one, modulo 2^64. */
  function Output(st: State): bv64 {
    Next(st).s1 + st.s1
  }

  /** The all-zero state is a fixed point with output zero, which is why it must never be seeded. */
  lemma ZeroIsFixed()
    ensures Next(ZERO) == ZERO && Output(ZERO) == 0
  {
  }

  /** Only the zero state steps to zero: every other state, the initial one included, stays away from it. */
  lemma OnlyZeroReachesZero(st: State)
    ensures Next(st) == ZERO <==> st == ZERO
  {
  }

  /** The state after n draws. */
  function Advanced(st: State, n: nat): State
    decreases n
  {
    if n == 0 then st else Next(Advanced(st, n - 1))
  }

  /** Seeded away from zero, the generator stays away from zero forever. */
  lemma {:induction false} NeverZero(st: State, n: nat)
    requires st != ZERO
    ensures Advanced(st, n) != ZERO
    decreases n
  {
    if n > 0 {
      NeverZero(st, n - 1);
      OnlyZeroReachesZero(Advanced(st, n - 1));
    }
  }

  /** In particular the statically initialized state never reaches zero. */
  lemma InitialNeverZero(n: nat)
    ensures Advanced(INITIAL, n) != ZERO
  {
    NeverZero(INITIAL, n);
  }

  /** The global state array `s` and the functions over it. */
  class Generator {
    const s: array<bv64>

    ghost predicate Valid()
      reads this
    {
      s.Length == 2
    }

    ghost function Current(): State
      reads this, s
      requires Valid()
    {
      State(s[0], s[1])
    }

    /** The statically initialized state. */
    constructor ()
      ensures Valid() && fresh(s) && Current() == INITIAL
    {
      var a := new bv64[2];
      a[0] := 0xCBBF7A44;
      a[1] := 0x0139408D;
      s := a;
    }

    /** `seed(hi, low)`: the state becomes exactly the two words given. */
    method Seed(hi: bv64, low: bv64)
      requires Valid()
      modifies s
      ensures Valid() && Current() == State(hi, low)
    {
      s[0] := hi;
      s[1] := low;
    }

    /** One draw: steps the state and returns the raw 64-bit output. */
    method Random() returns (raw: bv64)
      requires Valid()
      modifies s
      ensures Valid() && Current() == Next(old(Current())) && raw == Output(old(Current()))
    {
      var st := State(s[0], s[1]);
      var next := Next(st);
      s[0] := next.s0;
      s[1] := next.s1;
      raw := Output(st);
    }
  }
}
