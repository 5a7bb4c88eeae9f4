/** The assignment as an n-bit binary counter, variable 1 being the least
    significant bit, and the ripple-carry increment that advances it. */
module Counter {

  function Pow2(n: nat): (r: nat)
    ensures r >= 1
  {
    if n == 0 then 1 else 2 * Pow2(n - 1)
  }

  /** Every entry is 0 or 1. */
  predicate IsBits(s: seq<int>)
  {
    forall i :: 0 <= i < |s| ==> s[i] == 0 || s[i] == 1
  }

  /** The low n bits of k, least significant first. */
  function Bits(k: nat, n: nat): (r: seq<int>)
    ensures |r| == n && IsBits(r)
  {
    if n == 0 then [] else [k % 2] + Bits(k / 2, n - 1)
  }

  /** The number a bit list denotes, least significant bit first. */
  function Value(s: seq<int>): (v: nat)
    requires IsBits(s)
    ensures v < Pow2(|s|)
  {
    if s == [] then 0 else s[0] + 2 * Value(s[1..])
  }

  /** Candidate number k over n variables: slot 0 unused and 0, slot j
      holding bit j - 1 of k. */
  function Encode(k: nat, n: nat): (r: seq<int>)
    ensures |r| == n + 1 && r[0] == 0 && IsBits(r)
  {
    [0] + Bits(k, n)
  }

  /** Python's `x ^ 1` on an integer: the lowest bit is flipped and every
      other bit is kept. */
  function FlipBit(x: int): (r: int)
    ensures r / 2 == x / 2 && r % 2 == 1 - x % 2
  {
    if x % 2 == 0 then x + 1 else x - 1
  }

  /** The ripple-carry advance: flip the bits in turn from the least
      significant one, stopping at the first bit that becomes 1. */
  function Inc(s: seq<int>): (r: seq<int>)
    ensures |r| == |s|
  {
    if s == [] then []
    else if FlipBit(s[0]) == 1 then [1] + s[1..]
    else [FlipBit(s[0])] + Inc(s[1..])
  }

  /** Every entry flipped, as the advance leaves the bits it carries
      through. */
  function Flipped(s: seq<int>): seq<int>
  {
    seq(|s|, i requires 0 <= i < |s| => FlipBit(s[i]))
  }

  /** While the flipped bits do not become 1 the carry runs on: the first m
      bits are flipped and the advance continues on the rest. */
  lemma {:induction false} IncCarriesThrough(s: seq<int>, m: nat)
    requires m <= |s| && forall i :: 0 <= i < m ==> FlipBit(s[i]) != 1
    ensures Inc(s) == Flipped(s[..m]) + Inc(s[m..])
  {
    if m > 0 {
      IncCarriesThrough(s[1..], m - 1);
      assert s[1..][m - 1..] == s[m..];
      assert Flipped(s[..m]) == [FlipBit(s[0])] + Flipped(s[1..][..m - 1]);
    }
  }

  /** Bits and Value are inverse on numbers below 2^n ... */
  lemma {:induction false} ValueOfBits(k: nat, n: nat)
    requires k < Pow2(n)
    ensures Value(Bits(k, n)) == k
  {
    if n > 0 {
      ValueOfBits(k / 2, n - 1);
      assert Bits(k, n)[1..] == Bits(k / 2, n - 1);
    }
  }

  /** ... and on bit lists: every 0/1 list of length n is the encoding of
      exactly one number below 2^n. */
  lemma {:induction false} BitsOfValue(s: seq<int>)
    requires IsBits(s)
    ensures Bits(Value(s), |s|) == s
  {
    if s != [] {
      BitsOfValue(s[1..]);
      var v := Value(s);
      assert v % 2 == s[0] && v / 2 == Value(s[1..]);
    }
  }

  /** The all-zero list encodes 0. */
  lemma {:induction false} BitsZero(n: nat)
    ensures Bits(0, n) == seq(n, _ => 0)
  {
    if n > 0 {
      BitsZero(n - 1);
    }
  }

  /** The increment keeps a bit list a bit list. */
  lemma {:induction false} IncKeepsBits(s: seq<int>)
    requires IsBits(s)
    ensures IsBits(Inc(s))
  {
    if s != [] && FlipBit(s[0]) != 1 {
      IncKeepsBits(s[1..]);
    }
  }

  lemma {:induction false} IncBelowTop(k: nat, n: nat)
    requires k + 1 < Pow2(n)
    ensures Inc(Bits(k, n)) == Bits(k + 1, n)
  {
    if n > 0 {
      if k % 2 == 1 {
        IncBelowTop(k / 2, n - 1);
      }
    }
  }

  lemma {:induction false} IncAtTop(n: nat)
    ensures Inc(Bits(Pow2(n) - 1, n)) == Bits(0, n)
  {
    if n > 0 {
      var k := Pow2(n) - 1;
      assert k % 2 == 1 && k / 2 == Pow2(n - 1) - 1;
      IncAtTop(n - 1);
    }
  }

  lemma ModFacts(x: nat, p: nat)
    requires p > 0
    ensures x < p ==> x % p == x
    ensures p % p == 0
  {
  }

  /** The ripple-carry advance is binary increment modulo 2^n. */
  lemma {:induction false} IncBits(k: nat, n: nat)
    requires k < Pow2(n)
    ensures Inc(Bits(k, n)) == Bits((k + 1) % Pow2(n), n)
  {
    ModFacts(k + 1, Pow2(n));
    if k + 1 < Pow2(n) {
      IncBelowTop(k, n);
    } else {
      IncAtTop(n);
    }
  }

  /** Distinct counter values below 2^n give distinct candidates, so the
      enumeration never tests the same assignment twice. */
  lemma EncodeInjective(j: nat, k: nat, n: nat)
    requires j < Pow2(n) && k < Pow2(n) && Encode(j, n) == Encode(k, n)
    ensures j == k
  {
    assert Bits(j, n) == Encode(j, n)[1..] == Encode(k, n)[1..] == Bits(k, n);
    ValueOfBits(j, n);
    ValueOfBits(k, n);
  }

  /** Every 0/1 setting of the variables 1..n is the candidate the counter
      holds at some value below 2^n. */
  lemma EncodeCovers(b: seq<int>, n: nat)
    requires |b| == n + 1 && IsBits(b[1..])
    ensures Value(b[1..]) < Pow2(n) && Encode(Value(b[1..]), n)[1..] == b[1..]
  {
    BitsOfValue(b[1..]);
  }

  /** The all-false candidate is counter value 0. */
  lemma EncodeZero(n: nat)
    ensures Encode(0, n) == seq(n + 1, _ => 0)
  {
    BitsZero(n);
  }

  /** For three variables the first four candidates are 000, 100, 010, 110
      (variable 1 written first): variable 1 toggles fastest. */
  lemma FirstFlipOrder()
    ensures Encode(0, 3) == [0, 0, 0, 0]
    ensures Encode(1, 3) == [0, 1, 0, 0]
    ensures Encode(2, 3) == [0, 0, 1, 0]
    ensures Encode(3, 3) == [0, 1, 1, 0]
  {
  }
}
