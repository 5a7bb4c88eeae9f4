/** The exhaustive checker: test the all-false assignment, then advance it
    as a binary counter and test again, at most 2^n times, stopping at the
    first assignment that satisfies the formula. */
module Checker {
  import opened Cnf
  import opened Counter

  /** Evaluates the formula on the assignment held in `a`, clause by clause
      and literal by literal, leaving a clause at its first true literal and
      the formula at its first clause with none. */
  method IsSatisfiable(wff: Formula, a: array<int>) returns (sat: bool)
    requires WellFormed(wff, a.Length - 1)
    ensures sat == Sat(wff, a[..])
  {
    for k := 0 to |wff|
      invariant forall m :: 0 <= m < k ==> ClauseSat(a[..], wff[m])
    {
      var clause := wff[k];
      var satisfied := false;
      for i := 0 to |clause|
        invariant !satisfied
        invariant forall m :: 0 <= m < i ==> !LitTrue(a[..], clause[m])
      {
        var literal := clause[i];
        if literal > 0 && a[literal] == 1 {
          assert LitTrue(a[..], clause[i]);
          satisfied := true;
          break;
        } else if literal < 0 && a[-literal] == 0 {
          assert LitTrue(a[..], clause[i]);
          satisfied := true;
          break;
        }
      }
      if !satisfied {
        return false;
      }
    }
    return true;
  }

  /** Advances the counter held in a[1..] by one step of ripple carry:
      flip a[1], a[2], ... in turn and stop at the first that becomes 1.
      Slot 0 is never touched. */
  method Advance(a: array<int>)
    requires a.Length >= 1
    modifies a
    ensures a[0] == old(a[0])
    ensures a[1..] == Inc(old(a[1..]))
  {
    ghost var orig := a[..];
    var j := 1;
    while j < a.Length
      invariant 1 <= j <= a.Length
      invariant a[0] == orig[0]
      invariant forall m :: 1 <= m < j ==> FlipBit(orig[m]) != 1 && a[m] == FlipBit(orig[m])
      invariant forall m :: j <= m < a.Length ==> a[m] == orig[m]
    {
      a[j] := FlipBit(a[j]);
      if a[j] == 1 {
        IncCarriesThrough(orig[1..], j - 1);
        assert orig[1..][j - 1..] == [orig[j]] + orig[j + 1..];
        assert a[1..] == Flipped(orig[1..][..j - 1]) + Inc(orig[1..][j - 1..]);
        return;
      }
      j := j + 1;
    }
    IncCarriesThrough(orig[1..], j - 1);
    assert a[1..] == Flipped(orig[1..][..j - 1]) + Inc(orig[1..][j - 1..]);
  }

  /** A 0/1 assignment in the sense of the formula's variables is a bit
      list in slots 1..n. */
  lemma AssignmentIsBits(b: seq<int>, n: nat)
    requires IsAssignment(b, n)
    ensures IsBits(b[1..])
  {
  }

  /** Completeness of the enumeration: if none of the 2^n candidates the
      counter passes through satisfies the formula, no assignment to the n
      variables does. */
  lemma NoCandidateMeansUnsat(wff: Formula, n: nat)
    requires forall k :: 0 <= k < Pow2(n) ==> !Sat(wff, Encode(k, n))
    ensures forall b :: IsAssignment(b, n) ==> !Sat(wff, b)
  {
    forall b | IsAssignment(b, n)
      ensures !Sat(wff, b)
    {
      AssignmentIsBits(b, n);
      EncodeCovers(b, n);
      SatIgnoresSlotZero(wff, b, Encode(Value(b[1..]), n));
    }
  }

  /** Every candidate the counter produces is a 0/1 assignment to the n
      variables. */
  lemma CandidateIsAssignment(k: nat, n: nat)
    ensures IsAssignment(Encode(k, n), n)
  {
  }

  /** The solver. Returns whether the formula is satisfiable and the
      assignment the counter holds when the search ends; `tests` counts the
      candidates evaluated. On success the assignment satisfies the formula
      and is the first candidate in counter order that does; on failure no
      0/1 assignment satisfies the formula, all 2^n candidates have been
      tested and the counter has wrapped round to all-false. */
  method CheckIncremental(wff: Formula, nvars: nat) returns (sat: bool, a: array<int>, ghost tests: nat)
    requires WellFormed(wff, nvars)
    ensures fresh(a) && IsAssignment(a[..], nvars)
    ensures 1 <= tests <= Pow2(nvars)
    ensures sat ==> a[..] == Encode(tests - 1, nvars) && Sat(wff, a[..])
    ensures sat ==> forall k :: 0 <= k < tests - 1 ==> !Sat(wff, Encode(k, nvars))
    ensures !sat ==> tests == Pow2(nvars) && a[..] == seq(nvars + 1, _ => 0)
    ensures !sat ==> forall b :: IsAssignment(b, nvars) ==> !Sat(wff, b)
  {
    a := new int[nvars + 1](_ => 0);
    EncodeZero(nvars);
    tests := 0;
    for i := 0 to Pow2(nvars)
      invariant a.Length == nvars + 1 && tests == i
      invariant a[..] == Encode(if i < Pow2(nvars) then i else 0, nvars)
      invariant forall k :: 0 <= k < i ==> !Sat(wff, Encode(k, nvars))
    {
      tests := tests + 1;
      sat := IsSatisfiable(wff, a);
      if sat {
        CandidateIsAssignment(i, nvars);
        return;
      }
      Advance(a);
      IncBits(i, nvars);
      ModFacts(i + 1, Pow2(nvars));
      assert a[..] == [a[0]] + a[1..];
    }
    NoCandidateMeansUnsat(wff, nvars);
    CandidateIsAssignment(0, nvars);
    sat := false;
  }
}
