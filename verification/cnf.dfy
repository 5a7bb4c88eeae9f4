/** Formulas in conjunctive normal form and what it means for a 0/1
    assignment to satisfy one.

    A formula is a list of clauses, a clause a list of integer literals.
    An assignment is a list of integers indexed by variable number; slot 0
    is never used, and a variable is true when its slot holds 1 and false
    when it holds 0. */
module Cnf {

  type Clause = seq<int>
  type Formula = seq<Clause>

  /** Literal `l` is true under `s`: a positive literal when its variable's
      slot holds 1, a negative literal when its variable's slot holds 0.
      The literal 0 is neither positive nor negative and is never true. */
  predicate LitTrue(s: seq<int>, l: int)
  {
    (0 < l < |s| && s[l] == 1) || (0 < -l < |s| && s[-l] == 0)
  }

  /** A clause holds when at least one of its literals is true. */
  predicate ClauseSat(s: seq<int>, c: Clause)
  {
    exists i :: 0 <= i < |c| && LitTrue(s, c[i])
  }

  /** A formula holds when every one of its clauses holds. */
  predicate Sat(wff: Formula, s: seq<int>)
  {
    forall k :: 0 <= k < |wff| ==> ClauseSat(s, wff[k])
  }

  /** Every literal names a variable in 1..n, or is 0; evaluating such a
      literal never indexes outside an assignment of length n + 1. */
  predicate WellFormed(wff: Formula, n: int)
  {
    forall k, i :: 0 <= k < |wff| && 0 <= i < |wff[k]| ==> -n <= wff[k][i] <= n
  }

  /** `b` assigns 0 or 1 to each of the variables 1..n (slot 0 is unused). */
  predicate IsAssignment(b: seq<int>, n: nat)
  {
    |b| == n + 1 && forall j :: 1 <= j <= n ==> b[j] == 0 || b[j] == 1
  }

  /** Under a 0/1 assignment each variable is either true or false, so a
      literal and its negation disagree. */
  lemma NegationFlips(b: seq<int>, n: nat, l: int)
    requires IsAssignment(b, n) && 1 <= l <= n
    ensures LitTrue(b, l) != LitTrue(b, -l)
  {
  }

  /** The literal 0 never makes a clause true. */
  lemma ZeroLiteralNeverTrue(s: seq<int>)
    ensures !LitTrue(s, 0)
  {
  }

  /** An empty clause is never satisfied, so a formula containing one is
      unsatisfiable; the empty formula is satisfied by every assignment. */
  lemma EmptyClauseAndEmptyFormula(wff: Formula, s: seq<int>)
    ensures [] in wff ==> !Sat(wff, s)
    ensures Sat([], s)
  {
  }

  /** Satisfaction looks only at the variable slots 1..: two assignments of
      the same length that agree there agree on every formula. */
  lemma SatIgnoresSlotZero(wff: Formula, s: seq<int>, t: seq<int>)
    requires |s| == |t| && |s| >= 1 && s[1..] == t[1..]
    ensures Sat(wff, s) == Sat(wff, t)
  {
  }
}
