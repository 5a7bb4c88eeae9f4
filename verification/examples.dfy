/** The two example formulas over three variables and what the solver
    answers on them, plus the degenerate case of no variables. */
module Examples {
  import opened Cnf
  import opened Counter
  import opened Checker

  /** The first example formula: five clauses over three variables. */
  const FirstExample: Formula := [[1, -2, -2], [2, 3, 3], [-1, -3, -3], [-1, -2, 3], [1, 2, -3]]

  /** The first example without its last clause: one four-clause formula
      of the size its accompanying clause count announces. */
  const FirstFourClauses: Formula := [[1, -2, -2], [2, 3, 3], [-1, -3, -3], [-1, -2, 3]]

  /** The second example formula: every sign pattern over three variables. */
  const SecondExample: Formula := [[-1, -2, -3], [-1, -2, 3], [-1, 2, -3], [-1, 2, 3], [1, -2, -3], [1, -2, 3], [1, 2, -3], [1, 2, 3]]

  lemma CandidatesOverThree()
    ensures Encode(4, 3) == [0, 0, 0, 1] && Encode(5, 3) == [0, 1, 0, 1]
    ensures Encode(6, 3) == [0, 0, 1, 1] && Encode(7, 3) == [0, 1, 1, 1]
  {
  }

  /** The first example is unsatisfiable: clause 1 forces variable 2 to
      imply variable 1, clause 3 forces variable 1 to exclude variable 3,
      and then clause 4 fails when variable 2 is true and clause 5 when it
      is false. */
  lemma FirstExampleUnsat()
    ensures forall b :: IsAssignment(b, 3) ==> !Sat(FirstExample, b)
  {
    FirstFlipOrder();
    CandidatesOverThree();
    assert !ClauseSat(Encode(0, 3), FirstExample[1]);
    assert !ClauseSat(Encode(1, 3), FirstExample[1]);
    assert !ClauseSat(Encode(2, 3), FirstExample[0]);
    assert !ClauseSat(Encode(3, 3), FirstExample[3]);
    assert !ClauseSat(Encode(4, 3), FirstExample[4]);
    assert !ClauseSat(Encode(5, 3), FirstExample[2]);
    assert !ClauseSat(Encode(6, 3), FirstExample[0]);
    assert !ClauseSat(Encode(7, 3), FirstExample[2]);
    assert Pow2(3) == 8;
    NoCandidateMeansUnsat(FirstExample, 3);
  }

  /** Each candidate over three variables falsifies exactly the clause of
      the second example whose signs are all opposite to it. */
  lemma SecondExampleUnsat()
    ensures forall b :: IsAssignment(b, 3) ==> !Sat(SecondExample, b)
  {
    FirstFlipOrder();
    CandidatesOverThree();
    assert !ClauseSat(Encode(0, 3), SecondExample[7]);
    assert !ClauseSat(Encode(1, 3), SecondExample[3]);
    assert !ClauseSat(Encode(2, 3), SecondExample[5]);
    assert !ClauseSat(Encode(3, 3), SecondExample[1]);
    assert !ClauseSat(Encode(4, 3), SecondExample[6]);
    assert !ClauseSat(Encode(5, 3), SecondExample[2]);
    assert !ClauseSat(Encode(6, 3), SecondExample[4]);
    assert !ClauseSat(Encode(7, 3), SecondExample[0]);
    assert Pow2(3) == 8;
    NoCandidateMeansUnsat(SecondExample, 3);
  }

  /** The formula without its clause number d. */
  function DropClause(wff: Formula, d: nat): Formula
    requires d < |wff|
  {
    wff[..d] + wff[d + 1..]
  }

  /** Whichever single clause is removed from the first example, the four
      that remain are satisfiable; the witness for each is given. */
  lemma EveryFourOfFirstExampleSat(d: nat)
    requires d < |FirstExample|
    ensures exists b :: IsAssignment(b, 3) && Sat(DropClause(FirstExample, d), b)
  {
    var b := [[0, 0, 1, 0], [0, 0, 0, 0], [0, 1, 1, 1], [0, 1, 1, 0], [0, 0, 0, 1]][d];
    var f := DropClause(FirstExample, d);
    forall k | 0 <= k < |f|
      ensures ClauseSat(b, f[k])
    {
      if LitTrue(b, f[k][0]) {
      } else if LitTrue(b, f[k][1]) {
        assert LitTrue(b, f[k][1]);
      } else {
        assert LitTrue(b, f[k][2]);
      }
    }
    assert IsAssignment(b, 3) && Sat(f, b);
  }

  /** The solver rejects the first example after all eight candidates. */
  method SolveFirstExample() returns (sat: bool, ghost tests: nat)
    ensures !sat && tests == 8
  {
    var a;
    sat, a, tests := CheckIncremental(FirstExample, 3);
    FirstExampleUnsat();
  }

  /** The solver rejects the second example after all eight candidates. */
  method SolveSecondExample() returns (sat: bool, ghost tests: nat)
    ensures !sat && tests == 8
  {
    var a;
    sat, a, tests := CheckIncremental(SecondExample, 3);
    SecondExampleUnsat();
  }

  /** Without the fifth clause the first example is satisfied by candidate
      4, variable 3 alone true ... */
  lemma FirstFourClausesSatByFour()
    ensures Sat(FirstFourClauses, Encode(4, 3))
  {
    CandidatesOverThree();
    var w := [0, 0, 0, 1];
    assert LitTrue(w, FirstFourClauses[0][1]) && LitTrue(w, FirstFourClauses[1][1]);
    assert LitTrue(w, FirstFourClauses[2][0]) && LitTrue(w, FirstFourClauses[3][0]);
  }

  /** ... and by no earlier candidate. */
  lemma FirstFourClausesNoEarlier()
    ensures forall k :: 0 <= k < 4 ==> !Sat(FirstFourClauses, Encode(k, 3))
  {
    forall k | 0 <= k < 4
      ensures !Sat(FirstFourClauses, Encode(k, 3))
    {
      FirstFlipOrder();
      if k == 0 {
        assert !ClauseSat([0, 0, 0, 0], FirstFourClauses[1]);
      } else if k == 1 {
        assert !ClauseSat([0, 1, 0, 0], FirstFourClauses[1]);
      } else if k == 2 {
        assert !ClauseSat([0, 0, 1, 0], FirstFourClauses[0]);
      } else {
        assert !ClauseSat([0, 1, 1, 0], FirstFourClauses[3]);
      }
    }
  }

  /** The solver answers True on the first four clauses of the first
      example, with the first satisfying candidate in counter order. */
  method SolveFirstFourClauses() returns (sat: bool, found: seq<int>)
    ensures sat && found == [0, 0, 0, 1]
  {
    var a;
    ghost var tests;
    sat, a, tests := CheckIncremental(FirstFourClauses, 3);
    FirstFourClausesSatByFour();
    FirstFourClausesNoEarlier();
    CandidateIsAssignment(4, 3);
    assert sat;
    assert tests - 1 == 4;
    CandidatesOverThree();
    found := a[..];
  }

  /** With no variables exactly one candidate, the empty assignment, is
      tested; every literal is then 0 and never true, so the formula is
      satisfied exactly when it has no clauses. */
  method SolveWithoutVariables(wff: Formula) returns (sat: bool, ghost tests: nat)
    requires WellFormed(wff, 0)
    ensures tests == 1
    ensures sat <==> wff == []
  {
    var a;
    sat, a, tests := CheckIncremental(wff, 0);
    if wff != [] {
      assert !ClauseSat(a[..], wff[0]);
    } else {
      assert Sat(wff, [0]);
    }
  }
}
