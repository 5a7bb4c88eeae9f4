# DumbSat incremental checker, modelled in Dafny

A model of the brute-force CNF satisfiability checker `check_incremental`
of `DumbSat_Incremental_aarnett2.py`. A formula is a list of clauses, each a
list of signed integer literals; an assignment is a list of 0/1 values
indexed by variable number, with slot 0 unused. The checker starts from the
all-false assignment, tests it with the nested evaluator `is_satisfiable`,
and, while it fails, advances the assignment in place as a binary counter
(variable 1 the least significant bit, ripple carry), making at most 2^n
tests and returning at the first assignment that satisfies the formula.

Files:

- `cnf.dfy` (module `Cnf`): the meaning of a formula. `LitTrue`,
  `ClauseSat` and `Sat` are the plain quantified definitions the evaluator
  is proved against; `WellFormed` says every literal lies in `-n..n`;
  `IsAssignment` is a 0/1 assignment to variables `1..n`.
- `counter.dfy` (module `Counter`): the assignment read as a counter.
  `Bits(k, n)` and `Value(s)` convert between numbers and bit lists (least
  significant first), `Encode(k, n)` is the k-th candidate (slot 0 then the
  bits), `FlipBit` is Python's `x ^ 1` on integers and `Inc` the ripple-carry
  advance on a list.
- `checker.dfy` (module `Checker`): the evaluator `IsSatisfiable` and the
  advance `Advance` as methods over an `array<int>` with loops, and the
  solver `CheckIncremental`, whose loop invariant is that before test `i`
  the array holds `Encode(i, n)`.
- `examples.dfy` (module `Examples`): the two example formulas at lines 17
  and 22 of the source and the degenerate case of no variables.

The first example formula (line 17) is unsatisfiable, which the model
proves. Its comment and clause count (lines 14 and 16) announce four
clauses, but it lists five, and the source does not say which one is
extra. Whichever single clause is dropped, the four that remain are
satisfiable. `FirstFourClauses` is one such choice, the list without its
last clause; the solver satisfies it first with candidate 4 (variable 3
alone true).

## Model

| member | source | states |
|---|---|---|
| `Checker.IsSatisfiable` | DumbSat_Incremental_aarnett2.py:48-60 | the nested loops with their early `break` and `return False` answer exactly whether every clause has a literal `l` with `l > 0` and slot `l` equal to 1, or `l < 0` and slot `-l` equal to 0; the array is only read |
| `Checker.Advance` | DumbSat_Incremental_aarnett2.py:68-71 | the in-place flip loop leaves slot 0 and the length alone and replaces slots `1..` by the ripple-carry increment `Inc` of their old contents |
| `Checker.CheckIncremental` | DumbSat_Incremental_aarnett2.py:44-73 | allocates an all-false list of length `n + 1`; makes between 1 and 2^n tests; on True the returned assignment satisfies the formula, is the candidate tested last, and no earlier candidate in counter order satisfies it; on False all 2^n candidates were tested, no 0/1 assignment satisfies the formula, and the counter has wrapped back to all-false |
| `Checker.NoCandidateMeansUnsat` | DumbSat_Incremental_aarnett2.py:63-73 | completeness: if none of the 2^n candidates `Encode(0, n) .. Encode(2^n - 1, n)` satisfies the formula, no 0/1 assignment to the n variables does |
| `Counter.IncBits` | DumbSat_Incremental_aarnett2.py:68-71 | the ripple-carry advance is binary increment modulo 2^n: it takes the bits of `k` to the bits of `(k + 1) % 2^n` |
| `Counter.IncBelowTop` | DumbSat_Incremental_aarnett2.py:68-71 | below the top value the advance takes the bits of `k` to the bits of `k + 1` |
| `Counter.IncAtTop` | DumbSat_Incremental_aarnett2.py:68-71 | from all ones (2^n - 1) the advance carries out of every bit and wraps to all zeros |
| `Counter.IncCarriesThrough` | DumbSat_Incremental_aarnett2.py:68-71 | while the flipped bits do not become 1 the carry runs on: the first m bits come out flipped and the advance continues on the remaining bits |
| `Counter.IncKeepsBits` | DumbSat_Incremental_aarnett2.py:68-71 | the advance keeps every entry 0 or 1 (its length is kept by `Inc`'s own postcondition) |
| `Counter.FlipBit` | DumbSat_Incremental_aarnett2.py:69 | `x ^ 1` flips the lowest bit of `x` and keeps all the others |
| `Counter.ValueOfBits` | DumbSat_Incremental_aarnett2.py:63-71 | the bits of any `k < 2^n` read back as `k`, so the counter passes through distinct states |
| `Counter.BitsOfValue` | DumbSat_Incremental_aarnett2.py:63-71 | every 0/1 list is the bit list of the number it denotes |
| `Counter.EncodeInjective` | DumbSat_Incremental_aarnett2.py:63-71 | two counter values below 2^n that give the same candidate are equal: no assignment is tested twice |
| `Counter.EncodeCovers` | DumbSat_Incremental_aarnett2.py:63-71 | every 0/1 setting of the variables is the candidate at some counter value below 2^n: every assignment is tested |
| `Counter.EncodeZero` | DumbSat_Incremental_aarnett2.py:45 | candidate 0, the first one tested, is the all-false list `[0] * (n + 1)` |
| `Counter.FirstFlipOrder` | DumbSat_Incremental_aarnett2.py:68-71 | over three variables the first four candidates are 000, 100, 010, 110 (variable 1 first): variable 1 toggles fastest |
| `Cnf.SatIgnoresSlotZero` | DumbSat_Incremental_aarnett2.py:45-60 | the evaluator never looks at the unused slot 0: assignments that agree on slots `1..` agree on every formula |
| `Cnf.NegationFlips` | DumbSat_Incremental_aarnett2.py:5-8 | under a 0/1 assignment a positive literal and its negation have opposite truth values |
| `Cnf.ZeroLiteralNeverTrue` | DumbSat_Incremental_aarnett2.py:52-57 | the literal 0 is neither positive nor negative and never makes a clause true |
| `Cnf.EmptyClauseAndEmptyFormula` | DumbSat_Incremental_aarnett2.py:49-60 | a formula containing an empty clause is never satisfied; the empty formula always is |
| `Examples.FirstExampleUnsat` | DumbSat_Incremental_aarnett2.py:17 | no 0/1 assignment to three variables satisfies the five-clause example formula |
| `Examples.SecondExampleUnsat` | DumbSat_Incremental_aarnett2.py:22 | no 0/1 assignment to three variables satisfies the formula listing all eight sign patterns |
| `Examples.EveryFourOfFirstExampleSat` | DumbSat_Incremental_aarnett2.py:14-17 | whichever one of the five clauses of the first example is removed, some 0/1 assignment satisfies the remaining four |
| `Examples.SolveFirstExample` | DumbSat_Incremental_aarnett2.py:15-17 | the solver answers False on the first example after testing all eight candidates |
| `Examples.SolveSecondExample` | DumbSat_Incremental_aarnett2.py:22 | the solver answers False on the second example after testing all eight candidates |
| `Examples.SolveFirstFourClauses` | DumbSat_Incremental_aarnett2.py:16-17 | the solver answers True on the first four clauses of the first example, with the assignment `[0, 0, 0, 1]` |
| `Examples.FirstFourClausesSatByFour` | DumbSat_Incremental_aarnett2.py:16-17 | candidate 4 (variable 3 alone true) satisfies the first four clauses of the first example |
| `Examples.FirstFourClausesNoEarlier` | DumbSat_Incremental_aarnett2.py:16-17 | candidates 0 to 3 do not satisfy those four clauses |
| `Examples.SolveWithoutVariables` | DumbSat_Incremental_aarnett2.py:45-73 | with no variables exactly one candidate is tested, and the answer is True exactly when the formula has no clauses |

## Findings

| source | as written | input that shows it | evidently intended | confidence | as-written member | corrected member |
|---|---|---|---|---|---|---|
| DumbSat_Incremental_aarnett2.py:14-17 | the comment and `Num_Clauses=4` describe a four-clause example, but the list holds five clauses and no assignment satisfies it | the list at line 17 itself: every one of the 8 candidates falsifies a clause | a four-clause satisfiable example; which clause is extra is not stated, and every four-clause sub-list is satisfiable (`Examples.EveryFourOfFirstExampleSat`); the model takes the list without `[1,2,-3]` as a representative | low, not executed | `Examples.SolveFirstExample` | `Examples.SolveFirstFourClauses` |

## Left out

- `read_wff_from_file` and `write_results_to_file` (lines 25-41): file input and output.
- `build_wff` (lines 76-86): draws literals from the `random` module under a global seed.
- `test_wff` (lines 89-94): measures wall-clock time.
- `plot_timing_results` (lines 97-111): plotting.
- `run_sat_solver` and the script at the end of the file (lines 114-140): benchmark orchestration.
- The `Nclauses` parameter of `check_incremental` is never read, so `CheckIncremental` does not take it.
- A literal whose absolute value exceeds the variable count makes the source raise `IndexError` when it is reached; the model requires `WellFormed` instead and does not model the exception. The literal 0 is accepted, as in the source, and is never true.
- The count of tests is a ghost out-parameter of `Checker.CheckIncremental`; the source does not expose it.
- The nested closure `is_satisfiable` captures the formula `Wff` from the enclosing function; `Checker.IsSatisfiable` takes the formula as an explicit parameter, beside the assignment it already receives.
