# Gaussian elimination over exact coefficients

This project models the solver in `gauss.py`. The solver represents a
linear equation as a list of coefficients plus a right-hand side, and a
system as a list of equations. `gauss` is `solve(triangulate(soe))`:

- `triangulate` brings a square system into triangular form. At each level,
  `rotate_to_nonzero` cyclically rotates the rows until the first row has a
  nonzero leading coefficient. That row becomes the pivot. `subtract` then
  removes the leading unknown from every other row, and the procedure
  recurses on the narrower system.
- `solve` back-substitutes from the last row to the first.
- `check_solution` accepts a candidate solution when every equation's left
  side is `isclose` to its right side.

Coefficients are Dafny `real`, so all arithmetic is exact. The model has
three modules:

- `Vectors` (`vectors.dfy`) holds the pairwise list operations. They
  truncate to the shorter list, as Python's two-argument `map` does. The
  dot product `Dot` is `Sum` over the pairwise `Products`.
- `Gauss` (`gauss.dfy`) holds the solver and the proofs about it.
- `GaussExamples` (`doc_examples.dfy`) holds the documented examples,
  proved about the model.

A level at which every leading coefficient is zero makes the Python return
`None`, or raise when the level is nested. The model reports it as
`Failure(Singular)`. A level with a row that has run out of coefficients
makes the Python raise `IndexError`. The model reports it as
`Failure(DimensionMismatch)`. Back substitution (`walk_soe`) prepends to
an accumulator step by step, so it is the method `Gauss.Solve`. That method is
proved against the recursive definition `Gauss.BackSub`. Everything else is
pure and is modelled as functions.

Main results:

- Triangulation of a square system keeps exactly its solutions
  (`TriangulateKeepsSolutions`).
- Back substitution finds the unique solution of the triangular system
  (`BackSubExact`, `Solve`).
- Together these make `gauss` sound and complete on square systems. When it
  succeeds, its answer satisfies every original equation, `check_solution`
  accepts it, and no other solution exists. When it reports `Singular` on a
  solvable system, that system has more than one solution
  (`SingularNotUnique`).

## Model

| member | source | states |
|---|---|---|
| Vectors.Products | gauss.py:46 | the pairwise products have the shorter input's length, and entry i is `xs[i]*ys[i]` |
| Vectors.ScaleAdd | gauss.py:69 | the pairwise `m*a + b` list has the shorter input's length, and entry i is `m*xs[i] + ys[i]` |
| Vectors.DotTruncates | gauss.py:46 | only the common prefix of the two lists contributes to `sum(map(...))`; extra coefficients or extra values are ignored |
| Vectors.DotCons | gauss.py:126 | the dot product is the first pair's product plus the dot product of the remaining pairs |
| Vectors.SumLinear | gauss.py:46 | `sum` is linear: if `a[i] == m*b[i] + c[i]` for every i, then `sum(a) == m*sum(b) + sum(c)` |
| Vectors.SumIsLeftToRight | gauss.py:46 | Python's `sum`, which adds the entries left to right starting from 0 (`SumFrom`), gives the same total as the recursive `Sum` that the model uses |
| Vectors.Dot | gauss.py:46 | `sum(map(lambda co, va: co*va, ...))`, the sum of `Products`: 0 when either list is empty; DotCons, DotTruncates and DotScaleAdd state its other properties |
| Vectors.DotScaleAdd | gauss.py:69-70 | the dot product with `m*xs + ys` is `m` times the dot product with `xs` plus that with `ys` |
| Vectors.DropZeroLead | gauss.py:55-57 | a zero leading coefficient can be dropped together with the first unknown without changing the dot product |
| Vectors.ScaleAddTailDot | gauss.py:67-70 | when the leading entries cancel, the shortened combination evaluated at the remaining unknowns equals the same combination of the full dot products |
| Gauss.IsClose | gauss.py:45-48 | CPython's `isclose` test is true iff `abs(a-b) <= max(abs_tol, rel_tol * max(abs(a), abs(b)))`, with abs_tol 1e-6 and the default rel_tol 1e-9, which is the formula `math.isclose` documents |
| Gauss.CheckEquation | gauss.py:42-48 | an equation that holds exactly passes; a passing equation's left side is within that tolerance of its right side; a residual of at most 1e-6 always passes |
| Gauss.CheckFrom | gauss.py:50-51 | the fold over `and` is true iff the seed is true and every equation passes the tolerance check |
| Gauss.CheckSolution | gauss.py:24-51 | true iff every equation's left side is isclose (rel_tol 1e-9, abs_tol 1e-6) to its right side; true on the empty system; every exact solution is accepted |
| Gauss.MultiplierUnique | gauss.py:67 | `mult = -q0/p0` is the one factor m with `m*p0 + q0 == 0` |
| Gauss.Combine | gauss.py:68-70 | the combined equation has one coefficient fewer than the shorter input |
| Gauss.Subtract | gauss.py:54-70 | with `m = -q0/p0`, the result has width min-1, its coefficient i-1 is `m*p[i] + q[i]`, and its right side is `m*p.rhs + q.rhs` |
| Gauss.SubtractCancelsLead | gauss.py:55-67 | the leading entry that subtract drops is exactly zero: `m*p0 + q0 == 0` |
| Gauss.CombineDot | gauss.py:67-70 | when the leading entries cancel, the combined equation's left side at `x[1..]` is `m` times p's left side at `x` plus q's |
| Gauss.CombineKeepsSolutions | gauss.py:67-70 | where p holds, q holds at `x` iff the combined equation holds at `x[1..]` |
| Gauss.SubtractKeepsSolutions | gauss.py:54-70 | where the pivot holds, an equation of the same width holds at `x` iff its reduced form holds at `x[1..]` |
| Gauss.ZeroRun | gauss.py:101-108 | the number of rotation steps: every row before it has a zero leading coefficient and the row at it does not |
| Gauss.RotateToNonzero | gauss.py:101-108 | the result is the rotation of the input by ZeroRun rows, its first row has a nonzero leading coefficient, and an input whose first row already qualifies comes back unchanged |
| Gauss.ZeroRunRotate | gauss.py:105-106 | one rotation step shortens the run of zero-lead rows by one, so the recursion ends |
| Gauss.RotationStep | gauss.py:106 | rotating by one row and then by k-1 rows is rotating by k rows |
| Gauss.RotationAt | gauss.py:106 | row i of a rotation by k is input row (i + k) mod n |
| Gauss.RotateIsPermutation | gauss.py:101-108 | the rotation has the input's length and the same multiset of rows |
| Gauss.PermutationKeepsSolutions | gauss.py:96 | reordering the equations does not change the solutions |
| Gauss.LeadZeroFrom | gauss.py:91 | the `reduce` over `and` with seed `base` is true iff `base` holds and every leading coefficient is zero; it asks a leading coefficient only of the rows the short-circuiting `and` reads |
| Gauss.ShortCircuit | gauss.py:91 | once a row with a nonzero lead is read the fold is false, whatever later rows hold, empty rows included |
| Gauss.AllZerosIsReduce | gauss.py:91 | `allZeros`, the reduce seeded with True, is exactly `AllLeadZero` |
| Gauss.PivotExists | gauss.py:91-96 | when not every leading coefficient is zero, rotate_to_nonzero's precondition holds |
| Gauss.RotateKeepsWidths | gauss.py:96-98 | rotating keeps every row width bound and keeps a square system square |
| Gauss.Eliminate | gauss.py:98 | the list comprehension subtracts the pivot from each remaining row, in order |
| Gauss.EliminateSquare | gauss.py:98 | a pivot of width n and n-1 rows of width n reduce to a square system of n-1 rows |
| Gauss.PivotLevel | gauss.py:91-99 | with some nonzero lead, a square level rotates to a square permutation led by a nonzero pivot, eliminates to a square system one row smaller, and returns the pivot followed by the recursion's result or its failure |
| Gauss.Triangulate | gauss.py:72-99 | a success has as many rows as the input, and every row has a nonzero leading coefficient |
| Gauss.TriangulateSquare | gauss.py:18-21 | on a square system a failure is always Singular, and a success has row widths n, n-1, ..., 1 |
| Gauss.TriangularCons | gauss.py:97-98 | prepending a pivot of width n+1 to a triangular system of n rows keeps it triangular |
| Gauss.EliminateKeepsSolutions | gauss.py:98 | where the pivot holds, the rows hold at `x` iff the eliminated rows hold at `x[1..]` |
| Gauss.PivotKeepsSolutions | gauss.py:96-98 | if the eliminated rows and t have the same solutions, the system and the pivot followed by t have the same solutions |
| Gauss.TriangulateKeepsSolutions | gauss.py:72-99 | a square system and its triangulation have exactly the same solutions |
| Gauss.FreeLeadingUnknown | gauss.py:91-94 | when every leading coefficient is zero, changing the first unknown of a solution gives another solution |
| Gauss.ExtendByPivot | gauss.py:126-127 | any values for the later unknowns extend through a nonzero-lead row to values that satisfy it |
| Gauss.SingularNotUnique | gauss.py:91-94 | when a square system is reported Singular, next to any solution there is a different one |
| Gauss.HoldsIffSolveRow | gauss.py:126-127 | a row with a nonzero lead holds exactly when its leading unknown is `(rhs - lhs)/c0` for the later unknowns |
| Gauss.SolveRow | gauss.py:127 | the value inserted for a row with a nonzero lead satisfies it: `c0*v + dot(c[1:], acc) == rhs` |
| Gauss.BackSubStep | gauss.py:126-128 | back substitution from row k on puts row k's value in front of the values for the later rows |
| Gauss.BackSub | gauss.py:122-128 | back substitution yields one value per row |
| Gauss.SolveForLead | gauss.py:127 | `c0*x0 + d == b` iff `x0 == (b - d)/c0`, for `c0 != 0` |
| Gauss.BackSubExact | gauss.py:110-130 | x satisfies every row i at `x[i..]` iff x is the back-substitution result |
| Gauss.Solve | gauss.py:110-130 | the loop's result satisfies every row of the triangular system exactly, and it is the only vector that does |
| Gauss.Gauss | gauss.py:132-145 | fails exactly when triangulation fails, with its error. On success the answer solves the triangulation. For a square system: a failure is Singular, and a success satisfies every original equation, passes check_solution and is the unique solution |
| GaussExamples.SubtractExamples | gauss.py:60-63 | `subtract(([3,9],21), ([-3,-8],-19)) == ([1],2)` and `subtract(([2,3,3],8), ([2,3,-2],3)) == ([0,-5],-5)` |
| GaussExamples.RotateExample | gauss.py:105-106 | `[([0,-5],-5), ([-8,-4],-12)]` rotates once, to `[([-8,-4],-12), ([0,-5],-5)]` |
| GaussExamples.Soe2Level2 | gauss.py:64-65 | with the third documented call's arguments in the other order, subtract gives `([-5],-5)` |
| GaussExamples.TriangulateEmpty | gauss.py:88-89 | `triangulate([]) == []` |
| GaussExamples.TriangulateSoe1 | gauss.py:76-83 | soe1 triangulates to `[([2,2,3],10), ([3,9],21), ([1],2)]` |
| GaussExamples.TriangulateSoe2 | gauss.py:79-85 | soe2 triangulates to `[([2,3,3],8), ([-8,-4],-12), ([-5],-5)]`, with one rotation at the second level |
| GaussExamples.TriangulateSoe3 | gauss.py:136-139 | soe3 triangulates to `[([1,1,-3],2), ([-5,10],-7), ([2],-2.6)]` |
| GaussExamples.TriangulateSingular | gauss.py:91-94 | a system whose first column is all zero is reported Singular |
| GaussExamples.FirstRowRejects | gauss.py:50-51 | one equation that is not close to holding makes check_solution false |
| GaussExamples.CheckSolutionExamples | gauss.py:32-40 | both documented check_solution calls are true, and `[1,1,1]` is rejected for soe1 |
| GaussExamples.SolveFinds | gauss.py:110-130 | on a pivoted triangular system, solve returns any vector that satisfies it |
| GaussExamples.SolveExamples | gauss.py:114-119 | `solve(tsoe1) == [1,1,1]` and `solve(tsoe2) == [-4,-13,11]` |
| GaussExamples.GaussSoe1 | gauss.py:132-145 | `gauss(soe1) == [1,1,2]` |
| GaussExamples.GaussFinds | gauss.py:132-145 | for a square system that triangulates, gauss returns any solution v it is given, and check_solution accepts v |
| GaussExamples.GaussSoe3 | gauss.py:136-141 | `gauss(soe3) == [-0.7,-1.2,-1.3]` and check_solution accepts it |

## Left out

- Floating point: coefficients are exact reals, so rounding in the Python arithmetic and in `sum` is not modelled. `isclose` is kept as a predicate on reals, with CPython's definition and tolerances. Its infinity and NaN cases do not arise over reals.
- Gauss.Triangulate: Python returns `None` for a singular top level and raises `TypeError` from `result.extend(None)` for a singular nested level. Both are `Failure(Singular)` here. Likewise `IndexError` for a row with no coefficients left is `Failure(DimensionMismatch)`, without distinguishing where it is raised.
- Gauss.Gauss: in Python, `solve(None)` raises `TypeError`. Here the triangulation failure is returned as the result instead.
- Gauss.Solve: requires a nonzero leading coefficient on every row. The source has no handling for a zero or missing pivot: `solve` would raise `ZeroDivisionError` or `IndexError`.
- Gauss.RotateToNonzero: requires a row with a nonzero leading coefficient, which the source assumes in its documentation. Without one, the Python rotates until CPython's recursion limit and raises `RecursionError`; on an empty system, or a first row with no coefficients, it raises `IndexError`.
- Gauss.Subtract: requires a nonzero leading coefficient in the pivot, and a target with at least one coefficient. Otherwise the Python raises `ZeroDivisionError`, or `IndexError` from `eq2[0][0]` (gauss.py:67). `Gauss.Multiplier` has the same requires. Triangulate never calls it outside them: it reports an empty row as `DimensionMismatch` first. The third documented call of `subtract` (gauss.py:64-65) passes a pivot with a zero leading coefficient. Its stated output `([-4.0], -12.0)` is therefore not modelled; like all the documented calls of `subtract` and `triangulate`, it carries doctest's SKIP directive.
- Recursion depth: `triangulate` (gauss.py:98) and `walk_soe` (gauss.py:128) recurse once per row, and `rotate_to_nonzero` (gauss.py:106) once per rotation step. On a system of about 1000 rows CPython's default recursion limit makes them raise `RecursionError`. The model has no such limit.
- `walk_soe` recurses and mutates `acc` in place. Both are modelled together as the loop of `Gauss.Solve` over a sequence.
- The doctest `__main__` block (gauss.py:147-149) and the `typing` aliases (their shapes are the predicates `Square`, `Triangular` and `Pivoted`).
- kepler.py, kepler_rec.py and riemann_sum.py are not part of this model. They are floating-point numeric integration over arbitrary callables.
