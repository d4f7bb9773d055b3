/** Gaussian elimination over exact (real) coefficients: a square system of
    linear equations is triangulated by eliminating one unknown per level,
    with a cyclic search for a nonzero pivot, and then solved by back
    substitution. */
module Gauss {
  import opened Vectors

  /** A linear equation: its coefficients and its right-hand side. */
  datatype Equation = Equation(coeffs: seq<real>, rhs: real)

  /** An ordered list of equations. */
  type System = seq<Equation>

  /** One value per unknown, in the order of the coefficients. */
  type Solution = seq<real>

  /** Why a system could not be triangulated. */
  datatype Error =
    | Singular           // every remaining equation has a zero leading coefficient
    | DimensionMismatch  // some remaining equation has no coefficients left

  datatype Result<T> = Success(value: T) | Failure(error: Error)

  // ---------------------------------------------------------------------
  // Shapes and meaning of systems

  predicate LeadZero(e: Equation)
  {
    |e.coeffs| > 0 && e.coeffs[0] == 0.0
  }

  predicate LeadNonzero(e: Equation)
  {
    |e.coeffs| > 0 && e.coeffs[0] != 0.0
  }

  /** Every equation mentions as many unknowns as there are equations. */
  predicate Square(soe: System)
  {
    forall i :: 0 <= i < |soe| ==> |soe[i].coeffs| == |soe|
  }

  /** Row i of an n-row triangular system has exactly n - i coefficients. */
  predicate Triangular(t: System)
  {
    forall i :: 0 <= i < |t| ==> |t[i].coeffs| == |t| - i
  }

  /** Every row has a nonzero leading coefficient to divide by. */
  predicate Pivoted(t: System)
  {
    forall i :: 0 <= i < |t| ==> LeadNonzero(t[i])
  }

  /** The equation holds exactly at x. */
  predicate Holds(e: Equation, x: Solution)
  {
    Dot(e.coeffs, x) == e.rhs
  }

  /** x satisfies every equation of the system. */
  predicate Solves(soe: System, x: Solution)
  {
    forall i :: 0 <= i < |soe| ==> Holds(soe[i], x)
  }

  /** x satisfies a triangular system: row i speaks of the unknowns x[i..]. */
  predicate SolvesTriangular(t: System, x: Solution)
  {
    |x| == |t| && forall i :: 0 <= i < |t| ==> Holds(t[i], x[i..])
  }

  // ---------------------------------------------------------------------
  // check_solution

  const RelTol: real := 0.000000001
  const AbsTol: real := 0.000001

  function Abs(x: real): real
  {
    if x < 0.0 then -x else x
  }

  function Max(x: real, y: real): real
  {
    if x < y then y else x
  }

  /** `math.isclose(a, b, abs_tol=AbsTol)` with the default relative
      tolerance, as CPython decides it. */
  predicate IsClose(a: real, b: real)
    ensures IsClose(a, b) <==> Abs(a - b) <= Max(AbsTol, RelTol * Max(Abs(a), Abs(b)))
  {
    a == b || Abs(b - a) <= Abs(RelTol * b) || Abs(b - a) <= Abs(RelTol * a) || Abs(b - a) <= AbsTol
  }

  /** The left-hand side of e at sol is close to its right-hand side. */
  predicate CheckEquation(e: Equation, sol: Solution)
    ensures Holds(e, sol) ==> CheckEquation(e, sol)
    ensures CheckEquation(e, sol) ==> Abs(Dot(e.coeffs, sol) - e.rhs) <= Max(AbsTol, RelTol * Max(Abs(Dot(e.coeffs, sol)), Abs(e.rhs)))
    ensures Abs(Dot(e.coeffs, sol) - e.rhs) <= AbsTol ==> CheckEquation(e, sol)
  {
    IsClose(Dot(e.coeffs, sol), e.rhs)
  }

  /** `reduce(lambda base, e: base and CheckEquation(e, sol), rows, base)`. */
  function CheckFrom(base: bool, rows: System, sol: Solution): (ok: bool)
    ensures ok <==> base && forall i :: 0 <= i < |rows| ==> CheckEquation(rows[i], sol)
  {
    if rows == [] then base else CheckFrom(base && CheckEquation(rows[0], sol), rows[1..], sol)
  }

  /** Whether sol is accepted as a solution of asoe. */
  function CheckSolution(asoe: System, sol: Solution): (ok: bool)
    ensures ok <==> forall i :: 0 <= i < |asoe| ==> CheckEquation(asoe[i], sol)
    ensures asoe == [] ==> ok
    ensures Solves(asoe, sol) ==> ok
  {
    CheckFrom(true, asoe, sol)
  }

  // ---------------------------------------------------------------------
  // subtract

  /** The factor by which p is scaled before it is added to q. */
  function Multiplier(p: Equation, q: Equation): (m: real)
    requires LeadNonzero(p) && |q.coeffs| > 0
  {
    -q.coeffs[0] / p.coeffs[0]
  }

  /** `(list(map(lambda a, b: m*a + b, p[0], q[0]))[1:], m*p[1] + q[1])`:
      q plus m times p, with the leading position dropped. */
  function Combine(m: real, p: Equation, q: Equation): (r: Equation)
    requires |p.coeffs| > 0 && |q.coeffs| > 0
    ensures |r.coeffs| == Min(|p.coeffs|, |q.coeffs|) - 1
  {
    Equation(ScaleAdd(m, p.coeffs, q.coeffs)[1..], m * p.rhs + q.rhs)
  }

  /** Adds a multiple of p to q so that q's leading coefficient becomes zero,
      and drops that leading position. */
  function Subtract(p: Equation, q: Equation): (r: Equation)
    requires LeadNonzero(p) && |q.coeffs| > 0
    ensures |r.coeffs| == Min(|p.coeffs|, |q.coeffs|) - 1
    ensures forall i :: 1 <= i <= |r.coeffs| ==>
      r.coeffs[i - 1] == Multiplier(p, q) * p.coeffs[i] + q.coeffs[i]
    ensures r.rhs == Multiplier(p, q) * p.rhs + q.rhs
  {
    Combine(Multiplier(p, q), p, q)
  }

  /** The leading entry that Subtract drops is exactly zero. */
  lemma SubtractCancelsLead(p: Equation, q: Equation)
    requires LeadNonzero(p) && |q.coeffs| > 0
    ensures Multiplier(p, q) * p.coeffs[0] + q.coeffs[0] == 0.0
  {
    var m := Multiplier(p, q);
    assert m * p.coeffs[0] == -q.coeffs[0];
  }

  /** `mult` is the one factor that cancels q's leading coefficient against
      p's. */
  lemma MultiplierUnique(p: Equation, q: Equation, m: real)
    requires LeadNonzero(p) && |q.coeffs| > 0
    ensures m * p.coeffs[0] + q.coeffs[0] == 0.0 <==> m == Multiplier(p, q)
  {
    SubtractCancelsLead(p, q);
    if m * p.coeffs[0] + q.coeffs[0] == 0.0 {
      assert (m - Multiplier(p, q)) * p.coeffs[0] == 0.0;
    }
  }

  /** When the leading entries cancel, the combined equation's left-hand
      side at x[1..] is m times p's plus q's at x. */
  lemma CombineDot(m: real, p: Equation, q: Equation, x: Solution)
    requires |p.coeffs| == |q.coeffs| && |p.coeffs| > 0 && |x| > 0
    requires m * p.coeffs[0] + q.coeffs[0] == 0.0
    ensures Dot(Combine(m, p, q).coeffs, x[1..]) == m * Dot(p.coeffs, x) + Dot(q.coeffs, x)
  {
    ScaleAddTailDot(m, p.coeffs, q.coeffs, x);
  }

  /** When the leading entries cancel, the combined equation holds at x[1..]
      exactly when q holds at x, wherever p holds. */
  lemma CombineKeepsSolutions(m: real, p: Equation, q: Equation, x: Solution)
    requires |p.coeffs| == |q.coeffs| && |p.coeffs| > 0 && |x| > 0
    requires m * p.coeffs[0] + q.coeffs[0] == 0.0
    requires Holds(p, x)
    ensures Holds(q, x) <==> Holds(Combine(m, p, q), x[1..])
  {
    CombineDot(m, p, q, x);
    Scaled(m, Dot(p.coeffs, x), p.rhs);
  }

  /** Where the pivot holds, q holds exactly when its reduced form does. */
  lemma SubtractKeepsSolutions(p: Equation, q: Equation, x: Solution)
    requires LeadNonzero(p) && |q.coeffs| == |p.coeffs| && |x| > 0
    requires Holds(p, x)
    ensures Holds(q, x) <==> Holds(Subtract(p, q), x[1..])
  {
    SubtractCancelsLead(p, q);
    CombineKeepsSolutions(Multiplier(p, q), p, q, x);
  }

  // ---------------------------------------------------------------------
  // rotate_to_nonzero

  /** The number of leading rows whose leading coefficient is zero: the
      number of rotation steps rotate_to_nonzero takes. */
  ghost function ZeroRun(soe: System): (k: nat)
    ensures k <= |soe|
    ensures forall j :: 0 <= j < k ==> LeadZero(soe[j])
    ensures k < |soe| ==> !LeadZero(soe[k])
  {
    if |soe| > 0 && LeadZero(soe[0]) then 1 + ZeroRun(soe[1..]) else 0
  }

  /** Rotates the system one row at a time until its first row has a
      nonzero leading coefficient. */
  function RotateToNonzero(soe: System): (r: System)
    requires ZeroRun(soe) < |soe| && LeadNonzero(soe[ZeroRun(soe)])
    ensures r == soe[ZeroRun(soe)..] + soe[..ZeroRun(soe)]
    ensures LeadNonzero(r[0])
    ensures LeadNonzero(soe[0]) ==> r == soe
    decreases ZeroRun(soe)
  {
    if soe[0].coeffs[0] == 0.0 then
      ZeroRunRotate(soe);
      RotationStep(soe, ZeroRun(soe));
      RotateToNonzero(soe[1..] + soe[..1])
    else
      assert soe[0..] + soe[..0] == soe;
      soe
  }

  /** Rotating by one row takes one step off the zero run. */
  lemma ZeroRunRotate(soe: System)
    requires ZeroRun(soe) < |soe| && LeadNonzero(soe[ZeroRun(soe)]) && LeadZero(soe[0])
    ensures ZeroRun(soe[1..] + soe[..1]) == ZeroRun(soe) - 1
  {
    var next, k := soe[1..] + soe[..1], ZeroRun(soe);
    assert |next| == |soe| && 0 < k;
    assert forall j :: 0 <= j < |soe| - 1 ==> next[j] == soe[j + 1];
    ZeroRunFrom(next, k - 1);
  }

  /** Rotating by one row and then by k - 1 rows is rotating by k rows. */
  lemma RotationStep(soe: System, k: nat)
    requires 0 < k <= |soe|
    ensures (soe[1..] + soe[..1])[k - 1..] + (soe[1..] + soe[..1])[..k - 1] == soe[k..] + soe[..k]
  {
    var next := soe[1..] + soe[..1];
    assert next[k - 1..] == soe[k..] + soe[..1];
    assert next[..k - 1] == soe[1..k];
    assert soe[..1] + soe[1..k] == soe[..k];
  }

  /** A zero run of length k followed by a nonzero leading coefficient. */
  lemma {:induction false} ZeroRunFrom(soe: System, k: nat)
    requires k < |soe| && !LeadZero(soe[k])
    requires forall j :: 0 <= j < k ==> LeadZero(soe[j])
    ensures ZeroRun(soe) == k
  {
    if k > 0 {
      ZeroRunFrom(soe[1..], k - 1);
    }
  }

  /** Row i of the rotation by k is row (i + k) mod n of the input. */
  lemma RotationAt(soe: System, k: nat, i: nat)
    requires k <= |soe| && i < |soe|
    ensures (soe[k..] + soe[..k])[i] == if i < |soe| - k then soe[k + i] else soe[i - (|soe| - k)]
  {
  }

  /** The rotation is a permutation of the rows. */
  lemma RotateIsPermutation(soe: System)
    requires ZeroRun(soe) < |soe| && LeadNonzero(soe[ZeroRun(soe)])
    ensures |RotateToNonzero(soe)| == |soe|
    ensures multiset(RotateToNonzero(soe)) == multiset(soe)
  {
    RotationKeepsMultiset(soe, ZeroRun(soe));
  }

  lemma RotationKeepsMultiset(soe: System, k: nat)
    requires k <= |soe|
    ensures multiset(soe[k..] + soe[..k]) == multiset(soe)
  {
    assert soe[..k] + soe[k..] == soe;
  }

  /** A system and a permutation of it have the same solutions. */
  lemma PermutationKeepsSolutions(a: System, b: System, x: Solution)
    requires multiset(a) == multiset(b)
    ensures Solves(a, x) <==> Solves(b, x)
  {
    if Solves(a, x) {
      forall i | 0 <= i < |b|
        ensures Holds(b[i], x)
      {
        assert b[i] in multiset(b);
        assert b[i] in a;
        var j :| 0 <= j < |a| && a[j] == b[i];
      }
    }
    if Solves(b, x) {
      forall i | 0 <= i < |a|
        ensures Holds(a[i], x)
      {
        assert a[i] in multiset(a);
        assert a[i] in b;
        var j :| 0 <= j < |b| && b[j] == a[i];
      }
    }
  }

  // ---------------------------------------------------------------------
  // triangulate

  /** No row has run out of coefficients. */
  predicate NoEmptyRow(soe: System)
  {
    forall i :: 0 <= i < |soe| ==> |soe[i].coeffs| > 0
  }

  /** The rows that `reduce(lambda base, e: base and e[0][0] == 0, rows, base)`
      indexes have a leading coefficient: `and` short-circuits, so once a
      nonzero lead has made `base` false no later row is read. */
  predicate ReadsLeads(base: bool, rows: System)
  {
    base ==> forall i :: 0 <= i < |rows| && (forall j :: 0 <= j < i ==> LeadZero(rows[j])) ==>
      |rows[i].coeffs| > 0
  }

  /** `reduce(lambda base, e: base and e[0][0] == 0, rows, base)`. */
  function LeadZeroFrom(base: bool, rows: System): (all: bool)
    requires ReadsLeads(base, rows)
    ensures all <==> base && forall i :: 0 <= i < |rows| ==> LeadZero(rows[i])
  {
    if rows == [] then base
    else
      var next := base && rows[0].coeffs[0] == 0.0;
      assert ReadsLeads(next, rows[1..]) by {
        if next {
          forall i | 0 <= i < |rows[1..]| && (forall j :: 0 <= j < i ==> LeadZero(rows[1..][j]))
            ensures |rows[1..][i].coeffs| > 0
          {
            assert forall j :: 0 <= j < i + 1 ==> LeadZero(rows[j]) by {
              forall j | 0 <= j < i + 1 ensures LeadZero(rows[j]) {
                if j > 0 { assert rows[j] == rows[1..][j - 1]; }
              }
            }
          }
        }
      }
      LeadZeroFrom(next, rows[1..])
  }

  /** Once a row with a nonzero lead has been read, the fold is false
      whatever the later rows hold, even rows with no coefficients. */
  lemma ShortCircuit(rows: System)
    requires |rows| > 0 && LeadNonzero(rows[0])
    ensures ReadsLeads(true, rows) && !LeadZeroFrom(true, rows)
  {
  }

  /** `allZeros`: whether every leading coefficient is zero. Triangulate
      tests this forall, which the fold LeadZeroFrom(true, soe) decides
      (AllZerosIsReduce), after it has reported an empty row. */
  predicate AllLeadZero(soe: System)
    requires NoEmptyRow(soe)
  {
    forall i :: 0 <= i < |soe| ==> soe[i].coeffs[0] == 0.0
  }

  /** The fold that computes `allZeros` decides AllLeadZero. */
  lemma AllZerosIsReduce(soe: System)
    requires NoEmptyRow(soe)
    ensures AllLeadZero(soe) <==> LeadZeroFrom(true, soe)
  {
  }

  /** When some leading coefficient is nonzero, rotate_to_nonzero may be
      called: it stops at a row with a nonzero leading coefficient. */
  lemma PivotExists(soe: System)
    requires NoEmptyRow(soe) && !AllLeadZero(soe)
    ensures ZeroRun(soe) < |soe| && LeadNonzero(soe[ZeroRun(soe)])
  {
    var i :| 0 <= i < |soe| && soe[i].coeffs[0] != 0.0;
    assert !LeadZero(soe[i]);
  }

  /** The rotation keeps every row, so it keeps the rows' widths. */
  lemma RotateKeepsWidths(soe: System, w: nat)
    requires ZeroRun(soe) < |soe| && LeadNonzero(soe[ZeroRun(soe)])
    requires forall i :: 0 <= i < |soe| ==> |soe[i].coeffs| >= w
    ensures |RotateToNonzero(soe)| == |soe|
    ensures forall i :: 0 <= i < |soe| ==> |RotateToNonzero(soe)[i].coeffs| >= w
    ensures Square(soe) ==> forall i :: 0 <= i < |soe| ==> |RotateToNonzero(soe)[i].coeffs| == |soe|
  {
    forall i | 0 <= i < |soe|
      ensures RotateToNonzero(soe)[i] in soe
    {
      RotationAt(soe, ZeroRun(soe), i);
    }
  }

  /** `[subtract(pivot, eq) for eq in rows]`. */
  function Eliminate(pivot: Equation, rows: System): (r: System)
    requires LeadNonzero(pivot) && NoEmptyRow(rows)
    ensures |r| == |rows|
    ensures forall i :: 0 <= i < |rows| ==> r[i] == Subtract(pivot, rows[i])
  {
    seq(|rows|, i requires 0 <= i < |rows| => Subtract(pivot, rows[i]))
  }

  /** Reduces the system to triangular form, one unknown per level. */
  function Triangulate(soe: System): (r: Result<System>)
    ensures r.Success? ==> |r.value| == |soe| && Pivoted(r.value)
    decreases |soe|
  {
    if |soe| == 0 then
      Success([])
    else if !NoEmptyRow(soe) then
      Failure(DimensionMismatch)
    else if AllLeadZero(soe) then
      Failure(Singular)
    else
      PivotExists(soe);
      RotateKeepsWidths(soe, 1);
      var rotated := RotateToNonzero(soe);
      var pivot := rotated[0];
      match Triangulate(Eliminate(pivot, rotated[1..]))
      case Success(rest) => Success([pivot] + rest)
      case Failure(e) => Failure(e)
  }

  /** One elimination step turns a square system of n rows (the pivot and
      n - 1 others) into a square system of n - 1 rows. */
  lemma EliminateSquare(pivot: Equation, rows: System)
    requires LeadNonzero(pivot) && |pivot.coeffs| == |rows| + 1
    requires forall i :: 0 <= i < |rows| ==> |rows[i].coeffs| == |rows| + 1
    ensures Square(Eliminate(pivot, rows))
  {
  }

  /** One level of triangulate on a square system with a usable pivot: the
      rotated rows, and the narrower square system that the recursion works
      on. The result is the pivot followed by the recursion's result. */
  lemma PivotLevel(soe: System) returns (rotated: System, rest: System)
    requires Square(soe) && |soe| > 0 && NoEmptyRow(soe) && !AllLeadZero(soe)
    ensures |rotated| == |soe| && multiset(rotated) == multiset(soe)
    ensures rotated == [rotated[0]] + rotated[1..]
    ensures LeadNonzero(rotated[0]) && |rotated[0].coeffs| == |soe|
    ensures NoEmptyRow(rotated[1..])
    ensures forall i :: 0 <= i < |rotated| ==> |rotated[i].coeffs| == |soe|
    ensures rest == Eliminate(rotated[0], rotated[1..])
    ensures Square(rest) && |rest| == |soe| - 1
    ensures Triangulate(rest).Success? ==> Triangulate(soe) == Success([rotated[0]] + Triangulate(rest).value)
    ensures Triangulate(rest).Failure? ==> Triangulate(soe) == Failure(Triangulate(rest).error)
  {
    rotated := SquareRotation(soe);
    rest := Eliminate(rotated[0], rotated[1..]);
    EliminateSquare(rotated[0], rotated[1..]);
  }

  /** The rotation of a square system with a usable pivot: a square
      permutation of it led by a row with a nonzero leading coefficient. */
  lemma SquareRotation(soe: System) returns (rotated: System)
    requires Square(soe) && |soe| > 0 && NoEmptyRow(soe) && !AllLeadZero(soe)
    ensures ZeroRun(soe) < |soe| && LeadNonzero(soe[ZeroRun(soe)])
    ensures rotated == RotateToNonzero(soe)
    ensures |rotated| == |soe| && multiset(rotated) == multiset(soe)
    ensures rotated == [rotated[0]] + rotated[1..]
    ensures LeadNonzero(rotated[0]) && |rotated[0].coeffs| == |soe|
    ensures NoEmptyRow(rotated[1..])
    ensures forall i :: 0 <= i < |rotated| ==> |rotated[i].coeffs| == |soe|
  {
    PivotExists(soe);
    RotateKeepsWidths(soe, |soe|);
    RotateIsPermutation(soe);
    rotated := RotateToNonzero(soe);
    SplitHead(rotated, |soe|);
  }

  /** A system of rows of width w > 0 is its first row followed by the
      rest, and the rest has no empty row. */
  lemma SplitHead(s: System, w: nat)
    requires |s| > 0 && w > 0
    requires forall i :: 0 <= i < |s| ==> |s[i].coeffs| == w
    ensures s == [s[0]] + s[1..]
    ensures NoEmptyRow(s[1..])
  {
    assert forall i :: 0 <= i < |s| - 1 ==> s[1..][i] == s[i + 1];
  }

  /** On a square system triangulation fails only for a singular level, and
      its result has rows of widths n, n-1, ..., 1. */
  lemma {:induction false} TriangulateSquare(soe: System)
    requires Square(soe)
    ensures Triangulate(soe).Failure? ==> Triangulate(soe).error == Singular
    ensures Triangulate(soe).Success? ==> Triangular(Triangulate(soe).value)
    decreases |soe|
  {
    if |soe| > 0 {
      assert NoEmptyRow(soe);
      if !AllLeadZero(soe) {
        var rotated, rest := PivotLevel(soe);
        TriangulateSquare(rest);
        if Triangulate(rest).Success? {
          TriangularCons(rotated[0], Triangulate(rest).value);
        }
      }
    }
  }

  lemma TriangularCons(p: Equation, t: System)
    requires Triangular(t) && |p.coeffs| == |t| + 1
    ensures Triangular([p] + t)
  {
    var s := [p] + t;
    assert forall i :: 0 < i < |s| ==> s[i] == t[i - 1];
  }

  lemma SolvesCons(p: Equation, rows: System, x: Solution)
    ensures Solves([p] + rows, x) <==> Holds(p, x) && Solves(rows, x)
  {
    var s := [p] + rows;
    assert s[0] == p;
    assert forall i :: 0 <= i < |rows| ==> s[i + 1] == rows[i];
    if Holds(p, x) && Solves(rows, x) {
      forall i | 0 <= i < |s|
        ensures Holds(s[i], x)
      {
        if i > 0 {
          assert s[i] == rows[i - 1];
        }
      }
    }
  }

  lemma SolvesTriangularCons(p: Equation, t: System, x: Solution)
    requires |x| == |t| + 1
    ensures SolvesTriangular([p] + t, x) <==> Holds(p, x) && SolvesTriangular(t, x[1..])
  {
    var s := [p] + t;
    assert s[0] == p && x[0..] == x;
    if Holds(p, x) && SolvesTriangular(t, x[1..]) {
      forall i | 0 < i < |s|
        ensures Holds(s[i], x[i..])
      {
        assert s[i] == t[i - 1] && x[i..] == x[1..][i - 1..];
      }
    }
    if SolvesTriangular(s, x) {
      forall i | 0 <= i < |t|
        ensures Holds(t[i], x[1..][i..])
      {
        assert s[i + 1] == t[i] && x[i + 1..] == x[1..][i..];
      }
    }
  }

  /** Where the pivot holds, the rows hold exactly when their reduced forms
      hold at the remaining unknowns. */
  lemma EliminateKeepsSolutions(pivot: Equation, rows: System, x: Solution)
    requires LeadNonzero(pivot) && |x| > 0 && Holds(pivot, x)
    requires forall i :: 0 <= i < |rows| ==> |rows[i].coeffs| == |pivot.coeffs|
    ensures Solves(rows, x) <==> Solves(Eliminate(pivot, rows), x[1..])
  {
    forall i | 0 <= i < |rows|
      ensures Holds(rows[i], x) <==> Holds(Eliminate(pivot, rows)[i], x[1..])
    {
      SubtractKeepsSolutions(pivot, rows[i], x);
    }
  }

  /** One level of the proof below: a system, its rotation led by the pivot,
      and the eliminated rows. If the eliminated rows and t have the same
      solutions, the system and the pivot followed by t do too. */
  lemma PivotKeepsSolutions(soe: System, rotated: System, rest: System, t: System, x: Solution)
    requires multiset(rotated) == multiset(soe) && |rotated| > 0
    requires rotated == [rotated[0]] + rotated[1..] && LeadNonzero(rotated[0])
    requires forall i :: 0 <= i < |rotated| ==> |rotated[i].coeffs| == |rotated[0].coeffs|
    requires NoEmptyRow(rotated[1..]) && rest == Eliminate(rotated[0], rotated[1..])
    requires |x| == |t| + 1
    requires Solves(rest, x[1..]) <==> SolvesTriangular(t, x[1..])
    ensures Solves(soe, x) <==> SolvesTriangular([rotated[0]] + t, x)
  {
    var pivot := rotated[0];
    PermutationKeepsSolutions(soe, rotated, x);
    SolvesCons(pivot, rotated[1..], x);
    SolvesTriangularCons(pivot, t, x);
    if Holds(pivot, x) {
      EliminateKeepsSolutions(pivot, rotated[1..], x);
    }
  }

  /** A square system and its triangulation have the same solutions. */
  lemma {:induction false} TriangulateKeepsSolutions(soe: System, x: Solution)
    requires Square(soe) && Triangulate(soe).Success? && |x| == |soe|
    ensures Solves(soe, x) <==> SolvesTriangular(Triangulate(soe).value, x)
    decreases |soe|
  {
    if |soe| > 0 {
      assert NoEmptyRow(soe);
      var rotated, rest := PivotLevel(soe);
      TriangulateKeepsSolutions(rest, x[1..]);
      PivotKeepsSolutions(soe, rotated, rest, Triangulate(rest).value, x);
    }
  }

  /** A column whose coefficients are all zero leaves its unknown free:
      any solution stays a solution when that unknown changes. */
  lemma FreeLeadingUnknown(soe: System, x: Solution, v: real)
    requires NoEmptyRow(soe) && AllLeadZero(soe) && |x| > 0 && Solves(soe, x)
    ensures Solves(soe, [v] + x[1..])
  {
    var y := [v] + x[1..];
    assert y[1..] == x[1..];
    forall i | 0 <= i < |soe|
      ensures Holds(soe[i], y)
    {
      DropZeroLead(soe[i].coeffs, x);
      DropZeroLead(soe[i].coeffs, y);
    }
  }

  /** Any values for the later unknowns extend, through a row with a
      nonzero leading coefficient, to values that satisfy that row. */
  lemma ExtendByPivot(p: Equation, rest: Solution) returns (y: Solution)
    requires LeadNonzero(p)
    ensures |y| == |rest| + 1 && y[1..] == rest && Holds(p, y)
  {
    y := [SolveRow(p, rest)] + rest;
    assert y[1..] == rest;
    HoldsIffSolveRow(p, y);
  }

  /** When triangulation of a square system reports Singular, no solution
      is unique: next to any solution there is a different one. */
  lemma {:induction false} SingularNotUnique(soe: System, x: Solution) returns (y: Solution)
    requires Square(soe) && Triangulate(soe) == Failure(Singular)
    requires |x| == |soe| && Solves(soe, x)
    ensures |y| == |soe| && Solves(soe, y) && y != x
    decreases |soe|
  {
    assert NoEmptyRow(soe);
    if AllLeadZero(soe) {
      y := [x[0] + 1.0] + x[1..];
      FreeLeadingUnknown(soe, x, x[0] + 1.0);
    } else {
      var rotated, rest := PivotLevel(soe);
      var pivot := rotated[0];
      PermutationKeepsSolutions(soe, rotated, x);
      SolvesCons(pivot, rotated[1..], x);
      EliminateKeepsSolutions(pivot, rotated[1..], x);
      var y' := SingularNotUnique(rest, x[1..]);
      y := ExtendByPivot(pivot, y');
      EliminateKeepsSolutions(pivot, rotated[1..], y);
      SolvesCons(pivot, rotated[1..], y);
      PermutationKeepsSolutions(soe, rotated, y);
    }
  }

  // ---------------------------------------------------------------------
  // solve / walk_soe

  /** The value of a row's leading unknown once the later unknowns are
      known: the right-hand side minus the rest of the left-hand side,
      divided by the leading coefficient. */
  function SolveRow(e: Equation, rest: Solution): (v: real)
    requires LeadNonzero(e)
    ensures e.coeffs[0] * v + Dot(e.coeffs[1..], rest) == e.rhs
  {
    (e.rhs - Dot(e.coeffs[1..], rest)) / e.coeffs[0]
  }

  /** A row with a nonzero leading coefficient holds exactly when its
      leading unknown has the value SolveRow gives for the later ones. */
  lemma HoldsIffSolveRow(e: Equation, x: Solution)
    requires LeadNonzero(e) && |x| > 0
    ensures Holds(e, x) <==> x[0] == SolveRow(e, x[1..])
  {
    DotCons(e.coeffs, x);
    SolveForLead(e.coeffs[0], x[0], Dot(e.coeffs[1..], x[1..]), e.rhs);
  }

  /** Back substitution as a recursive definition: solve the rows after the
      first, then the first row's own unknown. */
  function BackSub(t: System): (x: Solution)
    requires Pivoted(t)
    ensures |x| == |t|
  {
    if |t| == 0 then
      []
    else
      var rest := BackSub(t[1..]);
      [SolveRow(t[0], rest)] + rest
  }

  /** Back substitution over the rows from k on: row k's value in front of
      the values for the rows after it. */
  lemma BackSubStep(t: System, k: nat)
    requires Pivoted(t) && k < |t|
    ensures Pivoted(t[k..]) && Pivoted(t[k + 1..])
    ensures BackSub(t[k..]) == [SolveRow(t[k], BackSub(t[k + 1..]))] + BackSub(t[k + 1..])
  {
    assert t[k..][0] == t[k] && t[k..][1..] == t[k + 1..];
  }

  /** Solving one row for its leading unknown. */
  lemma SolveForLead(c0: real, x0: real, d: real, b: real)
    requires c0 != 0.0
    ensures c0 * x0 + d == b <==> x0 == (b - d) / c0
  {
    if x0 == (b - d) / c0 {
      assert c0 * x0 == b - d;
    }
  }

  /** A triangular system with nonzero pivots has exactly one solution, the
      one back substitution computes. */
  lemma {:induction false} BackSubExact(t: System, x: Solution)
    requires Pivoted(t)
    ensures SolvesTriangular(t, x) <==> x == BackSub(t)
  {
    if |t| > 0 && |x| == |t| {
      var rest := BackSub(t[1..]);
      assert BackSub(t) == [SolveRow(t[0], rest)] + rest;
      BackSubExact(t[1..], x[1..]);
      assert t == [t[0]] + t[1..];
      SolvesTriangularCons(t[0], t[1..], x);
      HoldsIffSolveRow(t[0], x);
      ConsEquals(x, SolveRow(t[0], x[1..]), rest);
    }
  }

  lemma ConsEquals(x: Solution, v: real, rest: Solution)
    requires |x| > 0
    ensures x == [v] + rest <==> x[0] == v && x[1..] == rest
  {
    if x[0] == v && x[1..] == rest {
      assert x == [x[0]] + x[1..];
    }
  }

  /** `walk_soe(list(reversed(t)), [])`: visits the rows from last to first
      and prepends each row's unknown to the accumulator. */
  method Solve(t: System) returns (x: Solution)
    requires Pivoted(t)
    ensures SolvesTriangular(t, x)
    ensures forall y :: SolvesTriangular(t, y) ==> y == x
  {
    x := [];
    var j := 0;
    while j < |t|
      invariant 0 <= j <= |t|
      invariant x == BackSub(t[|t| - j..])
    {
      var row := t[|t| - 1 - j];
      var lhs := Dot(row.coeffs[1..], x);
      BackSubStep(t, |t| - 1 - j);
      x := [(row.rhs - lhs) / row.coeffs[0]] + x;
      j := j + 1;
    }
    assert t[0..] == t;
    BackSubExact(t, x);
    forall y | SolvesTriangular(t, y)
      ensures y == x
    {
      BackSubExact(t, y);
    }
  }

  // ---------------------------------------------------------------------
  // gauss

  /** `solve(triangulate(soe))`, with triangulation failure propagated. */
  method Gauss(soe: System) returns (r: Result<Solution>)
    ensures r.Failure? <==> Triangulate(soe).Failure?
    ensures r.Failure? ==> r.error == Triangulate(soe).error
    ensures r.Success? ==> SolvesTriangular(Triangulate(soe).value, r.value)
    ensures Square(soe) && r.Failure? ==> r.error == Singular
    ensures Square(soe) && r.Success? ==> Solves(soe, r.value) && CheckSolution(soe, r.value)
    ensures Square(soe) && r.Success? ==> forall y :: |y| == |soe| && Solves(soe, y) ==> y == r.value
  {
    var tri := Triangulate(soe);
    if tri.Failure? {
      r := Failure(tri.error);
      if Square(soe) {
        TriangulateSquare(soe);
      }
      return;
    }
    var x := Solve(tri.value);
    r := Success(x);
    if Square(soe) {
      TriangulateKeepsSolutions(soe, x);
      forall y | |y| == |soe| && Solves(soe, y)
        ensures y == x
      {
        TriangulateKeepsSolutions(soe, y);
      }
    }
  }
}
