/** The examples in the solver's documentation, as lemmas about the model. */
module GaussExamples {
  import opened Vectors
  import opened Gauss

  function Soe1(): System
  {
    [Equation([2.0, 2.0, 3.0], 10.0),
     Equation([2.0, 5.0, 12.0], 31.0),
     Equation([4.0, 1.0, -2.0], 1.0)]
  }

  function Soe2(): System
  {
    [Equation([2.0, 3.0, 3.0], 8.0),
     Equation([2.0, 3.0, -2.0], 3.0),
     Equation([4.0, -2.0, 2.0], 4.0)]
  }

  function Soe3(): System
  {
    [Equation([1.0, 1.0, -3.0], 2.0),
     Equation([3.0, -2.0, 1.0], -1.0),
     Equation([2.0, 1.0, -2.0], 0.0)]
  }

  function Tsoe1(): System
  {
    [Equation([2.0, 3.0, 3.0], 8.0), Equation([-8.0, -4.0], -12.0), Equation([-5.0], -5.0)]
  }

  function Tsoe2(): System
  {
    [Equation([1.0, 2.0, 3.0], 3.0), Equation([1.0, 2.0], 9.0), Equation([-1.0], -11.0)]
  }

  lemma SubtractExamples()
    ensures Subtract(Equation([3.0, 9.0], 21.0), Equation([-3.0, -8.0], -19.0))
         == Equation([1.0], 2.0)
    ensures Subtract(Equation([2.0, 3.0, 3.0], 8.0), Equation([2.0, 3.0, -2.0], 3.0))
         == Equation([0.0, -5.0], -5.0)
  {
  }

  lemma RotateExample()
    ensures RotateToNonzero([Equation([0.0, -5.0], -5.0), Equation([-8.0, -4.0], -12.0)])
         == [Equation([-8.0, -4.0], -12.0), Equation([0.0, -5.0], -5.0)]
  {
  }

  lemma Dot1(a: real, x: real)
    ensures Dot([a], [x]) == a * x
  {
    DotCons([a], [x]);
    assert Products([a][1..], [x][1..]) == [];
  }

  lemma Dot2(a: real, b: real, x: real, y: real)
    ensures Dot([a, b], [x, y]) == a * x + b * y
  {
    DotCons([a, b], [x, y]);
    assert [a, b][1..] == [b] && [x, y][1..] == [y];
    Dot1(b, y);
  }

  lemma Dot3(a: real, b: real, c: real, x: real, y: real, z: real)
    ensures Dot([a, b, c], [x, y, z]) == a * x + b * y + c * z
  {
    DotCons([a, b, c], [x, y, z]);
    assert [a, b, c][1..] == [b, c] && [x, y, z][1..] == [y, z];
    Dot2(b, c, y, z);
  }

  /** One level of triangulate, for a known pivot, reduced rows and
      triangulation of the reduced rows. */
  lemma TriangulateStep(soe: System, pivot: Equation, rest: System, tail: System)
    requires NoEmptyRow(soe) && ZeroRun(soe) < |soe| && LeadNonzero(soe[ZeroRun(soe)])
    requires RotateToNonzero(soe)[0] == pivot
    requires NoEmptyRow(RotateToNonzero(soe)[1..])
    requires Eliminate(pivot, RotateToNonzero(soe)[1..]) == rest
    requires Triangulate(rest) == Success(tail)
    ensures Triangulate(soe) == Success([pivot] + tail)
  {
    assert !AllLeadZero(soe) by {
      assert LeadNonzero(soe[ZeroRun(soe)]);
    }
  }

  /** The same level when the first row already has a nonzero lead. */
  lemma PivotFirst(p: Equation, rows: System, rest: System, tail: System)
    requires LeadNonzero(p) && NoEmptyRow(rows)
    requires Eliminate(p, rows) == rest && Triangulate(rest) == Success(tail)
    ensures Triangulate([p] + rows) == Success([p] + tail)
  {
    var soe := [p] + rows;
    assert soe[0] == p && soe[1..] == rows;
    assert ZeroRun(soe) == 0;
    TriangulateStep(soe, p, rest, tail);
  }

  lemma EliminateTwo(p: Equation, a: Equation, b: Equation, ra: Equation, rb: Equation)
    requires LeadNonzero(p) && |a.coeffs| > 0 && |b.coeffs| > 0
    requires Subtract(p, a) == ra && Subtract(p, b) == rb
    ensures Eliminate(p, [a, b]) == [ra, rb]
  {
  }

  lemma EliminateOne(p: Equation, a: Equation, ra: Equation)
    requires LeadNonzero(p) && |a.coeffs| > 0 && Subtract(p, a) == ra
    ensures Eliminate(p, [a]) == [ra]
  {
  }

  lemma Last(p: Equation)
    requires LeadNonzero(p)
    ensures Triangulate([p]) == Success([p])
  {
    PivotFirst(p, [], [], []);
  }

  lemma TriangulateEmpty()
    ensures Triangulate([]) == Success([])
  {
  }

  lemma Soe1Level1()
    ensures Subtract(Soe1()[0], Soe1()[1]) == Equation([3.0, 9.0], 21.0)
    ensures Subtract(Soe1()[0], Soe1()[2]) == Equation([-3.0, -8.0], -19.0)
  {
    assert Multiplier(Soe1()[0], Soe1()[1]) == -1.0;
    assert Subtract(Soe1()[0], Soe1()[1]).coeffs == [3.0, 9.0];
    assert Multiplier(Soe1()[0], Soe1()[2]) == -2.0;
    assert Subtract(Soe1()[0], Soe1()[2]).coeffs == [-3.0, -8.0];
  }

  /** A two-row system whose first row is the pivot. */
  lemma TwoRows(a: Equation, b: Equation, c: Equation)
    requires LeadNonzero(a) && |b.coeffs| > 0 && LeadNonzero(c) && Subtract(a, b) == c
    ensures Triangulate([a, b]) == Success([a, c])
  {
    EliminateOne(a, b, c);
    Last(c);
    PivotFirst(a, [b], [c], [c]);
    assert [a] + [b] == [a, b] && [a] + [c] == [a, c];
  }

  /** A two-row system whose second row becomes the pivot after one rotation. */
  lemma TwoRowsRotated(a: Equation, b: Equation, c: Equation)
    requires LeadZero(a) && LeadNonzero(b) && LeadNonzero(c) && Subtract(b, a) == c
    ensures Triangulate([a, b]) == Success([b, c])
  {
    EliminateOne(b, a, c);
    Last(c);
    assert ZeroRun([a, b]) == 1 by {
      assert [a, b][1..] == [b];
    }
    assert RotateToNonzero([a, b]) == [b, a] by {
      assert [a, b][1..] + [a, b][..1] == [b, a];
    }
    assert [b, a][1..] == [a];
    TriangulateStep([a, b], b, [c], [c]);
    assert [b] + [c] == [b, c];
  }

  /** A three-row system whose first row is the pivot at both levels. */
  lemma ThreeRows(p: Equation, q1: Equation, q2: Equation, a: Equation, b: Equation, c: Equation)
    requires LeadNonzero(p) && LeadNonzero(a) && LeadNonzero(c)
    requires |q1.coeffs| > 0 && |q2.coeffs| > 0 && |b.coeffs| > 0
    requires Subtract(p, q1) == a && Subtract(p, q2) == b && Subtract(a, b) == c
    ensures Triangulate([p, q1, q2]) == Success([p, a, c])
  {
    TwoRows(a, b, c);
    EliminateTwo(p, q1, q2, a, b);
    PivotFirst(p, [q1, q2], [a, b], [a, c]);
    assert [p] + [q1, q2] == [p, q1, q2] && [p] + [a, c] == [p, a, c];
  }

  lemma TriangulateSoe1()
    ensures Triangulate(Soe1()) == Success(
      [Equation([2.0, 2.0, 3.0], 10.0), Equation([3.0, 9.0], 21.0), Equation([1.0], 2.0)])
  {
    SubtractExamples();
    Soe1Level1();
    ThreeRows(Soe1()[0], Soe1()[1], Soe1()[2],
      Equation([3.0, 9.0], 21.0), Equation([-3.0, -8.0], -19.0), Equation([1.0], 2.0));
  }

  lemma Soe2Level1()
    ensures Subtract(Soe2()[0], Soe2()[2]) == Equation([-8.0, -4.0], -12.0)
  {
    assert Multiplier(Soe2()[0], Soe2()[2]) == -2.0;
    assert Subtract(Soe2()[0], Soe2()[2]).coeffs == [-8.0, -4.0];
  }

  lemma Soe2Level2()
    ensures Subtract(Equation([-8.0, -4.0], -12.0), Equation([0.0, -5.0], -5.0)) == Equation([-5.0], -5.0)
  {
    assert Multiplier(Equation([-8.0, -4.0], -12.0), Equation([0.0, -5.0], -5.0)) == 0.0;
  }

  /** A three-row system whose second level needs one rotation. */
  lemma ThreeRowsRotated(p: Equation, q1: Equation, q2: Equation, a: Equation, b: Equation, c: Equation)
    requires LeadNonzero(p) && LeadZero(a) && LeadNonzero(b) && LeadNonzero(c)
    requires |q1.coeffs| > 0 && |q2.coeffs| > 0
    requires Subtract(p, q1) == a && Subtract(p, q2) == b && Subtract(b, a) == c
    ensures Triangulate([p, q1, q2]) == Success([p, b, c])
  {
    TwoRowsRotated(a, b, c);
    EliminateTwo(p, q1, q2, a, b);
    PivotFirst(p, [q1, q2], [a, b], [b, c]);
    assert [p] + [q1, q2] == [p, q1, q2] && [p] + [b, c] == [p, b, c];
  }

  lemma TriangulateSoe2()
    ensures Triangulate(Soe2()) == Success(Tsoe1())
  {
    SubtractExamples();
    Soe2Level1();
    Soe2Level2();
    ThreeRowsRotated(Soe2()[0], Soe2()[1], Soe2()[2],
      Equation([0.0, -5.0], -5.0), Equation([-8.0, -4.0], -12.0), Equation([-5.0], -5.0));
  }

  lemma Soe3Level1()
    ensures Subtract(Soe3()[0], Soe3()[1]) == Equation([-5.0, 10.0], -7.0)
    ensures Subtract(Soe3()[0], Soe3()[2]) == Equation([-1.0, 4.0], -4.0)
  {
    assert Multiplier(Soe3()[0], Soe3()[1]) == -3.0;
    assert Subtract(Soe3()[0], Soe3()[1]).coeffs == [-5.0, 10.0];
    assert Multiplier(Soe3()[0], Soe3()[2]) == -2.0;
    assert Subtract(Soe3()[0], Soe3()[2]).coeffs == [-1.0, 4.0];
  }

  lemma Soe3Level2()
    ensures Subtract(Equation([-5.0, 10.0], -7.0), Equation([-1.0, 4.0], -4.0)) == Equation([2.0], -2.6)
  {
    var p, q := Equation([-5.0, 10.0], -7.0), Equation([-1.0, 4.0], -4.0);
    assert Multiplier(p, q) == -0.2;
    assert Subtract(p, q).coeffs == [2.0];
  }

  lemma TriangulateSoe3()
    ensures Triangulate(Soe3()) == Success(
      [Equation([1.0, 1.0, -3.0], 2.0), Equation([-5.0, 10.0], -7.0), Equation([2.0], -2.6)])
  {
    Soe3Level1();
    Soe3Level2();
    ThreeRows(Soe3()[0], Soe3()[1], Soe3()[2],
      Equation([-5.0, 10.0], -7.0), Equation([-1.0, 4.0], -4.0), Equation([2.0], -2.6));
  }

  /** A system whose first column is zero is reported singular. */
  lemma TriangulateSingular()
    ensures Triangulate([Equation([0.0, 1.0], 1.0), Equation([0.0, 2.0], 2.0)]) == Failure(Singular)
  {
  }

  lemma HoldsThree(a: real, b: real, c: real, r: real, x: real, y: real, z: real)
    requires a * x + b * y + c * z == r
    ensures Holds(Equation([a, b, c], r), [x, y, z])
  {
    Dot3(a, b, c, x, y, z);
  }

  lemma SolvesThree(e0: Equation, e1: Equation, e2: Equation, x: Solution)
    requires Holds(e0, x) && Holds(e1, x) && Holds(e2, x)
    ensures Solves([e0, e1, e2], x)
  {
  }

  lemma SolvesSoe1()
    ensures Solves(Soe1(), [1.0, 1.0, 2.0])
  {
    HoldsThree(2.0, 2.0, 3.0, 10.0, 1.0, 1.0, 2.0);
    HoldsThree(2.0, 5.0, 12.0, 31.0, 1.0, 1.0, 2.0);
    HoldsThree(4.0, 1.0, -2.0, 1.0, 1.0, 1.0, 2.0);
    SolvesThree(Soe1()[0], Soe1()[1], Soe1()[2], [1.0, 1.0, 2.0]);
  }

  lemma SolvesSoe3()
    ensures Solves(Soe3(), [-0.7, -1.2, -1.3])
  {
    HoldsThree(1.0, 1.0, -3.0, 2.0, -0.7, -1.2, -1.3);
    HoldsThree(3.0, -2.0, 1.0, -1.0, -0.7, -1.2, -1.3);
    HoldsThree(2.0, 1.0, -2.0, 0.0, -0.7, -1.2, -1.3);
    SolvesThree(Soe3()[0], Soe3()[1], Soe3()[2], [-0.7, -1.2, -1.3]);
  }

  /** An equation that is not close to holding makes the whole check fail. */
  lemma FirstRowRejects(e0: Equation, rows: System, x: Solution)
    requires !CheckEquation(e0, x)
    ensures !CheckSolution([e0] + rows, x)
  {
    assert ([e0] + rows)[0] == e0;
  }

  lemma CheckSolutionExamples()
    ensures CheckSolution(Soe1(), [1.0, 1.0, 2.0])
    ensures CheckSolution([Equation([1.0, 1.0], 6.0), Equation([-3.0, 1.0], 2.0)], [1.0, 5.0])
    ensures !CheckSolution(Soe1(), [1.0, 1.0, 1.0])
  {
    SolvesSoe1();
    var e, f := Equation([1.0, 1.0], 6.0), Equation([-3.0, 1.0], 2.0);
    Dot2(1.0, 1.0, 1.0, 5.0);
    Dot2(-3.0, 1.0, 1.0, 5.0);
    assert Solves([e, f], [1.0, 5.0]) by {
      assert Holds(e, [1.0, 5.0]) && Holds(f, [1.0, 5.0]);
    }
    var g := Equation([2.0, 2.0, 3.0], 10.0);
    Dot3(2.0, 2.0, 3.0, 1.0, 1.0, 1.0);
    assert Dot(g.coeffs, [1.0, 1.0, 1.0]) == 7.0;
    FirstRowRejects(g, Soe1()[1..], [1.0, 1.0, 1.0]);
    assert [g] + Soe1()[1..] == Soe1();
  }

  lemma SolvesTsoe1()
    ensures SolvesTriangular(Tsoe1(), [1.0, 1.0, 1.0])
  {
    var y := [1.0, 1.0, 1.0];
    assert y[1..] == [1.0, 1.0] && y[2..] == [1.0] && y[0..] == y;
    Dot3(2.0, 3.0, 3.0, 1.0, 1.0, 1.0);
    Dot2(-8.0, -4.0, 1.0, 1.0);
    Dot1(-5.0, 1.0);
  }

  lemma SolvesTsoe2()
    ensures SolvesTriangular(Tsoe2(), [-4.0, -13.0, 11.0])
  {
    var y := [-4.0, -13.0, 11.0];
    assert y[1..] == [-13.0, 11.0] && y[2..] == [11.0] && y[0..] == y;
    Dot3(1.0, 2.0, 3.0, -4.0, -13.0, 11.0);
    Dot2(1.0, 2.0, -13.0, 11.0);
    Dot1(-1.0, 11.0);
  }

  /** solve returns the solution of a pivoted triangular system that is
      known to be solved by v. */
  method SolveFinds(t: System, v: Solution) returns (x: Solution)
    requires Pivoted(t) && SolvesTriangular(t, v)
    ensures x == v
  {
    x := Solve(t);
  }

  method SolveExamples() returns (x1: Solution, x2: Solution)
    ensures x1 == [1.0, 1.0, 1.0]
    ensures x2 == [-4.0, -13.0, 11.0]
  {
    SolvesTsoe1();
    SolvesTsoe2();
    x1 := SolveFinds(Tsoe1(), [1.0, 1.0, 1.0]);
    x2 := SolveFinds(Tsoe2(), [-4.0, -13.0, 11.0]);
  }

  /** A solution known to be unique is any given solution. */
  lemma Unique(soe: System, v: Solution, y: Solution)
    requires forall z :: |z| == |soe| && Solves(soe, z) ==> z == v
    requires |y| == |soe| && Solves(soe, y)
    ensures v == y
  {
  }

  /** gauss returns the solution of a square system that triangulates and
      is known to be solved by v. */
  method GaussFinds(soe: System, v: Solution) returns (r: Result<Solution>)
    requires Square(soe) && Triangulate(soe).Success?
    requires |v| == |soe| && Solves(soe, v)
    ensures r == Success(v) && CheckSolution(soe, v)
  {
    r := Gauss.Gauss(soe);
    Unique(soe, r.value, v);
  }

  method GaussSoe1() returns (r: Result<Solution>)
    ensures r == Success([1.0, 1.0, 2.0])
  {
    TriangulateSoe1();
    SolvesSoe1();
    r := GaussFinds(Soe1(), [1.0, 1.0, 2.0]);
  }

  method GaussSoe3() returns (r: Result<Solution>)
    ensures r == Success([-0.7, -1.2, -1.3]) && CheckSolution(Soe3(), r.value)
  {
    TriangulateSoe3();
    SolvesSoe3();
    r := GaussFinds(Soe3(), [-0.7, -1.2, -1.3]);
  }
}
