/** The finite-element model of Poisson's equation on the unit square (`FEModel`):
    the exact solution and source term, the uniform triangle mesh, the Dirichlet
    boundary conditions and the nodal error. */
module FiniteElements {
  import opened Vectors

  // ---------------------------------------------------------------------------
  // The problem.

  /** The boundary data, which is also the exact solution: `3x^2 + 2xy^3`. */
  function BoundaryU(x: real, y: real): (u: real)
    ensures x == 0.0 ==> u == 0.0
  {
    3.0 * x * x + 2.0 * y * y * y * x
  }

  /** The source term `-6 - 12xy`. */
  function SourceTermF(x: real, y: real): (f: real)
    ensures x == 0.0 || y == 0.0 ==> f == -6.0
  {
    -6.0 - 12.0 * y * x
  }

  /** The Dirichlet data on the four sides of the unit square: 0 on x = 0,
      3 + 2y^3 on x = 1, 3x^2 on y = 0 and 3x^2 + 2x on y = 1. */
  lemma ExactSolutionOnSides(t: real)
    ensures BoundaryU(0.0, t) == 0.0
    ensures BoundaryU(1.0, t) == 3.0 + 2.0 * t * t * t
    ensures BoundaryU(t, 0.0) == 3.0 * t * t
    ensures BoundaryU(t, 1.0) == 3.0 * t * t + 2.0 * t
  {
  }

  /** On the unit square the source term lies between -18 (at (1, 1)) and -6 (on
      the sides x = 0 and y = 0). */
  lemma SourceTermOnUnitSquare(x: real, y: real)
    requires 0.0 <= x <= 1.0 && 0.0 <= y <= 1.0
    ensures -18.0 <= SourceTermF(x, y) <= -6.0
    ensures x == 0.0 || y == 0.0 ==> SourceTermF(x, y) == -6.0
    ensures SourceTermF(1.0, 1.0) == -18.0
  {
    UnitProduct(y, x);
  }

  lemma UnitProduct(a: real, b: real)
    requires 0.0 <= a <= 1.0 && 0.0 <= b <= 1.0
    ensures 0.0 <= a * b <= 1.0
  {
    assert 0.0 <= a * b by {
      MulMonotoneReal(0.0, a, b);
    }
    assert a * b <= 1.0 * b by {
      MulMonotoneReal(a, 1.0, b);
    }
  }

  lemma MulMonotoneReal(a: real, b: real, c: real)
    requires a <= b && 0.0 <= c
    ensures a * c <= b * c
  {
    assert b * c - a * c == (b - a) * c;
  }

  /** Central second difference of `BoundaryU` in x with step `h`. */
  function SecondDifferenceX(x: real, y: real, h: real): real
    requires h != 0.0
  {
    (BoundaryU(x + h, y) - 2.0 * BoundaryU(x, y) + BoundaryU(x - h, y)) / h / h
  }

  /** Central second difference of `BoundaryU` in y with step `h`. */
  function SecondDifferenceY(x: real, y: real, h: real): real
    requires h != 0.0
  {
    (BoundaryU(x, y + h) - 2.0 * BoundaryU(x, y) + BoundaryU(x, y - h)) / h / h
  }

  /** `BoundaryU` solves `-Laplace(u) = f` with `f = SourceTermF`. The solution is a
      polynomial of degree two in x and three in y, for which the five-point
      Laplacian is exact, so the identity holds for every step `h`. */
  lemma SourceTermIsNegativeLaplacian(x: real, y: real, h: real)
    requires h != 0.0
    ensures -(SecondDifferenceX(x, y, h) + SecondDifferenceY(x, y, h)) == SourceTermF(x, y)
  {
    SecondDifferenceXIsConstant(x, y, h);
    SecondDifferenceYIsLinear(x, y, h);
  }

  lemma SecondDifferenceXIsConstant(x: real, y: real, h: real)
    requires h != 0.0
    ensures SecondDifferenceX(x, y, h) == 6.0
  {
    SecondDifferenceInX(x, y, h);
    QuotientByStepTwice(BoundaryU(x + h, y) - 2.0 * BoundaryU(x, y) + BoundaryU(x - h, y), h, 6.0);
  }

  lemma SecondDifferenceYIsLinear(x: real, y: real, h: real)
    requires h != 0.0
    ensures SecondDifferenceY(x, y, h) == 12.0 * y * x
  {
    SecondDifferenceInY(x, y, h);
    QuotientByStepTwice(BoundaryU(x, y + h) - 2.0 * BoundaryU(x, y) + BoundaryU(x, y - h), h, 12.0 * y * x);
  }

  lemma SecondDifferenceInX(x: real, y: real, h: real)
    ensures BoundaryU(x + h, y) - 2.0 * BoundaryU(x, y) + BoundaryU(x - h, y) == 6.0 * h * h
  {
    var c := 2.0 * y * y * y;
    assert BoundaryU(x + h, y) == 3.0 * (x + h) * (x + h) + c * (x + h);
    assert BoundaryU(x - h, y) == 3.0 * (x - h) * (x - h) + c * (x - h);
    assert BoundaryU(x, y) == 3.0 * x * x + c * x;
    assert (x + h) * (x + h) == x * x + 2.0 * x * h + h * h;
    assert (x - h) * (x - h) == x * x - 2.0 * x * h + h * h;
  }

  lemma SecondDifferenceInY(x: real, y: real, h: real)
    ensures BoundaryU(x, y + h) - 2.0 * BoundaryU(x, y) + BoundaryU(x, y - h) == 12.0 * y * x * h * h
  {
    var p := y + h;
    var m := y - h;
    assert BoundaryU(x, p) == 3.0 * x * x + 2.0 * x * (p * p * p);
    assert BoundaryU(x, m) == 3.0 * x * x + 2.0 * x * (m * m * m);
    assert BoundaryU(x, y) == 3.0 * x * x + 2.0 * x * (y * y * y);
    CubeSum(y, h);
    assert 2.0 * x * (p * p * p) + 2.0 * x * (m * m * m) - 4.0 * x * (y * y * y)
        == 2.0 * x * (p * p * p + m * m * m - 2.0 * (y * y * y));
  }

  /** `(y + h)^3 + (y - h)^3 == 2y^3 + 6yh^2`. */
  lemma CubeSum(y: real, h: real)
    ensures (y + h) * (y + h) * (y + h) + (y - h) * (y - h) * (y - h) - 2.0 * (y * y * y) == 6.0 * y * (h * h)
  {
    assert (y + h) * (y + h) == y * y + 2.0 * y * h + h * h;
    assert (y - h) * (y - h) == y * y - 2.0 * y * h + h * h;
  }

  lemma QuotientByStepTwice(a: real, h: real, q: real)
    requires h != 0.0 && a == q * h * h
    ensures a / h / h == q
  {
    QuotientUnique(a, h, q * h);
    QuotientUnique(q * h, h, q);
  }

  lemma QuotientUnique(a: real, d: real, q: real)
    requires d != 0.0 && a == q * d
    ensures a / d == q
  {
    assert (a / d) * d == a;
    assert (q - a / d) * d == 0.0;
  }

  // ---------------------------------------------------------------------------
  // The uniform mesh.

  /** A linear triangle, by the global ids of its three nodes. */
  datatype LinTriElement = LinTriElement(n0: int, n1: int, n2: int)

  /** A Dirichlet condition: node `id` has the value `value`. */
  datatype BoundaryCondition = BoundaryCondition(id: int, value: real)

  /** How often a loop `for (i = 0; i < n; i++)` runs. */
  function Width(n: int): nat {
    if n < 0 then 0 else n
  }

  /** The mesh divides by `nodes - 1` in each direction, so a side with exactly one
      node divides by zero as soon as any node is placed. */
  predicate MeshArgsOk(nx: int, ny: int) {
    nx <= 0 || ny <= 0 || (nx >= 2 && ny >= 2)
  }

  /** Coordinate of grid line `i` of `n` lines spread evenly over [0, 1]. */
  function GridCoord(i: int, n: int): real
    requires n >= 2
  {
    i as real / (n - 1) as real
  }

  /** The first `cols` nodes of row `y`, in order of x. */
  function RowNodes(nx: int, ny: int, y: int, cols: nat): (ns: seq<Vec2>)
    requires MeshArgsOk(nx, ny) && 0 <= y < ny && cols <= Width(nx)
    ensures |ns| == cols
  {
    if cols == 0 then []
    else RowNodes(nx, ny, y, cols - 1) + [Vec2(GridCoord(cols - 1, nx), GridCoord(y, ny))]
  }

  /** The nodes of the first `rows` rows, row by row. */
  function GridNodes(nx: int, ny: int, rows: nat): (ns: seq<Vec2>)
    requires MeshArgsOk(nx, ny) && rows <= Width(ny)
    ensures |ns| == rows * Width(nx)
  {
    if rows == 0 then []
    else GridNodes(nx, ny, rows - 1) + RowNodes(nx, ny, rows - 1, Width(nx))
  }

  /** The nodes `CreateUniformGridMesh(nx, ny)` appends. */
  function MeshNodes(nx: int, ny: int): seq<Vec2>
    requires MeshArgsOk(nx, ny)
  {
    GridNodes(nx, ny, Width(ny))
  }

  /** The two triangles of the cell whose lower-left node is (x, y). */
  function CellElements(nx: int, x: int, y: int): seq<LinTriElement> {
    var node00 := y * nx + x;
    var node10 := node00 + 1;
    var node01 := node00 + nx;
    var node11 := node00 + nx + 1;
    [LinTriElement(node00, node10, node11), LinTriElement(node00, node11, node01)]
  }

  /** The triangles of the first `cols` cells of cell row `y`. */
  function RowElements(nx: int, y: int, cols: nat): (es: seq<LinTriElement>)
    ensures |es| == 2 * cols
  {
    if cols == 0 then [] else RowElements(nx, y, cols - 1) + CellElements(nx, cols - 1, y)
  }

  /** The triangles of the first `rows` cell rows. */
  function GridElements(nx: int, rows: nat): (es: seq<LinTriElement>)
    ensures |es| == 2 * rows * Width(nx - 1)
  {
    if rows == 0 then []
    else GridElements(nx, rows - 1) + RowElements(nx, rows - 1, Width(nx - 1))
  }

  /** The triangles `CreateUniformGridMesh(nx, ny)` appends. */
  function MeshElements(nx: int, ny: int): seq<LinTriElement> {
    GridElements(nx, Width(ny - 1))
  }

  // ---------------------------------------------------------------------------
  // What the mesh is.

  lemma MulMonotone(a: int, b: int, c: int)
    requires 0 <= a <= b && 0 <= c
    ensures a * c <= b * c
  {
    assert b * c - a * c == (b - a) * c;
  }

  lemma {:induction false} RowNodeAt(nx: int, ny: int, y: int, cols: nat, x: int)
    requires MeshArgsOk(nx, ny) && 0 <= y < ny && cols <= Width(nx) && 0 <= x < cols
    ensures nx >= 2 && ny >= 2
    ensures RowNodes(nx, ny, y, cols)[x] == Vec2(GridCoord(x, nx), GridCoord(y, ny))
  {
    if x < cols - 1 {
      RowNodeAt(nx, ny, y, cols - 1, x);
    }
  }

  /** Node `y * nx + x` of the grid is at `(x / (nx - 1), y / (ny - 1))`. */
  lemma {:induction false} GridNodeAt(nx: int, ny: int, rows: nat, x: int, y: int)
    requires MeshArgsOk(nx, ny) && rows <= Width(ny) && 0 <= x < nx && 0 <= y < rows
    ensures nx >= 2 && ny >= 2
    ensures 0 <= y * nx + x < |GridNodes(nx, ny, rows)|
    ensures GridNodes(nx, ny, rows)[y * nx + x] == Vec2(GridCoord(x, nx), GridCoord(y, ny))
  {
    var prev := GridNodes(nx, ny, rows - 1);
    MulMonotone(0, y, nx);
    if y == rows - 1 {
      assert |prev| == y * nx;
      RowNodeAt(nx, ny, y, Width(nx), x);
    } else {
      GridNodeAt(nx, ny, rows - 1, x, y);
      MulMonotone(y + 1, rows - 1, nx);
      assert (y + 1) * nx == y * nx + nx;
    }
  }

  /** `CreateUniformGridMesh(nx, ny)` places `nx * ny` nodes, node `y * nx + x` at
      `(x / (nx - 1), y / (ny - 1))`. */
  lemma MeshNodeLayout(nx: int, ny: int, x: int, y: int)
    requires nx >= 2 && ny >= 2 && 0 <= x < nx && 0 <= y < ny
    ensures |MeshNodes(nx, ny)| == nx * ny
    ensures 0 <= y * nx + x < nx * ny
    ensures MeshNodes(nx, ny)[y * nx + x] == Vec2(x as real / (nx - 1) as real, y as real / (ny - 1) as real)
  {
    assert |MeshNodes(nx, ny)| == ny * nx;
    GridNodeAt(nx, ny, ny, x, y);
  }

  lemma {:induction false} RowElementAt(nx: int, y: int, cols: nat, x: nat)
    requires x < cols
    ensures RowElements(nx, y, cols)[2 * x] == CellElements(nx, x, y)[0]
    ensures RowElements(nx, y, cols)[2 * x + 1] == CellElements(nx, x, y)[1]
  {
    if x < cols - 1 {
      RowElementAt(nx, y, cols - 1, x);
    }
  }

  /** Appending cell rows keeps the triangles already made. */
  lemma {:induction false} GridPrefix(nx: int, r: nat, rows: nat)
    requires r <= rows
    ensures GridElements(nx, r) <= GridElements(nx, rows)
  {
    if r < rows {
      GridPrefix(nx, r, rows - 1);
    }
  }

  /** The triangles of cell (x, y) sit at index `2 (y (nx - 1) + x)` of the grid. */
  lemma GridElementAt(nx: int, rows: nat, x: int, y: int)
    requires 0 <= x < nx - 1 && 0 <= y < rows
    ensures 0 <= 2 * (y * (nx - 1) + x) && 2 * (y * (nx - 1) + x) + 1 < |GridElements(nx, rows)|
    ensures GridElements(nx, rows)[2 * (y * (nx - 1) + x)] == CellElements(nx, x, y)[0]
    ensures GridElements(nx, rows)[2 * (y * (nx - 1) + x) + 1] == CellElements(nx, x, y)[1]
  {
    var i := 2 * (y * (nx - 1) + x);
    assert i == |GridElements(nx, y)| + 2 * x;
    GridCellAt(nx, rows, x, y, i);
  }

  /** The triangles of cell (x, y) follow those of the `y` cell rows below it. */
  lemma GridCellAt(nx: int, rows: nat, x: int, y: int, i: int)
    requires 0 <= x < nx - 1 && 0 <= y < rows
    requires i == |GridElements(nx, y)| + 2 * x
    ensures 0 <= i && i + 1 < |GridElements(nx, rows)|
    ensures GridElements(nx, rows)[i] == CellElements(nx, x, y)[0]
    ensures GridElements(nx, rows)[i + 1] == CellElements(nx, x, y)[1]
  {
    var w: nat := nx - 1;
    var prev := GridElements(nx, y);
    var row := RowElements(nx, y, w);
    var cell := CellElements(nx, x, y);
    assert row[2 * x] == cell[0] && row[2 * x + 1] == cell[1] by {
      RowElementAt(nx, y, w, x);
    }
    assert GridElements(nx, y + 1) == prev + row by {
      assert Width(nx - 1) == w;
    }
    GridPrefix(nx, y + 1, rows);
    PrefixAt(GridElements(nx, rows), GridElements(nx, y + 1), prev, row, 2 * x, i);
  }

  /** Where `upTo == prev + row` is a prefix of `all`, element `k` of `row` is element
      `|prev| + k` of `all`. */
  lemma PrefixAt<T>(all: seq<T>, upTo: seq<T>, prev: seq<T>, row: seq<T>, k: int, i: int)
    requires upTo <= all && upTo == prev + row
    requires 0 <= k && k + 1 < |row| && i == |prev| + k
    ensures 0 <= i && i + 1 < |all|
    ensures all[i] == row[k] && all[i + 1] == row[k + 1]
  {
    assert all[i] == upTo[i] && all[i + 1] == upTo[i + 1];
  }

  /** `CreateUniformGridMesh(nx, ny)` makes `2 (nx - 1)(ny - 1)` triangles; the cell
      with lower-left node `n00 = y * nx + x` contributes, in this order,
      `(n00, n00 + 1, n00 + nx + 1)` and `(n00, n00 + nx + 1, n00 + nx)`. */
  lemma MeshElementLayout(nx: int, ny: int, x: int, y: int)
    requires nx >= 2 && ny >= 2 && 0 <= x < nx - 1 && 0 <= y < ny - 1
    ensures |MeshElements(nx, ny)| == 2 * (nx - 1) * (ny - 1)
    ensures 0 <= 2 * (y * (nx - 1) + x) && 2 * (y * (nx - 1) + x) + 1 < |MeshElements(nx, ny)|
    ensures MeshElements(nx, ny)[2 * (y * (nx - 1) + x)]
            == LinTriElement(y * nx + x, y * nx + x + 1, y * nx + x + nx + 1)
    ensures MeshElements(nx, ny)[2 * (y * (nx - 1) + x) + 1]
            == LinTriElement(y * nx + x, y * nx + x + nx + 1, y * nx + x + nx)
  {
    var rows: nat := ny - 1;
    assert MeshElements(nx, ny) == GridElements(nx, rows) by {
      assert Width(ny - 1) == rows;
    }
    assert |GridElements(nx, rows)| == 2 * (nx - 1) * (ny - 1) by {
      assert Width(nx - 1) == nx - 1;
      assert 2 * rows * (nx - 1) == 2 * (nx - 1) * (ny - 1);
    }
    GridElementAt(nx, rows, x, y);
  }

  /** All three node ids of `e` lie in `[lo, hi)`. */
  predicate NodeIdsIn(e: LinTriElement, lo: int, hi: int) {
    lo <= e.n0 < hi && lo <= e.n1 < hi && lo <= e.n2 < hi
  }

  lemma {:induction false} RowElementsWithin(nx: int, y: nat, cols: nat)
    requires cols <= nx - 1
    ensures forall i :: 0 <= i < |RowElements(nx, y, cols)| ==>
              NodeIdsIn(RowElements(nx, y, cols)[i], y * nx, y * nx + 2 * nx)
  {
    if cols > 0 {
      RowElementsWithin(nx, y, cols - 1);
      var es := RowElements(nx, y, cols);
      assert es == RowElements(nx, y, cols - 1) + CellElements(nx, cols - 1, y);
    }
  }

  lemma {:induction false} GridElementsWithin(nx: int, rows: nat)
    ensures forall i :: 0 <= i < |GridElements(nx, rows)| ==>
              NodeIdsIn(GridElements(nx, rows)[i], 0, (rows + 1) * nx)
  {
    if rows > 0 && nx >= 2 {
      GridElementsWithin(nx, rows - 1);
      RowElementsWithin(nx, rows - 1, nx - 1);
      MulMonotone(0, rows - 1, nx);
      assert (rows + 1) * nx == (rows - 1) * nx + 2 * nx;
      assert rows * nx == (rows - 1) * nx + nx;
      var es := GridElements(nx, rows);
      assert es == GridElements(nx, rows - 1) + RowElements(nx, rows - 1, nx - 1);
    }
  }

  /** Every node id stored in a triangle of the mesh names one of its nodes. */
  lemma MeshElementsInRange(nx: int, ny: int)
    requires MeshArgsOk(nx, ny)
    ensures forall i :: 0 <= i < |MeshElements(nx, ny)| ==>
              NodeIdsIn(MeshElements(nx, ny)[i], 0, |MeshNodes(nx, ny)|)
  {
    GridElementsWithin(nx, Width(ny - 1));
    if nx >= 2 && ny >= 2 {
      assert |MeshNodes(nx, ny)| == (Width(ny - 1) + 1) * nx;
    }
  }

  // ---------------------------------------------------------------------------
  // Boundary conditions.

  /** A point on or outside the boundary of the unit square. */
  predicate OnUnitSquareBoundary(p: Vec2) {
    p.x <= 0.0 || p.x >= 1.0 || p.y <= 0.0 || p.y >= 1.0
  }

  /** The conditions `SetBoundaryConditions` appends for the first `n` nodes. They
      name, in increasing order of id, exactly the nodes on the boundary, each with
      the exact solution at that node. */
  function BoundaryConditionsOf(nodes: seq<Vec2>, n: nat): (bcs: seq<BoundaryCondition>)
    requires n <= |nodes|
    ensures |bcs| <= n
  {
    if n == 0 then []
    else
      var prev := BoundaryConditionsOf(nodes, n - 1);
      var p := nodes[n - 1];
      if OnUnitSquareBoundary(p) then prev + [BoundaryCondition(n - 1, BoundaryU(p.x, p.y))]
      else prev
  }

  /** Every condition names a boundary node among the first `n` and fixes it to the
      exact solution there. */
  lemma {:induction false} BoundaryConditionsSound(nodes: seq<Vec2>, n: nat, k: nat)
    requires n <= |nodes|
    requires k < |BoundaryConditionsOf(nodes, n)|
    ensures var bc := BoundaryConditionsOf(nodes, n)[k];
            0 <= bc.id < n && OnUnitSquareBoundary(nodes[bc.id]) &&
            bc.value == BoundaryU(nodes[bc.id].x, nodes[bc.id].y)
  {
    var prev := BoundaryConditionsOf(nodes, n - 1);
    if k < |prev| {
      BoundaryConditionsSound(nodes, n - 1, k);
    }
  }

  /** The conditions are listed in strictly increasing order of node id, so no node
      gets two. */
  lemma {:induction false} BoundaryConditionsOrdered(nodes: seq<Vec2>, n: nat, k: nat, l: nat)
    requires n <= |nodes|
    requires k < l < |BoundaryConditionsOf(nodes, n)|
    ensures BoundaryConditionsOf(nodes, n)[k].id < BoundaryConditionsOf(nodes, n)[l].id
  {
    var prev := BoundaryConditionsOf(nodes, n - 1);
    if l < |prev| {
      BoundaryConditionsOrdered(nodes, n - 1, k, l);
    } else {
      BoundaryConditionsSound(nodes, n - 1, k);
    }
  }

  /** Every boundary node among the first `n` has a condition. */
  lemma {:induction false} BoundaryConditionsComplete(nodes: seq<Vec2>, n: nat, i: nat)
    requires i < n <= |nodes|
    requires OnUnitSquareBoundary(nodes[i])
    ensures exists k :: 0 <= k < |BoundaryConditionsOf(nodes, n)| && BoundaryConditionsOf(nodes, n)[k].id == i
  {
    var prev := BoundaryConditionsOf(nodes, n - 1);
    var bcs := BoundaryConditionsOf(nodes, n);
    if i < n - 1 {
      BoundaryConditionsComplete(nodes, n - 1, i);
      var k :| 0 <= k < |prev| && prev[k].id == i;
      assert bcs[k] == prev[k];
    } else {
      assert bcs[|prev|].id == i;
    }
  }

  /** Grid line `i` of `n` lies on the lower edge exactly when `i == 0` and on the
      upper edge exactly when `i == n - 1`. */
  lemma GridCoordOnEdge(i: int, n: int)
    requires n >= 2 && 0 <= i < n
    ensures GridCoord(i, n) <= 0.0 <==> i == 0
    ensures GridCoord(i, n) >= 1.0 <==> i == n - 1
  {
    var d := (n - 1) as real;
    var q := GridCoord(i, n);
    assert q * d == i as real;
    if i > 0 {
      assert q > 0.0;
    }
    if i < n - 1 {
      assert q < 1.0;
    }
  }

  /** On the uniform grid the boundary nodes are the outer ring: node `y * nx + x` gets
      a condition exactly when it is in the first or last column or row. */
  lemma GridBoundaryIsOuterRing(nx: int, ny: int, x: int, y: int)
    requires nx >= 2 && ny >= 2 && 0 <= x < nx && 0 <= y < ny
    ensures 0 <= y * nx + x < |MeshNodes(nx, ny)|
    ensures OnUnitSquareBoundary(MeshNodes(nx, ny)[y * nx + x])
            <==> x == 0 || x == nx - 1 || y == 0 || y == ny - 1
  {
    GridNodeAt(nx, ny, ny, x, y);
    GridCoordOnEdge(x, nx);
    GridCoordOnEdge(y, ny);
  }

  // ---------------------------------------------------------------------------
  // Vectors of nodal values.

  /** `std::vector::resize` on a vector of doubles: the first `n` values are kept and
      any new ones are zero. */
  function Resize(s: seq<real>, n: nat): (r: seq<real>)
    ensures |r| == n
    ensures forall i :: 0 <= i < n && i < |s| ==> r[i] == s[i]
    ensures forall i :: |s| <= i < n ==> r[i] == 0.0
  {
    if n <= |s| then s[..n] else s + seq(n - |s|, _ => 0.0)
  }

  // ---------------------------------------------------------------------------
  // The model.

  class FEModel {
    var nodes: seq<Vec2>
    var elements: seq<LinTriElement>
    var numNodes: int
    var numElems: int
    var solution: seq<real>
    var error: seq<real>
    var abserror: seq<real>
    var rhs: seq<real>
    var boundaryConds: seq<BoundaryCondition>

    /** The counters track the node and element lists. */
    ghost predicate Valid()
      reads this
    {
      numNodes == |nodes| && numElems == |elements|
    }

    /** An empty model. */
    constructor ()
      ensures Valid()
      ensures nodes == [] && elements == [] && boundaryConds == []
      ensures solution == [] && error == [] && abserror == [] && rhs == []
    {
      nodes := [];
      elements := [];
      numNodes := 0;
      numElems := 0;
      solution := [];
      error := [];
      abserror := [];
      rhs := [];
      boundaryConds := [];
    }

    /** Appends the nodes and triangles of a uniform `nodesX` by `nodesY` grid over
        the unit square and resizes the nodal vectors to the new node count. */
    method CreateUniformGridMesh(nodesX: int, nodesY: int)
      requires Valid() && MeshArgsOk(nodesX, nodesY)
      modifies this
      ensures Valid()
      ensures nodes == old(nodes) + MeshNodes(nodesX, nodesY)
      ensures elements == old(elements) + MeshElements(nodesX, nodesY)
      ensures solution == Resize(old(solution), numNodes)
      ensures error == Resize(old(error), numNodes)
      ensures abserror == Resize(old(abserror), numNodes)
      ensures rhs == Resize(old(rhs), numNodes)
      ensures boundaryConds == old(boundaryConds)
    {
      AppendGridNodes(nodesX, nodesY);
      AppendGridElements(nodesX, nodesY);
      solution := Resize(solution, numNodes);
      error := Resize(error, numNodes);
      abserror := Resize(abserror, numNodes);
      rhs := Resize(rhs, numNodes);
    }

    /** The node loops of `CreateUniformGridMesh`: row by row, node `(x, y)` at
        `(x / (nodesX - 1), y / (nodesY - 1))`. */
    method AppendGridNodes(nodesX: int, nodesY: int)
      requires Valid() && MeshArgsOk(nodesX, nodesY)
      modifies this`nodes, this`numNodes
      ensures Valid()
      ensures nodes == old(nodes) + MeshNodes(nodesX, nodesY)
    {
      var lenX := (nodesX - 1) as real;
      var lenY := (nodesY - 1) as real;
      var y := 0;
      while y < nodesY
        invariant 0 <= y <= Width(nodesY)
        invariant Valid()
        invariant nodes == old(nodes) + GridNodes(nodesX, nodesY, y)
      {
        AppendRowNodes(nodesX, nodesY, y, lenX, lenY);
        y := y + 1;
      }
    }

    /** The inner node loop of `CreateUniformGridMesh`: the nodes of row `y`, left to
        right. */
    method AppendRowNodes(nodesX: int, nodesY: int, y: int, lenX: real, lenY: real)
      requires Valid() && MeshArgsOk(nodesX, nodesY) && 0 <= y < nodesY
      requires lenX == (nodesX - 1) as real && lenY == (nodesY - 1) as real
      modifies this`nodes, this`numNodes
      ensures Valid()
      ensures nodes == old(nodes) + RowNodes(nodesX, nodesY, y, Width(nodesX))
    {
      var x := 0;
      while x < nodesX
        invariant 0 <= x <= Width(nodesX)
        invariant Valid()
        invariant nodes == old(nodes) + RowNodes(nodesX, nodesY, y, x)
      {
        var pos := Vec2(x as real / lenX, y as real / lenY);
        assert RowNodes(nodesX, nodesY, y, x + 1) == RowNodes(nodesX, nodesY, y, x) + [pos];
        nodes := nodes + [pos];
        numNodes := numNodes + 1;
        x := x + 1;
      }
    }

    /** The element loops of `CreateUniformGridMesh`: two triangles per cell, cell
        row by cell row. */
    method AppendGridElements(nodesX: int, nodesY: int)
      requires Valid()
      modifies this`elements, this`numElems
      ensures Valid()
      ensures elements == old(elements) + MeshElements(nodesX, nodesY)
    {
      var y := 0;
      while y < nodesY - 1
        invariant 0 <= y <= Width(nodesY - 1)
        invariant Valid()
        invariant elements == old(elements) + GridElements(nodesX, y)
      {
        AppendRowElements(nodesX, y);
        y := y + 1;
      }
    }

    /** The inner element loop of `CreateUniformGridMesh`: the two triangles of each
        cell of cell row `y`, cell by cell. */
    method AppendRowElements(nodesX: int, y: int)
      requires Valid()
      modifies this`elements, this`numElems
      ensures Valid()
      ensures elements == old(elements) + RowElements(nodesX, y, Width(nodesX - 1))
    {
      var x := 0;
      while x < nodesX - 1
        invariant 0 <= x <= Width(nodesX - 1)
        invariant Valid()
        invariant elements == old(elements) + RowElements(nodesX, y, x)
      {
        var node00 := y * nodesX + x;
        var node10 := node00 + 1;
        var node01 := node00 + nodesX;
        var node11 := node00 + nodesX + 1;
        elements := elements + [LinTriElement(node00, node10, node11)];
        elements := elements + [LinTriElement(node00, node11, node01)];
        numElems := numElems + 2;
        assert RowElements(nodesX, y, x + 1) == RowElements(nodesX, y, x) + CellElements(nodesX, x, y);
        x := x + 1;
      }
    }

    /** Appends one condition per boundary node, in order of node id. */
    method SetBoundaryConditions()
      requires Valid()
      modifies this`boundaryConds
      ensures boundaryConds == old(boundaryConds) + BoundaryConditionsOf(nodes, numNodes)
    {
      var i := 0;
      while i < numNodes
        invariant 0 <= i <= numNodes
        invariant boundaryConds == old(boundaryConds) + BoundaryConditionsOf(nodes, i)
      {
        var pos := nodes[i];
        assert BoundaryConditionsOf(nodes, i + 1)
               == if OnUnitSquareBoundary(pos) then BoundaryConditionsOf(nodes, i) + [BoundaryCondition(i, BoundaryU(pos.x, pos.y))]
                  else BoundaryConditionsOf(nodes, i);
        if pos.x <= 0.0 || pos.x >= 1.0 || pos.y <= 0.0 || pos.y >= 1.0 {
          var x := pos.x;
          var y := pos.y;
          var val := BoundaryU(x, y);
          boundaryConds := boundaryConds + [BoundaryCondition(i, val)];
        }
        i := i + 1;
      }
    }

    /** Fills `error` with the exact solution minus the computed one at every node and
        `abserror` with its magnitude. The error norm is not computed yet: the result
        is always zero. */
    method ComputeError() returns (errNorm: real)
      requires Valid() && numNodes <= |solution| && numNodes <= |error|
      modifies this`error, this`abserror
      ensures |error| == |old(error)| && |abserror| == |error|
      ensures forall i :: 0 <= i < numNodes ==> error[i] == BoundaryU(nodes[i].x, nodes[i].y) - solution[i]
      ensures forall i :: numNodes <= i < |error| ==> error[i] == old(error)[i]
      ensures forall i :: 0 <= i < numNodes ==> abserror[i] == Abs(error[i]) && abserror[i] >= 0.0
      ensures forall i :: numNodes <= i < |abserror| ==> abserror[i] == error[i]
      ensures errNorm == 0.0
    {
      errNorm := 0.0;
      var i := 0;
      while i < numNodes
        invariant 0 <= i <= numNodes
        invariant abserror == old(abserror)
        invariant |error| == |old(error)|
        invariant forall j :: 0 <= j < i ==> error[j] == BoundaryU(nodes[j].x, nodes[j].y) - solution[j]
        invariant forall j :: i <= j < |error| ==> error[j] == old(error)[j]
      {
        var pos := nodes[i];
        error := error[i := BoundaryU(pos.x, pos.y) - solution[i]];
        i := i + 1;
      }
      abserror := error;
      ghost var errorAfter := error;
      i := 0;
      while i < numNodes
        invariant 0 <= i <= numNodes
        invariant error == errorAfter
        invariant |abserror| == |error|
        invariant forall j :: 0 <= j < i ==> abserror[j] == Abs(error[j])
        invariant forall j :: i <= j < |abserror| ==> abserror[j] == error[j]
      {
        abserror := abserror[i := Abs(abserror[i])];
        i := i + 1;
      }
    }
  }
}
