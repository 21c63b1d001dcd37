/*
 * What the finished mesh of generatePoints looks like: how neighbouring
 * cells share corners, how many distinct points there are, which are
 * pinned, how they are wired and where the jitter leaves them.
 *
 * Every lemma starts from Shape(cells, V, (rows, 0), rows, cols), the state
 * GeneratePoints ends in, and where needed from States, the state of its
 * vertices.
 */
module MeshFacts {
  import opened Maths
  import opened Mesh

  /** The corners of a polygon, in the order the constructor takes them. */
  function CornersOf(p: Polygon): seq<Vector> {
    [p.topLeft, p.topRight, p.bottomLeft, p.bottomRight]
  }

  /** Every corner of every polygon of the matrix. */
  ghost function Points(cells: array2<Polygon?>): set<Vector>
    reads cells
  {
    set r, c, v | 0 <= r < cells.Length0 && 0 <= c < cells.Length1 && cells[r, c] != null
                  && v in CornersOf(cells[r, c]) :: v
  }

  /** The grid keys (i, j), 0 <= i <= rows, 0 <= j <= cols. */
  ghost function GridKeys(rows: nat, cols: nat): set<(int, int)> {
    set i, j | 0 <= i <= rows && 0 <= j <= cols :: (i, j)
  }

  ghost function RowKeys(i: int, cols: nat): set<(int, int)> {
    set j | 0 <= j <= cols :: (i, j)
  }

  // ---------------------------------------------------------------------
  // Sharing and fresh corners.

  /** Once every cell is built, every cell holds a polygon. */
  lemma Filled(cells: array2<Polygon?>, V: map<(int, int), Vector>, rows: nat, cols: nat)
    requires Shape(cells, V, (rows, 0), rows, cols)
    ensures forall r, c :: 0 <= r < rows && 0 <= c < cols ==> Framed(cells[r, c], V, r, c)
  {
    forall r, c | 0 <= r < rows && 0 <= c < cols
      ensures Framed(cells[r, c], V, r, c)
    {
      assert Before((r, c), (rows, 0));
    }
  }

  /**
   * The corners a cell takes from its neighbours: from the cell on its
   * left its top-left (that cell's top-right) and bottom-left (that cell's
   * bottom-right); from the cell above its top-right (that cell's
   * bottom-right); in the left column, from the cell above, its top-left
   * (that cell's bottom-left).
   */
  lemma SharedCorners(cells: array2<Polygon?>, V: map<(int, int), Vector>, rows: nat, cols: nat)
    requires Shape(cells, V, (rows, 0), rows, cols)
    ensures forall r, c :: 0 <= r < rows && 0 <= c < cols ==> cells[r, c] != null
    ensures forall r, c :: 0 <= r < rows && 0 < c < cols ==>
              cells[r, c].topLeft == cells[r, c - 1].topRight
              && cells[r, c].bottomLeft == cells[r, c - 1].bottomRight
    ensures forall r, c :: 0 < r < rows && 0 <= c < cols ==>
              cells[r, c].topRight == cells[r - 1, c].bottomRight
    ensures forall r :: 0 < r < rows && 0 < cols ==> cells[r, 0].topLeft == cells[r - 1, 0].bottomLeft
  {
    Filled(cells, V, rows, cols);
  }

  /**
   * A cell's bottom-right corner is a new point: no cell built before it
   * has it as a corner.
   */
  lemma NewBottomRight(cells: array2<Polygon?>, V: map<(int, int), Vector>, rows: nat, cols: nat)
    requires Shape(cells, V, (rows, 0), rows, cols)
    ensures forall r, c :: 0 <= r < rows && 0 <= c < cols ==> cells[r, c] != null
    ensures forall r, c, r', c' ::
              0 <= r < rows && 0 <= c < cols && 0 <= r' < rows && 0 <= c' < cols && Before((r', c'), (r, c))
              ==> cells[r, c].bottomRight !in CornersOf(cells[r', c'])
  {
    Filled(cells, V, rows, cols);
    forall r, c, r', c' |
      0 <= r < rows && 0 <= c < cols && 0 <= r' < rows && 0 <= c' < cols && Before((r', c'), (r, c))
      ensures cells[r, c].bottomRight !in CornersOf(cells[r', c'])
    {
      var p, q := cells[r, c], cells[r', c'];
      assert p.bottomRight == V[(r + 1, c + 1)];
      assert CornersOf(q) == [V[(r', c')], V[(r', c' + 1)], V[(r' + 1, c')], V[(r' + 1, c' + 1)]];
    }
  }

  // ---------------------------------------------------------------------
  // Counting the points.

  lemma {:induction false} RowKeysCount(i: int, cols: nat)
    ensures |RowKeys(i, cols)| == cols + 1
  {
    if cols == 0 {
      assert RowKeys(i, 0) == {(i, 0)};
    } else {
      RowKeysCount(i, cols - 1);
      assert RowKeys(i, cols) == RowKeys(i, cols - 1) + {(i, cols)};
    }
  }

  lemma {:induction false} GridKeysCount(rows: nat, cols: nat)
    ensures |GridKeys(rows, cols)| == (rows + 1) * (cols + 1)
  {
    RowKeysCount(rows, cols);
    if rows == 0 {
      assert GridKeys(0, cols) == RowKeys(0, cols);
    } else {
      GridKeysCount(rows - 1, cols);
      assert GridKeys(rows, cols) == GridKeys(rows - 1, cols) + RowKeys(rows, cols);
      assert GridKeys(rows - 1, cols) !! RowKeys(rows, cols);
      assert (rows + 1) * (cols + 1) == rows * (cols + 1) + (cols + 1);
    }
  }

  /** An injective map has as many distinct values as keys. */
  lemma {:induction false} InjectiveValues(V: map<(int, int), Vector>)
    requires Injective(V)
    ensures |V.Values| == |V.Keys|
    decreases |V.Keys|
  {
    if V.Keys != {} {
      var k :| k in V;
      var W := V - {k};
      assert W.Keys == V.Keys - {k};
      assert W.Values == V.Values - {V[k]} by {
        forall v | v in V.Values - {V[k]} ensures v in W.Values {
          var a :| a in V && V[a] == v;
          assert a in W;
        }
      }
      InjectiveValues(W);
    } else {
      assert V == map[];
    }
  }

  /**
   * The matrix holds exactly (rows + 1) * (cols + 1) distinct points, one
   * per grid key (none when there is no row or no column), and they are
   * exactly the vertices V names.
   */
  lemma PointCount(cells: array2<Polygon?>, V: map<(int, int), Vector>, rows: nat, cols: nat)
    requires Shape(cells, V, (rows, 0), rows, cols)
    ensures Points(cells) == V.Values
    ensures 0 < rows && 0 < cols ==> V.Keys == GridKeys(rows, cols)
    ensures |Points(cells)| == if rows == 0 || cols == 0 then 0 else (rows + 1) * (cols + 1)
  {
    PointsAreVertices(cells, V, rows, cols);
    InjectiveValues(V);
    VertexKeys(V, rows, cols, cells);
    if 0 < rows && 0 < cols {
      GridKeysCount(rows, cols);
    }
  }

  lemma PointsAreVertices(cells: array2<Polygon?>, V: map<(int, int), Vector>, rows: nat, cols: nat)
    requires Shape(cells, V, (rows, 0), rows, cols)
    ensures Points(cells) == V.Values
  {
    Filled(cells, V, rows, cols);
    forall v | v in Points(cells) ensures v in V.Values {
      var r, c :| 0 <= r < rows && 0 <= c < cols && v in CornersOf(cells[r, c]);
    }
    forall v | v in V.Values ensures v in Points(cells) {
      var k :| k in V && V[k] == v;
      var r := if k.0 == rows then rows - 1 else k.0;
      var c := if k.1 == cols then cols - 1 else k.1;
      assert Created(k, (rows, 0), rows, cols);
      assert v in CornersOf(cells[r, c]);
    }
  }

  lemma VertexKeys(V: map<(int, int), Vector>, rows: nat, cols: nat, cells: array2<Polygon?>)
    requires Shape(cells, V, (rows, 0), rows, cols)
    ensures V.Keys == if rows == 0 || cols == 0 then {} else GridKeys(rows, cols)
  {
    if 0 < rows && 0 < cols {
      forall k | k in GridKeys(rows, cols) ensures k in V {
        assert Created(k, (rows, 0), rows, cols);
      }
    } else {
      assert forall k :: k in V ==> Created(k, (rows, 0), rows, cols);
    }
  }

  // ---------------------------------------------------------------------
  // Pins, constraints and jitter of the finished mesh.

  /** A corner is pinned exactly when it lies on the outer border of the grid. */
  lemma PinnedCorners(cells: array2<Polygon?>, V: map<(int, int), Vector>, rows: nat, cols: nat)
    requires Shape(cells, V, (rows, 0), rows, cols) && Pins(V, rows, cols)
    ensures forall r, c :: 0 <= r < rows && 0 <= c < cols ==> cells[r, c] != null
    ensures forall r, c :: 0 <= r < rows && 0 <= c < cols ==>
              (cells[r, c].topLeft.pinned <==> r == 0 || c == 0)
              && (cells[r, c].topRight.pinned <==> r == 0 || c == cols - 1)
              && (cells[r, c].bottomLeft.pinned <==> r == rows - 1 || c == 0)
              && (cells[r, c].bottomRight.pinned <==> r == rows - 1 || c == cols - 1)
  {
    Filled(cells, V, rows, cols);
    forall r, c | 0 <= r < rows && 0 <= c < cols
      ensures (cells[r, c].topLeft.pinned <==> r == 0 || c == 0)
              && (cells[r, c].topRight.pinned <==> r == 0 || c == cols - 1)
              && (cells[r, c].bottomLeft.pinned <==> r == rows - 1 || c == 0)
              && (cells[r, c].bottomRight.pinned <==> r == rows - 1 || c == cols - 1)
    {
      assert PinnedOnBorder(V[(r, c)], (r, c), rows, cols);
      assert PinnedOnBorder(V[(r, c + 1)], (r, c + 1), rows, cols);
      assert PinnedOnBorder(V[(r + 1, c)], (r + 1, c), rows, cols);
      assert PinnedOnBorder(V[(r + 1, c + 1)], (r + 1, c + 1), rows, cols);
    }
  }

  /**
   * Each cell's bottom-right corner holds exactly three constraints, to the
   * cell's top-left, bottom-left and top-right corners in that order, each
   * at their distance; the vertices of the top row and the left column,
   * which are no cell's bottom-right corner, hold none.
   */
  lemma CellConstraints(cells: array2<Polygon?>, V: map<(int, int), Vector>, rows: nat, cols: nat,
                        cw: real, rh: real, sqrt: real -> real)
    requires Shape(cells, V, (rows, 0), rows, cols) && Layout(V, rows, cols, cw, rh, sqrt)
    ensures forall r, c :: 0 <= r < rows && 0 <= c < cols ==> cells[r, c] != null
    ensures forall r, c :: 0 <= r < rows && 0 <= c < cols ==>
              var p := cells[r, c];
              var cs := p.bottomRight.constraints;
              |cs| == 3 && Binds(cs[0], p.bottomRight, p.topLeft, sqrt)
              && Binds(cs[1], p.bottomRight, p.bottomLeft, sqrt) && Binds(cs[2], p.bottomRight, p.topRight, sqrt)
    ensures forall c :: 0 <= c < cols && 0 < rows ==>
              cells[0, c].topLeft.constraints == [] && cells[0, c].topRight.constraints == []
    ensures forall r :: 0 <= r < rows && 0 < cols ==>
              cells[r, 0].topLeft.constraints == [] && cells[r, 0].bottomLeft.constraints == []
  {
    Filled(cells, V, rows, cols);
    forall r, c | 0 <= r < rows && 0 <= c < cols
      ensures var p := cells[r, c];
              var cs := p.bottomRight.constraints;
              |cs| == 3 && Binds(cs[0], p.bottomRight, p.topLeft, sqrt)
              && Binds(cs[1], p.bottomRight, p.bottomLeft, sqrt) && Binds(cs[2], p.bottomRight, p.topRight, sqrt)
    {
      assert Wired(V, (r + 1, c + 1), sqrt);
    }
    forall c | 0 <= c < cols && 0 < rows
      ensures cells[0, c].topLeft.constraints == [] && cells[0, c].topRight.constraints == []
    {
      assert Wired(V, (0, c), sqrt) && Wired(V, (0, c + 1), sqrt);
    }
    forall r | 0 <= r < rows && 0 < cols
      ensures cells[r, 0].topLeft.constraints == [] && cells[r, 0].bottomLeft.constraints == []
    {
      assert Wired(V, (r, 0), sqrt) && Wired(V, (r + 1, 0), sqrt);
    }
  }

  /** Every grid key up to (rows, cols) names a vertex. */
  ghost predicate Full(V: map<(int, int), Vector>, rows: nat, cols: nat) {
    forall k :: InGrid(k, rows, cols) ==> k in V
  }

  /** The constraint counts of vertices (i, 0) .. (i, j). */
  ghost function RowTotal(V: map<(int, int), Vector>, rows: nat, cols: nat, i: nat, j: nat): int
    requires Full(V, rows, cols) && i <= rows && j <= cols
    reads V.Values`constraints
  {
    assert InGrid((i, j), rows, cols);
    |V[(i, j)].constraints| + if j == 0 then 0 else RowTotal(V, rows, cols, i, j - 1)
  }

  /** The constraint counts of all vertices of rows 0 .. i. */
  ghost function Total(V: map<(int, int), Vector>, rows: nat, cols: nat, i: nat): int
    requires Full(V, rows, cols) && i <= rows
    reads V.Values`constraints
  {
    RowTotal(V, rows, cols, i, cols) + if i == 0 then 0 else Total(V, rows, cols, i - 1)
  }

  /**
   * How many constraints each vertex holds: none on the top row and the
   * left column, three elsewhere. Only the lists are read, and a tick never
   * changes a list, so this outlives the positions generatePoints leaves.
   */
  ghost predicate Fanout(V: map<(int, int), Vector>)
    reads V.Values`constraints
  {
    forall k :: k in V ==> |V[k].constraints| == if k.0 == 0 || k.1 == 0 then 0 else 3
  }

  /** The wiring generatePoints leaves has that fan-out. */
  lemma LayoutFanout(V: map<(int, int), Vector>, rows: nat, cols: nat, cw: real, rh: real, sqrt: real -> real)
    requires Layout(V, rows, cols, cw, rh, sqrt)
    ensures Fanout(V)
  {
    forall k | k in V ensures |V[k].constraints| == if k.0 == 0 || k.1 == 0 then 0 else 3 {
      assert Wired(V, k, sqrt);
    }
  }

  lemma {:induction false} RowTotalWired(V: map<(int, int), Vector>, rows: nat, cols: nat, i: nat, j: nat)
    requires Full(V, rows, cols) && i <= rows && j <= cols && Fanout(V)
    ensures RowTotal(V, rows, cols, i, j) == if i == 0 then 0 else 3 * j
  {
    assert InGrid((i, j), rows, cols);
    if j > 0 {
      RowTotalWired(V, rows, cols, i, j - 1);
    }
  }

  lemma {:induction false} TotalWired(V: map<(int, int), Vector>, rows: nat, cols: nat, i: nat)
    requires Full(V, rows, cols) && i <= rows && Fanout(V)
    ensures Total(V, rows, cols, i) == 3 * i * cols
  {
    RowTotalWired(V, rows, cols, i, cols);
    if i > 0 {
      TotalWired(V, rows, cols, i - 1);
      assert 3 * (i - 1) * cols + 3 * cols == 3 * i * cols;
    }
  }

  /** Summed over all (rows + 1) * (cols + 1) distinct points, the mesh holds 3 * rows * cols constraints. */
  lemma ConstraintCount(cells: array2<Polygon?>, V: map<(int, int), Vector>, rows: nat, cols: nat,
                        cw: real, rh: real, sqrt: real -> real)
    requires Shape(cells, V, (rows, 0), rows, cols) && Layout(V, rows, cols, cw, rh, sqrt)
    requires 0 < rows && 0 < cols
    ensures Full(V, rows, cols)
    ensures Total(V, rows, cols, rows) == 3 * rows * cols
  {
    PointCount(cells, V, rows, cols);
    LayoutFanout(V, rows, cols, cw, rh, sqrt);
    TotalWired(V, rows, cols, rows);
  }

  /**
   * Where generatePoints leaves vertex (i, j): its previous position is the
   * lattice point (j * colWidth, i * rowHeight), it carries no force, and
   * each coordinate is jittered by less than 0.175 of the spacing along
   * its axis, except on the edges that coordinate runs across: points on
   * the left and right edges keep their x, points on the top and bottom
   * edges keep their y, so edge points move only along their edge and the
   * four grid corners do not move at all.
   */
  lemma Jittered(V: map<(int, int), Vector>, rows: nat, cols: nat, cw: real, rh: real, sqrt: real -> real)
    requires Layout(V, rows, cols, cw, rh, sqrt)
    ensures forall k :: k in V ==>
              V[k].px == k.1 as real * cw && V[k].py == k.0 as real * rh && V[k].vx == 0.0 && V[k].vy == 0.0
    ensures forall k :: k in V ==>
              if k.1 == 0 || k.1 == cols then V[k].x == V[k].px
              else -0.175 * cw < V[k].x - V[k].px < 0.175 * cw
    ensures forall k :: k in V ==>
              if k.0 == 0 || k.0 == rows then V[k].y == V[k].py
              else -0.175 * rh < V[k].y - V[k].py < 0.175 * rh
    ensures forall k :: k in V && (k.0 == 0 || k.0 == rows) && (k.1 == 0 || k.1 == cols) ==>
              V[k].x == k.1 as real * cw && V[k].y == k.0 as real * rh
  {
    forall k | k in V
      ensures V[k].px == k.1 as real * cw && V[k].py == k.0 as real * rh && V[k].vx == 0.0 && V[k].vy == 0.0
      ensures if k.1 == 0 || k.1 == cols then V[k].x == V[k].px else -0.175 * cw < V[k].x - V[k].px < 0.175 * cw
      ensures if k.0 == 0 || k.0 == rows then V[k].y == V[k].py else -0.175 * rh < V[k].y - V[k].py < 0.175 * rh
    {
      assert Placed(V[k], k, rows, cols, cw, rh);
      JitteredPoint(V[k], k, rows, cols, cw, rh);
    }
  }

  /** Jittered for the one point v at grid key k. */
  lemma JitteredPoint(v: Vector, k: (int, int), rows: nat, cols: nat, cw: real, rh: real)
    requires Placed(v, k, rows, cols, cw, rh)
    ensures v.px == k.1 as real * cw && v.py == k.0 as real * rh && v.vx == 0.0 && v.vy == 0.0
    ensures if k.1 == 0 || k.1 == cols then v.x == v.px else -0.175 * cw < v.x - v.px < 0.175 * cw
    ensures if k.0 == 0 || k.0 == rows then v.y == v.py else -0.175 * rh < v.y - v.py < 0.175 * rh
  {
    LatticeIsProduct(k.1, cw);
    LatticeIsProduct(k.0, rh);
  }

  /** The jitter draws one vertex row i takes on the y axis: two unless it is the top or bottom row. */
  function RowJitter(i: int, rows: nat): nat {
    if 0 < i < rows then 2 else 0
  }

  /**
   * Cells (r, 0) .. (r, c - 1) draw the y jitters of the c + 1 vertices they
   * create in row r + 1, the x jitters of those off the side columns (twice
   * on the top row, which also creates row 0), and one fill each.
   */
  lemma {:induction false} RowDrawsClosed(r: nat, c: nat, rows: nat, cols: nat)
    requires 1 <= c <= cols
    ensures var sx := 2 * (if c < cols then c else cols - 1);
            RowDraws(r, c, rows, cols)
            == (c + 1) * RowJitter(r + 1, rows) + sx + (if r == 0 then sx else 0) + c
  {
    if c > 1 {
      RowDrawsClosed(r, c - 1, rows, cols);
      assert c * RowJitter(r + 1, rows) + RowJitter(r + 1, rows) == (c + 1) * RowJitter(r + 1, rows);
    }
  }

  lemma MulSucc(a: int, b: int)
    ensures a * b + a == a * (b + 1)
  {
  }

  /** A whole row r of cells, in a grid of rows by cols cells. */
  lemma RowDrawsTotal(r: nat, rows: nat, cols: nat)
    requires r < rows && 0 < cols
    ensures RowDraws(r, cols, rows, cols)
            == (if r + 1 < rows then 2 * (cols + 1) else 0) + (3 * cols - 2) + (if r == 0 then 2 * (cols - 1) else 0)
  {
    RowDrawsClosed(r, cols, rows, cols);
    if r + 1 < rows {
      assert (cols + 1) * RowJitter(r + 1, rows) == 2 * (cols + 1);
    } else {
      assert RowJitter(r + 1, rows) == 0;
    }
  }

  /** Rows 0 .. r - 1 of cells, in a grid of rows by cols cells. */
  lemma {:induction false} GridDrawsClosed(r: nat, rows: nat, cols: nat)
    requires 0 < rows && 0 < cols && r <= rows
    ensures GridDraws(r, rows, cols)
            == r * (5 * cols) + (if r > 0 then 2 * (cols - 1) else 0) - (if r == rows then 2 * (cols + 1) else 0)
  {
    if r > 0 {
      GridDrawsClosed(r - 1, rows, cols);
      RowDrawsTotal(r - 1, rows, cols);
      MulSucc(5 * cols, r - 1);
    }
  }

  /**
   * generatePoints takes four draws per interior vertex, two per border
   * vertex that is not a corner, none for the corners, and one per cell
   * for its fill.
   */
  lemma DrawCount(rows: nat, cols: nat)
    requires 0 < rows && 0 < cols
    ensures GridDraws(rows, rows, cols)
            == 4 * (rows - 1) * (cols - 1) + 2 * (2 * (rows - 1) + 2 * (cols - 1)) + rows * cols
  {
    GridDrawsClosed(rows, rows, cols);
    var p := rows * cols;
    assert rows * (5 * cols) == 5 * p;
    assert 4 * (rows - 1) * (cols - 1) == 4 * p - 4 * rows - 4 * cols + 4;
  }
}
