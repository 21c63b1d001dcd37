/*
 * One tick of app.js's theLoop over a mesh built by generatePoints:
 *
 *   1. every cell but those of the last row resolves its constraints
 *      (that is, its bottom-right corner's), cells in row-major order;
 *   2. while the mouse is on, the four corners of the focal cell get the
 *      force 0.35 * (mouse - their top-left corner in pixels);
 *   3. every cell but those of the last row updates (its bottom-right
 *      corner's Verlet step) with delta 0.35 / 2.
 *
 * The tick is specified by Ticked, a function on the values of the points,
 * and the properties of a tick are proved about Ticked.
 */
module Loop {
  import opened Maths
  import opened Mesh
  import opened MeshFacts

  /** The mouse as the listeners leave it: on after a mousemove, off after a mouseout. */
  datatype Mouse = Mouse(on: bool, x: real, y: real)

  /** The part of a point a tick reads and writes: position, previous position and force. */
  datatype Motion = Motion(pos: Pt, prev: Pt, force: Pt)

  function MotionOf(v: Vector): Motion
    reads v`x, v`y, v`px, v`py, v`vx, v`vy
  {
    Motion(Pt(v.x, v.y), Pt(v.px, v.py), Pt(v.vx, v.vy))
  }

  ghost function Motions(S: set<Vector>): (m: map<Vector, Motion>)
    reads S`x, S`y, S`px, S`py, S`vx, S`vy
    ensures m.Keys == S
  {
    map v | v in S :: MotionOf(v)
  }

  ghost function PositionsOf(M: map<Vector, Motion>): (m: map<Vector, Pt>)
    ensures m.Keys == M.Keys
  {
    map v | v in M :: M[v].pos
  }

  /** vector.update on the value of a point. */
  function Updated(m: Motion, pinned: bool, delta: real): Motion {
    if pinned then m
    else Motion(Pt(Verlet(m.pos.x, m.prev.x, m.force.x, delta), Verlet(m.pos.y, m.prev.y, m.force.y, delta)),
                m.pos, Pt(0.0, 0.0))
  }

  /** The mouse's pull: 0.35 of its offset from `corner`, a point in percent of a w x h view. */
  function Pull(mouse: Mouse, corner: Pt, w: real, h: real): Pt {
    Pt((mouse.x - (corner.x / 100.0) * w) * 0.35, (mouse.y - (corner.y / 100.0) * h) * 0.35)
  }

  /** The force on v after addForce(f) on each of `corners` in turn. */
  function Push(force: Pt, v: Vector, corners: seq<Vector>, f: Pt): Pt
    decreases |corners|
  {
    if corners == [] then force
    else Push(Added(force, v, corners[0], f), v, corners[1..], f)
  }

  /** Every constraint of a point of S has both its ends in S. */
  ghost predicate Closed(S: set<Vector>)
    reads S`constraints
  {
    forall v, c :: v in S && c in v.constraints ==> c.p1 in S && c.p2 in S
  }

  /** The vertices both passes visit: the bottom-right corners of every row of cells but the last. */
  predicate Moving(k: (int, int), rows: nat, cols: nat) {
    1 <= k.0 < rows && 1 <= k.1 <= cols
  }

  ghost function Movers(V: map<(int, int), Vector>, rows: nat, cols: nat): set<Vector> {
    set k | k in V && Moving(k, rows, cols) :: V[k]
  }

  /** The constraint lists of vertices (r + 1, 1) .. (r + 1, c): the bottom-right corners of cells (r, 0) .. (r, c - 1). */
  ghost function RowLists(V: map<(int, int), Vector>, rows: nat, cols: nat, r: nat, c: nat): (ls: seq<seq<Constraint>>)
    requires Full(V, rows, cols) && r < rows && c <= cols
    reads V.Values`constraints
    ensures |ls| == c
    ensures forall j :: 0 <= j < c ==> (r + 1, j + 1) in V && ls[j] == V[(r + 1, j + 1)].constraints
  {
    if c == 0 then []
    else
      assert InGrid((r + 1, c), rows, cols);
      RowLists(V, rows, cols, r, c - 1) + [V[(r + 1, c)].constraints]
  }

  /** The lists of ls one after the other, each last to first: what resolveConstraints on each owner in turn resolves. */
  function Flatten(ls: seq<seq<Constraint>>): seq<Constraint> {
    if ls == [] then [] else Flatten(ls[..|ls| - 1]) + Reverse(ls[|ls| - 1])
  }

  /** The constraint lists of the bottom-right corners of rows 0 .. r - 1 of cells, row by row. */
  ghost function GridLists(V: map<(int, int), Vector>, rows: nat, cols: nat, r: nat): (g: seq<seq<seq<Constraint>>>)
    requires Full(V, rows, cols) && r < rows
    reads V.Values`constraints
    ensures |g| == r
    ensures forall i :: 0 <= i < r ==> g[i] == RowLists(V, rows, cols, i, cols)
  {
    if r == 0 then [] else GridLists(V, rows, cols, r - 1) + [RowLists(V, rows, cols, r - 1, cols)]
  }

  /** The rows of g one after the other, each flattened. */
  function Join(g: seq<seq<seq<Constraint>>>): seq<Constraint> {
    if g == [] then [] else Join(g[..|g| - 1]) + Flatten(g[|g| - 1])
  }

  /**
   * The constraints the resolve pass of a tick resolves, in order: the
   * bottom-right corners' lists, each last to first, for every cell of
   * every row but the last, in row-major order.
   */
  ghost function Tour(V: map<(int, int), Vector>, rows: nat, cols: nat): seq<Constraint>
    requires 0 < rows && 0 < cols ==> Full(V, rows, cols)
    reads V.Values`constraints
  {
    if rows == 0 || cols == 0 then [] else Join(GridLists(V, rows, cols, rows - 1))
  }

  /**
   * One tick on the values of the points M: resolve the tour, add the
   * mouse's pull to the focal corners, update the movers.
   */
  ghost function Ticked(M: map<Vector, Motion>, pinned: set<Vector>, tour: seq<Constraint>, sqrt: real -> real,
                        movers: set<Vector>, focal: seq<Vector>, mouse: Mouse, w: real, h: real): (M': map<Vector, Motion>)
    requires Covers(M.Keys, tour) && |focal| == 4 && focal[0] in M
    ensures M'.Keys == M.Keys
  {
    Stepped(Pulled(Resolved(M, pinned, tour, sqrt), focal, mouse, w, h), pinned, movers)
  }

  /** The resolve pass on values: every position as resolving the tour leaves it. */
  ghost function Resolved(M: map<Vector, Motion>, pinned: set<Vector>, tour: seq<Constraint>, sqrt: real -> real)
    : (M': map<Vector, Motion>)
    requires Covers(M.Keys, tour)
    ensures M'.Keys == M.Keys
  {
    var P := Apply(PositionsOf(M), pinned, tour, sqrt);
    map v | v in M :: M[v].(pos := P[v])
  }

  /** The mouse pass on values: while the mouse is on, each of `focal` gets the pull on focal[0]. */
  ghost function Pulled(M: map<Vector, Motion>, focal: seq<Vector>, mouse: Mouse, w: real, h: real): (M': map<Vector, Motion>)
    requires |focal| == 4 && focal[0] in M
    ensures M'.Keys == M.Keys
  {
    if mouse.on then
      var f := Pull(mouse, M[focal[0]].pos, w, h);
      map v | v in M :: M[v].(force := Push(M[v].force, v, focal, f))
    else M
  }

  /** The update pass on values: each mover takes its Verlet step. */
  ghost function Stepped(M: map<Vector, Motion>, pinned: set<Vector>, movers: set<Vector>): (M': map<Vector, Motion>)
    ensures M'.Keys == M.Keys
  {
    map v | v in M :: if v in movers then Updated(M[v], v in pinned, 0.175) else M[v]
  }

  // ---------------------------------------------------------------------
  // The schedule.

  lemma CoversReverse(S: set<Vector>, cs: seq<Constraint>)
    requires Covers(S, cs)
    ensures Covers(S, Reverse(cs))
  {
    forall c | c in Reverse(cs) ensures c.p1 in S && c.p2 in S {
      var i :| 0 <= i < |Reverse(cs)| && Reverse(cs)[i] == c;
      assert c == cs[|cs| - 1 - i];
    }
  }

  lemma {:induction false} FlattenCovered(S: set<Vector>, ls: seq<seq<Constraint>>)
    requires forall j :: 0 <= j < |ls| ==> Covers(S, ls[j])
    ensures Covers(S, Flatten(ls))
  {
    if ls != [] {
      FlattenCovered(S, ls[..|ls| - 1]);
      CoversReverse(S, ls[|ls| - 1]);
    }
  }

  lemma FlattenSnoc(ls: seq<seq<Constraint>>, c: nat)
    requires c < |ls|
    ensures Flatten(ls[..c + 1]) == Flatten(ls[..c]) + Reverse(ls[c])
  {
    assert ls[..c + 1][..c] == ls[..c];
  }

  lemma {:induction false} JoinCovered(S: set<Vector>, g: seq<seq<seq<Constraint>>>)
    requires forall i, j :: 0 <= i < |g| && 0 <= j < |g[i]| ==> Covers(S, g[i][j])
    ensures Covers(S, Join(g))
  {
    if g != [] {
      JoinCovered(S, g[..|g| - 1]);
      FlattenCovered(S, g[|g| - 1]);
    }
  }

  lemma JoinSnoc(g: seq<seq<seq<Constraint>>>, r: nat)
    requires r < |g|
    ensures Join(g[..r + 1]) == Join(g[..r]) + Flatten(g[r])
  {
    assert g[..r + 1][..r] == g[..r];
  }

  /** The cells of the first rows - 1 rows, with their bottom-right corners' lists as the tour takes them. */
  lemma TourCells(cells: array2<Polygon?>, V: map<(int, int), Vector>, rows: nat, cols: nat)
    requires Shape(cells, V, (rows, 0), rows, cols) && 0 < rows && 0 < cols
    ensures Full(V, rows, cols)
    ensures var g := GridLists(V, rows, cols, rows - 1);
            forall i, j :: 0 <= i < rows - 1 && 0 <= j < cols ==>
              cells[i, j] != null && (i + 1, j + 1) in V && cells[i, j].bottomRight == V[(i + 1, j + 1)]
              && |g[i]| == cols && g[i][j] == V[(i + 1, j + 1)].constraints
  {
    VertexKeys(V, rows, cols, cells);
    Filled(cells, V, rows, cols);
  }

  /** What the resolve pass needs of a finished mesh: its cells, row by row, with the lists the tour takes. */
  lemma PassReady(cells: array2<Polygon?>, V: map<(int, int), Vector>, rows: nat, cols: nat)
      returns (G: seq<seq<seq<Constraint>>>)
    requires Shape(cells, V, (rows, 0), rows, cols) && Closed(V.Values) && 0 < rows && 0 < cols
    ensures Full(V, rows, cols) && Tour(V, rows, cols) == Join(G)
    ensures cells.Length0 == rows && cols == cells.Length1 && |G| == rows - 1
    ensures forall i :: 0 <= i < rows - 1 ==> |G[i]| == cols
    ensures forall i, j :: 0 <= i < rows - 1 && 0 <= j < cols ==>
              cells[i, j] != null && cells[i, j].bottomRight.constraints == G[i][j] && Covers(V.Values, G[i][j])
  {
    TourCells(cells, V, rows, cols);
    G := GridLists(V, rows, cols, rows - 1);
    forall i, j | 0 <= i < rows - 1 && 0 <= j < cols ensures Covers(V.Values, G[i][j]) {
      ClosedCovers(V.Values, V[(i + 1, j + 1)]);
    }
  }

  lemma TourCovered(V: map<(int, int), Vector>, rows: nat, cols: nat)
    requires (0 < rows && 0 < cols ==> Full(V, rows, cols)) && Closed(V.Values)
    ensures Covers(V.Values, Tour(V, rows, cols))
  {
    if 0 < rows && 0 < cols {
      var g := GridLists(V, rows, cols, rows - 1);
      forall i, j | 0 <= i < |g| && 0 <= j < |g[i]| ensures Covers(V.Values, g[i][j]) {
        ClosedCovers(V.Values, V[(i + 1, j + 1)]);
      }
      JoinCovered(V.Values, g);
    }
  }

  lemma ClosedCovers(S: set<Vector>, v: Vector)
    requires Closed(S) && v in S
    ensures Covers(S, v.constraints)
  {
  }

  /** The mesh generatePoints builds is closed: its constraints join its own points. */
  lemma WiredClosed(V: map<(int, int), Vector>, rows: nat, cols: nat, cw: real, rh: real, sqrt: real -> real)
    requires Layout(V, rows, cols, cw, rh, sqrt)
    ensures Closed(V.Values)
  {
    forall v, c | v in V.Values && c in v.constraints ensures c.p1 in V.Values && c.p2 in V.Values {
      var k :| k in V && V[k] == v;
      assert Wired(V, k, sqrt);
    }
  }

  lemma {:induction false} FlattenLength(ls: seq<seq<Constraint>>)
    requires forall j :: 0 <= j < |ls| ==> |ls[j]| == 3
    ensures |Flatten(ls)| == 3 * |ls|
  {
    if ls != [] {
      FlattenLength(ls[..|ls| - 1]);
    }
  }

  lemma {:induction false} JoinLength(g: seq<seq<seq<Constraint>>>, cols: nat)
    requires forall i :: 0 <= i < |g| ==> |g[i]| == cols
    requires forall i, j :: 0 <= i < |g| && 0 <= j < cols ==> |g[i][j]| == 3
    ensures |Join(g)| == 3 * |g| * cols
  {
    if g != [] {
      JoinLength(g[..|g| - 1], cols);
      FlattenLength(g[|g| - 1]);
      MoreRows(|g|, cols);
    }
  }

  /** Resolving ab from m0 is resolving its prefix a, reaching m, then its rest b. */
  lemma ApplyStep(m0: map<Vector, Pt>, m: map<Vector, Pt>, m': map<Vector, Pt>, pinned: set<Vector>,
                  a: seq<Constraint>, b: seq<Constraint>, ab: seq<Constraint>, sqrt: real -> real)
    requires ab == a + b && Covers(m0.Keys, ab)
    requires m == Apply(m0, pinned, a, sqrt) && Covers(m.Keys, b) && m' == Apply(m, pinned, b, sqrt)
    ensures m' == Apply(m0, pinned, ab, sqrt)
  {
    ApplyConcat(m0, pinned, a, b, sqrt);
  }

  lemma MoreRows(r: int, cols: int)
    ensures 3 * (r - 1) * cols + 3 * cols == 3 * r * cols
  {
  }

  /**
   * A tick of the mesh generatePoints builds resolves 3 constraints per
   * cell of every row but the last: 3 * (rows - 1) * cols in all. Fanout
   * reads only the constraint lists, which no tick changes, so this holds
   * for every tick, not just the first.
   */
  lemma TourLength(V: map<(int, int), Vector>, rows: nat, cols: nat)
    requires (0 < rows && 0 < cols ==> Full(V, rows, cols)) && Fanout(V)
    ensures |Tour(V, rows, cols)| == if rows == 0 then 0 else 3 * (rows - 1) * cols
  {
    if 0 < rows && 0 < cols {
      var g := GridLists(V, rows, cols, rows - 1);
      forall i, j | 0 <= i < |g| && 0 <= j < cols ensures |g[i][j]| == 3 {
        assert InGrid((i + 1, j + 1), rows, cols);
      }
      JoinLength(g, cols);
    }
  }

  // ---------------------------------------------------------------------
  // What a tick does.

  /** A tick never moves a pinned point: position and previous position stay. */
  lemma TickedKeepsPinned(M: map<Vector, Motion>, pinned: set<Vector>, tour: seq<Constraint>, sqrt: real -> real,
                          movers: set<Vector>, focal: seq<Vector>, mouse: Mouse, w: real, h: real, v: Vector)
    requires Covers(M.Keys, tour) && |focal| == 4 && focal[0] in M
    requires v in M && v in pinned
    ensures Ticked(M, pinned, tour, sqrt, movers, focal, mouse, w, h)[v].pos == M[v].pos
    ensures Ticked(M, pinned, tour, sqrt, movers, focal, mouse, w, h)[v].prev == M[v].prev
  {
    ApplyKeepsPinned(PositionsOf(M), pinned, tour, sqrt, v);
  }

  /**
   * Each free mover ends with no force and its previous position where the
   * resolve pass left it; a point the update pass skips keeps its previous
   * position, and with the mouse off its force too.
   */
  lemma TickedMovers(M: map<Vector, Motion>, pinned: set<Vector>, tour: seq<Constraint>, sqrt: real -> real,
                     movers: set<Vector>, focal: seq<Vector>, mouse: Mouse, w: real, h: real, v: Vector)
    requires Covers(M.Keys, tour) && |focal| == 4 && focal[0] in M && v in M
    ensures var M' := Ticked(M, pinned, tour, sqrt, movers, focal, mouse, w, h);
            var P := Apply(PositionsOf(M), pinned, tour, sqrt);
            (v in movers && v !in pinned ==> M'[v].force == Pt(0.0, 0.0) && M'[v].prev == P[v])
            && (v !in movers ==> M'[v].pos == P[v] && M'[v].prev == M[v].prev)
            && (v !in movers && !mouse.on ==> M'[v].force == M[v].force)
  {
  }

  /**
   * The movers are exactly the vertices (i, j), 1 <= i < rows and
   * 1 <= j <= cols: the bottom-right corners of every row of cells but the
   * last.
   */
  lemma MoverKeys(V: map<(int, int), Vector>, rows: nat, cols: nat, k: (int, int))
    requires Injective(V) && k in V
    ensures V[k] in Movers(V, rows, cols) <==> Moving(k, rows, cols)
  {
    if V[k] in Movers(V, rows, cols) {
      var k' :| k' in V && Moving(k', rows, cols) && V[k'] == V[k];
    }
  }

  /**
   * A free vertex (i, j) with 1 <= i < rows and 1 <= j <= cols ends a tick
   * with no force and its previous position where the resolve pass left it.
   */
  lemma TickedFreeVertex(M: map<Vector, Motion>, pinned: set<Vector>, tour: seq<Constraint>, sqrt: real -> real,
                         V: map<(int, int), Vector>, rows: nat, cols: nat, focal: seq<Vector>, mouse: Mouse,
                         w: real, h: real, k: (int, int))
    requires Covers(M.Keys, tour) && |focal| == 4 && focal[0] in M
    requires Injective(V) && k in V && V[k] in M && Moving(k, rows, cols) && V[k] !in pinned
    ensures var M' := Ticked(M, pinned, tour, sqrt, Movers(V, rows, cols), focal, mouse, w, h);
            M'[V[k]].force == Pt(0.0, 0.0) && M'[V[k]].prev == Apply(PositionsOf(M), pinned, tour, sqrt)[V[k]]
  {
    MoverKeys(V, rows, cols, k);
    TickedMovers(M, pinned, tour, sqrt, Movers(V, rows, cols), focal, mouse, w, h, V[k]);
  }

  /** With distinct corners, each corner gets the pull exactly once and no other point gets it. */
  lemma {:induction false} PushOnce(force: Pt, v: Vector, corners: seq<Vector>, f: Pt)
    requires forall i, j :: 0 <= i < j < |corners| ==> corners[i] != corners[j]
    ensures Push(force, v, corners, f) == if v in corners then Plus(force, f) else force
    decreases |corners|
  {
    if corners != [] {
      var rest := corners[1..];
      if corners[0] == v {
        assert v !in rest by {
          forall j | 0 <= j < |rest| ensures rest[j] != v {
            assert rest[j] == corners[j + 1];
          }
        }
        PushOnce(Plus(force, f), v, rest, f);
      } else {
        PushOnce(force, v, rest, f);
        assert v in corners <==> v in rest;
      }
    }
  }

  /** The corners of a cell of the mesh are four distinct points. */
  lemma FocalDistinct(cells: array2<Polygon?>, V: map<(int, int), Vector>, rows: nat, cols: nat, r: nat, c: nat)
    requires Shape(cells, V, (rows, 0), rows, cols) && r < rows && c < cols
    ensures cells[r, c] != null
    ensures var q := CornersOf(cells[r, c]);
            forall i, j :: 0 <= i < j < |q| ==> q[i] != q[j]
  {
    Filled(cells, V, rows, cols);
  }

  // ---------------------------------------------------------------------
  // The tick, on the objects.

  /** Row r of the matrix holds the polygons whose bottom-right corners are vertices (r + 1, 1) .. (r + 1, cols). */
  ghost predicate Bottoms(cells: array2<Polygon?>, V: map<(int, int), Vector>, r: nat, cols: nat)
    reads cells
  {
    r < cells.Length0 && cols == cells.Length1
    && forall c :: 0 <= c < cols ==>
         cells[r, c] != null && (r + 1, c + 1) in V && cells[r, c].bottomRight == V[(r + 1, c + 1)]
  }

  lemma RowBottoms(cells: array2<Polygon?>, V: map<(int, int), Vector>, rows: nat, cols: nat, r: nat)
    requires Shape(cells, V, (rows, 0), rows, cols) && r < rows
    ensures Bottoms(cells, V, r, cols)
  {
    Filled(cells, V, rows, cols);
  }

  /**
   * One cell's resolveConstraints, after the constraints `done` have been
   * resolved since the positions were m0.
   */
  method ResolveCell(p: Polygon, ghost S: set<Vector>, ghost P: set<Vector>, ghost m0: map<Vector, Pt>,
                     ghost done: seq<Constraint>, sqrt: real -> real)
    requires IsSqrt(sqrt) && m0.Keys == S && Covers(S, done + Reverse(p.bottomRight.constraints))
    requires PinnedIn(S) == P && Positions(S) == Apply(m0, P, done, sqrt)
    modifies S`x, S`y
    ensures PinnedIn(S) == P && Positions(S) == Apply(m0, P, done + Reverse(p.bottomRight.constraints), sqrt)
  {
    ghost var cs := Reverse(p.bottomRight.constraints);
    ghost var m := Positions(S);
    ApplyConcat(m0, P, done, cs, sqrt);
    CoversSplit(S, done, cs);
    ReverseCovers(S, p.bottomRight.constraints);
    p.ResolveConstraints(sqrt, S);
    ApplyStep(m0, m, Positions(S), P, done, cs, done + cs, sqrt);
  }

  lemma CoversSplit(S: set<Vector>, a: seq<Constraint>, b: seq<Constraint>)
    requires Covers(S, a + b)
    ensures Covers(S, a) && Covers(S, b)
  {
    forall c | c in b ensures c.p1 in S && c.p2 in S {
      assert c in a + b;
    }
  }

  lemma ReverseCovers(S: set<Vector>, cs: seq<Constraint>)
    requires Covers(S, Reverse(cs))
    ensures Covers(S, cs)
  {
    forall c | c in cs ensures c.p1 in S && c.p2 in S {
      var i :| 0 <= i < |cs| && cs[i] == c;
      assert c == Reverse(cs)[|cs| - 1 - i];
    }
  }

  /**
   * Resolve the cells of row r, left to right; L holds their bottom-right
   * corners' constraint lists.
   */
  method ResolveRow(cells: array2<Polygon?>, r: nat, cols: nat, ghost L: seq<seq<Constraint>>, ghost S: set<Vector>,
                    sqrt: real -> real)
    requires IsSqrt(sqrt) && r < cells.Length0 && cols == cells.Length1 == |L|
    requires forall j :: 0 <= j < cols ==> cells[r, j] != null && cells[r, j].bottomRight.constraints == L[j]
    requires forall j :: 0 <= j < cols ==> Covers(S, L[j])
    modifies S`x, S`y
    ensures Covers(S, Flatten(L))
    ensures Positions(S) == Apply(old(Positions(S)), old(PinnedIn(S)), Flatten(L), sqrt)
    ensures PinnedIn(S) == old(PinnedIn(S))
  {
    ghost var m0 := Positions(S);
    ghost var P := PinnedIn(S);
    FlattenCovered(S, L);
    var c := 0;
    while c < cols
      invariant 0 <= c <= cols
      invariant Covers(S, Flatten(L[..c]))
      invariant PinnedIn(S) == P && Positions(S) == Apply(m0, P, Flatten(L[..c]), sqrt)
    {
      var p := cells[r, c];
      FlattenSnoc(L, c);
      FlattenCovered(S, L[..c + 1]);
      ResolveCell(p, S, P, m0, Flatten(L[..c]), sqrt);
      c := c + 1;
    }
    assert L[..cols] == L;
  }

  /**
   * The rows of cells the resolve pass visits, top to bottom: all but the
   * last; G holds their bottom-right corners' constraint lists.
   */
  method ResolveRows(cells: array2<Polygon?>, rows: nat, cols: nat, ghost G: seq<seq<seq<Constraint>>>,
                     ghost S: set<Vector>, sqrt: real -> real)
    requires IsSqrt(sqrt) && 0 < rows && cells.Length0 == rows && cols == cells.Length1 && |G| == rows - 1
    requires forall i :: 0 <= i < rows - 1 ==> |G[i]| == cols
    requires forall i, j :: 0 <= i < rows - 1 && 0 <= j < cols ==>
               cells[i, j] != null && cells[i, j].bottomRight.constraints == G[i][j] && Covers(S, G[i][j])
    modifies S`x, S`y
    ensures Covers(S, Join(G))
    ensures Positions(S) == Apply(old(Positions(S)), old(PinnedIn(S)), Join(G), sqrt)
    ensures PinnedIn(S) == old(PinnedIn(S))
  {
    ghost var m0 := Positions(S);
    ghost var P := PinnedIn(S);
    JoinCovered(S, G);
    ghost var done: nat := 0;
    var r := 0;
    while r < rows
      invariant 0 <= r <= rows && done == (if r < rows then r else rows - 1)
      invariant PinnedIn(S) == P && Positions(S).Keys == m0.Keys
      invariant Covers(m0.Keys, Join(G[..done]))
      invariant Positions(S) == Apply(m0, P, Join(G[..done]), sqrt)
    {
      if r != rows - 1 {
        JoinSnoc(G, r);
        JoinCovered(S, G[..r + 1]);
        ghost var m := Positions(S);
        ResolveRow(cells, r, cols, G[r], S, sqrt);
        ApplyStep(m0, m, Positions(S), P, Join(G[..r]), Flatten(G[r]), Join(G[..r + 1]), sqrt);
        done := r + 1;
      }
      r := r + 1;
    }
    assert G[..rows - 1] == G;
  }

  /** ResolveRows, stated on the points' values: only the positions change. */
  method ResolveGrid(cells: array2<Polygon?>, rows: nat, cols: nat, ghost G: seq<seq<seq<Constraint>>>,
                     ghost S: set<Vector>, sqrt: real -> real)
    requires IsSqrt(sqrt) && 0 < rows && cells.Length0 == rows && cols == cells.Length1 && |G| == rows - 1
    requires forall i :: 0 <= i < rows - 1 ==> |G[i]| == cols
    requires forall i, j :: 0 <= i < rows - 1 && 0 <= j < cols ==>
               cells[i, j] != null && cells[i, j].bottomRight.constraints == G[i][j] && Covers(S, G[i][j])
    modifies S`x, S`y
    ensures Covers(S, Join(G))
    ensures Motions(S) == Resolved(old(Motions(S)), old(PinnedIn(S)), Join(G), sqrt)
    ensures PinnedIn(S) == old(PinnedIn(S))
  {
    ghost var M := Motions(S);
    MotionsPositions(S);
    ResolveRows(cells, rows, cols, G, S, sqrt);
    MotionsPositions(S);
    assert forall v :: v in S ==> MotionOf(v).prev == M[v].prev && MotionOf(v).force == M[v].force;
    ResolvedMotions(S, M, old(PinnedIn(S)), Join(G), sqrt);
  }

  /** The resolve pass of a tick. */
  method ResolvePass(cells: array2<Polygon?>, ghost V: map<(int, int), Vector>, rows: nat, cols: nat, sqrt: real -> real)
    requires IsSqrt(sqrt) && Shape(cells, V, (rows, 0), rows, cols) && Closed(V.Values)
    modifies V.Values`x, V.Values`y
    ensures 0 < rows && 0 < cols ==> Full(V, rows, cols)
    ensures Covers(V.Values, old(Tour(V, rows, cols)))
    ensures Motions(V.Values) == Resolved(old(Motions(V.Values)), old(PinnedIn(V.Values)), old(Tour(V, rows, cols)), sqrt)
    ensures PinnedIn(V.Values) == old(PinnedIn(V.Values))
  {
    ghost var S := V.Values;
    ghost var M := Motions(S);
    TourCovered(V, rows, cols);
    if rows == 0 || cols == 0 {
      assert Tour(V, rows, cols) == [];
      MotionsPositions(S);
      ResolvedMotions(S, M, PinnedIn(S), [], sqrt);
      return;
    }
    ghost var G := PassReady(cells, V, rows, cols);
    ResolveGrid(cells, rows, cols, G, S, sqrt);
  }

  /** The points' values once their positions are resolved and nothing else has changed. */
  lemma ResolvedMotions(S: set<Vector>, M: map<Vector, Motion>, pinned: set<Vector>, tour: seq<Constraint>, sqrt: real -> real)
    requires M.Keys == S && Covers(S, tour)
    requires Positions(S) == Apply(PositionsOf(M), pinned, tour, sqrt)
    requires forall v :: v in S ==> MotionOf(v).prev == M[v].prev && MotionOf(v).force == M[v].force
    ensures Motions(S) == Resolved(M, pinned, tour, sqrt)
  {
    var P := Apply(PositionsOf(M), pinned, tour, sqrt);
    forall v | v in S ensures Motions(S)[v] == Resolved(M, pinned, tour, sqrt)[v] {
      assert Positions(S)[v] == P[v];
    }
  }

  /** Update the cells of row r, left to right. */
  method UpdateRow(cells: array2<Polygon?>, ghost V: map<(int, int), Vector>, cols: nat, r: nat)
    requires Bottoms(cells, V, r, cols) && Injective(V)
    modifies V.Values`x, V.Values`y, V.Values`px, V.Values`py, V.Values`vx, V.Values`vy
    ensures forall k :: k in V ==>
              MotionOf(V[k]) == if k.0 == r + 1 && 1 <= k.1 <= cols then Updated(old(MotionOf(V[k])), V[k].pinned, 0.175)
                                else old(MotionOf(V[k]))
  {
    var c := 0;
    while c < cols
      invariant 0 <= c <= cols
      invariant forall k :: k in V ==>
                  MotionOf(V[k]) == if k.0 == r + 1 && 1 <= k.1 <= c then Updated(old(MotionOf(V[k])), V[k].pinned, 0.175)
                                    else old(MotionOf(V[k]))
    {
      var p := cells[r, c];
      var br := p.bottomRight;
      ghost var before := MotionOf(br);
      assert before == old(MotionOf(br));
      label L:
      p.Update(0.35 / 2.0);
      assert MotionOf(br) == Updated(before, br.pinned, 0.175);
      assert forall k :: k in V && k != (r + 1, c + 1) ==> MotionOf(V[k]) == old@L(MotionOf(V[k]));
      c := c + 1;
    }
  }

  /** The update pass: every row but the last, top to bottom. */
  method UpdatePass(cells: array2<Polygon?>, ghost V: map<(int, int), Vector>, rows: nat, cols: nat)
    requires Shape(cells, V, (rows, 0), rows, cols)
    modifies V.Values`x, V.Values`y, V.Values`px, V.Values`py, V.Values`vx, V.Values`vy
    ensures Motions(V.Values) == Stepped(old(Motions(V.Values)), old(PinnedIn(V.Values)), Movers(V, rows, cols))
  {
    ghost var M := Motions(V.Values);
    ghost var P := PinnedIn(V.Values);
    forall r | 0 <= r < rows ensures Bottoms(cells, V, r, cols) {
      RowBottoms(cells, V, rows, cols, r);
    }
    assert forall k :: k in V ==> MotionOf(V[k]) == M[V[k]] && (V[k] in P <==> V[k].pinned);
    UpdateRows(cells, V, rows, cols, M, P);
  }

  /** The rows of the update pass, with M and P the points' values and pinned points when it starts. */
  method UpdateRows(cells: array2<Polygon?>, ghost V: map<(int, int), Vector>, rows: nat, cols: nat,
                    ghost M: map<Vector, Motion>, ghost P: set<Vector>)
    requires Injective(V) && M.Keys == V.Values && rows == cells.Length0
    requires forall r :: 0 <= r < rows ==> Bottoms(cells, V, r, cols)
    requires forall k :: k in V ==> MotionOf(V[k]) == M[V[k]] && (V[k] in P <==> V[k].pinned)
    modifies V.Values`x, V.Values`y, V.Values`px, V.Values`py, V.Values`vx, V.Values`vy
    ensures Motions(V.Values) == Stepped(M, P, Movers(V, rows, cols))
  {
    var r := 0;
    while r < rows
      invariant 0 <= r <= rows
      invariant forall k :: k in V ==> (V[k] in P <==> V[k].pinned)
      invariant forall k :: k in V ==>
                  MotionOf(V[k]) == if 1 <= k.0 <= r && k.0 < rows && 1 <= k.1 <= cols
                                    then Updated(M[V[k]], V[k] in P, 0.175)
                                    else M[V[k]]
    {
      if r != rows - 1 {
        UpdateRow(cells, V, cols, r);
      }
      r := r + 1;
    }
    SteppedMotions(V, rows, cols, M, P);
  }

  /** The points' values once exactly the movers have taken their Verlet step. */
  lemma SteppedMotions(V: map<(int, int), Vector>, rows: nat, cols: nat, M: map<Vector, Motion>, pinned: set<Vector>)
    requires Injective(V) && M.Keys == V.Values
    requires forall k :: k in V ==>
               MotionOf(V[k]) == if Moving(k, rows, cols) then Updated(M[V[k]], V[k] in pinned, 0.175) else M[V[k]]
    ensures Motions(V.Values) == Stepped(M, pinned, Movers(V, rows, cols))
  {
    forall v | v in V.Values ensures Motions(V.Values)[v] == Stepped(M, pinned, Movers(V, rows, cols))[v] {
      var k :| k in V && V[k] == v;
      assert v in Movers(V, rows, cols) <==> Moving(k, rows, cols);
    }
  }

  function Added(force: Pt, v: Vector, p: Vector, f: Pt): Pt {
    if p == v then Plus(force, f) else force
  }

  /** Push over four corners, one addForce at a time. */
  lemma PushFour(force: Pt, v: Vector, a: Vector, b: Vector, c: Vector, d: Vector, f: Pt)
    ensures Push(force, v, [a, b, c, d], f)
            == Added(Added(Added(Added(force, v, a, f), v, b, f), v, c, f), v, d, f)
  {
    var f1 := Added(force, v, a, f);
    var f2 := Added(f1, v, b, f);
    var f3 := Added(f2, v, c, f);
    assert [a, b, c, d][1..] == [b, c, d];
    assert Push(force, v, [a, b, c, d], f) == Push(f1, v, [b, c, d], f);
    assert [b, c, d][1..] == [c, d];
    assert Push(f1, v, [b, c, d], f) == Push(f2, v, [c, d], f);
    assert [c, d][1..] == [d];
    assert Push(f2, v, [c, d], f) == Push(f3, v, [d], f);
    assert [d][1..] == [];
  }

  /** addForce(f) on each corner of `center` in turn. */
  method PushCorners(center: Polygon, fx: real, fy: real, ghost S: set<Vector>)
    modifies center.topLeft`vx, center.topLeft`vy, center.topRight`vx, center.topRight`vy
    modifies center.bottomLeft`vx, center.bottomLeft`vy, center.bottomRight`vx, center.bottomRight`vy
    ensures forall v :: v in S ==> Pt(v.vx, v.vy) == Push(old(Pt(v.vx, v.vy)), v, CornersOf(center), Pt(fx, fy))
  {
    var f := Pt(fx, fy);
    label L0:
    center.topLeft.AddForce(fx, fy);
    assert forall v :: v in S ==> Pt(v.vx, v.vy) == Added(old@L0(Pt(v.vx, v.vy)), v, center.topLeft, f);
    label L1:
    center.topRight.AddForce(fx, fy);
    assert forall v :: v in S ==> Pt(v.vx, v.vy) == Added(old@L1(Pt(v.vx, v.vy)), v, center.topRight, f);
    label L2:
    center.bottomLeft.AddForce(fx, fy);
    assert forall v :: v in S ==> Pt(v.vx, v.vy) == Added(old@L2(Pt(v.vx, v.vy)), v, center.bottomLeft, f);
    label L3:
    center.bottomRight.AddForce(fx, fy);
    assert forall v :: v in S ==> Pt(v.vx, v.vy) == Added(old@L3(Pt(v.vx, v.vy)), v, center.bottomRight, f);
    forall v | v in S
      ensures Pt(v.vx, v.vy) == Push(old(Pt(v.vx, v.vy)), v, CornersOf(center), f)
    {
      PushFour(old(Pt(v.vx, v.vy)), v, center.topLeft, center.topRight, center.bottomLeft, center.bottomRight, f);
    }
  }

  /** The mouse's pull on the four corners of the focal cell `center`. */
  method MouseForce(center: Polygon, mouse: Mouse, w: real, h: real, ghost S: set<Vector>)
    requires forall v :: v in CornersOf(center) ==> v in S
    modifies center.topLeft`vx, center.topLeft`vy, center.topRight`vx, center.topRight`vy
    modifies center.bottomLeft`vx, center.bottomLeft`vy, center.bottomRight`vx, center.bottomRight`vy
    ensures Motions(S) == Pulled(old(Motions(S)), CornersOf(center), mouse, w, h)
    ensures PinnedIn(S) == old(PinnedIn(S))
  {
    ghost var M := Motions(S);
    if mouse.on {
      var dx := mouse.x - (center.topLeft.x / 100.0) * w;
      var dy := mouse.y - (center.topLeft.y / 100.0) * h;
      assert Pull(mouse, M[center.topLeft].pos, w, h) == Pt(dx * 0.35, dy * 0.35);
      PushCorners(center, dx * 0.35, dy * 0.35, S);
    }
    PulledMotions(S, M, CornersOf(center), mouse, w, h);
  }

  /** The points' values once the focal corners have been pushed and nothing else has changed. */
  lemma PulledMotions(S: set<Vector>, M: map<Vector, Motion>, focal: seq<Vector>, mouse: Mouse, w: real, h: real)
    requires M.Keys == S && |focal| == 4 && focal[0] in S
    requires forall v :: v in S ==>
               MotionOf(v).pos == M[v].pos && MotionOf(v).prev == M[v].prev
               && MotionOf(v).force == if mouse.on then Push(M[v].force, v, focal, Pull(mouse, M[focal[0]].pos, w, h))
                                       else M[v].force
    ensures Motions(S) == Pulled(M, focal, mouse, w, h)
  {
  }

  /**
   * theLoop without the renderer call. `center` is the focal cell, whose
   * corners are points of the mesh; the mouse and the view size w x h are
   * the listeners' state.
   */
  method Tick(cells: array2<Polygon?>, ghost V: map<(int, int), Vector>, rows: nat, cols: nat,
              center: Polygon, mouse: Mouse, w: real, h: real, sqrt: real -> real)
    requires IsSqrt(sqrt) && Shape(cells, V, (rows, 0), rows, cols) && Closed(V.Values)
    requires forall v :: v in CornersOf(center) ==> v in V.Values
    modifies V.Values`x, V.Values`y, V.Values`px, V.Values`py, V.Values`vx, V.Values`vy
    ensures 0 < rows && 0 < cols ==> Full(V, rows, cols)
    ensures Covers(V.Values, old(Tour(V, rows, cols)))
    ensures Motions(V.Values) == Ticked(old(Motions(V.Values)), old(PinnedIn(V.Values)), old(Tour(V, rows, cols)), sqrt,
                                        Movers(V, rows, cols), CornersOf(center), mouse, w, h)
  {
    ghost var S := V.Values;
    ghost var P := PinnedIn(S);
    ResolvePass(cells, V, rows, cols, sqrt);
    MouseForce(center, mouse, w, h, S);
    UpdatePass(cells, V, rows, cols);
  }

  lemma MotionsPositions(S: set<Vector>)
    ensures PositionsOf(Motions(S)) == Positions(S)
  {
  }

}
