/*
 * The mesh of app.js: polygons over a rows x cols grid of shared vertices,
 * built by generatePoints.
 *
 * Vertex (i, j), 0 <= i <= rows and 0 <= j <= cols, sits on the lattice
 * point (j * colWidth, i * rowHeight). Cell (r, c) has corners (r, c),
 * (r, c + 1), (r + 1, c) and (r + 1, c + 1). The ghost map V names each
 * vertex object by its grid key.
 */
module Mesh {
  import opened Maths
  import opened Color

  datatype Axis = X | Y

  /** jitter's offset: the first draw is the magnitude, the second the sign (above 0.5 is negative). */
  function JitterOffset(u: real, s: real, dimension: real): real {
    u * (if s > 0.5 then -1.0 else 1.0) * dimension * 0.175
  }

  /** An offset stays strictly within 0.175 of the dimension, on the side the sign draw picks. */
  lemma JitterBound(u: real, s: real, dimension: real)
    requires 0.0 <= u < 1.0 && 0.0 < dimension
    ensures -0.175 * dimension < JitterOffset(u, s, dimension) < 0.175 * dimension
    ensures s > 0.5 ==> JitterOffset(u, s, dimension) <= 0.0
    ensures s <= 0.5 ==> 0.0 <= JitterOffset(u, s, dimension)
  {
    var w := dimension * 0.175;
    ScaleBelow(u, w);
    var m := u * w;
    assert 0.0 <= m < w;
    assert u * dimension * 0.175 == m;
    assert -0.175 * dimension == -w;
    if s > 0.5 {
      assert JitterOffset(u, s, dimension) == u * -1.0 * dimension * 0.175;
      assert u * -1.0 * dimension * 0.175 == -m;
    } else {
      assert JitterOffset(u, s, dimension) == u * 1.0 * dimension * 0.175;
    }
  }

  /** jitter(point, axis, dimension): moves one coordinate by an offset drawn from rand at n, n + 1. */
  method Jitter(point: Vector, axis: Axis, dimension: real, rand: nat -> real, n: nat) returns (n': nat)
    modifies point`x, point`y
    ensures n' == n + 2
    ensures axis == X ==> point.x == old(point.x) + JitterOffset(rand(n), rand(n + 1), dimension)
                          && point.y == old(point.y)
    ensures axis == Y ==> point.y == old(point.y) + JitterOffset(rand(n), rand(n + 1), dimension)
                          && point.x == old(point.x)
  {
    var u := rand(n);
    var s := rand(n + 1);
    var o := u * (if s > 0.5 then -1.0 else 1.0) * dimension * 0.175;
    if axis == X {
      point.x := point.x + o;
    } else {
      point.y := point.y + o;
    }
    n' := n + 2;
  }

  class Polygon {
    const topLeft: Vector
    const topRight: Vector
    const bottomLeft: Vector
    const bottomRight: Vector
    const fill: Triple<real>
    const center: Vector

    /**
     * new Polygon([tl, tr, bl, br]): the fill is drawn once (one draw, at
     * n) and the center is a new vector computed from the corners' current
     * positions.
     */
    constructor (points: seq<Vector>, rand: nat -> real, n: nat)
      requires 4 <= |points|
      ensures topLeft == points[0] && topRight == points[1]
      ensures bottomLeft == points[2] && bottomRight == points[3]
      ensures fill == RandColor(Some("#15ac4f"), None, true, rand, n)
      ensures fresh(center)
      ensures center.x == points[0].x + (points[1].x - points[0].x) / 2.0
      ensures center.y == points[0].y + (points[2].y - points[0].y) / 2.0
      ensures center.px == center.x && center.py == center.y
      ensures center.vx == 0.0 && center.vy == 0.0 && !center.pinned && center.constraints == []
    {
      topLeft := points[0];
      topRight := points[1];
      bottomLeft := points[2];
      bottomRight := points[3];
      fill := RandColor(Some("#15ac4f"), None, true, rand, n);
      center := new Vector(Some(points[0].x + (points[1].x - points[0].x) / 2.0),
                           Some(points[0].y + (points[2].y - points[0].y) / 2.0));
    }

    /** update delegates to the bottom-right corner only. */
    method Update(delta: real)
      modifies bottomRight`x, bottomRight`y, bottomRight`px, bottomRight`py, bottomRight`vx, bottomRight`vy
      ensures bottomRight.pinned ==>
                bottomRight.Pos() == old(bottomRight.Pos())
                && bottomRight.px == old(bottomRight.px) && bottomRight.py == old(bottomRight.py)
                && bottomRight.vx == old(bottomRight.vx) && bottomRight.vy == old(bottomRight.vy)
      ensures !bottomRight.pinned ==>
                bottomRight.x == Verlet(old(bottomRight.x), old(bottomRight.px), old(bottomRight.vx), delta)
                && bottomRight.y == Verlet(old(bottomRight.y), old(bottomRight.py), old(bottomRight.vy), delta)
                && bottomRight.px == old(bottomRight.x) && bottomRight.py == old(bottomRight.y)
                && bottomRight.vx == 0.0 && bottomRight.vy == 0.0
    {
      bottomRight.Update(delta);
    }

    /** resolveConstraints delegates to the bottom-right corner only. */
    method ResolveConstraints(sqrt: real -> real, ghost S: set<Vector>)
      requires IsSqrt(sqrt) && Covers(S, bottomRight.constraints)
      modifies S`x, S`y
      ensures Positions(S) == Apply(old(Positions(S)), old(PinnedIn(S)), Reverse(bottomRight.constraints), sqrt)
      ensures PinnedIn(S) == old(PinnedIn(S))
    {
      bottomRight.ResolveConstraints(sqrt, S);
    }
  }

  /** matrix2d(rows, cols): a rows x cols matrix with no cell filled yet. */
  method Matrix2d(rows: nat, cols: nat) returns (m: array2<Polygon?>)
    ensures fresh(m) && m.Length0 == rows && m.Length1 == cols
    ensures forall i, j :: 0 <= i < rows && 0 <= j < cols ==> m[i, j] == null
  {
    m := new Polygon?[rows, cols]((_, _) => null);
  }

  // ---------------------------------------------------------------------
  // The state generatePoints builds, cell by cell in row-major order.

  /** Cell a comes before cell b in row-major order. */
  predicate Before(a: (int, int), b: (int, int)) {
    a.0 < b.0 || (a.0 == b.0 && a.1 < b.1)
  }

  /** The cell whose iteration creates vertex k. */
  function Creator(k: (int, int)): (int, int) {
    (if k.0 == 0 then 0 else k.0 - 1, if k.1 == 0 then 0 else k.1 - 1)
  }

  predicate InGrid(k: (int, int), rows: nat, cols: nat) {
    0 <= k.0 <= rows && 0 <= k.1 <= cols
  }

  /** The vertices that the cells before `next` have created. */
  predicate Created(k: (int, int), next: (int, int), rows: nat, cols: nat) {
    InGrid(k, rows, cols) && Creator(k).0 < rows && Creator(k).1 < cols && Before(Creator(k), next)
  }

  predicate Injective(V: map<(int, int), Vector>) {
    forall a, b :: a in V && b in V && V[a] == V[b] ==> a == b
  }

  /** A coordinate on its lattice line when fixed, else within 0.175 of a spacing of it. */
  predicate Near(a: real, lattice: real, fixed: bool, spacing: real) {
    if fixed then a == lattice else lattice - 0.175 * spacing < a < lattice + 0.175 * spacing
  }

  /**
   * The lattice line i along one axis, i * spacing, written as repeated
   * addition so that the solver only unfolds it where a proof asks.
   */
  function Lattice(i: int, spacing: real): real
    decreases if i < 0 then -i else i
  {
    if i == 0 then 0.0
    else if i > 0 then Lattice(i - 1, spacing) + spacing
    else Lattice(i + 1, spacing) - spacing
  }

  lemma {:induction false} LatticeIsProduct(i: int, spacing: real)
    ensures Lattice(i, spacing) == i as real * spacing
    decreases if i < 0 then -i else i
  {
    if i > 0 {
      LatticeIsProduct(i - 1, spacing);
    } else if i < 0 {
      LatticeIsProduct(i + 1, spacing);
    }
  }

  /** A vertex at rest on lattice point k: where it was, with no force. */
  predicate Resting(v: Vector, k: (int, int), cw: real, rh: real)
    reads v`x, v`y, v`px, v`py, v`vx, v`vy
  {
    v.x == v.px == Lattice(k.1, cw) && v.y == v.py == Lattice(k.0, rh) && v.vx == 0.0 && v.vy == 0.0
  }

  /** A vertex as `new vector` leaves it at lattice point k. */
  predicate AtLattice(v: Vector, k: (int, int), cw: real, rh: real)
    reads v
  {
    Resting(v, k, cw, rh) && !v.pinned && v.constraints == []
  }

  predicate OnBorder(k: (int, int), rows: nat, cols: nat) {
    k.0 == 0 || k.0 == rows || k.1 == 0 || k.1 == cols
  }

  /** Vertex k is pinned exactly when it lies on the border. */
  predicate PinnedOnBorder(v: Vector, k: (int, int), rows: nat, cols: nat)
    reads v`pinned
  {
    v.pinned == OnBorder(k, rows, cols)
  }

  /**
   * Vertex k as generatePoints leaves it: its previous position on the
   * lattice, no force, and its position jittered off the lattice along
   * every coordinate not fixed by the border.
   */
  predicate Placed(v: Vector, k: (int, int), rows: nat, cols: nat, cw: real, rh: real)
    reads v`x, v`y, v`px, v`py, v`vx, v`vy
  {
    v.px == Lattice(k.1, cw) && v.py == Lattice(k.0, rh)
    && v.vx == 0.0 && v.vy == 0.0
    && Near(v.x, v.px, k.1 == 0 || k.1 == cols, cw)
    && Near(v.y, v.py, k.0 == 0 || k.0 == rows, rh)
  }

  /**
   * The constraints of vertex k: none on the top row and the left column,
   * else three, from k to its upper-left, left and upper neighbours in that
   * order, each at the current distance.
   */
  ghost predicate Wired(V: map<(int, int), Vector>, k: (int, int), sqrt: real -> real)
    reads V.Values`constraints, V.Values`x, V.Values`y
  {
    k in V
    && var cs := V[k].constraints;
       if k.0 == 0 || k.1 == 0 then cs == []
       else
         var a, b, c := (k.0 - 1, k.1 - 1), (k.0, k.1 - 1), (k.0 - 1, k.1);
         a in V && b in V && c in V && |cs| == 3
         && Binds(cs[0], V[k], V[a], sqrt) && Binds(cs[1], V[k], V[b], sqrt) && Binds(cs[2], V[k], V[c], sqrt)
  }

  /** A fill randColor("#15ac4f", null, true) can give: the base green (21, 172, 79) shifted by a whole 0..19. */
  predicate Tinted(fill: Triple<real>) {
    var d := fill.r - 21.0;
    fill == Triple(21.0 + d, 172.0 + d, 79.0 + d) && 0.0 <= d < 20.0 && d == d.Floor as real
  }

  /** Polygon p is cell (r, c)'s: its corners are the cell's vertices and its fill a shade of the base green. */
  ghost predicate Framed(p: Polygon?, V: map<(int, int), Vector>, r: int, c: int) {
    p != null && (r, c) in V && (r, c + 1) in V && (r + 1, c) in V && (r + 1, c + 1) in V
    && p.topLeft == V[(r, c)] && p.topRight == V[(r, c + 1)]
    && p.bottomLeft == V[(r + 1, c)] && p.bottomRight == V[(r + 1, c + 1)]
    && Tinted(p.fill)
  }

  /** Which vertices and polygons exist once the cells before `next` are built, and how they are shared. */
  ghost predicate Shape(cells: array2<Polygon?>, V: map<(int, int), Vector>, next: (int, int), rows: nat, cols: nat)
    reads cells
  {
    cells.Length0 == rows && cells.Length1 == cols
    && (forall k :: k in V <==> Created(k, next, rows, cols))
    && Injective(V)
    && (forall r, c {:trigger cells[r, c]} ::
          0 <= r < rows && 0 <= c < cols && Before((r, c), next) ==> Framed(cells[r, c], V, r, c))
  }

  /** Every vertex of V is pinned exactly when it is on the border. */
  ghost predicate Pins(V: map<(int, int), Vector>, rows: nat, cols: nat)
    reads V.Values`pinned
  {
    forall k :: k in V ==> PinnedOnBorder(V[k], k, rows, cols)
  }

  /** Every vertex of V is placed and wired as generatePoints leaves it. */
  ghost predicate Layout(V: map<(int, int), Vector>, rows: nat, cols: nat, cw: real, rh: real, sqrt: real -> real)
    reads V.Values`x, V.Values`y, V.Values`px, V.Values`py, V.Values`vx, V.Values`vy, V.Values`constraints
  {
    forall k {:trigger Placed(V[k], k, rows, cols, cw, rh)} {:trigger Wired(V, k, sqrt)} ::
      k in V ==> Placed(V[k], k, rows, cols, cw, rh) && Wired(V, k, sqrt)
  }

  /** The state of every vertex of V. */
  ghost predicate States(V: map<(int, int), Vector>, rows: nat, cols: nat, cw: real, rh: real, sqrt: real -> real)
    reads V.Values
  {
    Pins(V, rows, cols) && Layout(V, rows, cols, cw, rh, sqrt)
  }

  /** The vertices cell (r, c) creates: its bottom-right corner, and on the top row or left column the corners there. */
  predicate CreatedBy(k: (int, int), r: int, c: int) {
    k == (r + 1, c + 1) || (r == 0 && k == (0, c + 1)) || (c == 0 && k == (r + 1, 0)) || (r == 0 && c == 0 && k == (0, 0))
  }

  lemma NextCreated(k: (int, int), r: nat, c: nat, rows: nat, cols: nat)
    requires r < rows && c < cols
    ensures Created(k, (r, c + 1), rows, cols) <==> Created(k, (r, c), rows, cols) || CreatedBy(k, r, c)
    ensures CreatedBy(k, r, c) ==> !Created(k, (r, c), rows, cols)
  {
  }

  /**
   * The first half of cell (r, c)'s iteration: its four corners, taken from
   * the cells above and to the left where those exist, created otherwise.
   */
  method Corners(cells: array2<Polygon?>, ghost V: map<(int, int), Vector>, r: nat, c: nat,
                 rows: nat, cols: nat, cw: real, rh: real)
    returns (tl: Vector, tr: Vector, bl: Vector, br: Vector)
    requires r < rows && c < cols && cells.Length0 == rows && cells.Length1 == cols
    requires r > 0 ==> Framed(cells[r - 1, c], V, r - 1, c)
    requires c > 0 ==> Framed(cells[r, c - 1], V, r, c - 1)
    ensures fresh(br) && AtLattice(br, (r + 1, c + 1), cw, rh)
    ensures r == 0 ==> fresh(tr) && tr != br && AtLattice(tr, (0, c + 1), cw, rh)
    ensures r > 0 ==> (r, c + 1) in V && tr == V[(r, c + 1)]
    ensures c == 0 ==> fresh(bl) && bl != br && bl != tr && AtLattice(bl, (r + 1, 0), cw, rh)
    ensures c > 0 ==> (r + 1, c) in V && bl == V[(r + 1, c)]
    ensures r == 0 && c == 0 ==> fresh(tl) && tl != br && tl != tr && tl != bl && AtLattice(tl, (0, 0), cw, rh)
    ensures r > 0 || c > 0 ==> (r, c) in V && tl == V[(r, c)]
  {
    if r == 0 {
      tr := new Vector(Some((c + 1) as real * cw), Some(0.0));
    } else {
      tr := cells[r - 1, c].bottomRight;
    }
    if c == 0 {
      if r == 0 {
        tl := new Vector(Some(0.0), Some(0.0));
      } else {
        tl := cells[r - 1, 0].bottomLeft;
      }
      bl := new Vector(Some(0.0), Some((r + 1) as real * rh));
    } else {
      tl := cells[r, c - 1].topRight;
      bl := cells[r, c - 1].bottomRight;
    }
    br := new Vector(Some((c + 1) as real * cw), Some((r + 1) as real * rh));
    LatticeIsProduct(c + 1, cw);
    LatticeIsProduct(r + 1, rh);
  }

  /**
   * Which corners of cell (r, c) the cells before it share with it (the
   * vertices of V under their keys) and which it creates (new, and distinct
   * from the other corners).
   */
  ghost predicate Sharing(V: map<(int, int), Vector>, r: int, c: int, tl: Vector, tr: Vector, bl: Vector, br: Vector) {
    br !in V.Values
    && (r == 0 ==> tr !in V.Values && tr != br) && (r > 0 ==> (r, c + 1) in V && tr == V[(r, c + 1)])
    && (c == 0 ==> bl !in V.Values && bl != br && bl != tr) && (c > 0 ==> (r + 1, c) in V && bl == V[(r + 1, c)])
    && (r == 0 && c == 0 ==> tl !in V.Values && tl != br && tl != tr && tl != bl)
    && (r > 0 || c > 0 ==> (r, c) in V && tl == V[(r, c)])
  }

  /**
   * The corners of cell (r, c) once it has pinned, jittered and wired them:
   * the ones it created are pinned on the border and placed, and only the
   * bottom-right one has constraints, to the other three corners.
   */
  ghost predicate Dressed(r: int, c: int, rows: nat, cols: nat, cw: real, rh: real, sqrt: real -> real,
                          tl: Vector, tr: Vector, bl: Vector, br: Vector)
    reads tl, tr, bl, br
  {
    br.pinned == (c == cols - 1 || r == rows - 1) && Placed(br, (r + 1, c + 1), rows, cols, cw, rh)
    && (r == 0 ==> tr.pinned && Placed(tr, (0, c + 1), rows, cols, cw, rh) && tr.constraints == [])
    && (c == 0 ==> bl.pinned && Placed(bl, (r + 1, 0), rows, cols, cw, rh) && bl.constraints == [])
    && (r == 0 && c == 0 ==> tl.pinned && Placed(tl, (0, 0), rows, cols, cw, rh) && tl.constraints == [])
    && |br.constraints| == 3
    && Binds(br.constraints[0], br, tl, sqrt) && Binds(br.constraints[1], br, bl, sqrt)
    && Binds(br.constraints[2], br, tr, sqrt)
  }

  /** V with the vertices cell (r, c) creates. */
  function Extend(V: map<(int, int), Vector>, r: int, c: int, tl: Vector, tr: Vector, bl: Vector, br: Vector)
    : map<(int, int), Vector>
  {
    var W := V[(r + 1, c + 1) := br];
    var W := if r == 0 then W[(0, c + 1) := tr] else W;
    var W := if c == 0 then W[(r + 1, 0) := bl] else W;
    if r == 0 && c == 0 then W[(0, 0) := tl] else W
  }

  /** Extending V by cell (r, c) creates exactly the keys the next cell expects, and keeps the rest. */
  lemma ExtendKeys(V: map<(int, int), Vector>, r: nat, c: nat, rows: nat, cols: nat,
                   tl: Vector, tr: Vector, bl: Vector, br: Vector)
    requires r < rows && c < cols
    requires forall k :: k in V <==> Created(k, (r, c), rows, cols)
    ensures var W := Extend(V, r, c, tl, tr, bl, br);
            (forall k :: k in W <==> Created(k, (r, c + 1), rows, cols))
            && (forall k :: k in V ==> k in W && W[k] == V[k])
            && (forall k :: k in W && k !in V ==> CreatedBy(k, r, c))
            && (r, c + 1) in W && (r + 1, c) in W && (r, c) in W && (r + 1, c + 1) in W
            && W[(r + 1, c + 1)] == br
            && (r == 0 ==> W[(0, c + 1)] == tr)
            && (c == 0 ==> W[(r + 1, 0)] == bl)
            && (r == 0 && c == 0 ==> W[(0, 0)] == tl)
  {
    var W := Extend(V, r, c, tl, tr, bl, br);
    forall k ensures k in W <==> Created(k, (r, c + 1), rows, cols) {
      NextCreated(k, r, c, rows, cols);
    }
    forall k | k in V ensures k in W && W[k] == V[k] {
      NextCreated(k, r, c, rows, cols);
    }
    assert Created((r, c + 1), (r, c + 1), rows, cols);
    assert Created((r + 1, c), (r, c + 1), rows, cols);
    assert Created((r, c), (r, c + 1), rows, cols);
  }

  lemma ExtendInjective(V: map<(int, int), Vector>, r: nat, c: nat, rows: nat, cols: nat,
                        tl: Vector, tr: Vector, bl: Vector, br: Vector)
    requires r < rows && c < cols && Injective(V)
    requires forall k :: k in V <==> Created(k, (r, c), rows, cols)
    requires Sharing(V, r, c, tl, tr, bl, br)
    ensures Injective(Extend(V, r, c, tl, tr, bl, br))
  {
    var W := Extend(V, r, c, tl, tr, bl, br);
    forall a, b | a in W && b in W && W[a] == W[b] ensures a == b {
      NextCreated(a, r, c, rows, cols);
      NextCreated(b, r, c, rows, cols);
      ExtendKeys(V, r, c, rows, cols, tl, tr, bl, br);
    }
  }

  /** V with the vertices cell (r, c) creates, described by what the next cell relies on. */
  lemma ExtendCell(V: map<(int, int), Vector>, r: nat, c: nat, rows: nat, cols: nat,
                    tl: Vector, tr: Vector, bl: Vector, br: Vector)
    returns (W: map<(int, int), Vector>)
    requires r < rows && c < cols && (forall k :: k in V <==> Created(k, (r, c), rows, cols)) && Injective(V)
    requires Sharing(V, r, c, tl, tr, bl, br)
    ensures (forall k :: k in W <==> Created(k, (r, c + 1), rows, cols)) && Injective(W)
    ensures forall k :: k in V ==> k in W && W[k] == V[k]
    ensures forall k :: k in W && k !in V ==> CreatedBy(k, r, c)
    ensures forall k :: k in W && k !in V ==>
              W[k] == br || (r == 0 && W[k] == tr) || (c == 0 && W[k] == bl) || (r == 0 && c == 0 && W[k] == tl)
    ensures (r, c) in W && (r, c + 1) in W && (r + 1, c) in W && (r + 1, c + 1) in W
    ensures W[(r, c)] == tl && W[(r, c + 1)] == tr && W[(r + 1, c)] == bl && W[(r + 1, c + 1)] == br
  {
    W := Extend(V, r, c, tl, tr, bl, br);
    ExtendKeys(V, r, c, rows, cols, tl, tr, bl, br);
    ExtendInjective(V, r, c, rows, cols, tl, tr, bl, br);
    ExtendNew(V, r, c, tl, tr, bl, br);
  }

  /** Storing cell (r, c)'s polygon over its corners takes the shape of the mesh from (r, c) to the next cell. */
  lemma ShapeStep(cells: array2<Polygon?>, V: map<(int, int), Vector>, W: map<(int, int), Vector>,
                  r: nat, c: nat, rows: nat, cols: nat)
    requires r < rows && c < cols && Shape(cells, V, (r, c), rows, cols)
    requires (forall k :: k in W <==> Created(k, (r, c + 1), rows, cols)) && Injective(W)
    requires forall k :: k in V ==> k in W && W[k] == V[k]
    requires (r, c) in W && (r, c + 1) in W && (r + 1, c) in W && (r + 1, c + 1) in W
    requires cells[r, c] != null && Tinted(cells[r, c].fill)
    requires cells[r, c].topLeft == W[(r, c)] && cells[r, c].topRight == W[(r, c + 1)]
    requires cells[r, c].bottomLeft == W[(r + 1, c)] && cells[r, c].bottomRight == W[(r + 1, c + 1)]
    ensures Shape(cells, W, (r, c + 1), rows, cols)
  {
    forall r0, c0 | 0 <= r0 < rows && 0 <= c0 < cols && Before((r0, c0), (r, c + 1))
      ensures Framed(cells[r0, c0], W, r0, c0)
    {
      if (r0, c0) != (r, c) {
        assert Before((r0, c0), (r, c));
        assert Framed(cells[r0, c0], V, r0, c0);
      }
    }
    ShapeIntro(cells, W, (r, c + 1), rows, cols);
  }

  lemma ShapeIntro(cells: array2<Polygon?>, V: map<(int, int), Vector>, next: (int, int), rows: nat, cols: nat)
    requires cells.Length0 == rows && cells.Length1 == cols
    requires (forall k :: k in V <==> Created(k, next, rows, cols)) && Injective(V)
    requires forall r, c {:trigger cells[r, c]} ::
               0 <= r < rows && 0 <= c < cols && Before((r, c), next) ==> Framed(cells[r, c], V, r, c)
    ensures Shape(cells, V, next, rows, cols)
  {
  }

  /** Wiring only looks at a vertex and its three neighbours, so it survives extending the map. */
  lemma WiredExtend(V: map<(int, int), Vector>, W: map<(int, int), Vector>, k: (int, int), sqrt: real -> real)
    requires Wired(V, k, sqrt)
    requires forall k :: k in V ==> k in W && W[k] == V[k]
    ensures Wired(W, k, sqrt)
  {
    if k.0 != 0 && k.1 != 0 {
      var a, b, c := (k.0 - 1, k.1 - 1), (k.0, k.1 - 1), (k.0 - 1, k.1);
      assert a in V && b in V && c in V;
    }
  }

  /**
   * Once cell (r, c) has pinned, jittered and wired its corners, every
   * vertex of W, which is V with the corners the cell created, is in the
   * state generatePoints leaves it in.
   */
  lemma CellStates(V: map<(int, int), Vector>, W: map<(int, int), Vector>, r: nat, c: nat, rows: nat, cols: nat,
                   cw: real, rh: real, sqrt: real -> real, tl: Vector, tr: Vector, bl: Vector, br: Vector)
    requires r < rows && c < cols
    requires forall k :: k in V ==> k in W && W[k] == V[k]
    requires forall k :: k in W && k !in V ==> CreatedBy(k, r, c)
    requires (r, c) in W && (r, c + 1) in W && (r + 1, c) in W && (r + 1, c + 1) in W
    requires W[(r, c)] == tl && W[(r, c + 1)] == tr && W[(r + 1, c)] == bl && W[(r + 1, c + 1)] == br
    requires States(V, rows, cols, cw, rh, sqrt) && Dressed(r, c, rows, cols, cw, rh, sqrt, tl, tr, bl, br)
    ensures States(W, rows, cols, cw, rh, sqrt)
  {
    forall k | k in W
      ensures PinnedOnBorder(W[k], k, rows, cols) && Placed(W[k], k, rows, cols, cw, rh) && Wired(W, k, sqrt)
    {
      if k in V {
        WiredExtend(V, W, k, sqrt);
      } else {
        assert CreatedBy(k, r, c);
      }
    }
  }

  /** The vertices cell (r, c) adds to V are corners it created. */
  lemma ExtendNew(V: map<(int, int), Vector>, r: int, c: int, tl: Vector, tr: Vector, bl: Vector, br: Vector)
    ensures var W := Extend(V, r, c, tl, tr, bl, br);
            forall k :: k in W && k !in V ==>
              W[k] == br || (r == 0 && W[k] == tr) || (c == 0 && W[k] == bl) || (r == 0 && c == 0 && W[k] == tl)
  {
  }

  /** The draws the jitters of new vertex k take: two per coordinate that is off the border. */
  function JitterDraws(k: (int, int), rows: nat, cols: nat): nat {
    (if 0 < k.0 < rows then 2 else 0) + (if 0 < k.1 < cols then 2 else 0)
  }

  /**
   * The draws the jitters of cell (r, c) take: those of the corners it
   * creates, bottom-left, top-right and bottom-right in that order (its
   * top-left corner, when new, is (0, 0) and is never jittered).
   */
  function CornerDraws(r: nat, c: nat, rows: nat, cols: nat): nat {
    (if c == 0 then JitterDraws((r + 1, 0), rows, cols) else 0)
    + (if r == 0 then JitterDraws((0, c + 1), rows, cols) else 0)
    + JitterDraws((r + 1, c + 1), rows, cols)
  }

  /** The draws cell (r, c) takes: its jitters, then its polygon's monochrome fill. */
  function CellDraws(r: nat, c: nat, rows: nat, cols: nat): nat {
    CornerDraws(r, c, rows, cols) + Draws(true)
  }

  /** The draws cells (r, 0) .. (r, c - 1) take. */
  function RowDraws(r: nat, c: nat, rows: nat, cols: nat): nat {
    if c == 0 then 0 else RowDraws(r, c - 1, rows, cols) + CellDraws(r, c - 1, rows, cols)
  }

  /** The draws rows 0 .. r - 1 of cells take. */
  function GridDraws(r: nat, rows: nat, cols: nat): nat {
    if r == 0 then 0 else GridDraws(r - 1, rows, cols) + RowDraws(r - 1, cols, rows, cols)
  }

  /**
   * The jitters generatePoints gives the new vertex k: along y unless it is
   * on the top or bottom row, then along x unless it is on the left or right
   * column (for the corners a cell creates, the same draws in the same order
   * as the source's four guarded jitter calls).
   */
  method JitterNew(v: Vector, k: (int, int), rows: nat, cols: nat, cw: real, rh: real, rand: nat -> real, n: nat,
                   ghost V: map<(int, int), Vector>, sqrt: real -> real)
    returns (n': nat)
    requires InGrid(k, rows, cols) && Resting(v, k, cw, rh)
    requires 0.0 < cw && 0.0 < rh && IsUniform(rand)
    requires v !in V.Values && States(V, rows, cols, cw, rh, sqrt)
    modifies v`x, v`y
    ensures Placed(v, k, rows, cols, cw, rh)
    ensures States(V, rows, cols, cw, rh, sqrt)
    ensures n' == n + JitterDraws(k, rows, cols)
    ensures v.y == if 0 < k.0 < rows then old(v.y) + JitterOffset(rand(n), rand(n + 1), rh) else old(v.y)
    ensures var m := n + (if 0 < k.0 < rows then 2 else 0);
            v.x == if 0 < k.1 < cols then old(v.x) + JitterOffset(rand(m), rand(m + 1), cw) else old(v.x)
  {
    n' := n;
    if 0 < k.0 < rows {
      JitterBound(rand(n'), rand(n' + 1), rh);
      n' := Jitter(v, Y, rh, rand, n');
    }
    if 0 < k.1 < cols {
      JitterBound(rand(n'), rand(n' + 1), cw);
      n' := Jitter(v, X, cw, rand, n');
    }
  }

  /** bottomRight.attach(topLeft, bottomLeft, topRight), for a bottom-right corner that is not yet in V. */
  method Wire(br: Vector, tl: Vector, bl: Vector, tr: Vector, rows: nat, cols: nat, cw: real, rh: real,
              sqrt: real -> real, ghost V: map<(int, int), Vector>)
    requires br.constraints == [] && br !in V.Values && States(V, rows, cols, cw, rh, sqrt)
    modifies br`constraints
    ensures States(V, rows, cols, cw, rh, sqrt)
    ensures |br.constraints| == 3
    ensures Binds(br.constraints[0], br, tl, sqrt) && Binds(br.constraints[1], br, bl, sqrt)
            && Binds(br.constraints[2], br, tr, sqrt)
  {
    var points := [tl, bl, tr];
    br.Attach(points, sqrt);
    assert Binds(br.constraints[0 + 0], br, points[0], sqrt);
    assert Binds(br.constraints[0 + 1], br, points[1], sqrt);
    assert Binds(br.constraints[0 + 2], br, points[2], sqrt);
  }

  /** The pins of one cell: the four `if`s that pin the outer vectors. */
  method PinCorners(tl: Vector, tr: Vector, bl: Vector, br: Vector, r: nat, c: nat, rows: nat, cols: nat)
    requires tl != tr && tl != bl && tl != br && tr != bl && tr != br && bl != br
    modifies tl`pinned, tr`pinned, bl`pinned, br`pinned
    ensures br.pinned == (old(br.pinned) || c == cols - 1 || r == rows - 1)
    ensures tr.pinned == (old(tr.pinned) || c == cols - 1 || r == 0)
    ensures bl.pinned == (old(bl.pinned) || r == rows - 1 || c == 0)
    ensures tl.pinned == (old(tl.pinned) || c == 0 || r == 0)
  {
    if c == cols - 1 {
      br.Pin();
      tr.Pin();
    }
    if r == rows - 1 {
      br.Pin();
      bl.Pin();
    }
    if c == 0 {
      bl.Pin();
      tl.Pin();
    }
    if r == 0 {
      tl.Pin();
      tr.Pin();
    }
  }

  /**
   * Pinning cell (r, c)'s corners: the shared corners it pins lie on the
   * border, so every vertex of V stays pinned exactly when it is on the
   * border.
   */
  method PinCell(tl: Vector, tr: Vector, bl: Vector, br: Vector, r: nat, c: nat, rows: nat, cols: nat,
                 ghost V: map<(int, int), Vector>, cw: real, rh: real, sqrt: real -> real)
    requires tl != tr && tl != bl && tl != br && tr != bl && tr != br && bl != br
    requires r < rows && c < cols && Injective(V) && Sharing(V, r, c, tl, tr, bl, br)
    requires States(V, rows, cols, cw, rh, sqrt)
    modifies tl`pinned, tr`pinned, bl`pinned, br`pinned
    ensures States(V, rows, cols, cw, rh, sqrt)
    ensures br.pinned == (old(br.pinned) || c == cols - 1 || r == rows - 1)
    ensures tr.pinned == (old(tr.pinned) || c == cols - 1 || r == 0)
    ensures bl.pinned == (old(bl.pinned) || r == rows - 1 || c == 0)
    ensures tl.pinned == (old(tl.pinned) || c == 0 || r == 0)
  {
    PinCorners(tl, tr, bl, br, r, c, rows, cols);
    forall k | k in V ensures PinnedOnBorder(V[k], k, rows, cols) {
      if V[k] == tl {
        assert k == (r, c);
      } else if V[k] == tr {
        assert k == (r, c + 1);
      } else if V[k] == bl {
        assert k == (r + 1, c);
      }
    }
  }

  /**
   * The rest of cell (r, c)'s work on its corners: jitter the ones it
   * created (N holds them) and attach the bottom-right corner to the other
   * three. No vertex of V moves or gains a constraint.
   */
  method Settle(tl: Vector, tr: Vector, bl: Vector, br: Vector, r: nat, c: nat, rows: nat, cols: nat,
                cw: real, rh: real, rand: nat -> real, n: nat, sqrt: real -> real,
                ghost N: set<Vector>, ghost V: map<(int, int), Vector>)
    returns (n': nat)
    requires tl != tr && tl != bl && tl != br && tr != bl && tr != br && bl != br
    requires r < rows && c < cols && 0.0 < cw && 0.0 < rh && IsUniform(rand)
    requires br in N && Resting(br, (r + 1, c + 1), cw, rh) && br.constraints == []
    requires r == 0 ==> tr in N && Resting(tr, (0, c + 1), cw, rh)
    requires c == 0 ==> bl in N && Resting(bl, (r + 1, 0), cw, rh)
    requires tl !in N && forall v :: v in N ==> v !in V.Values
    requires States(V, rows, cols, cw, rh, sqrt)
    modifies N`x, N`y, br`constraints
    ensures States(V, rows, cols, cw, rh, sqrt)
    ensures tl.x == old(tl.x) && tl.y == old(tl.y)
    ensures tl.constraints == old(tl.constraints) && tr.constraints == old(tr.constraints)
            && bl.constraints == old(bl.constraints)
    ensures Placed(br, (r + 1, c + 1), rows, cols, cw, rh)
    ensures r == 0 ==> Placed(tr, (0, c + 1), rows, cols, cw, rh)
    ensures c == 0 ==> Placed(bl, (r + 1, 0), rows, cols, cw, rh)
    ensures |br.constraints| == 3
    ensures Binds(br.constraints[0], br, tl, sqrt) && Binds(br.constraints[1], br, bl, sqrt)
            && Binds(br.constraints[2], br, tr, sqrt)
    ensures n' == n + CornerDraws(r, c, rows, cols)
  {
    n' := n;
    if c == 0 {
      n' := JitterNew(bl, (r + 1, 0), rows, cols, cw, rh, rand, n', V, sqrt);
    }
    if r == 0 {
      n' := JitterNew(tr, (0, c + 1), rows, cols, cw, rh, rand, n', V, sqrt);
    }
    n' := JitterNew(br, (r + 1, c + 1), rows, cols, cw, rh, rand, n', V, sqrt);
    Wire(br, tl, bl, tr, rows, cols, cw, rh, sqrt, V);
  }

  /** new Polygon([tl, tr, bl, br]) for a cell: its fill is a shade of the base green. */
  method NewCellPolygon(tl: Vector, tr: Vector, bl: Vector, br: Vector, rand: nat -> real, n: nat)
    returns (p: Polygon)
    requires IsUniform(rand)
    ensures fresh(p)
    ensures p.topLeft == tl && p.topRight == tr && p.bottomLeft == bl && p.bottomRight == br
    ensures p.fill == RandColor(Some("#15ac4f"), None, true, rand, n) && Tinted(p.fill)
  {
    PolygonFill(rand, n);
    p := new Polygon([tl, tr, bl, br], rand, n);
  }

  /**
   * The end of cell (r, c)'s iteration: a new Polygon over its corners,
   * stored in the matrix. The vertices and the other cells stay as they are.
   */
  method StoreCell(cells: array2<Polygon?>, ghost V: map<(int, int), Vector>, ghost V': map<(int, int), Vector>,
                   r: nat, c: nat, rows: nat, cols: nat, cw: real, rh: real, sqrt: real -> real,
                   tl: Vector, tr: Vector, bl: Vector, br: Vector, rand: nat -> real, n: nat)
    requires r < rows && c < cols && Shape(cells, V, (r, c), rows, cols) && IsUniform(rand)
    requires States(V', rows, cols, cw, rh, sqrt)
    modifies cells
    ensures Shape(cells, V, (r, c), rows, cols)
    ensures States(V', rows, cols, cw, rh, sqrt)
    ensures cells[r, c] != null && fresh(cells[r, c])
    ensures cells[r, c].topLeft == tl && cells[r, c].topRight == tr
    ensures cells[r, c].bottomLeft == bl && cells[r, c].bottomRight == br
    ensures cells[r, c].fill == RandColor(Some("#15ac4f"), None, true, rand, n) && Tinted(cells[r, c].fill)
    ensures forall i, j :: 0 <= i < cells.Length0 && 0 <= j < cells.Length1 && (i, j) != (r, c) ==>
              cells[i, j] == old(cells[i, j])
  {
    var p := NewCellPolygon(tl, tr, bl, br, rand, n);
    cells[r, c] := p;
    forall r0, c0 | 0 <= r0 < rows && 0 <= c0 < cols && Before((r0, c0), (r, c))
      ensures Framed(cells[r0, c0], V, r0, c0)
    {
      assert cells[r0, c0] == old(cells[r0, c0]);
    }
    ShapeIntro(cells, V, (r, c), rows, cols);
  }

  /**
   * The first part of cell (r, c)'s iteration: take or create its corners,
   * pin the outer ones, jitter the new ones and attach the bottom-right
   * corner to the other three.
   */
  method CellCorners(cells: array2<Polygon?>, ghost V: map<(int, int), Vector>, r: nat, c: nat,
                     rows: nat, cols: nat, cw: real, rh: real, rand: nat -> real, n: nat, sqrt: real -> real)
    returns (tl: Vector, tr: Vector, bl: Vector, br: Vector, n': nat)
    requires r < rows && c < cols && 0.0 < cw && 0.0 < rh && IsUniform(rand)
    requires cells.Length0 == rows && cells.Length1 == cols && Injective(V)
    requires r > 0 ==> Framed(cells[r - 1, c], V, r - 1, c)
    requires c > 0 ==> Framed(cells[r, c - 1], V, r, c - 1)
    requires States(V, rows, cols, cw, rh, sqrt)
    modifies V.Values`pinned
    ensures States(V, rows, cols, cw, rh, sqrt)
    ensures Sharing(V, r, c, tl, tr, bl, br) && Dressed(r, c, rows, cols, cw, rh, sqrt, tl, tr, bl, br)
    ensures fresh(br) && (r == 0 ==> fresh(tr)) && (c == 0 ==> fresh(bl)) && (r == 0 && c == 0 ==> fresh(tl))
    ensures n' == n + CornerDraws(r, c, rows, cols)
  {
    tl, tr, bl, br := CellPins(cells, V, r, c, rows, cols, cw, rh, sqrt);
    ghost var N := {br} + (if r == 0 then {tr} else {}) + (if c == 0 then {bl} else {});
    n' := Settle(tl, tr, bl, br, r, c, rows, cols, cw, rh, rand, n, sqrt, N, V);
  }

  /** Cell (r, c)'s corners, taken or created, with the outer ones pinned. */
  method CellPins(cells: array2<Polygon?>, ghost V: map<(int, int), Vector>, r: nat, c: nat,
                  rows: nat, cols: nat, cw: real, rh: real, sqrt: real -> real)
    returns (tl: Vector, tr: Vector, bl: Vector, br: Vector)
    requires r < rows && c < cols
    requires cells.Length0 == rows && cells.Length1 == cols && Injective(V)
    requires r > 0 ==> Framed(cells[r - 1, c], V, r - 1, c)
    requires c > 0 ==> Framed(cells[r, c - 1], V, r, c - 1)
    requires States(V, rows, cols, cw, rh, sqrt)
    modifies V.Values`pinned
    ensures States(V, rows, cols, cw, rh, sqrt) && Sharing(V, r, c, tl, tr, bl, br)
    ensures tl != tr && tl != bl && tl != br && tr != bl && tr != br && bl != br
    ensures br.pinned == (c == cols - 1 || r == rows - 1) && Resting(br, (r + 1, c + 1), cw, rh) && br.constraints == []
    ensures r == 0 ==> tr.pinned && Resting(tr, (0, c + 1), cw, rh) && tr.constraints == []
    ensures c == 0 ==> bl.pinned && Resting(bl, (r + 1, 0), cw, rh) && bl.constraints == []
    ensures r == 0 && c == 0 ==> tl.pinned && Placed(tl, (0, 0), rows, cols, cw, rh) && tl.constraints == []
    ensures fresh(br) && (r == 0 ==> fresh(tr)) && (c == 0 ==> fresh(bl)) && (r == 0 && c == 0 ==> fresh(tl))
  {
    if r > 0 {
      assert Before((r - 1, c), (r, c));
    }
    if c > 0 {
      assert Before((r, c - 1), (r, c));
    }
    tl, tr, bl, br := Corners(cells, V, r, c, rows, cols, cw, rh);
    assert r == 0 && c == 0 ==> Placed(tl, (0, 0), rows, cols, cw, rh);
    PinCell(tl, tr, bl, br, r, c, rows, cols, V, cw, rh, sqrt);
  }

  /**
   * Cell (r, c)'s corners, pinned, jittered and wired, and V' the map of
   * vertices once the cell has added the ones it created.
   */
  method CellVertices(cells: array2<Polygon?>, ghost V: map<(int, int), Vector>, r: nat, c: nat,
                      rows: nat, cols: nat, cw: real, rh: real, rand: nat -> real, n: nat, sqrt: real -> real)
    returns (tl: Vector, tr: Vector, bl: Vector, br: Vector, n': nat, ghost V': map<(int, int), Vector>)
    requires r < rows && c < cols && 0.0 < cw && 0.0 < rh && IsUniform(rand)
    requires cells.Length0 == rows && cells.Length1 == cols
    requires (forall k :: k in V <==> Created(k, (r, c), rows, cols)) && Injective(V)
    requires r > 0 ==> Framed(cells[r - 1, c], V, r - 1, c)
    requires c > 0 ==> Framed(cells[r, c - 1], V, r, c - 1)
    requires States(V, rows, cols, cw, rh, sqrt)
    modifies V.Values`pinned
    ensures States(V', rows, cols, cw, rh, sqrt)
    ensures (forall k :: k in V' <==> Created(k, (r, c + 1), rows, cols)) && Injective(V')
    ensures forall k :: k in V ==> k in V' && V'[k] == V[k]
    ensures forall k :: k in V' && k !in V ==> fresh(V'[k])
    ensures (r, c) in V' && (r, c + 1) in V' && (r + 1, c) in V' && (r + 1, c + 1) in V'
    ensures V'[(r, c)] == tl && V'[(r, c + 1)] == tr && V'[(r + 1, c)] == bl && V'[(r + 1, c + 1)] == br
    ensures n' == n + CornerDraws(r, c, rows, cols)
  {
    tl, tr, bl, br, n' := CellCorners(cells, V, r, c, rows, cols, cw, rh, rand, n, sqrt);
    V' := ExtendCell(V, r, c, rows, cols, tl, tr, bl, br);
    CellStates(V, V', r, c, rows, cols, cw, rh, sqrt, tl, tr, bl, br);
    forall k | k in V' && k !in V ensures fresh(V'[k]) {
      assert V'[k] == br || (r == 0 && V'[k] == tr) || (c == 0 && V'[k] == bl) || (r == 0 && c == 0 && V'[k] == tl);
    }
  }

  /**
   * One iteration of generatePoints' inner loop, for cell (r, c): its
   * corners, then a new Polygon over them stored in the matrix. V' is V
   * with the vertices this cell creates.
   */
  method BuildCell(cells: array2<Polygon?>, ghost V: map<(int, int), Vector>, r: nat, c: nat,
                   rows: nat, cols: nat, cw: real, rh: real, rand: nat -> real, n: nat, sqrt: real -> real)
    returns (n': nat, ghost V': map<(int, int), Vector>)
    requires r < rows && c < cols && 0.0 < cw && 0.0 < rh && IsUniform(rand)
    requires Shape(cells, V, (r, c), rows, cols) && States(V, rows, cols, cw, rh, sqrt)
    modifies cells, V.Values`pinned
    ensures Shape(cells, V', (r, c + 1), rows, cols) && States(V', rows, cols, cw, rh, sqrt)
    ensures forall k :: k in V ==> k in V' && V'[k] == V[k]
    ensures forall k :: k in V' && k !in V ==> fresh(V'[k])
    ensures n' == n + CellDraws(r, c, rows, cols)
  {
    if r > 0 {
      assert Before((r - 1, c), (r, c));
    }
    if c > 0 {
      assert Before((r, c - 1), (r, c));
    }
    var tl, tr, bl, br;
    tl, tr, bl, br, n', V' := CellVertices(cells, V, r, c, rows, cols, cw, rh, rand, n, sqrt);
    StoreCell(cells, V, V', r, c, rows, cols, cw, rh, sqrt, tl, tr, bl, br, rand, n');
    n' := n' + 1;
    ShapeStep(cells, V, V', r, c, rows, cols);
  }

  /** The end of row r is the start of row r + 1. */
  lemma NextRow(cells: array2<Polygon?>, V: map<(int, int), Vector>, r: nat, rows: nat, cols: nat)
    requires Shape(cells, V, (r, cols), rows, cols)
    ensures Shape(cells, V, (r + 1, 0), rows, cols)
  {
    forall k ensures Created(k, (r, cols), rows, cols) <==> Created(k, (r + 1, 0), rows, cols) {
    }
    forall r0, c0 | 0 <= r0 < rows && 0 <= c0 < cols && Before((r0, c0), (r + 1, 0))
      ensures Framed(cells[r0, c0], V, r0, c0)
    {
      assert Before((r0, c0), (r, cols));
    }
    ShapeIntro(cells, V, (r + 1, 0), rows, cols);
  }

  /**
   * One iteration of generatePoints' outer loop: the cells of row r, left
   * to right.
   */
  method BuildRow(cells: array2<Polygon?>, ghost V: map<(int, int), Vector>, r: nat,
                  rows: nat, cols: nat, cw: real, rh: real, rand: nat -> real, n: nat, sqrt: real -> real)
    returns (n': nat, ghost V': map<(int, int), Vector>)
    requires r < rows && (0 < cols ==> 0.0 < cw) && 0.0 < rh && IsUniform(rand)
    requires Shape(cells, V, (r, 0), rows, cols) && States(V, rows, cols, cw, rh, sqrt)
    modifies cells, V.Values`pinned
    ensures Shape(cells, V', (r + 1, 0), rows, cols) && States(V', rows, cols, cw, rh, sqrt)
    ensures forall k :: k in V' ==> (k in V && V'[k] == V[k]) || fresh(V'[k])
    ensures n' == n + RowDraws(r, cols, rows, cols)
  {
    n' := n;
    V' := V;
    var c := 0;
    while c < cols
      invariant 0 <= c <= cols && n' == n + RowDraws(r, c, rows, cols)
      invariant forall k :: k in V' ==> (k in V && V'[k] == V[k]) || fresh(V'[k])
      invariant Shape(cells, V', (r, c), rows, cols) && States(V', rows, cols, cw, rh, sqrt)
    {
      n', V' := BuildCell(cells, V', r, c, rows, cols, cw, rh, rand, n', sqrt);
      c := c + 1;
    }
    NextRow(cells, V', r, rows, cols);
  }

  /**
   * generatePoints(cols, rows): the rows x cols matrix of polygons, built
   * cell by cell in row-major order. Draws come from rand from n on; V
   * names every vertex of the mesh by its grid key.
   */
  method GeneratePoints(cols: nat, rows: nat, rand: nat -> real, n: nat, sqrt: real -> real)
    returns (polygons: array2<Polygon?>, n': nat, ghost V: map<(int, int), Vector>)
    requires IsUniform(rand)
    ensures fresh(polygons) && polygons.Length0 == rows && polygons.Length1 == cols
    ensures forall k :: k in V ==> fresh(V[k])
    ensures Shape(polygons, V, (rows, 0), rows, cols)
    ensures 0 < rows && 0 < cols ==> States(V, rows, cols, 100.0 / cols as real, 100.0 / rows as real, sqrt)
    ensures n' == n + GridDraws(rows, rows, cols)
  {
    polygons := Matrix2d(rows, cols);
    var rowHeight := if rows == 0 then 0.0 else 100.0 / rows as real;
    var colWidth := if cols == 0 then 0.0 else 100.0 / cols as real;
    n' := n;
    V := map[];
    ShapeIntro(polygons, V, (0, 0), rows, cols);
    var r := 0;
    while r < rows
      invariant 0 <= r <= rows && n' == n + GridDraws(r, rows, cols)
      invariant forall k :: k in V ==> fresh(V[k])
      invariant Shape(polygons, V, (r, 0), rows, cols) && States(V, rows, cols, colWidth, rowHeight, sqrt)
    {
      n', V := BuildRow(polygons, V, r, rows, cols, colWidth, rowHeight, rand, n', sqrt);
      r := r + 1;
    }
  }
}
