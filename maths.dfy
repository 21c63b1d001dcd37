/*
 * The point and constraint model of maths.js: a mutable 2-D point (`vector`)
 * with Verlet state, and a distance constraint between two points.
 *
 * Coordinates are reals. Math.sqrt is not computed: callers supply a square
 * root function `sqrt`, of which the model asks only that it return the
 * non-negative root (IsSqrt).
 */
module Maths {

  /** A position or a displacement: the value part of a vector. */
  datatype Pt = Pt(x: real, y: real)

  function Plus(a: Pt, b: Pt): Pt { Pt(a.x + b.x, a.y + b.y) }
  function Minus(a: Pt, b: Pt): Pt { Pt(a.x - b.x, a.y - b.y) }
  function Times(a: Pt, k: real): Pt { Pt(a.x * k, a.y * k) }

  /** Squared Euclidean length. */
  function SqLen(a: Pt): real { a.x * a.x + a.y * a.y }

  /** Math.sqrt as the model sees it: the non-negative square root. */
  ghost predicate IsSqrt(sqrt: real -> real) {
    forall s :: 0.0 <= s ==> IsRoot(sqrt(s), s)
  }

  /** r is the non-negative square root of s. */
  predicate IsRoot(r: real, s: real) {
    0.0 <= r && r * r == s
  }

  lemma SqLenNonNegative(a: Pt)
    ensures 0.0 <= SqLen(a)
  {
  }

  lemma RootSquared(sqrt: real -> real, s: real)
    requires IsSqrt(sqrt) && 0.0 <= s
    ensures IsRoot(sqrt(s), s)
  {
  }

  /** `x || 0`: a missing coordinate is 0. */
  function OrZero(c: Option<real>): real {
    if c.Some? then c.value else 0.0
  }

  datatype Option<T> = None | Some(value: T)

  /** Array.prototype.indexOf by reference identity. */
  function IndexOf(s: seq<object>, o: object): (k: int)
    ensures -1 <= k < |s|
    ensures k == -1 <==> o !in s
    ensures 0 <= k ==> s[k] == o && o !in s[..k]
  {
    if s == [] then -1
    else if s[0] == o then 0
    else var k := IndexOf(s[1..], o); if k == -1 then -1 else k + 1
  }

  /**
   * The guard of `attach` looks a point up in a list of constraints; a
   * vector is never a constraint, so the lookup always fails.
   */
  lemma {:induction false} PointNeverInConstraints(cs: seq<Constraint>, p: Vector)
    ensures IndexOf(cs, p) == -1
  {
    forall k | 0 <= k < |cs| ensures cs[k] as object != p as object {
    }
  }

  /** One Verlet step on one coordinate: damping 0.99, force halved and scaled by delta. */
  function Verlet(x: real, px: real, v: real, delta: real): real {
    x + (x - px) * 0.99 + (v / 2.0) * delta
  }

  /** The half-correction of Constraint.resolve for separation `sep` (p1 - p2) at distance d. */
  function Correction(sep: Pt, length: real, d: real): Pt
    requires d > 0.0
  {
    var diff := (length - d) / d;
    Pt(sep.x * diff * 0.5, sep.y * diff * 0.5)
  }

  class Vector {
    var x: real
    var y: real
    var px: real
    var py: real
    var vx: real
    var vy: real
    var pinned: bool
    var constraints: seq<Constraint>

    /** new vector(x, y); a missing coordinate is None. */
    constructor (x0: Option<real>, y0: Option<real>)
      ensures x == px == OrZero(x0) && y == py == OrZero(y0)
      ensures vx == 0.0 && vy == 0.0
      ensures !pinned && constraints == []
    {
      x, px := OrZero(x0), OrZero(x0);
      y, py := OrZero(y0), OrZero(y0);
      vx, vy := 0.0, 0.0;
      pinned := false;
      constraints := [];
    }

    function Pos(): Pt
      reads this`x, this`y
    {
      Pt(x, y)
    }

    method Pin()
      modifies this`pinned
      ensures pinned
    {
      pinned := true;
    }

    method Add(v: Vector) returns (r: Vector)
      modifies this`x, this`y
      ensures r == this
      ensures x == old(x) + old(v.x) && y == old(y) + old(v.y)
    {
      x := x + v.x;
      y := y + v.y;
      r := this;
    }

    method Sub(v: Vector) returns (r: Vector)
      modifies this`x, this`y
      ensures r == this
      ensures x == old(x) - old(v.x) && y == old(y) - old(v.y)
    {
      x := x - v.x;
      y := y - v.y;
      r := this;
    }

    method Mul(v: Vector) returns (r: Vector)
      modifies this`x, this`y
      ensures r == this
      ensures x == old(x) * old(v.x) && y == old(y) * old(v.y)
    {
      x := x * v.x;
      y := y * v.y;
      r := this;
    }

    method Scale(coef: real) returns (r: Vector)
      modifies this`x, this`y
      ensures r == this
      ensures x == old(x) * coef && y == old(y) * coef
    {
      x := x * coef;
      y := y * coef;
      r := this;
    }

    function Equals(v: Vector): (r: bool)
      reads this, v
      ensures r <==> Pos() == v.Pos()
    {
      x == v.x && y == v.y
    }

    function Dot(v: Vector): (r: real)
      reads this, v
      ensures r == v.x * x + v.y * y
    {
      x * v.x + y * v.y
    }

    /** `dist`, with Math.sqrt supplied by the caller. */
    function Dist(v: Vector, sqrt: real -> real): (d: real)
      reads this`x, this`y, v`x, v`y
      ensures IsSqrt(sqrt) ==> IsRoot(d, SqLen(Minus(v.Pos(), Pos())))
    {
      var dx := v.x - x;
      var dy := v.y - y;
      sqrt(dx * dx + dy * dy)
    }

    method AddForce(fx: real, fy: real)
      modifies this`vx, this`vy
      ensures vx == old(vx) + fx && vy == old(vy) + fy
    {
      vx := vx + fx;
      vy := vy + fy;
    }

    method Update(delta: real)
      modifies this`x, this`y, this`px, this`py, this`vx, this`vy
      ensures pinned ==> x == old(x) && y == old(y) && px == old(px) && py == old(py)
                         && vx == old(vx) && vy == old(vy)
      ensures !pinned ==> x == Verlet(old(x), old(px), old(vx), delta)
                          && y == Verlet(old(y), old(py), old(vy), delta)
                          && px == old(x) && py == old(y) && vx == 0.0 && vy == 0.0
    {
      if pinned {
        return;
      }
      var nx := x + (x - px) * 0.99 + (vx / 2.0) * delta;
      var ny := y + (y - py) * 0.99 + (vy / 2.0) * delta;
      px := x;
      py := y;
      x := nx;
      y := ny;
      vx, vy := 0.0, 0.0;
    }

    method Clone() returns (c: Vector)
      ensures fresh(c)
      ensures c.Equals(this) && c.px == x && c.py == y
      ensures c.vx == 0.0 && c.vy == 0.0 && !c.pinned && c.constraints == []
    {
      c := new Vector(Some(x), Some(y));
    }

    /**
     * attach(p1, ..., pk): one new constraint per argument, in order, each
     * registered in this point's list only. The duplicate check never
     * fires (PointNeverInConstraints).
     */
    method Attach(points: seq<Vector>, sqrt: real -> real)
      modifies this`constraints
      ensures |constraints| == |old(constraints)| + |points|
      ensures constraints[..|old(constraints)|] == old(constraints)
      ensures forall j :: |old(constraints)| <= j < |constraints| ==> fresh(constraints[j])
      ensures forall k :: 0 <= k < |points| ==> Binds(constraints[|old(constraints)| + k], this, points[k], sqrt)
    {
      var i := 0;
      while i < |points|
        invariant 0 <= i <= |points|
        invariant |constraints| == |old(constraints)| + i
        invariant constraints[..|old(constraints)|] == old(constraints)
        invariant forall j :: |old(constraints)| <= j < |constraints| ==> fresh(constraints[j])
        invariant forall k :: 0 <= k < i ==> Binds(constraints[|old(constraints)| + k], this, points[k], sqrt)
      {
        var point := points[i];
        PointNeverInConstraints(constraints, point);
        if IndexOf(constraints, point) == -1 {
          var c := new Constraint(this, point, sqrt);
          constraints := constraints + [c];
        }
        i := i + 1;
      }
    }

    /**
     * resolveConstraints: resolves every constraint of the list once, last
     * to first. S is any set of points holding every endpoint; the
     * positions of S end as Apply, the value-level model, says.
     */
    method ResolveConstraints(sqrt: real -> real, ghost S: set<Vector>)
      requires IsSqrt(sqrt) && Covers(S, constraints)
      modifies S`x, S`y
      ensures Positions(S) == Apply(old(Positions(S)), old(PinnedIn(S)), Reverse(constraints), sqrt)
      ensures PinnedIn(S) == old(PinnedIn(S))
    {
      ghost var P := PinnedIn(S);
      ghost var m0 := Positions(S);
      var cs := constraints;
      var i := |cs|;
      assert cs[..i] == cs;
      while i > 0
        invariant 0 <= i <= |cs|
        invariant PinnedIn(S) == P && Positions(S).Keys == m0.Keys
        invariant Apply(m0, P, Reverse(cs), sqrt) == Apply(Positions(S), P, Reverse(cs[..i]), sqrt)
      {
        i := i - 1;
        var c := cs[i];
        ghost var m := Positions(S);
        c.ResolveChecked(sqrt, S);
        ResolveLoopStep(m0, m, Positions(S), P, cs, i, sqrt);
      }
      assert cs[..0] == [];
    }
  }

  /** add(v) followed by sub(v): the point is back where it was, unless v is the point itself. */
  method AddThenSub(u: Vector, v: Vector)
    modifies u`x, u`y
    ensures u != v ==> u.Pos() == old(u.Pos())
    ensures u == v ==> u.Pos() == Pt(0.0, 0.0)
  {
    var _ := u.Add(v);
    var _ := u.Sub(v);
  }

  /** c binds p to q at their distance. */
  ghost predicate Binds(c: Constraint, p: Vector, q: Vector, sqrt: real -> real)
    reads p`x, p`y, q`x, q`y
  {
    c.p1 == p && c.p2 == q && c.length == p.Dist(q, sqrt)
  }

  class Constraint {
    const p1: Vector
    const p2: Vector
    const length: real

    constructor (p1: Vector, p2: Vector, sqrt: real -> real)
      ensures this.p1 == p1 && this.p2 == p2 && length == p1.Dist(p2, sqrt)
    {
      this.p1 := p1;
      this.p2 := p2;
      length := p1.Dist(p2, sqrt);
    }

    /**
     * resolve: moves p1 by the half-correction and p2 by its opposite,
     * skipping a pinned end. d is the current distance (d > 0).
     */
    method Resolve(d: real)
      requires 0.0 < d && IsRoot(d, SqLen(Minus(p1.Pos(), p2.Pos())))
      modifies p1`x, p1`y, p2`x, p2`y
      ensures var k := Correction(Minus(old(p1.Pos()), old(p2.Pos())), length, d);
              p1.Pos() == (if p1.pinned then old(p1.Pos()) else Plus(old(p1.Pos()), k))
              && p2.Pos() == (if p2.pinned then old(p2.Pos()) else Minus(old(p2.Pos()), k))
    {
      var k := Correction(Minus(p1.Pos(), p2.Pos()), length, d);
      if !p1.pinned {
        p1.x := p1.x + k.x;
        p1.y := p1.y + k.y;
      }
      if !p2.pinned {
        p2.x := p2.x - k.x;
        p2.y := p2.y - k.y;
      }
    }

    /**
     * The call made by resolveConstraints: Resolve with the distance taken
     * from `sqrt`. Where the ends coincide the source divides by zero; the
     * model leaves both ends where they are.
     */
    method ResolveChecked(sqrt: real -> real, ghost S: set<Vector>)
      requires IsSqrt(sqrt) && p1 in S && p2 in S
      modifies S`x, S`y
      ensures Positions(S) == Step(old(Positions(S)), PinnedIn(S), this, sqrt)
    {
      ghost var m := Positions(S);
      var d := sqrt(SqLen(Minus(p1.Pos(), p2.Pos())));
      if d > 0.0 {
        RootSquared(sqrt, SqLen(Minus(p1.Pos(), p2.Pos())));
        Resolve(d);
        ResolvedStep(m, Positions(S), PinnedIn(S), this, sqrt, d);
      }
    }
  }

  // ---------------------------------------------------------------------
  // Value-level model of constraint resolution over many points.

  ghost predicate Covers(S: set<Vector>, cs: seq<Constraint>) {
    forall c :: c in cs ==> c.p1 in S && c.p2 in S
  }

  ghost function Positions(S: set<Vector>): (m: map<Vector, Pt>)
    reads S`x, S`y
    ensures m.Keys == S
  {
    map v | v in S :: v.Pos()
  }

  ghost function PinnedIn(S: set<Vector>): set<Vector>
    reads S`pinned
  {
    set v | v in S && v.pinned
  }

  /**
   * One resolve as ResolveConstraints performs it: a constraint whose ends
   * coincide is skipped (the source divides by zero there).
   */
  ghost function Step(m: map<Vector, Pt>, pinned: set<Vector>, c: Constraint, sqrt: real -> real): (m': map<Vector, Pt>)
    requires c.p1 in m && c.p2 in m
    ensures m'.Keys == m.Keys
  {
    var a := m[c.p1];
    var b := m[c.p2];
    var d := sqrt(SqLen(Minus(a, b)));
    if d <= 0.0 then m
    else
      var k := Correction(Minus(a, b), c.length, d);
      var m1 := if c.p1 in pinned then m else m[c.p1 := Plus(a, k)];
      if c.p2 in pinned then m1 else m1[c.p2 := Minus(b, k)]
  }

  /** Constraint.Resolve, seen on the positions of a set of points, is one Step. */
  lemma ResolvedStep(m: map<Vector, Pt>, m': map<Vector, Pt>, pinned: set<Vector>, c: Constraint,
                     sqrt: real -> real, d: real)
    requires c.p1 in m && c.p2 in m && m'.Keys == m.Keys
    requires 0.0 < d && d == sqrt(SqLen(Minus(m[c.p1], m[c.p2])))
    requires forall v :: v in m && v != c.p1 && v != c.p2 ==> m'[v] == m[v]
    requires var k := Correction(Minus(m[c.p1], m[c.p2]), c.length, d);
             m'[c.p1] == (if c.p1 in pinned then m[c.p1] else Plus(m[c.p1], k))
             && m'[c.p2] == (if c.p2 in pinned then m[c.p2] else Minus(m[c.p2], k))
    ensures m' == Step(m, pinned, c, sqrt)
  {
  }

  /** The invariant step of ResolveConstraints' loop: cs[i] is resolved next. */
  lemma ResolveLoopStep(m0: map<Vector, Pt>, m: map<Vector, Pt>, m': map<Vector, Pt>, pinned: set<Vector>,
                        cs: seq<Constraint>, i: nat, sqrt: real -> real)
    requires i < |cs| && Covers(m0.Keys, cs) && m.Keys == m0.Keys
    requires Apply(m0, pinned, Reverse(cs), sqrt) == Apply(m, pinned, Reverse(cs[..i + 1]), sqrt)
    requires m' == Step(m, pinned, cs[i], sqrt)
    ensures Apply(m0, pinned, Reverse(cs), sqrt) == Apply(m', pinned, Reverse(cs[..i]), sqrt)
  {
    var rest := Reverse(cs[..i]);
    assert cs[..i + 1][..i] == cs[..i];
    assert Reverse(cs[..i + 1]) == [cs[i]] + rest;
    assert ([cs[i]] + rest)[1..] == rest;
  }

  /** Resolve the constraints of cs in order, first to last. */
  ghost function Apply(m: map<Vector, Pt>, pinned: set<Vector>, cs: seq<Constraint>, sqrt: real -> real): (m': map<Vector, Pt>)
    requires Covers(m.Keys, cs)
    ensures m'.Keys == m.Keys
    decreases |cs|
  {
    if cs == [] then m
    else Apply(Step(m, pinned, cs[0], sqrt), pinned, cs[1..], sqrt)
  }

  function Reverse<T>(s: seq<T>): (r: seq<T>)
    ensures |r| == |s|
    ensures forall i :: 0 <= i < |s| ==> r[i] == s[|s| - 1 - i]
  {
    if s == [] then [] else [s[|s| - 1]] + Reverse(s[..|s| - 1])
  }

  // ---------------------------------------------------------------------
  // What one resolve achieves, and what repeating it achieves.

  lemma RootUnique(r: real, q: real, s: real)
    requires IsRoot(r, s) && IsRoot(q, s)
    ensures r == q
  {
    if r < q {
      SquareBelow(r, q);
    } else if q < r {
      SquareBelow(q, r);
    }
  }

  lemma SquareBelow(a: real, b: real)
    requires 0.0 <= a < b
    ensures a * a < b * b
  {
    MulPos(b - a, b + a);
    assert b * b - a * a == (b - a) * (b + a);
  }

  lemma MulPos(x: real, y: real)
    requires 0.0 < x && 0.0 < y
    ensures 0.0 < x * y
  {
  }

  lemma Cancel(a: real, b: real, k: real)
    requires k != 0.0 && a * k == b * k
    ensures a == b
  {
    assert a == (a * k) / k;
    assert b == (b * k) / k;
  }

  lemma SqLenTimes(a: Pt, t: real)
    ensures SqLen(Times(a, t)) == t * t * SqLen(a)
  {
  }

  lemma OnePlusDiff(L: real, d: real)
    requires d != 0.0
    ensures 1.0 + (L - d) / d == L / d
  {
    assert (L - d) / d == L / d - d / d;
  }

  lemma RatioSquared(L: real, d: real, s: real)
    requires d != 0.0 && d * d == s
    ensures (L / d) * (L / d) * s == L * L
  {
  }

  /**
   * Both ends free: one resolve keeps the midpoint (the sum of the ends),
   * scales the separation by length/d and so leaves the ends exactly at the
   * rest length.
   */
  lemma ResolveBothFree(m: map<Vector, Pt>, pinned: set<Vector>, c: Constraint, sqrt: real -> real)
    requires IsSqrt(sqrt) && c.p1 in m && c.p2 in m && c.p1 != c.p2
    requires c.p1 !in pinned && c.p2 !in pinned && 0.0 <= c.length
    requires 0.0 < sqrt(SqLen(Minus(m[c.p1], m[c.p2])))
    ensures var m' := Step(m, pinned, c, sqrt);
            var d := sqrt(SqLen(Minus(m[c.p1], m[c.p2])));
            Plus(m'[c.p1], m'[c.p2]) == Plus(m[c.p1], m[c.p2])
            && Minus(m'[c.p1], m'[c.p2]) == Times(Minus(m[c.p1], m[c.p2]), c.length / d)
            && IsRoot(c.length, SqLen(Minus(m'[c.p1], m'[c.p2])))
  {
    var sep := Minus(m[c.p1], m[c.p2]);
    var d := sqrt(SqLen(sep));
    RootSquared(sqrt, SqLen(sep));
    var diff := (c.length - d) / d;
    var m' := Step(m, pinned, c, sqrt);
    var sep' := Minus(m'[c.p1], m'[c.p2]);
    assert sep' == Pt(sep.x * (1.0 + diff), sep.y * (1.0 + diff));
    OnePlusDiff(c.length, d);
    assert sep' == Times(sep, c.length / d);
    SqLenTimes(sep, c.length / d);
    RatioSquared(c.length, d, SqLen(sep));
  }

  lemma HalfWay(L: real, d: real, s: real)
    requires 0.0 < d && d * d == s && 0.0 <= L
    ensures 1.0 + (L - d) / d * 0.5 == (d + L) / (2.0 * d)
    ensures ((d + L) / (2.0 * d)) * ((d + L) / (2.0 * d)) * s == ((d + L) / 2.0) * ((d + L) / 2.0)
  {
    var t := (d + L) / (2.0 * d);
    OnePlusDiff(L, d);
    assert t * (2.0 * d) == d + L;
    assert (L / d) * d == L;
    assert (0.5 + L / d * 0.5) * (2.0 * d) == d + L;
    Cancel(t, 0.5 + L / d * 0.5, 2.0 * d);
    assert t * d == (d + L) / 2.0;
    assert t * t * s == (t * d) * (t * d);
  }

  /**
   * Exactly one end pinned: one resolve moves the free end half-way to the
   * rest length, leaving the ends (d + length)/2 apart.
   */
  lemma ResolveOnePinned(m: map<Vector, Pt>, pinned: set<Vector>, c: Constraint, sqrt: real -> real)
    requires IsSqrt(sqrt) && c.p1 in m && c.p2 in m && c.p1 != c.p2
    requires (c.p1 in pinned) != (c.p2 in pinned) && 0.0 <= c.length
    requires 0.0 < sqrt(SqLen(Minus(m[c.p1], m[c.p2])))
    ensures var m' := Step(m, pinned, c, sqrt);
            var d := sqrt(SqLen(Minus(m[c.p1], m[c.p2])));
            Minus(m'[c.p1], m'[c.p2]) == Times(Minus(m[c.p1], m[c.p2]), (d + c.length) / (2.0 * d))
            && IsRoot((d + c.length) / 2.0, SqLen(Minus(m'[c.p1], m'[c.p2])))
  {
    var sep := Minus(m[c.p1], m[c.p2]);
    var d := sqrt(SqLen(sep));
    RootSquared(sqrt, SqLen(sep));
    var m' := Step(m, pinned, c, sqrt);
    var sep' := Minus(m'[c.p1], m'[c.p2]);
    OnePinnedGap(m, pinned, c, sqrt);
    HalfWay(c.length, d, SqLen(sep));
    assert sep' == Times(sep, (d + c.length) / (2.0 * d));
    SqLenTimes(sep, (d + c.length) / (2.0 * d));
  }

  /** With one end pinned, one Step scales the separation by 1 + diff / 2. */
  lemma OnePinnedGap(m: map<Vector, Pt>, pinned: set<Vector>, c: Constraint, sqrt: real -> real)
    requires c.p1 in m && c.p2 in m && c.p1 != c.p2 && (c.p1 in pinned) != (c.p2 in pinned)
    requires 0.0 < sqrt(SqLen(Minus(m[c.p1], m[c.p2])))
    ensures var sep := Minus(m[c.p1], m[c.p2]);
            var t := 1.0 + (c.length - sqrt(SqLen(sep))) / sqrt(SqLen(sep)) * 0.5;
            var m' := Step(m, pinned, c, sqrt);
            Minus(m'[c.p1], m'[c.p2]) == Pt(sep.x * t, sep.y * t)
  {
    var a, b := m[c.p1], m[c.p2];
    var sep := Minus(a, b);
    var d := sqrt(SqLen(sep));
    var k := Correction(sep, c.length, d);
    var diff := (c.length - d) / d;
    var m' := Step(m, pinned, c, sqrt);
    if c.p1 in pinned {
      assert m'[c.p1] == a && m'[c.p2] == Minus(b, k);
    } else {
      assert m'[c.p1] == Plus(a, k) && m'[c.p2] == b;
    }
    assert Minus(m'[c.p1], m'[c.p2]) == Plus(sep, k);
    assert sep.x + sep.x * diff * 0.5 == sep.x * (1.0 + diff * 0.5);
    assert sep.y + sep.y * diff * 0.5 == sep.y * (1.0 + diff * 0.5);
  }

  /** n resolves of the same constraint in a row. */
  ghost function Relax(m: map<Vector, Pt>, pinned: set<Vector>, c: Constraint, sqrt: real -> real, n: nat): (m': map<Vector, Pt>)
    requires c.p1 in m && c.p2 in m
    ensures m'.Keys == m.Keys
  {
    if n == 0 then m else Relax(Step(m, pinned, c, sqrt), pinned, c, sqrt, n - 1)
  }

  function Pow(b: real, n: nat): (p: real)
    ensures 0.0 < b ==> 0.0 < p
  {
    if n == 0 then 1.0 else b * Pow(b, n - 1)
  }

  lemma HalveGap(L: real, d0: real, p: real)
    requires 0.0 < p
    ensures L + ((d0 + L) / 2.0 - L) / p == L + (d0 - L) / (2.0 * p)
  {
    assert ((d0 + L) / 2.0 - L) == (d0 - L) / 2.0;
    Cancel(((d0 - L) / 2.0) / p, (d0 - L) / (2.0 * p), 2.0 * p);
  }

  /**
   * Resolving a constraint with one pinned end again and again halves the
   * gap to the rest length each time: after n resolves the ends are
   * length + (d0 - length)/2^n apart.
   */
  lemma {:induction false} RelaxOnePinned(m: map<Vector, Pt>, pinned: set<Vector>, c: Constraint, sqrt: real -> real, n: nat)
    requires IsSqrt(sqrt) && c.p1 in m && c.p2 in m && c.p1 != c.p2
    requires (c.p1 in pinned) != (c.p2 in pinned) && 0.0 <= c.length
    requires 0.0 < sqrt(SqLen(Minus(m[c.p1], m[c.p2])))
    ensures var d0 := sqrt(SqLen(Minus(m[c.p1], m[c.p2])));
            var m' := Relax(m, pinned, c, sqrt, n);
            IsRoot(c.length + (d0 - c.length) / Pow(2.0, n), SqLen(Minus(m'[c.p1], m'[c.p2])))
  {
    var d0 := sqrt(SqLen(Minus(m[c.p1], m[c.p2])));
    RootSquared(sqrt, SqLen(Minus(m[c.p1], m[c.p2])));
    if n == 0 {
      assert c.length + (d0 - c.length) / 1.0 == d0;
    } else {
      var m1 := Step(m, pinned, c, sqrt);
      ResolveOnePinned(m, pinned, c, sqrt);
      var s1 := SqLen(Minus(m1[c.p1], m1[c.p2]));
      var d1 := (d0 + c.length) / 2.0;
      assert IsRoot(d1, s1);
      RootSquared(sqrt, s1);
      RootUnique(sqrt(s1), d1, s1);
      RelaxOnePinned(m1, pinned, c, sqrt, n - 1);
      HalveGap(c.length, d0, Pow(2.0, n - 1));
    }
  }

  /** Apply never moves a pinned point. */
  lemma {:induction false} ApplyKeepsPinned(m: map<Vector, Pt>, pinned: set<Vector>, cs: seq<Constraint>, sqrt: real -> real, v: Vector)
    requires Covers(m.Keys, cs) && v in m && v in pinned
    ensures Apply(m, pinned, cs, sqrt)[v] == m[v]
    decreases |cs|
  {
    if cs != [] {
      ApplyKeepsPinned(Step(m, pinned, cs[0], sqrt), pinned, cs[1..], sqrt, v);
    }
  }

  /** Resolving a + b is resolving a, then b. */
  lemma {:induction false} ApplyConcat(m: map<Vector, Pt>, pinned: set<Vector>, a: seq<Constraint>, b: seq<Constraint>, sqrt: real -> real)
    requires Covers(m.Keys, a + b)
    ensures Covers(m.Keys, a) && Covers(m.Keys, b)
    ensures Apply(m, pinned, a + b, sqrt) == Apply(Apply(m, pinned, a, sqrt), pinned, b, sqrt)
    decreases |a|
  {
    assert forall c :: c in a ==> c in a + b;
    assert forall c :: c in b ==> c in a + b;
    if a == [] {
      assert a + b == b;
    } else {
      assert (a + b)[0] == a[0];
      assert (a + b)[1..] == a[1..] + b;
      ApplyConcat(Step(m, pinned, a[0], sqrt), pinned, a[1..], b, sqrt);
    }
  }

  // ---------------------------------------------------------------------
  // Coasting: Verlet updates with no force.

  /** One coordinate after n updates with no force, as (x, px). */
  function Coast(x: real, px: real, delta: real, n: nat): (real, real)
    decreases n
  {
    if n == 0 then (x, px) else Coast(Verlet(x, px, 0.0, delta), x, delta, n - 1)
  }

  /**
   * With no force the per-update displacement decays by 0.99 each update,
   * so a point moving at d0 per update travels 99 * d0 * (1 - 0.99^n) in n
   * updates, and a point at rest stays put.
   */
  lemma {:induction false} CoastDecays(x: real, px: real, delta: real, n: nat)
    ensures Coast(x, px, delta, n).0 - Coast(x, px, delta, n).1 == Pow(0.99, n) * (x - px)
    ensures Coast(x, px, delta, n).0 == x + 99.0 * (1.0 - Pow(0.99, n)) * (x - px)
    decreases n
  {
    if n > 0 {
      var x1 := Verlet(x, px, 0.0, delta);
      assert x1 - x == 0.99 * (x - px);
      CoastDecays(x1, x, delta, n - 1);
      var p := Pow(0.99, n - 1);
      assert p * (0.99 * (x - px)) == Pow(0.99, n) * (x - px);
      assert 99.0 * (1.0 - p) * (0.99 * (x - px)) == 99.0 * 0.99 * (x - px) - 99.0 * (p * 0.99 * (x - px));
    }
  }
}
