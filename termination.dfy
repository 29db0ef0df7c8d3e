/**
 * When the recursion of `Quadtree.__init__` ends. Equal points always fall
 * into the same bucket, so a list holding a point twice is split forever
 * (Python ends it with RecursionError). Distinct points inside a valid
 * region are separated after finitely many halvings, and `Depth` bounds how
 * many: construction finishes exactly when the points are distinct.
 */
module QuadtreeTermination {
  import opened Geom
  import opened Partitioning
  import opened Quadtrees
  import opened QuadtreeProperties

  /** No point occurs twice. */
  ghost predicate Distinct(points: seq<Point>) {
    forall p :: multiset(points)[p] <= 1
  }

  // ---------------------------------------------------------------------------
  // Duplicates

  /** A finished tree never holds a point twice. */
  lemma {:induction false} DuplicatesNeverBuild(points: seq<Point>, br: Rect, t: Quadtree, p: Point)
    decreases t
    requires Builds(points, br, t)
    ensures multiset(points)[p] <= 1
  {
    match t
    case Vacant(_) =>
    case Leaf(_, _) =>
    case Internal(_, sx, sy, ne, nw, sw, se) =>
      DuplicatesNeverBuild(Bucket(points, sx, sy, 0), Quarter(br, sx, sy, 0), ne, p);
      DuplicatesNeverBuild(Bucket(points, sx, sy, 1), Quarter(br, sx, sy, 1), nw, p);
      DuplicatesNeverBuild(Bucket(points, sx, sy, 2), Quarter(br, sx, sy, 2), sw, p);
      DuplicatesNeverBuild(Bucket(points, sx, sy, 3), Quarter(br, sx, sy, 3), se, p);
      BucketCount(points, sx, sy, Quadrant(p, sx, sy), p);
  }

  /** With a repeated point no amount of fuel is enough; over a valid region
      the failure is the recursion limit. */
  lemma DuplicatesNeverFinish(points: seq<Point>, br: Rect, fuel: nat, p: Point)
    requires multiset(points)[p] > 1
    ensures Build(points, br, fuel).Err?
    ensures br.Valid() ==> Build(points, br, fuel).error == RecursionLimit
  {
    if Build(points, br, fuel).Ok? {
      BuildSound(points, br, fuel, Build(points, br, fuel).value);
      DuplicatesNeverBuild(points, br, Build(points, br, fuel).value, p);
    }
    if br.Valid() {
      ValidRegionNeverInvalid(points, br, fuel);
    }
  }

  // ---------------------------------------------------------------------------
  // Separation of distinct points by halving

  function Pow2(n: nat): (r: real)
    ensures r >= (n + 1) as real
  {
    if n == 0 then 1.0 else 2.0 * Pow2(n - 1)
  }

  lemma {:induction false} Pow2Monotone(n: nat, m: nat)
    decreases m
    requires n <= m
    ensures Pow2(n) <= Pow2(m)
  {
    if n < m {
      Pow2Monotone(n, m - 1);
    }
  }

  /** The distance of two coordinates. */
  function Dist(a: real, b: real): (d: real)
    ensures d >= 0.0 && (d == 0.0 <==> a == b)
    ensures a - b <= d && b - a <= d
  {
    if a <= b then b - a else a - b
  }

  /** Two points do not fit together in a region of width `w` and height `h`. */
  predicate Apart(p: Point, p': Point, w: real, h: real) {
    w < Dist(p.x, p'.x) || h < Dist(p.y, p'.y)
  }

  /** After `n` halvings of `br`, no two distinct points of the list fit in one
      region of the size reached. */
  ghost predicate SeparatedAt(points: seq<Point>, br: Rect, n: nat) {
    forall p, p' :: p in points && p' in points && p != p' ==>
      Apart(p, p', br.Width() / Pow2(n), br.Height() / Pow2(n))
  }

  /** Two distinct points inside `br` are not separated by `br` itself. */
  lemma NotSeparatedAtRoot(points: seq<Point>, br: Rect)
    requires |points| > 1 && Distinct(points)
    requires forall i :: 0 <= i < |points| ==> br.Contains(points[i])
    ensures !SeparatedAt(points, br, 0)
  {
    var a, b := points[0], points[1];
    assert points == [a, b] + points[2..];
    assert multiset(points)[a] >= if a == b then 2 else 1;
    assert br.Contains(a) && br.Contains(b);
    assert a in points && b in points && a != b;
    assert !Apart(a, b, br.Width() / Pow2(0), br.Height() / Pow2(0));
  }

  lemma DivideTwice(w: real, a: real)
    requires a > 0.0
    ensures (w / 2.0) / a == w / (2.0 * a)
  {
    var x, y := (w / 2.0) / a, w / (2.0 * a);
    assert x * a == w / 2.0;
    assert y * a == w / 2.0;
    assert x * a == y * a;
  }

  /** Half a side after `n - 1` halvings is the side after `n`. */
  lemma HalfScale(w: real, n: nat)
    requires n > 0
    ensures (w / 2.0) / Pow2(n - 1) == w / Pow2(n)
  {
    DivideTwice(w, Pow2(n - 1));
  }

  /** The sides of a quarter after `n - 1` more halvings are those of the
      parent after `n`. */
  lemma QuarterScale(br: Rect, q: nat, n: nat)
    requires q < 4 && n > 0
    ensures var quarter := Quarter(br, Mid(br.left, br.right), Mid(br.top, br.bottom), q);
      && quarter.Width() / Pow2(n - 1) == br.Width() / Pow2(n)
      && quarter.Height() / Pow2(n - 1) == br.Height() / Pow2(n)
  {
    var quarter := Quarter(br, Mid(br.left, br.right), Mid(br.top, br.bottom), q);
    assert quarter.Width() == br.Width() / 2.0 && quarter.Height() == br.Height() / 2.0;
    HalfScale(br.Width(), n);
    HalfScale(br.Height(), n);
  }

  /** A bucket is separated one halving sooner within its quarter. */
  lemma BucketSeparated(points: seq<Point>, br: Rect, n: nat, q: nat)
    requires n > 0 && q < 4
    requires SeparatedAt(points, br, n)
    ensures var sx, sy := Mid(br.left, br.right), Mid(br.top, br.bottom);
      SeparatedAt(Bucket(points, sx, sy, q), Quarter(br, sx, sy, q), n - 1)
  {
    var sx, sy := Mid(br.left, br.right), Mid(br.top, br.bottom);
    var b, quarter := Bucket(points, sx, sy, q), Quarter(br, sx, sy, q);
    QuarterScale(br, q, n);
    forall p, p' | p in b && p' in b && p != p'
      ensures Apart(p, p', quarter.Width() / Pow2(n - 1), quarter.Height() / Pow2(n - 1))
    {
      BucketMembers(points, sx, sy, q, p);
      BucketMembers(points, sx, sy, q, p');
    }
  }

  lemma BucketDistinct(points: seq<Point>, splitx: real, splity: real, q: nat)
    requires Distinct(points)
    ensures Distinct(Bucket(points, splitx, splity, q))
  {
    forall p ensures multiset(Bucket(points, splitx, splity, q))[p] <= 1 {
      BucketCount(points, splitx, splity, q, p);
    }
  }

  /** The parent finishes once its four children do. */
  lemma BuildJoinOk(points: seq<Point>, br: Rect, fuel: nat)
    requires |points| > 1 && br.Valid()
    requires forall q :: 0 <= q < 4 ==>
               Build(Bucket(points, Mid(br.left, br.right), Mid(br.top, br.bottom), q),
                     Quarter(br, Mid(br.left, br.right), Mid(br.top, br.bottom), q), fuel).Ok?
    ensures Build(points, br, fuel + 1).Ok?
  {
    var sx, sy := Mid(br.left, br.right), Mid(br.top, br.bottom);
    var c0 := Build(Bucket(points, sx, sy, 0), Quarter(br, sx, sy, 0), fuel);
    var c1 := Build(Bucket(points, sx, sy, 1), Quarter(br, sx, sy, 1), fuel);
    var c2 := Build(Bucket(points, sx, sy, 2), Quarter(br, sx, sy, 2), fuel);
    var c3 := Build(Bucket(points, sx, sy, 3), Quarter(br, sx, sy, 3), fuel);
    assert c0.Ok? && c1.Ok? && c2.Ok? && c3.Ok?;
    BuildJoin(points, br, fuel, [c0.value, c1.value, c2.value, c3.value]);
  }

  /** Distinct points of a valid region that `n` halvings separate are built
      with `n` units of fuel. */
  lemma {:induction false} SeparatedFinishes(points: seq<Point>, br: Rect, n: nat)
    decreases n
    requires br.Valid() && Distinct(points)
    requires forall i :: 0 <= i < |points| ==> br.Contains(points[i])
    requires SeparatedAt(points, br, n)
    ensures Build(points, br, n).Ok?
  {
    if |points| > 1 {
      if n == 0 {
        NotSeparatedAtRoot(points, br);
        assert false;
      }
      var sx, sy := Mid(br.left, br.right), Mid(br.top, br.bottom);
      QuartersTile(br, Point(sx, sy));
      forall q | 0 <= q < 4 ensures Build(Bucket(points, sx, sy, q), Quarter(br, sx, sy, q), n - 1).Ok? {
        BucketInQuarter(points, br, sx, sy, q);
        BucketDistinct(points, sx, sy, q);
        BucketSeparated(points, br, n, q);
        SeparatedFinishes(Bucket(points, sx, sy, q), Quarter(br, sx, sy, q), n - 1);
      }
      BuildJoinOk(points, br, n - 1);
    }
  }

  // ---------------------------------------------------------------------------
  // How much fuel is enough

  /** `w / d < a` turned into `w / a < d`, for positive `d` and `a`. */
  lemma SwapDivisor(w: real, d: real, a: real)
    requires d > 0.0 && a > 0.0 && w / d < a
    ensures w / a < d
  {
    assert w == (w / d) * d;
    assert (w / d) * d < a * d;
    assert w == (w / a) * a;
  }

  /** A number of halvings after which a side `w` is shorter than `d`. */
  function Steps(w: real, d: real): (s: nat)
    requires d > 0.0
    ensures w / Pow2(s) < d
  {
    if w < 0.0 then 0
    else
      var k := (w / d).Floor;
      assert w / d < (k + 1) as real <= Pow2(k);
      SwapDivisor(w, d, Pow2(k));
      k
  }

  /** The halvings that separate two points within `br`. */
  function PairSteps(p: Point, p': Point, br: Rect): (s: nat)
    ensures p != p' ==> Apart(p, p', br.Width() / Pow2(s), br.Height() / Pow2(s))
  {
    if p.x != p'.x then Steps(br.Width(), Dist(p.x, p'.x))
    else if p.y != p'.y then Steps(br.Height(), Dist(p.y, p'.y))
    else 0
  }

  /** The most halvings any point of `all` needs to be separated from `p`. */
  function PointDepth(p: Point, all: seq<Point>, br: Rect): (n: nat)
    ensures forall p' :: p' in all ==> PairSteps(p, p', br) <= n
  {
    if |all| == 0 then 0
    else
      assert all == [all[0]] + all[1..];
      Max(PairSteps(p, all[0], br), PointDepth(p, all[1..], br))
  }

  /** The most halvings any pair of a point of `ps` and a point of `all` needs. */
  function DepthOver(ps: seq<Point>, all: seq<Point>, br: Rect): (n: nat)
    ensures forall p, p' :: p in ps && p' in all ==> PairSteps(p, p', br) <= n
  {
    if |ps| == 0 then 0
    else
      assert ps == [ps[0]] + ps[1..];
      Max(PointDepth(ps[0], all, br), DepthOver(ps[1..], all, br))
  }

  /** Fuel enough to build a tree of distinct points over `br`. */
  function Depth(points: seq<Point>, br: Rect): nat {
    DepthOver(points, points, br)
  }

  /** Dividing a non-negative side by more makes it no longer. */
  lemma DivideMore(w: real, a: real, b: real)
    requires w >= 0.0 && 0.0 < a <= b
    ensures w / b <= w / a
  {
    assert w / b * b == w == w / a * a;
    assert w / b * a <= w / b * b;
  }

  /** Points apart in a region stay apart in any smaller one. */
  lemma ApartShrinks(p: Point, p': Point, br: Rect, s: nat, n: nat)
    requires br.Valid() && s <= n
    requires Apart(p, p', br.Width() / Pow2(s), br.Height() / Pow2(s))
    ensures Apart(p, p', br.Width() / Pow2(n), br.Height() / Pow2(n))
  {
    Pow2Monotone(s, n);
    DivideMore(br.Width(), Pow2(s), Pow2(n));
    DivideMore(br.Height(), Pow2(s), Pow2(n));
  }

  /** `Depth` halvings separate every two distinct points of a valid region. */
  lemma DepthSeparates(points: seq<Point>, br: Rect)
    requires br.Valid()
    ensures SeparatedAt(points, br, Depth(points, br))
  {
    var n := Depth(points, br);
    forall p, p' | p in points && p' in points && p != p'
      ensures Apart(p, p', br.Width() / Pow2(n), br.Height() / Pow2(n))
    {
      ApartShrinks(p, p', br, PairSteps(p, p', br), n);
    }
  }

  /** Distinct points inside a valid region are built with `Depth` fuel. */
  lemma DistinctFinishes(points: seq<Point>, br: Rect)
    requires br.Valid() && Distinct(points)
    requires forall i :: 0 <= i < |points| ==> br.Contains(points[i])
    ensures Build(points, br, Depth(points, br)).Ok?
  {
    DepthSeparates(points, br);
    SeparatedFinishes(points, br, Depth(points, br));
  }

  /** Over a valid region holding the points, construction finishes for some
      fuel exactly when no point is repeated. */
  lemma FinishesIffDistinct(points: seq<Point>, br: Rect)
    requires br.Valid()
    requires forall i :: 0 <= i < |points| ==> br.Contains(points[i])
    ensures (exists fuel: nat :: Build(points, br, fuel).Ok?) <==> Distinct(points)
  {
    if Distinct(points) {
      DistinctFinishes(points, br);
    } else {
      var p :| multiset(points)[p] > 1;
      forall fuel: nat ensures Build(points, br, fuel).Err? {
        DuplicatesNeverFinish(points, br, fuel, p);
      }
    }
  }

  /** `Quadtree(points)`: finishes for some recursion depth exactly when the
      list is non-empty and has no repeated point. */
  lemma ConstructFinishesIffDistinct(points: seq<Point>)
    ensures (exists fuel: nat :: Construct(points, None, fuel).Ok?) <==> |points| > 0 && Distinct(points)
  {
    if |points| > 0 {
      var b := Bounding(points).value;
      if Distinct(points) {
        DistinctFinishes(points, b);
        assert Construct(points, None, Depth(points, b)).Ok?;
      } else {
        var p :| multiset(points)[p] > 1;
        forall fuel: nat ensures Construct(points, None, fuel).Err? {
          DuplicatesNeverFinish(points, b, fuel, p);
        }
      }
    }
  }
}
