/**
 * What construction guarantees about a tree it finishes. A finished tree is
 * characterised by the relation `Builds`, which follows the recursion of the
 * construction one node at a time without fuel; construction with `fuel`
 * succeeds exactly with the trees of that relation no higher than `fuel`.
 * About those trees: the leaves hold exactly the input points, every point
 * lies in the region of every node above it, every internal node is cut at
 * its midpoints into its four quarters, and only regions with two or more
 * points are cut.
 */
module QuadtreeProperties {
  import opened Geom
  import opened Partitioning
  import opened Quadtrees

  /** The points held by the leaves of a tree, with multiplicity. */
  function Elements(t: Quadtree): multiset<Point> {
    match t
    case Vacant(_) => multiset{}
    case Leaf(_, p) => multiset{p}
    case Internal(_, _, _, ne, nw, sw, se) => Elements(ne) + Elements(nw) + Elements(sw) + Elements(se)
  }

  /** Every point of a subtree lies in the region of its root, at every node. */
  ghost predicate Contained(t: Quadtree) {
    (forall p :: p in Elements(t) ==> t.br.Contains(p))
    && (t.Internal? ==> Contained(t.ne) && Contained(t.nw) && Contained(t.sw) && Contained(t.se))
  }

  /** Every region is a valid rectangle, and every internal node is cut at the
      midpoints of its region into its four quarters, in quadrant order. */
  ghost predicate Tiled(t: Quadtree) {
    t.br.Valid()
    && (t.Internal? ==>
          && t.splitx == Mid(t.br.left, t.br.right) && t.splity == Mid(t.br.top, t.br.bottom)
          && t.ne.br == Quarter(t.br, t.splitx, t.splity, 0)
          && t.nw.br == Quarter(t.br, t.splitx, t.splity, 1)
          && t.sw.br == Quarter(t.br, t.splitx, t.splity, 2)
          && t.se.br == Quarter(t.br, t.splitx, t.splity, 3)
          && Tiled(t.ne) && Tiled(t.nw) && Tiled(t.sw) && Tiled(t.se))
  }

  /** Only regions holding two or more points are split. */
  ghost predicate Separating(t: Quadtree) {
    t.Internal? ==>
      |Elements(t)| > 1 && Separating(t.ne) && Separating(t.nw) && Separating(t.sw) && Separating(t.se)
  }

  // ---------------------------------------------------------------------------
  // The geometry of one split

  /** The four quarters of a valid rectangle cut at its midpoints are valid,
      lie inside it, and together cover it. */
  lemma QuartersTile(br: Rect, p: Point)
    requires br.Valid()
    ensures forall q :: 0 <= q < 4 ==>
              Quarter(br, Mid(br.left, br.right), Mid(br.top, br.bottom), q).Valid()
    ensures forall q :: 0 <= q < 4 ==>
              Quarter(br, Mid(br.left, br.right), Mid(br.top, br.bottom), q).Contains(p) ==> br.Contains(p)
    ensures br.Contains(p) ==>
              exists q :: 0 <= q < 4 && Quarter(br, Mid(br.left, br.right), Mid(br.top, br.bottom), q).Contains(p)
  {
    var sx, sy := Mid(br.left, br.right), Mid(br.top, br.bottom);
    if br.Contains(p) {
      assert Quarter(br, sx, sy, Quadrant(p, sx, sy)).Contains(p);
    }
  }

  /** Two different quarters share only points of the split lines. */
  lemma QuartersMeetOnSplitLines(br: Rect, splitx: real, splity: real, q: nat, q': nat, p: Point)
    requires q < 4 && q' < 4 && q != q'
    requires Quarter(br, splitx, splity, q).Contains(p) && Quarter(br, splitx, splity, q').Contains(p)
    ensures p.x == splitx || p.y == splity
  {
  }

  /** A point of the region lies in the quarter of the bucket it is sent to. */
  lemma QuadrantInQuarter(br: Rect, splitx: real, splity: real, p: Point)
    requires br.Contains(p)
    ensures Quarter(br, splitx, splity, Quadrant(p, splitx, splity)).Contains(p)
  {
  }

  /** Each `Rect(...)` call of the construction yields the matching quarter. */
  lemma ChildRects(br: Rect)
    requires br.Valid()
    ensures var sx, sy := Mid(br.left, br.right), Mid(br.top, br.bottom);
      && MakeRect(br.top, sy, sx, br.right) == Ok(Quarter(br, sx, sy, 0))
      && MakeRect(br.top, sy, br.left, sx) == Ok(Quarter(br, sx, sy, 1))
      && MakeRect(sy, br.bottom, br.left, sx) == Ok(Quarter(br, sx, sy, 2))
      && MakeRect(sy, br.bottom, sx, br.right) == Ok(Quarter(br, sx, sy, 3))
  {
  }

  /** The points of bucket `q` of a region's points lie in quarter `q`. */
  lemma {:induction false} BucketInQuarter(points: seq<Point>, br: Rect, splitx: real, splity: real, q: nat)
    requires q < 4
    requires forall i :: 0 <= i < |points| ==> br.Contains(points[i])
    ensures forall i :: 0 <= i < |Bucket(points, splitx, splity, q)| ==>
              Quarter(br, splitx, splity, q).Contains(Bucket(points, splitx, splity, q)[i])
  {
    var b := Bucket(points, splitx, splity, q);
    forall i | 0 <= i < |b| ensures Quarter(br, splitx, splity, q).Contains(b[i]) {
      BucketMembers(points, splitx, splity, q, b[i]);
      QuadrantInQuarter(br, splitx, splity, b[i]);
    }
  }

  // ---------------------------------------------------------------------------
  // One level of construction

  /** The four children's results combined as the construction combines
      them: the first failure, or else the internal node holding them. */
  function Join(br: Rect, splitx: real, splity: real,
                ne: Result<Quadtree>, nw: Result<Quadtree>, sw: Result<Quadtree>, se: Result<Quadtree>)
    : (r: Result<Quadtree>)
    ensures r.Ok? <==> ne.Ok? && nw.Ok? && sw.Ok? && se.Ok?
    ensures r.Ok? ==> r.value == Internal(br, splitx, splity, ne.value, nw.value, sw.value, se.value)
  {
    var a :- ne;
    var b :- nw;
    var c :- sw;
    var d :- se;
    Ok(Internal(br, splitx, splity, a, b, c, d))
  }

  /** One level of construction over a valid region with fuel left: the four
      children are built over the four quarters with one unit less. */
  lemma {:induction false} BuildStep(points: seq<Point>, br: Rect, fuel: nat)
    requires |points| > 1 && fuel > 0 && br.Valid()
    ensures var sx, sy := Mid(br.left, br.right), Mid(br.top, br.bottom);
      Build(points, br, fuel)
      == Join(br, sx, sy,
              Build(Bucket(points, sx, sy, 0), Quarter(br, sx, sy, 0), fuel - 1),
              Build(Bucket(points, sx, sy, 1), Quarter(br, sx, sy, 1), fuel - 1),
              Build(Bucket(points, sx, sy, 2), Quarter(br, sx, sy, 2), fuel - 1),
              Build(Bucket(points, sx, sy, 3), Quarter(br, sx, sy, 3), fuel - 1))
  {
    ChildRects(br);
  }

  /** How a construction over two or more points succeeds: some fuel is left,
      the region is a valid rectangle, the cut is at the midpoints, and each
      child is the construction over its bucket and its quarter. */
  lemma {:induction false} BuildSplit(points: seq<Point>, br: Rect, fuel: nat, t: Quadtree)
    requires |points| > 1
    requires Build(points, br, fuel) == Ok(t)
    ensures fuel > 0 && br.Valid() && t.Internal?
    ensures var sx, sy := Mid(br.left, br.right), Mid(br.top, br.bottom);
      && t == Internal(br, sx, sy, t.ne, t.nw, t.sw, t.se)
      && Build(Bucket(points, sx, sy, 0), Quarter(br, sx, sy, 0), fuel - 1) == Ok(t.ne)
      && Build(Bucket(points, sx, sy, 1), Quarter(br, sx, sy, 1), fuel - 1) == Ok(t.nw)
      && Build(Bucket(points, sx, sy, 2), Quarter(br, sx, sy, 2), fuel - 1) == Ok(t.sw)
      && Build(Bucket(points, sx, sy, 3), Quarter(br, sx, sy, 3), fuel - 1) == Ok(t.se)
  {
    assert fuel > 0;
    assert MakeRect(br.top, Mid(br.top, br.bottom), Mid(br.left, br.right), br.right).Ok?;
    BuildStep(points, br, fuel);
  }

  /** The converse: once the four children are built with `fuel`, the parent
      is built with one more. */
  lemma {:induction false} BuildJoin(points: seq<Point>, br: Rect, fuel: nat, kids: seq<Quadtree>)
    requires |points| > 1 && br.Valid() && |kids| == 4
    requires forall q :: 0 <= q < 4 ==>
               Build(Bucket(points, Mid(br.left, br.right), Mid(br.top, br.bottom), q),
                     Quarter(br, Mid(br.left, br.right), Mid(br.top, br.bottom), q), fuel)
               == Ok(kids[q])
    ensures Build(points, br, fuel + 1)
         == Ok(Internal(br, Mid(br.left, br.right), Mid(br.top, br.bottom), kids[0], kids[1], kids[2], kids[3]))
  {
    BuildStep(points, br, fuel + 1);
    var sx, sy := Mid(br.left, br.right), Mid(br.top, br.bottom);
    assert Build(Bucket(points, sx, sy, 0), Quarter(br, sx, sy, 0), fuel) == Ok(kids[0]);
    assert Build(Bucket(points, sx, sy, 1), Quarter(br, sx, sy, 1), fuel) == Ok(kids[1]);
    assert Build(Bucket(points, sx, sy, 2), Quarter(br, sx, sy, 2), fuel) == Ok(kids[2]);
    assert Build(Bucket(points, sx, sy, 3), Quarter(br, sx, sy, 3), fuel) == Ok(kids[3]);
  }

  /** Construction over a valid region never fails with InvalidRect; only
      running out of fuel can make it fail. */
  lemma {:induction false} ValidRegionNeverInvalid(points: seq<Point>, br: Rect, fuel: nat)
    decreases fuel
    requires br.Valid()
    ensures Build(points, br, fuel).Err? ==> Build(points, br, fuel).error == RecursionLimit
  {
    if |points| > 1 && fuel > 0 {
      var sx, sy := Mid(br.left, br.right), Mid(br.top, br.bottom);
      ChildRects(br);
      QuartersTile(br, Point(sx, sy));
      forall q | 0 <= q < 4 {
        ValidRegionNeverInvalid(Bucket(points, sx, sy, q), Quarter(br, sx, sy, q), fuel - 1);
      }
    }
  }

  // ---------------------------------------------------------------------------
  // Construction and the relation `Builds`

  /** An internal node of `Builds`, opened: the node is cut at the midpoints
      of a valid region holding two or more points, and its children are
      lower trees of `Builds` over the four buckets and the four quarters. */
  lemma {:induction false} BuildsOpen(points: seq<Point>, br: Rect, t: Quadtree)
    requires Builds(points, br, t) && t.Internal?
    ensures |points| > 1 && br.Valid() && t.br == br
    ensures t.splitx == Mid(br.left, br.right) && t.splity == Mid(br.top, br.bottom)
    ensures var sx, sy := t.splitx, t.splity;
      && Builds(Bucket(points, sx, sy, 0), Quarter(br, sx, sy, 0), t.ne)
      && Builds(Bucket(points, sx, sy, 1), Quarter(br, sx, sy, 1), t.nw)
      && Builds(Bucket(points, sx, sy, 2), Quarter(br, sx, sy, 2), t.sw)
      && Builds(Bucket(points, sx, sy, 3), Quarter(br, sx, sy, 3), t.se)
    ensures Height(t.ne) < Height(t) && Height(t.nw) < Height(t)
    ensures Height(t.sw) < Height(t) && Height(t.se) < Height(t)
  {
  }

  /** The converse: an internal node cut at the midpoints of a valid region
      holding two or more points, whose children are trees of `Builds` over
      the buckets and quarters, is one itself, one level higher. */
  lemma {:induction false} BuildsClose(points: seq<Point>, br: Rect, t: Quadtree, n: nat)
    requires t.Internal? && |points| > 1 && br.Valid() && t.br == br
    requires t.splitx == Mid(br.left, br.right) && t.splity == Mid(br.top, br.bottom)
    requires var sx, sy := t.splitx, t.splity;
      && Builds(Bucket(points, sx, sy, 0), Quarter(br, sx, sy, 0), t.ne)
      && Builds(Bucket(points, sx, sy, 1), Quarter(br, sx, sy, 1), t.nw)
      && Builds(Bucket(points, sx, sy, 2), Quarter(br, sx, sy, 2), t.sw)
      && Builds(Bucket(points, sx, sy, 3), Quarter(br, sx, sy, 3), t.se)
    requires Height(t.ne) <= n && Height(t.nw) <= n && Height(t.sw) <= n && Height(t.se) <= n
    ensures Builds(points, br, t) && Height(t) <= n + 1
  {
  }

  /** A finished construction is a tree of `Builds`, no higher than the fuel. */
  lemma {:induction false} BuildSound(points: seq<Point>, br: Rect, fuel: nat, t: Quadtree)
    decreases fuel
    requires Build(points, br, fuel) == Ok(t)
    ensures Builds(points, br, t) && Height(t) <= fuel
  {
    if |points| == 1 {
      assert points == [points[0]];
    } else if |points| > 1 {
      BuildSplit(points, br, fuel, t);
      var sx, sy := Mid(br.left, br.right), Mid(br.top, br.bottom);
      BuildSound(Bucket(points, sx, sy, 0), Quarter(br, sx, sy, 0), fuel - 1, t.ne);
      BuildSound(Bucket(points, sx, sy, 1), Quarter(br, sx, sy, 1), fuel - 1, t.nw);
      BuildSound(Bucket(points, sx, sy, 2), Quarter(br, sx, sy, 2), fuel - 1, t.sw);
      BuildSound(Bucket(points, sx, sy, 3), Quarter(br, sx, sy, 3), fuel - 1, t.se);
      BuildsClose(points, br, t, fuel - 1);
    }
  }

  /** Conversely, construction with enough fuel finishes with every tree of
      `Builds`. */
  lemma {:induction false} BuildComplete(points: seq<Point>, br: Rect, fuel: nat, t: Quadtree)
    decreases t, 1
    requires Builds(points, br, t) && Height(t) <= fuel
    ensures Build(points, br, fuel) == Ok(t)
  {
    if t.Internal? {
      BuildCompleteChildren(points, br, fuel, t);
      BuildJoin(points, br, fuel - 1, t.quadrants());
    } else if t.Leaf? {
      assert points == [t.point];
    }
  }

  /** The step of `BuildComplete`: the four children of an internal tree of
      `Builds` are rebuilt from their buckets and quarters with one unit of
      fuel less. */
  lemma {:induction false} BuildCompleteChildren(points: seq<Point>, br: Rect, fuel: nat, t: Quadtree)
    decreases t, 0
    requires Builds(points, br, t) && t.Internal? && Height(t) <= fuel
    ensures fuel > 0 && |points| > 1 && br.Valid() && t.br == br
    ensures t.splitx == Mid(br.left, br.right) && t.splity == Mid(br.top, br.bottom)
    ensures var sx, sy := t.splitx, t.splity;
      && Build(Bucket(points, sx, sy, 0), Quarter(br, sx, sy, 0), fuel - 1) == Ok(t.ne)
      && Build(Bucket(points, sx, sy, 1), Quarter(br, sx, sy, 1), fuel - 1) == Ok(t.nw)
      && Build(Bucket(points, sx, sy, 2), Quarter(br, sx, sy, 2), fuel - 1) == Ok(t.sw)
      && Build(Bucket(points, sx, sy, 3), Quarter(br, sx, sy, 3), fuel - 1) == Ok(t.se)
  {
    BuildsOpen(points, br, t);
    var sx, sy, f := t.splitx, t.splity, fuel - 1;
    BuildComplete(Bucket(points, sx, sy, 0), Quarter(br, sx, sy, 0), f, t.ne);
    BuildComplete(Bucket(points, sx, sy, 1), Quarter(br, sx, sy, 1), f, t.nw);
    BuildComplete(Bucket(points, sx, sy, 2), Quarter(br, sx, sy, 2), f, t.sw);
    BuildComplete(Bucket(points, sx, sy, 3), Quarter(br, sx, sy, 3), f, t.se);
  }

  /** More fuel never changes a finished construction. */
  lemma {:induction false} BuildFuelMonotone(points: seq<Point>, br: Rect, fuel: nat, more: nat, t: Quadtree)
    requires Build(points, br, fuel) == Ok(t)
    requires fuel <= more
    ensures Build(points, br, more) == Ok(t)
  {
    BuildSound(points, br, fuel, t);
    BuildComplete(points, br, more, t);
  }

  /** Every tree of `Builds` covers the region it was built over. */
  lemma {:induction false} BuildsRegion(points: seq<Point>, br: Rect, t: Quadtree)
    requires Builds(points, br, t)
    ensures t.br == br
  {
    match t
    case Vacant(_) =>
    case Leaf(_, _) =>
    case Internal(_, _, _, _, _, _, _) =>
  }

  // ---------------------------------------------------------------------------
  // Properties of a finished tree

  /** The leaves hold exactly the input points, with their multiplicity. */
  lemma {:induction false} BuildsConserves(points: seq<Point>, br: Rect, t: Quadtree)
    decreases t
    requires Builds(points, br, t)
    ensures Elements(t) == multiset(points)
  {
    match t
    case Vacant(_) =>
    case Leaf(_, _) =>
    case Internal(_, sx, sy, ne, nw, sw, se) =>
      BuildsConserves(Bucket(points, sx, sy, 0), Quarter(br, sx, sy, 0), ne);
      BuildsConserves(Bucket(points, sx, sy, 1), Quarter(br, sx, sy, 1), nw);
      BuildsConserves(Bucket(points, sx, sy, 2), Quarter(br, sx, sy, 2), sw);
      BuildsConserves(Bucket(points, sx, sy, 3), Quarter(br, sx, sy, 3), se);
      BucketsPartition(points, sx, sy);
  }

  /** The top level of Contained, for a node holding the points of a list
      that all lie in its region. */
  lemma {:induction false} ContainedRoot(t: Quadtree, points: seq<Point>)
    requires Elements(t) == multiset(points)
    requires forall i :: 0 <= i < |points| ==> t.br.Contains(points[i])
    ensures forall p :: p in Elements(t) ==> t.br.Contains(p)
  {
    forall p | p in Elements(t) ensures t.br.Contains(p) {
      assert p in multiset(points);
      var i :| 0 <= i < |points| && points[i] == p;
    }
  }

  /** If every input point lies in `br`, every point of every subtree lies in
      that subtree's region, edges included. */
  lemma {:induction false} BuildsContained(points: seq<Point>, br: Rect, t: Quadtree)
    decreases t
    requires Builds(points, br, t)
    requires forall i :: 0 <= i < |points| ==> br.Contains(points[i])
    ensures Contained(t)
  {
    BuildsConserves(points, br, t);
    BuildsRegion(points, br, t);
    ContainedRoot(t, points);
    match t
    case Vacant(_) =>
    case Leaf(_, _) =>
    case Internal(_, sx, sy, ne, nw, sw, se) =>
      BucketInQuarter(points, br, sx, sy, 0);
      BuildsContained(Bucket(points, sx, sy, 0), Quarter(br, sx, sy, 0), ne);
      BucketInQuarter(points, br, sx, sy, 1);
      BuildsContained(Bucket(points, sx, sy, 1), Quarter(br, sx, sy, 1), nw);
      BucketInQuarter(points, br, sx, sy, 2);
      BuildsContained(Bucket(points, sx, sy, 2), Quarter(br, sx, sy, 2), sw);
      BucketInQuarter(points, br, sx, sy, 3);
      BuildsContained(Bucket(points, sx, sy, 3), Quarter(br, sx, sy, 3), se);
  }

  /** Over a valid region, every node's region is valid and every internal
      node is cut into its four quarters at the midpoints. */
  lemma {:induction false} BuildsTiled(points: seq<Point>, br: Rect, t: Quadtree)
    decreases t
    requires br.Valid()
    requires Builds(points, br, t)
    ensures Tiled(t)
  {
    BuildsRegion(points, br, t);
    match t
    case Vacant(_) =>
    case Leaf(_, _) =>
    case Internal(_, sx, sy, ne, nw, sw, se) =>
      QuartersTile(br, Point(sx, sy));
      BuildsRegion(Bucket(points, sx, sy, 0), Quarter(br, sx, sy, 0), ne);
      BuildsTiled(Bucket(points, sx, sy, 0), Quarter(br, sx, sy, 0), ne);
      BuildsRegion(Bucket(points, sx, sy, 1), Quarter(br, sx, sy, 1), nw);
      BuildsTiled(Bucket(points, sx, sy, 1), Quarter(br, sx, sy, 1), nw);
      BuildsRegion(Bucket(points, sx, sy, 2), Quarter(br, sx, sy, 2), sw);
      BuildsTiled(Bucket(points, sx, sy, 2), Quarter(br, sx, sy, 2), sw);
      BuildsRegion(Bucket(points, sx, sy, 3), Quarter(br, sx, sy, 3), se);
      BuildsTiled(Bucket(points, sx, sy, 3), Quarter(br, sx, sy, 3), se);
  }

  /** Every internal node holds at least two points. */
  lemma {:induction false} BuildsSeparating(points: seq<Point>, br: Rect, t: Quadtree)
    decreases t
    requires Builds(points, br, t)
    ensures Separating(t)
  {
    match t
    case Vacant(_) =>
    case Leaf(_, _) =>
    case Internal(_, sx, sy, ne, nw, sw, se) =>
      BuildsConserves(points, br, t);
      assert |multiset(points)| == |points|;
      BuildsSeparating(Bucket(points, sx, sy, 0), Quarter(br, sx, sy, 0), ne);
      BuildsSeparating(Bucket(points, sx, sy, 1), Quarter(br, sx, sy, 1), nw);
      BuildsSeparating(Bucket(points, sx, sy, 2), Quarter(br, sx, sy, 2), sw);
      BuildsSeparating(Bucket(points, sx, sy, 3), Quarter(br, sx, sy, 3), se);
  }

  /** The guarantees of construction from the points alone: the region is the
      bounding box of the points, so every point lies in it. */
  lemma {:induction false} ConstructSound(points: seq<Point>, fuel: nat)
    requires Construct(points, None, fuel).Ok?
    ensures var t := Construct(points, None, fuel).value;
      && t.br == Bounding(points).value
      && Elements(t) == multiset(points)
      && Contained(t) && Tiled(t) && Separating(t)
  {
    var b, t := Bounding(points).value, Construct(points, None, fuel).value;
    BuildSound(points, b, fuel, t);
    BuildsRegion(points, b, t);
    BuildsConserves(points, b, t);
    BuildsContained(points, b, t);
    BuildsTiled(points, b, t);
    BuildsSeparating(points, b, t);
  }
}
