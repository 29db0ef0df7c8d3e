/**
 * The doctests of `Quadtree`, stated as facts about the model.
 */
module QuadtreeDoctests {
  import opened Geom
  import opened Partitioning
  import opened Quadtrees
  import opened QuadtreeProperties

  // ---------------------------------------------------------------------------
  // Buckets of short literal lists, one point at a time

  /** The contribution of one point to bucket `q`. */
  function Keep(p: Point, splitx: real, splity: real, q: nat): seq<Point> {
    if Quadrant(p, splitx, splity) == q then [p] else []
  }

  lemma BucketOfOne(a: Point, splitx: real, splity: real, q: nat)
    ensures Bucket([a], splitx, splity, q) == Keep(a, splitx, splity, q)
  {
    assert [a][..0] == [];
  }

  lemma BucketOfTwo(a: Point, b: Point, splitx: real, splity: real, q: nat)
    ensures Bucket([a, b], splitx, splity, q) == Keep(a, splitx, splity, q) + Keep(b, splitx, splity, q)
  {
    assert [a, b] == [a] + [b];
    BucketAppend([a], [b], splitx, splity, q);
    BucketOfOne(a, splitx, splity, q);
    BucketOfOne(b, splitx, splity, q);
  }

  lemma BucketOfFour(a: Point, b: Point, c: Point, d: Point, splitx: real, splity: real, q: nat)
    ensures Bucket([a, b, c, d], splitx, splity, q)
         == Keep(a, splitx, splity, q) + Keep(b, splitx, splity, q)
          + Keep(c, splitx, splity, q) + Keep(d, splitx, splity, q)
  {
    assert [a, b, c, d] == [a, b] + [c, d];
    BucketAppend([a, b], [c, d], splitx, splity, q);
    BucketOfTwo(a, b, splitx, splity, q);
    BucketOfTwo(c, d, splitx, splity, q);
  }

  // ---------------------------------------------------------------------------
  // The class doctest

  /** The four corners of the unit square at (1, 1), in the order the
      doctest appends them. */
  function Square(): seq<Point> {
    [Point(1.0, 1.0), Point(1.0, 2.0), Point(2.0, 1.0), Point(2.0, 2.0)]
  }

  function SquareTree(): Quadtree {
    Internal(Rect(2.0, 1.0, 1.0, 2.0), 1.5, 1.5,
      Leaf(Rect(2.0, 1.5, 1.5, 2.0), Point(2.0, 2.0)),
      Leaf(Rect(2.0, 1.5, 1.0, 1.5), Point(1.0, 2.0)),
      Leaf(Rect(1.5, 1.0, 1.0, 1.5), Point(1.0, 1.0)),
      Leaf(Rect(1.5, 1.0, 1.5, 2.0), Point(2.0, 1.0)))
  }

  /** The bounding box of the square is the square itself. */
  lemma SquareBounds()
    ensures Bounding(Square()) == Ok(Rect(2.0, 1.0, 1.0, 2.0))
  {
    var ps := Square();
    BoundingIsSmallest(ps, Rect(2.0, 1.0, 1.0, 2.0));
    assert Bounding(ps).value.Contains(ps[0]) && Bounding(ps).value.Contains(ps[3]);
  }

  /** The cut at (1.5, 1.5) sends each corner to a bucket of its own. */
  lemma SquareBuckets()
    ensures Bucket(Square(), 1.5, 1.5, 0) == [Point(2.0, 2.0)]
    ensures Bucket(Square(), 1.5, 1.5, 1) == [Point(1.0, 2.0)]
    ensures Bucket(Square(), 1.5, 1.5, 2) == [Point(1.0, 1.0)]
    ensures Bucket(Square(), 1.5, 1.5, 3) == [Point(2.0, 1.0)]
  {
    var ps := Square();
    forall q | 0 <= q < 4
      ensures Bucket(ps, 1.5, 1.5, q) == Keep(ps[0], 1.5, 1.5, q) + Keep(ps[1], 1.5, 1.5, q)
                                        + Keep(ps[2], 1.5, 1.5, q) + Keep(ps[3], 1.5, 1.5, q)
    {
      BucketOfFour(ps[0], ps[1], ps[2], ps[3], 1.5, 1.5, q);
    }
  }

  /** One level of splitting builds the tree of the doctest. */
  lemma SquareBuild()
    ensures Build(Square(), Rect(2.0, 1.0, 1.0, 2.0), 1) == Ok(SquareTree())
  {
    var b := Rect(2.0, 1.0, 1.0, 2.0);
    SquareBuckets();
    ChildRects(b);
    BuildJoin(Square(), b, 0, SquareTree().quadrants());
  }

  /** The root is cut at (1.5, 1.5) and quadrants 0 to 3 are the leaves
      holding (2,2), (1,2), (1,1) and (2,1); one level of splitting is
      enough. */
  lemma SquareDoctest()
    ensures SquareTree().quadrants()[0].point == Point(2.0, 2.0)
    ensures SquareTree().quadrants()[1].point == Point(1.0, 2.0)
    ensures SquareTree().quadrants()[2].point == Point(1.0, 1.0)
    ensures SquareTree().quadrants()[3].point == Point(2.0, 1.0)
    ensures Construct(Square(), None, 1) == Ok(SquareTree())
  {
    SquareBounds();
    SquareBuild();
  }

  // ---------------------------------------------------------------------------
  // The constructor doctest

  /** The eight points of the doctest. */
  function Eight(): seq<Point> {
    [Point(1.0, 1.0), Point(1.0, 4.0), Point(4.0, 1.0), Point(4.0, 4.0),
     Point(2.0, 2.0), Point(2.0, 3.0), Point(3.0, 2.0), Point(3.0, 3.0)]
  }

  function EightTree(): Quadtree {
    Internal(Rect(4.0, 1.0, 1.0, 4.0), 2.5, 2.5,
      Internal(Rect(4.0, 2.5, 2.5, 4.0), 3.25, 3.25,
        Leaf(Rect(4.0, 3.25, 3.25, 4.0), Point(4.0, 4.0)),
        Vacant(Rect(4.0, 3.25, 2.5, 3.25)),
        Leaf(Rect(3.25, 2.5, 2.5, 3.25), Point(3.0, 3.0)),
        Vacant(Rect(3.25, 2.5, 3.25, 4.0))),
      Internal(Rect(4.0, 2.5, 1.0, 2.5), 1.75, 3.25,
        Vacant(Rect(4.0, 3.25, 1.75, 2.5)),
        Leaf(Rect(4.0, 3.25, 1.0, 1.75), Point(1.0, 4.0)),
        Vacant(Rect(3.25, 2.5, 1.0, 1.75)),
        Leaf(Rect(3.25, 2.5, 1.75, 2.5), Point(2.0, 3.0))),
      Internal(Rect(2.5, 1.0, 1.0, 2.5), 1.75, 1.75,
        Leaf(Rect(2.5, 1.75, 1.75, 2.5), Point(2.0, 2.0)),
        Vacant(Rect(2.5, 1.75, 1.0, 1.75)),
        Leaf(Rect(1.75, 1.0, 1.0, 1.75), Point(1.0, 1.0)),
        Vacant(Rect(1.75, 1.0, 1.75, 2.5))),
      Internal(Rect(2.5, 1.0, 2.5, 4.0), 3.25, 1.75,
        Vacant(Rect(2.5, 1.75, 3.25, 4.0)),
        Leaf(Rect(2.5, 1.75, 2.5, 3.25), Point(3.0, 2.0)),
        Vacant(Rect(1.75, 1.0, 2.5, 3.25)),
        Leaf(Rect(1.75, 1.0, 3.25, 4.0), Point(4.0, 1.0))))
  }

  /** The buckets of the first cut at (2.5, 2.5): two points each. */
  lemma EightBuckets()
    ensures Bucket(Eight(), 2.5, 2.5, 0) == [Point(4.0, 4.0), Point(3.0, 3.0)]
    ensures Bucket(Eight(), 2.5, 2.5, 1) == [Point(1.0, 4.0), Point(2.0, 3.0)]
    ensures Bucket(Eight(), 2.5, 2.5, 2) == [Point(1.0, 1.0), Point(2.0, 2.0)]
    ensures Bucket(Eight(), 2.5, 2.5, 3) == [Point(4.0, 1.0), Point(3.0, 2.0)]
  {
    var ps := Eight();
    assert ps == ps[..4] + ps[4..];
    forall q | 0 <= q < 4
      ensures Bucket(ps, 2.5, 2.5, q) == Keep(ps[0], 2.5, 2.5, q) + Keep(ps[1], 2.5, 2.5, q)
                                        + Keep(ps[2], 2.5, 2.5, q) + Keep(ps[3], 2.5, 2.5, q)
                                        + (Keep(ps[4], 2.5, 2.5, q) + Keep(ps[5], 2.5, 2.5, q)
                                        + Keep(ps[6], 2.5, 2.5, q) + Keep(ps[7], 2.5, 2.5, q))
    {
      BucketAppend(ps[..4], ps[4..], 2.5, 2.5, q);
      assert ps[..4] == [ps[0], ps[1], ps[2], ps[3]];
      assert ps[4..] == [ps[4], ps[5], ps[6], ps[7]];
      BucketOfFour(ps[0], ps[1], ps[2], ps[3], 2.5, 2.5, q);
      BucketOfFour(ps[4], ps[5], ps[6], ps[7], 2.5, 2.5, q);
    }
  }

  /** The bounding box of the eight points is the square from (1, 1) to (4, 4). */
  lemma EightBounds()
    ensures Bounding(Eight()) == Ok(Rect(4.0, 1.0, 1.0, 4.0))
  {
    var ps := Eight();
    BoundingIsSmallest(ps, Rect(4.0, 1.0, 1.0, 4.0));
    assert Bounding(ps).value.Contains(ps[0]) && Bounding(ps).value.Contains(ps[3]);
  }

  /** The second cut in the NE quarter, at (3.25, 3.25). */
  lemma EightNE()
    ensures Build([Point(4.0, 4.0), Point(3.0, 3.0)], Rect(4.0, 2.5, 2.5, 4.0), 1) == Ok(EightTree().ne)
  {
    var ps, b := [Point(4.0, 4.0), Point(3.0, 3.0)], Rect(4.0, 2.5, 2.5, 4.0);
    forall q | 0 <= q < 4
      ensures Bucket(ps, 3.25, 3.25, q) == Keep(ps[0], 3.25, 3.25, q) + Keep(ps[1], 3.25, 3.25, q)
    {
      BucketOfTwo(ps[0], ps[1], 3.25, 3.25, q);
    }
    ChildRects(b);
    BuildJoin(ps, b, 0, EightTree().ne.quadrants());
  }

  /** The second cut in the NW quarter, at (1.75, 3.25). */
  lemma EightNW()
    ensures Build([Point(1.0, 4.0), Point(2.0, 3.0)], Rect(4.0, 2.5, 1.0, 2.5), 1) == Ok(EightTree().nw)
  {
    var ps, b := [Point(1.0, 4.0), Point(2.0, 3.0)], Rect(4.0, 2.5, 1.0, 2.5);
    forall q | 0 <= q < 4
      ensures Bucket(ps, 1.75, 3.25, q) == Keep(ps[0], 1.75, 3.25, q) + Keep(ps[1], 1.75, 3.25, q)
    {
      BucketOfTwo(ps[0], ps[1], 1.75, 3.25, q);
    }
    ChildRects(b);
    BuildJoin(ps, b, 0, EightTree().nw.quadrants());
  }

  /** The second cut in the SW quarter, at (1.75, 1.75). */
  lemma EightSW()
    ensures Build([Point(1.0, 1.0), Point(2.0, 2.0)], Rect(2.5, 1.0, 1.0, 2.5), 1) == Ok(EightTree().sw)
  {
    var ps, b := [Point(1.0, 1.0), Point(2.0, 2.0)], Rect(2.5, 1.0, 1.0, 2.5);
    forall q | 0 <= q < 4
      ensures Bucket(ps, 1.75, 1.75, q) == Keep(ps[0], 1.75, 1.75, q) + Keep(ps[1], 1.75, 1.75, q)
    {
      BucketOfTwo(ps[0], ps[1], 1.75, 1.75, q);
    }
    ChildRects(b);
    BuildJoin(ps, b, 0, EightTree().sw.quadrants());
  }

  /** The second cut in the SE quarter, at (3.25, 1.75). */
  lemma EightSE()
    ensures Build([Point(4.0, 1.0), Point(3.0, 2.0)], Rect(2.5, 1.0, 2.5, 4.0), 1) == Ok(EightTree().se)
  {
    var ps, b := [Point(4.0, 1.0), Point(3.0, 2.0)], Rect(2.5, 1.0, 2.5, 4.0);
    forall q | 0 <= q < 4
      ensures Bucket(ps, 3.25, 1.75, q) == Keep(ps[0], 3.25, 1.75, q) + Keep(ps[1], 3.25, 1.75, q)
    {
      BucketOfTwo(ps[0], ps[1], 3.25, 1.75, q);
    }
    ChildRects(b);
    BuildJoin(ps, b, 0, EightTree().se.quadrants());
  }

  /** Two levels of splitting build the tree of the doctest. */
  lemma EightBuild()
    ensures Build(Eight(), Rect(4.0, 1.0, 1.0, 4.0), 2) == Ok(EightTree())
  {
    var b := Rect(4.0, 1.0, 1.0, 4.0);
    EightBuckets();
    ChildRects(b);
    EightNE();
    EightNW();
    EightSW();
    EightSE();
    BuildJoin(Eight(), b, 1, EightTree().quadrants());
  }

  /** Every first-level bucket holds two points, so one level of splitting
      runs out and a second one cuts them apart. */
  lemma EightDoctest()
    ensures Construct(Eight(), None, 2) == Ok(EightTree())
    ensures Construct(Eight(), None, 1) == Err(RecursionLimit)
  {
    EightBounds();
    EightBuild();
    EightBuckets();
    ChildRects(Rect(4.0, 1.0, 1.0, 4.0));
  }
}
