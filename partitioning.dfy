/**
 * The partition step of `Quadtree.__init__` (geom.py): every point goes to
 * one of four buckets, numbered as the quadrants are drawn in the source
 *
 *     1|0
 *     -+-
 *     2|3
 *
 * with `<=` sending points on a split line to the left and lower side.
 */
module Partitioning {
  import opened Geom

  /** The bucket a point is appended to. The characterisation in the
      contract is the tie-breaking rule: left of or on `splitx` means 1 or 2,
      below or on `splity` means 2 or 3. */
  function Quadrant(p: Point, splitx: real, splity: real): (q: nat)
    ensures q < 4
    ensures (q == 1 || q == 2) <==> p.x <= splitx
    ensures (q == 2 || q == 3) <==> p.y <= splity
  {
    if p.x <= splitx then
      if p.y <= splity then 2 else 1
    else
      if p.y <= splity then 3 else 0
  }

  /** Reference definition of bucket `q`: the points of quadrant `q`, in input
      order, built back to front the way `append` builds it front to back. */
  function Bucket(points: seq<Point>, splitx: real, splity: real, q: nat): seq<Point>
  {
    if |points| == 0 then []
    else
      var last := points[|points| - 1];
      Bucket(points[..|points| - 1], splitx, splity, q)
        + (if Quadrant(last, splitx, splity) == q then [last] else [])
  }

  /** A bucket holds exactly the copies of the input points that belong to its
      quadrant, with their multiplicity. */
  lemma {:induction false} BucketCount(points: seq<Point>, splitx: real, splity: real, q: nat, p: Point)
    ensures multiset(Bucket(points, splitx, splity, q))[p]
         == if Quadrant(p, splitx, splity) == q then multiset(points)[p] else 0
  {
    if |points| > 0 {
      var init, last := points[..|points| - 1], points[|points| - 1];
      assert points == init + [last];
      BucketCount(init, splitx, splity, q, p);
    }
  }

  /** Membership in bucket `q`: a point is in it exactly when it is an input
      point of quadrant `q`. */
  lemma BucketMembers(points: seq<Point>, splitx: real, splity: real, q: nat, p: Point)
    ensures p in Bucket(points, splitx, splity, q) <==> p in points && Quadrant(p, splitx, splity) == q
  {
    BucketCount(points, splitx, splity, q, p);
    assert p in multiset(Bucket(points, splitx, splity, q)) <==> p in Bucket(points, splitx, splity, q);
  }

  /** The four buckets together are a permutation of the input. */
  lemma BucketsPartition(points: seq<Point>, splitx: real, splity: real)
    ensures multiset(Bucket(points, splitx, splity, 0)) + multiset(Bucket(points, splitx, splity, 1))
          + multiset(Bucket(points, splitx, splity, 2)) + multiset(Bucket(points, splitx, splity, 3))
         == multiset(points)
  {
    var all := multiset(Bucket(points, splitx, splity, 0)) + multiset(Bucket(points, splitx, splity, 1))
             + multiset(Bucket(points, splitx, splity, 2)) + multiset(Bucket(points, splitx, splity, 3));
    forall p ensures all[p] == multiset(points)[p] {
      BucketCount(points, splitx, splity, 0, p);
      BucketCount(points, splitx, splity, 1, p);
      BucketCount(points, splitx, splity, 2, p);
      BucketCount(points, splitx, splity, 3, p);
    }
  }

  /** Splitting the input splits every bucket the same way, so each bucket
      keeps the relative order of the input. */
  lemma {:induction false} BucketAppend(xs: seq<Point>, ys: seq<Point>, splitx: real, splity: real, q: nat)
    ensures Bucket(xs + ys, splitx, splity, q) == Bucket(xs, splitx, splity, q) + Bucket(ys, splitx, splity, q)
  {
    if |ys| == 0 {
      assert xs + ys == xs;
    } else {
      var init, last := ys[..|ys| - 1], ys[|ys| - 1];
      assert (xs + ys)[..|xs + ys| - 1] == xs + init;
      BucketAppend(xs, init, splitx, splity, q);
    }
  }

  /** A point equal to another lands in the same bucket, so a point that occurs
      more than once in the input occurs more than once in its bucket. */
  lemma DuplicatesStayTogether(points: seq<Point>, splitx: real, splity: real, p: Point)
    requires multiset(points)[p] > 1
    ensures multiset(Bucket(points, splitx, splity, Quadrant(p, splitx, splity)))[p] > 1
  {
    BucketCount(points, splitx, splity, Quadrant(p, splitx, splity), p);
  }

  /** The `for p in points` loop of `Quadtree.__init__`, appending to the four
      lists of `quadrants`. */
  method Partition(points: seq<Point>, splitx: real, splity: real) returns (quadrants: seq<seq<Point>>)
    ensures |quadrants| == 4
    ensures forall q :: 0 <= q < 4 ==> quadrants[q] == Bucket(points, splitx, splity, q)
    ensures multiset(quadrants[0]) + multiset(quadrants[1]) + multiset(quadrants[2]) + multiset(quadrants[3])
         == multiset(points)
    ensures forall q, p :: 0 <= q < 4 && p in quadrants[q] ==> Quadrant(p, splitx, splity) == q
  {
    quadrants := [[], [], [], []];
    for i := 0 to |points|
      invariant |quadrants| == 4
      invariant forall q :: 0 <= q < 4 ==> quadrants[q] == Bucket(points[..i], splitx, splity, q)
    {
      var p := points[i];
      assert points[..i + 1][..i] == points[..i];
      if p.x <= splitx {
        if p.y <= splity {
          quadrants := quadrants[2 := quadrants[2] + [p]];
        } else {
          quadrants := quadrants[1 := quadrants[1] + [p]];
        }
      } else {
        if p.y <= splity {
          quadrants := quadrants[3 := quadrants[3] + [p]];
        } else {
          quadrants := quadrants[0 := quadrants[0] + [p]];
        }
      }
    }
    assert points[..|points|] == points;
    BucketsPartition(points, splitx, splity);
    forall q, p | 0 <= q < 4 && p in quadrants[q] ensures Quadrant(p, splitx, splity) == q {
      BucketMembers(points, splitx, splity, q, p);
    }
  }
}
