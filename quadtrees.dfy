/**
 * `Quadtree.__init__` (geom.py): the recursive construction.
 *
 * The source tells node kinds apart by its `empty` flag and by which of
 * `point` and `quadrants` it has set; here they are three constructors.
 * The recursion of the source never ends when two input points coincide,
 * so construction takes a `fuel` bound on the number of splitting levels and
 * reports `RecursionLimit` (the source's RecursionError) when it runs out.
 * Beside it stands `Builds`, the same recursion without fuel, as a relation
 * between the points, the region and the tree made of them.
 */
module Quadtrees {
  import opened Geom
  import opened Partitioning

  datatype Quadtree =
    | Vacant(br: Rect)
    | Leaf(br: Rect, point: Point)
    | Internal(br: Rect, splitx: real, splity: real, ne: Quadtree, nw: Quadtree, sw: Quadtree, se: Quadtree)
  {
    /** The source's `empty` flag: set when construction starts and cleared
        only when the node is split, so a one-point leaf keeps it. */
    predicate empty() { !Internal? }

    /** The source's `quadrants` list, indexed 0 = NE, 1 = NW, 2 = SW, 3 = SE. */
    function quadrants(): (qs: seq<Quadtree>)
      requires Internal?
      ensures |qs| == 4
    {
      [ne, nw, sw, se]
    }
  }

  /** The exact midpoint of two coordinates (the source's `/2`). */
  function Mid(a: real, b: real): (m: real)
    ensures a <= b ==> a <= m <= b
    ensures m - a == b - m
  {
    (a + b) / 2.0
  }

  /** Construction over a given region `br`, one level of splitting per unit
      of `fuel`; `BuildShape` below states its base cases and the shape of
      what it returns. */
  function Build(points: seq<Point>, br: Rect, fuel: nat): (r: Result<Quadtree>)
    decreases fuel, 1
  {
    if |points| == 0 then Ok(Vacant(br))
    else if |points| == 1 then Ok(Leaf(br, points[0]))
    else if fuel == 0 then Err(RecursionLimit)
    else Split(points, br, fuel)
  }

  /** One level of splitting: cut `br` at its midpoints, partition the points
      and build the four children in the order NE, NW, SW, SE, stopping at
      the first failure. A finished split is an internal node over `br` cut
      at the midpoints. */
  function Split(points: seq<Point>, br: Rect, fuel: nat): (r: Result<Quadtree>)
    requires fuel > 0
    decreases fuel, 0
    ensures r.Ok? ==>
      && r.value.Internal? && r.value.br == br
      && r.value.splitx == Mid(br.left, br.right) && r.value.splity == Mid(br.top, br.bottom)
  {
    var splitx := Mid(br.left, br.right);
    var splity := Mid(br.top, br.bottom);
    // The first quarter is a valid rectangle exactly when `br` is, and then
    // so are the other three.
    var r0 :- MakeRect(br.top, splity, splitx, br.right);
    var ne :- Build(Bucket(points, splitx, splity, 0), r0, fuel - 1);
    var r1 := MakeRect(br.top, splity, br.left, splitx).value;
    var nw :- Build(Bucket(points, splitx, splity, 1), r1, fuel - 1);
    var r2 := MakeRect(splity, br.bottom, br.left, splitx).value;
    var sw :- Build(Bucket(points, splitx, splity, 2), r2, fuel - 1);
    var r3 := MakeRect(splity, br.bottom, splitx, br.right).value;
    var se :- Build(Bucket(points, splitx, splity, 3), r3, fuel - 1);
    Ok(Internal(br, splitx, splity, ne, nw, sw, se))
  }

  /** The base cases and the shape of a finished construction: the node
      covers `br`; no point gives an empty node and one point a leaf holding
      it, both with the `empty` flag still set; more points give an internal
      node cut at the midpoints, with the flag cleared, and without fuel they
      fail with the recursion limit. */
  lemma {:induction false} BuildShape(points: seq<Point>, br: Rect, fuel: nat)
    ensures |points| <= 1 ==> Build(points, br, fuel).Ok?
    ensures |points| > 1 && fuel == 0 ==> Build(points, br, fuel) == Err(RecursionLimit)
    ensures var r := Build(points, br, fuel);
      r.Ok? ==>
        && r.value.br == br
        && (r.value.Vacant? <==> |points| == 0)
        && (r.value.Leaf? <==> |points| == 1)
        && (r.value.Leaf? ==> r.value.point == points[0])
        && (r.value.Internal? <==> |points| > 1)
        && (r.value.empty() <==> |points| <= 1)
        && (r.value.Internal? ==>
              r.value.splitx == Mid(br.left, br.right) && r.value.splity == Mid(br.top, br.bottom))
  {
  }

  /** Quarter `q` of `br` cut at (`splitx`, `splity`), as the quadrant picture
      of the source draws it: 0 = NE, 1 = NW, 2 = SW, 3 = SE. */
  function Quarter(br: Rect, splitx: real, splity: real, q: nat): Rect
    requires q < 4
  {
    match q
    case 0 => Rect(br.top, splity, splitx, br.right)
    case 1 => Rect(br.top, splity, br.left, splitx)
    case 2 => Rect(splity, br.bottom, br.left, splitx)
    case 3 => Rect(splity, br.bottom, splitx, br.right)
  }

  /** `t` is the tree the construction produces from `points` over `br` when
      it is not cut short: no point gives an empty node, one point a leaf, and
      more points a node over a valid region, cut at its midpoints, whose
      children are built the same way from the four buckets over the four
      quarters. */
  predicate Builds(points: seq<Point>, br: Rect, t: Quadtree)
    decreases t
  {
    match t
    case Vacant(b) => b == br && |points| == 0
    case Leaf(b, p) => b == br && points == [p]
    case Internal(b, sx, sy, ne, nw, sw, se) =>
      && b == br && br.Valid() && |points| > 1
      && sx == Mid(br.left, br.right) && sy == Mid(br.top, br.bottom)
      && Builds(Bucket(points, sx, sy, 0), Quarter(br, sx, sy, 0), ne)
      && Builds(Bucket(points, sx, sy, 1), Quarter(br, sx, sy, 1), nw)
      && Builds(Bucket(points, sx, sy, 2), Quarter(br, sx, sy, 2), sw)
      && Builds(Bucket(points, sx, sy, 3), Quarter(br, sx, sy, 3), se)
  }

  function Max(a: nat, b: nat): nat { if a < b then b else a }

  /** The number of splitting levels of a tree: the fuel its construction uses. */
  function Height(t: Quadtree): nat {
    match t
    case Vacant(_) => 0
    case Leaf(_, _) => 0
    case Internal(_, _, _, ne, nw, sw, se) => 1 + Max(Max(Height(ne), Height(nw)), Max(Height(sw), Height(se)))
  }

  /** `Quadtree(points, br)`, where `br` may be left out (`None` for the
      source's `br = None`) and is then the bounding box of the points. */
  function Construct(points: seq<Point>, br: Option<Rect>, fuel: nat): (r: Result<Quadtree>)
    ensures br.None? && |points| == 0 ==> r == Err(EmptyInput)
    ensures br.None? && |points| > 0 ==> r == Build(points, Bounding(points).value, fuel)
    ensures br.Some? ==> r == Build(points, br.value, fuel)
  {
    match br
    case Some(b) => Build(points, b, fuel)
    case None =>
      var b :- Bounding(points);
      Build(points, b, fuel)
  }

  /** `Quadtree.__init__` step by step: settle the region, stop on zero or one
      point, otherwise split at the midpoints, run the partition loop and build
      the four children in the order NE, NW, SW, SE. */
  method NewQuadtree(points: seq<Point>, br: Option<Rect>, fuel: nat) returns (r: Result<Quadtree>)
    decreases fuel
    ensures r == Construct(points, br, fuel)
  {
    var region: Rect;
    match br {
      case Some(b) =>
        region := b;
      case None =>
        region :- Bounding(points);
    }
    if |points| == 0 {
      return Ok(Vacant(region));
    }
    if |points| == 1 {
      return Ok(Leaf(region, points[0]));
    }
    if fuel == 0 {
      return Err(RecursionLimit);
    }
    var splitx := Mid(region.left, region.right);
    var splity := Mid(region.top, region.bottom);
    var quadrants := Partition(points, splitx, splity);
    assert Construct(points, br, fuel) == Split(points, region, fuel);
    // The first quarter is a valid rectangle exactly when `region` is, and
    // then so are the other three.
    var r0 :- MakeRect(region.top, splity, splitx, region.right);
    var ne :- NewQuadtree(quadrants[0], Some(r0), fuel - 1);
    var r1 := MakeRect(region.top, splity, region.left, splitx).value;
    var nw :- NewQuadtree(quadrants[1], Some(r1), fuel - 1);
    var r2 := MakeRect(splity, region.bottom, region.left, splitx).value;
    var sw :- NewQuadtree(quadrants[2], Some(r2), fuel - 1);
    var r3 := MakeRect(splity, region.bottom, splitx, region.right).value;
    var se :- NewQuadtree(quadrants[3], Some(r3), fuel - 1);
    return Ok(Internal(region, splitx, splity, ne, nw, sw, se));
  }
}
