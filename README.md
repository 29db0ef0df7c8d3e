# Region quadtree over 2D points, in Dafny

This project models `geom.py`, a small region quadtree:

- `Point` — a pair of coordinates.
- `Rect` — a checked rectangle: its constructor asserts `left <= right` and `bottom <= top`.
- `Rect.bounding` — the bounding box of a non-empty list of points.
- `Quadtree.__init__` — the recursive construction. It takes the given region or the bounding box of the points. It stops on zero or one point. Otherwise it cuts the region at its midpoints, sends every point to one of four buckets, numbered

      1|0
      -+-
      2|3

  with `<=` sending points on a split line to the left and lower side, and builds one child per bucket over the matching quarter, in the order NE, NW, SW, SE.

The modules follow that structure:

- `Geom` (`geom.dfy`): points, rectangles, `MakeRect` (the checked constructor) and `Bounding`.
- `Partitioning` (`partitioning.dfy`): the quadrant rule, the reference definition `Bucket` of each bucket, and `Partition`, the `for p in points` loop over four lists.
- `Quadtrees` (`quadtrees.dfy`): the tree as a datatype with three kinds of node (`Vacant`, `Leaf`, `Internal`). It holds the construction as a function (`Build`/`Split`, with `Construct` for the optional region) and as a step-by-step method (`NewQuadtree`) proved equal to it. It also defines the child regions `Quarter` and `Builds`, a fuel-free relation between points, a region and a tree.
- `QuadtreeProperties` (`quadtree_properties.dfy`): what a finished construction guarantees. Construction with a given fuel finishes exactly with the trees of `Builds` no higher than that fuel. About those trees the module proves:
  - conservation of the points as a multiset;
  - containment at every level;
  - tiling by quarters at the midpoints;
  - only regions with two or more points are split.
- `QuadtreeTermination` (`termination.dfy`): when the recursion ends. A list holding a point twice is split forever. Distinct points are separated after a computable number of halvings. Construction over the bounding box therefore finishes exactly when the list is non-empty and has no repeated point.
- `QuadtreeDoctests` (`doctests.dfy`): the two doctests of `Quadtree`, as exact trees.

Modelling choices:

- **Coordinates are `real`** and the midpoint `(a + b)/2` is exact.
- **Errors are values** of `Result`:
  - the failing `assert` of `Rect` is `InvalidRect`;
  - `min`/`max` of an empty list is `EmptyInput`;
  - Python's `RecursionError` is `RecursionLimit`, reported when the `fuel` bound on the number of splitting levels runs out.
- **`br = None`** is `Option<Rect>`.
- **The `empty` flag** is `Quadtree.empty()`. It is true on `Vacant` and on `Leaf` nodes and false on `Internal` ones. This follows the code at geom.py:106-116: `empty` starts True and is cleared only when a node is split. So, despite its name, `empty` is also true on a one-point leaf.
- **Point equality is by coordinates.** Python's `Point` has no `__eq__`, so it compares by identity. Nothing in the construction compares points, though: bucketing looks only at coordinates. So two points with equal coordinates behave the same either way, and "repeated point" in the termination results means equal coordinates.

## Model

| member | source | states |
|---|---|---|
| Geom.MakeRect | geom.py:39-45 | `Rect(top, bottom, left, right)` succeeds exactly when `left <= right` and `bottom <= top`, keeping the four bounds; otherwise it fails with InvalidRect |
| Geom.Least | geom.py:62-63 | the least x (or y) of a non-empty list is the coordinate of one of its points and no point has a smaller one |
| Geom.Greatest | geom.py:64-65 | the greatest x (or y) of a non-empty list is attained by a point and no point exceeds it |
| Geom.Bounding | geom.py:48-66 | fails with EmptyInput exactly on an empty list; otherwise the result is a valid rectangle containing every point, and each of its four sides is attained by some point |
| Geom.BoundingIsSmallest | geom.py:48-66 | every rectangle containing all the points contains the bounding box |
| Geom.RectDoctest | geom.py:28-37 | `Rect(3, 1, 5, 7)` keeps top 3, bottom 1, left 5, right 7 |
| Geom.BoundingDoctest | geom.py:51-60 | the bounding box of (1,2), (3,4) has top 4, bottom 2, left 1, right 3 |
| Partitioning.Quadrant | geom.py:121-130 | the bucket is one of 0..3; it is 1 or 2 exactly when `x <= splitx`, and 2 or 3 exactly when `y <= splity` |
| Partitioning.Bucket | geom.py:119-130 | reference definition of bucket q, with no contract of its own; BucketCount, BucketMembers, BucketsPartition and BucketAppend state what it holds and in what order |
| Partitioning.BucketCount | geom.py:119-130 | bucket q holds every copy of a point of quadrant q and nothing else, with its multiplicity |
| Partitioning.BucketMembers | geom.py:119-130 | a point is in bucket q exactly when it is an input point of quadrant q |
| Partitioning.BucketsPartition | geom.py:119-130 | the four buckets together are a permutation of the input |
| Partitioning.BucketAppend | geom.py:120-130 | the bucket of a concatenation is the concatenation of the buckets, so each bucket keeps input order |
| Partitioning.DuplicatesStayTogether | geom.py:120-130 | a point occurring twice in the input occurs twice in its bucket |
| Partitioning.Partition | geom.py:119-130 | the loop yields four lists: list q is bucket q in input order, together they are a permutation of the input, and each holds only points of its quadrant |
| Quadtrees.Mid | geom.py:117-118 | the split coordinate is halfway between the two bounds and lies between them |
| Quadtrees.Build | geom.py:106-146 | construction over a given region, with no contract of its own; BuildShape states its base cases and result shape, and BuildSound with BuildComplete state exactly which trees it finishes with |
| Quadtrees.Split | geom.py:115-146 | a finished split is an internal node over the region, cut at its midpoints; BuildStep and BuildSplit state how its children are built |
| Quadtrees.BuildShape | geom.py:106-118 | zero or one point always succeeds; more points without fuel fail with RecursionLimit; a finished node covers its region; zero points give an empty node and one point a leaf holding it, both with `empty` set; more points give an internal node cut at the midpoints with `empty` cleared |
| Quadtrees.Quarter | geom.py:131-146 | the four child regions, with no contract of their own; ChildRects ties them to the `Rect(...)` calls, and QuartersTile and QuarterScale state their geometry |
| Quadtrees.Construct | geom.py:106-110 | with no region, no point fails with EmptyInput and any other list is built over its bounding box; a given region is used as is |
| Quadtrees.NewQuadtree | geom.py:92-146 | the step-by-step constructor (region, base cases, midpoints, partition loop, four child constructions in order) returns exactly `Construct` |
| QuadtreeProperties.Join | geom.py:131-146 | the children's results combine into an internal node exactly when all four succeed |
| QuadtreeProperties.ChildRects | geom.py:131-146 | over a valid region each of the four child `Rect(...)` calls succeeds with the matching quarter |
| QuadtreeProperties.QuartersTile | geom.py:117-146 | the quarters of a valid region are valid, lie inside it and together cover it |
| QuadtreeProperties.QuartersMeetOnSplitLines | geom.py:117-146 | a point in two different quarters lies on a split line |
| QuadtreeProperties.QuadrantInQuarter | geom.py:119-146 | a point of the region lies in the quarter of the bucket it is sent to |
| QuadtreeProperties.BucketInQuarter | geom.py:119-146 | if all points lie in the region, the points of bucket q lie in quarter q |
| QuadtreeProperties.BuildStep | geom.py:115-146 | helper: over a valid region with fuel left, construction of two or more points is the combination of the four children built over their buckets and quarters with one level less |
| QuadtreeProperties.BuildSplit | geom.py:115-146 | helper: a finished construction of two or more points had fuel left and a valid region, is an internal node cut at the midpoints, and each child is the construction of its bucket over its quarter |
| QuadtreeProperties.BuildJoin | geom.py:115-146 | helper: once the four children are built, the parent is built with one more level |
| QuadtreeProperties.ValidRegionNeverInvalid | geom.py:131-146 | over a valid region construction never fails with InvalidRect, only with RecursionLimit |
| QuadtreeProperties.BuildsOpen | geom.py:106-146 | helper: an internal node of `Builds` holds two or more points of a valid region cut at its midpoints, and its children are lower trees of `Builds` over the buckets and quarters |
| QuadtreeProperties.BuildsClose | geom.py:106-146 | helper: conversely, such a node whose children are trees of `Builds` is one itself |
| QuadtreeProperties.BuildSound | geom.py:106-146 | every finished construction is a tree of `Builds` no higher than the fuel |
| QuadtreeProperties.BuildComplete | geom.py:106-146 | construction with at least its height in fuel finishes with every tree of `Builds` |
| QuadtreeProperties.BuildCompleteChildren | geom.py:131-146 | helper: the four children of an internal tree of `Builds` are rebuilt with one level less |
| QuadtreeProperties.BuildFuelMonotone | geom.py:106-146 | more fuel never changes a finished construction |
| QuadtreeProperties.BuildsRegion | geom.py:107-110 | helper: a node covers the region it was built over |
| QuadtreeProperties.BuildsConserves | geom.py:112-146 | the leaves hold exactly the input points, as a multiset |
| QuadtreeProperties.BuildsContained | geom.py:109-146 | if every input point lies in the region, every point of every subtree lies in that subtree's region, edges included |
| QuadtreeProperties.BuildsTiled | geom.py:115-146 | over a valid region every region is valid and every internal node is cut at its midpoints into its four quarters in the order NE, NW, SW, SE |
| QuadtreeProperties.BuildsSeparating | geom.py:112-116 | only nodes holding two or more points are split |
| QuadtreeProperties.ConstructSound | geom.py:106-146 | a finished `Quadtree(points)` covers the bounding box, holds exactly the input points, and is contained, tiled and separating |
| QuadtreeTermination.DuplicatesNeverBuild | geom.py:115-146 | no tree of `Builds` holds a point twice |
| QuadtreeTermination.DuplicatesNeverFinish | geom.py:115-146 | with a repeated point construction fails for every fuel, and over a valid region it fails with RecursionLimit |
| QuadtreeTermination.NotSeparatedAtRoot | geom.py:115-118 | two distinct points inside a region both fit in it |
| QuadtreeTermination.QuarterScale | geom.py:117-118 | the sides of a quarter are half those of its parent |
| QuadtreeTermination.BucketSeparated | geom.py:117-146 | points that `n` halvings of the region separate are separated within their quarter after `n - 1` |
| QuadtreeTermination.BucketDistinct | geom.py:119-130 | a bucket of distinct points has distinct points |
| QuadtreeTermination.BuildJoinOk | geom.py:131-146 | the parent finishes once its four children do |
| QuadtreeTermination.SeparatedFinishes | geom.py:106-146 | distinct points of a valid region that `n` halvings separate are built with `n` levels |
| QuadtreeTermination.PairSteps | geom.py:117-118 | a number of halvings after which two distinct points no longer fit in one region |
| QuadtreeTermination.ApartShrinks | geom.py:117-118 | points separated at one size stay separated at every smaller size |
| QuadtreeTermination.DepthSeparates | geom.py:117-146 | `Depth` halvings separate every two distinct points of a valid region |
| QuadtreeTermination.DistinctFinishes | geom.py:106-146 | distinct points inside a valid region are built with `Depth` levels |
| QuadtreeTermination.FinishesIffDistinct | geom.py:106-146 | over a valid region holding the points, construction finishes for some fuel exactly when no point is repeated |
| QuadtreeTermination.ConstructFinishesIffDistinct | geom.py:106-146 | `Quadtree(points)` finishes for some recursion depth exactly when the list is non-empty and has no repeated point |
| QuadtreeDoctests.SquareBounds | geom.py:76-81 | the bounding box of the four corners of the doctest is the square from (1,1) to (2,2) |
| QuadtreeDoctests.SquareBuckets | geom.py:76-89 | the cut at (1.5, 1.5) sends (2,2), (1,2), (1,1), (2,1) to buckets 0, 1, 2, 3 |
| QuadtreeDoctests.SquareBuild | geom.py:76-89 | one level of splitting builds the four-leaf tree |
| QuadtreeDoctests.SquareDoctest | geom.py:76-89 | `Quadtree(points)` over the square gives quadrants 0..3 holding (2,2), (1,2), (1,1), (2,1) |
| QuadtreeDoctests.EightBounds | geom.py:95-104 | the bounding box of the eight points is the square from (1,1) to (4,4) |
| QuadtreeDoctests.EightBuckets | geom.py:95-104 | the first cut at (2.5, 2.5) puts two points in each bucket, in input order |
| QuadtreeDoctests.EightNE | geom.py:95-104 | the second cut of the NE quarter separates (4,4) and (3,3) |
| QuadtreeDoctests.EightNW | geom.py:95-104 | the second cut of the NW quarter separates (1,4) and (2,3) |
| QuadtreeDoctests.EightSW | geom.py:95-104 | the second cut of the SW quarter separates (1,1) and (2,2) |
| QuadtreeDoctests.EightSE | geom.py:95-104 | the second cut of the SE quarter separates (4,1) and (3,2) |
| QuadtreeDoctests.EightBuild | geom.py:95-104 | two levels of splitting build the two-level tree |
| QuadtreeDoctests.EightDoctest | geom.py:95-104 | `Quadtree(points)` on the eight points finishes with two levels of splitting and not with one |

## Left out

- `Point.__repr__` (geom.py:16-23) and the `doctest.testmod()` runner (geom.py:148-150): output formatting and a test driver, not behaviour of the structure.
- The `Point` doctest (geom.py:5-9) only reads the two fields back; in the model these are the datatype's own fields.
- Floating point: coordinates are real numbers and midpoints exact. IEEE rounding, infinities and NaN are not modelled. With floats, two adjacent values whose midpoint rounds onto the larger one can land in the same bucket at every level, so the source may never separate them. The model always separates distinct points.
- Python's recursion limit is a `fuel` bound on splitting levels. The model does not fix its value or count stack frames. Which fuel corresponds to Python's default limit is left open.
- Identity equality of Python objects is not modelled; the model compares points by coordinates. As argued above, the construction never compares points, so this changes no result.
- A region passed as `br` is any `Rect` value, checked or not. In Python it was checked when it was constructed. In the model an invalid one shows up as InvalidRect at the first split, and only then.
- Mutable attributes: the source stores the node's fields on `self`, and nothing writes them after `__init__`. The model builds immutable tree values, with `NewQuadtree` as the step-by-step constructor.
