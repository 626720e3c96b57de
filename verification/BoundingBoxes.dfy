/** Bounding boxes (src/layman/common/bbox.py), over real numbers. */
module BoundingBoxes {
  import opened Wrappers

  /** Four coordinates, or four times None. */
  datatype BBox = Empty | Box(minx: real, miny: real, maxx: real, maxy: real)

  function Min(a: real, b: real): real {
    if b < a then b else a
  }

  function Max(a: real, b: real): real {
    if b > a then b else a
  }

  function Coordinates(b: BBox): seq<Option<real>> {
    if b.Empty? then [None, None, None, None]
    else [Some(b.minx), Some(b.miny), Some(b.maxx), Some(b.maxy)]
  }

  predicate Valid(b: BBox) {
    b.Box? ==> b.minx <= b.maxx && b.miny <= b.maxy
  }

  function Nones(coords: seq<Option<real>>): nat {
    if coords == [] then 0 else (if coords[0] == None then 1 else 0) + Nones(coords[1..])
  }

  /** `is_valid` of any sequence of coordinates; only without None are they compared. */
  predicate IsValid(coords: seq<Option<real>>) {
    && |coords| == 4
    && Nones(coords) in {0, 4}
    && (coords[0].None? || coords[2].None? || coords[1].None? || coords[3].None?
        || (coords[0].value <= coords[2].value && coords[1].value <= coords[3].value))
  }

  lemma NonesOfFour(coords: seq<Option<real>>)
    requires |coords| == 4
    ensures Nones(coords) == 0 <==> forall i | 0 <= i < 4 :: coords[i].Some?
    ensures Nones(coords) == 4 <==> forall i | 0 <= i < 4 :: coords[i].None?
  {
    assert coords[1..][1..] == coords[2..] && coords[2..][1..] == coords[3..] && coords[3..][1..] == [];
    assert Nones(coords[3..]) == if coords[3] == None then 1 else 0;
    assert Nones(coords[2..]) == (if coords[2] == None then 1 else 0) + Nones(coords[3..]);
    assert Nones(coords[1..]) == (if coords[1] == None then 1 else 0) + Nones(coords[2..]);
  }

  /** The valid coordinates are those of the boxes with ordered sides and of the empty box. */
  lemma ValidCoordinates(coords: seq<Option<real>>)
    ensures IsValid(coords) <==> exists b :: Valid(b) && coords == Coordinates(b)
  {
    if |coords| == 4 {
      NonesOfFour(coords);
    }
    if IsValid(coords) {
      var b := if coords[0].None? then Empty
               else Box(coords[0].value, coords[1].value, coords[2].value, coords[3].value);
      assert Valid(b) && coords == Coordinates(b);
    }
  }

  predicate Contains(a: BBox, b: BBox, precision: real) {
    && a.Box? && b.Box?
    && a.minx <= b.minx + precision && a.miny <= b.miny + precision
    && b.maxx <= a.maxx + precision && b.maxy <= a.maxy + precision
  }

  predicate Intersects(a: BBox, b: BBox) {
    && a.Box? && b.Box?
    && a.minx <= b.maxx && a.maxx >= b.minx && a.miny <= b.maxy && a.maxy >= b.miny
  }

  function Intersection(a: BBox, b: BBox): BBox {
    if Intersects(a, b) then Box(Max(a.minx, b.minx), Max(a.miny, b.miny), Min(a.maxx, b.maxx), Min(a.maxy, b.maxy))
    else Empty
  }

  method GetIntersection(a: BBox, b: BBox) returns (r: BBox)
    ensures r == Intersection(a, b)
  {
    r := Empty;
    if Intersects(a, b) {
      r := b;
      if a.minx > b.minx {
        r := r.(minx := a.minx);
      }
      if a.miny > b.miny {
        r := r.(miny := a.miny);
      }
      if a.maxx < b.maxx {
        r := r.(maxx := a.maxx);
      }
      if a.maxy < b.maxy {
        r := r.(maxy := a.maxy);
      }
    }
  }

  /** The intersection is the greatest box within both, and it is empty exactly when no valid box lies in both. */
  lemma IntersectionIsGreatest(a: BBox, b: BBox)
    requires Valid(a) && Valid(b)
    ensures Valid(Intersection(a, b))
    ensures forall c | Valid(c) :: Contains(a, c, 0.0) && Contains(b, c, 0.0) <==> Contains(Intersection(a, b), c, 0.0)
    ensures Intersection(a, b) == Empty <==> forall c | Valid(c) :: !(Contains(a, c, 0.0) && Contains(b, c, 0.0))
  {
    var i := Intersection(a, b);
    if i.Box? {
      assert Valid(i) && Contains(a, i, 0.0) && Contains(b, i, 0.0);
    }
  }

  lemma IntersectionIsAssociative(a: BBox, b: BBox, c: BBox)
    requires Valid(a) && Valid(b) && Valid(c)
    ensures Intersection(Intersection(a, b), c) == Intersection(a, Intersection(b, c))
    ensures Intersection(a, b) == Intersection(b, a) && Intersection(a, a) == a
  {}

  /** Containment within a precision adds up along a chain. */
  lemma ContainsIsTransitive(a: BBox, b: BBox, c: BBox, p: real, q: real)
    requires Contains(a, b, p) && Contains(b, c, q)
    ensures Contains(a, c, p + q)
  {}

  /* ---- cropping, in set_bbox and transform ---- */

  function Cropped(b: BBox, max: BBox): BBox
    requires b.Box? && max.Box?
  {
    Box(Min(Max(b.minx, max.minx), max.maxx), Min(Max(b.miny, max.miny), max.maxy),
        Max(Min(b.maxx, max.maxx), max.minx), Max(Min(b.maxy, max.maxy), max.miny))
  }

  predicate HasArea(b: BBox) {
    b.Box? && b.minx != b.maxx && b.miny != b.maxy
  }

  /** The crop is a valid box inside the bounds, and the intersection exactly when the two meet; apart from the bounds
      it has shrunk to their border. */
  lemma CropIsIntersection(b: BBox, max: BBox)
    requires Valid(b) && Valid(max) && b.Box? && max.Box?
    ensures Valid(Cropped(b, max)) && Contains(max, Cropped(b, max), 0.0)
    ensures Cropped(b, max) == Intersection(b, max) <==> Intersects(b, max)
    ensures !Intersects(b, max) ==> !HasArea(Cropped(b, max))
    ensures Cropped(b, max) == b <==> Contains(max, b, 0.0)
  {}

  /** Clamping before and after the projection `st`, which PostGIS computes. */
  ghost function Transformed(b: BBox, world: BBox, st: BBox -> BBox, max: BBox): BBox
    requires forall c: BBox | c.Box? :: st(c).Box?
  {
    if b.Empty? then Empty
    else
      var inside := if world.Box? then Cropped(b, world) else b;
      if max.Box? then Cropped(st(inside), max) else st(inside)
  }

  /** The projection only ever sees a box within the world bounds, and what comes out lies in the bounds of the CRS,
      whatever the projection did to it. */
  lemma TransformStaysInBounds(b: BBox, world: BBox, st: BBox -> BBox, max: BBox)
    requires Valid(b) && Valid(world) && Valid(max) && forall c: BBox | c.Box? :: st(c).Box?
    ensures var r := Transformed(b, world, st, max);
      && (r.Empty? <==> b.Empty?)
      && (b.Box? && max.Box? ==> Contains(max, r, 0.0))
      && (b.Box? ==> exists c ::
            && Valid(c) && c.Box? && (world.Box? ==> Contains(world, c, 0.0))
            && r == if max.Box? then Cropped(st(c), max) else st(c))
  {
    if b.Box? {
      var inside := if world.Box? then Cropped(b, world) else b;
      assert Valid(inside) && inside.Box?;
    }
  }

  /* ---- the box of several files ---- */

  function Grown(r: BBox, file: BBox): BBox
    requires file.Box?
  {
    if r.Empty? then file
    else Box(Min(r.minx, file.minx), Min(r.miny, file.miny), Max(r.maxx, file.maxx), Max(r.maxy, file.maxy))
  }

  predicate Encloses(r: BBox, files: seq<BBox>) {
    forall i | 0 <= i < |files| :: Contains(r, files[i], 0.0)
  }

  /** `r` encloses all the files and lies in every box that does. */
  ghost predicate IsLeast(r: BBox, files: seq<BBox>) {
    if files == [] then r == Empty
    else Encloses(r, files) && forall c | Encloses(c, files) :: Contains(c, r, 0.0)
  }

  method GetBBoxFromFiles(files: seq<BBox>) returns (r: BBox)
    requires forall i | 0 <= i < |files| :: files[i].Box?
    ensures IsLeast(r, files)
  {
    r := Empty;
    for i := 0 to |files|
      invariant r.Empty? <==> i == 0
      invariant IsLeast(r, files[..i])
    {
      LeastGrows(r, files[..i], files[i]);
      assert files[..i + 1] == files[..i] + [files[i]];
      r := Grown(r, files[i]);
    }
    assert files[..|files|] == files;
  }

  lemma LeastGrows(r: BBox, files: seq<BBox>, file: BBox)
    requires file.Box? && IsLeast(r, files)
    ensures IsLeast(Grown(r, file), files + [file])
  {
    var all, g := files + [file], Grown(r, file);
    forall i | 0 <= i < |all| ensures Contains(g, all[i], 0.0) {
      if i < |files| {
        assert Contains(r, files[i], 0.0);
      }
    }
    forall c | Encloses(c, all) ensures Contains(c, g, 0.0) {
      assert Contains(c, all[|files|], 0.0);
      forall i | 0 <= i < |files| ensures Contains(c, files[i], 0.0) {
        assert Contains(c, all[i], 0.0);
      }
      assert Encloses(c, files);
    }
  }

  /** The least box depends only on which files there are, not on their order or repetition. */
  lemma OrderDoesNotMatter(r: BBox, files: seq<BBox>, r': BBox, files': seq<BBox>)
    requires IsLeast(r, files) && IsLeast(r', files') && (forall f :: f in files <==> f in files')
    ensures r == r'
  {
    MembersNeedMembers(files, files');
    MembersNeedMembers(files', files);
    if files != [] {
      EnclosesMembers(r, files, files');
      EnclosesMembers(r', files', files);
      assert Contains(r, r', 0.0) && Contains(r', r, 0.0);
    }
  }

  lemma MembersNeedMembers(files: seq<BBox>, files': seq<BBox>)
    requires forall f | f in files :: f in files'
    ensures files != [] ==> files' != []
  {
    if files != [] {
      assert files[0] in files';
    }
  }

  lemma EnclosesMembers(r: BBox, files: seq<BBox>, files': seq<BBox>)
    requires Encloses(r, files) && forall f | f in files' :: f in files
    ensures Encloses(r, files')
  {
    forall i | 0 <= i < |files'| ensures Contains(r, files'[i], 0.0) {
      assert files'[i] in files;
    }
  }

  /* ---- similarity ---- */

  datatype Error = AssertionError | TypeError

  function Area(b: BBox): real
    requires b.Box?
  {
    (b.maxx - b.minx) * (b.maxy - b.miny)
  }

  /** Padding by None raises a TypeError; so does padding the empty box. */
  function WithArea(b: BBox, padding: Option<real>): Result<BBox, Error> {
    if HasArea(b) then Ok(b)
    else if padding.None? || padding.value <= 0.0 then Err(AssertionError)
    else if b.Empty? then Err(TypeError)
    else
      var p := padding.value;
      var wide := if b.minx == b.maxx then b.(minx := b.minx - p, maxx := b.maxx + p) else b;
      Ok(if b.miny == b.maxy then wide.(miny := b.miny - p, maxy := b.maxy + p) else wide)
  }

  lemma WithAreaFits(b: BBox, padding: Option<real>)
    requires Valid(b) && WithArea(b, padding).Ok?
    ensures HasArea(b) || padding.Some?
    ensures var r := WithArea(b, padding).value;
      && Valid(r) && HasArea(r) && Contains(r, b, 0.0) && (HasArea(b) ==> r == b)
      && r.minx + r.maxx == b.minx + b.maxx && r.miny + r.maxy == b.miny + b.maxy
      && (b.minx != b.maxx ==> r.minx == b.minx) && (b.miny != b.maxy ==> r.miny == b.miny)
      && (b.minx == b.maxx ==> r.maxx - r.minx == 2.0 * padding.value)
      && (b.miny == b.maxy ==> r.maxy - r.miny == 2.0 * padding.value)
  {}

  lemma ProductIsPositive(x: real, y: real)
    requires x > 0.0 && y > 0.0
    ensures x * y > 0.0
  {}

  lemma AreaIsPositive(b: BBox)
    requires Valid(b) && HasArea(b)
    ensures Area(b) > 0.0
  {
    ProductIsPositive(b.maxx - b.minx, b.maxy - b.miny);
  }

  function Ratio(i: real, a: real, b: real): real
    requires a != 0.0 && b != 0.0
  {
    i / a * i / b
  }

  function Score(a: BBox, b: BBox): real
    requires Valid(a) && Valid(b) && HasArea(a) && HasArea(b) && Intersects(a, b)
  {
    AreaIsPositive(a);
    AreaIsPositive(b);
    Ratio(Area(Intersection(a, b)), Area(a), Area(b))
  }

  function AreSimilar(a: BBox, b: BBox, padding: Option<real>, limit: real): Result<bool, Error>
    requires Valid(a) && Valid(b)
  {
    var a', b' := WithArea(a, padding), WithArea(b, padding);
    if a'.Err? then Err(a'.error)
    else if b'.Err? then Err(b'.error)
    else
      WithAreaFits(a, padding);
      WithAreaFits(b, padding);
      Ok(Intersects(a'.value, b'.value) && Score(a'.value, b'.value) >= limit)
  }

  lemma ProductGrows(x: real, y: real, x': real, y': real)
    requires 0.0 <= x <= x' && 0.0 <= y <= y'
    ensures 0.0 <= x * y <= x' * y'
  {
    assert 0.0 <= x * y <= x' * y <= x' * y';
  }

  lemma ProductGrowsStrictly(x: real, y: real, x': real, y': real)
    requires 0.0 <= x <= x' && 0.0 <= y <= y' && 0.0 < x' && 0.0 < y' && (x < x' || y < y')
    ensures x * y < x' * y'
  {
    if x < x' {
      ProductIsPositive(x' - x, y');
      assert x * y' == x' * y' - (x' - x) * y';
      ProductGrows(x, y, x, y');
    } else {
      ProductIsPositive(x', y' - y);
      assert x' * y == x' * y' - x' * (y' - y);
    }
  }

  lemma AreaGrows(a: BBox, b: BBox)
    requires Valid(a) && Valid(b) && Contains(a, b, 0.0)
    ensures 0.0 <= Area(b) <= Area(a)
    ensures HasArea(a) && Area(b) == Area(a) ==> a == b
  {
    ProductGrows(b.maxx - b.minx, b.maxy - b.miny, a.maxx - a.minx, a.maxy - a.miny);
    if HasArea(a) && (b.maxx - b.minx < a.maxx - a.minx || b.maxy - b.miny < a.maxy - a.miny) {
      ProductGrowsStrictly(b.maxx - b.minx, b.maxy - b.miny, a.maxx - a.minx, a.maxy - a.miny);
    }
  }

  lemma RatioBounds(i: real, a: real, b: real)
    requires 0.0 <= i <= a && i <= b && 0.0 < a && 0.0 < b
    ensures 0.0 <= Ratio(i, a, b) <= 1.0
    ensures Ratio(i, a, b) == Ratio(i, b, a)
    ensures Ratio(i, a, b) == 1.0 <==> i == a && i == b
    ensures Ratio(i, a, b) == 0.0 <==> i == 0.0
  {
    var p, q := i / a, i / b;
    assert p * a == i && q * b == i;
    UnitRatio(i, a);
    UnitRatio(i, b);
    assert p * i / b == p * q;
    assert q * i / a == q * p;
    ProductGrows(p, q, 1.0, 1.0);
    if p < 1.0 || q < 1.0 {
      ProductGrowsStrictly(p, q, 1.0, 1.0);
    }
  }

  lemma UnitRatio(i: real, a: real)
    requires 0.0 <= i <= a && 0.0 < a
    ensures 0.0 <= i / a <= 1.0
    ensures i / a == 1.0 <==> i == a
    ensures i / a == 0.0 <==> i == 0.0
  {}

  lemma IntersectionAreas(a: BBox, b: BBox)
    requires Valid(a) && Valid(b) && HasArea(a) && HasArea(b) && Intersects(a, b)
    ensures var i := Area(Intersection(a, b));
      && 0.0 <= i <= Area(a) && i <= Area(b) && 0.0 < Area(a) && 0.0 < Area(b)
      && (i == Area(a) && i == Area(b) <==> a == b)
  {
    AreaIsPositive(a);
    AreaIsPositive(b);
    AreaGrows(a, Intersection(a, b));
    AreaGrows(b, Intersection(a, b));
  }

  lemma ScoreIsRatio(a: BBox, b: BBox)
    requires Valid(a) && Valid(b) && HasArea(a) && HasArea(b) && Intersects(a, b)
    ensures Area(a) != 0.0 && Area(b) != 0.0
    ensures Score(a, b) == Ratio(Area(Intersection(a, b)), Area(a), Area(b))
    ensures Score(b, a) == Ratio(Area(Intersection(a, b)), Area(b), Area(a))
  {
    AreaIsPositive(a);
    AreaIsPositive(b);
    assert Intersection(b, a) == Intersection(a, b);
  }

  /** The score is symmetric, lies between 0 and 1, and is 1 only for equal boxes. */
  lemma ScoreBounds(a: BBox, b: BBox)
    requires Valid(a) && Valid(b) && HasArea(a) && HasArea(b) && Intersects(a, b)
    ensures 0.0 <= Score(a, b) <= 1.0
    ensures Score(a, b) == Score(b, a)
    ensures Score(a, b) == 1.0 <==> a == b
  {
    IntersectionAreas(a, b);
    ScoreIsRatio(a, b);
    RatioBounds(Area(Intersection(a, b)), Area(a), Area(b));
  }

  /** Similarity is symmetric, in its errors too, and with the limit 1 it is equality. */
  lemma SimilarIsSymmetric(a: BBox, b: BBox, padding: Option<real>, limit: real)
    requires Valid(a) && Valid(b)
    ensures AreSimilar(a, b, padding, limit) == AreSimilar(b, a, padding, limit)
    ensures HasArea(a) && HasArea(b) ==> (AreSimilar(a, b, padding, 1.0) == Ok(true) <==> a == b)
    ensures HasArea(a) && limit <= 1.0 ==> AreSimilar(a, a, padding, limit) == Ok(true)
  {
    var a', b' := WithArea(a, padding), WithArea(b, padding);
    if a'.Ok? && b'.Ok? {
      WithAreaFits(a, padding);
      WithAreaFits(b, padding);
      if Intersects(a'.value, b'.value) {
        ScoreBounds(a'.value, b'.value);
      }
    }
    if HasArea(a) {
      ScoreBounds(a, a);
    }
  }

  lemma RatioMeans(i: real, a: real, b: real)
    requires a > 0.0 && b > 0.0
    ensures Ratio(i, a, b) * (a * b) == i * i
  {
    var p, q := i / a, i / b;
    assert p * a == i && q * b == i;
    assert Ratio(i, a, b) == p * q by {
      assert p * i / b == p * q;
    }
    assert p * q * (a * b) == (p * a) * (q * b);
  }

  lemma Compared(r: real, limit: real, d: real)
    requires d > 0.0
    ensures r >= limit <==> r * d >= limit * d
  {
    if r < limit {
      ProductIsPositive(limit - r, d);
      assert (limit - r) * d == limit * d - r * d;
    } else {
      assert 0.0 <= (r - limit) * d == r * d - limit * d;
    }
  }

  /** The square of the common area reaches the limit times the product of the two areas. */
  predicate Reaches(common: real, a: real, b: real, limit: real) {
    common * common >= limit * (a * b)
  }

  lemma ScoreMeans(a: BBox, b: BBox, limit: real)
    requires Valid(a) && Valid(b) && HasArea(a) && HasArea(b) && Intersects(a, b)
    ensures Score(a, b) >= limit <==> Reaches(Area(Intersection(a, b)), Area(a), Area(b), limit)
  {
    var i := Area(Intersection(a, b));
    AreaIsPositive(a);
    AreaIsPositive(b);
    ScoreIsRatio(a, b);
    AreasMean(i, Area(a), Area(b), limit);
  }

  lemma AreasMean(i: real, a: real, b: real, limit: real)
    requires a > 0.0 && b > 0.0
    ensures Ratio(i, a, b) >= limit <==> Reaches(i, a, b, limit)
  {
    ProductIsPositive(a, b);
    RatioMeans(i, a, b);
    Compared(Ratio(i, a, b), limit, a * b);
  }

  /** The box between the inner sides of two boxes, which are crossed if the boxes do not meet. */
  function Inner(a: BBox, b: BBox): BBox
    requires a.Box? && b.Box?
  {
    Box(Max(a.minx, b.minx), Max(a.miny, b.miny), Min(a.maxx, b.maxx), Min(a.maxy, b.maxy))
  }

  lemma AreaMeans(b: BBox, width: real, height: real)
    requires b.Box? && width == b.maxx - b.minx && height == b.maxy - b.miny
    ensures Area(b) == width * height
  {}

  lemma InnerMeets(a: BBox, b: BBox)
    requires Valid(a) && Valid(b) && a.Box? && b.Box?
    ensures Intersects(a, b) <==> Valid(Inner(a, b))
    ensures Intersects(a, b) ==> Intersection(a, b) == Inner(a, b)
  {}

  lemma SimilarIsScored(a: BBox, b: BBox, padding: Option<real>, limit: real)
    requires Valid(a) && Valid(b) && HasArea(a) && HasArea(b)
    ensures AreSimilar(a, b, padding, limit) == Ok(Intersects(a, b) && Score(a, b) >= limit)
  {}

  /** Boxes with area are similar when they meet and the square of the common area reaches the limit times the product
      of both areas. */
  lemma SimilarityMeans(a: BBox, b: BBox, padding: Option<real>, limit: real)
    requires Valid(a) && Valid(b) && HasArea(a) && HasArea(b)
    ensures AreSimilar(a, b, padding, limit)
         == Ok(Valid(Inner(a, b)) && Reaches(Area(Inner(a, b)), Area(a), Area(b), limit))
  {
    InnerMeets(a, b);
    SimilarIsScored(a, b, padding, limit);
    if Intersects(a, b) {
      ScoreMeans(a, b, limit);
    }
  }

  /** Boxes that have no area are compared only with a positive padding. */
  lemma SimilarityFails(a: BBox, b: BBox, padding: Option<real>, limit: real)
    requires Valid(a) && Valid(b)
    ensures AreSimilar(a, b, padding, limit) == Err(AssertionError) <==>
      (!HasArea(a) || !HasArea(b)) && (padding == None || padding.value <= 0.0)
    ensures AreSimilar(a, b, padding, limit) == Err(TypeError) <==>
      (a == Empty || b == Empty) && padding.Some? && padding.value > 0.0
  {}

  /** Containment within a precision is containment in the box grown by it. */
  lemma PrecisionGrows(a: BBox, b: BBox, precision: real)
    requires a.Box?
    ensures Contains(a, b, precision) <==>
      Contains(Box(a.minx - precision, a.miny - precision, a.maxx + precision, a.maxy + precision), b, 0.0)
    ensures Contains(a, b, 0.0) <==>
      b.Box? && a.minx <= b.minx && a.miny <= b.miny && b.maxx <= a.maxx && b.maxy <= a.maxy
  {}
}
