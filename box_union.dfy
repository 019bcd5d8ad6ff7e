/**
 * `get_all_visible_model_boundingbox`: the box spanning every element box of a view.
 * Missing elements, elements whose box lookup raises, and boxes without `Min` or `Max`
 * are skipped; with nothing left the result is `None`.
 */
module BoxUnion {
  import opened Wrappers
  import opened Geometry

  /** A `BoundingBoxXYZ` as returned by Revit, either corner possibly `None`. */
  datatype RawBox = RawBox(min: Option<Point>, max: Option<Point>)

  /** One entry of `elements`: `None`, an element whose `get_BoundingBox` raises, or its result. */
  datatype Entry = NoElement | LookupRaises | Looked(bbox: Option<RawBox>)

  /** The box the loop takes from an entry, if it does not skip it. */
  function UsableBox(e: Entry): (r: Option<Box>)
    ensures r.Some? <==> e.Looked? && e.bbox.Some? && e.bbox.value.min.Some? && e.bbox.value.max.Some?
    ensures r.Some? ==> r.value == Box(e.bbox.value.min.value, e.bbox.value.max.value)
  {
    match e
    case Looked(Some(RawBox(Some(lo), Some(hi)))) => Some(Box(lo, hi))
    case _ => None
  }

  predicate Usable(elements: seq<Entry>, i: int)
  {
    0 <= i < |elements| && UsableBox(elements[i]).Some?
  }

  /** `u` encloses every usable box. */
  ghost predicate EnclosesAll(u: Box, elements: seq<Entry>)
  {
    forall i :: Usable(elements, i) ==> Encloses(u, UsableBox(elements[i]).value)
  }

  /** Each of the six bounds of `u` is the bound of some usable box. */
  ghost predicate BoundsAttained(u: Box, elements: seq<Entry>)
  {
    && (exists i :: Usable(elements, i) && UsableBox(elements[i]).value.min.x == u.min.x)
    && (exists i :: Usable(elements, i) && UsableBox(elements[i]).value.min.y == u.min.y)
    && (exists i :: Usable(elements, i) && UsableBox(elements[i]).value.min.z == u.min.z)
    && (exists i :: Usable(elements, i) && UsableBox(elements[i]).value.max.x == u.max.x)
    && (exists i :: Usable(elements, i) && UsableBox(elements[i]).value.max.y == u.max.y)
    && (exists i :: Usable(elements, i) && UsableBox(elements[i]).value.max.z == u.max.z)
  }

  /**
   * The loop over `elements` with its six running bounds; `found` stands for
   * `min_x is not None`. The result is `None` exactly when no entry has a usable box;
   * otherwise it encloses every usable box and each of its bounds comes from one of them.
   */
  method UnionBoundingBox(elements: seq<Entry>) returns (r: Option<Box>)
    ensures r.None? <==> forall i :: 0 <= i < |elements| ==> UsableBox(elements[i]).None?
    ensures r.Some? ==> EnclosesAll(r.value, elements) && BoundsAttained(r.value, elements)
  {
    var found := false;
    var minX, minY, minZ, maxX, maxY, maxZ := 0.0, 0.0, 0.0, 0.0, 0.0, 0.0;
    // indices of the boxes that supplied the current bounds
    ghost var wMinX, wMinY, wMinZ, wMaxX, wMaxY, wMaxZ := 0, 0, 0, 0, 0, 0;
    for i := 0 to |elements|
      invariant found <==> exists j :: 0 <= j < i && Usable(elements, j)
      invariant found ==> forall j :: 0 <= j < i && Usable(elements, j) ==>
        Encloses(Box(Point(minX, minY, minZ), Point(maxX, maxY, maxZ)), UsableBox(elements[j]).value)
      invariant found ==> wMinX < i && Usable(elements, wMinX) && UsableBox(elements[wMinX]).value.min.x == minX
      invariant found ==> wMinY < i && Usable(elements, wMinY) && UsableBox(elements[wMinY]).value.min.y == minY
      invariant found ==> wMinZ < i && Usable(elements, wMinZ) && UsableBox(elements[wMinZ]).value.min.z == minZ
      invariant found ==> wMaxX < i && Usable(elements, wMaxX) && UsableBox(elements[wMaxX]).value.max.x == maxX
      invariant found ==> wMaxY < i && Usable(elements, wMaxY) && UsableBox(elements[wMaxY]).value.max.y == maxY
      invariant found ==> wMaxZ < i && Usable(elements, wMaxZ) && UsableBox(elements[wMaxZ]).value.max.z == maxZ
    {
      var element := elements[i];
      if element.NoElement? {
        assert !Usable(elements, i);
        continue;
      }
      var bbox: Option<RawBox> := if element.LookupRaises? then None else element.bbox;
      if bbox.None? || bbox.value.min.None? || bbox.value.max.None? {
        assert !Usable(elements, i);
        continue;
      }
      var lo, hi := bbox.value.min.value, bbox.value.max.value;
      assert Usable(elements, i) && UsableBox(element) == Some(Box(lo, hi));
      if !found {
        found := true;
        minX, minY, minZ, maxX, maxY, maxZ := lo.x, lo.y, lo.z, hi.x, hi.y, hi.z;
        wMinX, wMinY, wMinZ, wMaxX, wMaxY, wMaxZ := i, i, i, i, i, i;
        continue;
      }
      if lo.x < minX { minX, wMinX := lo.x, i; }
      if lo.y < minY { minY, wMinY := lo.y, i; }
      if lo.z < minZ { minZ, wMinZ := lo.z, i; }
      if hi.x > maxX { maxX, wMaxX := hi.x, i; }
      if hi.y > maxY { maxY, wMaxY := hi.y, i; }
      if hi.z > maxZ { maxZ, wMaxZ := hi.z, i; }
    }
    if !found {
      forall i | 0 <= i < |elements|
        ensures UsableBox(elements[i]).None?
      {
        assert !Usable(elements, i);
      }
      return None;
    }
    r := Some(Box(Point(minX, minY, minZ), Point(maxX, maxY, maxZ)));
  }

  /** A box that encloses every usable box also encloses their union: the union is the smallest such box. */
  lemma UnionIsSmallest(u: Box, other: Box, elements: seq<Entry>)
    requires EnclosesAll(u, elements) && BoundsAttained(u, elements)
    requires EnclosesAll(other, elements)
    ensures Encloses(other, u)
  {
    var i0 :| Usable(elements, i0) && UsableBox(elements[i0]).value.min.x == u.min.x;
    var i1 :| Usable(elements, i1) && UsableBox(elements[i1]).value.min.y == u.min.y;
    var i2 :| Usable(elements, i2) && UsableBox(elements[i2]).value.min.z == u.min.z;
    var i3 :| Usable(elements, i3) && UsableBox(elements[i3]).value.max.x == u.max.x;
    var i4 :| Usable(elements, i4) && UsableBox(elements[i4]).value.max.y == u.max.y;
    var i5 :| Usable(elements, i5) && UsableBox(elements[i5]).value.max.z == u.max.z;
    assert Encloses(other, UsableBox(elements[i0]).value);
    assert Encloses(other, UsableBox(elements[i1]).value);
    assert Encloses(other, UsableBox(elements[i2]).value);
    assert Encloses(other, UsableBox(elements[i3]).value);
    assert Encloses(other, UsableBox(elements[i4]).value);
    assert Encloses(other, UsableBox(elements[i5]).value);
  }

  /** The method's postcondition determines the result: two boxes that satisfy it are equal. */
  lemma UnionIsUnique(u: Box, v: Box, elements: seq<Entry>)
    requires EnclosesAll(u, elements) && BoundsAttained(u, elements)
    requires EnclosesAll(v, elements) && BoundsAttained(v, elements)
    ensures u == v
  {
    UnionIsSmallest(u, v, elements);
    UnionIsSmallest(v, u, elements);
  }

  /** Adding entries can only grow the union: the union of a prefix is enclosed by the whole's. */
  lemma UnionGrowsWithElements(u: Box, w: Box, elements: seq<Entry>, n: nat)
    requires n <= |elements|
    requires EnclosesAll(u, elements[..n]) && BoundsAttained(u, elements[..n])
    requires EnclosesAll(w, elements)
    ensures Encloses(w, u)
  {
    forall i | Usable(elements[..n], i)
      ensures Encloses(w, UsableBox(elements[..n][i]).value)
    {
      assert elements[..n][i] == elements[i];
    }
    UnionIsSmallest(u, w, elements[..n]);
  }
}
