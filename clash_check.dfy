/**
 * The MEP/structure interference check of the ClashCheck push-button (`analyze_clashes`):
 * every MEP element is paired with every structural element, the MEP box is grown by the
 * tolerance on every axis, the strict six-comparison overlap test is applied, and every hit
 * is put in one of three buckets by the distance between the two box centres.
 *
 * Distances are kept squared (mm^2) so that no square root is needed; `ClassifyByDistance`
 * shows that comparing squares picks the same bucket as the source's comparison of distances.
 */
module ClashCheck {
  import opened Wrappers
  import opened Geometry
  import Units

  /** `TOLERANCE_CRITICAL`, in millimetres. */
  const TOLERANCE_CRITICAL: real := 25.0
  /** `TOLERANCE_WARNING`, in millimetres. */
  const TOLERANCE_WARNING: real := 50.0
  /** `TOLERANCE_CHECK`, in millimetres: the tolerance `main` passes to the check. */
  const TOLERANCE_CHECK: real := 100.0
  /** Square millimetres per square foot, 304.8 * 304.8. */
  const MM2_PER_FT2: real := 92903.04

  /** An element as the check sees it: its id and what `get_BoundingBox(None)` returned. */
  datatype Element = Element(id: int, bbox: Option<Box>)

  /** The three buckets of the result dictionary. */
  datatype Severity = Critical | Warning | Check

  /**
   * One entry of a bucket (`clash_data`): the positions of the two elements in their input
   * lists, the elements themselves, and the squared centre distance in mm^2.
   */
  datatype Clash = Clash(mepIndex: nat, structIndex: nat, mep: Element, structural: Element, distanceSqMm: real)

  /** The MEP box grown by `t` on each of X, Y and Z. */
  function Expand(b: Box, t: real): (e: Box)
    ensures t >= 0.0 ==> Encloses(e, b)
    ensures t == 0.0 ==> e == b
    ensures e.max.x - e.min.x == b.max.x - b.min.x + 2.0 * t
    ensures e.max.y - e.min.y == b.max.y - b.min.y + 2.0 * t
    ensures e.max.z - e.min.z == b.max.z - b.min.z + 2.0 * t
  {
    Box(Point(b.min.x - t, b.min.y - t, b.min.z - t), Point(b.max.x + t, b.max.y + t, b.max.z + t))
  }

  function Max(p: real, q: real): real
  {
    if p >= q then p else q
  }

  function Min(p: real, q: real): real
  {
    if p <= q then p else q
  }

  /** A box of positive extent on every axis. */
  predicate Proper(b: Box)
  {
    b.min.x < b.max.x && b.min.y < b.max.y && b.min.z < b.max.z
  }

  /** The common part of two boxes (improper when they do not meet). */
  function Meet(a: Box, b: Box): Box
  {
    Box(Point(Max(a.min.x, b.min.x), Max(a.min.y, b.min.y), Max(a.min.z, b.min.z)),
        Point(Min(a.max.x, b.max.x), Min(a.max.y, b.max.y), Min(a.max.z, b.max.z)))
  }

  /**
   * The six strict comparisons of the intersection test. For boxes of positive extent it holds
   * exactly when their common part has positive extent too, so boxes that only share a face do
   * not overlap.
   */
  predicate Overlaps(a: Box, b: Box)
    ensures Proper(Meet(a, b)) ==> Overlaps(a, b)
    ensures Proper(a) && Proper(b) ==> (Overlaps(a, b) <==> Proper(Meet(a, b)))
  {
    && a.max.x > b.min.x && a.min.x < b.max.x
    && a.max.y > b.min.y && a.min.y < b.max.y
    && a.max.z > b.min.z && a.min.z < b.max.z
  }

  /** The square of `feet_to_mm(center_mep.DistanceTo(center_struct))`. */
  function DistanceSqMm(m: Box, s: Box): (d: real)
    ensures d >= 0.0
    ensures m == s ==> d == 0.0
  {
    MM2_PER_FT2 * SquaredDistance(Center(m), Center(s))
  }

  /** The source's classification of a distance in millimetres (the `if`/`elif`/`else`). */
  function SeverityOfDistance(distanceMm: real): (sev: Severity)
    ensures sev == Critical <==> distanceMm < 25.0
    ensures sev == Warning <==> 25.0 <= distanceMm < 50.0
    ensures sev == Check <==> 50.0 <= distanceMm
  {
    if distanceMm < TOLERANCE_CRITICAL then Critical
    else if distanceMm < TOLERANCE_WARNING then Warning
    else Check
  }

  /** The same classification, on the squared distance against the squared thresholds. */
  function Classify(distanceSqMm: real): (sev: Severity)
    ensures sev == Critical <==> distanceSqMm < 625.0
    ensures sev == Warning <==> 625.0 <= distanceSqMm < 2500.0
    ensures sev == Check <==> 2500.0 <= distanceSqMm
  {
    if distanceSqMm < TOLERANCE_CRITICAL * TOLERANCE_CRITICAL then Critical
    else if distanceSqMm < TOLERANCE_WARNING * TOLERANCE_WARNING then Warning
    else Check
  }

  /** How far apart two intervals are; negative when they overlap. */
  function AxisGap(lo1: real, hi1: real, lo2: real, hi2: real): real
  {
    Max(lo2 - hi1, lo1 - hi2)
  }

  /** On each axis the two boxes are less than `t` apart. */
  predicate WithinOnEveryAxis(a: Box, b: Box, t: real)
  {
    && AxisGap(a.min.x, a.max.x, b.min.x, b.max.x) < t
    && AxisGap(a.min.y, a.max.y, b.min.y, b.max.y) < t
    && AxisGap(a.min.z, a.max.z, b.min.z, b.max.z) < t
  }

  /**
   * Both elements have a box, and the grown MEP box overlaps the structural box: the two boxes
   * are less than the tolerance apart on every axis.
   */
  predicate IsHit(mep: Element, structural: Element, toleranceFt: real)
    ensures IsHit(mep, structural, toleranceFt) <==>
      mep.bbox.Some? && structural.bbox.Some? &&
      WithinOnEveryAxis(mep.bbox.value, structural.bbox.value, toleranceFt)
  {
    && mep.bbox.Some? && structural.bbox.Some?
    && Overlaps(Expand(mep.bbox.value, toleranceFt), structural.bbox.value)
  }

  function ClashOf(i: nat, j: nat, mep: Element, structural: Element): Clash
    requires mep.bbox.Some? && structural.bbox.Some?
  {
    Clash(i, j, mep, structural, DistanceSqMm(mep.bbox.value, structural.bbox.value))
  }

  /** The hits of MEP element number `i` against the first `k` structural elements, in order. */
  function RowHits(i: nat, mep: Element, structs: seq<Element>, toleranceFt: real, k: nat): seq<Clash>
    requires k <= |structs|
  {
    if k == 0 then []
    else
      RowHits(i, mep, structs, toleranceFt, k - 1)
      + (if IsHit(mep, structs[k - 1], toleranceFt) then [ClashOf(i, k - 1, mep, structs[k - 1])] else [])
  }

  /** The hits of the first `n` MEP elements against all structural elements, in discovery order. */
  function Hits(meps: seq<Element>, structs: seq<Element>, toleranceFt: real, n: nat): seq<Clash>
    requires n <= |meps|
  {
    if n == 0 then []
    else Hits(meps, structs, toleranceFt, n - 1) + RowHits(n - 1, meps[n - 1], structs, toleranceFt, |structs|)
  }

  /** Every hit of a run with the given tolerance in millimetres, in discovery order. */
  function AllHits(meps: seq<Element>, structs: seq<Element>, toleranceMm: real): seq<Clash>
  {
    Hits(meps, structs, Units.ClashMmToFeet(toleranceMm), |meps|)
  }

  /** The entries of `s` that `Classify` puts in bucket `sev`, in their order in `s`. */
  function Bucket(s: seq<Clash>, sev: Severity): seq<Clash>
  {
    if s == [] then []
    else
      var last := s[|s| - 1];
      Bucket(s[..|s| - 1], sev) + (if Classify(last.distanceSqMm) == sev then [last] else [])
  }

  /** `a` was found before `b`: MEP position first, then structural position. */
  predicate Precedes(a: Clash, b: Clash)
  {
    a.mepIndex < b.mepIndex || (a.mepIndex == b.mepIndex && a.structIndex < b.structIndex)
  }

  predicate InDiscoveryOrder(s: seq<Clash>)
  {
    forall p, q :: 0 <= p < q < |s| ==> Precedes(s[p], s[q])
  }

  /** The hit of MEP position `c.mepIndex` and structural position `c.structIndex`, exactly as recorded. */
  predicate IsPairHit(meps: seq<Element>, structs: seq<Element>, toleranceFt: real, c: Clash)
  {
    && c.mepIndex < |meps| && c.structIndex < |structs|
    && IsHit(meps[c.mepIndex], structs[c.structIndex], toleranceFt)
    && c == ClashOf(c.mepIndex, c.structIndex, meps[c.mepIndex], structs[c.structIndex])
  }

  lemma BucketAppend(s: seq<Clash>, c: Clash, sev: Severity)
    ensures Bucket(s + [c], sev) == Bucket(s, sev) + (if Classify(c.distanceSqMm) == sev then [c] else [])
  {
    assert (s + [c])[..|s|] == s;
  }

  lemma RowWithoutBox(i: nat, mep: Element, structs: seq<Element>, toleranceFt: real, k: nat)
    requires k <= |structs| && mep.bbox.None?
    ensures RowHits(i, mep, structs, toleranceFt, k) == []
  {
    if k > 0 {
      RowWithoutBox(i, mep, structs, toleranceFt, k - 1);
    }
  }

  /**
   * `analyze_clashes`: the nested loops over MEP and structural elements. The buckets are
   * the hits, in discovery order, split by `Classify`.
   */
  method AnalyzeClashes(meps: seq<Element>, structs: seq<Element>, toleranceMm: real)
    returns (critical: seq<Clash>, warning: seq<Clash>, check: seq<Clash>)
    ensures critical == Bucket(AllHits(meps, structs, toleranceMm), Critical)
    ensures warning == Bucket(AllHits(meps, structs, toleranceMm), Warning)
    ensures check == Bucket(AllHits(meps, structs, toleranceMm), Check)
  {
    critical, warning, check := [], [], [];
    var toleranceFt := Units.ClashMmToFeet(toleranceMm);
    ghost var found: seq<Clash> := [];
    for i := 0 to |meps|
      invariant found == Hits(meps, structs, toleranceFt, i)
      invariant critical == Bucket(found, Critical)
      invariant warning == Bucket(found, Warning)
      invariant check == Bucket(found, Check)
    {
      var mepBox := meps[i].bbox;
      if mepBox.None? {
        RowWithoutBox(i, meps[i], structs, toleranceFt, |structs|);
        continue;
      }
      for j := 0 to |structs|
        invariant found == Hits(meps, structs, toleranceFt, i) + RowHits(i, meps[i], structs, toleranceFt, j)
        invariant critical == Bucket(found, Critical)
        invariant warning == Bucket(found, Warning)
        invariant check == Bucket(found, Check)
      {
        var structBox := structs[j].bbox;
        if structBox.None? {
          continue;
        }
        var expanded := Expand(mepBox.value, toleranceFt);
        if Overlaps(expanded, structBox.value) {
          var distanceSqMm := DistanceSqMm(mepBox.value, structBox.value);
          var clash := Clash(i, j, meps[i], structs[j], distanceSqMm);
          BucketAppend(found, clash, Critical);
          BucketAppend(found, clash, Warning);
          BucketAppend(found, clash, Check);
          if distanceSqMm < TOLERANCE_CRITICAL * TOLERANCE_CRITICAL {
            critical := critical + [clash];
          } else if distanceSqMm < TOLERANCE_WARNING * TOLERANCE_WARNING {
            warning := warning + [clash];
          } else {
            check := check + [clash];
          }
          found := found + [clash];
        }
      }
    }
  }

  // ---------------------------------------------------------------------------
  // Which pairs are reported
  // ---------------------------------------------------------------------------

  lemma {:induction false} InRowHits(i: nat, mep: Element, structs: seq<Element>, toleranceFt: real, k: nat, c: Clash)
    requires k <= |structs|
    ensures c in RowHits(i, mep, structs, toleranceFt, k) <==>
      && c.mepIndex == i && c.structIndex < k
      && IsHit(mep, structs[c.structIndex], toleranceFt)
      && c == ClashOf(i, c.structIndex, mep, structs[c.structIndex])
  {
    if k > 0 {
      InRowHits(i, mep, structs, toleranceFt, k - 1, c);
    }
  }

  lemma {:induction false} InHits(meps: seq<Element>, structs: seq<Element>, toleranceFt: real, n: nat, c: Clash)
    requires n <= |meps|
    ensures c in Hits(meps, structs, toleranceFt, n) <==> c.mepIndex < n && IsPairHit(meps, structs, toleranceFt, c)
  {
    if n > 0 {
      var earlier := Hits(meps, structs, toleranceFt, n - 1);
      var row := RowHits(n - 1, meps[n - 1], structs, toleranceFt, |structs|);
      InHits(meps, structs, toleranceFt, n - 1, c);
      InRowHits(n - 1, meps[n - 1], structs, toleranceFt, |structs|, c);
      assert Hits(meps, structs, toleranceFt, n) == earlier + row;
      assert c in earlier + row <==> c in earlier || c in row;
    }
  }

  /**
   * A clash is reported exactly when its two positions are in range, both elements have a
   * box, the grown MEP box overlaps the structural box, and the entry records those two
   * elements and their squared centre distance.
   */
  lemma ReportedIffHit(meps: seq<Element>, structs: seq<Element>, toleranceMm: real, c: Clash)
    ensures c in AllHits(meps, structs, toleranceMm) <==> IsPairHit(meps, structs, Units.ClashMmToFeet(toleranceMm), c)
  {
    InHits(meps, structs, Units.ClashMmToFeet(toleranceMm), |meps|, c);
  }

  /** An element without a bounding box takes part in no reported pair, on either side. */
  lemma MissingBoxNeverPaired(meps: seq<Element>, structs: seq<Element>, toleranceMm: real, c: Clash)
    requires c in AllHits(meps, structs, toleranceMm)
    ensures c.mepIndex < |meps| && meps[c.mepIndex].bbox.Some?
    ensures c.structIndex < |structs| && structs[c.structIndex].bbox.Some?
  {
    ReportedIffHit(meps, structs, toleranceMm, c);
  }

  lemma {:induction false} NoStructuralNoHits(meps: seq<Element>, toleranceFt: real, n: nat)
    requires n <= |meps|
    ensures Hits(meps, [], toleranceFt, n) == []
  {
    if n > 0 {
      NoStructuralNoHits(meps, toleranceFt, n - 1);
    }
  }

  /** No MEP elements, or no structural elements, gives three empty buckets. */
  lemma EmptyInputEmptyBuckets(meps: seq<Element>, structs: seq<Element>, toleranceMm: real)
    requires |meps| == 0 || |structs| == 0
    ensures Bucket(AllHits(meps, structs, toleranceMm), Critical) == []
    ensures Bucket(AllHits(meps, structs, toleranceMm), Warning) == []
    ensures Bucket(AllHits(meps, structs, toleranceMm), Check) == []
  {
    if |structs| == 0 {
      NoStructuralNoHits(meps, Units.ClashMmToFeet(toleranceMm), |meps|);
    }
  }

  // ---------------------------------------------------------------------------
  // The buckets
  // ---------------------------------------------------------------------------

  lemma {:induction false} InBucket(s: seq<Clash>, sev: Severity, c: Clash)
    ensures c in Bucket(s, sev) <==> c in s && Classify(c.distanceSqMm) == sev
  {
    if s != [] {
      InBucket(s[..|s| - 1], sev, c);
      assert s == s[..|s| - 1] + [s[|s| - 1]];
    }
  }

  /** Every hit lands in the bucket of its classification and in no other. */
  lemma ExactlyOneBucket(s: seq<Clash>, c: Clash)
    requires c in s
    ensures c in Bucket(s, Classify(c.distanceSqMm))
    ensures forall sev :: sev != Classify(c.distanceSqMm) ==> c !in Bucket(s, sev)
  {
    forall sev {
      InBucket(s, sev, c);
    }
  }

  /** Nothing is dropped and nothing is counted twice: the bucket sizes add up to the hits. */
  lemma {:induction false} BucketSizesAddUp(s: seq<Clash>)
    ensures |Bucket(s, Critical)| + |Bucket(s, Warning)| + |Bucket(s, Check)| == |s|
  {
    if s != [] {
      BucketSizesAddUp(s[..|s| - 1]);
    }
  }

  /** Critical entries are below 25 mm, warnings in [25, 50) mm, checks at 50 mm or more (squared). */
  lemma BucketBands(s: seq<Clash>)
    ensures forall c :: c in Bucket(s, Critical) ==> c.distanceSqMm < 625.0
    ensures forall c :: c in Bucket(s, Warning) ==> 625.0 <= c.distanceSqMm < 2500.0
    ensures forall c :: c in Bucket(s, Check) ==> 2500.0 <= c.distanceSqMm
  {
    forall c, sev | c in Bucket(s, sev) {
      InBucket(s, sev, c);
    }
  }

  /** Comparing squared distances against squared thresholds agrees with comparing distances. */
  lemma ClassifyByDistance(distanceMm: real)
    requires distanceMm >= 0.0
    ensures Classify(distanceMm * distanceMm) == SeverityOfDistance(distanceMm)
  {
    SquareBelow(distanceMm, TOLERANCE_CRITICAL);
    SquareBelow(distanceMm, TOLERANCE_WARNING);
  }

  lemma SquareBelow(d: real, t: real)
    requires d >= 0.0 && t >= 0.0
    ensures d * d < t * t <==> d < t
  {
    assert (t - d) * (t + d) == t * t - d * d;
    if d < t {
      ProductPositive(t - d, t + d);
    } else {
      ProductNonNegative(d - t, d + t);
      assert (d - t) * (d + t) == d * d - t * t;
    }
  }

  lemma ProductPositive(p: real, q: real)
    requires p > 0.0 && q > 0.0
    ensures p * q > 0.0
  {
  }

  lemma ProductNonNegative(p: real, q: real)
    requires p >= 0.0 && q >= 0.0
    ensures p * q >= 0.0
  {
  }

  /**
   * The bucket chosen from the squared distance is the one the source chooses from
   * `feet_to_mm(center_mep.DistanceTo(center_struct))`, for the distance in feet whose
   * square is the squared centre distance.
   */
  lemma ClassifyMatchesSource(m: Box, s: Box, distanceFt: real)
    requires distanceFt >= 0.0
    requires distanceFt * distanceFt == SquaredDistance(Center(m), Center(s))
    ensures Classify(DistanceSqMm(m, s)) == SeverityOfDistance(Units.ClashFeetToMm(distanceFt))
  {
    var distanceMm := Units.ClashFeetToMm(distanceFt);
    assert distanceMm == distanceFt * 304.8;
    assert distanceMm * distanceMm == MM2_PER_FT2 * (distanceFt * distanceFt);
    ClassifyByDistance(distanceMm);
  }

  // ---------------------------------------------------------------------------
  // Order
  // ---------------------------------------------------------------------------

  lemma {:induction false} RowHitsOrdered(i: nat, mep: Element, structs: seq<Element>, toleranceFt: real, k: nat)
    requires k <= |structs|
    ensures InDiscoveryOrder(RowHits(i, mep, structs, toleranceFt, k))
    ensures forall c :: c in RowHits(i, mep, structs, toleranceFt, k) ==> c.mepIndex == i && c.structIndex < k
  {
    if k > 0 {
      RowHitsOrdered(i, mep, structs, toleranceFt, k - 1);
    }
  }

  lemma {:induction false} HitsOrdered(meps: seq<Element>, structs: seq<Element>, toleranceFt: real, n: nat)
    requires n <= |meps|
    ensures InDiscoveryOrder(Hits(meps, structs, toleranceFt, n))
    ensures forall c :: c in Hits(meps, structs, toleranceFt, n) ==> c.mepIndex < n
  {
    if n > 0 {
      HitsOrdered(meps, structs, toleranceFt, n - 1);
      RowHitsOrdered(n - 1, meps[n - 1], structs, toleranceFt, |structs|);
    }
  }

  lemma {:induction false} BucketKeepsOrder(s: seq<Clash>, sev: Severity)
    requires InDiscoveryOrder(s)
    ensures InDiscoveryOrder(Bucket(s, sev))
  {
    if s != [] {
      var init, last := s[..|s| - 1], s[|s| - 1];
      assert InDiscoveryOrder(init);
      BucketKeepsOrder(init, sev);
      var b := Bucket(init, sev);
      forall k | 0 <= k < |b|
        ensures Precedes(b[k], last)
      {
        InBucket(init, sev, b[k]);
        var p :| 0 <= p < |init| && init[p] == b[k];
        assert s[p] == b[k];
      }
      if Classify(last.distanceSqMm) == sev {
        var r := b + [last];
        forall p, q | 0 <= p < q < |r|
          ensures Precedes(r[p], r[q])
        {
          if q == |b| {
            assert r[p] == b[p];
          } else {
            assert r[p] == b[p] && r[q] == b[q];
          }
        }
      }
    }
  }

  /** Within each bucket, entries appear by MEP position first, then by structural position. */
  lemma BucketsInDiscoveryOrder(meps: seq<Element>, structs: seq<Element>, toleranceMm: real)
    ensures InDiscoveryOrder(Bucket(AllHits(meps, structs, toleranceMm), Critical))
    ensures InDiscoveryOrder(Bucket(AllHits(meps, structs, toleranceMm), Warning))
    ensures InDiscoveryOrder(Bucket(AllHits(meps, structs, toleranceMm), Check))
  {
    var all := AllHits(meps, structs, toleranceMm);
    HitsOrdered(meps, structs, Units.ClashMmToFeet(toleranceMm), |meps|);
    BucketKeepsOrder(all, Critical);
    BucketKeepsOrder(all, Warning);
    BucketKeepsOrder(all, Check);
  }

  // ---------------------------------------------------------------------------
  // Geometry of the test
  // ---------------------------------------------------------------------------

  /** With tolerance 0, boxes that only share a face (or are apart) on some axis do not clash. */
  lemma TouchingIsNotClash(m: Box, s: Box)
    requires m.max.x <= s.min.x || s.max.x <= m.min.x
          || m.max.y <= s.min.y || s.max.y <= m.min.y
          || m.max.z <= s.min.z || s.max.z <= m.min.z
    ensures !Overlaps(Expand(m, Units.ClashMmToFeet(0.0)), s)
  {
  }

  /** A pair that clashes at one tolerance also clashes at every larger tolerance. */
  lemma LargerToleranceKeepsHit(mep: Element, structural: Element, t1: real, t2: real)
    requires t1 <= t2 && IsHit(mep, structural, t1)
    ensures IsHit(mep, structural, t2)
  {
  }

  /** Two identical boxes clash for any positive tolerance and are critical (distance 0). */
  lemma IdenticalBoxesAreCritical(b: Box, mepId: int, structId: int, toleranceMm: real)
    requires WellFormed(b) && toleranceMm > 0.0
    ensures IsHit(Element(mepId, Some(b)), Element(structId, Some(b)), Units.ClashMmToFeet(toleranceMm))
    ensures Classify(DistanceSqMm(b, b)) == Critical
  {
  }

  /**
   * `main` runs the check with `TOLERANCE_CHECK`: a pair is reported exactly when both elements
   * have a box and the boxes are less than 100 mm apart on every axis.
   */
  lemma MainReportsPairsWithinCheckTolerance(meps: seq<Element>, structs: seq<Element>, c: Clash)
    ensures c in AllHits(meps, structs, TOLERANCE_CHECK) <==>
      && c.mepIndex < |meps| && c.structIndex < |structs|
      && meps[c.mepIndex].bbox.Some? && structs[c.structIndex].bbox.Some?
      && WithinOnEveryAxis(meps[c.mepIndex].bbox.value, structs[c.structIndex].bbox.value, 100.0 / 304.8)
      && c == ClashOf(c.mepIndex, c.structIndex, meps[c.mepIndex], structs[c.structIndex])
  {
    ReportedIffHit(meps, structs, TOLERANCE_CHECK, c);
  }

  /** Two identical boxes of positive extent clash even with tolerance 0. */
  lemma IdenticalBoxesHitWithoutTolerance(b: Box, mepId: int, structId: int)
    requires Proper(b)
    ensures IsHit(Element(mepId, Some(b)), Element(structId, Some(b)), Units.ClashMmToFeet(0.0))
    ensures Classify(DistanceSqMm(b, b)) == Critical
  {
    assert Units.ClashMmToFeet(0.0) == 0.0;
  }
}
