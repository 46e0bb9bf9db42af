/**
 * The region-descriptor pipeline: trace the contours of an image, turn
 * each into a region representation by one of three strategies, measure
 * every region, drop implausibly small or large ones, and report the rest
 * as text or as comma-separated lines.
 */
module InterestPoints {
  import opened CvTypes
  import opened Text
  import opened InterestPointTypes

  /** The three region strategies: `CImageComponentsDescriptorNormal`, `...Hull` and `...Aprox`. */
  datatype Strategy = Normal | Hull | Aprox

  /** The contours `detectRegions` traces: grayscale if needed, Otsu binarisation, contour tracing. */
  function TraceRegions(lib: Cv, img: Mat, retrievalMode: int, approximationMode: int): seq<Contour>
  {
    var gray := if !lib.isGrayScaleImage(img) then lib.cvtColor(img, COLOR_BGR2GRAY) else img;
    var bw := lib.threshold(gray, 50.0, 255.0, THRESH_BINARY_OTSU);
    lib.findContours(bw, retrievalMode, approximationMode)
  }

  /** The representation a strategy measures for a raw contour. */
  function Region(lib: Cv, strategy: Strategy, c: Contour): Contour
  {
    match strategy
    case Normal => c
    case Hull => lib.convexHull(c)
    case Aprox => lib.approxPolyDP(c, 0.1 * lib.arcLength(c, true), true)
  }

  /** The record one loop iteration of `getObjectsInfo` stores for a raw contour. */
  function Record(lib: Cv, strategy: Strategy, c: Contour): (r: Components)
    ensures r.region == Region(lib, strategy, c)
    ensures r.momInertia == lib.moments(r.region)
    ensures r.convex == lib.isContourConvex(r.region)
  {
    var region := Region(lib, strategy, c);
    Components(region, lib.moments(region), lib.isContourConvex(region))
  }

  /** One record per raw contour, in the same order. */
  function Records(lib: Cv, strategy: Strategy, raw: seq<Contour>): (rs: seq<Components>)
    ensures |rs| == |raw|
    ensures forall i :: 0 <= i < |raw| ==> rs[i] == Record(lib, strategy, raw[i])
  {
    seq(|raw|, i requires 0 <= i < |raw| => Record(lib, strategy, raw[i]))
  }

  /** Records of a concatenation are the concatenation of the records. */
  lemma RecordsAppend(lib: Cv, strategy: Strategy, a: seq<Contour>, b: seq<Contour>)
    ensures Records(lib, strategy, a + b) == Records(lib, strategy, a) + Records(lib, strategy, b)
  {
    assert forall i :: 0 <= i < |a + b| ==> (a + b)[i] == if i < |a| then a[i] else b[i - |a|];
  }

  lemma RecordsSnoc(lib: Cv, strategy: Strategy, raw: seq<Contour>, i: nat)
    requires i < |raw|
    ensures Records(lib, strategy, raw[..i + 1]) == Records(lib, strategy, raw[..i]) + [Record(lib, strategy, raw[i])]
  {
    assert raw[..i + 1] == raw[..i] + [raw[i]];
    RecordsAppend(lib, strategy, raw[..i], [raw[i]]);
  }

  /** `getArea` */
  function GetArea(lib: Cv, region: Contour): real
  {
    lib.contourArea(region)
  }

  /** `getPerimeter`, closed by default */
  function GetPerimeter(lib: Cv, region: Contour, closed: bool := true): real
  {
    lib.arcLength(region, closed)
  }

  /** `getRoundNess`: 4 pi A / P^2 (`pow(P, 2)`) with the area and the closed perimeter of the region. */
  function GetRoundNess(lib: Cv, region: Contour): Double
  {
    var area := GetArea(lib, region);
    var perimeter := GetPerimeter(lib, region);
    Quotient(4.0 * CV_PI * area, perimeter * perimeter)
  }

  /** A non-zero perimeter has a positive square. */
  lemma SquarePositive(p: real)
    requires p != 0.0
    ensures p * p > 0.0
  {
  }

  /**
   * Roundness is finite exactly when the closed perimeter is non-zero, and
   * then roundness times the squared perimeter is 4 pi times the area; a
   * zero perimeter gives +inf for a positive area and NaN for a zero one.
   */
  lemma RoundnessMeaning(lib: Cv, region: Contour)
    ensures var r, a, p := GetRoundNess(lib, region), GetArea(lib, region), GetPerimeter(lib, region);
            && (r.Finite? <==> p != 0.0)
            && (r.Finite? ==> r.value * (p * p) == 4.0 * CV_PI * a)
            && (r == NaN <==> p == 0.0 && a == 0.0)
            && (r == PosInf <==> p == 0.0 && a > 0.0)
  {
    var p := GetPerimeter(lib, region);
    if p != 0.0 {
      SquarePositive(p);
    }
  }

  /** `getCentroid`: m10/m00 and m01/m00, each converted to int. */
  function GetCentroid(lib: Cv, m: Moments): (int, int)
  {
    var cx := DoubleToInt(lib, Quotient(m.m10, m.m00));
    var cy := DoubleToInt(lib, Quotient(m.m01, m.m00));
    (cx, cy)
  }

  /**
   * With a non-zero m00 each coordinate is the quotient truncated toward
   * zero; with m00 = 0 both are the platform's value for a non-finite
   * conversion.
   */
  lemma CentroidMeaning(lib: Cv, m: Moments)
    ensures m.m00 != 0.0 ==> GetCentroid(lib, m) == (TruncToInt(m.m10 / m.m00), TruncToInt(m.m01 / m.m00))
    ensures m.m00 == 0.0 ==> GetCentroid(lib, m) == (lib.nonFiniteToInt, lib.nonFiniteToInt)
  {
  }

  /** `getOrientation`: 0.5 atan(2 m11 / (m20 - m02)) in degrees, on the raw moments. */
  function GetOrientation(lib: Cv, m: Moments): Double
  {
    var u11 := m.m11;
    var u20 := m.m20;
    var u02 := m.m02;
    var factor := Quotient(2.0 * u11, u20 - u02);
    var angle := Scale(Atan(lib, factor), 0.5);
    Scale(angle, 180.0 / CV_PI)
  }

  /**
   * The orientation is NaN exactly when m11 = 0 and m20 = m02; with
   * m20 = m02 and m11 non-zero it is +45 or -45 degrees; otherwise it is
   * atan(2 m11 / (m20 - m02)) * 90 / pi, and it depends on no other moment.
   */
  lemma OrientationMeaning(lib: Cv, m: Moments)
    ensures var r := GetOrientation(lib, m);
            && (r == NaN <==> m.m11 == 0.0 && m.m20 == m.m02)
            && (m.m20 == m.m02 && m.m11 > 0.0 ==> r == Finite(45.0))
            && (m.m20 == m.m02 && m.m11 < 0.0 ==> r == Finite(-45.0))
            && (m.m20 != m.m02 ==> r == Finite(lib.atan(2.0 * m.m11 / (m.m20 - m.m02)) * 90.0 / CV_PI))
  {
  }

  /** The orientation lies in [-45, 45] degrees whenever it is a number. */
  lemma OrientationRange(lib: Cv, m: Moments)
    requires AtanInRange(lib)
    ensures GetOrientation(lib, m).Finite? ==> -45.0 <= GetOrientation(lib, m).value <= 45.0
  {
    OrientationMeaning(lib, m);
    if m.m20 != m.m02 {
      var t := lib.atan(2.0 * m.m11 / (m.m20 - m.m02));
      assert -CV_PI / 2.0 < t < CV_PI / 2.0;
      assert t * 90.0 / CV_PI == t * (90.0 / CV_PI);
    }
  }

  /** The descriptor measured for one record, before the size filter. */
  function Describe(lib: Cv, obj: Components): ImageDescriptor
  {
    ImageDescriptor(
      GetCentroid(lib, obj.momInertia),
      GetArea(lib, obj.region),
      lib.arcLength(obj.region, true),
      GetRoundNess(lib, obj.region),
      GetOrientation(lib, obj.momInertia),
      obj.convex,
      lib.indeterminateHuMoments)
  }

  /**
   * The roundness a descriptor stores is 4 pi A / P^2 of the area and the
   * closed perimeter it stores beside it: finite exactly when that perimeter
   * is non-zero, NaN when both are zero, +inf when only the perimeter is zero and
   * the area is positive.
   */
  lemma DescribeRoundness(lib: Cv, obj: Components)
    ensures var d := Describe(lib, obj);
            && (d.rFactor.Finite? <==> d.perimeter != 0.0)
            && (d.rFactor.Finite? ==> d.rFactor.value * (d.perimeter * d.perimeter) == 4.0 * CV_PI * d.area)
            && (d.rFactor == NaN <==> d.perimeter == 0.0 && d.area == 0.0)
            && (d.rFactor == PosInf <==> d.perimeter == 0.0 && d.area > 0.0)
  {
    RoundnessMeaning(lib, obj.region);
  }

  /** The size filter keeps a region unless its area is below 100 or above 100000. */
  predicate Kept(d: ImageDescriptor)
  {
    !(d.area < 100.0 || 100000.0 < d.area)
  }

  lemma KeptBounds(d: ImageDescriptor)
    ensures Kept(d) <==> 100.0 <= d.area <= 100000.0
  {
  }

  /** The descriptor of every record, in record order, before the size filter. */
  function Measured(lib: Cv, objs: seq<Components>): (ds: seq<ImageDescriptor>)
    ensures |ds| == |objs|
    ensures forall i :: 0 <= i < |objs| ==> ds[i] == Describe(lib, objs[i])
  {
    seq(|objs|, i requires 0 <= i < |objs| => Describe(lib, objs[i]))
  }

  lemma MeasuredSnoc(lib: Cv, objs: seq<Components>, obj: Components)
    ensures Measured(lib, objs + [obj]) == Measured(lib, objs) + [Describe(lib, obj)]
  {
  }

  /** The descriptors that pass the size filter, in their original order. */
  function SizeFiltered(ds: seq<ImageDescriptor>): (out: seq<ImageDescriptor>)
    ensures |out| <= |ds|
    ensures forall k :: 0 <= k < |out| ==> Kept(out[k])
    decreases |ds|
  {
    if |ds| == 0 then []
    else
      var rest := SizeFiltered(ds[..|ds| - 1]);
      var d := ds[|ds| - 1];
      if Kept(d) then rest + [d] else rest
  }

  /** The positions of the descriptors `SizeFiltered` keeps. */
  ghost function KeptIndices(ds: seq<ImageDescriptor>): seq<nat>
    decreases |ds|
  {
    if |ds| == 0 then []
    else
      var rest := KeptIndices(ds[..|ds| - 1]);
      if Kept(ds[|ds| - 1]) then rest + [|ds| - 1] else rest
  }

  /** The kept positions are in range and strictly increasing. */
  lemma {:induction false} KeptIndicesIncrease(ds: seq<ImageDescriptor>)
    ensures forall k :: 0 <= k < |KeptIndices(ds)| ==> KeptIndices(ds)[k] < |ds|
    ensures forall k, l :: 0 <= k < l < |KeptIndices(ds)| ==> KeptIndices(ds)[k] < KeptIndices(ds)[l]
    decreases |ds|
  {
    if |ds| > 0 {
      KeptIndicesIncrease(ds[..|ds| - 1]);
    }
  }

  /** The k-th retained descriptor is the input at the k-th kept position. */
  lemma {:induction false} SizeFilteredPicks(ds: seq<ImageDescriptor>)
    ensures |KeptIndices(ds)| == |SizeFiltered(ds)|
    ensures forall k :: 0 <= k < |KeptIndices(ds)| ==> KeptIndices(ds)[k] < |ds| && SizeFiltered(ds)[k] == ds[KeptIndices(ds)[k]]
    decreases |ds|
  {
    if |ds| > 0 {
      var n := |ds| - 1;
      var front := ds[..n];
      SizeFilteredPicks(front);
      KeptIndicesIncrease(front);
      var idx, out := KeptIndices(front), SizeFiltered(front);
      assert forall k :: 0 <= k < |idx| ==> out[k] == ds[idx[k]];
      if Kept(ds[n]) {
        assert KeptIndices(ds) == idx + [n];
        assert SizeFiltered(ds) == out + [ds[n]];
      } else {
        assert KeptIndices(ds) == idx;
        assert SizeFiltered(ds) == out;
      }
    }
  }

  /** A position is kept exactly when its descriptor passes the size filter. */
  lemma {:induction false} KeptIndicesExact(ds: seq<ImageDescriptor>)
    ensures forall i :: 0 <= i < |ds| ==> (i in KeptIndices(ds) <==> Kept(ds[i]))
    decreases |ds|
  {
    if |ds| > 0 {
      var n := |ds| - 1;
      var front := ds[..n];
      KeptIndicesExact(front);
      KeptIndicesIncrease(front);
      assert n !in KeptIndices(front);
      assert forall i :: 0 <= i < n ==> ds[i] == front[i];
    }
  }

  /** A descriptor is retained exactly when it is one of the inputs and passes the size filter. */
  lemma SizeFilteredMembership(ds: seq<ImageDescriptor>, d: ImageDescriptor)
    ensures d in SizeFiltered(ds) <==> d in ds && Kept(d)
  {
    SizeFilteredPicks(ds);
    KeptIndicesIncrease(ds);
    KeptIndicesExact(ds);
    var idx, out := KeptIndices(ds), SizeFiltered(ds);
    if d in out {
      var k :| 0 <= k < |out| && out[k] == d;
      assert ds[idx[k]] == d;
    }
    if d in ds && Kept(d) {
      var i :| 0 <= i < |ds| && ds[i] == d;
      assert i in idx;
      var k :| 0 <= k < |idx| && idx[k] == i;
      assert out[k] == d;
    }
  }

  lemma SizeFilteredSnoc(ds: seq<ImageDescriptor>, d: ImageDescriptor)
    ensures SizeFiltered(ds + [d]) == SizeFiltered(ds) + (if Kept(d) then [d] else [])
  {
    assert (ds + [d])[..|ds|] == ds;
  }

  /** One more record extends the filtered descriptors by its descriptor exactly when that one is kept. */
  lemma FilteredPrefixStep(lib: Cv, objs: seq<Components>, k: nat)
    requires k < |objs|
    ensures var before, after := SizeFiltered(Measured(lib, objs[..k])), SizeFiltered(Measured(lib, objs[..k + 1]));
            && (Kept(Describe(lib, objs[k])) ==> after == before + [Describe(lib, objs[k])])
            && (!Kept(Describe(lib, objs[k])) ==> after == before)
  {
    assert objs[..k + 1] == objs[..k] + [objs[k]];
    MeasuredSnoc(lib, objs[..k], objs[k]);
    SizeFilteredSnoc(Measured(lib, objs[..k]), Describe(lib, objs[k]));
  }

  /** `CImageComponentsDescriptorBase` with its strategy, its records and its traced contours. */
  class ComponentsExtractor {
    const lib: Cv
    const strategy: Strategy
    const originalImage: Mat
    /** The member record every `getObjectsInfo` iteration overwrites before it is copied into `objects`. */
    const current: ComponentsDescriptor
    var objects: seq<Components>
    var rawContours: seq<Contour>

    constructor (lib: Cv, strategy: Strategy, img: Mat)
      ensures this.lib == lib && this.strategy == strategy && originalImage == img
      ensures objects == [] && rawContours == []
      ensures fresh(current) && current.Value() == DefaultComponents
    {
      this.lib := lib;
      this.strategy := strategy;
      originalImage := img;
      current := new ComponentsDescriptor();
      objects := [];
      rawContours := [];
    }

    /** `detectRegions`: replaces the traced contours; the defaults are RETR_CCOMP and CHAIN_APPROX_NONE. */
    method DetectRegions(mode1: int := RETR_CCOMP, mode2: int := CHAIN_APPROX_NONE)
      modifies this`rawContours
      ensures rawContours == TraceRegions(lib, originalImage, mode1, mode2)
    {
      var src := originalImage;
      var gray: Mat;
      if !lib.isGrayScaleImage(src) {
        gray := lib.cvtColor(src, COLOR_BGR2GRAY);
      } else {
        gray := src;
      }
      var bw := lib.threshold(gray, 50.0, 255.0, THRESH_BINARY_OTSU);
      rawContours := lib.findContours(bw, mode1, mode2);
    }

    /** `getImageFullInformation`: a copy of the records; nothing changes. */
    function GetImageFullInformation(): (info: seq<Components>)
      reads this
      ensures info == objects
    {
      objects
    }

    /**
     * `getObjectsInfo`: appends one record per traced contour, in contour
     * order, to the records already there (a second call appends a second
     * copy); the member record is left holding the last one.
     */
    method GetObjectsInfo()
      modifies this`objects, current
      ensures objects == old(objects) + Records(lib, strategy, rawContours)
      ensures |rawContours| > 0 ==> current.Value() == Record(lib, strategy, rawContours[|rawContours| - 1])
      ensures |rawContours| == 0 ==> current.Value() == old(current.Value())
    {
      for i := 0 to |rawContours|
        invariant objects == old(objects) + Records(lib, strategy, rawContours[..i])
        invariant i > 0 ==> current.Value() == Record(lib, strategy, rawContours[i - 1])
        invariant i == 0 ==> current.Value() == old(current.Value())
      {
        var c := rawContours[i];
        var region: Contour;
        match strategy {
          case Normal =>
            region := c;
          case Hull =>
            region := lib.convexHull(c);
          case Aprox =>
            var epsilon := 0.1 * lib.arcLength(c, true);
            region := lib.approxPolyDP(c, epsilon, true);
        }
        assert region == Region(lib, strategy, c);
        var momInertia := lib.moments(region);
        current.region := region;
        current.momInertia := momInertia;
        current.convex := lib.isContourConvex(region);
        RecordsSnoc(lib, strategy, rawContours, i);
        objects := objects + [current.Value()];
      }
      assert rawContours[..|rawContours|] == rawContours;
    }
  }

  /** The contours every entry point traces: `detectRegions(CHAIN_APPROX_SIMPLE)`, second mode defaulted. */
  function EntryContours(lib: Cv, img: Mat): seq<Contour>
  {
    TraceRegions(lib, img, CHAIN_APPROX_SIMPLE, CHAIN_APPROX_NONE)
  }

  /**
   * `CHAIN_APPROX_SIMPLE` lands in the retrieval-mode parameter, where its
   * value 2 is `RETR_CCOMP`: the entry points trace exactly as the defaults do.
   */
  lemma EntryContoursAreDefaults(lib: Cv, img: Mat)
    ensures EntryContours(lib, img) == TraceRegions(lib, img, RETR_CCOMP, CHAIN_APPROX_NONE)
  {
  }

  /**
   * The body of the loops of `getImageDescriptors` and `Apply`: the five
   * measurements of a record, assembled in a default-initialised descriptor.
   */
  method MeasureRegion(lib: Cv, obj: Components) returns (d: ImageDescriptor)
    ensures d == Describe(lib, obj)
  {
    var area := GetArea(lib, obj.region);
    var perimeter := lib.arcLength(obj.region, true);
    var rFactor := GetRoundNess(lib, obj.region);
    var orientation := GetOrientation(lib, obj.momInertia);
    var centroid := GetCentroid(lib, obj.momInertia);
    d := ImageDescriptor(centroid, area, perimeter, rFactor, orientation, obj.convex, lib.indeterminateHuMoments);
  }

  /** The loop of `getImageDescriptors`: the descriptors of the records that pass the size filter, in order. */
  method KeptDescriptors(lib: Cv, information: seq<Components>) returns (out: seq<ImageDescriptor>)
    ensures out == SizeFiltered(Measured(lib, information))
  {
    out := [];
    for k := 0 to |information|
      invariant out == SizeFiltered(Measured(lib, information[..k]))
    {
      var d := MeasureRegion(lib, information[k]);
      FilteredPrefixStep(lib, information, k);
      if d.area < 100.0 || 100000.0 < d.area {
        continue;
      }
      out := out + [d];
    }
    assert information[..|information|] == information;
  }

  /** `image_info::getImageDescriptors`: the hull-strategy descriptors that pass the size filter. */
  method GetImageDescriptors(lib: Cv, img: Mat) returns (out: seq<ImageDescriptor>)
    ensures out == SizeFiltered(Measured(lib, Records(lib, Hull, EntryContours(lib, img))))
  {
    var hull := new ComponentsExtractor(lib, Hull, img);
    hull.DetectRegions(CHAIN_APPROX_SIMPLE);
    hull.GetObjectsInfo();
    var information := hull.GetImageFullInformation();
    assert information == Records(lib, Hull, EntryContours(lib, img));
    out := KeptDescriptors(lib, information);
  }

  /** The report block for the region numbered `index`: its label, then its eight descriptor lines. */
  function RegionBlock(lib: Cv, index: nat, d: ImageDescriptor): (block: seq<string>)
    ensures |block| == 9
  {
    ["Region " + NatToString(index)] + DescriptorLines(lib, d)
  }

  /** The blocks written one after the other. */
  function Concat<T>(blocks: seq<seq<T>>): seq<T>
    decreases |blocks|
  {
    if |blocks| == 0 then [] else Concat(blocks[..|blocks| - 1]) + blocks[|blocks| - 1]
  }

  /** Blocks of nine lines each: block k occupies lines 9k up to 9k + 9. */
  lemma {:induction false} ConcatLayout<T>(blocks: seq<seq<T>>)
    requires forall k :: 0 <= k < |blocks| ==> |blocks[k]| == 9
    ensures |Concat(blocks)| == 9 * |blocks|
    ensures forall k :: 0 <= k < |blocks| ==> Concat(blocks)[9 * k .. 9 * k + 9] == blocks[k]
    decreases |blocks|
  {
    if |blocks| > 0 {
      var n := |blocks| - 1;
      var front, last := Concat(blocks[..n]), blocks[n];
      ConcatLayout(blocks[..n]);
      forall k | 0 <= k < |blocks|
        ensures Concat(blocks)[9 * k .. 9 * k + 9] == blocks[k]
      {
        if k < n {
          assert blocks[..n][k] == blocks[k];
          assert (front + last)[9 * k .. 9 * k + 9] == front[9 * k .. 9 * k + 9];
        } else {
          assert (front + last)[|front|..] == last;
        }
      }
    }
  }

  /** The numbered blocks of the retained descriptors. */
  function RegionBlocks(lib: Cv, ds: seq<ImageDescriptor>): (blocks: seq<seq<string>>)
    ensures |blocks| == |ds|
    ensures forall k :: 0 <= k < |ds| ==> blocks[k] == RegionBlock(lib, k, ds[k])
  {
    seq(|ds|, k requires 0 <= k < |ds| => RegionBlock(lib, k, ds[k]))
  }

  /** The text of `Apply`: the retained descriptors, numbered from 0. */
  function Report(lib: Cv, ds: seq<ImageDescriptor>): seq<string>
    decreases |ds|
  {
    if |ds| == 0 then [] else Report(lib, ds[..|ds| - 1]) + RegionBlock(lib, |ds| - 1, ds[|ds| - 1])
  }

  /** A report is its numbered blocks written one after the other. */
  lemma {:induction false} ReportIsConcat(lib: Cv, ds: seq<ImageDescriptor>)
    ensures Report(lib, ds) == Concat(RegionBlocks(lib, ds))
    decreases |ds|
  {
    if |ds| > 0 {
      var n := |ds| - 1;
      ReportIsConcat(lib, ds[..n]);
      assert RegionBlocks(lib, ds)[..n] == RegionBlocks(lib, ds[..n]);
    }
  }

  /** Nine lines per descriptor: descriptor k's block, labelled "Region k", starts at line 9k. */
  lemma ReportLayout(lib: Cv, ds: seq<ImageDescriptor>)
    ensures |Report(lib, ds)| == 9 * |ds|
    ensures forall k :: 0 <= k < |ds| ==> Report(lib, ds)[9 * k .. 9 * k + 9] == RegionBlock(lib, k, ds[k])
  {
    var blocks := RegionBlocks(lib, ds);
    forall k | 0 <= k < |blocks|
      ensures |blocks[k]| == 9
    {
      assert blocks[k] == RegionBlock(lib, k, ds[k]);
    }
    ConcatLayout(blocks);
    ReportIsConcat(lib, ds);
  }

  /** Line 9k of a report is the label "Region k" and the next eight are descriptor k's text. */
  lemma ReportLines(lib: Cv, ds: seq<ImageDescriptor>, k: nat)
    requires k < |ds|
    ensures |Report(lib, ds)| == 9 * |ds|
    ensures Report(lib, ds)[9 * k] == "Region " + NatToString(k)
    ensures Report(lib, ds)[9 * k + 1 .. 9 * k + 9] == DescriptorLines(lib, ds[k])
  {
    ReportLayout(lib, ds);
    var r, b := Report(lib, ds), RegionBlock(lib, k, ds[k]);
    assert b[0] == "Region " + NatToString(k);
    assert b[1..] == DescriptorLines(lib, ds[k]);
    assert r[9 * k .. 9 * k + 9][0] == r[9 * k];
    assert r[9 * k .. 9 * k + 9][1..] == r[9 * k + 1 .. 9 * k + 9];
  }

  /** No two regions of a report carry the same label. */
  lemma RegionLabelsDistinct(k: nat, l: nat)
    requires k != l
    ensures "Region " + NatToString(k) != "Region " + NatToString(l)
  {
    var p := "Region ";
    if p + NatToString(k) == p + NatToString(l) {
      assert (p + NatToString(k))[|p|..] == NatToString(k);
      assert (p + NatToString(l))[|p|..] == NatToString(l);
      NatToStringInjective(k, l);
    }
  }

  lemma ReportSnoc(lib: Cv, ds: seq<ImageDescriptor>, d: ImageDescriptor)
    ensures Report(lib, ds + [d]) == Report(lib, ds) + RegionBlock(lib, |ds|, d)
  {
    assert (ds + [d])[..|ds|] == ds;
  }

  /** One more record extends the report by its numbered block exactly when its descriptor is kept. */
  lemma ReportStep(lib: Cv, objs: seq<Components>, k: nat, index: nat, report: seq<string>)
    requires k < |objs|
    requires index == |SizeFiltered(Measured(lib, objs[..k]))|
    requires report == Report(lib, SizeFiltered(Measured(lib, objs[..k])))
    ensures var after := SizeFiltered(Measured(lib, objs[..k + 1]));
            var d := Describe(lib, objs[k]);
            && (Kept(d) ==> index + 1 == |after| && report + RegionBlock(lib, index, d) == Report(lib, after))
            && (!Kept(d) ==> index == |after| && report == Report(lib, after))
  {
    FilteredPrefixStep(lib, objs, k);
    ReportSnoc(lib, SizeFiltered(Measured(lib, objs[..k])), Describe(lib, objs[k]));
  }

  /** Before the first record nothing is kept and nothing is reported. */
  lemma ReportStart(lib: Cv, objs: seq<Components>)
    ensures |SizeFiltered(Measured(lib, objs[..0]))| == 0
    ensures Report(lib, SizeFiltered(Measured(lib, objs[..0]))) == []
  {
    assert Measured(lib, objs[..0]) == [];
  }

  /** The loop of `Apply`: the report blocks of the records that pass the size filter, numbered from 0. */
  method ReportKept(lib: Cv, information: seq<Components>) returns (report: seq<string>)
    ensures report == Report(lib, SizeFiltered(Measured(lib, information)))
  {
    var objectsIndex := 0;
    report := [];
    ReportStart(lib, information);
    for k := 0 to |information|
      invariant objectsIndex == |SizeFiltered(Measured(lib, information[..k]))|
      invariant report == Report(lib, SizeFiltered(Measured(lib, information[..k])))
    {
      var d := MeasureRegion(lib, information[k]);
      ReportStep(lib, information, k, objectsIndex, report);
      if d.area < 100.0 || 100000.0 < d.area {
        continue;
      }
      report := report + RegionBlock(lib, objectsIndex, d);
      objectsIndex := objectsIndex + 1;
    }
    assert information[..|information|] == information;
  }

  /**
   * `image_info::Apply`: traces and records the regions of `base`, then
   * reports the records that pass the size filter. The index advances only
   * for retained regions.
   */
  method Apply(base: ComponentsExtractor) returns (report: seq<string>)
    modifies base, base.current
    ensures base.rawContours == EntryContours(base.lib, base.originalImage)
    ensures base.objects == old(base.objects) + Records(base.lib, base.strategy, base.rawContours)
    ensures report == Report(base.lib, SizeFiltered(Measured(base.lib, base.objects)))
  {
    base.DetectRegions(CHAIN_APPROX_SIMPLE);
    base.GetObjectsInfo();
    var information := base.GetImageFullInformation();
    report := ReportKept(base.lib, information);
  }

  /** The strategy `getImageInfoMoments` builds: the dialog's choice when `opt` is 0, Normal otherwise. */
  function StrategyFor(opt: int, selection: string): (s: Strategy)
    ensures s == Hull <==> opt == 0 && selection == "Hull"
    ensures s == Aprox <==> opt == 0 && selection == "Aproximation"
    ensures s == Normal <==> opt != 0 || (selection != "Hull" && selection != "Aproximation")
  {
    if opt == 0 then
      if selection == "Normal algorithm" then Normal
      else if selection == "Hull" then Hull
      else if selection == "Aproximation" then Aprox
      else Normal
    else Normal
  }

  /** `image_info::getImageInfoMoments`: the report of a fresh extractor of the selected strategy. */
  method GetImageInfoMoments(lib: Cv, img: Mat, opt: int, selection: string) returns (report: seq<string>)
    ensures report == Report(lib, SizeFiltered(Measured(lib, Records(lib, StrategyFor(opt, selection), EntryContours(lib, img)))))
  {
    var base: ComponentsExtractor;
    if opt == 0 {
      if selection == "Normal algorithm" {
        base := new ComponentsExtractor(lib, Normal, img);
      } else if selection == "Hull" {
        base := new ComponentsExtractor(lib, Hull, img);
      } else if selection == "Aproximation" {
        base := new ComponentsExtractor(lib, Aprox, img);
      } else {
        base := new ComponentsExtractor(lib, Normal, img);
      }
    } else {
      base := new ComponentsExtractor(lib, Normal, img);
    }
    assert base.strategy == StrategyFor(opt, selection);
    report := Apply(base);
    assert base.objects == Records(lib, base.strategy, EntryContours(lib, img));
  }

  /** The column names of the descriptor file. */
  const CsvColumns: seq<string> := ["Area", "Perimeter", "roundness", "orientation"]

  /** The header row of the descriptor file, `Area,Perimeter,roundness,orientation`. */
  const CsvHeader: string := Join(CsvColumns, ',')

  /** The four field texts a row holds: area, perimeter, roundness and orientation. */
  function CsvFields(lib: Cv, d: ImageDescriptor): seq<string>
  {
    [lib.formatDouble(Finite(d.area)), lib.formatDouble(Finite(d.perimeter)),
     lib.formatDouble(d.rFactor), lib.formatDouble(d.orientation)]
  }

  /** One row: the four fields, comma-separated. */
  function CsvRow(lib: Cv, d: ImageDescriptor): string
  {
    Join(CsvFields(lib, d), ',')
  }

  /** Splitting a row at its commas gives back its four fields. */
  lemma CsvRowSplits(lib: Cv, d: ImageDescriptor)
    requires FormatsWithoutComma(lib)
    ensures Split(CsvRow(lib, d), ',') == CsvFields(lib, d)
  {
    SplitJoinInverse(CsvFields(lib, d), ',');
  }

  function CsvRows(lib: Cv, ds: seq<ImageDescriptor>): (rows: seq<string>)
    ensures |rows| == |ds|
    ensures forall k :: 0 <= k < |ds| ==> rows[k] == CsvRow(lib, ds[k])
  {
    seq(|ds|, k requires 0 <= k < |ds| => CsvRow(lib, ds[k]))
  }

  /**
   * The lines `createCSV` writes, as the code stands: nothing when the file
   * does not open or there is no descriptor; otherwise the header, which
   * takes the first descriptor's turn, and a row for each later descriptor.
   */
  function CsvLinesAsWritten(lib: Cv, ds: seq<ImageDescriptor>, isOpen: bool): seq<string>
  {
    if !isOpen || |ds| == 0 then [] else [CsvHeader] + CsvRows(lib, ds[1..])
  }

  /**
   * The lines the loop writes once the header no longer takes a
   * descriptor's turn: the header before the first descriptor, then a row
   * for every descriptor; still nothing for an empty collection.
   */
  function CsvLines(lib: Cv, ds: seq<ImageDescriptor>, isOpen: bool): seq<string>
  {
    if !isOpen || |ds| == 0 then [] else [CsvHeader] + CsvRows(lib, ds)
  }

  /** The first descriptor never reaches the file, and an empty collection gives no header. */
  lemma {:induction false} CsvAsWrittenDropsFirst(lib: Cv, ds: seq<ImageDescriptor>)
    ensures |ds| == 0 ==> CsvLinesAsWritten(lib, ds, true) == []
    ensures |ds| > 1 ==> CsvLinesAsWritten(lib, ds, true) == CsvLines(lib, ds[1..], true)
    ensures |ds| > 0 ==> |CsvLinesAsWritten(lib, ds, true)| == |ds|
    ensures |ds| > 0 ==> |CsvLines(lib, ds, true)| == |ds| + 1
  {
  }

  /** For a single descriptor the code writes the header alone. */
  lemma CsvAsWrittenCounterexample(lib: Cv, d: ImageDescriptor)
    ensures CsvLinesAsWritten(lib, [d], true) == [CsvHeader]
    ensures CsvLines(lib, [d], true) == [CsvHeader, CsvRow(lib, d)]
    ensures CsvLinesAsWritten(lib, [d], true) != CsvLines(lib, [d], true)
  {
    assert [d][1..] == [];
    assert CsvRows(lib, []) == [];
  }

  /** The header splits into the four column names. */
  lemma CsvHeaderFields()
    ensures Split(CsvHeader, ',') == ["Area", "Perimeter", "roundness", "orientation"]
  {
    assert forall i :: 0 <= i < |CsvColumns| ==> ',' !in CsvColumns[i];
    SplitJoinInverse(CsvColumns, ',');
  }

  /**
   * Reading a descriptor file back: a non-empty collection gives the header,
   * which splits into the column names, and then row k, which splits into
   * descriptor k's fields.
   */
  lemma CsvLinesReadBack(lib: Cv, ds: seq<ImageDescriptor>)
    requires FormatsWithoutComma(lib)
    requires |ds| > 0
    ensures var lines := CsvLines(lib, ds, true);
            && |lines| == |ds| + 1
            && Split(lines[0], ',') == ["Area", "Perimeter", "roundness", "orientation"]
            && forall k :: 0 <= k < |ds| ==> Split(lines[k + 1], ',') == CsvFields(lib, ds[k])
  {
    CsvHeaderFields();
    var lines := CsvLines(lib, ds, true);
    forall k | 0 <= k < |ds|
      ensures Split(lines[k + 1], ',') == CsvFields(lib, ds[k])
    {
      assert lines[k + 1] == CsvRow(lib, ds[k]);
      CsvRowSplits(lib, ds[k]);
    }
  }

  /** `image_info::createCSV`: the lines written to the file; `isOpen` is whether the file opened. */
  method CreateCsv(lib: Cv, descriptors: seq<ImageDescriptor>, isOpen: bool) returns (lines: seq<string>)
    ensures lines == CsvLinesAsWritten(lib, descriptors, isOpen)
  {
    lines := [];
    var i := 0;
    if isOpen {
      for k := 0 to |descriptors|
        invariant i == (if k == 0 then 0 else 1)
        invariant lines == CsvLinesAsWritten(lib, descriptors[..k], true)
      {
        if i == 0 {
          lines := lines + [CsvHeader];
          i := i + 1;
          continue;
        }
        assert descriptors[..k + 1][1..] == descriptors[..k][1..] + [descriptors[k]];
        lines := lines + [CsvRow(lib, descriptors[k])];
      }
      assert descriptors[..|descriptors|] == descriptors;
    }
  }

  /** `createCSV` with the header written before the first row instead of in its place. */
  method CreateCsvAllRows(lib: Cv, descriptors: seq<ImageDescriptor>, isOpen: bool) returns (lines: seq<string>)
    ensures lines == CsvLines(lib, descriptors, isOpen)
  {
    lines := [];
    var i := 0;
    if isOpen {
      for k := 0 to |descriptors|
        invariant i == (if k == 0 then 0 else 1)
        invariant lines == CsvLines(lib, descriptors[..k], true)
      {
        if i == 0 {
          lines := lines + [CsvHeader];
          i := i + 1;
        }
        assert descriptors[..k + 1] == descriptors[..k] + [descriptors[k]];
        lines := lines + [CsvRow(lib, descriptors[k])];
      }
      assert descriptors[..|descriptors|] == descriptors;
    }
  }
}
