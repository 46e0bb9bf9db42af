/**
 * The record kept for each region (`ComponentsDescriptor`, with its copy
 * and move operations) and the measured descriptor of a region
 * (`ImageDescriptors`, with its comparison operators and its text block).
 */
module InterestPointTypes {
  import opened CvTypes
  import opened Text

  /** The value of a `ComponentsDescriptor`: a region representation, its moments, its convexity. */
  datatype Components = Components(region: Contour, momInertia: Moments, convex: bool)

  /** A default-constructed `ComponentsDescriptor`. */
  const DefaultComponents := Components([], EmptyMoments, false)

  /** `ComponentsDescriptor` as an object, for the operations that change one in place. */
  class ComponentsDescriptor {
    var region: Contour
    var momInertia: Moments
    var convex: bool

    function Value(): Components
      reads this
    {
      Components(region, momInertia, convex)
    }

    constructor ()
      ensures Value() == DefaultComponents
    {
      region := [];
      momInertia := EmptyMoments;
      convex := false;
    }

    /** The copy constructor: the new object holds the source's three fields; the source is untouched. */
    constructor Copy(rhs: ComponentsDescriptor)
      ensures Value() == rhs.Value()
    {
      region := rhs.region;
      momInertia := rhs.momInertia;
      convex := rhs.convex;
    }

    /**
     * The move constructor: the new object takes the source's fields; the
     * source's region is cleared and its moments reset, but its convexity
     * flag keeps its value.
     */
    constructor Move(rhs: ComponentsDescriptor)
      modifies rhs
      ensures Value() == old(rhs.Value())
      ensures rhs.Value() == Components([], EmptyMoments, old(rhs.convex))
    {
      region := rhs.region;
      momInertia := rhs.momInertia;
      convex := rhs.convex;
      new;
      rhs.region := [];
      rhs.momInertia := EmptyMoments;
    }

    /** Copy assignment: this object takes the source's fields (also when both are the same object). */
    method CopyAssign(rhs: ComponentsDescriptor)
      modifies this
      ensures Value() == old(rhs.Value())
      ensures rhs != this ==> unchanged(rhs)
    {
      region := rhs.region;
      momInertia := rhs.momInertia;
      convex := rhs.convex;
    }

    /**
     * Move assignment. The fields are copied before the source is cleared,
     * so moving an object into itself leaves it with an empty region and
     * default moments.
     */
    method MoveAssign(rhs: ComponentsDescriptor)
      modifies this, rhs
      ensures rhs != this ==> Value() == old(rhs.Value())
      ensures rhs.Value() == Components([], EmptyMoments, old(rhs.convex))
    {
      region := rhs.region;
      momInertia := rhs.momInertia;
      convex := rhs.convex;
      rhs.region := [];
      rhs.momInertia := EmptyMoments;
    }
  }

  /** `ImageDescriptors`: what is measured for one region. */
  datatype ImageDescriptor = ImageDescriptor(
    centroid: (int, int),
    area: real,
    perimeter: real,
    rFactor: Double,
    orientation: Double,
    convex: bool,
    huMoments: seq<real>)

  /** `==` on doubles: NaN equals nothing, itself included. */
  predicate DoubleEq(a: Double, b: Double)
  {
    match (a, b)
    case (Finite(x), Finite(y)) => x == y
    case (PosInf, PosInf) => true
    case (NegInf, NegInf) => true
    case _ => false
  }

  /** `operator==`: centroid, area, perimeter, orientation and convexity; roundness and Hu moments are not compared. */
  predicate Equal(lhs: ImageDescriptor, rhs: ImageDescriptor)
  {
    && lhs.centroid == rhs.centroid
    && lhs.area == rhs.area
    && lhs.perimeter == rhs.perimeter
    && DoubleEq(lhs.orientation, rhs.orientation)
    && lhs.convex == rhs.convex
  }

  /** `operator<` */
  predicate Less(lhs: ImageDescriptor, rhs: ImageDescriptor) { lhs.area < rhs.area }

  /** `operator>` */
  predicate Greater(lhs: ImageDescriptor, rhs: ImageDescriptor) { lhs.area > rhs.area }

  /** Descriptors that differ only in roundness and Hu moments are equal. */
  lemma EqualIgnoresRoundnessAndHu(a: ImageDescriptor, b: ImageDescriptor, r: Double, hu: seq<real>)
    ensures Equal(a, b) <==> Equal(a.(rFactor := r, huMoments := hu), b)
  {
  }

  /** `==` is reflexive exactly on descriptors whose orientation is not NaN. */
  lemma EqualReflexiveUnlessNaN(a: ImageDescriptor)
    ensures Equal(a, a) <==> !a.orientation.NaN?
  {
  }

  lemma EqualSymmetricTransitive(a: ImageDescriptor, b: ImageDescriptor, c: ImageDescriptor)
    ensures Equal(a, b) ==> Equal(b, a)
    ensures Equal(a, b) && Equal(b, c) ==> Equal(a, c)
  {
  }

  /** `<` is a strict order on the area, and `a < b` holds exactly when `b > a`. */
  lemma LessIsStrictOrderOnArea(a: ImageDescriptor, b: ImageDescriptor, c: ImageDescriptor)
    ensures Less(a, b) <==> Greater(b, a)
    ensures !Less(a, a)
    ensures Less(a, b) ==> !Less(b, a)
    ensures Less(a, b) && Less(b, c) ==> Less(a, c)
    ensures !Less(a, b) && !Less(b, a) <==> a.area == b.area
  {
  }

  /** Two descriptors can be ordered neither way and still not be `==`. */
  lemma IncomparableNeedNotBeEqual()
    ensures var a := ImageDescriptor((0, 0), 100.0, 40.0, Finite(0.5), Finite(0.0), true, []);
            var b := a.(perimeter := 50.0);
            !Less(a, b) && !Less(b, a) && !Equal(a, b)
  {
  }

  /** The separator line written before and after each descriptor: 80 dashes. */
  const Dashes: string := "--------------------------------------------------------------------------------"

  /** The text of the centroid line: the two coordinates in brackets, separated by a comma. */
  function CentroidLine(d: ImageDescriptor): string
  {
    CentroidPrefix + IntToString(d.centroid.0) + "," + IntToString(d.centroid.1) + "]"
  }

  const CentroidPrefix: string := "\t\tCentroid: ["

  const AreaLabel: string := "\t\tArea: "
  const PerimeterLabel: string := "\t\tPerimeter: "
  const RoundnessLabel: string := "\t\tRoundness: "
  const OrientationLabel: string := "\t\tOrientation: "
  const ConvexityLabel: string := "\t\t" + "The region is "

  /** `operator<<`: the text lines written for one descriptor, each ended by `std::endl`. */
  function DescriptorLines(lib: Cv, d: ImageDescriptor): (lines: seq<string>)
    ensures |lines| == 8 && lines[0] == Dashes && lines[7] == Dashes
    ensures lines[5] == CentroidLine(d)
    ensures lines[6] == ConvexityLabel + (if d.convex then "convex" else "not Convex")
  {
    var convexHull := if d.convex then "convex" else "not Convex";
    [ Dashes,
      AreaLabel + lib.formatDouble(Finite(d.area)),
      PerimeterLabel + lib.formatDouble(Finite(d.perimeter)),
      RoundnessLabel + lib.formatDouble(d.rFactor),
      OrientationLabel + lib.formatDouble(d.orientation),
      CentroidLine(d),
      ConvexityLabel + convexHull,
      Dashes ]
  }

  /** The text after the prefix is the two coordinates, a comma, and the closing bracket. */
  function CoordinatesText(x: int, y: int): string
  {
    IntToString(x) + [','] + (IntToString(y) + "]")
  }

  lemma CentroidLineSplits(d: ImageDescriptor)
    ensures CentroidLine(d) == CentroidPrefix + CoordinatesText(d.centroid.0, d.centroid.1)
  {
  }

  /** The convexity line of a descriptor's text block determines its convexity flag. */
  lemma ConvexityLineDeterminesConvex(lib: Cv, a: ImageDescriptor, b: ImageDescriptor)
    requires DescriptorLines(lib, a)[6] == DescriptorLines(lib, b)[6]
    ensures a.convex == b.convex
  {
  }

  /** The printed coordinates determine the coordinates. */
  lemma {:induction false} CoordinatesTextInjective(xa: int, ya: int, xb: int, yb: int)
    requires CoordinatesText(xa, ya) == CoordinatesText(xb, yb)
    ensures xa == xb && ya == yb
  {
    var sa, sb := IntToString(xa), IntToString(xb);
    var ta, tb := IntToString(ya) + "]", IntToString(yb) + "]";
    assert ',' !in ta && ',' !in tb;
    SplitJoin(sa, ',', ta);
    SplitJoin(sb, ',', tb);
    SplitNoSeparator(ta, ',');
    SplitNoSeparator(tb, ',');
    assert Split(sa + [','] + ta, ',') == [sa, ta];
    assert Split(sb + [','] + tb, ',') == [sb, tb];
    assert sa + [','] + ta == CoordinatesText(xa, ya);
    assert sb + [','] + tb == CoordinatesText(xb, yb);
    assert sa == sb && ta == tb;
    IntToStringInjective(xa, xb);
    assert ta[..|ta| - 1] == IntToString(ya);
    assert tb[..|tb| - 1] == IntToString(yb);
    IntToStringInjective(ya, yb);
  }

  /** The centroid line of a descriptor's text block determines the centroid. */
  lemma {:induction false} CentroidLineDeterminesCentroid(a: ImageDescriptor, b: ImageDescriptor)
    requires CentroidLine(a) == CentroidLine(b)
    ensures a.centroid == b.centroid
  {
    CentroidLineSplits(a);
    CentroidLineSplits(b);
    var ta, tb := CoordinatesText(a.centroid.0, a.centroid.1), CoordinatesText(b.centroid.0, b.centroid.1);
    assert ta == CentroidLine(a)[|CentroidPrefix|..];
    assert tb == CentroidLine(b)[|CentroidPrefix|..];
    CoordinatesTextInjective(a.centroid.0, a.centroid.1, b.centroid.0, b.centroid.1);
  }
}
