/**
 * Values the vision code passes around, and the vision and GUI libraries
 * it calls. The libraries' code is not part of this model, so every
 * operation that needs one receives a `Cv` record of total functions
 * that stands for it.
 */
module CvTypes {

  /** An 8-bit unsigned channel value (`unsigned char`, `uchar`). */
  newtype byte = x: int | 0 <= x < 256

  datatype Point = Point(x: int, y: int)

  /** An ordered boundary of a region: `std::vector<cv::Point>`. */
  type Contour = seq<Point>

  /** The spatial moments of `cv::Moments` (the central and normalised ones are derived and unused). */
  datatype Moments = Moments(
    m00: real, m10: real, m01: real,
    m20: real, m11: real, m02: real,
    m30: real, m21: real, m12: real, m03: real)

  /** A default-constructed `cv::Moments`: every moment is zero. */
  const EmptyMoments := Moments(0.0, 0.0, 0.0, 0.0, 0.0, 0.0, 0.0, 0.0, 0.0, 0.0)

  /**
   * A `double` as the arithmetic of the code produces it. Finite values are
   * exact reals (rounding is not modelled); a division by zero gives an
   * infinity or NaN as IEEE 754 prescribes for a divisor of +0.
   */
  datatype Double = Finite(value: real) | PosInf | NegInf | NaN

  /** `a / b` on doubles. */
  function Quotient(a: real, b: real): (q: Double)
    ensures q.Finite? <==> b != 0.0
    ensures q == PosInf <==> b == 0.0 && a > 0.0
    ensures q == NegInf <==> b == 0.0 && a < 0.0
    ensures q == NaN <==> b == 0.0 && a == 0.0
  {
    if b != 0.0 then Finite(a / b)
    else if a > 0.0 then PosInf
    else if a < 0.0 then NegInf
    else NaN
  }

  /** Multiplication of a double by a positive constant. */
  function Scale(d: Double, k: real): (r: Double)
    requires k > 0.0
    ensures r.Finite? <==> d.Finite?
    ensures d.Finite? ==> r.value == d.value * k
    ensures !d.Finite? ==> r == d
  {
    if d.Finite? then Finite(d.value * k) else d
  }

  /** `CV_PI` as OpenCV defines it. */
  const CV_PI: real := 3.1415926535897932384626433832795

  /** `atan` on doubles: `lib.atan` on finite values, the limits at the infinities. */
  function Atan(lib: Cv, d: Double): (r: Double)
    ensures r.NaN? <==> d.NaN?
    ensures d.Finite? ==> r == Finite(lib.atan(d.value))
    ensures d == PosInf ==> r == Finite(CV_PI / 2.0)
    ensures d == NegInf ==> r == Finite(-CV_PI / 2.0)
  {
    match d
    case Finite(v) => Finite(lib.atan(v))
    case PosInf => Finite(CV_PI / 2.0)
    case NegInf => Finite(-CV_PI / 2.0)
    case NaN => NaN
  }

  /** The C++ conversion of a finite double to an integer type: truncation toward zero. */
  function TruncToInt(r: real): (t: int)
    ensures 0.0 <= r ==> 0 <= t && t as real <= r < t as real + 1.0
    ensures r < 0.0 ==> t <= 0 && t as real - 1.0 < r <= t as real
  {
    if r >= 0.0 then r.Floor else -((-r).Floor)
  }

  /**
   * Conversion of a double to `int`. For a non-finite value the conversion
   * is undefined in C++; the model yields the value the platform produces,
   * `lib.nonFiniteToInt`.
   */
  function DoubleToInt(lib: Cv, d: Double): (i: int)
    ensures d.Finite? ==> i == TruncToInt(d.value)
    ensures !d.Finite? ==> i == lib.nonFiniteToInt
  {
    if d.Finite? then TruncToInt(d.value) else lib.nonFiniteToInt
  }

  /** The `cvtColor` conversion codes the modelled code uses. */
  datatype ColorCode = COLOR_BGR2GRAY | COLOR_GRAY2RGB | COLOR_BGRA2RGB | COLOR_BGR2RGB

  /** An 8-bit image matrix: rows, columns, channels and its row-major interleaved bytes. */
  datatype Mat = Mat(rows: nat, cols: nat, channels: nat, data: seq<byte>)

  predicate WellFormed(m: Mat) { |m.data| == m.rows * m.cols * m.channels }

  /** `cv::Mat::empty()`: the matrix holds no element. */
  predicate IsEmpty(m: Mat) { m.rows * m.cols == 0 }

  /** OpenCV's contour retrieval and approximation modes. */
  const RETR_CCOMP: int := 2
  const CHAIN_APPROX_NONE: int := 1
  const CHAIN_APPROX_SIMPLE: int := 2

  /** `THRESH_BINARY | THRESH_OTSU`: binary thresholding at the Otsu level. */
  const THRESH_BINARY_OTSU: int := 8

  /**
   * The external collaborators. `isGrayScaleImage` is the application's own
   * test whether an image is single-channel grey. `formatDouble` stands for `ostream << double`
   * with default precision; `floatRatioBelowOne(a, b)` for the test
   * `(float)((double)a / (double)b) < 1`; `nonFiniteToInt` for the integer a
   * non-finite double converts to; `indeterminateHuMoments` for the
   * uninitialised `HuMoments` array of a default-initialised descriptor.
   */
  datatype Cv = Cv(
    imread: string -> Mat,
    isGrayScaleImage: Mat -> bool,
    cvtColor: (Mat, ColorCode) -> Mat,
    threshold: (Mat, real, real, int) -> Mat,
    findContours: (Mat, int, int) -> seq<Contour>,
    moments: Contour -> Moments,
    contourArea: Contour -> real,
    arcLength: (Contour, bool) -> real,
    convexHull: Contour -> Contour,
    approxPolyDP: (Contour, real, bool) -> Contour,
    isContourConvex: Contour -> bool,
    atan: real -> real,
    formatDouble: Double -> string,
    floatRatioBelowOne: (int, int) -> bool,
    nonFiniteToInt: int,
    indeterminateHuMoments: seq<real>)

  /** The standard library's `atan` maps every finite value into (-pi/2, pi/2). */
  ghost predicate AtanInRange(lib: Cv)
  {
    forall x :: -CV_PI / 2.0 < lib.atan(x) < CV_PI / 2.0
  }

  /** Default text of a double never holds a comma (the "C" locale). */
  ghost predicate FormatsWithoutComma(lib: Cv)
  {
    forall d :: ',' !in lib.formatDouble(d)
  }

  /**
   * What rounding the double quotient to float can and cannot do to the
   * test `ratio < 1`. For a non-negative dividend and divisor it can turn a
   * value just below 1 into 1, but never a value at or above 1 into one below
   * it, so the test can only pass when a < b. A negative dividend over a
   * non-negative divisor gives a negative quotient or -inf, and the test
   * passes.
   */
  ghost predicate FloatRatioSound(lib: Cv)
  {
    && (forall a: nat, b: nat :: lib.floatRatioBelowOne(a, b) ==> a < b)
    && (forall a: int, b: nat :: a < 0 ==> lib.floatRatioBelowOne(a, b))
  }
}
