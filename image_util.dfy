/**
 * Size arithmetic for showing images on the screen, and the conversion of
 * an image matrix into a GUI image: the choice of colour conversion and the
 * byte-for-byte copy into the GUI image's buffer.
 */
module ImageUtil {
  import opened CvTypes

  /** `cv::Size`: a width and a height. */
  datatype Size = Size(width: int, height: int)

  /** The `int` product `width * height` (32-bit overflow is not modelled). */
  function Area(s: Size): int
  {
    s.width * s.height
  }

  /** C++ `int / 2`: the quotient truncated toward zero. */
  function Half(v: int): (h: int)
    ensures v >= 0 ==> 0 <= h && 2 * h <= v < 2 * h + 2
    ensures v < 0 ==> h <= 0 && 2 * h - 2 < v <= 2 * h
  {
    if v >= 0 then v / 2 else -((-v) / 2)
  }

  lemma CastMul(x: int, y: int)
    ensures ((x * y) as real) == (x as real) * (y as real)
  {
  }

  lemma RealDivSplit(m: real, w: real, r: real)
    requires w > 0.0
    ensures (m * w + r) / w == m + r / w
  {
  }

  lemma RealFracBounds(r: real, w: real)
    requires 0.0 <= r < w
    ensures 0.0 <= r / w < 1.0
  {
  }

  lemma FloorOfSum(m: int, f: real)
    requires 0.0 <= f < 1.0
    ensures (m as real + f).Floor == m
  {
  }

  /** The exact quotient of `a + h * w` by `w`, rounded down, is `h` plus the integer quotient of `a` by `w`. */
  lemma FloorOfShiftedQuotient(a: nat, h: nat, w: nat)
    requires w > 0
    ensures (((a + h * w) as real) / (w as real)).Floor == a / w + h
  {
    var q, r := a / w, a % w;
    var m := q + h;
    assert a + h * w == m * w + r;
    CastMul(m, w);
    var n, wr, rr := (a + h * w) as real, w as real, r as real;
    assert n == (m as real) * wr + rr;
    RealDivSplit(m as real, wr, rr);
    assert n / wr == (m as real) + rr / wr;
    RealFracBounds(rr, wr);
    FloorOfSum(m, rr / wr);
  }

  lemma DivBelowOne(a: real, b: real)
    requires b > 0.0
    ensures a / b < 1.0 <==> a < b
  {
  }

  /**
   * `fitImageOnScreen`: the size the image is resized to, for an image of
   * width `w` and height `h` and a screen of `wscreen` by `hscreen` (plain
   * `int`s, so the screen area may be negative). The
   * test `(float)(area_screen / area_img) < 1` is `lib.floatRatioBelowOne`;
   * when it holds the width is halved and the height becomes the truncated
   * double quotient `(area_screen + area_img) / w`; otherwise the image is
   * cloned and keeps its size.
   */
  function FitImageOnScreen(lib: Cv, w: nat, h: nat, wscreen: int, hscreen: int): Size
  {
    var areaScreen := wscreen * hscreen;
    var areaImg := h * w;
    if lib.floatRatioBelowOne(areaScreen, areaImg) then
      Size(w / 2, DoubleToInt(lib, Quotient((areaScreen + areaImg) as real, w as real)))
    else
      Size(w, h)
  }

  /** A screen at least as large as the image leaves the size unchanged. */
  lemma FitKeepsSizeOnLargeScreen(lib: Cv, w: nat, h: nat, wscreen: int, hscreen: int)
    requires FloatRatioSound(lib)
    requires wscreen * hscreen >= h * w
    ensures FitImageOnScreen(lib, w, h, wscreen, hscreen) == Size(w, h)
  {
  }

  /**
   * On a screen of non-negative area, when the ratio test passes, the image
   * has a non-zero width, the width is halved, and the height is the old
   * height plus the integer quotient of the screen area by the width; it
   * never gets smaller. A negative area is the subject of the next lemmas.
   */
  lemma {:induction false} FitShrinkRule(lib: Cv, w: nat, h: nat, wscreen: int, hscreen: int)
    requires FloatRatioSound(lib)
    requires wscreen * hscreen >= 0
    requires lib.floatRatioBelowOne(wscreen * hscreen, h * w)
    ensures w > 0
    ensures FitImageOnScreen(lib, w, h, wscreen, hscreen) == Size(w / 2, (wscreen * hscreen) / w + h)
    ensures FitImageOnScreen(lib, w, h, wscreen, hscreen).height >= h
  {
    var a: nat := wscreen * hscreen;
    assert a < h * w;
    FloorOfShiftedQuotient(a, h, w);
  }

  /**
   * A screen of negative area always passes the ratio test. With a zero
   * width the height is the quotient by zero, -inf or NaN, converted to
   * `int`.
   */
  lemma FitOnNegativeScreen(lib: Cv, w: nat, h: nat, wscreen: int, hscreen: int)
    requires FloatRatioSound(lib)
    requires wscreen * hscreen < 0
    ensures FitImageOnScreen(lib, w, h, wscreen, hscreen).width == w / 2
    ensures w == 0 ==> FitImageOnScreen(lib, w, h, wscreen, hscreen) == Size(0, lib.nonFiniteToInt)
    ensures w > 0 ==> FitImageOnScreen(lib, w, h, wscreen, hscreen).height ==
                      TruncToInt(((wscreen * hscreen + h * w) as real) / (w as real))
  {
    assert lib.floatRatioBelowOne(wscreen * hscreen, h * w);
  }

  /** On a screen of negative area the image can get shorter: 100 by 100 on an area of -500 becomes 50 by 95. */
  lemma FitNegativeScreenShrinks(lib: Cv)
    requires FloatRatioSound(lib)
    ensures FitImageOnScreen(lib, 100, 100, -5, 100) == Size(50, 95)
  {
    FitOnNegativeScreen(lib, 100, 100, -5, 100);
    assert (9500 as real) / (100 as real) == 95.0;
  }

  /** `area_screen / area_img < 1` on doubles; a zero area gives +inf or NaN, and neither is below 1. */
  predicate RatioBelowOne(areaScreen: int, areaImg: int)
  {
    match Quotient(areaScreen as real, areaImg as real)
    case Finite(v) => v < 1.0
    case NegInf => true
    case _ => false
  }

  /** For non-negative areas the double test is exactly "the screen is smaller than the image". */
  lemma RatioBelowOneMeaning(areaScreen: int, areaImg: int)
    requires areaScreen >= 0 && areaImg >= 0
    ensures RatioBelowOne(areaScreen, areaImg) <==> areaScreen < areaImg
  {
    if areaImg > 0 {
      DivBelowOne(areaScreen as real, areaImg as real);
    }
  }

  /** Both dimensions of a size halved with C++ integer division. */
  function Halved(s: Size): Size
  {
    Size(Half(s.width), Half(s.height))
  }

  /** The sizes `showManyImagesOnScreen` leaves the images with, decided by the first image alone. */
  function ShownSizes(sizes: seq<Size>, screen: Size): (out: seq<Size>)
    requires |sizes| > 0
    ensures |out| == |sizes|
  {
    if RatioBelowOne(Area(screen), Area(sizes[0])) then seq(|sizes|, i requires 0 <= i < |sizes| => Halved(sizes[i]))
    else sizes
  }

  /** A screen at least as large as the first image leaves every size as it was. */
  lemma ShownSizesOnLargeScreen(sizes: seq<Size>, screen: Size)
    requires |sizes| > 0
    requires 0 <= Area(sizes[0]) <= Area(screen)
    ensures ShownSizes(sizes, screen) == sizes
  {
    RatioBelowOneMeaning(Area(screen), Area(sizes[0]));
  }

  /** A screen smaller than the first image halves every image, whatever its own size. */
  lemma ShownSizesOnSmallScreen(sizes: seq<Size>, screen: Size)
    requires |sizes| > 0
    requires 0 <= Area(screen) < Area(sizes[0])
    ensures forall i :: 0 <= i < |sizes| ==> ShownSizes(sizes, screen)[i] == Halved(sizes[i])
  {
    RatioBelowOneMeaning(Area(screen), Area(sizes[0]));
  }

  /** Only the first size takes part in the decision: lists with the same first size are treated alike. */
  lemma ShownSizesDecidedByFirst(sizes: seq<Size>, others: seq<Size>, screen: Size)
    requires |sizes| > 0 && |others| > 0 && sizes[0] == others[0]
    ensures (ShownSizes(sizes, screen) == sizes) || (forall i :: 0 <= i < |sizes| ==> ShownSizes(sizes, screen)[i] == Halved(sizes[i]))
    ensures RatioBelowOne(Area(screen), Area(sizes[0])) ==>
              forall i :: 0 <= i < |others| ==> ShownSizes(others, screen)[i] == Halved(others[i])
    ensures !RatioBelowOne(Area(screen), Area(sizes[0])) ==> ShownSizes(others, screen) == others
  {
  }

  /**
   * `showManyImagesOnScreen`, on the sizes of the images: when the screen
   * area is below the first image's area, every image is resized in place to
   * half its width and height; otherwise nothing changes. The client area of
   * the display is the parameter `screen`.
   */
  method ShowManyImagesOnScreen(images: array<Size>, screen: Size)
    requires images.Length > 0
    modifies images
    ensures images[..] == ShownSizes(old(images[..]), screen)
  {
    var areaScreen := screen.width * screen.height;
    var areaImg := images[0].width * images[0].height;
    if RatioBelowOne(areaScreen, areaImg) {
      for i := 0 to images.Length
        invariant forall j :: 0 <= j < i ==> images[j] == Halved(old(images[j]))
        invariant forall j :: i <= j < images.Length ==> images[j] == old(images[j])
      {
        images[i] := Size(Half(images[i].width), Half(images[i].height));
      }
    }
  }

  /** The conversion `wx_from_mat` applies: by the channel count, to 3-channel RGB. */
  function ConversionFor(channels: nat): (code: ColorCode)
    ensures code == COLOR_GRAY2RGB <==> channels == 1
    ensures code == COLOR_BGRA2RGB <==> channels == 4
    ensures code == COLOR_BGR2RGB <==> channels != 1 && channels != 4
  {
    if channels == 1 then COLOR_GRAY2RGB
    else if channels == 4 then COLOR_BGRA2RGB
    else COLOR_BGR2RGB
  }

  /** `wxImage`: a width, a height and the pixel buffer the image owns. */
  class WxImage {
    const width: int
    const height: int
    const data: array<byte>

    /** `wxImage(width, height, buffer, false)` over a freshly allocated buffer of `size` bytes. */
    constructor (width: int, height: int, size: nat)
      ensures this.width == width && this.height == height
      ensures fresh(data) && data.Length == size
    {
      this.width := width;
      this.height := height;
      data := new byte[size];
    }
  }

  /**
   * `wx_from_mat`: converts the image to RGB, allocates a GUI image of the
   * converted size and copies the `rows * cols * channels` bytes of the
   * converted matrix into its buffer, one by one.
   */
  method WxFromMat(lib: Cv, img: Mat) returns (wx: WxImage)
    requires WellFormed(lib.cvtColor(img, ConversionFor(img.channels)))
    ensures fresh(wx) && fresh(wx.data)
    ensures var im2 := lib.cvtColor(img, ConversionFor(img.channels));
            wx.width == im2.cols && wx.height == im2.rows && wx.data[..] == im2.data
  {
    var im2: Mat;
    if img.channels == 1 {
      im2 := lib.cvtColor(img, COLOR_GRAY2RGB);
    } else if img.channels == 4 {
      im2 := lib.cvtColor(img, COLOR_BGRA2RGB);
    } else {
      im2 := lib.cvtColor(img, COLOR_BGR2RGB);
    }
    var imsize := im2.rows * im2.cols * im2.channels;
    wx := new WxImage(im2.cols, im2.rows, imsize);
    var s := im2.data;
    var d := wx.data;
    for i := 0 to imsize
      invariant d[..i] == s[..i]
    {
      d[i] := s[i];
    }
    assert d[..] == d[..imsize];
  }
}
