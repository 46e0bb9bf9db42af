/**
 * The thin wrappers over the vision library: loading an image, and painting
 * a rectangular region of interest of a 3-channel image with one colour,
 * in place.
 */
module OpcvWrapper {
  import opened CvTypes

  /** `cv::Vec3b`: the three 8-bit channels of one pixel. */
  datatype Vec3b = Vec3b(c0: byte, c1: byte, c2: byte)

  /** `cv::Rect`: top-left corner, width and height. */
  datatype Rect = Rect(x: int, y: int, width: int, height: int)

  /** `cv::Rect::contains`: the rectangle is closed at its top-left corner and open at the far edges. */
  predicate Contains(roi: Rect, px: int, py: int)
  {
    roi.x <= px < roi.x + roi.width && roi.y <= py < roi.y + roi.height
  }

  /** `static_cast<unsigned char>` of an int: the value modulo 256. */
  function ToUChar(v: int): (c: byte)
    ensures c as int == v % 256
    ensures 0 <= v < 256 ==> c as int == v
    ensures exists k :: v == k * 256 + c as int
  {
    var q := v / 256;
    assert v == q * 256 + v % 256;
    (v % 256) as byte
  }

  /** `loadImage`: decodes the file; the result is false exactly when the decoded image is empty. */
  method LoadImage(lib: Cv, path: string) returns (ok: bool, img: Mat)
    ensures img == lib.imread(path)
    ensures ok <==> !IsEmpty(img)
  {
    img := lib.imread(path);
    if IsEmpty(img) {
      return false, img;
    }
    return true, img;
  }

  /** The colour `segmentationOfROI` writes: the three ints converted to channel values. */
  function RoiColor(r: int, g: int, b: int): Vec3b
  {
    Vec3b(ToUChar(r), ToUChar(g), ToUChar(b))
  }

  /** What a pixel becomes: the colour inside the region, its old value outside. */
  function PaintPixel(p: Vec3b, px: int, py: int, roi: Rect, color: Vec3b): Vec3b
  {
    if Contains(roi, px, py) then color else p
  }

  /** An image as rows of pixels; row y, column x is `img.at<Vec3b>(Point(x, y))`. */
  ghost function Pixels(img: array2<Vec3b>): (grid: seq<seq<Vec3b>>)
    reads img
    ensures |grid| == img.Length0
    ensures forall y :: 0 <= y < img.Length0 ==> |grid[y]| == img.Length1
    ensures forall y, x :: 0 <= y < img.Length0 && 0 <= x < img.Length1 ==> grid[y][x] == img[y, x]
  {
    seq(img.Length0, y requires 0 <= y < img.Length0 reads img =>
      seq(img.Length1, x requires 0 <= x < img.Length1 reads img => img[y, x]))
  }

  /** A grid of pixels painted over the region of interest. */
  function Painted(grid: seq<seq<Vec3b>>, roi: Rect, color: Vec3b): (out: seq<seq<Vec3b>>)
    ensures |out| == |grid|
    ensures forall y :: 0 <= y < |grid| ==> |out[y]| == |grid[y]|
    ensures forall y, x :: 0 <= y < |grid| && 0 <= x < |grid[y]| ==>
              out[y][x] == (if Contains(roi, x, y) then color else grid[y][x])
  {
    seq(|grid|, y requires 0 <= y < |grid| =>
      seq(|grid[y]|, x requires 0 <= x < |grid[y]| => PaintPixel(grid[y][x], x, y, roi, color)))
  }

  /** Painting the same region with the same colour a second time changes nothing. */
  lemma PaintedIdempotent(grid: seq<seq<Vec3b>>, roi: Rect, color: Vec3b)
    ensures Painted(Painted(grid, roi, color), roi, color) == Painted(grid, roi, color)
  {
    var once := Painted(grid, roi, color);
    var twice := Painted(once, roi, color);
    forall y | 0 <= y < |grid|
      ensures twice[y] == once[y]
    {
      assert |twice[y]| == |once[y]|;
      forall x | 0 <= x < |once[y]|
        ensures twice[y][x] == once[y][x]
      {
      }
    }
  }

  /** Later paintings win where regions overlap; outside both, the pixel keeps its value. */
  lemma PaintedTwice(grid: seq<seq<Vec3b>>, roi1: Rect, c1: Vec3b, roi2: Rect, c2: Vec3b, y: nat, x: nat)
    requires y < |grid| && x < |grid[y]|
    ensures var out := Painted(Painted(grid, roi1, c1), roi2, c2);
            && (Contains(roi2, x, y) ==> out[y][x] == c2)
            && (!Contains(roi2, x, y) && Contains(roi1, x, y) ==> out[y][x] == c1)
            && (!Contains(roi2, x, y) && !Contains(roi1, x, y) ==> out[y][x] == grid[y][x])
  {
    var once := Painted(grid, roi1, c1);
    assert |once[y]| == |grid[y]|;
  }

  /**
   * `segmentationOfROI`: visits every pixel once, row by row, and overwrites
   * the three channels of each pixel inside the region with (r, g, b)
   * converted to `unsigned char`; every other pixel and the dimensions stay
   * as they were.
   */
  method SegmentationOfRoi(img: array2<Vec3b>, roi: Rect, r: int, g: int, b: int)
    modifies img
    ensures forall y, x :: 0 <= y < img.Length0 && 0 <= x < img.Length1 ==>
              img[y, x] == (if Contains(roi, x, y) then RoiColor(r, g, b) else old(img[y, x]))
    ensures Pixels(img) == Painted(old(Pixels(img)), roi, RoiColor(r, g, b))
  {
    ghost var before := Pixels(img);
    for y := 0 to img.Length0
      invariant forall j, i :: 0 <= j < img.Length0 && 0 <= i < img.Length1 ==>
                  img[j, i] == (if j < y && Contains(roi, i, j) then RoiColor(r, g, b) else old(img[j, i]))
    {
      for x := 0 to img.Length1
        invariant forall j, i :: 0 <= j < img.Length0 && 0 <= i < img.Length1 ==>
                    img[j, i] == (if (j < y || (j == y && i < x)) && Contains(roi, i, j) then RoiColor(r, g, b) else old(img[j, i]))
      {
        var color := img[y, x];
        if Contains(roi, x, y) {
          color := color.(c0 := ToUChar(r));
          color := color.(c1 := ToUChar(g));
          color := color.(c2 := ToUChar(b));
          img[y, x] := color;
        }
      }
    }
    PaintedMatches(img, before, roi, RoiColor(r, g, b));
  }

  /** A grid that agrees pixel by pixel with the painting of `before` is that painting. */
  lemma PaintedMatches(img: array2<Vec3b>, before: seq<seq<Vec3b>>, roi: Rect, color: Vec3b)
    requires |before| == img.Length0
    requires forall y :: 0 <= y < |before| ==> |before[y]| == img.Length1
    requires forall y, x :: 0 <= y < img.Length0 && 0 <= x < img.Length1 ==>
               img[y, x] == (if Contains(roi, x, y) then color else before[y][x])
    ensures Pixels(img) == Painted(before, roi, color)
  {
    var now, painted := Pixels(img), Painted(before, roi, color);
    forall y | 0 <= y < |before|
      ensures now[y] == painted[y]
    {
      assert |now[y]| == |painted[y]|;
    }
  }
}
