# Region descriptors of an image viewer, modelled in Dafny

The image viewer finds the regions of an image and measures each one. It
converts the image to grayscale when needed, binarises it at the Otsu level
and traces the contours. One of three strategies then turns each contour into
a region representation: the contour itself (`Normal`), its convex hull
(`Hull`), or a polygon approximation with tolerance one tenth of the closed
arc length (`Aprox`). For each representation it stores the spatial moments
and a convexity flag.

For every stored region it measures five things:

- area;
- closed perimeter;
- roundness `4 pi A / P^2`;
- orientation `0.5 atan(2 m11 / (m20 - m02))` in degrees;
- the centroid `(m10/m00, m01/m00)`, truncated to `int`.

Regions whose area is below 100 or above 100000 are dropped. The rest are
output in one of three forms:

- a collection of descriptors (`getImageDescriptors`);
- a text report in which each retained region gets a block labelled
  `Region k`, numbered from 0 (`getImageInfoMoments` / `Apply`);
- comma-separated lines (`createCSV`).

The model also covers three helpers:

- loading an image;
- painting a rectangular region of interest in place;
- the screen-fitting size rules and the copy of a matrix into a GUI image
  buffer.

Layout:

- `cv_types.dfy` (`CvTypes`): the values passed around (points, contours,
  moments, matrices). It also defines `Double`, which stands for a C++
  `double` and has IEEE infinities and NaN. Finally it defines the `Cv`
  record of total functions that every operation receives as a parameter.
  It stands for the vision and GUI libraries. It also stands for what the
  C++ runtime decides: the text of a double (`formatDouble`), the `float`
  ratio test (`floatRatioBelowOne`), the `int` a non-finite double
  converts to (`nonFiniteToInt`), and the indeterminate Hu-moment array.
  Finally it stands for the application's own helper `isGrayScaleImage`.
- `text.dfy` (`Text`): decimal text of integers, splitting at a separator,
  and joining.
- `interest_point_types.dfy` (`InterestPointTypes`):
  - `ComponentsDescriptor`, a class with its copy and move operations;
  - the `ImageDescriptor` value, with its comparison operators and its text
    block.
- `interest_points.dfy` (`InterestPoints`):
  - the extractor, a class holding the traced contours and the records;
  - the measurements and the size filter;
  - the descriptor collection, the report and the CSV lines.
- `opcv_wrapper.dfy` (`OpcvWrapper`): `loadImage` and `segmentationOfROI`.
  The image is an `array2` of pixels, updated in place.
- `image_util.dfy` (`ImageUtil`): `fitImageOnScreen`,
  `showManyImagesOnScreen` (with the sizes kept in an `array`, resized in
  place), and `wx_from_mat` (with the GUI buffer as an `array`).

How three things in the code are modelled:

- `double` arithmetic is exact real arithmetic, except for division by zero.
  A zero divisor gives `PosInf`, `NegInf` or `NaN`, as IEEE 754 does for a
  divisor of +0.
- Converting a double to `int` truncates toward zero. A non-finite double
  converts to the platform's value `lib.nonFiniteToInt`.
- `static_cast<unsigned char>` of an `int` is reduction modulo 256.

Where the code and its design description disagree, the model follows the
code:

- Orientation is computed from the raw moments `m11`, `m20`, `m02`, not the
  central ones. Because of the factor 0.5 it lies in [-45, 45] degrees (see
  `OrientationRange`), not in [-90, 90).
  - When `m20 == m02` the quotient is infinite and the orientation is ±45.
    When `m11` is also 0 the orientation is NaN.
- Regions with a zero perimeter or a zero `m00` are not skipped. The size
  filter is the only filter. Their roundness is `+inf`, `-inf` or NaN, and their
  centroid is whatever the platform converts a non-finite double to.
- `createCSV` writes nothing at all, not even the header, for an empty
  collection. It writes nothing when the file cannot be opened.
- Hu moments are never computed. A descriptor keeps the indeterminate
  contents of its uninitialised array.
- `fitImageOnScreen` keeps the size unless the ratio test passes. When it
  passes, it halves the width and sets the height to the truncated double
  quotient `(screen area + h*w) / w`. On a screen of non-negative area that
  is `h + (screen area) / w`, so the image never gets shorter (see
  `FitShrinkRule`). The screen dimensions are plain `int`s. A negative
  screen area always passes the ratio test. The height is then
  `trunc((a + h*w) / w)`, which is not `h + a / w` under C++ truncating
  division, and it can be smaller than `h` (see `FitOnNegativeScreen` and
  `FitNegativeScreenShrinks`). With a zero width as well, the height is a
  quotient by zero converted to `int` (see `FitOnNegativeScreen`).

## Model

| member | source | states |
|---|---|---|
| CvTypes.Quotient | image_interest_points.cpp:30-31 | `/` on doubles: finite exactly when the divisor is non-zero; +inf, -inf or NaN by the sign of the dividend when it is zero |
| CvTypes.TruncToInt | image_interest_points.cpp:30-31 | the conversion to `int` truncates toward zero: within 1 of the value, on the side of zero |
| CvTypes.DoubleToInt | image_interest_points.cpp:30-31 | finite doubles truncate; non-finite ones give the platform's value |
| CvTypes.Atan | image_interest_points.cpp:62 | `atan` is the library's on finite values, ±pi/2 at the infinities, and NaN exactly for NaN |
| CvTypes.Scale | image_interest_points.cpp:62-64 | multiplying by a positive constant keeps infinities and NaN and scales finite values |
| InterestPointTypes.ComponentsDescriptor.constructor | image_interest_points.h:11-17 | a default record has an empty region, zero moments and `convex == false` |
| InterestPointTypes.ComponentsDescriptor.Copy | image_interest_points.h:19-24 | the copy holds the source's three fields |
| InterestPointTypes.ComponentsDescriptor.Move | image_interest_points.h:26-35 | the new record takes the source's fields; the source's region is cleared and its moments reset, and its convexity flag is kept |
| InterestPointTypes.ComponentsDescriptor.CopyAssign | image_interest_points.h:37-43 | the target takes the source's fields; a distinct source is unchanged |
| InterestPointTypes.ComponentsDescriptor.MoveAssign | image_interest_points.h:45-55 | a distinct target takes the source's old fields; the source ends with an empty region and default moments, so a self-move empties the record |
| InterestPointTypes.Equal | image_interest_points.h:68-75 | definition of `operator==` on centroid, area, perimeter, orientation (double `==`, so NaN is unequal to itself) and convexity; meaning in EqualIgnoresRoundnessAndHu, EqualReflexiveUnlessNaN, EqualSymmetricTransitive |
| InterestPointTypes.Less | image_interest_points.h:82-85 | definition of `operator<` on area; meaning in LessIsStrictOrderOnArea |
| InterestPointTypes.Greater | image_interest_points.h:77-80 | definition of `operator>` on area; meaning in LessIsStrictOrderOnArea |
| InterestPointTypes.EqualIgnoresRoundnessAndHu | image_interest_points.h:68-75 | `==` does not look at roundness or Hu moments |
| InterestPointTypes.EqualReflexiveUnlessNaN | image_interest_points.h:68-75 | a descriptor equals itself exactly when its orientation is not NaN |
| InterestPointTypes.EqualSymmetricTransitive | image_interest_points.h:68-75 | `==` is symmetric and transitive |
| InterestPointTypes.LessIsStrictOrderOnArea | image_interest_points.h:77-85 | `<` is a strict order on area, `a < b` exactly when `b > a`, and incomparable means equal area |
| InterestPointTypes.IncomparableNeedNotBeEqual | image_interest_points.h:68-85 | two descriptors with equal area but different perimeters are incomparable by `<` yet not `==` |
| InterestPointTypes.DescriptorLines | image_interest_points.h:87-99 | `operator<<` writes eight lines: dashes at the first and last, the centroid line in sixth place, and the convexity line (`convex` or `not Convex`) in seventh |
| InterestPointTypes.ConvexityLineDeterminesConvex | image_interest_points.h:95-96 | two descriptors with the same convexity line have the same convexity flag |
| InterestPointTypes.CoordinatesTextInjective | image_interest_points.h:94 | the text `x,y]` determines both coordinates |
| InterestPointTypes.CentroidLineDeterminesCentroid | image_interest_points.h:94 | two descriptors with the same centroid line have the same centroid |
| InterestPoints.TraceRegions | image_interest_points.cpp:8-25 | definition: grayscale unless already grey, Otsu threshold at 50/255, contour tracing with the given modes; the contract of DetectRegions |
| InterestPoints.Region | image_interest_points.cpp:74-106 | definition of the three strategies' representations (raw contour, convex hull, approximation with tolerance 0.1 times the closed arc length); used by Record |
| InterestPoints.Record | image_interest_points.cpp:69-112 | the record of a contour holds the strategy's region, that region's moments and its convexity |
| InterestPoints.Records | image_interest_points.cpp:71-80 | one record per raw contour, in contour order |
| InterestPoints.RecordsAppend | image_interest_points.cpp:71-80 | recording a concatenation of contour lists gives the concatenation of the records |
| InterestPoints.ComponentsExtractor.constructor | image_interest_points.h:111 | a new extractor keeps its image and strategy and has no contours and no records |
| InterestPoints.ComponentsExtractor.DetectRegions | image_interest_points.cpp:6-26 | the traced contours are replaced by those of the binarised grayscale image under the given modes |
| InterestPoints.EntryContoursAreDefaults | image_interest_points.cpp:140 | `detectRegions(CHAIN_APPROX_SIMPLE)` passes the constant as the retrieval mode, where its value equals `RETR_CCOMP`, so it traces exactly as the default modes do |
| InterestPoints.ComponentsExtractor.GetImageFullInformation | image_interest_points.h:115 | returns the records and changes nothing |
| InterestPoints.ComponentsExtractor.GetObjectsInfo | image_interest_points.cpp:69-112 | appends one record per traced contour to the existing records; the member record is left holding the last one |
| InterestPoints.GetArea | image_interest_points.cpp:36-39 | definition: the library's contour area; meaning in RoundnessMeaning and DescribeRoundness |
| InterestPoints.GetPerimeter | image_interest_points.cpp:41-44 | definition: the library's arc length, closed by default (image_interest_points.h:120); meaning in RoundnessMeaning |
| InterestPoints.GetRoundNess | image_interest_points.cpp:47-53 | definition; meaning in RoundnessMeaning |
| InterestPoints.GetCentroid | image_interest_points.cpp:28-34 | definition; meaning in CentroidMeaning |
| InterestPoints.GetOrientation | image_interest_points.cpp:55-66 | definition; meaning in OrientationMeaning and OrientationRange |
| InterestPoints.RoundnessMeaning | image_interest_points.cpp:47-53 | roundness is finite exactly when the perimeter is non-zero, and then it times `P^2` is `4 pi A`; a zero perimeter gives NaN exactly for a zero area and +inf exactly for a positive area (so -inf for a negative one) |
| InterestPoints.CentroidMeaning | image_interest_points.cpp:28-34 | with `m00 != 0` each coordinate is the truncated quotient; with `m00 == 0` both are the platform's non-finite conversion |
| InterestPoints.OrientationMeaning | image_interest_points.cpp:55-66 | NaN exactly when `m11 == 0` and `m20 == m02`; ±45 when only `m20 == m02`; otherwise `atan(2 m11/(m20-m02)) * 90/pi` |
| InterestPoints.OrientationRange | image_interest_points.cpp:55-66 | a finite orientation lies in [-45, 45] degrees |
| InterestPoints.Describe | image_interest_points.cpp:147-163 | definition of the measurement block; meaning in DescribeRoundness, with CentroidMeaning and OrientationMeaning for its other fields |
| InterestPoints.Kept | image_interest_points.cpp:154 | definition of the size test; meaning in KeptBounds |
| InterestPoints.KeptBounds | image_interest_points.cpp:154 | a region is kept exactly when `100 <= area <= 100000`, bounds included |
| InterestPoints.Measured | image_interest_points.cpp:144-152 | one descriptor per record, in order |
| InterestPoints.SizeFiltered | image_interest_points.cpp:144-166 | every retained descriptor passes the filter, and there are no more of them than inputs |
| InterestPoints.KeptIndicesIncrease | image_interest_points.cpp:144-166 | the retained positions are in range and strictly increasing, so order is preserved |
| InterestPoints.SizeFilteredPicks | image_interest_points.cpp:144-166 | the k-th retained descriptor is the input at the k-th retained position |
| InterestPoints.KeptIndicesExact | image_interest_points.cpp:154 | a position is retained exactly when its descriptor passes the filter |
| InterestPoints.SizeFilteredMembership | image_interest_points.cpp:144-166 | a descriptor is retained exactly when it is an input that passes the filter |
| InterestPoints.SizeFilteredSnoc | image_interest_points.cpp:154-165 | one more descriptor extends the result by itself exactly when it passes |
| InterestPoints.FilteredPrefixStep | image_interest_points.cpp:144-166 | one more record extends the retained descriptors by its descriptor exactly when that descriptor is kept |
| InterestPoints.DescribeRoundness | image_interest_points.cpp:147-149 | the stored roundness is 4 pi A / P^2 of the stored area and closed perimeter: finite exactly when that perimeter is non-zero, NaN when both are zero, +inf exactly when the perimeter is zero and the area positive |
| InterestPoints.KeptDescriptors | image_interest_points.cpp:143-166 | the loop collects the filtered descriptors of all records, in order |
| InterestPoints.GetImageDescriptors | image_interest_points.cpp:133-170 | the result is the filtered descriptors of the hull records of the image's contours |
| InterestPoints.RegionBlock | image_interest_points.cpp:254-255 | a region's block has nine lines |
| InterestPoints.Report | image_interest_points.cpp:232-258 | definition: the numbered blocks of the retained descriptors; meaning in ReportLayout, ReportLines, RegionLabelsDistinct |
| InterestPoints.ConcatLayout | image_interest_points.cpp:233-258 | blocks of nine lines written one after the other: block k occupies lines 9k to 9k+9 |
| InterestPoints.ReportIsConcat | image_interest_points.cpp:233-258 | the report is its numbered blocks written in order |
| InterestPoints.ReportLayout | image_interest_points.cpp:233-258 | the report has 9 lines per retained region, and region k's block starts at line 9k |
| InterestPoints.ReportLines | image_interest_points.cpp:254-255 | line 9k is `Region k`, and the next eight lines are descriptor k's text |
| InterestPoints.RegionLabelsDistinct | image_interest_points.cpp:254-257 | different regions get different labels |
| InterestPoints.ReportSnoc | image_interest_points.cpp:254-257 | one more retained region appends its block, numbered by the count so far |
| InterestPoints.ReportStep | image_interest_points.cpp:243-257 | a dropped region neither writes nor advances the index; a kept one writes its block and advances it by one |
| InterestPoints.ReportKept | image_interest_points.cpp:232-258 | the loop writes the blocks of the retained regions, numbered from 0 |
| InterestPoints.Apply | image_interest_points.cpp:224-266 | traces with CHAIN_APPROX_SIMPLE, appends the records, and returns the report of the size-filtered descriptors |
| InterestPoints.StrategyFor | image_interest_points.cpp:177-220 | Hull or Aprox exactly when `opt == 0` and the dialog selection names them; Normal in every other case |
| InterestPoints.GetImageInfoMoments | image_interest_points.cpp:172-222 | the report for the selected strategy's records of the image |
| InterestPoints.CsvRow | image_interest_points.cpp:283-286 | definition: the four fields joined by commas; meaning in CsvRowSplits |
| InterestPoints.CsvLinesAsWritten | image_interest_points.cpp:268-293 | definition of the lines as the code writes them; meaning in CsvAsWrittenDropsFirst and CsvAsWrittenCounterexample |
| InterestPoints.CsvLines | image_interest_points.cpp:268-293 | definition of the lines with the header before the first row; meaning in CsvLinesReadBack |
| InterestPoints.CsvRowSplits | image_interest_points.cpp:283-286 | a row splits at its commas into the four field texts |
| InterestPoints.CsvRows | image_interest_points.cpp:274-290 | one row per descriptor, in order |
| InterestPoints.CsvHeaderFields | image_interest_points.cpp:278 | the header splits into `Area`, `Perimeter`, `roundness`, `orientation` |
| InterestPoints.CsvAsWrittenDropsFirst | image_interest_points.cpp:268-293 | as written, an empty collection gives no lines, and a non-empty one gives as many lines as descriptors: the header plus the rows of all descriptors but the first |
| InterestPoints.CsvAsWrittenCounterexample | image_interest_points.cpp:276-281 | for one descriptor the code writes only the header, where a header and its row were meant |
| InterestPoints.CreateCsv | image_interest_points.cpp:268-293 | the lines the loop writes are exactly those of the code as written; no lines when the file does not open |
| InterestPoints.CreateCsvAllRows | image_interest_points.cpp:268-293 | with the header written before the first row, every descriptor gets its row |
| InterestPoints.CsvLinesReadBack | image_interest_points.cpp:268-293 | a corrected file reads back: the header splits into the column names and row k into descriptor k's fields |
| OpcvWrapper.LoadImage | opcvwrapper.cpp:5-13 | the image is the decoded file, and the result is false exactly when it is empty |
| OpcvWrapper.ToUChar | opcvwrapper.cpp:240-242 | `static_cast<unsigned char>` is reduction modulo 256, the identity on 0..255 |
| OpcvWrapper.Contains | opcvwrapper.cpp:238 | definition of `Rect::contains`, closed at the top-left corner and open at the far edges; used by Painted |
| OpcvWrapper.RoiColor | opcvwrapper.cpp:240-242 | definition: the three ints converted to channel values; meaning in ToUChar |
| OpcvWrapper.Painted | opcvwrapper.cpp:230-249 | inside the rectangle each pixel is the colour, outside it keeps its value; dimensions are kept |
| OpcvWrapper.PaintedIdempotent | opcvwrapper.cpp:230-249 | painting the same region twice with the same colour is painting it once |
| OpcvWrapper.PaintedTwice | opcvwrapper.cpp:230-249 | where regions overlap the later colour wins; outside both the pixel is unchanged |
| OpcvWrapper.SegmentationOfRoi | opcvwrapper.cpp:230-249 | the image after the loop is the painting of the image before it |
| OpcvWrapper.PaintedMatches | opcvwrapper.cpp:233-247 | an image that agrees pixel by pixel with a painting is that painting |
| ImageUtil.Half | image_util.cpp:41 | C++ `int / 2` truncates toward zero |
| ImageUtil.FitImageOnScreen | image_util.cpp:30-52 | definition of the resulting size; meaning in FitKeepsSizeOnLargeScreen, FitShrinkRule, FitOnNegativeScreen, FitNegativeScreenShrinks |
| ImageUtil.FitKeepsSizeOnLargeScreen | image_util.cpp:30-52 | a screen at least as large as the image leaves its size unchanged |
| ImageUtil.FitShrinkRule | image_util.cpp:39-45 | on a screen of non-negative area, when the ratio test passes, the width is non-zero and is halved, the height is `h + screen/w`, and the height never decreases |
| ImageUtil.FitOnNegativeScreen | image_util.cpp:30-45 | a negative screen area always passes the test; the width is halved; a zero width gives the platform's conversion of a quotient by zero as the height; otherwise the height is the truncated double quotient |
| ImageUtil.FitNegativeScreenShrinks | image_util.cpp:35-44 | a 100 by 100 image on a screen of area -500 becomes 50 by 95, shorter than before |
| ImageUtil.RatioBelowOne | image_util.cpp:58-63 | definition of the double test `screen/img < 1`; meaning in RatioBelowOneMeaning |
| ImageUtil.Halved | image_util.cpp:67 | definition: both dimensions halved with C++ `int / 2`; meaning in Half |
| ImageUtil.RatioBelowOneMeaning | image_util.cpp:58-63 | for non-negative areas the double test `screen/img < 1` holds exactly when the screen area is smaller |
| ImageUtil.ShownSizes | image_util.cpp:63-70 | one size per image |
| ImageUtil.ShownSizesOnLargeScreen | image_util.cpp:54-70 | a screen at least as large as the first image leaves every size unchanged |
| ImageUtil.ShownSizesOnSmallScreen | image_util.cpp:54-70 | a smaller screen gives every image its halved size as the requested target |
| ImageUtil.ShownSizesDecidedByFirst | image_util.cpp:58-63 | only the first image takes part in the decision |
| ImageUtil.ShowManyImagesOnScreen | image_util.cpp:54-70 | the images' sizes after the call are the shown sizes of those before it |
| ImageUtil.ConversionFor | image_util.cpp:11-13 | GRAY2RGB exactly for one channel, BGRA2RGB exactly for four, BGR2RGB otherwise |
| ImageUtil.WxImage.constructor | image_util.cpp:15 | a GUI image of the converted size over a fresh buffer of `imsize` bytes |
| ImageUtil.WxFromMat | image_util.cpp:8-20 | the GUI image has the converted matrix's width and height, and its buffer holds exactly the converted bytes |

## Left out

- The vision and GUI libraries' own algorithms are not part of this model. This covers grayscale conversion, thresholding, contour tracing, moments, area, arc length, convex hull, polygon approximation, convexity, `atan`, `imread`, `resize` and `imshow`. The application's own helper `isGrayScaleImage` is not part of this model either; it enters as the abstract `lib.isGrayScaleImage`. The record `Cv` stands for all of them, and the properties that matter are stated as predicates (`AtanInRange`, `FormatsWithoutComma`, `FloatRatioSound`).
- Floating-point rounding is not modelled: finite doubles are exact reals. `FitImageOnScreen` keeps the `float` ratio test as the abstract `lib.floatRatioBelowOne`. `FloatRatioSound` says only that it cannot pass unless the screen area is smaller, and that it passes for a negative screen area.
- 32-bit overflow is not modelled; integers are unbounded. This concerns the `int` products `wscreen * hscreen` and `h * w` in `fitImageOnScreen` (image_util.cpp:35-36), the two area products in `showManyImagesOnScreen` (image_util.cpp:58-59), and `rows * cols * channels` in `wx_from_mat` (image_util.cpp:14).
- A double-to-`int` conversion whose value lies outside the `int` range is undefined behaviour in C++. The model truncates it to an unbounded integer. This concerns the centroid coordinates in `getCentroid` (image_interest_points.cpp:30-31) and the height `h1` in `fitImageOnScreen` (image_util.cpp:42).
- The text of a double (`ostream << double`) is the abstract `lib.formatDouble`.
- The file system is not modelled. `createCSV` returns its lines. Whether the file opened is the parameter `isOpen`.
- Dialogs and the display are not modelled. The dialog's selection is the parameter `selection` of `GetImageInfoMoments`, and the display's client area is the parameter `screen` of `ShowManyImagesOnScreen`.
- The keypoint code (FAST, SIFT, matching), the keypoint `createCSV`, `CCompare` and `mat_from_wx` are not part of this model.
- The call `createCSV(out)` inside `getImageDescriptors` (image_interest_points.cpp:168) is left out. It matches neither declared overload (image_interest_points.h:173 and h:179), and neither has a default argument. The model's `GetImageDescriptors` returns the collection only.
- `Apply`'s unused image argument, the clone of it made in `getImageInfoMoments`, and the `delete base` are left out. Memory management has no counterpart here.
- Hu moments are never computed by the code. The model carries the uninitialised array as `lib.indeterminateHuMoments`. Central and normalised moments are not modelled because the code does not use them.
- The image handed to `fitImageOnScreen` and `showManyImagesOnScreen` is modelled by its size only. Pixel resampling is the library's.
- FitImageOnScreen: the returned `Size` is the target requested from the library's `resize` (image_util.cpp:41-44). `resize` throws when a target dimension is at most 0, or when the source is empty. Examples: `w == 1` gives a target width of 0; a screen area of -20000 on a 100x100 image gives a target height of -100; `w == 0` is an empty source. The model returns the requested size in those cases instead of the exception.
- ShowManyImagesOnScreen: the sizes in its `ensures` are the targets requested from `resize` (image_util.cpp:67-68). `resize` throws when a halved dimension is 0, for example for an image 1 pixel wide or high. The code then stops in the middle of the loop: the images before the failing one are already resized, and that one and the later ones are untouched. The model does not capture this exception path.
- ShowManyImagesOnScreen: requires at least one image, because the code reads `images[0]` unconditionally. The second ratio computed after the resize (image_util.cpp:72-74) is never read, so it is left out. So is the display of the images (image_util.cpp:76-81).
- WxFromMat: requires the converted matrix to hold exactly `rows * cols * channels` bytes. This is what the copy loop reads; a `cv::Mat` of 8-bit channels always does.
- MeasureRegion, KeptDescriptors and ReportKept are the loop bodies and loops of `getImageDescriptors` and `Apply`, written as separate methods. The loops work on the copy of the records that `getImageFullInformation` returns, so no object state is involved.

## Findings

| source | as written | input that shows it | evidently intended | confidence | as-written member | corrected member |
|---|---|---|---|---|---|---|
| image_interest_points.cpp:276-281 | on the first descriptor the header is written and the loop `continue`s, so the first descriptor's row is never written | a collection of one descriptor: the file holds the header alone | the header before the first row, then one row per descriptor | not executed | InterestPoints.CsvAsWrittenCounterexample | InterestPoints.CsvLinesReadBack |
