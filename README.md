# Pothole detector: verified model of `detect_potholes`

This project models the decision logic of the classical pothole detector in
`app.py`. The detector resizes a road photograph to a 640x480 working frame and
searches only the region of interest (ROI) below a crop line at 30% of the
height. It finds the outer contours of dark blobs there, and keeps a blob when
its contour area and its bounding-box aspect ratio fall inside fixed bounds.
For every kept blob it adds one to a count and draws a red box and a
"Pothole" label on a copy of the working frame. The box is moved from ROI
coordinates back to frame coordinates. It returns the annotated copy and the
count.

The model has three modules:

- `Roi` (`roi.dfy`): the working frame size, the crop offset `int(h * 0.3)`
  and the ROI `img[int(h*0.3):h, 0:w]` as a `Region` value.
- `Blobs` (`blobs.dfy`): a contour as the classifier sees it (twice its
  polygon area and its bounding box), the area and aspect tests in exact
  integer form, and `Classify`, the accepted contours in input order.
- `Detect` (`detect.dfy`): the drawing operations, and `DetectPotholes`, the
  contour loop as a method that keeps a running count and appends to a list of
  drawing operations. The list stands for the annotated copy and starts empty,
  which is the untouched copy. The method is proved against the specification
  functions `DetectedCount` and `Annotations`, and the lemmas state what those
  promise.

Exact arithmetic replaces the floating-point tests:

- `cv2.contourArea` of an integer polygon is a multiple of 0.5, so a contour
  carries `twiceArea`. `area < 200 or area > 0.65 * roi_area` rejects exactly
  when `twiceArea < 400` or `100 * twiceArea > 130 * roiArea`.
- For boxes at least one pixel high, `w / h < 0.2 or w / h > 6.0` rejects
  exactly when `5 * w < h` or `w > 6 * h`.

`AreaOkMatchesThresholds` and `AspectOkMatchesThresholds` prove these
equivalences with the source's expressions read over Dafny's mathematical
reals. Inside the 640x480 frame (ROI area 215040, boxes at most 640 wide and
336 high), the IEEE double evaluation in the source gives the same decisions,
for these reasons:

- Some attainable values lie exactly on a bound: the ratios 1/5 (w = 1,
  h = 5) and 6 (w = 6, h = 1), and the areas 200 and 139776 = 0.65 · 215040.
  In doubles each of these bounds is met exactly: `1 / 5.0` rounds to the same
  double as the literal `0.2`, `6 / 1.0` is `6.0`, and `0.65 * 215040` rounds
  to exactly `139776.0`, although the exact product of the double nearest 0.65
  and 215040 is about 5e-12 above 139776. So these values are accepted, as in
  the exact reading.
- Every other attainable value is at least 1/1680 away from a bound: a ratio
  w/h with h ≤ 336 differs from 1/5 by at least 1/(5 · 336) and from 6 by at
  least 1/336, and an area, a multiple of 0.5, differs from 200 or 139776 by
  at least 0.5. One rounding cannot carry such a value across its bound.
- The crop offset `int(h * 0.3)` at h = 480: the exact product of the double
  nearest 0.3 and 480 is just below 144 (143.99999999999999467…), and `int()`
  yields 144 only because the multiplication first rounds to `144.0`. The
  model's `3 * h / 10` gives the same 144.

This argument is not mechanised.

The model follows the code in three places where a reader might expect otherwise:

- The crop offset is `int(h * 0.3)`, a truncation, not a ceiling. The two agree
  at h = 480, where both give 144.
- There is no zero-height guard before `w_box / float(h_box)`. A bounding
  rectangle of a non-empty contour is never zero high, which the `Extent`
  type records.
- The detector raises no error of its own for an empty image, and it has no
  configuration structure or validation. The thresholds stay the inline
  literals 200, 0.65, 0.2, 6.0 and 0.3, written in their exact integer forms.

## Model

| member | source | states |
|---|---|---|
| `Roi.CropOffset` | app.py:59-60 | the ROI's first row is the truncation of 0.3·h (10·off ≤ 3h < 10·off + 10); it never exceeds h and is below h for a non-empty frame |
| `Roi.CropOffsetIsTruncation` | app.py:60 | the crop offset equals `(h * 0.3).Floor` over the reals, which is `int()` for a non-negative product |
| `Roi.SelectRoi` | app.py:59-62 | the ROI spans the full width, starts at the crop offset and ends at the frame's bottom edge; its height is the bottom 70% of h rounded up (7h ≤ 10·height < 7h + 10); a frame row lies in it iff it is at or below the offset |
| `Roi.WorkingRoiGeometry` | app.py:56-62 | for the 640x480 working frame the offset is 144, the ROI is 640 by 336 with area 215040, and its rows are exactly [144, 480) |
| `Blobs.AreaOk` | app.py:90-94 | the area test as a predicate: 400 ≤ twiceArea and 100 · twiceArea ≤ 130 · roiArea, the negation of the `continue` condition on twice the area |
| `Blobs.AspectOk` | app.py:97-101 | the aspect test as a predicate: h ≤ 5 · w and w ≤ 6 · h, the negation of the `continue` condition multiplied out by the positive h |
| `Blobs.Accepts` | app.py:93-101 | a contour is counted when neither `continue` is taken: it passes the area test and the aspect test |
| `Blobs.AreaOkMatchesThresholds` | app.py:87-94 | the integer area test accepts exactly when neither `area < 200` nor `area > 0.65 * roi_area` holds, with area = twiceArea / 2 |
| `Blobs.AspectOkMatchesThresholds` | app.py:96-101 | the integer aspect test accepts exactly when neither `w / h < 0.2` nor `w / h > 6.0` holds |
| `Blobs.Classify` | app.py:86-101 | there are never more accepted contours than input contours |
| `Blobs.ClassifySound` | app.py:86-101 | every accepted contour comes from the input and passes both tests |
| `Blobs.ClassifyAppend` | app.py:86-101 | each contour is judged on its own: classifying a concatenation concatenates the classifications |
| `Blobs.ClassifySnoc` | app.py:86-101 | one more contour appends it to the accepted list exactly when it passes both tests, and otherwise leaves the list unchanged |
| `Blobs.ClassifyInsert` | app.py:86-101 | a rejected contour inserted anywhere changes nothing; an accepted one appears once between the contours before and after it; the count grows by one exactly when the contour is accepted |
| `Blobs.ClassifyCount` | app.py:86-106 | the number of accepted contours is the size of the set of input positions whose contour passes both tests |
| `Blobs.AcceptedIndices` | app.py:86-101 | there are never more accepted positions than input contours |
| `Blobs.AcceptedIndicesExact` | app.py:86-101 | the accepted positions ascend strictly, and a position is among them iff it is in range and its contour passes both tests |
| `Blobs.PicksAtSnoc` | app.py:86-101 | appending a contour keeps a selection of positions valid, and picking the appended contour extends it by the new last position |
| `Blobs.ClassifyIsOrderedSelection` | app.py:86-101 | the accepted list is, element by element and in input order, the input at the accepted positions: rejected contours drop out and the rest keep their order |
| `Detect.WorkingRoiArea` | app.py:61-62 | `roi_area` of the working frame is 640 · (480 − 144) = 215040 |
| `Detect.Marks` | app.py:104-123 | what one accepted box draws: a rectangle then a label; the rectangle's top-left corner is the box's corner moved down by the crop offset (`y_full`), its size is the box's width and height, both are red, and the label "Pothole" sits at the rectangle's left edge 5 rows above its top |
| `Detect.DetectedCount` | app.py:125 | the returned count, the number of accepted contours; never more than the number of contours |
| `Detect.Annotations` | app.py:125 | the returned annotated copy, the marks of the accepted contours in order; two drawing operations per counted pothole |
| `Detect.Annotate` | app.py:104-123 | two drawing operations per accepted contour |
| `Detect.DetectPotholes` | app.py:83-125 | the loop returns the count and drawing list of the specification: `count` is the number of accepted contours, the list is their marks in order, the count is at most the number of contours and the list holds two operations per counted pothole |
| `Detect.AnnotateAppend` | app.py:104-123 | the marks of a concatenation are the concatenated marks |
| `Detect.DetectStep` | app.py:86-123 | one loop iteration: one more contour raises the count by one and appends its rectangle and label exactly when it passes both tests, and otherwise changes neither |
| `Detect.AnnotateSnoc` | app.py:104-123 | annotating one more accepted contour appends its rectangle and its label |
| `Detect.AnnotateAt` | app.py:104-123 | the k-th accepted contour's rectangle is operation 2k and its label is operation 2k+1 |
| `Detect.AnnotateCounts` | app.py:106-123 | every accepted contour gets exactly one rectangle and exactly one label |
| `Detect.CountIsAcceptedAndDrawn` | app.py:86-125 | the returned count is the number of contours passing both tests, at most the number of contours, and equal to the number of rectangles and of labels drawn |
| `Detect.DrawnGeometry` | app.py:104-118 | the k-th accepted contour is the input contour at the k-th accepted position; its rectangle keeps x, has its top at 144 + y and its opposite corner at (x + w, 144 + y + h); its label is "Pothole" at (x, 144 + y − 5), never above row 0 |
| `Detect.AcceptedContourDrawn` | app.py:86-118 | every input contour passing both tests is drawn: it stands at some accepted position k, and drawing operations 2k and 2k+1 are its rectangle and its label |
| `Detect.AreaRejectedLeavesNoTrace` | app.py:87-94 | a contour with area < 200 or > 0.65·215040, wherever it stands, changes neither the count nor the drawing |
| `Detect.AreaAcceptedCountedIffAspect` | app.py:93-123 | a contour passing the area test raises the count by one iff 0.2 ≤ w/h ≤ 6.0; if counted, its marks are drawn between those of the contours before and after it; otherwise the count is unchanged and nothing is drawn for it |
| `Detect.NothingAcceptedNothingDrawn` | app.py:83-125 | with no contours, or none passing both tests, the count is 0 and the drawing list is empty: the result is the unmodified copy |

## Left out

- The OpenCV calls `resize`, `cvtColor`, `GaussianBlur`, the Otsu `threshold`, the `morphologyEx` closing and opening, and `findContours` (app.py:56, 65-81): library code that is not part of this model. Their combined result enters the model as the input sequence of contours.
- `contourArea` and `boundingRect` (app.py:87, 96): library code; each contour carries their results as fields.
- `rectangle` and `putText` (app.py:107-123): library code; they are modelled as drawing operations with their arguments, not as pixels. The font face and the line type are not recorded.
- The pixels of the resized frame and of its copy (app.py:56, 84): represented only by the drawing list applied to the copy.
- IEEE double rounding in `h * 0.3`, `0.65 * roi_area` and `w_box / float(h_box)`: replaced by exact rational comparisons, see above.
- The Flask route, file upload, `imdecode`, the write to `static/output.jpg`, and the CSV ledger (app.py:17-41, 131-184): web and file I/O outside the detector.
