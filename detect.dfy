/** The detection loop of `detect_potholes`: it walks the contours found in the
    ROI, counts the accepted ones, and draws a box and a label for each onto a
    copy of the working frame.

    The annotated image is represented by the list of drawing operations applied
    to that copy, in the order they are applied; the empty list is the untouched
    copy of the resized frame. */
module Detect {
  import opened Roi
  import opened Blobs

  datatype Point = Point(x: int, y: int)

  /** A colour in the frame's blue-green-red channel order. */
  datatype Bgr = Bgr(blue: nat, green: nat, red: nat)

  /** One drawing call on the annotated copy. */
  datatype DrawOp =
    | Rectangle(corner: Point, opposite: Point, color: Bgr, thickness: nat)
    | Label(text: string, origin: Point, scale: real, color: Bgr, thickness: nat)

  const Red: Bgr := Bgr(0, 0, 255)
  const BoxThickness: nat := 2
  const LabelText: string := "Pothole"
  const LabelScale: real := 0.5
  const LabelThickness: nat := 1
  /** How far above the box's top edge the label's baseline sits. */
  const LabelLift: nat := 5

  /** The ROI area of the working frame. */
  function WorkingRoiArea(): (area: nat)
    ensures area == FrameWidth * (FrameHeight - CropOffset(FrameHeight)) == 215040
  {
    WorkingRoi().Area()
  }

  /** What the detector draws for one accepted box, whose y is ROI-local and is
      moved down by the crop offset into frame coordinates. */
  function Marks(b: Box, offset: nat): (ops: seq<DrawOp>)
    ensures |ops| == 2 && ops[0].Rectangle? && ops[1].Label?
    ensures ops[0].corner == Point(b.x, b.y + offset)
    ensures ops[0].opposite.x - ops[0].corner.x == b.w && ops[0].opposite.y - ops[0].corner.y == b.h
    ensures ops[1].origin == Point(ops[0].corner.x, ops[0].corner.y - LabelLift)
    ensures ops[0].color == ops[1].color == Red && ops[1].text == LabelText
  {
    var top := offset + b.y;
    [ Rectangle(Point(b.x, top), Point(b.x + b.w, top + b.h), Red, BoxThickness),
      Label(LabelText, Point(b.x, top - LabelLift), LabelScale, Red, LabelThickness) ]
  }

  /** The drawing operations for a sequence of accepted contours, in order. */
  function Annotate(accepted: seq<Contour>, offset: nat): (ops: seq<DrawOp>)
    ensures |ops| == 2 * |accepted|
  {
    if accepted == [] then []
    else Marks(accepted[0].box, offset) + Annotate(accepted[1..], offset)
  }

  /** The pothole count a detection pass over these contours returns. */
  function DetectedCount(contours: seq<Contour>): (count: nat)
    ensures count <= |contours|
  {
    |Classify(contours, WorkingRoiArea())|
  }

  /** The drawing operations a detection pass over these contours applies. */
  function Annotations(contours: seq<Contour>): (ops: seq<DrawOp>)
    ensures |ops| == 2 * DetectedCount(contours)
  {
    Annotate(Classify(contours, WorkingRoiArea()), CropOffset(FrameHeight))
  }

  /** `detect_potholes` from the point where the contours are known. The
      contours are those found on the cleaned ROI mask, in the order they were
      found; the frame is the 640x480 working frame. */
  method DetectPotholes(contours: seq<Contour>) returns (annotated: seq<DrawOp>, count: nat)
    ensures count == DetectedCount(contours)
    ensures annotated == Annotations(contours)
    ensures count <= |contours| && |annotated| == 2 * count
  {
    var h, w := FrameHeight, FrameWidth;
    var roi := SelectRoi(w, h);
    var roiArea := roi.height * roi.width;
    WorkingRoiGeometry();
    assert roiArea == WorkingRoiArea() == 215040;

    count := 0;
    annotated := [];

    for i := 0 to |contours|
      invariant count == |Classify(contours[..i], roiArea)|
      invariant annotated == Annotate(Classify(contours[..i], roiArea), CropOffset(h))
    {
      var cnt := contours[i];
      assert contours[..i + 1] == contours[..i] + [cnt];
      DetectStep(contours[..i], cnt, roiArea, CropOffset(h));

      // area < 200 or area > 0.65 * roi_area, on twice the area
      var twiceArea := cnt.twiceArea;
      if twiceArea < 400 || 100 * twiceArea > 130 * roiArea {
        continue;
      }

      // w / h < 0.2 or w / h > 6.0, multiplied out by h > 0
      var b := cnt.box;
      if 5 * b.w < b.h || b.w > 6 * b.h {
        continue;
      }

      var yFull := CropOffset(h) + b.y;

      var box := Rectangle(Point(b.x, yFull), Point(b.x + b.w, yFull + b.h), Red, BoxThickness);
      var caption := Label(LabelText, Point(b.x, yFull - LabelLift), LabelScale, Red, LabelThickness);
      assert Marks(b, CropOffset(h)) == [box, caption];
      ghost var before := annotated;

      count := count + 1;
      annotated := annotated + [box];
      annotated := annotated + [caption];
      assert annotated == before + [box, caption];
    }
    assert contours[..|contours|] == contours;
  }

  /** Annotating a concatenation annotates each part on its own. */
  lemma {:induction false} AnnotateAppend(a: seq<Contour>, b: seq<Contour>, offset: nat)
    ensures Annotate(a + b, offset) == Annotate(a, offset) + Annotate(b, offset)
  {
    if a == [] {
      assert a + b == b;
    } else {
      assert (a + b)[1..] == a[1..] + b;
      AnnotateAppend(a[1..], b, offset);
    }
  }

  /** Annotating one more accepted contour appends its marks. */
  lemma AnnotateSnoc(accepted: seq<Contour>, c: Contour, offset: nat)
    ensures Annotate(accepted + [c], offset) == Annotate(accepted, offset) + Marks(c.box, offset)
  {
    AnnotateAppend(accepted, [c], offset);
    assert [c][1..] == [];
    assert Annotate([c], offset) == Marks(c.box, offset) + [];
  }

  /** One more contour extends the count and the drawing exactly when it is
      accepted, by one and by its rectangle and label. */
  lemma DetectStep(done: seq<Contour>, c: Contour, roiArea: nat, offset: nat)
    ensures |Classify(done + [c], roiArea)|
        == |Classify(done, roiArea)| + (if Accepts(c, roiArea) then 1 else 0)
    ensures Annotate(Classify(done + [c], roiArea), offset)
        == Annotate(Classify(done, roiArea), offset)
           + (if Accepts(c, roiArea) then Marks(c.box, offset) else [])
  {
    ClassifySnoc(done, c, roiArea);
    AnnotateSnoc(Classify(done, roiArea), c, offset);
    assert Annotate(Classify(done, roiArea), offset) + [] == Annotate(Classify(done, roiArea), offset);
  }

  /** The k-th accepted contour owns operations 2k and 2k+1: its box, shifted
      down by the offset, and its label, 5 rows above the shifted box. */
  lemma {:induction false} AnnotateAt(accepted: seq<Contour>, offset: nat, k: nat)
    requires k < |accepted|
    ensures Annotate(accepted, offset)[2 * k] == Marks(accepted[k].box, offset)[0]
    ensures Annotate(accepted, offset)[2 * k + 1] == Marks(accepted[k].box, offset)[1]
  {
    if k > 0 {
      AnnotateAt(accepted[1..], offset, k - 1);
    }
  }

  /** Number of rectangles among drawing operations. */
  function RectangleCount(ops: seq<DrawOp>): (n: nat)
  {
    if ops == [] then 0 else (if ops[0].Rectangle? then 1 else 0) + RectangleCount(ops[1..])
  }

  /** Number of labels among drawing operations. */
  function LabelCount(ops: seq<DrawOp>): (n: nat)
  {
    if ops == [] then 0 else (if ops[0].Label? then 1 else 0) + LabelCount(ops[1..])
  }

  /** Every accepted contour gets exactly one rectangle and one label. */
  lemma {:induction false} AnnotateCounts(accepted: seq<Contour>, offset: nat)
    ensures RectangleCount(Annotate(accepted, offset)) == |accepted|
    ensures LabelCount(Annotate(accepted, offset)) == |accepted|
  {
    if accepted != [] {
      AnnotateCounts(accepted[1..], offset);
      var ops := Annotate(accepted, offset);
      var rest := Annotate(accepted[1..], offset);
      assert ops[1..] == [Marks(accepted[0].box, offset)[1]] + rest;
      assert ops[1..][1..] == rest;
    }
  }

  /** The returned count is the number of contours that pass both tests; it
      never exceeds the number of contours, and it is the number of rectangles
      and of labels drawn. */
  lemma CountIsAcceptedAndDrawn(contours: seq<Contour>)
    ensures DetectedCount(contours)
        == |set i | 0 <= i < |contours| && Accepts(contours[i], WorkingRoiArea())|
    ensures DetectedCount(contours) <= |contours|
    ensures RectangleCount(Annotations(contours)) == DetectedCount(contours)
    ensures LabelCount(Annotations(contours)) == DetectedCount(contours)
  {
    ClassifyCount(contours, WorkingRoiArea());
    AnnotateCounts(Classify(contours, WorkingRoiArea()), CropOffset(FrameHeight));
  }

  /** Where the k-th accepted contour is drawn. It is the input contour at the
      k-th accepted position; the rectangle keeps x, moves the top edge to
      144 + y and spans the box's width and height; the label sits at
      (x, 144 + y - 5), which is never above the frame's top row. */
  lemma DrawnGeometry(contours: seq<Contour>, k: nat)
    requires k < DetectedCount(contours)
    ensures var p := AcceptedIndices(contours, WorkingRoiArea());
      && k < |p| && p[k] < |contours|
      && Classify(contours, WorkingRoiArea())[k] == contours[p[k]]
    ensures var b := Classify(contours, WorkingRoiArea())[k].box;
      var ops := Annotations(contours);
      && ops[2 * k] == Rectangle(Point(b.x, 144 + b.y), Point(b.x + b.w, 144 + b.y + b.h), Red, BoxThickness)
      && ops[2 * k + 1] == Label(LabelText, Point(b.x, 144 + b.y - 5), LabelScale, Red, LabelThickness)
      && ops[2 * k + 1].origin.y >= 0
  {
    WorkingRoiGeometry();
    ClassifyIsOrderedSelection(contours, WorkingRoiArea());
    AnnotateAt(Classify(contours, WorkingRoiArea()), CropOffset(FrameHeight), k);
  }

  /** Every input contour that passes both tests is drawn: it is the k-th
      accepted contour for some k, and operations 2k and 2k+1 are its
      rectangle and its label. */
  lemma AcceptedContourDrawn(contours: seq<Contour>, i: nat)
    requires i < |contours| && Accepts(contours[i], WorkingRoiArea())
    ensures exists k ::
      && 0 <= k < |AcceptedIndices(contours, WorkingRoiArea())|
      && AcceptedIndices(contours, WorkingRoiArea())[k] == i
      && k < DetectedCount(contours)
      && Annotations(contours)[2 * k] == Marks(contours[i].box, CropOffset(FrameHeight))[0]
      && Annotations(contours)[2 * k + 1] == Marks(contours[i].box, CropOffset(FrameHeight))[1]
  {
    var roiArea := WorkingRoiArea();
    var p := AcceptedIndices(contours, roiArea);
    AcceptedIndicesExact(contours, roiArea);
    ClassifyIsOrderedSelection(contours, roiArea);
    assert i in p;
    var k :| 0 <= k < |p| && p[k] == i;
    AnnotateAt(Classify(contours, roiArea), CropOffset(FrameHeight), k);
  }

  /** A contour failing the area test (area < 200 or area > 0.65 * 215040)
      changes neither the count nor the drawing, wherever it appears. */
  lemma AreaRejectedLeavesNoTrace(pre: seq<Contour>, c: Contour, post: seq<Contour>)
    requires c.Area() < 200.0 || c.Area() > 0.65 * 215040.0
    ensures DetectedCount(pre + [c] + post) == DetectedCount(pre + post)
    ensures Annotations(pre + [c] + post) == Annotations(pre + post)
  {
    WorkingRoiGeometry();
    AreaOkMatchesThresholds(c, WorkingRoiArea());
    ClassifyInsert(pre, c, post, WorkingRoiArea());
  }

  /** A contour passing the area test is counted exactly when its box passes
      the aspect test 0.2 <= w / h <= 6.0; when counted, its box and label are
      drawn between those of the contours before it and those after it. */
  lemma AreaAcceptedCountedIffAspect(pre: seq<Contour>, c: Contour, post: seq<Contour>)
    requires 200.0 <= c.Area() <= 0.65 * 215040.0
    ensures DetectedCount(pre + [c] + post) == DetectedCount(pre + post) + 1
        <==> !(c.box.w as real / c.box.h as real < 0.2 || c.box.w as real / c.box.h as real > 6.0)
    ensures AspectOk(c.box) ==>
      Annotations(pre + [c] + post)
        == Annotations(pre) + Marks(c.box, CropOffset(FrameHeight)) + Annotations(post)
    ensures !AspectOk(c.box) ==> DetectedCount(pre + [c] + post) == DetectedCount(pre + post)
    ensures !AspectOk(c.box) ==> Annotations(pre + [c] + post) == Annotations(pre + post)
  {
    var roiArea, offset := WorkingRoiArea(), CropOffset(FrameHeight);
    WorkingRoiGeometry();
    AreaOkMatchesThresholds(c, roiArea);
    AspectOkMatchesThresholds(c.box);
    ClassifyInsert(pre, c, post, roiArea);
    var a, b := Classify(pre, roiArea), Classify(post, roiArea);
    AnnotateAppend(a + [c], b, offset);
    AnnotateAppend(a, [c], offset);
    assert [c][1..] == [];
  }

  /** With no contour passing both tests, in particular with no contours at all,
      the count is 0 and nothing is drawn on the copy of the frame. */
  lemma {:induction false} NothingAcceptedNothingDrawn(contours: seq<Contour>)
    requires forall c | c in contours :: !Accepts(c, WorkingRoiArea())
    ensures DetectedCount(contours) == 0
    ensures Annotations(contours) == []
  {
    if contours != [] {
      NothingAcceptedNothingDrawn(contours[1..]);
    }
  }
}
