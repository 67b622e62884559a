/** Geometry of the detector's working frame and of its region of interest (ROI):
    every input is resized to a fixed frame, and only the bottom part of that
    frame, below a crop line at 30% of its height, is searched for potholes. */
module Roi {

  /** The working resolution every input image is resized to. */
  const FrameWidth: nat := 640
  const FrameHeight: nat := 480

  /** The top crop fraction 0.3, written as tenths so that it can be used exactly. */
  const CropTenths: nat := 3

  /** The row where the ROI starts: `int(h * 0.3)`, a truncation of the product
      (h is never negative, so truncation and floor agree). */
  function CropOffset(h: nat): (off: nat)
    ensures off * 10 <= CropTenths * h < off * 10 + 10
    ensures off <= h
    ensures h > 0 ==> off < h
  {
    CropTenths * h / 10
  }

  /** A rectangular sub-view of a frame: columns [left, left + width) and
      rows [top, top + height), in the parent frame's coordinates. */
  datatype Region = Region(left: nat, top: nat, width: nat, height: nat) {

    function Area(): (a: nat) { width * height }

    predicate ContainsRow(row: int) { top <= row < top + height }
  }

  /** The ROI `img[int(h*0.3):h, 0:w]` of a w-by-h frame: the full width, and the
      rows from the crop offset down to the bottom edge. */
  function SelectRoi(w: nat, h: nat): (r: Region)
    ensures r.left == 0 && r.width == w
    ensures r.top == CropOffset(h) && r.top + r.height == h
    ensures h > 0 ==> r.top < h
    ensures 7 * h <= 10 * r.height < 7 * h + 10
    ensures forall row {:trigger r.ContainsRow(row)} ::
      0 <= row < h ==> (r.ContainsRow(row) <==> CropOffset(h) <= row)
  {
    Region(0, CropOffset(h), w, h - CropOffset(h))
  }

  /** The ROI of the working frame. */
  function WorkingRoi(): (r: Region) { SelectRoi(FrameWidth, FrameHeight) }

  /** The crop offset is the truncation of the real product h * 0.3. */
  lemma CropOffsetIsTruncation(h: nat)
    ensures CropOffset(h) == (h as real * 0.3).Floor
  {
  }

  /** For the 640x480 working frame the crop line is at row 144, and the ROI is
      640 wide, 336 high, and covers 215040 pixels. */
  lemma WorkingRoiGeometry()
    ensures CropOffset(FrameHeight) == 144
    ensures WorkingRoi() == Region(0, 144, 640, 336)
    ensures WorkingRoi().Area() == 215040
    ensures forall row {:trigger WorkingRoi().ContainsRow(row)} ::
      0 <= row < FrameHeight ==> (WorkingRoi().ContainsRow(row) <==> 144 <= row)
  {
  }
}
