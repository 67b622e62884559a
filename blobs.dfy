/** The blob classifier: which contours found in the ROI mask count as potholes.
    A contour is seen only through what the detector asks of it: its polygon
    area and its axis-aligned bounding box, both in ROI-local coordinates. */
module Blobs {

  /** A bounding-box extent: a bounding rectangle of a non-empty contour is at
      least one pixel wide and one pixel high. */
  type Extent = n: int | 1 <= n witness 1

  /** `(x, y, w, h)` of a bounding rectangle, in ROI-local coordinates. */
  datatype Box = Box(x: nat, y: nat, w: Extent, h: Extent)

  /** One contour. Polygon areas of integer-vertex contours are multiples of 0.5,
      so the area is kept doubled, as an integer. */
  datatype Contour = Contour(twiceArea: nat, box: Box) {
    /** The polygon area, as the real number it stands for. */
    function Area(): (a: real) { twiceArea as real / 2.0 }
  }

  /** The area test `not (area < 200 or area > 0.65 * roi_area)`, in exact
      integers: 400 <= 2 * area and 100 * (2 * area) <= 130 * roi_area. */
  predicate AreaOk(twiceArea: nat, roiArea: nat)
  {
    400 <= twiceArea && 100 * twiceArea <= 130 * roiArea
  }

  /** The aspect test `not (w / h < 0.2 or w / h > 6.0)`, in exact integers:
      h <= 5 * w and w <= 6 * h. */
  predicate AspectOk(b: Box)
  {
    b.h <= 5 * b.w && b.w <= 6 * b.h
  }

  /** A contour is counted as a pothole when it passes both tests. */
  predicate Accepts(c: Contour, roiArea: nat)
  {
    AreaOk(c.twiceArea, roiArea) && AspectOk(c.box)
  }

  /** The integer area test rejects exactly where the detector's test
      `area < 200 or area > 0.65 * roi_area` does, read over the reals. */
  lemma AreaOkMatchesThresholds(c: Contour, roiArea: nat)
    ensures AreaOk(c.twiceArea, roiArea)
        <==> !(c.Area() < 200.0 || c.Area() > 0.65 * roiArea as real)
  {
  }

  /** The integer aspect test rejects exactly where the detector's test
      `w / h < 0.2 or w / h > 6.0` does, read over the reals. */
  lemma AspectOkMatchesThresholds(b: Box)
    ensures AspectOk(b)
        <==> !(b.w as real / b.h as real < 0.2 || b.w as real / b.h as real > 6.0)
  {
    var w, h := b.w as real, b.h as real;
    QuotientBelow(w, h, 0.2);
    QuotientBelow(6.0 * h, h, w / h);
    assert 6.0 * h / h == 6.0;
  }

  /** a / b < c exactly when a < c * b, for positive b. */
  lemma QuotientBelow(a: real, b: real, c: real)
    requires b > 0.0
    ensures a / b < c <==> a < c * b
  {
  }

  /** The contours a detection pass accepts, in the order they were found. */
  function Classify(cs: seq<Contour>, roiArea: nat): (acc: seq<Contour>)
    ensures |acc| <= |cs|
  {
    if cs == [] then []
    else (if Accepts(cs[0], roiArea) then [cs[0]] else []) + Classify(cs[1..], roiArea)
  }

  /** Every accepted contour comes from the input and passes both tests. */
  lemma {:induction false} ClassifySound(cs: seq<Contour>, roiArea: nat)
    ensures forall c | c in Classify(cs, roiArea) :: c in cs && Accepts(c, roiArea)
  {
    if cs != [] {
      ClassifySound(cs[1..], roiArea);
    }
  }

  /** Classifying a concatenation classifies each part on its own. */
  lemma {:induction false} ClassifyAppend(a: seq<Contour>, b: seq<Contour>, roiArea: nat)
    ensures Classify(a + b, roiArea) == Classify(a, roiArea) + Classify(b, roiArea)
  {
    if a == [] {
      assert a + b == b;
    } else {
      var ab := a + b;
      assert ab[0] == a[0] && ab[1..] == a[1..] + b;
      ClassifyAppend(a[1..], b, roiArea);
      var head := if Accepts(a[0], roiArea) then [a[0]] else [];
      assert Classify(ab, roiArea) == head + Classify(a[1..] + b, roiArea);
      assert Classify(a, roiArea) == head + Classify(a[1..], roiArea);
    }
  }

  /** Classifying one more contour appends it exactly when it is accepted. */
  lemma ClassifySnoc(cs: seq<Contour>, c: Contour, roiArea: nat)
    ensures Classify(cs + [c], roiArea)
        == if Accepts(c, roiArea) then Classify(cs, roiArea) + [c] else Classify(cs, roiArea)
  {
    ClassifyAppend(cs, [c], roiArea);
    assert [c][1..] == [];
    assert Classify([c], roiArea) == (if Accepts(c, roiArea) then [c] else []) + [];
    assert Classify(cs, roiArea) + [] == Classify(cs, roiArea);
  }

  /** One contour inserted anywhere into the input: a rejected one changes
      nothing, an accepted one appears once, at its own place among the rest. */
  lemma ClassifyInsert(pre: seq<Contour>, c: Contour, post: seq<Contour>, roiArea: nat)
    ensures !Accepts(c, roiArea) ==>
      Classify(pre + [c] + post, roiArea) == Classify(pre + post, roiArea)
    ensures Accepts(c, roiArea) ==>
      Classify(pre + [c] + post, roiArea)
        == Classify(pre, roiArea) + [c] + Classify(post, roiArea)
    ensures |Classify(pre + [c] + post, roiArea)|
        == |Classify(pre + post, roiArea)| + (if Accepts(c, roiArea) then 1 else 0)
  {
    ClassifyAppend(pre + [c], post, roiArea);
    ClassifySnoc(pre, c, roiArea);
    ClassifyAppend(pre, post, roiArea);
  }

  /** The number of accepted contours is the number of input positions whose
      contour passes both tests. */
  lemma {:induction false} ClassifyCount(cs: seq<Contour>, roiArea: nat)
    ensures |Classify(cs, roiArea)| == |set i | 0 <= i < |cs| && Accepts(cs[i], roiArea)|
  {
    var all := set i | 0 <= i < |cs| && Accepts(cs[i], roiArea);
    if cs == [] {
      assert all == {};
    } else {
      var n := |cs| - 1;
      var init, last := cs[..n], cs[n];
      ClassifyCount(init, roiArea);
      assert cs == init + [last];
      ClassifySnoc(init, last, roiArea);
      var before := set i | 0 <= i < n && Accepts(init[i], roiArea);
      assert n !in before;
      forall i | i in all ensures i in before || (i == n && Accepts(last, roiArea)) {
        if i < n { assert init[i] == cs[i]; }
      }
      forall i | i in before ensures i in all {
        assert init[i] == cs[i];
      }
      if Accepts(last, roiArea) {
        assert all == before + {n};
      } else {
        assert all == before;
      }
    }
  }

  /** The indices of the accepted contours, in input order. */
  function AcceptedIndices(cs: seq<Contour>, roiArea: nat): (p: seq<nat>)
    ensures |p| <= |cs|
  {
    if cs == [] then []
    else
      var n := |cs| - 1;
      AcceptedIndices(cs[..n], roiArea) + (if Accepts(cs[n], roiArea) then [n] else [])
  }

  /** The accepted indices ascend strictly, and an index of the input is among
      them exactly when its contour passes both tests. */
  lemma {:induction false} AcceptedIndicesExact(cs: seq<Contour>, roiArea: nat)
    ensures forall k, l | 0 <= k < l < |AcceptedIndices(cs, roiArea)| ::
      AcceptedIndices(cs, roiArea)[k] < AcceptedIndices(cs, roiArea)[l]
    ensures forall i :: i in AcceptedIndices(cs, roiArea) <==> 0 <= i < |cs| && Accepts(cs[i], roiArea)
  {
    if cs != [] {
      var n := |cs| - 1;
      var init := cs[..n];
      AcceptedIndicesExact(init, roiArea);
      var p := AcceptedIndices(init, roiArea);
      var q := if Accepts(cs[n], roiArea) then [n] else [];
      assert AcceptedIndices(cs, roiArea) == p + q;
      assert forall i | 0 <= i < n :: init[i] == cs[i];
      assert forall k | 0 <= k < |p| :: p[k] in p;
    }
  }

  /** `acc` lists the contours of `cs` at the positions `p`, in that order. */
  ghost predicate PicksAt(acc: seq<Contour>, cs: seq<Contour>, p: seq<nat>)
  {
    |acc| == |p| && forall k | 0 <= k < |p| :: p[k] < |cs| && acc[k] == cs[p[k]]
  }

  /** Appending a contour to the input keeps a selection valid, and picking
      the appended contour extends it by the last position. */
  lemma PicksAtSnoc(acc: seq<Contour>, cs: seq<Contour>, p: seq<nat>, c: Contour)
    requires PicksAt(acc, cs, p)
    ensures PicksAt(acc, cs + [c], p)
    ensures PicksAt(acc + [c], cs + [c], p + [|cs|])
  {
  }

  /** The accepted contours are exactly the input's contours at the accepted
      indices, in input order: rejected contours drop out and the rest keep
      their relative order. In particular the number of accepted contours is
      the number of indices whose contour passes both tests. */
  lemma {:induction false} ClassifyIsOrderedSelection(cs: seq<Contour>, roiArea: nat)
    ensures PicksAt(Classify(cs, roiArea), cs, AcceptedIndices(cs, roiArea))
  {
    if cs != [] {
      var n := |cs| - 1;
      var init, last := cs[..n], cs[n];
      ClassifyIsOrderedSelection(init, roiArea);
      assert cs == init + [last];
      ClassifySnoc(init, last, roiArea);
      PicksAtSnoc(Classify(init, roiArea), init, AcceptedIndices(init, roiArea), last);
    }
  }
}
