/** What overlap means: the area of the points two boxes have in common, and its share of
    the area they cover together. Suppression and matching told in these terms. */
module Overlaps {
  import opened Types
  import opened Geometry
  import opened Sorting
  import opened Nms
  import opened Tracking

  ghost predicate Contains(b: BBox, px: real, py: real)
  {
    b.x <= px <= b.x + b.w && b.y <= py <= b.y + b.h
  }

  ghost predicate CommonPoints(a: BBox, b: BBox, c: BBox)
  {
    forall px, py :: Contains(c, px, py) <==> Contains(a, px, py) && Contains(b, px, py)
  }

  /** The interval of common points has the length that overlap counts. */
  lemma SharedLength(a: real, w: real, b: real, v: real, c: real, u: real)
    requires c == Max(a, b) && c + u == Min(a + w, b + v) && u >= 0.0
    ensures Shared(a, w, b, v) == u
  {
  }

  /** A box that holds exactly the common points of two boxes has their overlap as area. */
  lemma OverlapIsCommonArea(a: BBox, b: BBox, c: BBox)
    requires Proper(c) && CommonPoints(a, b, c)
    ensures Overlap(a, b) == Area(c)
  {
    hide Shared;
    assert Contains(c, c.x, c.y) && Contains(c, c.x + c.w, c.y + c.h);
    assert Contains(a, c.x, c.y) && Contains(b, c.x, c.y);
    assert Contains(a, c.x + c.w, c.y + c.h) && Contains(b, c.x + c.w, c.y + c.h);
    var left, top := Max(a.x, b.x), Max(a.y, b.y);
    var right, bottom := Min(a.x + a.w, b.x + b.w), Min(a.y + a.h, b.y + b.h);
    assert Contains(a, left, top) && Contains(b, left, top);
    assert Contains(a, right, bottom) && Contains(b, right, bottom);
    assert Contains(c, left, top) && Contains(c, right, bottom);
    SharedLength(a.x, a.w, b.x, b.w, c.x, c.w);
    SharedLength(a.y, a.h, b.y, b.h, c.y, c.h);
  }

  lemma NothingShared(a: real, w: real, b: real, v: real)
    requires Min(a + w, b + v) <= Max(a, b)
    ensures Shared(a, w, b, v) == 0.0
  {
  }

  /** Boxes without a common point do not overlap. */
  lemma NoCommonPointNoOverlap(a: BBox, b: BBox)
    requires Proper(a) && Proper(b) && forall px, py :: !(Contains(a, px, py) && Contains(b, px, py))
    ensures Overlap(a, b) == 0.0
  {
    var left, top := Max(a.x, b.x), Max(a.y, b.y);
    assert !(Contains(a, left, top) && Contains(b, left, top));
    if Min(a.x + a.w, b.x + b.w) < left {
      NothingShared(a.x, a.w, b.x, b.w);
      hide Shared;
      assert 0.0 * Shared(a.y, a.h, b.y, b.h) == 0.0;
    } else {
      NothingShared(a.y, a.h, b.y, b.h);
      hide Shared;
      assert Shared(a.x, a.w, b.x, b.w) * 0.0 == 0.0;
    }
  }

  /** The area covered by either of two boxes. */
  function Covered(a: BBox, b: BBox): real { a.w * a.h + b.w * b.h - Overlap(a, b) }

  /** Intersection over union: the overlap as a share of the area covered together. */
  lemma IouIsShare(a: BBox, b: BBox)
    ensures Covered(a, b) > 0.0 ==> Iou(a, b) * Covered(a, b) == Overlap(a, b)
    ensures Covered(a, b) <= 0.0 ==> Iou(a, b) == 0.0
  {
    hide Overlap;
    if Covered(a, b) > 0.0 {
      ScaleBack(Overlap(a, b), Covered(a, b));
    }
  }

  /** A box inside another overlaps it by the quotient of their areas. */
  lemma NestedIou(a: BBox, b: BBox)
    requires Proper(a) && Proper(b) && Inside(a, b) && b.w * b.h > 0.0
    ensures Iou(a, b) * (b.w * b.h) == a.w * a.h
  {
    hide Iou;
    IouIsShare(a, b);
    assert Shared(a.x, a.w, b.x, b.w) == a.w && Shared(a.y, a.h, b.y, b.h) == a.h;
    assert Overlap(a, b) == a.w * a.h;
    assert Covered(a, b) == b.w * b.h;
  }

  /** The hull of two boxes is the smallest box that holds both. */
  lemma HullHoldsBoth(a: BBox, b: BBox, outer: BBox)
    ensures Inside(a, Hull(a, b)) && Inside(b, Hull(a, b))
    ensures Inside(a, outer) && Inside(b, outer) ==> Inside(Hull(a, b), outer)
  {
  }

  // ----- suppression by areas -----

  /** The overlap of two boxes exceeds the share thr of the area they cover together. */
  ghost predicate ExceedsShare(a: BBox, b: BBox, thr: real)
  {
    if Covered(a, b) > 0.0 then Overlap(a, b) > thr * Covered(a, b) else 0.0 > thr
  }

  lemma ShareDecides(iou: real, u: real, inter: real, thr: real)
    requires u > 0.0 && iou * u == inter
    ensures iou > thr <==> inter > thr * u
  {
    assert inter - thr * u == (iou - thr) * u;
    if iou > thr {
      var k := ProductPositive(iou - thr, u);
    } else if iou < thr {
      var k := ProductPositive(thr - iou, u);
      assert k == thr * u - inter;
    }
  }

  lemma IouExceedsIff(a: BBox, b: BBox, thr: real)
    ensures Iou(a, b) > thr <==> ExceedsShare(a, b, thr)
  {
    IouIsShare(a, b);
    hide Iou, Covered, Overlap;
    if Covered(a, b) > 0.0 {
      ShareDecides(Iou(a, b), Covered(a, b), Overlap(a, b), thr);
    }
  }

  lemma ConflictIff(a: Detection, b: Detection, thr: real)
    ensures Conflict(a, b, thr) <==> a.classId == b.classId && ExceedsShare(a.bbox, b.bbox, thr)
  {
    hide Iou, ExceedsShare;
    IouExceedsIff(a.bbox, b.bbox, thr);
  }

  /** Suppression told in areas: no two survivors of a class overlap by more than the share
      thr of what they cover together, and every detection left out overlaps a survivor of
      its class and at least its confidence by more than that. */
  lemma SuppressionByAreas(dets: seq<Detection>, thr: real)
    ensures var kept := Run(dets, thr);
      && (forall i, j :: 0 <= i < j < |kept| && kept[i].classId == kept[j].classId ==>
            kept[i].confidence >= kept[j].confidence && !ExceedsShare(kept[i].bbox, kept[j].bbox, thr))
      && (forall d :: d in kept ==> d in dets)
      && (forall d :: d in dets && d !in kept ==>
            exists k :: k in kept && k.classId == d.classId && k.confidence >= d.confidence
                        && ExceedsShare(k.bbox, d.bbox, thr))
  {
    hide Run, ExceedsShare, Conflict;
    var kept := Run(dets, thr);
    NmsTheorem(dets, thr);
    forall i, j | 0 <= i < j < |kept| && kept[i].classId == kept[j].classId
      ensures kept[i].confidence >= kept[j].confidence && !ExceedsShare(kept[i].bbox, kept[j].bbox, thr)
    {
      assert Confidence(kept[i]) >= Confidence(kept[j]);
      ConflictIff(kept[i], kept[j], thr);
    }
    forall d | d in dets && d !in kept
      ensures exists k :: k in kept && k.classId == d.classId && k.confidence >= d.confidence
                          && ExceedsShare(k.bbox, d.bbox, thr)
    {
      var k :| k in kept && Conflict(k, d, thr) && k.confidence >= d.confidence;
      ConflictIff(k, d, thr);
    }
  }

  /** Which entries of the sorted list survive, told in areas. */
  lemma {:induction false} SurvivesIff(s: seq<Detection>, thr: real, j: nat)
    requires j < |s|
    ensures IsKept(s, thr, j) <==>
      forall i :: 0 <= i < j && IsKept(s, thr, i) && s[i].classId == s[j].classId ==>
        !ExceedsShare(s[i].bbox, s[j].bbox, thr)
  {
    hide ExceedsShare, Conflict;
    forall i | 0 <= i < j
      ensures Conflict(s[i], s[j], thr) <==> s[i].classId == s[j].classId && ExceedsShare(s[i].bbox, s[j].bbox, thr)
    {
      ConflictIff(s[i], s[j], thr);
    }
  }

  /** A box a quarter the size inside another: at a threshold of 0.45 both survive. */
  lemma NestedBoxesSurvive()
    ensures var x := Detection(0, 0.0, 2, 0.9, BBox(0.0, 0.0, 20.0, 20.0), -1);
      var y := Detection(0, 0.0, 2, 0.8, BBox(0.0, 0.0, 10.0, 10.0), -1);
      Iou(x.bbox, y.bbox) == 0.25 && Run([x, y], 0.45) == [x, y]
  {
    var x := Detection(0, 0.0, 2, 0.9, BBox(0.0, 0.0, 20.0, 20.0), -1);
    var y := Detection(0, 0.0, 2, 0.8, BBox(0.0, 0.0, 10.0, 10.0), -1);
    NestedIou(y.bbox, x.bbox);
    IouSymmetric(x.bbox, y.bbox);
    hide Iou;
    SelectionKeepsSorted([x, y], 0, Confidence);
    assert [x, y][..1] == [x] && [x][..0] == [];
    assert Kernel([x], 0.45) == [x];
    assert !Suppressed([x], y, 0.45);
  }

  // ----- matching by areas -----

  /** An unmatched detection and an unmatched live track of its class overlap by no more
      than the threshold's share; a match overlaps by more. */
  lemma {:induction false} MatchingByAreas(tracks: seq<Track>, dets: seq<Detection>, thr: real)
    ensures var m := Matches(tracks, dets, thr, |dets|);
      && (forall d :: 0 <= d < |dets| && m[d] >= 0 ==> ExceedsShare(tracks[m[d]].bbox, dets[d].bbox, thr))
      && (forall d, t | 0 <= d < |dets| && 0 <= t < |tracks| && m[d] == -1 && t !in m
            && tracks[t].active && tracks[t].classId == dets[d].classId ::
            !ExceedsShare(tracks[t].bbox, dets[d].bbox, thr))
  {
    hide Iou, ExceedsShare;
    var m := Matches(tracks, dets, thr, |dets|);
    GreedyMatching(tracks, dets, thr);
    forall d, t | 0 <= d < |dets| && 0 <= t < |tracks|
      ensures Iou(tracks[t].bbox, dets[d].bbox) > thr <==> ExceedsShare(tracks[t].bbox, dets[d].bbox, thr)
    {
      IouExceedsIff(tracks[t].bbox, dets[d].bbox, thr);
    }
    forall d | 0 <= d < |dets| && m[d] >= 0 ensures ExceedsShare(tracks[m[d]].bbox, dets[d].bbox, thr) {
      assert IsBest(tracks, m[..d], dets[d], thr, |tracks|, m[d]);
    }
  }
}
