/**
  The discrete part of `shadowMask`: the candidate cloud heights, one
  translation of the cloud mask per height, their pixel-wise maximum
  (potential shadow), the removal of cloud pixels and the dark-pixel test.
  The per-height pixel offset comes from floating-point solar geometry and
  is a parameter here.
*/
module Shadow {
  import opened Grids

  /** `ee.List.sequence(start, end, step)`: start, start + step, ... up to and including `end`. */
  function Sequence(start: int, end: int, step: nat): (s: seq<int>)
    requires step > 0
    ensures forall i :: 0 <= i < |s| ==> s[i] == start + i * step
    ensures forall i :: 0 <= i < |s| ==> s[i] <= end
    ensures |s| > 0 ==> s[|s| - 1] + step > end
    ensures start <= end ==> |s| > 0
    decreases if start <= end then end - start + 1 else 0
  {
    if start > end then [] else [start] + Sequence(start + step, end, step)
  }

  /** `cloudHeights = ee.List.sequence(200, 10000, 500)`. */
  const CloudHeights: seq<int> := Sequence(200, 10000, 500)

  /** The heights are 20 values 200, 700, ..., 9700 in steps of 500, increasing, none above 10000. */
  lemma CloudHeightsValues()
    ensures |CloudHeights| == 20
    ensures forall i :: 0 <= i < 20 ==> CloudHeights[i] == 200 + 500 * i
    ensures CloudHeights[0] == 200 && CloudHeights[19] == 9700
    ensures forall i, j :: 0 <= i < j < 20 ==> CloudHeights[i] < CloudHeights[j]
    ensures forall i :: 0 <= i < 20 ==> CloudHeights[i] <= 10000
  {
    var s := CloudHeights;
    var n := |s|;
    assert n > 0;
    assert s[n - 1] == 200 + (n - 1) * 500 <= 10000;
    assert 200 + (n - 1) * 500 + 500 > 10000;
  }

  /**
    The pixel-wise maximum of a list of co-registered boolean images
    (`ee.ImageCollection.fromImages(...).max()`), as a fold of `or`.
  */
  function MaxOf(ms: seq<Mask>, h: nat, w: nat): (m: Mask)
    requires forall i :: 0 <= i < |ms| ==> IsGrid(ms[i], h, w)
    ensures IsGrid(m, h, w)
  {
    if |ms| == 0 then Empty(h, w) else Or(ms[0], MaxOf(ms[1..], h, w), h, w)
  }

  /** The maximum is set at a pixel exactly when some image of the list is set there. */
  lemma {:induction false} MaxOfAt(ms: seq<Mask>, h: nat, w: nat, r: nat, c: nat)
    requires forall i :: 0 <= i < |ms| ==> IsGrid(ms[i], h, w)
    requires InGrid(h, w, r, c)
    ensures MaxOf(ms, h, w)[r][c] <==> exists i :: 0 <= i < |ms| && ms[i][r][c]
  {
    if |ms| > 0 {
      MaxOfAt(ms[1..], h, w, r, c);
      if MaxOf(ms[1..], h, w)[r][c] {
        var i :| 0 <= i < |ms[1..]| && ms[1..][i][r][c];
        assert ms[i + 1][r][c];
      }
      if exists i :: 0 <= i < |ms| && ms[i][r][c] {
        var i :| 0 <= i < |ms| && ms[i][r][c];
        if i > 0 {
          assert ms[1..][i - 1][r][c];
        }
      }
    }
  }

  /** The maximum does not depend on the order (or grouping) of its images. */
  lemma MaxOfOrderIrrelevant(ms: seq<Mask>, ms': seq<Mask>, h: nat, w: nat)
    requires forall i :: 0 <= i < |ms| ==> IsGrid(ms[i], h, w)
    requires multiset(ms) == multiset(ms')
    ensures forall i :: 0 <= i < |ms'| ==> IsGrid(ms'[i], h, w)
    ensures MaxOf(ms, h, w) == MaxOf(ms', h, w)
  {
    forall i | 0 <= i < |ms'|
      ensures IsGrid(ms'[i], h, w)
    {
      assert ms'[i] in multiset(ms');
      assert ms'[i] in ms;
    }
    forall r, c | InGrid(h, w, r, c)
      ensures MaxOf(ms, h, w)[r][c] == MaxOf(ms', h, w)[r][c]
    {
      MaxOfAt(ms, h, w, r, c);
      MaxOfAt(ms', h, w, r, c);
      if exists i :: 0 <= i < |ms| && ms[i][r][c] {
        var i :| 0 <= i < |ms| && ms[i][r][c];
        assert ms[i] in multiset(ms);
        var j :| 0 <= j < |ms'| && ms'[j] == ms[i];
        assert ms'[j][r][c];
      }
      if exists j :: 0 <= j < |ms'| && ms'[j][r][c] {
        var j :| 0 <= j < |ms'| && ms'[j][r][c];
        assert ms'[j] in multiset(ms');
        var i :| 0 <= i < |ms| && ms[i] == ms'[j];
        assert ms[i][r][c];
      }
    }
    GridExt(MaxOf(ms, h, w), MaxOf(ms', h, w), h, w);
  }

  /** One translated copy of the cloud mask per candidate height (`cloudHeights.map(...)`). */
  function ShiftedClouds(cloud: Mask, h: nat, w: nat, heights: seq<int>, offsetFor: int -> Offset): (ms: seq<Mask>)
    requires IsGrid(cloud, h, w)
    ensures |ms| == |heights|
    ensures forall i :: 0 <= i < |ms| ==>
      IsGrid(ms[i], h, w) &&
      forall r, c :: InGrid(h, w, r, c) ==> ms[i][r][c] == CoveredAt(cloud, h, w, offsetFor, heights[i], r, c)
  {
    seq(|heights|, i requires 0 <= i < |heights| => Translate(cloud, h, w, offsetFor(heights[i])))
  }

  /** The potential shadow for a list of heights: the maximum of the shifted cloud masks. */
  function PotentialShadowFor(cloud: Mask, h: nat, w: nat, heights: seq<int>, offsetFor: int -> Offset): (m: Mask)
    requires IsGrid(cloud, h, w)
    ensures IsGrid(m, h, w)
  {
    MaxOf(ShiftedClouds(cloud, h, w, heights, offsetFor), h, w)
  }

  /** `potentialShadow` before cloud pixels are removed, over the script's candidate heights. */
  function PotentialShadow(cloud: Mask, h: nat, w: nat, offsetFor: int -> Offset): (m: Mask)
    requires IsGrid(cloud, h, w)
    ensures IsGrid(m, h, w)
  {
    PotentialShadowFor(cloud, h, w, CloudHeights, offsetFor)
  }

  /**
    The final shadow mask: potential shadow, minus cloud pixels
    (`and(cloud.not())`), restricted to dark pixels (`and(darkPixels)`).
  */
  function ShadowMask(cloud: Mask, dark: Mask, h: nat, w: nat, offsetFor: int -> Offset): (m: Mask)
    requires IsGrid(cloud, h, w) && IsGrid(dark, h, w)
    ensures IsGrid(m, h, w)
    ensures forall r, c :: InGrid(h, w, r, c) ==>
      (m[r][c] <==> PotentialShadow(cloud, h, w, offsetFor)[r][c] && !cloud[r][c] && dark[r][c])
  {
    var potential := And(PotentialShadow(cloud, h, w, offsetFor), Not(cloud, h, w), h, w);
    And(potential, dark, h, w)
  }

  /** A pixel `(r, c)` is covered by the cloud mask shifted by the offset of height `z`. */
  predicate CoveredAt(cloud: Mask, h: nat, w: nat, offsetFor: int -> Offset, z: int, r: int, c: int)
    requires IsGrid(cloud, h, w)
  {
    At(cloud, h, w, r - offsetFor(z).dy, c - offsetFor(z).dx)
  }

  /**
    Potential shadow at a pixel holds exactly when the cloud mask, shifted
    for at least one of the given heights, covers that pixel.
  */
  lemma PotentialShadowForAt(cloud: Mask, h: nat, w: nat, heights: seq<int>, offsetFor: int -> Offset, r: nat, c: nat)
    requires IsGrid(cloud, h, w) && InGrid(h, w, r, c)
    ensures PotentialShadowFor(cloud, h, w, heights, offsetFor)[r][c]
        <==> exists i :: 0 <= i < |heights| && CoveredAt(cloud, h, w, offsetFor, heights[i], r, c)
  {
    var ms := ShiftedClouds(cloud, h, w, heights, offsetFor);
    MaxOfAt(ms, h, w, r, c);
    assert forall i :: 0 <= i < |heights| ==> (ms[i][r][c] <==> CoveredAt(cloud, h, w, offsetFor, heights[i], r, c));
  }

  /** The candidate heights may be taken in any order: the potential shadow is the same. */
  lemma HeightOrderIrrelevant(cloud: Mask, h: nat, w: nat, heights: seq<int>, heights': seq<int>, offsetFor: int -> Offset)
    requires IsGrid(cloud, h, w)
    requires multiset(heights) == multiset(heights')
    ensures PotentialShadowFor(cloud, h, w, heights, offsetFor) == PotentialShadowFor(cloud, h, w, heights', offsetFor)
  {
    var a := PotentialShadowFor(cloud, h, w, heights, offsetFor);
    var b := PotentialShadowFor(cloud, h, w, heights', offsetFor);
    forall r, c | InGrid(h, w, r, c)
      ensures a[r][c] == b[r][c]
    {
      PotentialShadowForAt(cloud, h, w, heights, offsetFor, r, c);
      PotentialShadowForAt(cloud, h, w, heights', offsetFor, r, c);
      if exists i :: 0 <= i < |heights| && CoveredAt(cloud, h, w, offsetFor, heights[i], r, c) {
        var i :| 0 <= i < |heights| && CoveredAt(cloud, h, w, offsetFor, heights[i], r, c);
        assert heights[i] in multiset(heights);
        var j :| 0 <= j < |heights'| && heights'[j] == heights[i];
        assert CoveredAt(cloud, h, w, offsetFor, heights'[j], r, c);
      }
      if exists j :: 0 <= j < |heights'| && CoveredAt(cloud, h, w, offsetFor, heights'[j], r, c) {
        var j :| 0 <= j < |heights'| && CoveredAt(cloud, h, w, offsetFor, heights'[j], r, c);
        assert heights'[j] in multiset(heights');
        var i :| 0 <= i < |heights| && heights[i] == heights'[j];
        assert CoveredAt(cloud, h, w, offsetFor, heights[i], r, c);
      }
    }
    GridExt(a, b, h, w);
  }

  /**
    The shadow mask at a pixel: some candidate height's shifted cloud covers
    it, the pixel is not itself cloud, and it is dark.
  */
  lemma ShadowMaskAt(cloud: Mask, dark: Mask, h: nat, w: nat, offsetFor: int -> Offset, r: nat, c: nat)
    requires IsGrid(cloud, h, w) && IsGrid(dark, h, w) && InGrid(h, w, r, c)
    ensures ShadowMask(cloud, dark, h, w, offsetFor)[r][c]
        <==> (exists i :: 0 <= i < |CloudHeights| && CoveredAt(cloud, h, w, offsetFor, CloudHeights[i], r, c))
             && !cloud[r][c] && dark[r][c]
  {
    PotentialShadowForAt(cloud, h, w, CloudHeights, offsetFor, r, c);
  }

  /** A shadow pixel is never a cloud pixel and always passes the dark-pixel test. */
  lemma ShadowIsDarkAndNotCloud(cloud: Mask, dark: Mask, h: nat, w: nat, offsetFor: int -> Offset, r: nat, c: nat)
    requires IsGrid(cloud, h, w) && IsGrid(dark, h, w) && InGrid(h, w, r, c)
    requires ShadowMask(cloud, dark, h, w, offsetFor)[r][c]
    ensures !cloud[r][c] && dark[r][c]
  {
    ShadowMaskAt(cloud, dark, h, w, offsetFor, r, c);
  }

  /**
    When every height's offset is zero, the potential shadow is the cloud
    mask itself, so no pixel is left as shadow once clouds are removed.
  */
  lemma ZeroOffsetsGiveNoShadow(cloud: Mask, dark: Mask, h: nat, w: nat, offsetFor: int -> Offset)
    requires IsGrid(cloud, h, w) && IsGrid(dark, h, w)
    requires forall z :: offsetFor(z) == Offset(0, 0)
    ensures PotentialShadow(cloud, h, w, offsetFor) == cloud
    ensures ShadowMask(cloud, dark, h, w, offsetFor) == Empty(h, w)
  {
    ZeroOffsetsPotential(cloud, h, w, offsetFor);
    GridExt(ShadowMask(cloud, dark, h, w, offsetFor), Empty(h, w), h, w);
  }

  lemma ZeroOffsetsPotential(cloud: Mask, h: nat, w: nat, offsetFor: int -> Offset)
    requires IsGrid(cloud, h, w)
    requires forall z :: offsetFor(z) == Offset(0, 0)
    ensures PotentialShadow(cloud, h, w, offsetFor) == cloud
  {
    CloudHeightsValues();
    ZeroOffsetsPotentialFor(cloud, h, w, CloudHeights, offsetFor);
  }

  /** With zero offsets, any non-empty list of heights gives back the cloud mask. */
  lemma ZeroOffsetsPotentialFor(cloud: Mask, h: nat, w: nat, heights: seq<int>, offsetFor: int -> Offset)
    requires IsGrid(cloud, h, w) && |heights| > 0
    requires forall z :: offsetFor(z) == Offset(0, 0)
    ensures PotentialShadowFor(cloud, h, w, heights, offsetFor) == cloud
  {
    var p := PotentialShadowFor(cloud, h, w, heights, offsetFor);
    forall r, c | InGrid(h, w, r, c)
      ensures p[r][c] == cloud[r][c]
    {
      PotentialShadowForAt(cloud, h, w, heights, offsetFor, r, c);
      assert CoveredAt(cloud, h, w, offsetFor, heights[0], r, c) == cloud[r][c];
    }
    GridExt(p, cloud, h, w);
  }

  /** More cloud never means less potential shadow. */
  lemma PotentialShadowMonotone(cloud: Mask, cloud': Mask, h: nat, w: nat, offsetFor: int -> Offset, r: nat, c: nat)
    requires IsGrid(cloud, h, w) && IsGrid(cloud', h, w) && InGrid(h, w, r, c)
    requires forall r0, c0 :: InGrid(h, w, r0, c0) && cloud[r0][c0] ==> cloud'[r0][c0]
    requires PotentialShadow(cloud, h, w, offsetFor)[r][c]
    ensures PotentialShadow(cloud', h, w, offsetFor)[r][c]
  {
    PotentialShadowForAt(cloud, h, w, CloudHeights, offsetFor, r, c);
    PotentialShadowForAt(cloud', h, w, CloudHeights, offsetFor, r, c);
    var i :| 0 <= i < |CloudHeights| && CoveredAt(cloud, h, w, offsetFor, CloudHeights[i], r, c);
    assert CoveredAt(cloud', h, w, offsetFor, CloudHeights[i], r, c);
  }
}
