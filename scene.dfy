/**
  One Sentinel-2 scene through `cloud_and_shadow_mask`: `sentinel2toa`
  (select, rename, scale, add `QA60`), `ESAcloud` on the quality band,
  `shadowMask`, the valid mask `cloud.or(shadow).eq(0)` and `updateMask`.

  Pixel values are the scene's integer digital numbers; `divide(10000)` is
  kept exact by recording the divisor of each band instead of a fraction.
*/
module Scene {
  import opened Wrappers
  import opened Grids
  import opened Bands
  import CloudBits
  import Shadow

  /** A band: its name, the divisor its stored integers are to be read with, and its pixels. */
  datatype Band = Band(name: string, divisor: nat, px: Grid<nat>)

  /** A multi-band image on an `height` by `width` grid. */
  datatype Image = Image(height: nat, width: nat, bands: seq<Band>)

  /** Every band lies on the image's grid and has a positive divisor. */
  predicate WellFormed(img: Image) {
    forall i :: 0 <= i < |img.bands| ==> IsGrid(img.bands[i].px, img.height, img.width) && img.bands[i].divisor >= 1
  }

  /** The position of the first band called `name`. */
  function IndexOf(bands: seq<Band>, name: string): (k: Option<nat>)
    ensures k.None? <==> forall j :: 0 <= j < |bands| ==> bands[j].name != name
    ensures k.Some? ==> k.value < |bands| && bands[k.value].name == name
    ensures k.Some? ==> forall j :: 0 <= j < k.value ==> bands[j].name != name
  {
    if |bands| == 0 then None
    else if bands[0].name == name then Some(0)
    else match IndexOf(bands[1..], name)
      case None => None
      case Some(k) => Some(k + 1)
  }

  /** The names of an image's bands, in order. */
  function Names(bands: seq<Band>): (ns: seq<string>)
    ensures |ns| == |bands| && forall i :: 0 <= i < |bands| ==> ns[i] == bands[i].name
  {
    seq(|bands|, i requires 0 <= i < |bands| => bands[i].name)
  }

  /** Every name in `names` is the name of some band of `img`. */
  predicate AllPresent(img: Image, names: seq<string>) {
    forall k :: 0 <= k < |names| ==> names[k] in Names(img.bands)
  }

  /**
    `image.select(names, newNames)`: the first band called `names[k]`, renamed
    `newNames[k]`, for each `k`; a missing band is an error.
  */
  function Select(img: Image, names: seq<string>, newNames: seq<string>): (r: Result<seq<Band>, Error>)
    requires |names| == |newNames|
    ensures r.Success? <==> AllPresent(img, names)
    ensures r.Failure? ==> r.error.name in names && r.error.name !in Names(img.bands)
    ensures r.Success? ==> |r.value| == |names|
    ensures r.Success? ==> forall k :: 0 <= k < |names| ==>
      IndexOf(img.bands, names[k]).Some? &&
      r.value[k] == img.bands[IndexOf(img.bands, names[k]).value].(name := newNames[k])
  {
    if |names| == 0 then Success([])
    else match IndexOf(img.bands, names[0])
      case None => Failure(MissingBand(names[0]))
      case Some(i) =>
        match Select(img, names[1..], newNames[1..])
        case Failure(e) => Failure(e)
        case Success(rest) => Success([img.bands[i].(name := newNames[0])] + rest)
  }

  /** `image.divide(k)`: every band's divisor is multiplied by `k`. */
  function Divide(bands: seq<Band>, k: nat): (out: seq<Band>)
    ensures |out| == |bands|
    ensures forall i :: 0 <= i < |bands| ==> out[i] == bands[i].(divisor := bands[i].divisor * k)
  {
    seq(|bands|, i requires 0 <= i < |bands| => bands[i].(divisor := bands[i].divisor * k))
  }

  /** The scaling of Level-1C digital numbers to reflectance, `divide(10000)`. */
  const ReflectanceScale: nat := 10000

  /** `sentinel2toa`: the 13 renamed, scaled bands followed by the unscaled `QA60`. */
  function Sentinel2Toa(raw: Image): (r: Result<Image, Error>)
    ensures r.Failure? ==> r.error.name !in Names(raw.bands) && (r.error.name in SourceBands || r.error.name == QualityBand)
    ensures r.Success? ==> r.value.height == raw.height && r.value.width == raw.width
    ensures r.Success? ==> Names(r.value.bands) == MaskedSceneBands
  {
    match Select(raw, SourceBands, ToaNames)
    case Failure(e) => Failure(e)
    case Success(toa) =>
      match Select(raw, [QualityBand], [QualityBand])
      case Failure(e) => Failure(e)
      case Success(qa) => Success(Image(raw.height, raw.width, Divide(toa, ReflectanceScale) + qa))
  }

  /** The scene holds the 13 bands `sentinel2toa` renames and `QA60`. */
  predicate HasToaBands(raw: Image) {
    AllPresent(raw, SourceBands) && QualityBand in Names(raw.bands)
  }

  /** The first band of `raw` called `name`. */
  function RawBand(raw: Image, name: string): (b: Band)
    requires name in Names(raw.bands)
    ensures b.name == name
    ensures WellFormed(raw) ==> IsGrid(b.px, raw.height, raw.width) && b.divisor >= 1
  {
    raw.bands[IndexOf(raw.bands, name).value]
  }

  /** The raw band that band `i` of the calibrated scene comes from: `SourceBands[i]`, and `QA60` last. */
  function ToaSource(raw: Image, i: nat): (b: Band)
    requires WellFormed(raw) && HasToaBands(raw) && i < 14
    ensures IsGrid(b.px, raw.height, raw.width) && b.divisor >= 1
  {
    if i < 13 then RawBand(raw, SourceBands[i]) else RawBand(raw, QualityBand)
  }

  /** The factor band `i` of the calibrated scene is divided by: 10000 for reflectance, 1 for `QA60`. */
  function ScaleOf(i: nat): nat {
    if i < 13 then ReflectanceScale else 1
  }

  /** What `sentinel2toa` produces from `raw`, band by band. */
  ghost predicate ToaSpec(raw: Image, toa: Image)
    requires WellFormed(raw) && HasToaBands(raw)
  {
    && toa.height == raw.height && toa.width == raw.width
    && |toa.bands| == 14
    && forall i :: 0 <= i < 14 ==>
         toa.bands[i] == Band(MaskedSceneBands[i], ToaSource(raw, i).divisor * ScaleOf(i), ToaSource(raw, i).px)
  }

  /**
    `sentinel2toa` succeeds exactly when the scene has the 13 bands and
    `QA60`; band `i` of the result is raw band `SourceBands[i]` renamed
    `ToaNames[i]` with its divisor times 10000, and the last band is the raw
    `QA60` band unchanged.
  */
  lemma Sentinel2ToaSpec(raw: Image)
    requires WellFormed(raw)
    ensures Sentinel2Toa(raw).Success? <==> HasToaBands(raw)
    ensures Sentinel2Toa(raw).Failure? ==>
      var e := Sentinel2Toa(raw).error; e.name !in Names(raw.bands) && (e.name in SourceBands || e.name == QualityBand)
    ensures Sentinel2Toa(raw).Success? ==> ToaSpec(raw, Sentinel2Toa(raw).value)
  {
    var r1 := Select(raw, SourceBands, ToaNames);
    var r2 := Select(raw, [QualityBand], [QualityBand]);
    assert AllPresent(raw, [QualityBand]) <==> QualityBand in Names(raw.bands) by {
      assert [QualityBand][0] == QualityBand;
    }
    if r1.Success? && r2.Success? {
      var toa := Sentinel2Toa(raw).value;
      assert toa.bands == Divide(r1.value, ReflectanceScale) + r2.value;
      forall i | 0 <= i < 14
        ensures toa.bands[i] == Band(MaskedSceneBands[i], ToaSource(raw, i).divisor * ScaleOf(i), ToaSource(raw, i).px)
      {
        if i < 13 {
          assert MaskedSceneBands[i] == ToaNames[i];
        }
      }
    }
  }

  /** `sentinel2toa` keeps the scene's grid and scales divisors up. */
  lemma ToaWellFormed(raw: Image)
    requires WellFormed(raw) && Sentinel2Toa(raw).Success?
    ensures WellFormed(Sentinel2Toa(raw).value)
    ensures Sentinel2Toa(raw).value.height == raw.height && Sentinel2Toa(raw).value.width == raw.width
  {
    Sentinel2ToaSpec(raw);
  }

  /** `ESAcloud`: the cloud flag of every `QA60` pixel; an image without `QA60` is an error. */
  function CloudMask(toa: Image): (r: Result<Mask, Error>)
    requires WellFormed(toa)
    ensures r.Success? <==> QualityBand in Names(toa.bands)
    ensures r.Failure? ==> r.error == MissingBand(QualityBand)
    ensures r.Success? ==> IsGrid(r.value, toa.height, toa.width)
    ensures r.Success? ==> forall row, col :: InGrid(toa.height, toa.width, row, col) ==>
      var qa := RawBand(toa, QualityBand).px[row][col];
      (r.value[row][col] <==> CloudBits.TestBit(qa, 10) || CloudBits.TestBit(qa, 11))
  {
    match IndexOf(toa.bands, QualityBand)
    case None => Failure(MissingBand(QualityBand))
    case Some(i) =>
      var qa := toa.bands[i].px;
      var cloud := MapGrid(qa, toa.height, toa.width, CloudBits.IsCloud);
      assert forall row, col :: InGrid(toa.height, toa.width, row, col) ==>
        (cloud[row][col] <==> CloudBits.TestBit(qa[row][col], 10) || CloudBits.TestBit(qa[row][col], 11)) by {
        forall row, col | InGrid(toa.height, toa.width, row, col)
          ensures cloud[row][col] <==> CloudBits.TestBit(qa[row][col], 10) || CloudBits.TestBit(qa[row][col], 11)
        {
          CloudBits.CloudIffFlagBits(qa[row][col]);
        }
      }
      Success(cloud)
  }

  /** The valid-pixel mask `cloud.or(shadow).eq(0)`. */
  function ValidMask(cloud: Mask, shadow: Mask, h: nat, w: nat): (m: Mask)
    requires IsGrid(cloud, h, w) && IsGrid(shadow, h, w)
    ensures IsGrid(m, h, w)
    ensures forall r, c :: InGrid(h, w, r, c) ==> (m[r][c] <==> !cloud[r][c] && !shadow[r][c])
  {
    Not(Or(cloud, shadow, h, w), h, w)
  }

  /** A band whose pixels may be no-data. */
  datatype MaskedBand = MaskedBand(name: string, divisor: nat, px: Grid<Option<nat>>)

  /** An image whose bands may hold no-data. */
  datatype MaskedImage = MaskedImage(height: nat, width: nat, bands: seq<MaskedBand>)

  predicate MaskedWellFormed(img: MaskedImage) {
    forall i :: 0 <= i < |img.bands| ==> IsGrid(img.bands[i].px, img.height, img.width)
  }

  /** An image with every pixel present. */
  function Unmasked(img: Image): (out: MaskedImage)
    requires WellFormed(img)
    ensures MaskedWellFormed(out)
    ensures out.height == img.height && out.width == img.width && |out.bands| == |img.bands|
    ensures forall i :: 0 <= i < |img.bands| ==>
      out.bands[i].name == img.bands[i].name && out.bands[i].divisor == img.bands[i].divisor
    ensures forall i, r, c :: 0 <= i < |img.bands| && InGrid(img.height, img.width, r, c) ==>
      out.bands[i].px[r][c] == Some(img.bands[i].px[r][c])
  {
    var bands := seq(|img.bands|, i requires 0 <= i < |img.bands| =>
      var b := img.bands[i];
      MaskedBand(b.name, b.divisor, MapGrid(b.px, img.height, img.width, (v: nat) => Some(v))));
    MaskedImage(img.height, img.width, bands)
  }

  /** One band of `updateMask`: keep the pixel where the mask holds, no-data elsewhere. */
  function MaskBand(b: MaskedBand, mask: Mask, h: nat, w: nat): (out: MaskedBand)
    requires IsGrid(b.px, h, w) && IsGrid(mask, h, w)
    ensures out.name == b.name && out.divisor == b.divisor && IsGrid(out.px, h, w)
  {
    MaskedBand(b.name, b.divisor, ZipGrid(b.px, mask, h, w, (v: Option<nat>, keep: bool) => if keep then v else None))
  }

  /**
    `image.updateMask(mask)`: every band keeps its value where the mask
    holds and becomes no-data elsewhere; a pixel already no-data stays so.
    Names, divisors, band order and grid do not change.
  */
  function UpdateMask(img: MaskedImage, mask: Mask): (out: MaskedImage)
    requires MaskedWellFormed(img) && IsGrid(mask, img.height, img.width)
    ensures MaskedWellFormed(out)
    ensures out.height == img.height && out.width == img.width && |out.bands| == |img.bands|
    ensures forall i :: 0 <= i < |img.bands| ==>
      out.bands[i].name == img.bands[i].name && out.bands[i].divisor == img.bands[i].divisor
    ensures forall i, r, c :: 0 <= i < |img.bands| && InGrid(img.height, img.width, r, c) ==>
      out.bands[i].px[r][c] == if mask[r][c] then img.bands[i].px[r][c] else None
  {
    var bands := seq(|img.bands|, i requires 0 <= i < |img.bands| =>
      MaskBand(img.bands[i], mask, img.height, img.width));
    MaskedImage(img.height, img.width, bands)
  }

  /** Two images with the same grid, names and divisors that agree at every pixel are equal. */
  lemma MaskedImageExt(a: MaskedImage, b: MaskedImage)
    requires MaskedWellFormed(a) && MaskedWellFormed(b)
    requires a.height == b.height && a.width == b.width && |a.bands| == |b.bands|
    requires forall i :: 0 <= i < |a.bands| ==> a.bands[i].name == b.bands[i].name && a.bands[i].divisor == b.bands[i].divisor
    requires forall i, r, c :: 0 <= i < |a.bands| && InGrid(a.height, a.width, r, c) ==> a.bands[i].px[r][c] == b.bands[i].px[r][c]
    ensures a == b
  {
    forall i | 0 <= i < |a.bands|
      ensures a.bands[i] == b.bands[i]
    {
      GridExt(a.bands[i].px, b.bands[i].px, a.height, a.width);
    }
  }

  /** Masking twice is masking once with the conjunction of the two masks. */
  lemma UpdateMaskTwice(img: MaskedImage, m1: Mask, m2: Mask)
    requires MaskedWellFormed(img) && IsGrid(m1, img.height, img.width) && IsGrid(m2, img.height, img.width)
    ensures UpdateMask(UpdateMask(img, m1), m2) == UpdateMask(img, And(m1, m2, img.height, img.width))
  {
    MaskedImageExt(UpdateMask(UpdateMask(img, m1), m2), UpdateMask(img, And(m1, m2, img.height, img.width)));
  }

  /** Masking again with the same mask changes nothing. */
  lemma UpdateMaskIdempotent(img: MaskedImage, m: Mask)
    requires MaskedWellFormed(img) && IsGrid(m, img.height, img.width)
    ensures UpdateMask(UpdateMask(img, m), m) == UpdateMask(img, m)
  {
    UpdateMaskTwice(img, m, m);
    GridExt(And(m, m, img.height, img.width), m, img.height, img.width);
  }

  /**
    `cloud_and_shadow_mask`: the calibrated scene with every band set to
    no-data at cloud and shadow pixels. The shadow offsets per height and the
    dark-pixel test are given.
  */
  function CloudAndShadowMask(raw: Image, dark: Mask, offsetFor: int -> Offset): (r: Result<MaskedImage, Error>)
    requires WellFormed(raw) && IsGrid(dark, raw.height, raw.width)
    ensures r.Failure? ==> r.error.name !in Names(raw.bands)
    ensures r.Success? ==> r.value.height == raw.height && r.value.width == raw.width
    ensures r.Success? ==> MaskedWellFormed(r.value) && |r.value.bands| == 14
  {
    match Sentinel2Toa(raw)
    case Failure(e) => Failure(e)
    case Success(toa) =>
      assert WellFormed(toa) by { ToaWellFormed(raw); }
      match CloudMask(toa)
      case Failure(e) => Failure(e)
      case Success(cloud) =>
        var shadow := Shadow.ShadowMask(cloud, dark, toa.height, toa.width, offsetFor);
        Success(UpdateMask(Unmasked(toa), ValidMask(cloud, shadow, toa.height, toa.width)))
  }

  /** The cloud flags of a scene's `QA60` band. */
  function SceneCloud(raw: Image): (m: Mask)
    requires WellFormed(raw) && HasToaBands(raw)
    ensures IsGrid(m, raw.height, raw.width)
  {
    MapGrid(RawBand(raw, QualityBand).px, raw.height, raw.width, CloudBits.IsCloud)
  }

  /** The pixels of a scene left valid: neither cloud nor shadow. */
  function SceneValid(raw: Image, dark: Mask, offsetFor: int -> Offset): (m: Mask)
    requires WellFormed(raw) && HasToaBands(raw) && IsGrid(dark, raw.height, raw.width)
    ensures IsGrid(m, raw.height, raw.width)
  {
    var cloud := SceneCloud(raw);
    ValidMask(cloud, Shadow.ShadowMask(cloud, dark, raw.height, raw.width, offsetFor), raw.height, raw.width)
  }

  /** What `cloud_and_shadow_mask` produces from `raw`, band by band and pixel by pixel. */
  ghost predicate MaskedSceneSpec(raw: Image, dark: Mask, offsetFor: int -> Offset, out: MaskedImage)
    requires WellFormed(raw) && HasToaBands(raw) && IsGrid(dark, raw.height, raw.width)
  {
    var h, w := raw.height, raw.width;
    var valid := SceneValid(raw, dark, offsetFor);
    && out.height == h && out.width == w
    && MaskedWellFormed(out)
    && |out.bands| == 14
    && (forall i :: 0 <= i < 14 ==>
          out.bands[i].name == MaskedSceneBands[i] && out.bands[i].divisor == ToaSource(raw, i).divisor * ScaleOf(i))
    && (forall i, r, c :: 0 <= i < 14 && InGrid(h, w, r, c) ==>
          out.bands[i].px[r][c] == if valid[r][c] then Some(ToaSource(raw, i).px[r][c]) else None)
  }

  /**
    `cloud_and_shadow_mask` succeeds exactly when the scene has the bands
    `sentinel2toa` selects; then every band keeps its calibrated value at
    pixels that are neither cloud nor shadow and is no-data at all others.
  */
  lemma CloudAndShadowMaskSpec(raw: Image, dark: Mask, offsetFor: int -> Offset)
    requires WellFormed(raw) && IsGrid(dark, raw.height, raw.width)
    ensures CloudAndShadowMask(raw, dark, offsetFor).Success? <==> HasToaBands(raw)
    ensures CloudAndShadowMask(raw, dark, offsetFor).Failure? ==>
      CloudAndShadowMask(raw, dark, offsetFor).error.name !in Names(raw.bands)
    ensures CloudAndShadowMask(raw, dark, offsetFor).Success? ==>
      MaskedSceneSpec(raw, dark, offsetFor, CloudAndShadowMask(raw, dark, offsetFor).value)
  {
    Sentinel2ToaSpec(raw);
    if HasToaBands(raw) {
      var toa := Sentinel2Toa(raw).value;
      ToaWellFormed(raw);
      ToaCloud(raw);
      var out := UpdateMask(Unmasked(toa), SceneValid(raw, dark, offsetFor));
      assert CloudAndShadowMask(raw, dark, offsetFor) == Success(out);
      MaskedSceneFromToa(raw, toa, dark, offsetFor, out);
    }
  }

  /** The cloud mask `ESAcloud` computes from the calibrated scene is the raw `QA60` band's. */
  lemma ToaCloud(raw: Image)
    requires WellFormed(raw) && HasToaBands(raw)
    ensures Sentinel2Toa(raw).Success? && WellFormed(Sentinel2Toa(raw).value)
    ensures CloudMask(Sentinel2Toa(raw).value) == Success(SceneCloud(raw))
  {
    Sentinel2ToaSpec(raw);
    ToaWellFormed(raw);
    var toa := Sentinel2Toa(raw).value;
    assert toa.bands[13].name == QualityBand;
    var k := IndexOf(toa.bands, QualityBand);
    assert k.Some?;
    assert k.value == 13 by {
      assert forall j :: 0 <= j < 13 ==> toa.bands[j].name == ToaNames[j];
      DistinctNames();
    }
  }

  /** Masking the calibrated scene with the valid mask meets `MaskedSceneSpec`. */
  lemma MaskedSceneFromToa(raw: Image, toa: Image, dark: Mask, offsetFor: int -> Offset, out: MaskedImage)
    requires WellFormed(raw) && HasToaBands(raw) && IsGrid(dark, raw.height, raw.width)
    requires WellFormed(toa) && ToaSpec(raw, toa)
    requires out == UpdateMask(Unmasked(toa), SceneValid(raw, dark, offsetFor))
    ensures MaskedSceneSpec(raw, dark, offsetFor, out)
  {
  }

  /**
    A pixel of a scene is valid exactly when bits 10 and 11 of its `QA60`
    value are both zero and it is not both dark and covered by the cloud
    mask shifted for some candidate height.
  */
  lemma SceneValidAt(raw: Image, dark: Mask, offsetFor: int -> Offset, r: nat, c: nat)
    requires WellFormed(raw) && HasToaBands(raw) && IsGrid(dark, raw.height, raw.width)
    requires InGrid(raw.height, raw.width, r, c)
    ensures var qa := RawBand(raw, QualityBand).px[r][c];
            SceneValid(raw, dark, offsetFor)[r][c] <==>
              && !CloudBits.TestBit(qa, 10) && !CloudBits.TestBit(qa, 11)
              && !(dark[r][c] &&
                   (exists k :: 0 <= k < |Shadow.CloudHeights| &&
                      Shadow.CoveredAt(SceneCloud(raw), raw.height, raw.width, offsetFor, Shadow.CloudHeights[k], r, c)))
  {
    var qa := RawBand(raw, QualityBand).px[r][c];
    var cloud := SceneCloud(raw);
    var shadow := Shadow.ShadowMask(cloud, dark, raw.height, raw.width, offsetFor);
    CloudBits.CloudIffFlagBits(qa);
    assert cloud[r][c] == CloudBits.IsCloud(qa);
    Shadow.ShadowMaskAt(cloud, dark, raw.height, raw.width, offsetFor, r, c);
    assert SceneValid(raw, dark, offsetFor)[r][c] <==> !cloud[r][c] && !shadow[r][c];
  }
}
