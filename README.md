# Wadden Sea composites: cloud and shadow masking, band bookkeeping

This project is a Dafny model of the per-pixel core of `wadden.js`, an Earth Engine script. The script builds Sentinel-1 and Sentinel-2 composites of the Wadden Sea for land-cover classification. The model covers the following:

- **`sentinel2toa`**: selects the 13 reflectance bands of a Sentinel-2 scene, renames them (`B2` to `blue`, `B8A` to `red4`, ...), divides them by 10000 and appends `QA60`. The model is `Scene.Sentinel2Toa`. Pixel values are the scene's integer digital numbers, and `divide(10000)` is kept exact by recording a per-band divisor. A scene lacking one of the bands is an error (`Result`).
- **`ESAcloud`**: a pixel is cloud when bit 10 (opaque cloud) or bit 11 (cirrus) of its `QA60` value is set. It is modelled with an explicit `bitwiseAnd` on naturals in module `CloudBits` and with `Scene.CloudMask`.
- **One grid for all bands**: every band of a scene lies on the same `height` by `width` grid, and the cloud and shadow masks are computed on that grid.
- **The discrete part of `shadowMask`** (module `Shadow`):
  - the candidate cloud heights `ee.List.sequence(200, 10000, 500)`;
  - one translation of the cloud mask per height;
  - their pixel-wise maximum (the potential shadow);
  - the removal of cloud pixels;
  - the restriction to dark pixels.
  Masks are boolean grids (`Grids`).
- **`cloud_and_shadow_mask`**: the valid mask `cloud.or(shadow).eq(0)` and `updateMask` (`Scene.CloudAndShadowMask`). Masked-out pixels become no-data (`None`). `Scene.UpdateMask` also keeps a pixel that is already no-data as no-data. A raw scene has no no-data pixels, though, so the masked scene starts with every pixel present.
- **The normalized-difference index bands** (`addNDVI`, `addNDWI`, `addNDBI`) and the dark-pixel test, at the level of band names (module `Bands`).
- **The three composites** (`ee.Image.cat`) and the band lists the exports select (module `Composites`). Reducer outputs are named `<band>_p<N>` or `<band>_stdDev`.

## Model

| member | source | states |
|---|---|---|
| CloudBits.BitAndPow2 | wadden.js:58-59 | `bitwiseAnd` with `2^k` is `2^k` when bit `k` is set and 0 otherwise, for every QA value |
| CloudBits.BitAnd | wadden.js:58-59 | `bitwiseAnd` of two values is at most each of them; `CloudBits.BitAndPow2` gives its value against a single-bit mask |
| CloudBits.IsClear | wadden.js:57-59 | `clear` holds iff bits 10 and 11 of the QA value are both zero |
| CloudBits.IsCloud | wadden.js:60 | `cloud = clear.eq(0)` holds iff bit 10 or bit 11 of the QA value is set |
| CloudBits.SetBitKeepsOthers | wadden.js:54-59 | adding `2^k` to a value whose bit `k` is clear sets bit `k` and leaves every other bit as it was |
| CloudBits.CloudIffFlagBits | wadden.js:54-60 | a pixel is clear iff bits 10 and 11 are both zero, and cloud iff either is set |
| CloudBits.FlagDependsOnlyOnBits10And11 | wadden.js:54-60 | two QA values that agree on bits 10 and 11 get the same cloud flag |
| CloudBits.OtherBitsIgnored | wadden.js:54-60 | setting any bit other than 10 and 11 does not change the cloud flag |
| CloudBits.MaskValues | wadden.js:54-55 | the two bit masks are 1024 and 2048 |
| CloudBits.DecodeExamples | wadden.js:58-60 | QA values 0, 1023 and 4096 are clear; 1024, 2048 and 3072 are cloud |
| Scene.CloudMask | wadden.js:49-62 | `ESAcloud` succeeds iff the image has `QA60`; otherwise it fails naming `QA60`; a pixel of the result is set iff bit 10 or 11 of its `QA60` value is set |
| Scene.Select | wadden.js:39-40 | `select(names, newNames)` succeeds iff every name is present; a failure names a missing band; the result has one band per requested name |
| Scene.Divide | wadden.js:41 | `divide(k)` keeps every band, its name, order and pixels, and multiplies its divisor by `k` |
| Scene.Sentinel2Toa | wadden.js:38-46 | a failure names a band the scene lacks, one of the 13 sources or `QA60`; a success keeps the grid, and its band names are the 13 new names followed by `QA60`; `Scene.Sentinel2ToaSpec` gives the bands themselves |
| Scene.Sentinel2ToaSpec | wadden.js:38-46 | `sentinel2toa` succeeds iff the 13 bands and `QA60` are present; a failure names one of them that is missing; band `i` is raw band `SourceBands[i]` renamed `ToaNames[i]` with divisor times 10000; the last band is raw `QA60` unchanged |
| Scene.ToaWellFormed | wadden.js:38-46 | the calibrated scene keeps the raw grid, and every band has a positive divisor |
| Scene.ToaCloud | wadden.js:96-97 | `ESAcloud` applied to the calibrated scene reads the raw `QA60` band |
| Scene.ValidMask | wadden.js:99 | a pixel of `cloud.or(shadow).eq(0)` is set iff it is neither cloud nor shadow |
| Scene.Unmasked | wadden.js:100 | an unmasked image has every pixel present with its value, and the same names, divisors and grid |
| Scene.UpdateMask | wadden.js:100 | `updateMask` keeps a pixel's value where the mask holds and gives no-data elsewhere; names, divisors, band count and grid are unchanged |
| Scene.UpdateMaskTwice | wadden.js:100 | masking twice equals masking once with the conjunction of the masks |
| Scene.UpdateMaskIdempotent | wadden.js:100 | masking again with the same mask changes nothing |
| Scene.CloudAndShadowMaskSpec | wadden.js:95-101 | `cloud_and_shadow_mask` succeeds iff the scene has the bands `sentinel2toa` selects; a failure names a band the scene lacks; on success all 14 bands (names, divisors) keep their calibrated value at valid pixels and are no-data at all others |
| Scene.CloudAndShadowMask | wadden.js:95-101 | a failure names a band the scene lacks; a success keeps the grid and has 14 bands on it; `Scene.CloudAndShadowMaskSpec` gives every band and pixel |
| Scene.SceneValidAt | wadden.js:85-99 | a scene pixel is valid iff bits 10 and 11 of its `QA60` value are clear and it is not both dark and covered by the cloud mask shifted for some candidate height |
| Grids.Translate | wadden.js:80 | the translated mask at `(r, c)` is the original at `(r - dy, c - dx)`, or false off the grid |
| Grids.And | wadden.js:85-91 | `and` is set at a pixel iff both inputs are |
| Grids.Or | wadden.js:99 | `or` is set at a pixel iff either input is |
| Grids.Not | wadden.js:85 | `not` (and `eq(0)` on a boolean image) is set at a pixel iff the input is not |
| Grids.TranslateCarries | wadden.js:80 | every cloud pixel whose image stays on the grid is carried to its image |
| Grids.TranslateZero | wadden.js:80 | translation by the zero offset is the identity |
| Grids.TranslateBack | wadden.js:80 | translating by `d` and back by `-d` never adds a pixel |
| Shadow.Sequence | wadden.js:74 | `ee.List.sequence(start, end, step)` is `start + i*step` for each `i`, none above `end`, and the next value would exceed `end`; it is non-empty when `start <= end` |
| Shadow.CloudHeightsValues | wadden.js:74 | the candidate heights are the 20 values 200, 700, ..., 9700, strictly increasing and at most 10000 |
| Shadow.MaxOfAt | wadden.js:82 | the collection maximum is set at a pixel iff some image of the collection is set there |
| Shadow.MaxOf | wadden.js:82 | the collection maximum lies on the scene grid; `Shadow.MaxOfAt` gives its pixels |
| Shadow.ShiftedClouds | wadden.js:75-81 | one mask per height, in order; pixel `(r, c)` of mask `i` is the cloud mask shifted by height `i`'s offset |
| Shadow.PotentialShadow | wadden.js:74-82 | the potential shadow over the script's heights lies on the scene grid; `Shadow.PotentialShadowForAt` gives its pixels |
| Shadow.MaxOfOrderIrrelevant | wadden.js:82 | the collection maximum does not depend on the order of the images |
| Shadow.PotentialShadowForAt | wadden.js:75-82 | the potential shadow is set at a pixel iff the cloud mask shifted for some height covers it |
| Shadow.HeightOrderIrrelevant | wadden.js:74-82 | any permutation of the heights gives the same potential shadow |
| Shadow.ShadowMaskAt | wadden.js:82-91 | a shadow pixel is exactly one that some shifted cloud covers, that is not cloud and that is dark |
| Shadow.ShadowMask | wadden.js:85-91 | a pixel is shadow iff it is potential shadow, not cloud and dark |
| Shadow.ShadowIsDarkAndNotCloud | wadden.js:85-91 | a shadow pixel is never cloud and always dark |
| Shadow.ZeroOffsetsGiveNoShadow | wadden.js:75-91 | with all offsets zero the potential shadow is the cloud mask, and the shadow mask is empty |
| Shadow.ZeroOffsetsPotentialFor | wadden.js:75-82 | with all offsets zero, any non-empty list of heights gives the cloud mask back as the potential shadow |
| Shadow.PotentialShadowMonotone | wadden.js:75-82 | more cloud never gives less potential shadow |
| Bands.Lookup | wadden.js:39-40 | the lookup fails iff the key is absent; a found value is paired with the key at its first position |
| Bands.RenameIsBijective | wadden.js:39-40 | the 13 source names and the 13 new names are each distinct and do not contain `QA60`, so the rename is one-to-one and `SourceOf` inverts it |
| Bands.NdviSources | wadden.js:104-106 | NDVI reads `red4` and `red`, which are raw `B8A` and `B4` |
| Bands.NdwiSources | wadden.js:107-109 | NDWI reads `green` and `red4`, which are raw `B3` and `B8A` |
| Bands.NdbiSources | wadden.js:110-112 | NDBI reads `swir1` and `red4`, which are raw `B11` and `B8A` |
| Bands.DarkPixelSources | wadden.js:88 | the dark-pixel test reads `green` and `swir2`, which are raw `B3` and `B12` |
| Bands.AddIndex | wadden.js:104-112 | adding an index band succeeds iff both input bands are present; it appends the index name; a failure names a missing input |
| Bands.IndexingMaskedScene | wadden.js:134-138 | mapping NDBI, NDVI and NDWI over a masked scene succeeds and appends the three names in that order, all names distinct |
| Bands.Indexed | wadden.js:134-138 | mapping NDBI, NDVI and NDWI succeeds iff `swir1`, `red4`, `red` and `green` are present; it appends `NDBI`, `NDVI`, `NDWI` in that order; a failure names a missing band |
| Composites.DecimalRoundTrip | wadden.js:208-215 | the decimal digits of a percentile read back as the percentile |
| Composites.NameOf | wadden.js:208-215 | the percentile reducer output is named `<band>_p5`, `_p50`, `_p90` or `_p95` |
| Composites.OutputName | wadden.js:208-215 | a reducer's output name is the band name followed by `_` and the statistic's suffix |
| Composites.PercentileNamesDiffer | wadden.js:208-215 | two different percentiles of the same band get different names |
| Composites.CatNames | wadden.js:207-224 | `ee.Image.cat` gives one name per reduction, in order, each the reducer's output name |
| Composites.S1CompositeLayout | wadden.js:207-216 | the radar composite is, for VV then VH, the 95th, 50th and 5th percentiles and the standard deviation |
| Composites.IndexCompositeLayout | wadden.js:219 | the index composite is NDBI, NDVI, NDWI at the 90th percentile, then at the 50th |
| Composites.WithoutMembers | wadden.js:223 | dropping the omitted names keeps exactly the names outside the omitted set |
| Composites.S2CompositeBands | wadden.js:223 | the reflectance composite is the 50th percentile of the renamed bands minus aerosol, h2o and cirrus, in rename order |
| Composites.CompositeBandsAvailable | wadden.js:219-223 | every band a Sentinel-2 composite reduces exists in the masked, indexed scenes |
| Composites.ExportsSelectCompositeBands | wadden.js:237-256 | the index and reflectance exports select the composite's bands in composite order; the radar export selects the same bands with the two standard deviations moved last |
| Composites.StdDevsLastIsPermutation | wadden.js:256 | moving elements 3 and 7 to the end keeps the multiset of elements |
| Composites.CompositeNamesDistinct | wadden.js:207-224 | no composite has two bands with the same name |

## Left out

- The catalogue queries (`filterBounds`, `filterDate`, the Sentinel-1 filters), `clip(geom)`, map display and `Export.image.toAsset`: these are service calls, not computation on pixels.
- `.set('solar_azimuth', ...)` and `.set('solar_zenith', ...)`: image metadata only. Their values feed the shadow geometry, which is a parameter here.
- The floating-point shadow geometry (azimuth, zenith, `tan`, `cos`, `sin`, `round`, nominal scale): the pixel offset for each cloud height is the parameter `offsetFor`. The direction of `changeProj` is absorbed in the sign of those offsets.
- Shadow.ShadowMask: pixels shifted in from outside the scene read as false (not cloud). Earth Engine would read them from the neighbouring ground or mask them.
- `normalizedDifference(...).gt(0.25)` and the NDVI, NDWI and NDBI pixel values: floating-point arithmetic. The dark-pixel test is an input grid, and the indices are modelled at the level of band names and their sources.
- `divide(10000)` as floating point: the model keeps the integer values and multiplies the band's divisor instead.
- The percentile and standard-deviation reducers over the image collections: only the band names they produce and the composite layouts are modelled.
- `maskEdge` (connected components of a rescaled radar band) and `maskedge2` (negative buffer): image-processing calls with no discrete core to model, applied only to the Sentinel-1 path.
- Earth Engine's automatic renaming of duplicate band names in `ee.Image.cat`: the model proves that no composite has duplicate names, so the case does not arise.
- Raw no-data: a raw band is a grid of digital numbers with no masked pixels. A Level-1C scene whose band or `QA60` is already masked at a pixel is outside the model; in Earth Engine such a masked `QA60` pixel makes the whole output pixel no-data.
- Missing solar-angle metadata: a scene without `MEAN_SOLAR_AZIMUTH_ANGLE` or `MEAN_SOLAR_ZENITH_ANGLE` makes `shadowMask` fail in Earth Engine. The model takes the offsets as given, so it cannot fail there.
- Bands.AddIndex: when the band names already contain the index name, the model appends a second copy. Earth Engine's `addBands` would rename the new band with a numeric suffix. The script never meets this case, as `Bands.IndexingMaskedScene` shows.
- Band resolution: Sentinel-2 bands come at 10, 20 and 60 m, and the script's cloud mask and `nominalScale` come from the 60 m `QA60` band. The model puts every band of a scene on one shared grid and leaves resampling out.
