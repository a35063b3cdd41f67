/**
  Band bookkeeping of the Sentinel-2 path: the 13-band rename of
  `sentinel2toa`, the band pairs of the three normalized-difference indices
  and of the dark-pixel test, and the band list each scene carries once it
  has been masked and indexed.
*/
module Bands {
  import opened Wrappers

  /** A band the script selects is absent: a hard input error in `select`. */
  datatype Error = MissingBand(name: string)

  /** No name occurs twice. */
  predicate Distinct(names: seq<string>) {
    forall i, j :: 0 <= i < j < |names| ==> names[i] != names[j]
  }

  /** The Level-1C bands `sentinel2toa` selects, in order. */
  const SourceBands: seq<string> :=
    ["B1", "B2", "B3", "B4", "B5", "B6", "B7", "B8", "B8A", "B9", "B10", "B11", "B12"]

  /** The names they are given, position by position. */
  const ToaNames: seq<string> :=
    ["aerosol", "blue", "green", "red", "B5", "red2", "B7", "B8", "red4", "h2o", "cirrus", "swir1", "swir2"]

  /** The quality band, added back unrenamed and unscaled. */
  const QualityBand: string := "QA60"

  /** The value paired with the first occurrence of `key` in `keys`. */
  function Lookup(keys: seq<string>, values: seq<string>, key: string): (v: Option<string>)
    requires |keys| == |values|
    ensures v.None? <==> key !in keys
    ensures v.Some? ==> exists i :: 0 <= i < |keys| && keys[i] == key && values[i] == v.value &&
                                    forall j :: 0 <= j < i ==> keys[j] != key
  {
    if |keys| == 0 then None
    else if keys[0] == key then Some(values[0])
    else Lookup(keys[1..], values[1..], key)
  }

  /** The raw band a renamed band comes from. */
  function SourceOf(name: string): Option<string> {
    Lookup(ToaNames, SourceBands, name)
  }

  /**
    The rename is one-to-one and keeps order: 13 distinct sources onto 13
    distinct names, band `i` onto name `i`, and `QA60` is not among them.
  */
  lemma RenameIsBijective()
    ensures |SourceBands| == 13 && |ToaNames| == 13
    ensures Distinct(SourceBands) && Distinct(ToaNames)
    ensures QualityBand !in SourceBands && QualityBand !in ToaNames
    ensures forall i :: 0 <= i < 13 ==> SourceOf(ToaNames[i]) == Some(SourceBands[i])
  {
    DistinctNames();
    forall i | 0 <= i < 13
      ensures SourceOf(ToaNames[i]) == Some(SourceBands[i])
    {
      SourceOfAt(i);
    }
  }

  /** Renamed band `i` comes from source band `i`. */
  lemma SourceOfAt(i: nat)
    requires i < 13
    ensures SourceOf(ToaNames[i]) == Some(SourceBands[i])
  {
    DistinctNames();
    var v := SourceOf(ToaNames[i]);
    var j :| 0 <= j < 13 && ToaNames[j] == ToaNames[i] && SourceBands[j] == v.value;
    assert j == i;
  }

  lemma DistinctNames()
    ensures Distinct(SourceBands) && Distinct(ToaNames)
    ensures QualityBand !in SourceBands && QualityBand !in ToaNames
  {
    forall i, j | 0 <= i < j < 13
      ensures SourceBands[i] != SourceBands[j] && ToaNames[i] != ToaNames[j]
    {
      DistinctAt(i, j);
    }
  }

  lemma DistinctAt(i: nat, j: nat)
    requires i < j < 13
    ensures SourceBands[i] != SourceBands[j] && ToaNames[i] != ToaNames[j]
  {
  }

  /** `image.normalizedDifference([first, second]).rename(name)`. */
  datatype NormalizedDifference = NormalizedDifference(name: string, first: string, second: string)

  const Ndvi := NormalizedDifference("NDVI", "red4", "red")
  const Ndwi := NormalizedDifference("NDWI", "green", "red4")
  const Ndbi := NormalizedDifference("NDBI", "swir1", "red4")

  /** The dark-pixel test of the shadow projection compares green with swir2. */
  const DarkPixelTest := NormalizedDifference("dark_pixels", "green", "swir2")

  /** NDVI compares near infrared `B8A` with red `B4`. */
  lemma NdviSources()
    ensures SourceOf(Ndvi.first) == Some("B8A") && SourceOf(Ndvi.second) == Some("B4")
  {
    SourceOfNamed(8, "red4", "B8A");
    SourceOfNamed(3, "red", "B4");
  }

  /** NDWI compares green `B3` with near infrared `B8A`. */
  lemma NdwiSources()
    ensures SourceOf(Ndwi.first) == Some("B3") && SourceOf(Ndwi.second) == Some("B8A")
  {
    SourceOfNamed(8, "red4", "B8A");
    SourceOfNamed(2, "green", "B3");
  }

  /** NDBI compares short-wave infrared `B11` with near infrared `B8A`. */
  lemma NdbiSources()
    ensures SourceOf(Ndbi.first) == Some("B11") && SourceOf(Ndbi.second) == Some("B8A")
  {
    SourceOfNamed(11, "swir1", "B11");
    SourceOfNamed(8, "red4", "B8A");
  }

  /** The dark-pixel test compares green `B3` with short-wave infrared `B12`. */
  lemma DarkPixelSources()
    ensures SourceOf(DarkPixelTest.first) == Some("B3") && SourceOf(DarkPixelTest.second) == Some("B12")
  {
    SourceOfNamed(2, "green", "B3");
    SourceOfNamed(12, "swir2", "B12");
  }

  /** `SourceOfAt` for one literal name pair. */
  lemma SourceOfNamed(i: nat, name: string, source: string)
    requires i < 13 && ToaNames[i] == name && SourceBands[i] == source
    ensures SourceOf(name) == Some(source)
  {
    SourceOfAt(i);
  }

  /** `image.addBands(nd.rename(name))` at the level of band names. */
  function AddIndex(names: seq<string>, nd: NormalizedDifference): (r: Result<seq<string>, Error>)
    ensures r.Success? <==> nd.first in names && nd.second in names
    ensures r.Success? ==> r.value == names + [nd.name]
    ensures r.Failure? ==> r.error.name !in names && r.error.name in [nd.first, nd.second]
  {
    if nd.first !in names then Failure(MissingBand(nd.first))
    else if nd.second !in names then Failure(MissingBand(nd.second))
    else Success(names + [nd.name])
  }

  /** `.map(addNDBI).map(addNDVI).map(addNDWI)` over a scene's band names. */
  function Indexed(names: seq<string>): (r: Result<seq<string>, Error>)
    ensures r.Success? <==> Ndbi.first in names && Ndbi.second in names && Ndvi.second in names && Ndwi.first in names
    ensures r.Success? ==> r.value == names + [Ndbi.name, Ndvi.name, Ndwi.name]
    ensures r.Failure? ==> r.error.name !in names
  {
    match AddIndex(names, Ndbi)
    case Failure(e) => Failure(e)
    case Success(a) =>
      match AddIndex(a, Ndvi)
      case Failure(e) => Failure(e)
      case Success(b) => AddIndex(b, Ndwi)
  }

  /** The bands of a masked scene: the 13 renamed bands, then `QA60`. */
  const MaskedSceneBands: seq<string> := ToaNames + [QualityBand]

  /** The band names after indexing: the masked scene's, then NDBI, NDVI and NDWI. */
  const IndexedSceneBands: seq<string> := MaskedSceneBands + [Ndbi.name, Ndvi.name, Ndwi.name]

  /**
    Indexing a masked scene always succeeds and appends NDBI, NDVI and NDWI
    in that order; no name repeats, so no band is renamed or overwritten.
  */
  lemma IndexingMaskedScene()
    ensures Indexed(MaskedSceneBands) == Success(IndexedSceneBands)
    ensures Distinct(IndexedSceneBands)
  {
    var s := MaskedSceneBands;
    assert s[11] == "swir1" && s[8] == "red4" && s[3] == "red" && s[2] == "green";
    var a := s + [Ndbi.name];
    assert a[8] == "red4" && a[3] == "red";
    var b := a + [Ndvi.name];
    assert b[2] == "green" && b[8] == "red4";
    assert b + [Ndwi.name] == IndexedSceneBands;
    IndexedBandsDistinct();
  }

  /** Appending a name not yet present keeps a list free of repeats. */
  lemma DistinctAppend(names: seq<string>, x: string)
    requires Distinct(names) && x !in names
    ensures Distinct(names + [x])
  {
  }

  lemma IndexedBandsDistinct()
    ensures Distinct(IndexedSceneBands)
  {
    DistinctNames();
    forall x | x in {QualityBand, "NDBI", "NDVI", "NDWI"}
      ensures x !in ToaNames
    {
      NotARenamedBand(x);
    }
    DistinctAppend(ToaNames, QualityBand);
    DistinctAppend(MaskedSceneBands, "NDBI");
    DistinctAppend(MaskedSceneBands + ["NDBI"], "NDVI");
    DistinctAppend(MaskedSceneBands + ["NDBI", "NDVI"], "NDWI");
    assert MaskedSceneBands + ["NDBI"] + ["NDVI"] == MaskedSceneBands + ["NDBI", "NDVI"];
    assert MaskedSceneBands + ["NDBI", "NDVI"] + ["NDWI"] == IndexedSceneBands;
  }

  lemma NotARenamedBand(x: string)
    requires x in {QualityBand, "NDBI", "NDVI", "NDWI"}
    ensures x !in ToaNames
  {
    forall i | 0 <= i < 13 ensures ToaNames[i] != x {
      assert |ToaNames[i]| <= 7;
    }
  }
}
