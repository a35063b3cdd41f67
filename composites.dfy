/**
  The three composites the script assembles with `ee.Image.cat` and the
  band selections it exports. A temporal reduction of band `b` is named
  `b_p<N>` for the N-th percentile and `b_stdDev` for the standard
  deviation; the statistics themselves are not modelled here.
*/
module Composites {
  import opened Bands

  /** `ee.Reducer.percentile({percentiles: [p]})` or `ee.Reducer.stdDev()`. */
  datatype Statistic = Percentile(p: nat) | StdDev

  /** One output band: a source band reduced over time by one statistic. */
  datatype Reduction = Reduction(band: string, stat: Statistic)

  /** The decimal digits of `n`, without leading zeros. */
  function DecimalString(n: nat): (s: string)
    ensures |s| >= 1
  {
    if n < 10 then ["0123456789"[n]] else DecimalString(n / 10) + ["0123456789"[n % 10]]
  }

  /** The number a string of decimal digits denotes. */
  function DecimalValue(s: string): int
  {
    if |s| == 0 then 0 else 10 * DecimalValue(s[..|s| - 1]) + (s[|s| - 1] as int - '0' as int)
  }

  /** Reading back the digits of `n` gives `n`, so different percentiles get different names. */
  lemma {:induction false} DecimalRoundTrip(n: nat)
    ensures DecimalValue(DecimalString(n)) == n
  {
    var s := DecimalString(n);
    if n < 10 {
      assert s[|s| - 1] as int - '0' as int == n;
    } else {
      DecimalRoundTrip(n / 10);
      assert s[..|s| - 1] == DecimalString(n / 10);
      assert s[|s| - 1] as int - '0' as int == n % 10;
    }
  }

  /** The percentiles the script asks for, written out. */
  lemma PercentileDigits()
    ensures DecimalString(5) == "5" && DecimalString(50) == "50"
    ensures DecimalString(90) == "90" && DecimalString(95) == "95"
  {
  }

  /** The name of a percentile band for the percentiles the script uses. */
  lemma NameOf(band: string, p: nat)
    requires p in {5, 50, 90, 95}
    ensures p == 5 ==> OutputName(Reduction(band, Percentile(p))) == band + "_p5"
    ensures p == 50 ==> OutputName(Reduction(band, Percentile(p))) == band + "_p50"
    ensures p == 90 ==> OutputName(Reduction(band, Percentile(p))) == band + "_p90"
    ensures p == 95 ==> OutputName(Reduction(band, Percentile(p))) == band + "_p95"
  {
    PercentileDigits();
  }

  /** The band name the reducer gives to `r`. */
  function OutputName(r: Reduction): (s: string)
    ensures |s| > |r.band| + 1 && s[..|r.band| + 1] == r.band + "_"
  {
    match r.stat
    case Percentile(p) => r.band + "_p" + DecimalString(p)
    case StdDev => r.band + "_stdDev"
  }

  /** Two percentiles of the same band get different names. */
  lemma PercentileNamesDiffer(band: string, p: nat, q: nat)
    requires p != q
    ensures OutputName(Reduction(band, Percentile(p))) != OutputName(Reduction(band, Percentile(q)))
  {
    var k := |band| + 2;
    assert OutputName(Reduction(band, Percentile(p)))[k..] == DecimalString(p);
    assert OutputName(Reduction(band, Percentile(q)))[k..] == DecimalString(q);
    DecimalRoundTrip(p);
    DecimalRoundTrip(q);
  }

  /** The band names of `ee.Image.cat` over single-band reductions, in order. */
  function CatNames(rs: seq<Reduction>): (names: seq<string>)
    ensures |names| == |rs|
    ensures forall i :: 0 <= i < |rs| ==> names[i] == OutputName(rs[i])
  {
    seq(|rs|, i requires 0 <= i < |rs| => OutputName(rs[i]))
  }

  /** `compositeS1`: VV at the 95th, 50th, 5th percentile and standard deviation, then the same for VH. */
  const S1Composite: seq<Reduction> := [
    Reduction("VV", Percentile(95)), Reduction("VV", Percentile(50)),
    Reduction("VV", Percentile(5)), Reduction("VV", StdDev),
    Reduction("VH", Percentile(95)), Reduction("VH", Percentile(50)),
    Reduction("VH", Percentile(5)), Reduction("VH", StdDev)]

  /** `indicesStack90_50`: NDBI, NDVI, NDWI at the 90th percentile, then at the 50th. */
  const IndexComposite: seq<Reduction> := [
    Reduction("NDBI", Percentile(90)), Reduction("NDVI", Percentile(90)), Reduction("NDWI", Percentile(90)),
    Reduction("NDBI", Percentile(50)), Reduction("NDVI", Percentile(50)), Reduction("NDWI", Percentile(50))]

  /** The reflectance bands of `sentinel2Stack50`, in order. */
  const S2Bands: seq<string> := ["blue", "green", "red", "B5", "red2", "B7", "B8", "red4", "swir1", "swir2"]

  /** `sentinel2Stack50`: each of those bands at the 50th percentile. */
  const S2Composite: seq<Reduction> := seq(|S2Bands|, i requires 0 <= i < |S2Bands| => Reduction(S2Bands[i], Percentile(50)))

  /** The band selections passed to the three exports. */
  const IndexExport: seq<string> := ["NDBI_p90", "NDVI_p90", "NDWI_p90", "NDBI_p50", "NDVI_p50", "NDWI_p50"]
  const S2Export: seq<string> :=
    ["blue_p50", "green_p50", "red_p50", "B5_p50", "red2_p50", "B7_p50", "B8_p50", "red4_p50", "swir1_p50", "swir2_p50"]
  const S1Export: seq<string> := ["VV_p95", "VV_p50", "VV_p5", "VH_p95", "VH_p50", "VH_p5", "VV_stdDev", "VH_stdDev"]

  const Polarisations: seq<string> := ["VV", "VH"]
  const S1Statistics: seq<Statistic> := [Percentile(95), Percentile(50), Percentile(5), StdDev]

  /** The radar composite has 8 bands: for each polarisation in turn, the four statistics in order. */
  lemma S1CompositeLayout()
    ensures |S1Composite| == 8
    ensures forall q, k :: 0 <= q < 2 && 0 <= k < 4 ==>
      S1Composite[4 * q + k] == Reduction(Polarisations[q], S1Statistics[k])
  {
  }

  const IndexOrder: seq<string> := [Ndbi.name, Ndvi.name, Ndwi.name]
  const IndexPercentiles: seq<nat> := [90, 50]

  /** The index composite has 6 bands: NDBI, NDVI, NDWI at the 90th percentile, then at the 50th. */
  lemma IndexCompositeLayout()
    ensures |IndexComposite| == 6
    ensures forall q, k :: 0 <= q < 2 && 0 <= k < 3 ==>
      IndexComposite[3 * q + k] == Reduction(IndexOrder[k], Percentile(IndexPercentiles[q]))
  {
  }

  /** The bands the reflectance composite leaves out. */
  const OmittedReflectance: set<string> := {"aerosol", "h2o", "cirrus"}

  /** The names of `names` outside `omit`, in their original order. */
  function Without(names: seq<string>, omit: set<string>): seq<string>
  {
    if |names| == 0 then []
    else if names[0] in omit then Without(names[1..], omit)
    else [names[0]] + Without(names[1..], omit)
  }

  /** `Without` keeps exactly the names outside `omit`. */
  lemma {:induction false} WithoutMembers(names: seq<string>, omit: set<string>, x: string)
    ensures x in Without(names, omit) <==> x in names && x !in omit
  {
    if |names| > 0 {
      WithoutMembers(names[1..], omit, x);
      assert names == [names[0]] + names[1..];
    }
  }

  /**
    The reflectance composite takes the 50th percentile of exactly the
    renamed bands other than aerosol, h2o and cirrus, in rename order.
  */
  lemma S2CompositeBands()
    ensures |S2Composite| == 10
    ensures forall i :: 0 <= i < 10 ==> S2Composite[i].stat == Percentile(50)
    ensures S2Bands == Without(ToaNames, OmittedReflectance)
  {
    KeptFrom0();
  }

  lemma KeptFrom0()
    ensures Without(ToaNames, OmittedReflectance) == S2Bands
  {
    KeptFrom1();
    assert ToaNames[0..][1..] == ToaNames[1..];
    assert ToaNames[0..] == ToaNames;
  }

  lemma KeptFrom1()
    ensures Without(ToaNames[1..], OmittedReflectance) == S2Bands
  {
    KeptFrom3();
    assert ToaNames[2..][1..] == ToaNames[3..];
    assert Without(ToaNames[2..], OmittedReflectance) == S2Bands[1..];
    assert ToaNames[1..][1..] == ToaNames[2..];
  }

  lemma KeptFrom3()
    ensures Without(ToaNames[3..], OmittedReflectance) == ["red", "B5", "red2", "B7", "B8", "red4", "swir1", "swir2"]
  {
    KeptFrom6();
    assert ToaNames[5..][1..] == ToaNames[6..];
    assert Without(ToaNames[5..], OmittedReflectance) == ["red2", "B7", "B8", "red4", "swir1", "swir2"];
    assert ToaNames[4..][1..] == ToaNames[5..];
    assert Without(ToaNames[4..], OmittedReflectance) == ["B5", "red2", "B7", "B8", "red4", "swir1", "swir2"];
    assert ToaNames[3..][1..] == ToaNames[4..];
  }

  lemma KeptFrom6()
    ensures Without(ToaNames[6..], OmittedReflectance) == ["B7", "B8", "red4", "swir1", "swir2"]
  {
    KeptFrom9();
    assert ToaNames[8..][1..] == ToaNames[9..];
    assert Without(ToaNames[8..], OmittedReflectance) == ["red4", "swir1", "swir2"];
    assert ToaNames[7..][1..] == ToaNames[8..];
    assert Without(ToaNames[7..], OmittedReflectance) == ["B8", "red4", "swir1", "swir2"];
    assert ToaNames[6..][1..] == ToaNames[7..];
  }

  lemma KeptFrom9()
    ensures Without(ToaNames[9..], OmittedReflectance) == ["swir1", "swir2"]
  {
    assert ToaNames[12..][1..] == ToaNames[13..];
    assert Without(ToaNames[12..], OmittedReflectance) == ["swir2"];
    assert ToaNames[11..][1..] == ToaNames[12..];
    assert Without(ToaNames[11..], OmittedReflectance) == ["swir1", "swir2"];
    assert ToaNames[10..][1..] == ToaNames[11..];
    assert Without(ToaNames[10..], OmittedReflectance) == ["swir1", "swir2"];
    assert ToaNames[9..][1..] == ToaNames[10..];
  }

  /** Every band a composite reduces exists in the masked, indexed Sentinel-2 scenes. */
  lemma CompositeBandsAvailable()
    ensures forall i :: 0 <= i < |IndexComposite| ==> IndexComposite[i].band in IndexedSceneBands
    ensures forall i :: 0 <= i < |S2Composite| ==> S2Composite[i].band in MaskedSceneBands
  {
  }

  /**
    The exports select the composites' bands: the index and reflectance
    exports in the composite's own order, the radar export with the two
    standard deviations moved after the six percentiles (the same bands).
  */
  lemma ExportsSelectCompositeBands()
    ensures IndexExport == CatNames(IndexComposite)
    ensures S2Export == CatNames(S2Composite)
    ensures multiset(S1Export) == multiset(CatNames(S1Composite))
    ensures var n := CatNames(S1Composite);
            S1Export == [n[0], n[1], n[2], n[4], n[5], n[6], n[3], n[7]] && S1Export != n
  {
    IndexNames();
    S2Names();
    S1ExportReorders();
  }

  lemma S1ExportReorders()
    ensures multiset(S1Export) == multiset(CatNames(S1Composite))
    ensures var n := CatNames(S1Composite);
            S1Export == [n[0], n[1], n[2], n[4], n[5], n[6], n[3], n[7]] && S1Export != n
  {
    S1Names();
    var n := CatNames(S1Composite);
    assert S1Export[3] != n[3];
    StdDevsLastIsPermutation(n);
  }

  /** Moving elements 3 and 7 of an 8-element sequence to the end keeps the same elements. */
  lemma StdDevsLastIsPermutation<T>(n: seq<T>)
    requires |n| == 8
    ensures multiset([n[0], n[1], n[2], n[4], n[5], n[6], n[3], n[7]]) == multiset(n)
  {
    var a, b := n[..3], n[4..7];
    assert n == a + [n[3]] + b + [n[7]];
    assert [n[0], n[1], n[2], n[4], n[5], n[6], n[3], n[7]] == a + b + [n[3]] + [n[7]];
    calc {
      multiset(a + b + [n[3]] + [n[7]]);
      multiset(a) + multiset(b) + multiset([n[3]]) + multiset([n[7]]);
      multiset(a) + multiset([n[3]]) + multiset(b) + multiset([n[7]]);
      multiset(a + [n[3]] + b + [n[7]]);
    }
  }

  lemma S1Names()
    ensures CatNames(S1Composite) == ["VV_p95", "VV_p50", "VV_p5", "VV_stdDev", "VH_p95", "VH_p50", "VH_p5", "VH_stdDev"]
  {
    forall i | 0 <= i < 8
      ensures CatNames(S1Composite)[i] == ["VV_p95", "VV_p50", "VV_p5", "VV_stdDev", "VH_p95", "VH_p50", "VH_p5", "VH_stdDev"][i]
    {
      S1NameAt(i);
    }
  }

  lemma S1NameAt(i: nat)
    requires i < 8
    ensures CatNames(S1Composite)[i] == ["VV_p95", "VV_p50", "VV_p5", "VV_stdDev", "VH_p95", "VH_p50", "VH_p5", "VH_stdDev"][i]
  {
    if i == 0 {
      assert S1Composite[0] == Reduction("VV", Percentile(95));
      NameOf("VV", 95);
    } else if i == 1 {
      assert S1Composite[1] == Reduction("VV", Percentile(50));
      NameOf("VV", 50);
    } else if i == 2 {
      assert S1Composite[2] == Reduction("VV", Percentile(5));
      NameOf("VV", 5);
    } else if i == 3 {
      assert S1Composite[3] == Reduction("VV", StdDev);
      assert OutputName(Reduction("VV", StdDev)) == "VV" + "_stdDev";
    } else if i == 4 {
      assert S1Composite[4] == Reduction("VH", Percentile(95));
      NameOf("VH", 95);
    } else if i == 5 {
      assert S1Composite[5] == Reduction("VH", Percentile(50));
      NameOf("VH", 50);
    } else if i == 6 {
      assert S1Composite[6] == Reduction("VH", Percentile(5));
      NameOf("VH", 5);
    } else {
      assert S1Composite[7] == Reduction("VH", StdDev);
      assert OutputName(Reduction("VH", StdDev)) == "VH" + "_stdDev";
    }
  }

  lemma IndexNames()
    ensures CatNames(IndexComposite) == IndexExport
  {
    forall i | 0 <= i < 6
      ensures CatNames(IndexComposite)[i] == IndexExport[i]
    {
      IndexNameAt(i);
    }
  }

  lemma IndexNameAt(i: nat)
    requires i < 6
    ensures CatNames(IndexComposite)[i] == IndexExport[i]
  {
    if i == 0 {
      assert IndexComposite[0] == Reduction("NDBI", Percentile(90));
      NameOf("NDBI", 90);
    } else if i == 1 {
      assert IndexComposite[1] == Reduction("NDVI", Percentile(90));
      NameOf("NDVI", 90);
    } else if i == 2 {
      assert IndexComposite[2] == Reduction("NDWI", Percentile(90));
      NameOf("NDWI", 90);
    } else if i == 3 {
      assert IndexComposite[3] == Reduction("NDBI", Percentile(50));
      NameOf("NDBI", 50);
    } else if i == 4 {
      assert IndexComposite[4] == Reduction("NDVI", Percentile(50));
      NameOf("NDVI", 50);
    } else {
      assert IndexComposite[5] == Reduction("NDWI", Percentile(50));
      NameOf("NDWI", 50);
    }
  }

  lemma S2Names()
    ensures CatNames(S2Composite) == S2Export
  {
    forall i | 0 <= i < 10
      ensures CatNames(S2Composite)[i] == S2Export[i]
    {
      S2NameAt(i);
    }
  }

  lemma S2NameAt(i: nat)
    requires i < 10
    ensures CatNames(S2Composite)[i] == S2Export[i]
  {
    NameOf(S2Bands[i], 50);
    S2ExportAt(i);
  }

  /** The median composite's export names are its band names with `_p50` appended. */
  lemma S2ExportAt(i: nat)
    requires i < 10
    ensures S2Export[i] == S2Bands[i] + "_p50"
  {
    if i < 5 {
      S2ExportLow(i);
    } else {
      S2ExportHigh(i);
    }
  }

  lemma S2ExportLow(i: nat)
    requires i < 5
    ensures S2Export[i] == S2Bands[i] + "_p50"
  {
  }

  lemma S2ExportHigh(i: nat)
    requires 5 <= i < 10
    ensures S2Export[i] == S2Bands[i] + "_p50"
  {
  }

  /** No composite repeats a band name, so `ee.Image.cat` never has to rename one. */
  lemma CompositeNamesDistinct()
    ensures Distinct(CatNames(S1Composite))
    ensures Distinct(CatNames(IndexComposite))
    ensures Distinct(CatNames(S2Composite))
  {
    S1Names();
    IndexNames();
    S2Names();
    var s1 := CatNames(S1Composite);
    forall i, j | 0 <= i < j < 8 ensures s1[i] != s1[j] { S1NamesDiffer(i, j); }
    forall i, j | 0 <= i < j < 6 ensures IndexExport[i] != IndexExport[j] { IndexNamesDiffer(i, j); }
    forall i, j | 0 <= i < j < 10 ensures S2Export[i] != S2Export[j] { S2NamesDiffer(i, j); }
  }

  lemma S1NamesDiffer(i: nat, j: nat)
    requires i < j < 8
    ensures S1Export[i] != S1Export[j]
    ensures var s1 := ["VV_p95", "VV_p50", "VV_p5", "VV_stdDev", "VH_p95", "VH_p50", "VH_p5", "VH_stdDev"]; s1[i] != s1[j]
  {
  }

  lemma IndexNamesDiffer(i: nat, j: nat)
    requires i < j < 6
    ensures IndexExport[i] != IndexExport[j]
  {
  }

  lemma S2NamesDiffer(i: nat, j: nat)
    requires i < j < 10
    ensures S2Export[i] != S2Export[j]
  {
  }
}
