/** A worked three-launch table: two launches from CCAFS (one success, one
    failure, both booster category v1) and one successful launch from KSC
    (category v2), with the views the dashboard derives from it. Most lemmas
    take the table as a parameter equal to the sample, which keeps the
    literal from being unfolded through every definition; the two `Literal`
    lemmas restate the results on the literal table. */
module Samples {
  import opened Launches
  import opened GroupBy
  import opened StringOrder
  import opened Dashboard

  const A := LaunchRecord("CCAFS", 500, "v1", 1)
  const B := LaunchRecord("CCAFS", 1500, "v1", 0)
  const C := LaunchRecord("KSC", 3000, "v2", 1)

  predicate IsSample(ds: Dataset) { ds == [A, B, C] }

  lemma SitesDiffer()
    ensures "KSC" != "CCAFS" && Less("CCAFS", "KSC")
  {
    assert "KSC"[0] != "CCAFS"[0];
  }

  /** A group of a three-row table, row by row. */
  lemma SelectThree<K>(a: LaunchRecord, b: LaunchRecord, c: LaunchRecord, key: LaunchRecord -> K, k: K)
    ensures Select([a, b, c], key, k)
         == (if key(a) == k then [a] else []) + (if key(b) == k then [b] else []) + (if key(c) == k then [c] else [])
  {
    var ta, tb, tc := (if key(a) == k then [a] else []), (if key(b) == k then [b] else []),
                      (if key(c) == k then [c] else []);
    assert [c] + [] == [c] && [b] + [c] == [b, c] && [a] + [b, c] == [a, b, c];
    assert ta + (tb + tc) == ta + tb + tc;
    SelectCons(c, [], key, k);
    SelectCons(b, [c], key, k);
    SelectCons(a, [b, c], key, k);
  }

  lemma SampleGroupCCAFS(ds: Dataset)
    requires IsSample(ds)
    ensures Select(ds, SiteOf, "CCAFS") == [A, B]
  {
    SitesDiffer();
    SelectThree(A, B, C, SiteOf, "CCAFS");
    assert [A] + [B] + [] == [A, B];
  }

  lemma SampleGroupKSC(ds: Dataset)
    requires IsSample(ds)
    ensures Select(ds, SiteOf, "KSC") == [C]
  {
    SitesDiffer();
    SelectThree(A, B, C, SiteOf, "KSC");
    assert [] + [] + [C] == [C];
  }

  lemma SampleSites(ds: Dataset)
    requires IsSample(ds)
    ensures SortedKeys(Column(ds, SiteOf)) == ["CCAFS", "KSC"]
  {
    SitesDiffer();
    assert Column(ds, SiteOf) == ["CCAFS", "CCAFS", "KSC"];
    assert ["CCAFS", "CCAFS", "KSC"][1..] == ["CCAFS", "KSC"];
    assert ["CCAFS", "KSC"][1..] == ["KSC"];
    assert SortedKeys(["KSC"]) == ["KSC"];
    assert SortedKeys(["CCAFS", "KSC"]) == ["CCAFS", "KSC"];
  }

  lemma SampleTotals()
    ensures Total([A, B], ClassValue) == 1 && Total([C], ClassValue) == 1
  {
    TotalCons(A, [B], ClassValue);
    TotalCons(B, [], ClassValue);
    TotalCons(C, [], ClassValue);
    assert [A] + [B] == [A, B] && [B] + [] == [B] && [C] + [] == [C];
  }

  /** Every site selected: the pie holds one success per site. */
  lemma SampleAllSitesPie(ds: Dataset)
    requires IsSample(ds)
    ensures SiteGraphs(ds, All).pie == SuccessesBySite([Entry("CCAFS", 1), Entry("KSC", 1)])
  {
    var sites := SortedKeys(Column(ds, SiteOf));
    var p := SiteGraphs(ds, All).pie.sitePie;
    assert p == GroupTotal(ds, SiteOf, sites, ClassValue);
    GroupTotalAt(ds, SiteOf, sites, ClassValue);
    SampleSites(ds);
    SampleTotals();
    assert p[0] == Entry("CCAFS", 1) by {
      SampleGroupCCAFS(ds);
    }
    assert p[1] == Entry("KSC", 1) by {
      SampleGroupKSC(ds);
    }
    PairIs(p, Entry("CCAFS", 1), Entry("KSC", 1));
  }

  lemma SampleSuccesses()
    ensures Successes([A, B]) == 1 && Successes([C]) == 1
  {
  }

  lemma RateHalf(g: seq<LaunchRecord>, v: real)
    requires g == [A, B] && |g| > 0 && v == Successes(g) as real / |g| as real
    ensures v == 0.5
  {
    SampleSuccesses();
  }

  lemma RateOne(g: seq<LaunchRecord>, v: real)
    requires g == [C] && |g| > 0 && v == Successes(g) as real / |g| as real
    ensures v == 1.0
  {
    SampleSuccesses();
  }

  lemma SampleBarKeys(ds: Dataset)
    requires IsSample(ds)
    ensures var b := SiteGraphs(ds, All).bar.rates;
            |b| == 2 && b[0].key == "CCAFS" && b[1].key == "KSC"
  {
    var sites := SortedKeys(Column(ds, SiteOf));
    assert SiteGraphs(ds, All).bar.rates == GroupMean(ds, SiteOf, sites);
    GroupMeanAt(ds, SiteOf, sites);
    SampleSites(ds);
  }

  /** Every site selected: the bars hold the success rates 0.5 and 1.0. */
  lemma SampleAllSitesBar(ds: Dataset)
    requires IsSample(ds)
    ensures SiteGraphs(ds, All).bar == RateBySite([Entry("CCAFS", 0.5), Entry("KSC", 1.0)])
  {
    var b := SiteGraphs(ds, All).bar.rates;
    SampleBarKeys(ds);
    AllSitesBar(ds);
    assert b[0] == Entry("CCAFS", 0.5) by {
      SampleGroupCCAFS(ds);
      RateHalf(AtSite(ds, "CCAFS"), b[0].value);
    }
    assert b[1] == Entry("KSC", 1.0) by {
      SampleGroupKSC(ds);
      RateOne(AtSite(ds, "KSC"), b[1].value);
    }
    PairIs(b, Entry("CCAFS", 0.5), Entry("KSC", 1.0));
  }

  /** The sample's `ALL` charts, stated on the literal table itself. */
  lemma SampleAllSitesLiteral()
    ensures SiteGraphs([A, B, C], All)
         == SiteViews(SuccessesBySite([Entry("CCAFS", 1), Entry("KSC", 1)]),
                      RateBySite([Entry("CCAFS", 0.5), Entry("KSC", 1.0)]))
  {
    var ds := [A, B, C];
    SampleAllSitesPie(ds);
    SampleAllSitesBar(ds);
  }

  /** The sample's scatter for CCAFS and [0, 1000], on the literal table. */
  lemma SampleScatterLiteral()
    ensures PayloadFrame([A, B, C], "CCAFS", Some(PayloadRange(0, 1000))) == [A]
  {
    SampleScatter([A, B, C]);
  }

  lemma PairIs<T>(s: seq<T>, x: T, y: T)
    requires |s| == 2 && s[0] == x && s[1] == y
    ensures s == [x, y]
  {
  }

  /** CCAFS with the range [0, 1000]: only the 500 kg launch is plotted. */
  lemma SampleScatter(ds: Dataset)
    requires IsSample(ds)
    ensures PayloadFrame(ds, "CCAFS", Some(PayloadRange(0, 1000))) == [A]
  {
    var rg := PayloadRange(0, 1000);
    SampleGroupCCAFS(ds);
    assert PayloadFrame(ds, "CCAFS", Some(rg)) == InRange([A, B], rg);
    assert [A, B] == [A] + [B] && [B] == [B] + [];
    assert InRange([], rg) == [];
    assert InRange([B], rg) == [];
  }
}
