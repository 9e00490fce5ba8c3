/** The dashboard's derived views: the site selector's option list, the two
    charts driven by the selected site (`site_graphs`), the payload scatter
    driven by the site and the payload range (`payload_graphs`), and the
    static success-rate-per-booster chart. Each view is a pure function of
    the launch table and the current selection. */
module Dashboard {
  import opened Seqs
  import opened StringOrder
  import opened Launches
  import opened GroupBy

  /** The selector value that stands for every site. */
  const All: string := "ALL"

  datatype Option<T> = None | Some(value: T)

  /** The payload slider's value: the closed interval [lo, hi] in kg. */
  datatype PayloadRange = PayloadRange(lo: int, hi: int)

  /** Some record of the table was launched from `s`. */
  predicate HasSite(ds: Dataset, s: string) {
    exists i :: 0 <= i < |ds| && ds[i].site == s
  }

  /** Some record launched from `s` has outcome `c`. */
  predicate HasOutcomeAt(ds: Dataset, s: string, c: Outcome) {
    exists i :: 0 <= i < |ds| && ds[i].site == s && ds[i].cls == c
  }

  /** The records launched from `s`, in table order. */
  function AtSite(ds: Dataset, s: string): (rows: seq<LaunchRecord>)
    ensures forall r :: r in rows <==> r in ds && r.site == s
  {
    Select(ds, SiteOf, s)
  }

  // ---------------------------------------------------------------------------
  // Site selector options

  /** `ALL` followed by the launch sites as `unique()` lists them. */
  function SiteOptions(ds: Dataset): (opts: seq<string>)
    ensures |opts| >= 1 && opts[0] == All
    ensures NoDup(opts[1..])
    ensures forall s :: s in opts[1..] <==> HasSite(ds, s)
  {
    var sites := Unique(Column(ds, SiteOf));
    assert ([All] + sites)[1..] == sites;
    [All] + sites
  }

  /** The sites after `ALL` come in the order in which they first occur in the table. */
  lemma SiteOptionsFirstAppearance(ds: Dataset)
    ensures forall i, j :: 1 <= i < j < |SiteOptions(ds)| ==>
              SiteOptions(ds)[i] in Column(ds, SiteOf) && SiteOptions(ds)[j] in Column(ds, SiteOf) &&
              IndexOf(Column(ds, SiteOf), SiteOptions(ds)[i]) < IndexOf(Column(ds, SiteOf), SiteOptions(ds)[j])
  {
    var sites := Column(ds, SiteOf);
    var u := Unique(sites);
    var opts := SiteOptions(ds);
    assert opts == [All] + u;
    UniqueFirstAppearanceOrder(sites);
    forall i, j | 1 <= i < j < |opts|
      ensures opts[i] in sites && opts[j] in sites && IndexOf(sites, opts[i]) < IndexOf(sites, opts[j])
    {
      assert opts[i] == u[i - 1] && opts[j] == u[j - 1];
      assert u[i - 1] in u && u[j - 1] in u;
    }
  }

  /** The option list repeats no value exactly when no site is itself named `ALL`. */
  lemma SiteOptionsNoDupIff(ds: Dataset)
    ensures NoDup(SiteOptions(ds)) <==> !HasSite(ds, All)
  {
    var opts := SiteOptions(ds);
    if HasSite(ds, All) {
      assert All in opts[1..];
      var j :| 0 <= j < |opts[1..]| && opts[1..][j] == All;
      assert opts[0] == opts[j + 1];
    } else {
      forall i, j | 0 <= i < j < |opts|
        ensures opts[i] != opts[j]
      {
        assert opts[j] == opts[1..][j - 1];
        if i > 0 {
          assert opts[i] == opts[1..][i - 1];
        }
      }
    }
  }

  // ---------------------------------------------------------------------------
  // Pie and bar charts driven by the selected site

  /** Pie data: successes per site (every site), or launches per outcome (one site). */
  datatype PieView =
    | SuccessesBySite(sitePie: seq<Entry<string, nat>>)
    | OutcomesAtSite(outcomePie: seq<Entry<Outcome, nat>>)

  /** Bar data: success rate per site (every site), or launches per outcome
      label (one site). */
  datatype BarView =
    | RateBySite(rates: seq<Entry<string, real>>)
    | CountByOutcome(counts: seq<Entry<string, nat>>)

  datatype SiteViews = SiteViews(pie: PieView, bar: BarView)

  /** The outcome keys of a grouping by `class`: the classes that occur, ascending. */
  function OutcomeKeys(rs: seq<LaunchRecord>): (ks: seq<Outcome>)
    ensures forall c: Outcome :: c in ks <==> c in Column(rs, ClassOf)
    ensures forall i, j :: 0 <= i < j < |ks| ==> ks[i] < ks[j]
  {
    var cs := Column(rs, ClassOf);
    (if 0 in cs then [0] else []) + (if 1 in cs then [1] else [])
  }

  /** The text form of an outcome (`astype(str)`). */
  function ClassText(c: Outcome): (t: string)
    ensures t == "0" <==> c == 0
    ensures t == "1" <==> c == 1
  {
    if c == 0 then "0" else "1"
  }

  /** Replaces each outcome key by its text form, keeping the counts. */
  function Relabel(es: seq<Entry<Outcome, nat>>): (r: seq<Entry<string, nat>>)
    ensures |r| == |es|
    ensures forall i :: 0 <= i < |es| ==> r[i] == Entry(ClassText(es[i].key), es[i].value)
    ensures SumValues(r) == SumValues(es)
  {
    if es == [] then [] else [Entry(ClassText(es[0].key), es[0].value)] + Relabel(es[1..])
  }

  /** The data behind the pie and bar charts for the selected site. */
  function SiteGraphs(ds: Dataset, selected: string): (v: SiteViews)
    ensures v.pie.SuccessesBySite? <==> selected == All
    ensures v.bar.RateBySite? <==> selected == All
    ensures selected == All ==>
              && Keys(v.pie.sitePie) == SortedKeys(Column(ds, SiteOf))
              && Keys(v.bar.rates) == SortedKeys(Column(ds, SiteOf))
    ensures selected != All ==> NoDup(Keys(v.pie.outcomePie)) && |v.bar.counts| <= 2
  {
    if selected == All then
      var sites := SortedKeys(Column(ds, SiteOf));
      SiteViews(SuccessesBySite(GroupTotal(ds, SiteOf, sites, ClassValue)),
                RateBySite(GroupMean(ds, SiteOf, sites)))
    else
      var rows := AtSite(ds, selected);
      SiteViews(OutcomesAtSite(OutcomePie(rows)),
                CountByOutcome(OutcomeBars(rows)))
  }

  lemma HasSiteIff(ds: Dataset, s: string)
    ensures HasSite(ds, s) <==> s in Column(ds, SiteOf)
  {
    if HasSite(ds, s) {
      var i :| 0 <= i < |ds| && ds[i].site == s;
      assert Column(ds, SiteOf)[i] == s;
    }
  }

  /** Every site selected: one slice per site, ascending by name, each the
      number of successful launches from that site; the slices add up to
      the successful launches in the whole table. */
  lemma AllSitesPie(ds: Dataset)
    ensures SiteGraphs(ds, All).pie.SuccessesBySite?
    ensures var p := SiteGraphs(ds, All).pie.sitePie;
            && StrictlySorted(Keys(p))
            && (forall s :: s in Keys(p) <==> HasSite(ds, s))
            && (forall i :: 0 <= i < |p| ==> p[i].value == Successes(AtSite(ds, p[i].key)))
            && SumValues(p) == Successes(ds)
  {
    var sites := SortedKeys(Column(ds, SiteOf));
    var p := GroupTotal(ds, SiteOf, sites, ClassValue);
    GroupTotalAt(ds, SiteOf, sites, ClassValue);
    assert Keys(p) == sites;
    forall s ensures s in sites <==> HasSite(ds, s) {
      HasSiteIff(ds, s);
    }
    forall i | 0 <= i < |p| ensures p[i].value == Successes(AtSite(ds, p[i].key)) {
      TotalClassIsSuccesses(AtSite(ds, sites[i]));
    }
    GroupTotalConserves(ds, SiteOf, sites, ClassValue);
    TotalClassIsSuccesses(ds);
  }

  /** Every site selected: one bar per site, the same sites in the same order
      as the pie, each the success rate of that site's launches, in [0, 1]. */
  lemma AllSitesBar(ds: Dataset)
    ensures SiteGraphs(ds, All).bar.RateBySite?
    ensures var b := SiteGraphs(ds, All).bar.rates;
            && Keys(b) == Keys(SiteGraphs(ds, All).pie.sitePie)
            && (forall i :: 0 <= i < |b| ==>
                  var g := AtSite(ds, b[i].key);
                  && |g| > 0
                  && b[i].value == Successes(g) as real / |g| as real
                  && 0.0 <= b[i].value <= 1.0)
  {
    var sites := SortedKeys(Column(ds, SiteOf));
    GroupMeanAt(ds, SiteOf, sites);
    GroupTotalAt(ds, SiteOf, sites, ClassValue);
    assert Keys(GroupMean(ds, SiteOf, sites)) == sites;
    assert Keys(GroupTotal(ds, SiteOf, sites, ClassValue)) == sites;
  }

  /** One site selected: one slice per outcome that occurs among that site's
      launches, in order of first occurrence, each the number of its launches
      with that outcome; the slices add up to the launches from the site. */
  lemma OneSitePie(ds: Dataset, s: string)
    requires s != All
    ensures SiteGraphs(ds, s).pie.OutcomesAtSite?
    ensures var p := SiteGraphs(ds, s).pie.outcomePie;
            && NoDup(Keys(p))
            && (forall c: Outcome :: c in Keys(p) <==> HasOutcomeAt(ds, s, c))
            && (forall i :: 0 <= i < |p| ==> p[i].value == |Select(AtSite(ds, s), ClassOf, p[i].key)|)
            && SumValues(p) == |AtSite(ds, s)|
  {
    var rows := AtSite(ds, s);
    assert SiteGraphs(ds, s).pie.outcomePie == OutcomePie(rows);
    OutcomePieSpec(rows);
    forall c: Outcome ensures c in Column(rows, ClassOf) <==> HasOutcomeAt(ds, s, c) {
      OutcomeAtSiteIff(ds, s, c);
    }
  }

  /** The one-site pie data for the rows of a site: rows counted per outcome,
      outcomes in order of first occurrence. */
  function OutcomePie(rows: seq<LaunchRecord>): (p: seq<Entry<Outcome, nat>>)
    ensures Keys(p) == Unique(Column(rows, ClassOf))
  {
    GroupTotal(rows, ClassOf, Unique(Column(rows, ClassOf)), One)
  }

  lemma OutcomePieSpec(rows: seq<LaunchRecord>)
    ensures var p := OutcomePie(rows);
            && NoDup(Keys(p))
            && (forall c: Outcome :: c in Keys(p) <==> c in Column(rows, ClassOf))
            && (forall i :: 0 <= i < |p| ==> p[i].value == |Select(rows, ClassOf, p[i].key)|)
            && SumValues(p) == |rows|
  {
    var keys := Unique(Column(rows, ClassOf));
    var p := OutcomePie(rows);
    GroupTotalAt(rows, ClassOf, keys, One);
    forall i | 0 <= i < |p| ensures p[i].value == |Select(rows, ClassOf, p[i].key)| {
      TotalOneIsLength(Select(rows, ClassOf, keys[i]));
    }
    forall i | 0 <= i < |rows| ensures ClassOf(rows[i]) in keys {
      assert Column(rows, ClassOf)[i] == ClassOf(rows[i]);
    }
    GroupTotalConserves(rows, ClassOf, keys, One);
    TotalOneIsLength(rows);
  }

  /** One site selected: the slices come in the order in which their outcome
      first occurs among that site's launches. */
  lemma OneSitePieOrder(ds: Dataset, s: string)
    requires s != All
    ensures var p := SiteGraphs(ds, s).pie.outcomePie;
            var cs := Column(AtSite(ds, s), ClassOf);
            forall i, j :: 0 <= i < j < |p| ==>
              p[i].key in cs && p[j].key in cs && IndexOf(cs, p[i].key) < IndexOf(cs, p[j].key)
  {
    var cs := Column(AtSite(ds, s), ClassOf);
    var keys := Unique(cs);
    GroupTotalAt(AtSite(ds, s), ClassOf, keys, One);
    UniqueFirstAppearanceOrder(cs);
    forall i | 0 <= i < |keys| ensures keys[i] in cs {
      assert keys[i] in keys;
    }
  }

  /** Outcome `c` occurs among the launches from `s` exactly when it is in the
      class column of the site's rows. */
  lemma OutcomeAtSiteIff(ds: Dataset, s: string, c: Outcome)
    ensures HasOutcomeAt(ds, s, c) <==> c in Column(AtSite(ds, s), ClassOf)
  {
    var rows := AtSite(ds, s);
    if HasOutcomeAt(ds, s, c) {
      var i :| 0 <= i < |ds| && ds[i].site == s && ds[i].cls == c;
      SelectMember(ds, SiteOf, s, ds[i]);
      var j :| 0 <= j < |rows| && rows[j] == ds[i];
      assert Column(rows, ClassOf)[j] == c;
    }
    if c in Column(rows, ClassOf) {
      var j :| 0 <= j < |rows| && Column(rows, ClassOf)[j] == c;
      SelectMember(ds, SiteOf, s, rows[j]);
      var i :| 0 <= i < |ds| && ds[i] == rows[j];
      assert ds[i].site == s && ds[i].cls == c;
    }
  }

  /** The one-site bar data for the rows of a site. */
  function OutcomeBars(rows: seq<LaunchRecord>): (b: seq<Entry<string, nat>>)
    ensures |b| <= 2
    ensures forall i :: 0 <= i < |b| ==> b[i].key == "0" || b[i].key == "1"
  {
    Relabel(GroupTotal(rows, ClassOf, OutcomeKeys(rows), One))
  }

  /** Bar `i` of the one-site bar chart is outcome key `i`, as text, with the
      size of that outcome's group. */
  lemma OutcomeBarsAt(rows: seq<LaunchRecord>)
    ensures var keys := OutcomeKeys(rows);
            var b := OutcomeBars(rows);
            && |b| == |keys|
            && forall i :: 0 <= i < |b| ==>
                 b[i] == Entry(ClassText(keys[i]), |Select(rows, ClassOf, keys[i])|)
  {
    var keys := OutcomeKeys(rows);
    GroupTotalAt(rows, ClassOf, keys, One);
    forall i | 0 <= i < |keys| {
      TotalOneIsLength(Select(rows, ClassOf, keys[i]));
    }
  }

  /** The bar labels are "0" and/or "1", ascending, listed once each. */
  lemma OutcomeBarsSorted(rows: seq<LaunchRecord>)
    ensures var b := OutcomeBars(rows);
            && StrictlySorted(Keys(b))
            && (forall i :: 0 <= i < |b| ==> b[i].key == "0" || b[i].key == "1")
  {
    var keys := OutcomeKeys(rows);
    var g := GroupTotal(rows, ClassOf, keys, One);
    GroupTotalAt(rows, ClassOf, keys, One);
    RelabelSorted(g);
  }

  /** Relabelling ascending outcome keys gives ascending text labels. */
  lemma RelabelSorted(es: seq<Entry<Outcome, nat>>)
    requires forall i, j :: 0 <= i < j < |es| ==> es[i].key < es[j].key
    ensures StrictlySorted(Keys(Relabel(es)))
    ensures forall i :: 0 <= i < |es| ==> Relabel(es)[i].key == "0" || Relabel(es)[i].key == "1"
  {
    var r := Relabel(es);
    var ks := Keys(r);
    ZeroBeforeOne();
    forall i, j | 0 <= i < j < |ks| ensures Less(ks[i], ks[j]) {
      assert es[i].key == 0 && es[j].key == 1;
      assert r[i].key == ClassText(es[i].key) && r[j].key == ClassText(es[j].key);
    }
  }

  lemma ZeroBeforeOne()
    ensures Less("0", "1")
  {
    assert "0"[0] < "1"[0];
  }

  /** Label `ClassText(c)` appears exactly when outcome `c` occurs among the rows,
      and its bar is the number of rows with that outcome. */
  lemma OutcomeBarsLabels(rows: seq<LaunchRecord>)
    ensures var b := OutcomeBars(rows);
            && (forall c: Outcome :: ClassText(c) in Keys(b) <==> c in Column(rows, ClassOf))
            && (forall c: Outcome, i :: 0 <= i < |b| && b[i].key == ClassText(c) ==>
                  b[i].value == |Select(rows, ClassOf, c)|)
  {
    OutcomeBarsPresent(rows);
    OutcomeBarsCounts(rows);
  }

  lemma OutcomeBarsPresent(rows: seq<LaunchRecord>)
    ensures forall c: Outcome :: ClassText(c) in Keys(OutcomeBars(rows)) <==> c in Column(rows, ClassOf)
  {
    forall c: Outcome ensures ClassText(c) in Keys(OutcomeBars(rows)) <==> c in OutcomeKeys(rows) {
      OutcomeBarPresent(rows, c);
    }
  }

  /** Label `ClassText(c)` sits at the position of outcome `c` among the keys. */
  lemma OutcomeBarPresent(rows: seq<LaunchRecord>, c: Outcome)
    ensures ClassText(c) in Keys(OutcomeBars(rows)) <==> c in OutcomeKeys(rows)
  {
    var keys := OutcomeKeys(rows);
    var g := GroupTotal(rows, ClassOf, keys, One);
    var ks := Keys(OutcomeBars(rows));
    assert forall i :: 0 <= i < |ks| ==> ks[i] == ClassText(keys[i]);
    if ClassText(c) in ks {
      var i :| 0 <= i < |ks| && ks[i] == ClassText(c);
      assert keys[i] == c;
    }
    if c in keys {
      var i :| 0 <= i < |keys| && keys[i] == c;
      assert ks[i] == ClassText(c);
    }
  }

  lemma OutcomeBarsCounts(rows: seq<LaunchRecord>)
    ensures var b := OutcomeBars(rows);
            forall c: Outcome, i :: 0 <= i < |b| && b[i].key == ClassText(c) ==>
              b[i].value == |Select(rows, ClassOf, c)|
  {
    var keys := OutcomeKeys(rows);
    var b := OutcomeBars(rows);
    OutcomeBarsAt(rows);
    forall c: Outcome, i | 0 <= i < |b| && b[i].key == ClassText(c)
      ensures b[i].value == |Select(rows, ClassOf, c)|
    {
      assert keys[i] == c;
    }
  }

  /** One site selected: one bar per outcome that occurs among that site's
      launches, labelled "0" or "1" in that order, each the number of its
      launches with that outcome; the bars add up to the launches from the site. */
  lemma OneSiteBar(ds: Dataset, s: string)
    requires s != All
    ensures SiteGraphs(ds, s).bar.CountByOutcome?
    ensures var b := SiteGraphs(ds, s).bar.counts;
            && StrictlySorted(Keys(b))
            && (forall i :: 0 <= i < |b| ==> b[i].key == "0" || b[i].key == "1")
            && (forall c: Outcome :: ClassText(c) in Keys(b) <==> HasOutcomeAt(ds, s, c))
            && (forall c: Outcome, i :: 0 <= i < |b| && b[i].key == ClassText(c) ==>
                  b[i].value == |Select(AtSite(ds, s), ClassOf, c)|)
            && SumValues(b) == |AtSite(ds, s)|
  {
    var rows := AtSite(ds, s);
    assert SiteGraphs(ds, s).bar.counts == OutcomeBars(rows);
    OutcomeBarsSorted(rows);
    OutcomeBarsLabels(rows);
    forall c: Outcome ensures HasOutcomeAt(ds, s, c) <==> c in Column(rows, ClassOf) {
      OutcomeAtSiteIff(ds, s, c);
    }
    OutcomeBarsSum(rows);
  }

  /** The one-site bars add up to the number of rows grouped. */
  lemma OutcomeBarsSum(rows: seq<LaunchRecord>)
    ensures SumValues(OutcomeBars(rows)) == |rows|
  {
    var keys := OutcomeKeys(rows);
    forall i | 0 <= i < |rows| ensures ClassOf(rows[i]) in keys {
      assert Column(rows, ClassOf)[i] == ClassOf(rows[i]);
    }
    assert NoDup(keys);
    GroupTotalConserves(rows, ClassOf, keys, One);
    TotalOneIsLength(rows);
  }

  // ---------------------------------------------------------------------------
  // Payload scatter

  /** The rows with payload mass in [rg.lo, rg.hi], both ends included. */
  function InRange(rs: seq<LaunchRecord>, rg: PayloadRange): (rows: seq<LaunchRecord>)
    ensures forall r :: r in rows <==> r in rs && rg.lo <= r.mass <= rg.hi
  {
    Filter(rs, MassIn(rg))
  }

  lemma InRangeSpec(rs: seq<LaunchRecord>, rg: PayloadRange)
    ensures forall r :: r in InRange(rs, rg) <==> r in rs && rg.lo <= r.mass <= rg.hi
    ensures forall r :: multiset(InRange(rs, rg))[r] == if rg.lo <= r.mass <= rg.hi then multiset(rs)[r] else 0
    ensures IsSubseq(InRange(rs, rg), rs)
  {
    FilterIsSubseq(rs, MassIn(rg));
  }

  lemma AtSiteSpec(ds: Dataset, s: string)
    ensures forall r :: r in AtSite(ds, s) <==> r in ds && r.site == s
    ensures forall r :: multiset(AtSite(ds, s))[r] == if r.site == s then multiset(ds)[r] else 0
    ensures IsSubseq(AtSite(ds, s), ds)
  {
    FilterIsSubseq(ds, KeyIs(SiteOf, s));
  }

  /** The row mask `lo <= mass <= hi`. */
  function MassIn(rg: PayloadRange): LaunchRecord -> bool {
    (r: LaunchRecord) => rg.lo <= r.mass && r.mass <= rg.hi
  }

  /** Whether a record is plotted for the given selection. */
  predicate Shown(r: LaunchRecord, site: string, range: Option<PayloadRange>) {
    && (site == All || r.site == site)
    && (range.None? || range.value.lo <= r.mass <= range.value.hi)
  }

  /** The rows handed to the scatter chart, which plots payload mass against
      `class`, coloured by booster category. Every shown row of the table
      appears as often as in the table, no other row appears, and table
      order is kept. */
  function PayloadFrame(ds: Dataset, site: string, range: Option<PayloadRange>): (rows: seq<LaunchRecord>)
    ensures forall r :: r in rows <==> r in ds && Shown(r, site, range)
    ensures forall r :: multiset(rows)[r] == if Shown(r, site, range) then multiset(ds)[r] else 0
    ensures IsSubseq(rows, ds)
  {
    if site == All then
      if range.Some? then
        AllSitesInRange(ds, range.value);
        InRange(ds, range.value)
      else
        IsSubseqReflexive(ds);
        ds
    else if range.Some? then
      OneSiteInRange(ds, site, range.value);
      InRange(AtSite(ds, site), range.value)
    else
      OneSiteAnyMass(ds, site);
      AtSite(ds, site)
  }

  // The three filtering branches of `PayloadFrame`, each against `Shown`.

  lemma AllSitesInRange(ds: Dataset, rg: PayloadRange)
    ensures var rows := InRange(ds, rg);
            && (forall r :: r in rows <==> r in ds && Shown(r, All, Some(rg)))
            && (forall r :: multiset(rows)[r] == if Shown(r, All, Some(rg)) then multiset(ds)[r] else 0)
            && IsSubseq(rows, ds)
  {
    InRangeSpec(ds, rg);
  }

  lemma OneSiteAnyMass(ds: Dataset, site: string)
    requires site != All
    ensures var rows := AtSite(ds, site);
            && (forall r :: r in rows <==> r in ds && Shown(r, site, None))
            && (forall r :: multiset(rows)[r] == if Shown(r, site, None) then multiset(ds)[r] else 0)
            && IsSubseq(rows, ds)
  {
    AtSiteSpec(ds, site);
  }

  lemma OneSiteInRange(ds: Dataset, site: string, rg: PayloadRange)
    requires site != All
    ensures var rows := InRange(AtSite(ds, site), rg);
            && (forall r :: r in rows <==> r in ds && Shown(r, site, Some(rg)))
            && (forall r :: multiset(rows)[r] == if Shown(r, site, Some(rg)) then multiset(ds)[r] else 0)
            && IsSubseq(rows, ds)
  {
    var st := AtSite(ds, site);
    AtSiteSpec(ds, site);
    InRangeSpec(st, rg);
    IsSubseqTransitive(InRange(st, rg), st, ds);
  }

  /** Every site and no payload range: the whole table, unchanged. */
  lemma PayloadAllUnfiltered(ds: Dataset)
    ensures PayloadFrame(ds, All, None) == ds
  {
  }

  /** An empty range (lo > hi) plots nothing, whatever the site. */
  lemma PayloadEmptyRange(ds: Dataset, site: string, lo: int, hi: int)
    requires lo > hi
    ensures PayloadFrame(ds, site, Some(PayloadRange(lo, hi))) == []
  {
  }

  // ---------------------------------------------------------------------------
  // Unknown site

  /** A selected site with no launches gives an empty pie, an empty bar chart
      and an empty scatter for any payload range, rather than an error. */
  lemma UnknownSiteEmpty(ds: Dataset, s: string, range: Option<PayloadRange>)
    requires s != All && !HasSite(ds, s)
    ensures SiteGraphs(ds, s).pie == OutcomesAtSite([])
    ensures SiteGraphs(ds, s).bar == CountByOutcome([])
    ensures PayloadFrame(ds, s, range) == []
  {
    HasSiteIff(ds, s);
    SelectEmptyIff(ds, SiteOf, s);
  }

  // ---------------------------------------------------------------------------
  // Booster chart

  /** Mean outcome per booster version category, categories ascending. */
  function BoosterChart(ds: Dataset): (b: seq<Entry<string, real>>)
    ensures Keys(b) == SortedKeys(Column(ds, BoosterOf))
  {
    var keys := SortedKeys(Column(ds, BoosterOf));
    GroupMean(ds, BoosterOf, keys)
  }

  /** One bar per booster category, ascending by name, each the success rate
      of that category's launches, in [0, 1]. */
  lemma BoosterChartRates(ds: Dataset)
    ensures var b := BoosterChart(ds);
            && StrictlySorted(Keys(b))
            && (forall k :: k in Keys(b) <==> exists i :: 0 <= i < |ds| && ds[i].booster == k)
            && (forall i :: 0 <= i < |b| ==>
                  var g := Select(ds, BoosterOf, b[i].key);
                  && |g| > 0
                  && b[i].value == Successes(g) as real / |g| as real
                  && 0.0 <= b[i].value <= 1.0)
  {
    var keys := SortedKeys(Column(ds, BoosterOf));
    GroupMeanAt(ds, BoosterOf, keys);
    assert Keys(BoosterChart(ds)) == keys;
    forall k ensures k in keys <==> exists i :: 0 <= i < |ds| && ds[i].booster == k {
      if exists i :: 0 <= i < |ds| && ds[i].booster == k {
        var i :| 0 <= i < |ds| && ds[i].booster == k;
        assert Column(ds, BoosterOf)[i] == k;
      }
    }
  }
}
