# SpaceX launch dashboard: derived views

This project models the view logic of the SpaceX launch-records dashboard in
`spacex-dash-app.py`. The dashboard loads a table of launches. Each launch has
a launch site, a payload mass, a booster version category and an outcome
`class` (1 = success, 0 = failure). From that table and the user's current
selection it derives the data each chart draws:

- the **site selector options**: `ALL` followed by the distinct launch sites;
- the **site charts** (`site_graphs`):
  - with `ALL` selected, a pie of successes per site and a bar chart of
    success rate per site;
  - with one site selected, a pie of launches per outcome and a bar chart of
    launches per outcome label;
- the **payload scatter** (`payload_graphs`): the table restricted to the
  selected site (unless `ALL`) and to the inclusive payload range (unless
  there is none), in table order;
- the **booster chart**: the success rate per booster version category,
  computed once at start-up.

Each view is a pure Dafny function of the table (`Dataset`, a `seq` of
`LaunchRecord`) and of the selection. The project's lemmas prove what the
views contain.

Files and modules:

- `seqs.dfy` (`Seqs`): row filtering by a mask (`Filter`), first-appearance
  de-duplication (`Unique`, pandas' `unique()`), and the subsequence relation.
- `strings.dfy` (`StringOrder`): Python's string order (lexicographic by code
  point, a proper prefix first). It also builds the ascending, duplicate-free
  key index that a pandas `groupby` produces (`SortedKeys`).
- `launches.dfy` (`Launches`): the record type, the `class` column as the
  subset type `Outcome` (0 or 1), and column totals.
- `groupby.dfy` (`GroupBy`): selecting a group (`Select`) and reducing groups
  by sum or count (`GroupTotal`) or by mean (`GroupMean`). It also proves
  that group totals are conserved.
- `dashboard.dfy` (`Dashboard`): the views themselves and their properties.
- `samples.dfy` (`Samples`): a three-launch table worked through the `ALL`
  charts and the scatter.

Modelling decisions that follow the code:

- **Group order.** `groupby` sorts its keys. So the `ALL` pie and bar list
  sites in ascending string order, and the booster chart does the same for
  categories. `groupby('class')` lists outcome 0 before outcome 1. Only the
  option list uses `unique()`, which keeps first-appearance order.
- **Single-site pie.** Line 62 passes the site's rows to the pie with
  `names='class'` and no `values`. The chart library then counts rows per
  label, in first-appearance order. `OutcomesAtSite` holds those counts.
- **Single-site bar.** Line 60 counts the non-null `Launch Site` values per
  `class`. Every row has a site, so this is the size of each group. Line 61
  then turns the class into text: `Relabel` with `ClassText` (0 to "0",
  1 to "1").
- **Scatter.** The scatter's data is the filtered table itself (`PayloadFrame`).
  The chart reads mass (x), `class` (y) and booster category (colour) from it.
  The code's four branches (site or `ALL`, range or none) reduce to one
  predicate, `Shown`.
- **Unknown values.** A selected site that does not occur, and a range with
  `lo > hi`, give empty views, not errors.
- **Dead code.** Line 59 computes `spacex_st_success` and never uses it. It
  has no effect on any view, so it is not modelled.
- **A site named `ALL`.** The selector value `ALL` is compared with the string
  `'ALL'`. A real site with that name would appear twice in the option list
  and could not be selected on its own. `SiteOptionsNoDupIff` states when the
  option list is duplicate-free.

## Model

| member | source | states |
|---|---|---|
| `Dashboard.SiteGraphs` | spacex-dash-app.py:53-62 | `site_graphs`: the pie and bar are the per-site views exactly when `ALL` is selected. With `ALL` both list the sorted site keys. With one site the pie's outcome labels are distinct and there are at most two bars. The full contents are stated by `AllSitesPie`, `AllSitesBar`, `OneSitePie`, `OneSitePieOrder` and `OneSiteBar`. |
| `Dashboard.BoosterChart` | spacex-dash-app.py:47 | The booster chart's keys are the sorted booster categories. The values are stated by `BoosterChartRates`. |
| `GroupBy.GroupTotal` | spacex-dash-app.py:55-60 | A grouped sum or count has one entry per listed key, in key order. Its values are stated by `GroupTotalAt` and `GroupTotalConserves`. |
| `GroupBy.GroupMean` | spacex-dash-app.py:47-56 | A grouped mean has one entry per listed key, in key order. Its values are stated by `GroupMeanAt`. |
| `Dashboard.OutcomePie` | spacex-dash-app.py:62 | The one-site pie data lists the site's outcomes once each, in order of first occurrence. Its counts are stated by `OutcomePieSpec`. |
| `Dashboard.OutcomePieSpec` | spacex-dash-app.py:62 | The one-site pie's labels are distinct and are exactly the outcomes among the rows. Each slice counts the rows with its outcome, and the slices sum to the number of rows. |
| `Dashboard.OutcomeBars` | spacex-dash-app.py:60-61 | The one-site bar data has at most two bars, labelled "0" or "1". Order, presence and counts are stated by `OutcomeBarsAt`, `OutcomeBarsSorted`, `OutcomeBarsLabels` and `OutcomeBarsSum`. |
| `Dashboard.AtSite` | spacex-dash-app.py:78 | The site mask keeps exactly the table's rows launched from the site. Multiplicity and order are stated by `AtSiteSpec`. |
| `Dashboard.InRange` | spacex-dash-app.py:72-80 | The payload mask keeps exactly the rows with lo <= mass <= hi. Multiplicity and order are stated by `InRangeSpec`. |
| `Dashboard.SiteOptions` | spacex-dash-app.py:14-15 | The option list starts with `ALL`. After it, every site of the table appears exactly once and nothing else appears. |
| `Dashboard.SiteOptionsFirstAppearance` | spacex-dash-app.py:15 | The sites after `ALL` appear in the order of their first occurrence in the table. |
| `Dashboard.SiteOptionsNoDupIff` | spacex-dash-app.py:14-15 | The whole option list is duplicate-free exactly when no launch site is itself named `ALL`. |
| `Seqs.Unique` | spacex-dash-app.py:15 | `unique()` returns a duplicate-free list whose elements are exactly those of the column. |
| `Seqs.UniqueFirstAppearanceOrder` | spacex-dash-app.py:15 | `unique()` lists the values in the order of their first occurrence. |
| `StringOrder.SortedKeys` | spacex-dash-app.py:55 | A string grouping key index is strictly ascending (so no duplicates) and holds exactly the values of the key column. |
| `StringOrder.LessTotal` | spacex-dash-app.py:55 | Any two different keys are ordered, so sorting keys by this order is well-defined. |
| `StringOrder.LessTransitive` | spacex-dash-app.py:55 | The key order is transitive. |
| `Launches.TotalClassIsSuccesses` | spacex-dash-app.py:55 | Summing the 0/1 `class` column counts the successful launches. |
| `GroupBy.SelectEmptyIff` | spacex-dash-app.py:56 | A group is empty exactly when its key does not occur in the key column. |
| `GroupBy.GroupTotalAt` | spacex-dash-app.py:55 | Entry i of a grouped sum or count holds key i and the total of that key's rows. |
| `GroupBy.GroupTotalConserves` | spacex-dash-app.py:55 | If every row's key is listed exactly once, the entries of a grouped sum or count add up to the total over the whole table. |
| `GroupBy.GroupMeanAt` | spacex-dash-app.py:56 | Entry i of a grouped mean holds key i and successes / rows of that key's group. The group is non-empty and the value lies in [0, 1]. |
| `Dashboard.AllSitesPie` | spacex-dash-app.py:54-57 | With `ALL`, the pie has one slice per site, ascending, and no other slice. Each slice is the number of successful launches from its site, and the slices sum to the table's successes. |
| `Dashboard.AllSitesBar` | spacex-dash-app.py:56-57 | With `ALL`, the bars list the same sites as the pie, in the same order. Each bar is successes / launches of its site, with at least one launch, and lies in [0, 1]. |
| `Dashboard.OneSitePie` | spacex-dash-app.py:62 | With a site S, the pie has one slice per outcome occurring among S's launches, and no other slice. Each slice counts S's launches with that outcome, and the slices sum to S's launches. |
| `Dashboard.OneSitePieOrder` | spacex-dash-app.py:62 | The single-site slices appear in the order of each outcome's first occurrence among S's launches. |
| `Dashboard.OutcomeAtSiteIff` | spacex-dash-app.py:60-62 | Outcome c occurs among the launches from S exactly when c is in the `class` column of S's rows. |
| `Dashboard.OneSiteBar` | spacex-dash-app.py:60-62 | With a site S, the bars are labelled "0" and/or "1", ascending. Label "c" is present exactly when outcome c occurs among S's launches. Its bar counts those launches, and the bars sum to S's launches. |
| `Dashboard.OutcomeKeys` | spacex-dash-app.py:60 | `groupby('class')` keys are exactly the outcomes present, ascending. |
| `Dashboard.ClassText` | spacex-dash-app.py:61 | `astype(str)` maps outcome 0 to "0" and 1 to "1", and no other outcome to either. |
| `Dashboard.Relabel` | spacex-dash-app.py:61 | Turning the class into text keeps every count and its position, and the sum of counts. |
| `Dashboard.OutcomeBarsAt` | spacex-dash-app.py:60-61 | Bar i is the text of outcome key i together with the size of that outcome's group. |
| `Dashboard.OutcomeBarsSorted` | spacex-dash-app.py:60-61 | The single-site bar labels are "0" or "1", strictly ascending. |
| `Dashboard.OutcomeBarsLabels` | spacex-dash-app.py:60-61 | A label is present exactly when its outcome occurs among the rows, and its bar is that outcome's row count. |
| `Dashboard.OutcomeBarsSum` | spacex-dash-app.py:60 | The single-site counts sum to the number of rows grouped. |
| `Seqs.Filter` | spacex-dash-app.py:78 | A masked table keeps exactly the rows that satisfy the mask, each as often as in the table. |
| `Seqs.FilterIsSubseq` | spacex-dash-app.py:78 | A masked table is a subsequence of the table: its order is kept. |
| `Dashboard.AtSiteSpec` | spacex-dash-app.py:78 | The site restriction keeps exactly the site's rows, each as often as in the table, in table order. |
| `Dashboard.InRangeSpec` | spacex-dash-app.py:80 | The payload restriction keeps exactly the rows with lo <= mass <= hi (both ends included), each as often as before, in order. |
| `Dashboard.PayloadFrame` | spacex-dash-app.py:69-83 | The scatter rows are exactly the rows at the site (or every row for `ALL`) with mass in [lo, hi] (when a range is given). Each appears as often as in the table, and table order is kept. |
| `Dashboard.PayloadAllUnfiltered` | spacex-dash-app.py:76 | `ALL` and no range give the whole table unchanged. |
| `Dashboard.PayloadEmptyRange` | spacex-dash-app.py:72 | A range with lo > hi gives an empty scatter for every site selection. |
| `Dashboard.UnknownSiteEmpty` | spacex-dash-app.py:58-83 | A selected site without launches gives an empty pie, an empty bar chart and an empty scatter for every range, not an error. |
| `Dashboard.BoosterChartRates` | spacex-dash-app.py:47 | The booster chart has one bar per category, ascending, and no other bar. Each bar is successes / launches of its category, with at least one launch, and lies in [0, 1]. |
| `Samples.SampleAllSitesPie` | spacex-dash-app.py:55-57 | For the three-launch table, the `ALL` pie is [(CCAFS, 1), (KSC, 1)]. |
| `Samples.SampleAllSitesBar` | spacex-dash-app.py:56-57 | For the three-launch table, the `ALL` bars are [(CCAFS, 0.5), (KSC, 1.0)]. |
| `Samples.SampleScatter` | spacex-dash-app.py:78-80 | For the three-launch table, CCAFS with range [0, 1000] plots only the 500 kg launch. |
| `Samples.SampleAllSitesLiteral` | spacex-dash-app.py:54-57 | The same `ALL` pie and bars, stated on the literal three-launch table. |
| `Samples.SampleScatterLiteral` | spacex-dash-app.py:78-80 | The same scatter, stated on the literal three-launch table. |

## Left out

- CSV loading (line 11) is I/O. The table is a parameter of every view.
- The payload column's minimum and maximum (lines 12-13) and the slider's
  default `[0, 10000]` (line 42) are left out. They only configure the slider
  widget.
- Logging (line 16) and start-up (lines 86-87) are I/O.
- The page layout, dropdown, slider and callback registration (lines 19-48, 52,
  68) are UI plumbing. Each callback is modelled as a function of (table,
  selection).
- Figure construction is left out: `px.pie`, `px.bar` and `px.scatter` axes,
  colours and figure objects. Only the data handed to the charts is modelled.
  The pie's draw-time re-sorting of slices by size is therefore not modelled.
- Pandas data types and floating point are simplified. Payload mass is an
  unbounded `int`, not a float. Means are exact `real` quotients, not `float64`.
- Missing values (NaN) and null sites are left out. The table is taken as
  loaded and complete, so `count()` of the site column is the group's row
  count.
- A cleared site selector is not modelled. The dropdown (lines 27-30) does not
  set `clearable=False`, so it can be cleared, and both callbacks then receive
  `None`. The selection is a `string` here. A cleared selector behaves like a
  site that does not occur: it fails the `'ALL'` tests at lines 54 and 70, and
  the site masks at lines 59-62 and 78 match no row. `UnknownSiteEmpty` states
  that outcome: an empty pie, bar chart and scatter.
- Re-running a view on the same input gives the same output. This needs no
  lemma, because Dafny functions are deterministic.
