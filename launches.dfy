/** The launch table: one record per launch, with the four columns the
    dashboard reads (`Launch Site`, `Payload Mass (kg)`,
    `Booster Version Category`, `class`), and the column reductions its
    charts use. */
module Launches {

  /** The `class` column: 1 for a successful launch, 0 for a failed one. */
  type Outcome = c: int | 0 <= c <= 1

  datatype LaunchRecord = LaunchRecord(site: string, mass: int, booster: string, cls: Outcome)

  /** The table as loaded, in file order. */
  type Dataset = seq<LaunchRecord>

  // Column accessors, used as grouping keys. `ClassOf` reads `class` as a
  // key (a value of type `Outcome`, compared for equality); `ClassValue`
  // below reads the same column as a weight (a `nat`, summed).
  function SiteOf(r: LaunchRecord): string { r.site }
  function BoosterOf(r: LaunchRecord): string { r.booster }
  function ClassOf(r: LaunchRecord): Outcome { r.cls }

  // Per-row weights: summing `ClassValue` is `sum()` of the `class` column,
  // summing `One` is `count()` of a non-null column.
  function ClassValue(r: LaunchRecord): nat { ClassOf(r) }
  function One(r: LaunchRecord): nat { 1 }

  /** Sum of the weight `w` over the rows `rs`. */
  function Total(rs: seq<LaunchRecord>, w: LaunchRecord -> nat): nat {
    if rs == [] then 0 else w(rs[0]) + Total(rs[1..], w)
  }

  /** Number of successful launches among `rs`: an independent, row-counting
      reading of what summing the `class` column means. */
  function Successes(rs: seq<LaunchRecord>): (n: nat)
    ensures n <= |rs|
  {
    if rs == [] then 0 else (if rs[0].cls == 1 then 1 else 0) + Successes(rs[1..])
  }

  /** Summing the 0/1 `class` column counts the successful launches. */
  lemma {:induction false} TotalClassIsSuccesses(rs: seq<LaunchRecord>)
    ensures Total(rs, ClassValue) == Successes(rs)
  {
    if rs != [] {
      TotalClassIsSuccesses(rs[1..]);
    }
  }

  /** Counting rows gives the number of rows. */
  lemma {:induction false} TotalOneIsLength(rs: seq<LaunchRecord>)
    ensures Total(rs, One) == |rs|
  {
    if rs != [] {
      TotalOneIsLength(rs[1..]);
    }
  }

  /** `Total` of a row put in front of a table. */
  lemma TotalCons(r: LaunchRecord, rs: seq<LaunchRecord>, w: LaunchRecord -> nat)
    ensures Total([r] + rs, w) == w(r) + Total(rs, w)
  {
    assert ([r] + rs)[1..] == rs;
  }
}
