/**
 * The two fixed metric sets and the sector pairing (app/app.py,
 * calculate_financial_ratios, calculate_european_metrics and the data
 * preparation of create_comparison_chart). The chart drawing is not part
 * of this model. A set is an ordered list of (label, value) pairs, as the
 * Python dictionaries keep insertion order.
 */
module Ratios {
  import opened Wrappers
  import opened Facts
  import opened Resolver

  type Entry = (string, real)

  /** A quotient guarded against a zero denominator. */
  function SafeDiv(num: real, den: real): (r: real)
    ensures den != 0.0 ==> r * den == num
    ensures den == 0.0 ==> r == 0.0
  {
    if den != 0.0 then num / den else 0.0
  }

  /** `v` is num/den when den is non-zero, and 0 otherwise. */
  ghost predicate Guarded(v: real, num: real, den: real) {
    if den != 0.0 then v * den == num else v == 0.0
  }

  function Labels(entries: seq<Entry>): (ls: seq<string>)
    ensures |ls| == |entries|
    ensures forall i :: 0 <= i < |entries| ==> ls[i] == entries[i].0
  {
    seq(|entries|, i requires 0 <= i < |entries| => entries[i].0)
  }

  const RatioLabels: seq<string> :=
    ["CurrentRatio", "DebtToEquityRatio", "ReturnOnAssets", "ReturnOnEquity", "ProfitMargin"]
  const MetricLabels: seq<string> :=
    ["AssetTurnover", "WorkingCapital", "EquityRatio", "RevenueGrowth"]


  /** The seven lookups of calculate_financial_ratios all succeed. */
  predicate RatioLookupsSucceed(nodes: seq<RawNode>) {
    && Resolve(nodes, "CurrentAssets").Success?
    && Resolve(nodes, "CurrentLiabilities").Success?
    && Resolve(nodes, "Assets").Success?
    && Resolve(nodes, "Liabilities").Success?
    && Resolve(nodes, "Equity").Success?
    && Resolve(nodes, "ProfitLoss").Success?
    && Resolve(nodes, "Revenue").Success?
  }

  /** The six lookups of calculate_european_metrics all succeed. */
  predicate MetricLookupsSucceed(nodes: seq<RawNode>) {
    && Resolve(nodes, "Assets").Success?
    && Resolve(nodes, "CurrentAssets").Success?
    && Resolve(nodes, "Equity").Success?
    && Resolve(nodes, "Revenue").Success?
    && Resolve(nodes, "PriorYearRevenue").Success?
    && Resolve(nodes, "CurrentLiabilities").Success?
  }

  /** The five ratios from the resolved concept values (line order of the dictionary). */
  function RatioSet(currentAssets: real, currentLiabilities: real, totalAssets: real,
                    totalLiabilities: real, equity: real, netIncome: real, revenue: real)
    : (r: seq<Entry>)
    ensures Labels(r) == RatioLabels
    ensures Guarded(r[0].1, currentAssets, currentLiabilities)
    ensures Guarded(r[1].1, totalLiabilities, equity)
    ensures Guarded(r[2].1, netIncome, totalAssets)
    ensures Guarded(r[3].1, netIncome, equity)
    ensures Guarded(r[4].1, netIncome, revenue)
  {
    [("CurrentRatio", SafeDiv(currentAssets, currentLiabilities)),
     ("DebtToEquityRatio", SafeDiv(totalLiabilities, equity)),
     ("ReturnOnAssets", SafeDiv(netIncome, totalAssets)),
     ("ReturnOnEquity", SafeDiv(netIncome, equity)),
     ("ProfitMargin", SafeDiv(netIncome, revenue))]
  }

  /**
   * The four regional metrics; WorkingCapital is the plain difference and
   * may be negative.
   */
  function MetricSet(totalAssets: real, currentAssets: real, equity: real, revenue: real,
                     priorYearRevenue: real, currentLiabilities: real)
    : (r: seq<Entry>)
    ensures Labels(r) == MetricLabels
    ensures Guarded(r[0].1, revenue, totalAssets)
    ensures r[1].1 + currentLiabilities == currentAssets
    ensures Guarded(r[2].1, equity, totalAssets)
    ensures Guarded(r[3].1, revenue - priorYearRevenue, priorYearRevenue)
  {
    [("AssetTurnover", SafeDiv(revenue, totalAssets)),
     ("WorkingCapital", currentAssets - currentLiabilities),
     ("EquityRatio", SafeDiv(equity, totalAssets)),
     ("RevenueGrowth", SafeDiv(revenue - priorYearRevenue, priorYearRevenue))]
  }

  /** The resolved value of a concept whose lookup succeeds. */
  function Value(nodes: seq<RawNode>, concept: string): real
    requires Resolve(nodes, concept).Success?
  {
    Resolve(nodes, concept).value
  }

  /**
   * calculate_financial_ratios: the seven lookups, then the ratios. It fails
   * exactly when one of the lookups does.
   */
  function FinancialRatios(nodes: seq<RawNode>): (r: Result<seq<Entry>, KeyError>)
    ensures r.Success? <==> RatioLookupsSucceed(nodes)
    ensures r.Failure? ==> r.error == KeyError("tag")
    ensures r.Success? ==> r.value == RatioSet(
      Value(nodes, "CurrentAssets"), Value(nodes, "CurrentLiabilities"), Value(nodes, "Assets"),
      Value(nodes, "Liabilities"), Value(nodes, "Equity"), Value(nodes, "ProfitLoss"),
      Value(nodes, "Revenue"))
  {
    var currentAssets :- Resolve(nodes, "CurrentAssets");
    var currentLiabilities :- Resolve(nodes, "CurrentLiabilities");
    var totalAssets :- Resolve(nodes, "Assets");
    var totalLiabilities :- Resolve(nodes, "Liabilities");
    var equity :- Resolve(nodes, "Equity");
    var netIncome :- Resolve(nodes, "ProfitLoss");
    var revenue :- Resolve(nodes, "Revenue");
    Success(RatioSet(currentAssets, currentLiabilities, totalAssets, totalLiabilities,
                     equity, netIncome, revenue))
  }

  /**
   * calculate_european_metrics: the same discipline over its own six
   * lookups (CurrentLiabilities is looked up last, inside the dictionary).
   */
  function EuropeanMetrics(nodes: seq<RawNode>): (r: Result<seq<Entry>, KeyError>)
    ensures r.Success? <==> MetricLookupsSucceed(nodes)
    ensures r.Failure? ==> r.error == KeyError("tag")
    ensures r.Success? ==> r.value == MetricSet(
      Value(nodes, "Assets"), Value(nodes, "CurrentAssets"), Value(nodes, "Equity"),
      Value(nodes, "Revenue"), Value(nodes, "PriorYearRevenue"), Value(nodes, "CurrentLiabilities"))
  {
    var totalAssets :- Resolve(nodes, "Assets");
    var currentAssets :- Resolve(nodes, "CurrentAssets");
    var equity :- Resolve(nodes, "Equity");
    var revenue :- Resolve(nodes, "Revenue");
    var priorYearRevenue :- Resolve(nodes, "PriorYearRevenue");
    var currentLiabilities :- Resolve(nodes, "CurrentLiabilities");
    Success(MetricSet(totalAssets, currentAssets, equity, revenue, priorYearRevenue,
                      currentLiabilities))
  }

  /** When every node is tagged, both sets are always computed. */
  lemma TaggedNodesNeverFail(nodes: seq<RawNode>)
    requires forall j :: 0 <= j < |nodes| ==> nodes[j].tag.Some?
    ensures FinancialRatios(nodes).Success?
    ensures EuropeanMetrics(nodes).Success?
  {
    AllTaggedNeverFails(nodes, "CurrentAssets");
    AllTaggedNeverFails(nodes, "CurrentLiabilities");
    AllTaggedNeverFails(nodes, "Assets");
    AllTaggedNeverFails(nodes, "Liabilities");
    AllTaggedNeverFails(nodes, "Equity");
    AllTaggedNeverFails(nodes, "ProfitLoss");
    AllTaggedNeverFails(nodes, "Revenue");
    AllTaggedNeverFails(nodes, "PriorYearRevenue");
  }

  /** Python's `sector_avg.get(label, 0)`. */
  function SectorValue(sectorAvg: map<string, real>, key: string): real {
    if key in sectorAvg then sectorAvg[key] else 0.0
  }

  /**
   * The three parallel series the comparison chart is drawn from: the
   * computed labels, their values, and the sector benchmark for each label.
   */
  function ComparisonSeries(computed: seq<Entry>, sectorAvg: map<string, real>)
    : (r: (seq<string>, seq<real>, seq<real>))
    ensures |r.0| == |r.1| == |r.2| == |computed|
    ensures forall i :: 0 <= i < |computed| ==>
      && r.0[i] == computed[i].0
      && r.1[i] == computed[i].1
      && (computed[i].0 in sectorAvg ==> r.2[i] == sectorAvg[computed[i].0])
      && (computed[i].0 !in sectorAvg ==> r.2[i] == 0.0)
  {
    var labels := Labels(computed);
    (labels,
     seq(|computed|, i requires 0 <= i < |computed| => computed[i].1),
     seq(|labels|, i requires 0 <= i < |labels| => SectorValue(sectorAvg, labels[i])))
  }

  /** Benchmarks for labels that were not computed have no effect. */
  lemma SectorExtraKeysIgnored(computed: seq<Entry>, sectorAvg: map<string, real>, extra: map<string, real>)
    requires forall k :: k in extra ==> k !in Labels(computed)
    ensures ComparisonSeries(computed, sectorAvg + extra) == ComparisonSeries(computed, sectorAvg)
  {
    var a := ComparisonSeries(computed, sectorAvg + extra);
    var b := ComparisonSeries(computed, sectorAvg);
    forall i | 0 <= i < |computed| ensures a.2[i] == b.2[i] {
      assert Labels(computed)[i] == computed[i].0;
      assert computed[i].0 in Labels(computed);
    }
    assert a.2 == b.2;
  }
}
