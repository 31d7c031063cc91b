/**
 * Worked inputs: the first-match rule on small node lists, the number
 * coercion on typical texts, and both metric sets on a complete report.
 */
module Scenarios {
  import opened Wrappers
  import opened Text
  import opened Numbers
  import opened Facts
  import opened Resolver
  import opened Ratios

  /** A child node with a tag, a text and an empty attribute map. */
  function Node(tag: string, text: string): RawNode {
    RawNode(Some(tag), Some(text), Some(map[]))
  }

  lemma LowerWords()
    ensures Lower("Assets") == "assets"
    ensures Lower("Current") == "current"
    ensures Lower("Liabilities") == "liabilities"
  {
  }

  lemma LowerMoreWords()
    ensures Lower("Equity") == "equity"
    ensures Lower("ProfitLoss") == "profitloss"
    ensures Lower("Revenue") == "revenue"
    ensures Lower("PriorYear") == "prioryear"
  {
  }

  lemma LowerNames()
    ensures Lower("Assets") == "assets"
    ensures Lower("CurrentAssets") == "currentassets"
    ensures Lower("CurrentLiabilities") == "currentliabilities"
    ensures Lower("Liabilities") == "liabilities"
    ensures Lower("Equity") == "equity"
    ensures Lower("ProfitLoss") == "profitloss"
    ensures Lower("Revenue") == "revenue"
    ensures Lower("PriorYearRevenue") == "prioryearrevenue"
  {
    LowerWords();
    LowerMoreWords();
    LowerAppend("Current", "Assets");
    LowerAppend("Current", "Liabilities");
    LowerAppend("PriorYear", "Revenue");
    assert "Current" + "Assets" == "CurrentAssets";
    assert "Current" + "Liabilities" == "CurrentLiabilities";
    assert "PriorYear" + "Revenue" == "PriorYearRevenue";
    assert "current" + "assets" == "currentassets";
    assert "current" + "liabilities" == "currentliabilities";
    assert "prioryear" + "revenue" == "prioryearrevenue";
  }

  /** Each name matches the tag of the same name. */
  lemma NamesMatchThemselves()
    ensures Matches(Node("Assets", ""), "Assets")
    ensures Matches(Node("CurrentAssets", ""), "CurrentAssets")
    ensures Matches(Node("CurrentLiabilities", ""), "CurrentLiabilities")
    ensures Matches(Node("Liabilities", ""), "Liabilities")
    ensures Matches(Node("Equity", ""), "Equity")
    ensures Matches(Node("ProfitLoss", ""), "ProfitLoss")
    ensures Matches(Node("Revenue", ""), "Revenue")
    ensures Matches(Node("PriorYearRevenue", ""), "PriorYearRevenue")
  {
    ContainsSelfAndEmpty(Lower("Assets"));
    ContainsSelfAndEmpty(Lower("CurrentAssets"));
    ContainsSelfAndEmpty(Lower("CurrentLiabilities"));
    ContainsSelfAndEmpty(Lower("Liabilities"));
    ContainsSelfAndEmpty(Lower("Equity"));
    ContainsSelfAndEmpty(Lower("ProfitLoss"));
    ContainsSelfAndEmpty(Lower("Revenue"));
    ContainsSelfAndEmpty(Lower("PriorYearRevenue"));
  }

  /**
   * The complete report in the order its concepts are usually listed:
   * Assets, CurrentAssets, CurrentLiabilities, Liabilities, Equity,
   * ProfitLoss, Revenue, PriorYearRevenue.
   */
  function ListedReport(): seq<RawNode> {
    [Node("Assets", "1000"), Node("CurrentAssets", "400"),
     Node("CurrentLiabilities", "200"), Node("Liabilities", "600"),
     Node("Equity", "400"), Node("ProfitLoss", "50"),
     Node("Revenue", "500"), Node("PriorYearRevenue", "400")]
  }

  /** The same report with Liabilities placed before CurrentLiabilities. */
  function ExactFirstReport(): seq<RawNode> {
    [Node("Assets", "1000"), Node("CurrentAssets", "400"),
     Node("Liabilities", "600"), Node("CurrentLiabilities", "200"),
     Node("Equity", "400"), Node("ProfitLoss", "50"),
     Node("Revenue", "500"), Node("PriorYearRevenue", "400")]
  }

  // Which lower-cased tags do not contain which lower-cased names.

  lemma NotInCurrentAssets()
    ensures !Contains("assets", "currentassets")
  {
    ContainsNotShorter("assets", "currentassets");
  }

  lemma NotInCurrentLiabilities()
    ensures !Contains("assets", "currentliabilities")
    ensures !Contains("currentassets", "currentliabilities")
    ensures !Contains("liabilities", "currentliabilities")
  {
    ContainsNotShorter("assets", "currentliabilities");
    ContainsNotShorter("currentassets", "currentliabilities");
    ContainsNotShorter("liabilities", "currentliabilities");
  }

  lemma NotInLiabilities()
    ensures !Contains("assets", "liabilities")
    ensures !Contains("currentassets", "liabilities")
  {
    ContainsNotShorter("assets", "liabilities");
    ContainsNeedsChar("currentassets", "liabilities", 'l');
  }

  lemma NotInEquity()
    ensures !Contains("assets", "equity")
    ensures !Contains("currentassets", "equity")
    ensures !Contains("currentliabilities", "equity")
    ensures !Contains("liabilities", "equity")
  {
    ContainsNotShorter("assets", "equity");
    ContainsNeedsChar("currentassets", "equity", 'q');
    ContainsNeedsChar("currentliabilities", "equity", 'q');
    ContainsNeedsChar("liabilities", "equity", 'q');
  }

  lemma NotInProfitLoss()
    ensures !Contains("assets", "profitloss")
    ensures !Contains("currentassets", "profitloss")
    ensures !Contains("currentliabilities", "profitloss")
    ensures !Contains("liabilities", "profitloss")
    ensures !Contains("equity", "profitloss")
  {
    ContainsNotShorter("assets", "profitloss");
    ContainsNeedsChar("currentassets", "profitloss", 'p');
    ContainsNeedsChar("currentliabilities", "profitloss", 'p');
    ContainsNeedsChar("liabilities", "profitloss", 'p');
    ContainsNotShorter("equity", "profitloss");
  }

  lemma NotInRevenue()
    ensures !Contains("assets", "revenue")
    ensures !Contains("currentassets", "revenue")
    ensures !Contains("currentliabilities", "revenue")
    ensures !Contains("liabilities", "revenue")
    ensures !Contains("equity", "revenue")
    ensures !Contains("profitloss", "revenue")
  {
    ContainsNotShorter("assets", "revenue");
    ContainsNeedsChar("currentassets", "revenue", 'v');
    ContainsNeedsChar("currentliabilities", "revenue", 'v');
    ContainsNeedsChar("liabilities", "revenue", 'v');
    ContainsNotShorter("equity", "revenue");
    ContainsNeedsChar("profitloss", "revenue", 'v');
  }

  lemma NotInPriorYearRevenue()
    ensures !Contains("assets", "prioryearrevenue")
    ensures !Contains("currentassets", "prioryearrevenue")
    ensures !Contains("currentliabilities", "prioryearrevenue")
    ensures !Contains("liabilities", "prioryearrevenue")
    ensures !Contains("equity", "prioryearrevenue")
    ensures !Contains("profitloss", "prioryearrevenue")
    ensures !Contains("revenue", "prioryearrevenue")
  {
    ContainsNotShorter("assets", "prioryearrevenue");
    ContainsNotShorter("currentassets", "prioryearrevenue");
    ContainsNeedsChar("currentliabilities", "prioryearrevenue", 'p');
    ContainsNotShorter("liabilities", "prioryearrevenue");
    ContainsNotShorter("equity", "prioryearrevenue");
    ContainsNotShorter("profitloss", "prioryearrevenue");
    ContainsNotShorter("revenue", "prioryearrevenue");
  }

  lemma TextValuesLarge()
    ensures TextValue(Some("1000")) == 1000.0
    ensures TextValue(Some("600")) == 600.0
    ensures TextValue(Some("500")) == 500.0
  {
    assert NatDigits(1000) == "1000" by {
      assert NatDigits(10) == "10";
      assert NatDigits(100) == "100";
    }
    assert NatDigits(600) == "600";
    assert NatDigits(500) == "500";
    CoerceGroupedNatural(1000);
    CoerceGroupedNatural(600);
    CoerceGroupedNatural(500);
  }

  lemma TextValuesSmall()
    ensures TextValue(Some("400")) == 400.0
    ensures TextValue(Some("200")) == 200.0
    ensures TextValue(Some("50")) == 50.0
  {
    assert NatDigits(400) == "400";
    assert NatDigits(200) == "200";
    assert NatDigits(50) == "50";
    CoerceGroupedNatural(400);
    CoerceGroupedNatural(200);
    CoerceGroupedNatural(50);
  }

  lemma ListedValues(r: seq<RawNode>)
    requires r == ListedReport()
    ensures TextValue(r[0].text) == 1000.0 && TextValue(r[1].text) == 400.0
    ensures TextValue(r[2].text) == 200.0 && TextValue(r[3].text) == 600.0
    ensures TextValue(r[4].text) == 400.0 && TextValue(r[5].text) == 50.0
    ensures TextValue(r[6].text) == 500.0 && TextValue(r[7].text) == 400.0
  {
    assert r[0].text == Some("1000");
    assert r[1].text == Some("400");
    assert r[2].text == Some("200");
    assert r[3].text == Some("600");
    assert r[4].text == Some("400");
    assert r[5].text == Some("50");
    assert r[6].text == Some("500");
    assert r[7].text == Some("400");
    TextValuesLarge();
    TextValuesSmall();
  }

  lemma ExactFirstValues(r: seq<RawNode>)
    requires r == ExactFirstReport()
    ensures TextValue(r[0].text) == 1000.0 && TextValue(r[1].text) == 400.0
    ensures TextValue(r[2].text) == 600.0 && TextValue(r[3].text) == 200.0
    ensures TextValue(r[4].text) == 400.0 && TextValue(r[5].text) == 50.0
    ensures TextValue(r[6].text) == 500.0 && TextValue(r[7].text) == 400.0
  {
    assert r[0].text == Some("1000");
    assert r[1].text == Some("400");
    assert r[2].text == Some("600");
    assert r[3].text == Some("200");
    assert r[4].text == Some("400");
    assert r[5].text == Some("50");
    assert r[6].text == Some("500");
    assert r[7].text == Some("400");
    TextValuesLarge();
    TextValuesSmall();
  }

  lemma ListedAssetsMatches(r: seq<RawNode>)
    requires r == ListedReport()
    ensures FirstMatchAt(r, "Assets", 0)
    ensures FirstMatchAt(r, "CurrentAssets", 1)
  {
    LowerNames();
    NamesMatchThemselves();
    NotInCurrentAssets();
  }

  /** Liabilities is first matched by CurrentLiabilities, which comes before it. */
  lemma ListedLiabilitiesMatches(r: seq<RawNode>)
    requires r == ListedReport()
    ensures FirstMatchAt(r, "CurrentLiabilities", 2)
    ensures FirstMatchAt(r, "Liabilities", 2)
  {
    LowerNames();
    NamesMatchThemselves();
    NotInCurrentLiabilities();
    NotInLiabilities();
    assert OccursAt("currentliabilities", "liabilities", 7) by {
      assert "currentliabilities"[7..18] == "liabilities";
    }
  }

  lemma ExactFirstAssetsMatches(r: seq<RawNode>)
    requires r == ExactFirstReport()
    ensures FirstMatchAt(r, "Assets", 0)
    ensures FirstMatchAt(r, "CurrentAssets", 1)
  {
    LowerNames();
    NamesMatchThemselves();
    NotInCurrentAssets();
  }

  /** With Liabilities ahead, each liabilities name finds its own node. */
  lemma ExactFirstLiabilitiesMatches(r: seq<RawNode>)
    requires r == ExactFirstReport()
    ensures FirstMatchAt(r, "Liabilities", 2)
    ensures FirstMatchAt(r, "CurrentLiabilities", 3)
  {
    LowerNames();
    NamesMatchThemselves();
    NotInCurrentLiabilities();
    NotInLiabilities();
  }

  lemma EquityFirstAt(r: seq<RawNode>)
    requires r == ListedReport() || r == ExactFirstReport()
    ensures FirstMatchAt(r, "Equity", 4)
  {
    LowerNames();
    NamesMatchThemselves();
    NotInEquity();
  }

  lemma ProfitLossFirstAt(r: seq<RawNode>)
    requires r == ListedReport() || r == ExactFirstReport()
    ensures FirstMatchAt(r, "ProfitLoss", 5)
  {
    LowerNames();
    NamesMatchThemselves();
    NotInProfitLoss();
  }

  lemma RevenueFirstAt(r: seq<RawNode>)
    requires r == ListedReport() || r == ExactFirstReport()
    ensures FirstMatchAt(r, "Revenue", 6)
  {
    LowerNames();
    NamesMatchThemselves();
    NotInRevenue();
  }

  lemma PriorYearRevenueFirstAt(r: seq<RawNode>)
    requires r == ListedReport() || r == ExactFirstReport()
    ensures FirstMatchAt(r, "PriorYearRevenue", 7)
  {
    LowerNames();
    NamesMatchThemselves();
    NotInPriorYearRevenue();
  }

  lemma ReportLookups(r: seq<RawNode>, swapped: bool)
    requires r == if swapped then ExactFirstReport() else ListedReport()
    ensures Resolve(r, "Assets") == Success(1000.0)
    ensures Resolve(r, "CurrentAssets") == Success(400.0)
    ensures Resolve(r, "CurrentLiabilities") == Success(200.0)
    ensures Resolve(r, "Liabilities") == Success(if swapped then 600.0 else 200.0)
    ensures Resolve(r, "Equity") == Success(400.0)
    ensures Resolve(r, "ProfitLoss") == Success(50.0)
    ensures Resolve(r, "Revenue") == Success(500.0)
    ensures Resolve(r, "PriorYearRevenue") == Success(400.0)
  {
    if swapped {
      ExactFirstValues(r);
      ExactFirstAssetsMatches(r);
      ExactFirstLiabilitiesMatches(r);
      ResolveFirstMatch(r, "Liabilities", 2);
      ResolveFirstMatch(r, "CurrentLiabilities", 3);
    } else {
      ListedValues(r);
      ListedAssetsMatches(r);
      ListedLiabilitiesMatches(r);
      ResolveFirstMatch(r, "CurrentLiabilities", 2);
      ResolveFirstMatch(r, "Liabilities", 2);
    }
    ResolveFirstMatch(r, "Assets", 0);
    ResolveFirstMatch(r, "CurrentAssets", 1);
    EquityFirstAt(r);
    ProfitLossFirstAt(r);
    RevenueFirstAt(r);
    PriorYearRevenueFirstAt(r);
    ResolveFirstMatch(r, "Equity", 4);
    ResolveFirstMatch(r, "ProfitLoss", 5);
    ResolveFirstMatch(r, "Revenue", 6);
    ResolveFirstMatch(r, "PriorYearRevenue", 7);
  }

  /**
   * With each exact tag ahead of the longer tags that contain it, the
   * report gives CurrentRatio 2, DebtToEquityRatio 1.5, ReturnOnAssets
   * 0.05, ReturnOnEquity 0.125, ProfitMargin 0.1, AssetTurnover 0.5,
   * WorkingCapital 200, EquityRatio 0.4 and RevenueGrowth 0.25.
   */
  lemma ExactFirstReportMetrics(r: seq<RawNode>)
    requires r == ExactFirstReport()
    ensures FinancialRatios(r) == Success([
      ("CurrentRatio", 2.0), ("DebtToEquityRatio", 1.5), ("ReturnOnAssets", 0.05),
      ("ReturnOnEquity", 0.125), ("ProfitMargin", 0.1)])
    ensures EuropeanMetrics(r) == Success([
      ("AssetTurnover", 0.5), ("WorkingCapital", 200.0), ("EquityRatio", 0.4),
      ("RevenueGrowth", 0.25)])
  {
    ReportLookups(r, true);
  }

  /**
   * In the listed order the Liabilities lookup stops at CurrentLiabilities
   * (200), so DebtToEquityRatio is 0.5; the other ratios are unchanged.
   */
  lemma ListedReportMetrics(r: seq<RawNode>)
    requires r == ListedReport()
    ensures FinancialRatios(r) == Success([
      ("CurrentRatio", 2.0), ("DebtToEquityRatio", 0.5), ("ReturnOnAssets", 0.05),
      ("ReturnOnEquity", 0.125), ("ProfitMargin", 0.1)])
    ensures EuropeanMetrics(r) == Success([
      ("AssetTurnover", 0.5), ("WorkingCapital", 200.0), ("EquityRatio", 0.4),
      ("RevenueGrowth", 0.25)])
  {
    ReportLookups(r, false);
  }
}
