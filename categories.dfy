/**
 * The page's three statement categories (app/static/script.js,
 * isBalanceSheetFact, isIncomeStatementFact and isCashFlowFact): a concept
 * belongs to a category iff it contains one of the category's keywords,
 * compared case-sensitively.
 */
module Categories {
  import opened Text

  const BalanceSheetKeywords: seq<string> := ["Assets", "Liabilities", "Equity", "Inventory", "Receivables"]
  const IncomeStatementKeywords: seq<string> := ["Revenue", "Expenses", "Income", "Profit", "Loss"]
  const CashFlowKeywords: seq<string> := ["CashFlow", "Operating", "Investing", "Financing"]

  /** `keywords.some(keyword => concept.includes(keyword))`. */
  function AnyKeyword(concept: string, keywords: seq<string>): (b: bool)
    ensures b <==> exists i :: 0 <= i < |keywords| && Contains(concept, keywords[i])
  {
    if keywords == [] then false
    else Contains(concept, keywords[0]) || AnyKeyword(concept, keywords[1..])
  }

  function IsBalanceSheetFact(concept: string): (b: bool)
    ensures b <==> Contains(concept, "Assets") || Contains(concept, "Liabilities")
                   || Contains(concept, "Equity") || Contains(concept, "Inventory")
                   || Contains(concept, "Receivables")
  {
    assert BalanceSheetKeywords[0] == "Assets";
    assert BalanceSheetKeywords[1] == "Liabilities";
    assert BalanceSheetKeywords[2] == "Equity";
    assert BalanceSheetKeywords[3] == "Inventory";
    assert BalanceSheetKeywords[4] == "Receivables";
    AnyKeyword(concept, BalanceSheetKeywords)
  }

  function IsIncomeStatementFact(concept: string): (b: bool)
    ensures b <==> Contains(concept, "Revenue") || Contains(concept, "Expenses")
                   || Contains(concept, "Income") || Contains(concept, "Profit")
                   || Contains(concept, "Loss")
  {
    assert IncomeStatementKeywords[0] == "Revenue";
    assert IncomeStatementKeywords[1] == "Expenses";
    assert IncomeStatementKeywords[2] == "Income";
    assert IncomeStatementKeywords[3] == "Profit";
    assert IncomeStatementKeywords[4] == "Loss";
    AnyKeyword(concept, IncomeStatementKeywords)
  }

  function IsCashFlowFact(concept: string): (b: bool)
    ensures b <==> Contains(concept, "CashFlow") || Contains(concept, "Operating")
                   || Contains(concept, "Investing") || Contains(concept, "Financing")
  {
    assert CashFlowKeywords[0] == "CashFlow";
    assert CashFlowKeywords[1] == "Operating";
    assert CashFlowKeywords[2] == "Investing";
    assert CashFlowKeywords[3] == "Financing";
    AnyKeyword(concept, CashFlowKeywords)
  }

  /** A concept that mentions a balance-sheet keyword anywhere is a balance-sheet fact. */
  lemma BalanceSheetKeywordClassifies(prefix: string, keyword: string, suffix: string)
    requires keyword in BalanceSheetKeywords
    ensures IsBalanceSheetFact(prefix + keyword + suffix)
  {
    ContainsWithin(prefix, keyword, suffix);
  }

  /** A concept that mentions an income-statement keyword anywhere is an income-statement fact. */
  lemma IncomeStatementKeywordClassifies(prefix: string, keyword: string, suffix: string)
    requires keyword in IncomeStatementKeywords
    ensures IsIncomeStatementFact(prefix + keyword + suffix)
  {
    ContainsWithin(prefix, keyword, suffix);
  }

  /** A concept that mentions a cash-flow keyword anywhere is a cash-flow fact. */
  lemma CashFlowKeywordClassifies(prefix: string, keyword: string, suffix: string)
    requires keyword in CashFlowKeywords
    ensures IsCashFlowFact(prefix + keyword + suffix)
  {
    ContainsWithin(prefix, keyword, suffix);
  }

  /**
   * The categories overlap: a concept naming income from operating
   * activities is shown both as an income-statement and as a cash-flow fact.
   */
  lemma CategoriesOverlap(concept: string)
    requires concept == "IncomeFromOperatingActivities"
    ensures IsIncomeStatementFact(concept)
    ensures IsCashFlowFact(concept)
  {
    assert OccursAt(concept, "Income", 0) by { assert concept[0..6] == "Income"; }
    assert OccursAt(concept, "Operating", 10) by { assert concept[10..19] == "Operating"; }
  }

  /** Matching is case-sensitive: an all-lower-case concept is in no category. */
  lemma LowerCaseConceptUnclassified(concept: string)
    requires forall i :: 0 <= i < |concept| ==> !('A' <= concept[i] <= 'Z')
    ensures !IsBalanceSheetFact(concept)
    ensures !IsIncomeStatementFact(concept)
    ensures !IsCashFlowFact(concept)
  {
    assert 'A' !in concept && 'C' !in concept && 'E' !in concept && 'F' !in concept;
    assert 'I' !in concept && 'L' !in concept && 'O' !in concept && 'P' !in concept;
    assert 'R' !in concept;
    ContainsNeedsChar(concept, "Assets", 'A');
    ContainsNeedsChar(concept, "Liabilities", 'L');
    ContainsNeedsChar(concept, "Equity", 'E');
    ContainsNeedsChar(concept, "Inventory", 'I');
    ContainsNeedsChar(concept, "Receivables", 'R');
    ContainsNeedsChar(concept, "Revenue", 'R');
    ContainsNeedsChar(concept, "Expenses", 'E');
    ContainsNeedsChar(concept, "Income", 'I');
    ContainsNeedsChar(concept, "Profit", 'P');
    ContainsNeedsChar(concept, "Loss", 'L');
    ContainsNeedsChar(concept, "CashFlow", 'C');
    ContainsNeedsChar(concept, "Operating", 'O');
    ContainsNeedsChar(concept, "Investing", 'I');
    ContainsNeedsChar(concept, "Financing", 'F');
  }
}
