# XBRL fact display: a verified model of its core

The application loads one XBRL report, already turned into JSON, and shows
it in two ways.

The server (`app/app.py`) does the following:
- Flattens the report's top-level children into fact records.
- Resolves concept names to numbers by case-insensitive substring match. The first match in document order wins.
- Computes five financial ratios and four "European" metrics, with every division guarded against a zero denominator.
- Pairs each computed label with a sector benchmark for the comparison chart.

The page script (`app/static/script.js`) does the following:
- Groups the facts by reporting context.
- Shows balance-sheet, income-statement and cash-flow views chosen by keyword.
- Renders the unit and precision of each fact, with `N/A` when they are empty.
- Hides the rows and context groups that a search term does not match.

The model has one Dafny module per concern:

| module | file | models |
|---|---|---|
| `Wrappers` | wrappers.dfy | `Option` and `Result` |
| `Text` | text.dfy | ASCII lower-casing, and substring containment (Python `in`, JavaScript `includes`) |
| `Numbers` | numbers.dfy | Comma stripping, and a decimal reading of the remaining text (the `float()` call) |
| `Loader` | loader.dfy | The shape check on the decoded document, and the HTTP error each failure becomes |
| `Facts` | facts.dfy | `extract_facts`, a loop over the children |
| `Resolver` | resolver.dfy | `get_fact_value`: a loop with early returns, specified by `Resolve` |
| `Ratios` | ratios.dfy | The two metric sets, and the sector pairing |
| `Grouping` | grouping.dfy | `groupFactsByContextRef` and `filterFactsByCategory`, as loops over an ordered list of groups |
| `Categories` | categories.dfy | The three keyword classifiers |
| `Display` | display.dfy | The `N/A` cells, the row text, and the search rule as a nested loop |
| `Scenarios`, `LookupExamples` | scenarios.dfy, lookups.dfy | Worked reports and small lookups |

Modelling choices:
- Numbers are `real`. The integer `0` returned on no match and the float `0.0` returned on a parse failure are both `0.0`.
- A lookup that reaches a child without a `tag` before any match raises `KeyError` outside the `try`. It is modelled as `Failure(KeyError("tag"))`, and the ratio functions propagate it.
- A missing `text` on a matched child raises `KeyError` inside the `try`, so it gives `0.0`.
- A JavaScript object keyed by context is a sequence of `Group(contextRef, facts)` in insertion order.

The model's own worked report makes the first-match rule concrete. It lists Assets 1000, CurrentAssets 400, CurrentLiabilities 200, Liabilities 600, Equity 400, ProfitLoss 50, Revenue 500 and PriorYearRevenue 400, in that order:
- The lookup for `Liabilities` stops at the earlier `CurrentLiabilities` node, which holds 200.
- So DebtToEquityRatio is 0.5 (`Scenarios.ListedReportMetrics`).
- With `Liabilities` listed before `CurrentLiabilities`, the same values give DebtToEquityRatio 1.5 (`Scenarios.ExactFirstReportMetrics`).
- All other ratios and metrics are the same in both orders.

## Model

| member | source | states |
|---|---|---|
| Numbers.StripCommas | app/app.py:69 | The result has no comma, is no longer than the input, and keeps every other character |
| Numbers.StripExample | app/app.py:69 | `"1,234.5"` loses its separator |
| Numbers.ParseExample | app/app.py:69 | `"1234.5"` reads as 1234.5 |
| Numbers.RejectExample | app/app.py:69-71 | `"N/A"` is not a number |
| Numbers.ParseDecimal | app/app.py:69 | `whole.frac` reads as whole + frac/10^len(frac), and bare digits read as their value |
| Numbers.StripGroupThousands | app/app.py:69 | Stripping commas undoes thousands grouping |
| Numbers.CoerceGroupedNatural | app/app.py:69 | Every natural, written with or without thousands separators and optionally negated, coerces back to itself |
| Loader.LoadXbrlData | app/app.py:15-27 | Success iff the file decoded to an object with `xbrl_content`, returning the data unchanged. 404 iff the file is missing, otherwise 500; a wrong shape gives 500 "Unexpected JSON structure" |
| Facts.ExtractFacts | app/app.py:29-40 | The loop returns `FactsOf(children)` |
| Facts.FactsAreKeptChildren | app/app.py:29-40 | The facts are exactly the children with `tag` and `attributes`, in document order, each once |
| Facts.FieldsOfFact | app/app.py:33-39 | concept = tag; value = text or ''; contextRef, unitRef and decimals = the attribute or '' |
| Facts.FactsOfAppend | app/app.py:30-39 | Flattening two child lists one after the other concatenates their facts |
| Resolver.Resolve | app/app.py:65-72 | The only possible failure is KeyError on `tag` |
| Resolver.GetFactValue | app/app.py:65-72 | The loop with early returns computes `Resolve` |
| Resolver.ResolveFirstMatch | app/app.py:66-71 | When node i is the first match and every node up to it is tagged, the result is node i's coerced text |
| Resolver.ResolveNoMatch | app/app.py:72 | When all nodes are tagged and none matches, the result is 0 |
| Resolver.ResolveFailsIff | app/app.py:66-67 | Failure iff an untagged node comes before any match |
| Resolver.AllTaggedNeverFails | app/app.py:66-67 | Fully tagged input never fails |
| Resolver.LaterNodesIgnored | app/app.py:66-71 | Replacing everything after the first match leaves the result unchanged |
| Ratios.SafeDiv | app/app.py:106-110 | A non-zero denominator gives num/den; a zero one gives 0 |
| Ratios.RatioSet | app/app.py:105-111 | The five labels in order, each value guarded num/den |
| Ratios.MetricSet | app/app.py:124-129 | The four labels in order; WorkingCapital + CurrentLiabilities = CurrentAssets, unguarded; the others guarded |
| Ratios.FinancialRatios | app/app.py:96-115 | Success iff all seven lookups succeed; the failure is KeyError "tag"; the value is RatioSet of the resolved concepts |
| Ratios.EuropeanMetrics | app/app.py:117-133 | Success iff all six lookups succeed; the failure is KeyError "tag"; the value is MetricSet of the resolved concepts |
| Ratios.TaggedNodesNeverFail | app/app.py:96-129 | When every node is tagged, both sets are computed |
| Ratios.Labels | app/app.py:75 | One label per computed entry; label i is entry i's key |
| Ratios.ComparisonSeries | app/app.py:75-77 | One label, company value and sector value per computed entry, in order; the sector value is the benchmark or 0 |
| Ratios.SectorExtraKeysIgnored | app/app.py:77 | Benchmarks for labels not computed do not change the series |
| Scenarios.ReportLookups | app/app.py:65-72 | The concept values of the end-to-end report in both orders, including Liabilities resolving to CurrentLiabilities' 200 in the listed order |
| Scenarios.ExactFirstReportMetrics | app/app.py:96-133 | CurrentRatio 2, DebtToEquityRatio 1.5, ReturnOnAssets 0.05, ReturnOnEquity 0.125, ProfitMargin 0.1; AssetTurnover 0.5, WorkingCapital 200, EquityRatio 0.4, RevenueGrowth 0.25, when Liabilities precedes CurrentLiabilities |
| Scenarios.ListedReportMetrics | app/app.py:96-133 | In the listed order, DebtToEquityRatio is 0.5 and every other value is as in the swapped order |
| LookupExamples.SubstringShadowing | app/app.py:66-71 | "Assets" gives AssetsCurrent's 40 when that node comes first, and 100 when Assets does |
| LookupExamples.TextCoercion | app/app.py:68-71 | "1,234.5" gives 1234.5; "N/A" and a missing text give 0 |
| LookupExamples.UntaggedNodeOrder | app/app.py:66-67 | An untagged node before the match fails; one after it is never reached |
| Grouping.Keys | app/static/script.js:35 | One key per group, in group order |
| Grouping.ContextsInOrderSpec | app/static/script.js:26-31 | The keys are distinct and are exactly the contexts that occur |
| Grouping.GroupedSnoc | app/static/script.js:27-29 | One reduce step appends the fact to its context's group, or opens a new group at the end |
| Grouping.GroupFactsByContextRef | app/static/script.js:25-32 | The reduce loop builds `Grouped(facts)` |
| Grouping.WithContextMembers | app/static/script.js:27-29 | A group holds exactly the facts of its context |
| Grouping.TotalCountGrouped | app/static/script.js:25-32 | The group sizes add up to the number of facts |
| Grouping.GroupedPartitions | app/static/script.js:25-32 | Distinct keys, which are exactly the contexts; each group holds its context's facts in input order; no group is empty; sizes add up |
| Grouping.FilterFactsByCategory | app/static/script.js:71-80 | The loop builds `FilterGroups(groups, keep)` |
| Grouping.SelectMembers | app/static/script.js:74 | A fact is kept iff it is in the group and its concept passes |
| Grouping.SelectIdempotent | app/static/script.js:74 | Filtering a kept list again changes nothing |
| Grouping.FilteredGroupsSelected | app/static/script.js:73-77 | Each output group is non-empty, and is the filtered facts of the input group with the same key |
| Grouping.FilterKeepsKey | app/static/script.js:73-77 | With distinct input keys, a key survives iff one of its facts passes |
| Grouping.FilterGroupsIdempotent | app/static/script.js:71-80 | Filtering the filtered groups again with the same category changes nothing |
| Grouping.CategoryViewKeys | app/static/script.js:17-22 | A category view shows context k iff some fact of context k passes the category |
| Categories.AnyKeyword | app/static/script.js:84 | True iff the concept contains one of the keywords |
| Categories.IsBalanceSheetFact | app/static/script.js:82-85 | True iff the concept contains Assets, Liabilities, Equity, Inventory or Receivables |
| Categories.IsIncomeStatementFact | app/static/script.js:87-90 | True iff the concept contains Revenue, Expenses, Income, Profit or Loss |
| Categories.IsCashFlowFact | app/static/script.js:92-95 | True iff the concept contains CashFlow, Operating, Investing or Financing |
| Categories.BalanceSheetKeywordClassifies | app/static/script.js:82-85 | Any balance-sheet keyword anywhere in the concept makes it a balance-sheet fact |
| Categories.IncomeStatementKeywordClassifies | app/static/script.js:87-90 | Any income-statement keyword anywhere in the concept makes it an income-statement fact |
| Categories.CashFlowKeywordClassifies | app/static/script.js:92-95 | Any cash-flow keyword anywhere in the concept makes it a cash-flow fact |
| Categories.CategoriesOverlap | app/static/script.js:87-95 | IncomeFromOperatingActivities is both an income-statement and a cash-flow fact |
| Categories.LowerCaseConceptUnclassified | app/static/script.js:82-95 | Matching is case-sensitive: a concept with no upper-case letter is in no category |
| Display.OrNA | app/static/script.js:59-60 | Never empty; the field itself when non-empty; "N/A" iff the field is empty or is "N/A" |
| Display.Rows | app/static/script.js:55-62 | One row text per fact, group by group |
| Display.ApplySearch | app/static/script.js:101-115 | A row is shown iff its lower-cased text contains the lower-cased term; a group is shown iff one of its rows is |
| Display.SearchIgnoresCase | app/static/script.js:102-109 | Lower-casing the term first changes no row's visibility |
| Display.EmptySearchShowsAll | app/static/script.js:104-113 | An empty term shows every row, and every group that has a row |
| Display.ConceptInRow | app/static/script.js:55-62 | A row's text matches its own concept as a search term |
| Display.SearchByConceptFindsFact | app/static/script.js:104-113 | Searching for a rendered fact's concept keeps its row and its group visible |

## Left out

- Opening the file and decoding JSON (app/app.py:16-18) are I/O. `Loader.LoadXbrlData` takes their outcome as input, and the decoder's message is a parameter.
- The FastAPI application, its routes, templates and startup (app/app.py:1-13, 42-63, 135-157) are framework code. So is the question of which of the two `read_root` definitions is served. The uncaught `KeyError` is returned as a `Failure`; how the framework then answers is not modelled.
- Drawing and saving the comparison chart with matplotlib (app/app.py:79-94) is a foreign library with a file-system side effect. Only the three series the chart is drawn from are modelled.
- Numbers.ParseNumber: reads only an optional sign, decimal digits and an optional fraction. Python's `float()` also accepts surrounding whitespace, exponents, `inf`, `nan` and underscores, and rounds to IEEE doubles. Values are exact reals.
- Ratios.SafeDiv: tests the denominator against zero on reals. NaN denominators, which Python treats as true, cannot occur in the model.
- Text.Lower: lower-cases ASCII letters only. Python's and JavaScript's Unicode case mapping is not modelled.
- Loader.LoadXbrlData: checks only that `xbrl_content` exists, as line 19 does. Reading the children at app/app.py:31 and 46 fails with KeyError when `xbrl_content` has no `children`, and with TypeError when it is not an object. Neither failure, nor the step from the loaded JSON to the child list that `Facts.ExtractFacts` and `Resolver.GetFactValue` take, is modelled: the child list is an input.
- Loader.ReadOutcome: cannot express a UnicodeDecodeError while reading the file. app/app.py:26-27 would catch it as a ValueError and answer 500 with the bare message, without the "Error decoding JSON:" prefix.
- Facts.ExtractFacts: assumes `attributes` is an object. `child['attributes'].get(...)` at app/app.py:36 raises when it is not.
- Facts.RawNode: holds only string values for `tag`, `text` and the attributes. A non-string JSON value in those places is not modelled (for a number `text`, `replace` would fail and the fallback 0.0 would apply). Neither is a child that is not an object.
- Grouping.GroupFactsByContextRef: keys enumerate in insertion order. JavaScript enumerates integer-like keys first, in numeric order. Keys inherited from `Object.prototype`, such as `constructor`, are not modelled either.
- Display.ApplySearch: returns the display of each row and group as flags instead of setting `style.display` on the DOM (app/static/script.js:110, 113). The rows are given per context group, as the query of lines 99 and 105 would find them.
- Display.RowText: joins the four raw field strings with one blank. In the source the fields are interpolated into `innerHTML` (app/static/script.js:45-62), so markup and character entities inside a field are parsed, and `textContent` is the rendered text, not the raw string. The template's whitespace is not modelled either, so a term that spans two cells may match differently. `Display.ConceptInRow` and `Display.SearchByConceptFindsFact` therefore hold for fields without markup or entities only.
- DOM construction, the event wiring and the initial page setup (app/static/script.js:1-23, 34-69, 97-100, 118-119) are UI code.
- The `localeCompare` table sorting (app/static/script.js:121-132) depends on locale collation.
