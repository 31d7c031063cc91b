/**
 * What the page shows and hides (app/static/script.js): the table cells of
 * populateContainer, with 'N/A' standing in for an empty unit or
 * precision, and the live search of implementSearch, which shows a row iff
 * its lower-cased text contains the lower-cased search term and shows a
 * context group iff at least one of its rows is shown.
 */
module Display {
  import opened Text
  import opened Facts
  import opened Grouping

  /** `field || 'N/A'` for a string field: the empty string is falsy. */
  function OrNA(field: string): (r: string)
    ensures r != ""
    ensures field != "" ==> r == field
    ensures r == "N/A" <==> field == "" || field == "N/A"
  {
    if field == "" then "N/A" else field
  }

  /** The text of one rendered row: its four cells, separated by blanks. */
  function RowText(f: Fact): string {
    f.concept + " " + f.value + " " + OrNA(f.unitRef) + " " + OrNA(f.decimals)
  }

  /** The row texts of every context group of a container, group by group. */
  function Rows(groups: seq<Group>): (rows: seq<seq<string>>)
    ensures |rows| == |groups|
    ensures forall g :: 0 <= g < |groups| ==> |rows[g]| == |groups[g].facts|
    ensures forall g, i :: 0 <= g < |groups| && 0 <= i < |groups[g].facts| ==>
              rows[g][i] == RowText(groups[g].facts[i])
  {
    seq(|groups|, g requires 0 <= g < |groups| =>
      seq(|groups[g].facts|, i requires 0 <= i < |groups[g].facts| => RowText(groups[g].facts[i])))
  }

  /** A row stays visible for a search term. */
  predicate RowMatches(text: string, term: string) {
    Contains(Lower(text), Lower(term))
  }

  /** A context group stays visible: some row of it matches. */
  predicate GroupMatches(rows: seq<string>, term: string) {
    exists i :: 0 <= i < |rows| && RowMatches(rows[i], term)
  }

  /**
   * One input event of the search box over the context groups of the page;
   * the display of each row and each group is returned as a flag.
   */
  method ApplySearch(groups: seq<seq<string>>, term: string)
    returns (rowVisible: seq<seq<bool>>, groupVisible: seq<bool>)
    ensures |rowVisible| == |groups| && |groupVisible| == |groups|
    ensures forall g :: 0 <= g < |groups| ==> |rowVisible[g]| == |groups[g]|
    ensures forall g, i :: 0 <= g < |groups| && 0 <= i < |groups[g]| ==>
              (rowVisible[g][i] <==> RowMatches(groups[g][i], term))
    ensures forall g :: 0 <= g < |groups| ==> (groupVisible[g] <==> GroupMatches(groups[g], term))
  {
    var searchTerm := Lower(term);
    rowVisible, groupVisible := [], [];
    for g := 0 to |groups|
      invariant |rowVisible| == g && |groupVisible| == g
      invariant forall h :: 0 <= h < g ==> |rowVisible[h]| == |groups[h]|
      invariant forall h, i :: 0 <= h < g && 0 <= i < |groups[h]| ==>
                  (rowVisible[h][i] <==> RowMatches(groups[h][i], term))
      invariant forall h :: 0 <= h < g ==> (groupVisible[h] <==> GroupMatches(groups[h], term))
    {
      var rows := groups[g];
      var flags: seq<bool> := [];
      var visibleGroup := false;
      for i := 0 to |rows|
        invariant |flags| == i
        invariant forall j :: 0 <= j < i ==> (flags[j] <==> RowMatches(rows[j], term))
        invariant visibleGroup <==> exists j :: 0 <= j < i && RowMatches(rows[j], term)
      {
        var text := Lower(rows[i]);
        var visible := Contains(text, searchTerm);
        flags := flags + [visible];
        if visible {
          visibleGroup := true;
        }
      }
      rowVisible := rowVisible + [flags];
      groupVisible := groupVisible + [visibleGroup];
    }
  }

  /** Lower-casing twice is lower-casing once. */
  lemma LowerIdempotent(s: string)
    ensures Lower(Lower(s)) == Lower(s)
  {
  }

  /** The search ignores the case of the term. */
  lemma SearchIgnoresCase(text: string, term: string)
    ensures RowMatches(text, term) <==> RowMatches(text, Lower(term))
  {
    LowerIdempotent(term);
  }

  /**
   * An empty search box shows every row, and every context group that has
   * a row at all.
   */
  lemma EmptySearchShowsAll(rows: seq<string>)
    ensures forall i :: 0 <= i < |rows| ==> RowMatches(rows[i], "")
    ensures GroupMatches(rows, "") <==> |rows| > 0
  {
    forall i | 0 <= i < |rows| ensures RowMatches(rows[i], "") {
      ContainsSelfAndEmpty(Lower(rows[i]));
    }
    if |rows| > 0 {
      assert RowMatches(rows[0], "");
    }
  }

  /** A row's text contains its concept, whatever the case of the search. */
  lemma ConceptInRow(f: Fact)
    ensures RowMatches(RowText(f), f.concept)
  {
    var rest := " " + f.value + " " + OrNA(f.unitRef) + " " + OrNA(f.decimals);
    assert RowText(f) == f.concept + rest;
    LowerAppend(f.concept, rest);
    assert OccursAt(Lower(f.concept) + Lower(rest), Lower(f.concept), 0);
  }

  /** Searching for a fact's concept keeps its row, and so its group, visible. */
  lemma SearchByConceptFindsFact(groups: seq<Group>, g: int, i: int)
    requires 0 <= g < |groups| && 0 <= i < |groups[g].facts|
    ensures RowMatches(Rows(groups)[g][i], groups[g].facts[i].concept)
    ensures GroupMatches(Rows(groups)[g], groups[g].facts[i].concept)
  {
    ConceptInRow(groups[g].facts[i]);
  }
}
