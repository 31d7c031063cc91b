/**
 * Small lookups that pin down the first-match rule and the coercion of
 * texts to numbers.
 */
module LookupExamples {
  import opened Wrappers
  import opened Text
  import opened Numbers
  import opened Facts
  import opened Resolver
  import opened Scenarios

  lemma LowerAssetsCurrent()
    ensures Lower("AssetsCurrent") == "assetscurrent"
  {
    LowerWords();
    LowerAppend("Assets", "Current");
    assert "Assets" + "Current" == "AssetsCurrent";
    assert "assets" + "current" == "assetscurrent";
  }

  lemma AssetsTagsMatch()
    ensures Matches(Node("Assets", "100"), "Assets")
    ensures Matches(Node("AssetsCurrent", "40"), "Assets")
  {
    LowerAssetsCurrent();
    LowerWords();
    ContainsWithin("", "assets", "current");
    assert "" + "assets" + "current" == "assetscurrent";
    ContainsSelfAndEmpty("assets");
  }

  lemma SmallTextValues()
    ensures TextValue(Some("40")) == 40.0
    ensures TextValue(Some("100")) == 100.0
  {
    assert NatDigits(40) == "40";
    assert NatDigits(100) == "100" by { assert NatDigits(10) == "10"; }
    CoerceGroupedNatural(40);
    CoerceGroupedNatural(100);
  }

  /**
   * Matching is by substring, so a longer tag listed first shadows the
   * exact one: "Assets" resolves to AssetsCurrent's 40 when that node comes
   * first, and to 100 when Assets does.
   */
  lemma SubstringShadowing(shadowed: seq<RawNode>, exact: seq<RawNode>)
    requires shadowed == [Node("AssetsCurrent", "40"), Node("Assets", "100")]
    requires exact == [Node("Assets", "100"), Node("AssetsCurrent", "40")]
    ensures Resolve(shadowed, "Assets") == Success(40.0)
    ensures Resolve(exact, "Assets") == Success(100.0)
  {
    AssetsTagsMatch();
    assert FirstMatchAt(shadowed, "Assets", 0);
    assert FirstMatchAt(exact, "Assets", 0);
    ResolveFirstMatch(shadowed, "Assets", 0);
    ResolveFirstMatch(exact, "Assets", 0);
    SmallTextValues();
  }

  /** Thousands separators are dropped; a text that is no number, or no text, counts as 0. */
  lemma TextCoercion()
    ensures TextValue(Some("1,234.5")) == 1234.5
    ensures TextValue(Some("N/A")) == 0.0
    ensures TextValue(None) == 0.0
  {
    StripExample();
    ParseExample();
    StripCommasNoCommas("N/A");
    RejectExample();
  }

  /**
   * A node without a tag aborts the lookup with KeyError when it is reached
   * before any match, and is never looked at when it comes after one.
   */
  lemma UntaggedNodeOrder(early: seq<RawNode>, late: seq<RawNode>)
    requires early == [RawNode(None, Some("5"), None), Node("Assets", "100")]
    requires late == [Node("Assets", "100"), RawNode(None, Some("5"), None)]
    ensures Resolve(early, "Assets") == Failure(KeyError("tag"))
    ensures Resolve(late, "Assets") == Success(100.0)
  {
    AssetsTagsMatch();
    assert FirstMatchAt(late, "Assets", 0);
    ResolveFirstMatch(late, "Assets", 0);
    SmallTextValues();
  }
}
