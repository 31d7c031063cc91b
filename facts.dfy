/**
 * Flattening the report's top-level children into fact records
 * (app/app.py, extract_facts).
 */
module Facts {
  import opened Wrappers

  /**
   * One entry of `xbrl_content.children`. A key that is absent from the
   * JSON object is `None`; values are strings.
   */
  datatype RawNode = RawNode(
    tag: Option<string>,
    text: Option<string>,
    attributes: Option<map<string, string>>)

  /** A flattened fact, as the page script receives it. */
  datatype Fact = Fact(
    concept: string,
    value: string,
    contextRef: string,
    unitRef: string,
    decimals: string)

  /** A child contributes a fact iff it has both a `tag` and an `attributes` key. */
  predicate Kept(n: RawNode) {
    n.tag.Some? && n.attributes.Some?
  }

  /** Python's `d.get(key, '')`. */
  function GetOrEmpty(m: map<string, string>, key: string): string {
    if key in m then m[key] else ""
  }

  function ToFact(n: RawNode): Fact
    requires Kept(n)
  {
    var attrs := n.attributes.value;
    Fact(
      n.tag.value,
      if n.text.Some? then n.text.value else "",
      GetOrEmpty(attrs, "contextRef"),
      GetOrEmpty(attrs, "unitRef"),
      GetOrEmpty(attrs, "decimals"))
  }

  /** The facts of `children`, in document order (the loop's meaning). */
  function FactsOf(children: seq<RawNode>): seq<Fact> {
    if children == [] then []
    else
      var last := children[|children| - 1];
      var rest := FactsOf(children[..|children| - 1]);
      if Kept(last) then rest + [ToFact(last)] else rest
  }

  /** The positions of the kept children, in increasing order. */
  ghost function KeptIndices(children: seq<RawNode>): seq<nat> {
    if children == [] then []
    else
      var rest := KeptIndices(children[..|children| - 1]);
      if Kept(children[|children| - 1]) then rest + [|children| - 1] else rest
  }

  method ExtractFacts(children: seq<RawNode>) returns (facts: seq<Fact>)
    ensures facts == FactsOf(children)
  {
    facts := [];
    var i := 0;
    while i < |children|
      invariant 0 <= i <= |children|
      invariant facts == FactsOf(children[..i])
    {
      var child := children[i];
      assert children[..i + 1][..i] == children[..i];
      if child.tag.Some? && child.attributes.Some? {
        var attrs := child.attributes.value;
        facts := facts + [Fact(
          child.tag.value,
          if child.text.Some? then child.text.value else "",
          GetOrEmpty(attrs, "contextRef"),
          GetOrEmpty(attrs, "unitRef"),
          GetOrEmpty(attrs, "decimals"))];
      }
      i := i + 1;
    }
    assert children[..i] == children;
  }

  /**
   * The flattened list is exactly the kept children, in document order,
   * each once: the k-th fact comes from the k-th kept child, the positions
   * strictly increase, and every kept child has a position.
   */
  lemma {:induction false} FactsAreKeptChildren(children: seq<RawNode>)
    ensures var ks := KeptIndices(children);
      && |FactsOf(children)| == |ks|
      && (forall k :: 0 <= k < |ks| ==>
            ks[k] < |children| && Kept(children[ks[k]])
            && FactsOf(children)[k] == ToFact(children[ks[k]]))
      && (forall k, l :: 0 <= k < l < |ks| ==> ks[k] < ks[l])
      && (forall i :: 0 <= i < |children| && Kept(children[i]) ==> i in ks)
  {
    if children != [] {
      var init := children[..|children| - 1];
      FactsAreKeptChildren(init);
      forall i | 0 <= i < |init| ensures init[i] == children[i] { }
    }
  }

  /** Each fact's fields: the tag, the text, and the three attributes, each defaulting to ''. */
  lemma FieldsOfFact(n: RawNode)
    requires Kept(n)
    ensures var f := ToFact(n); var attrs := n.attributes.value;
      && f.concept == n.tag.value
      && (n.text.None? ==> f.value == "")
      && (n.text.Some? ==> f.value == n.text.value)
      && ("contextRef" in attrs ==> f.contextRef == attrs["contextRef"])
      && ("contextRef" !in attrs ==> f.contextRef == "")
      && ("unitRef" in attrs ==> f.unitRef == attrs["unitRef"])
      && ("unitRef" !in attrs ==> f.unitRef == "")
      && ("decimals" in attrs ==> f.decimals == attrs["decimals"])
      && ("decimals" !in attrs ==> f.decimals == "")
  {
  }

  /** Flattening distributes over concatenation of child lists. */
  lemma {:induction false} FactsOfAppend(a: seq<RawNode>, b: seq<RawNode>)
    ensures FactsOf(a + b) == FactsOf(a) + FactsOf(b)
    decreases |b|
  {
    if b == [] {
      assert a + b == a;
    } else {
      var b' := b[..|b| - 1];
      assert (a + b)[..|a + b| - 1] == a + b';
      FactsOfAppend(a, b');
    }
  }
}
