/**
 * Grouping facts by context and keeping one category of facts per group
 * (app/static/script.js, groupFactsByContextRef and filterFactsByCategory).
 * A JavaScript object keyed by context is an ordered list of groups: its
 * string keys enumerate in insertion order.
 */
module Grouping {
  import opened Facts

  datatype Group = Group(contextRef: string, facts: seq<Fact>)

  function Keys(groups: seq<Group>): (ks: seq<string>)
    ensures |ks| == |groups|
    ensures forall j :: 0 <= j < |groups| ==> ks[j] == groups[j].contextRef
  {
    seq(|groups|, j requires 0 <= j < |groups| => groups[j].contextRef)
  }

  predicate Distinct(ks: seq<string>) {
    forall i, j :: 0 <= i < j < |ks| ==> ks[i] != ks[j]
  }

  /** The facts with context `key`, in their original order. */
  function WithContext(facts: seq<Fact>, key: string): seq<Fact> {
    if facts == [] then []
    else
      var last := facts[|facts| - 1];
      WithContext(facts[..|facts| - 1], key) + (if last.contextRef == key then [last] else [])
  }

  /** The distinct contexts of `facts`, in order of first occurrence. */
  function ContextsInOrder(facts: seq<Fact>): seq<string> {
    if facts == [] then []
    else
      var last := facts[|facts| - 1];
      var ks := ContextsInOrder(facts[..|facts| - 1]);
      if last.contextRef in ks then ks else ks + [last.contextRef]
  }

  /** The groups the reduce builds: one per context, in first-occurrence order. */
  function Grouped(facts: seq<Fact>): seq<Group> {
    var ks := ContextsInOrder(facts);
    seq(|ks|, j requires 0 <= j < |ks| => Group(ks[j], WithContext(facts, ks[j])))
  }

  /** Sum of the group sizes. */
  function TotalCount(groups: seq<Group>): nat {
    if groups == [] then 0
    else TotalCount(groups[..|groups| - 1]) + |groups[|groups| - 1].facts|
  }

  lemma {:induction false} ContextsInOrderSpec(facts: seq<Fact>)
    ensures Distinct(ContextsInOrder(facts))
    ensures forall k :: k in ContextsInOrder(facts) <==> exists i :: 0 <= i < |facts| && facts[i].contextRef == k
  {
    if facts != [] {
      var init := facts[..|facts| - 1];
      ContextsInOrderSpec(init);
      forall k | (exists i :: 0 <= i < |facts| && facts[i].contextRef == k)
        ensures k in ContextsInOrder(facts)
      {
        var i :| 0 <= i < |facts| && facts[i].contextRef == k;
        if i < |init| {
          assert init[i] == facts[i];
        }
      }
      forall k | k in ContextsInOrder(facts)
        ensures exists i :: 0 <= i < |facts| && facts[i].contextRef == k
      {
        if k in ContextsInOrder(init) {
          var i :| 0 <= i < |init| && init[i].contextRef == k;
          assert facts[i] == init[i];
        } else {
          assert facts[|facts| - 1].contextRef == k;
        }
      }
    }
  }

  lemma {:induction false} WithContextAbsent(facts: seq<Fact>, key: string)
    requires forall i :: 0 <= i < |facts| ==> facts[i].contextRef != key
    ensures WithContext(facts, key) == []
  {
    if facts != [] {
      var init := facts[..|facts| - 1];
      WithContextAbsent(init, key);
    }
  }

  lemma WithContextSnoc(facts: seq<Fact>, f: Fact, key: string)
    ensures WithContext(facts + [f], key)
         == WithContext(facts, key) + (if f.contextRef == key then [f] else [])
  {
    assert (facts + [f])[..|facts|] == facts;
  }

  lemma ContextsInOrderSnoc(facts: seq<Fact>, f: Fact)
    ensures var ks := ContextsInOrder(facts);
      ContextsInOrder(facts + [f]) == if f.contextRef in ks then ks else ks + [f.contextRef]
  {
    assert (facts + [f])[..|facts|] == facts;
  }

  /** The effect of one reduce step on the groups built so far. */
  lemma GroupedSnocExisting(facts: seq<Fact>, f: Fact, j: int)
    requires 0 <= j < |Grouped(facts)| && Grouped(facts)[j].contextRef == f.contextRef
    ensures var gs := Grouped(facts);
      Grouped(facts + [f]) == gs[j := Group(f.contextRef, gs[j].facts + [f])]
  {
    var ks := ContextsInOrder(facts);
    var gs := Grouped(facts);
    var next := Grouped(facts + [f]);
    var updated := gs[j := Group(f.contextRef, gs[j].facts + [f])];
    ContextsInOrderSpec(facts);
    ContextsInOrderSnoc(facts, f);
    assert f.contextRef in ks;
    forall m | 0 <= m < |ks| ensures next[m] == updated[m] {
      WithContextSnoc(facts, f, ks[m]);
      if m != j {
        assert ks[m] != ks[j];
      }
    }
  }

  lemma GroupedSnocNew(facts: seq<Fact>, f: Fact)
    requires f.contextRef !in Keys(Grouped(facts))
    ensures Grouped(facts + [f]) == Grouped(facts) + [Group(f.contextRef, [f])]
  {
    var ks := ContextsInOrder(facts);
    var gs := Grouped(facts);
    var next := Grouped(facts + [f]);
    var appended := gs + [Group(f.contextRef, [f])];
    ContextsInOrderSpec(facts);
    ContextsInOrderSnoc(facts, f);
    assert Keys(gs) == ks;
    assert f.contextRef !in ks;
    forall i | 0 <= i < |facts| ensures facts[i].contextRef != f.contextRef { }
    WithContextAbsent(facts, f.contextRef);
    WithContextSnoc(facts, f, f.contextRef);
    assert |next| == |ks| + 1;
    forall m | 0 <= m < |next| ensures next[m] == appended[m] {
      if m < |ks| {
        WithContextSnoc(facts, f, ks[m]);
        assert ks[m] != f.contextRef;
      }
    }
  }

  /** Adding one fact either extends the group of its context or opens a new group at the end. */
  lemma GroupedSnoc(facts: seq<Fact>, f: Fact, j: int)
    requires j == |Grouped(facts)| || (0 <= j < |Grouped(facts)| && Grouped(facts)[j].contextRef == f.contextRef)
    requires j == |Grouped(facts)| ==> f.contextRef !in Keys(Grouped(facts))
    ensures var gs := Grouped(facts);
      Grouped(facts + [f])
        == if j < |gs| then gs[j := Group(f.contextRef, gs[j].facts + [f])]
           else gs + [Group(f.contextRef, [f])]
  {
    if j < |Grouped(facts)| {
      GroupedSnocExisting(facts, f, j);
    } else {
      GroupedSnocNew(facts, f);
    }
  }

  method GroupFactsByContextRef(facts: seq<Fact>) returns (groups: seq<Group>)
    ensures groups == Grouped(facts)
  {
    groups := [];
    for i := 0 to |facts|
      invariant groups == Grouped(facts[..i])
    {
      var fact := facts[i];
      // `groups[fact.contextRef] || []`: find the group of this context, if any.
      var j := 0;
      while j < |groups| && groups[j].contextRef != fact.contextRef
        invariant 0 <= j <= |groups|
        invariant forall m :: 0 <= m < j ==> groups[m].contextRef != fact.contextRef
      {
        j := j + 1;
      }
      GroupedSnoc(facts[..i], fact, j);
      assert facts[..i + 1] == facts[..i] + [fact];
      if j < |groups| {
        groups := groups[j := Group(fact.contextRef, groups[j].facts + [fact])];
      } else {
        groups := groups + [Group(fact.contextRef, [fact])];
      }
    }
    assert facts[..|facts|] == facts;
  }

  lemma {:induction false} WithContextMembers(facts: seq<Fact>, key: string)
    ensures forall f :: f in WithContext(facts, key) <==> f in facts && f.contextRef == key
  {
    if facts != [] {
      var init := facts[..|facts| - 1];
      WithContextMembers(init, key);
      assert facts == init + [facts[|facts| - 1]];
    }
  }

  /** Grouping keeps the order of the input: it distributes over concatenation. */
  lemma {:induction false} WithContextAppend(a: seq<Fact>, b: seq<Fact>, key: string)
    ensures WithContext(a + b, key) == WithContext(a, key) + WithContext(b, key)
    decreases |b|
  {
    if b == [] {
      assert a + b == a;
    } else {
      var b' := b[..|b| - 1];
      assert (a + b)[..|a + b| - 1] == a + b';
      WithContextAppend(a, b', key);
    }
  }

  lemma {:induction false} TotalCountUpdate(groups: seq<Group>, j: int, g: Group)
    requires 0 <= j < |groups| && |g.facts| == |groups[j].facts| + 1
    ensures TotalCount(groups[j := g]) == TotalCount(groups) + 1
  {
    var n := |groups|;
    var updated := groups[j := g];
    if j == n - 1 {
      assert updated[..n - 1] == groups[..n - 1];
    } else {
      assert updated[..n - 1] == groups[..n - 1][j := g];
      TotalCountUpdate(groups[..n - 1], j, g);
    }
  }

  lemma {:induction false} TotalCountGrouped(facts: seq<Fact>)
    ensures TotalCount(Grouped(facts)) == |facts|
  {
    if facts != [] {
      var init := facts[..|facts| - 1];
      var f := facts[|facts| - 1];
      var gs := Grouped(init);
      TotalCountGrouped(init);
      assert facts == init + [f];
      ContextsInOrderSpec(init);
      if f.contextRef in Keys(gs) {
        var j :| 0 <= j < |gs| && Keys(gs)[j] == f.contextRef;
        GroupedSnoc(init, f, j);
        TotalCountUpdate(gs, j, Group(f.contextRef, gs[j].facts + [f]));
      } else {
        GroupedSnoc(init, f, |gs|);
        var next := gs + [Group(f.contextRef, [f])];
        assert next[..|next| - 1] == gs;
      }
    }
  }

  /**
   * The groups partition the facts by context: the keys are exactly the
   * distinct contexts, each once; a fact is in a group iff its context is
   * the group's key; no group is empty; the sizes add up to the input length.
   */
  lemma GroupedPartitions(facts: seq<Fact>)
    ensures var gs := Grouped(facts);
      && Distinct(Keys(gs))
      && (forall k :: k in Keys(gs) <==> exists i :: 0 <= i < |facts| && facts[i].contextRef == k)
      && (forall j :: 0 <= j < |gs| ==> gs[j].facts == WithContext(facts, gs[j].contextRef))
      && (forall j, f :: 0 <= j < |gs| ==>
            (f in gs[j].facts <==> f in facts && f.contextRef == gs[j].contextRef))
      && (forall j :: 0 <= j < |gs| ==> |gs[j].facts| > 0)
      && TotalCount(gs) == |facts|
  {
    var gs := Grouped(facts);
    ContextsInOrderSpec(facts);
    assert Keys(gs) == ContextsInOrder(facts);
    forall j | 0 <= j < |gs|
      ensures forall f :: f in gs[j].facts <==> f in facts && f.contextRef == gs[j].contextRef
      ensures |gs[j].facts| > 0
    {
      var k := gs[j].contextRef;
      WithContextMembers(facts, k);
      assert k in ContextsInOrder(facts);
      var i :| 0 <= i < |facts| && facts[i].contextRef == k;
      assert facts[i] in gs[j].facts;
    }
    TotalCountGrouped(facts);
  }

  /** `facts.filter(fact => keep(fact.concept))`. */
  function Select(facts: seq<Fact>, keep: string -> bool): seq<Fact> {
    if facts == [] then []
    else
      var last := facts[|facts| - 1];
      Select(facts[..|facts| - 1], keep) + (if keep(last.concept) then [last] else [])
  }

  /** The groups filterFactsByCategory builds, in the order of the input groups. */
  function FilterGroups(groups: seq<Group>, keep: string -> bool): seq<Group> {
    if groups == [] then []
    else
      var last := groups[|groups| - 1];
      var rest := FilterGroups(groups[..|groups| - 1], keep);
      var kept := Select(last.facts, keep);
      if |kept| > 0 then rest + [Group(last.contextRef, kept)] else rest
  }

  method FilterFactsByCategory(groups: seq<Group>, keep: string -> bool) returns (filtered: seq<Group>)
    ensures filtered == FilterGroups(groups, keep)
  {
    filtered := [];
    for i := 0 to |groups|
      invariant filtered == FilterGroups(groups[..i], keep)
    {
      var group := groups[i];
      var filteredFacts := Select(group.facts, keep);
      assert groups[..i + 1][..i] == groups[..i];
      if |filteredFacts| > 0 {
        filtered := filtered + [Group(group.contextRef, filteredFacts)];
      }
    }
    assert groups[..|groups|] == groups;
  }

  lemma {:induction false} SelectMembers(facts: seq<Fact>, keep: string -> bool)
    ensures forall f :: f in Select(facts, keep) <==> f in facts && keep(f.concept)
  {
    if facts != [] {
      var init := facts[..|facts| - 1];
      SelectMembers(init, keep);
      assert facts == init + [facts[|facts| - 1]];
    }
  }

  lemma {:induction false} SelectIdempotent(facts: seq<Fact>, keep: string -> bool)
    ensures Select(Select(facts, keep), keep) == Select(facts, keep)
  {
    if facts != [] {
      var init := facts[..|facts| - 1];
      var last := facts[|facts| - 1];
      var s := Select(init, keep);
      SelectIdempotent(init, keep);
      if keep(last.concept) {
        assert Select(facts, keep) == s + [last];
        assert (s + [last])[..|s|] == s;
        assert Select(s + [last], keep) == Select(s, keep) + [last];
      } else {
        assert Select(facts, keep) == s;
      }
    }
  }

  /** `g` is the selection of the input group with the same key. */
  ghost predicate SelectedFrom(groups: seq<Group>, g: Group, keep: string -> bool) {
    exists j :: 0 <= j < |groups| && groups[j].contextRef == g.contextRef
                && g.facts == Select(groups[j].facts, keep)
  }

  /** Each filtered group is non-empty and is the selection of an input group with the same key. */
  lemma {:induction false} FilteredGroupsSelected(groups: seq<Group>, keep: string -> bool)
    ensures forall m :: 0 <= m < |FilterGroups(groups, keep)| ==>
              |FilterGroups(groups, keep)[m].facts| > 0
              && SelectedFrom(groups, FilterGroups(groups, keep)[m], keep)
  {
    if groups != [] {
      var init := groups[..|groups| - 1];
      var rest := FilterGroups(init, keep);
      var out := FilterGroups(groups, keep);
      FilteredGroupsSelected(init, keep);
      forall m | 0 <= m < |out| ensures |out[m].facts| > 0 && SelectedFrom(groups, out[m], keep) {
        if m < |rest| {
          assert out[m] == rest[m];
          assert SelectedFrom(init, rest[m], keep);
          var j :| 0 <= j < |init| && init[j].contextRef == rest[m].contextRef
                   && rest[m].facts == Select(init[j].facts, keep);
          assert groups[j] == init[j];
        } else {
          assert groups[|groups| - 1].contextRef == out[m].contextRef;
        }
      }
    }
  }

  /** A key survives the filter iff one of its facts is selected (the keys being distinct). */
  lemma {:induction false} FilterKeepsKey(groups: seq<Group>, keep: string -> bool, j: int)
    requires Distinct(Keys(groups))
    requires 0 <= j < |groups|
    ensures groups[j].contextRef in Keys(FilterGroups(groups, keep))
        <==> exists f :: f in groups[j].facts && keep(f.concept)
  {
    var init := groups[..|groups| - 1];
    var last := groups[|groups| - 1];
    var rest := FilterGroups(init, keep);
    var out := FilterGroups(groups, keep);
    var k := groups[j].contextRef;
    SelectMembers(groups[j].facts, keep);
    assert Keys(init) == Keys(groups)[..|groups| - 1];
    if j < |init| {
      assert init[j] == groups[j];
      FilterKeepsKey(init, keep, j);
      assert k != last.contextRef by { assert Keys(groups)[j] != Keys(groups)[|groups| - 1]; }
      assert k in Keys(out) <==> k in Keys(rest) by {
        if k in Keys(rest) {
          var m :| 0 <= m < |rest| && Keys(rest)[m] == k;
          assert Keys(out)[m] == k;
        }
        if k in Keys(out) {
          var m :| 0 <= m < |out| && Keys(out)[m] == k;
          if m < |rest| {
            assert Keys(rest)[m] == k;
          }
        }
      }
    } else {
      FilteredGroupsSelected(init, keep);
      assert k !in Keys(rest) by {
        forall m | 0 <= m < |rest| ensures rest[m].contextRef != k {
          var i :| 0 <= i < |init| && init[i].contextRef == rest[m].contextRef
                   && rest[m].facts == Select(init[i].facts, keep);
          assert Keys(groups)[i] != Keys(groups)[j];
        }
      }
      assert groups[j] == last;
      if |Select(last.facts, keep)| > 0 {
        assert Keys(out)[|out| - 1] == k;
        assert Select(last.facts, keep)[0] in Select(last.facts, keep);
      } else {
        assert Keys(out) == Keys(rest);
        assert Select(last.facts, keep) == [];
      }
    }
  }

  /** Filtering twice with the same category changes nothing. */
  lemma {:induction false} FilterGroupsIdempotent(groups: seq<Group>, keep: string -> bool)
    ensures FilterGroups(FilterGroups(groups, keep), keep) == FilterGroups(groups, keep)
  {
    if groups != [] {
      var init := groups[..|groups| - 1];
      var last := groups[|groups| - 1];
      var rest := FilterGroups(init, keep);
      var kept := Select(last.facts, keep);
      FilterGroupsIdempotent(init, keep);
      if |kept| > 0 {
        var out := rest + [Group(last.contextRef, kept)];
        assert out[..|out| - 1] == rest;
        SelectIdempotent(last.facts, keep);
      }
    }
  }

  /**
   * A category view of the grouped facts shows context `k` iff some fact
   * with that context passes the category filter.
   */
  lemma CategoryViewKeys(facts: seq<Fact>, keep: string -> bool, k: string)
    ensures k in Keys(FilterGroups(Grouped(facts), keep))
        <==> exists f :: f in facts && f.contextRef == k && keep(f.concept)
  {
    var gs := Grouped(facts);
    var out := FilterGroups(gs, keep);
    GroupedPartitions(facts);
    if k in Keys(gs) {
      var j :| 0 <= j < |gs| && Keys(gs)[j] == k;
      FilterKeepsKey(gs, keep, j);
    } else {
      FilteredGroupsSelected(gs, keep);
      assert k !in Keys(out) by {
        forall m | 0 <= m < |out| ensures out[m].contextRef != k {
          assert SelectedFrom(gs, out[m], keep);
          var j :| 0 <= j < |gs| && gs[j].contextRef == out[m].contextRef
                   && out[m].facts == Select(gs[j].facts, keep);
          assert Keys(gs)[j] == gs[j].contextRef;
        }
      }
      forall f | f in facts ensures f.contextRef != k {
        var i :| 0 <= i < |facts| && facts[i] == f;
      }
    }
  }
}
