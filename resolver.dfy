/**
 * Resolving a concept name to a number (app/app.py, get_fact_value). It
 * reads the raw child nodes, not the flattened facts: the first node, in
 * list order, whose lower-cased tag contains the lower-cased name decides
 * the value. A node without a `tag` reached before any match raises
 * KeyError, which nothing in the program catches.
 */
module Resolver {
  import opened Wrappers
  import opened Text
  import opened Numbers
  import opened Facts

  /** The exception raised by `fact['tag']` on a node without that key. */
  datatype KeyError = KeyError(key: string)

  /** A tagged node matches when the lower-cased name is a substring of its lower-cased tag. */
  predicate Matches(n: RawNode, name: string)
    requires n.tag.Some?
  {
    Contains(Lower(n.tag.value), Lower(name))
  }

  /**
   * The value of a matched node: its text without commas, parsed; 0 when
   * the text is missing (a KeyError inside the `try`) or does not parse.
   */
  function TextValue(text: Option<string>): real {
    match text
    case None => 0.0
    case Some(t) =>
      match ParseNumber(StripCommas(t))
      case None => 0.0
      case Some(v) => v
  }

  /** The meaning of the lookup loop. */
  function Resolve(nodes: seq<RawNode>, name: string): (r: Result<real, KeyError>)
    ensures r.Failure? ==> r.error == KeyError("tag")
  {
    if nodes == [] then Success(0.0)
    else if nodes[0].tag.None? then Failure(KeyError("tag"))
    else if Matches(nodes[0], name) then Success(TextValue(nodes[0].text))
    else Resolve(nodes[1..], name)
  }

  method GetFactValue(nodes: seq<RawNode>, name: string) returns (r: Result<real, KeyError>)
    ensures r == Resolve(nodes, name)
  {
    var needle := Lower(name);
    var i := 0;
    while i < |nodes|
      invariant 0 <= i <= |nodes|
      invariant Resolve(nodes[i..], name) == Resolve(nodes, name)
    {
      var node := nodes[i];
      if node.tag.None? {
        return Failure(KeyError("tag"));
      }
      if Contains(Lower(node.tag.value), needle) {
        var value := 0.0;
        if node.text.Some? {
          var parsed := ParseNumber(StripCommas(node.text.value));
          if parsed.Some? {
            value := parsed.value;
          }
        }
        return Success(value);
      }
      assert nodes[i + 1..] == nodes[i..][1..];
      i := i + 1;
    }
    return Success(0.0);
  }

  /** Node `i` is the first match, and every node before it is tagged. */
  ghost predicate FirstMatchAt(nodes: seq<RawNode>, name: string, i: int) {
    && 0 <= i < |nodes|
    && (forall j :: 0 <= j <= i ==> nodes[j].tag.Some?)
    && (forall j :: 0 <= j < i ==> !Matches(nodes[j], name))
    && Matches(nodes[i], name)
  }

  /** Node `i` has no tag, and every node before it is tagged and does not match. */
  ghost predicate UntaggedBeforeMatch(nodes: seq<RawNode>, name: string, i: int) {
    && 0 <= i < |nodes|
    && nodes[i].tag.None?
    && (forall j :: 0 <= j < i ==> nodes[j].tag.Some? && !Matches(nodes[j], name))
  }

  /** Every node is tagged and none matches. */
  ghost predicate NoMatch(nodes: seq<RawNode>, name: string) {
    forall j :: 0 <= j < |nodes| ==> nodes[j].tag.Some? && !Matches(nodes[j], name)
  }

  /** The first match decides the value. */
  lemma {:induction false} ResolveFirstMatch(nodes: seq<RawNode>, name: string, i: int)
    requires FirstMatchAt(nodes, name, i)
    ensures Resolve(nodes, name) == Success(TextValue(nodes[i].text))
    decreases i
  {
    if i > 0 {
      assert FirstMatchAt(nodes[1..], name, i - 1);
      ResolveFirstMatch(nodes[1..], name, i - 1);
    }
  }

  /** No match gives 0. */
  lemma {:induction false} ResolveNoMatch(nodes: seq<RawNode>, name: string)
    requires NoMatch(nodes, name)
    ensures Resolve(nodes, name) == Success(0.0)
    decreases |nodes|
  {
    if nodes != [] {
      assert NoMatch(nodes[1..], name);
      ResolveNoMatch(nodes[1..], name);
    }
  }

  /** The lookup fails exactly when an untagged node comes before any match. */
  lemma {:induction false} ResolveFailsIff(nodes: seq<RawNode>, name: string)
    ensures Resolve(nodes, name).Failure?
        <==> exists i :: UntaggedBeforeMatch(nodes, name, i)
    decreases |nodes|
  {
    if nodes == [] {
    } else if nodes[0].tag.None? {
      assert UntaggedBeforeMatch(nodes, name, 0);
    } else if Matches(nodes[0], name) {
      forall i | 0 <= i < |nodes| ensures !UntaggedBeforeMatch(nodes, name, i) {
        if i > 0 {
          assert nodes[0].tag.Some? && Matches(nodes[0], name);
        }
      }
    } else {
      ResolveFailsIff(nodes[1..], name);
      if Resolve(nodes[1..], name).Failure? {
        var i :| UntaggedBeforeMatch(nodes[1..], name, i);
        assert UntaggedBeforeMatch(nodes, name, i + 1);
      } else {
        forall i | 0 <= i < |nodes| ensures !UntaggedBeforeMatch(nodes, name, i) {
          if i > 0 {
            assert !UntaggedBeforeMatch(nodes[1..], name, i - 1);
          }
        }
      }
    }
  }

  /** A lookup over fully tagged nodes never fails. */
  lemma AllTaggedNeverFails(nodes: seq<RawNode>, name: string)
    requires forall j :: 0 <= j < |nodes| ==> nodes[j].tag.Some?
    ensures Resolve(nodes, name).Success?
  {
    ResolveFailsIff(nodes, name);
  }

  /**
   * Nodes after the first match are never consulted, even when the match's
   * text does not parse.
   */
  lemma {:induction false} LaterNodesIgnored(nodes: seq<RawNode>, name: string, i: int, rest: seq<RawNode>)
    requires FirstMatchAt(nodes, name, i)
    ensures Resolve(nodes[..i + 1] + rest, name) == Resolve(nodes, name)
  {
    var other := nodes[..i + 1] + rest;
    assert FirstMatchAt(other, name, i) by {
      forall j | 0 <= j <= i ensures other[j] == nodes[j] { }
    }
    ResolveFirstMatch(other, name, i);
    ResolveFirstMatch(nodes, name, i);
  }
}
