/** Composite: a tree of named nodes. A `Child` is a leaf; a `Composite` owns
    an ordered list of children. `component_function` prints the node's own
    name and then runs every child's `component_function` in list order, so
    its output is the pre-order sequence of names. */
module Composite {
  import opened Exceptions

  /** A node of the tree. The abstract `Component` base class prints nothing
      and is never instantiated, so it has no variant here. */
  datatype Component =
    | Child(name: string)
    | Composite(name: string, children: seq<Component>)

  /** The number of nodes in a tree. */
  function NodeCount(c: Component): nat {
    match c
    case Child(_) => 1
    case Composite(_, kids) => 1 + ForestCount(kids)
  }

  /** The number of nodes in a list of trees. */
  function ForestCount(cs: seq<Component>): nat {
    if |cs| == 0 then 0 else NodeCount(cs[0]) + ForestCount(cs[1..])
  }

  /** The names printed by `component_function`: own name first. */
  function Trace(c: Component): (r: seq<string>)
    ensures |r| >= 1 && r[0] == c.name
  {
    match c
    case Child(n) => [n]
    case Composite(n, kids) => [n] + ForestTrace(kids)
  }

  /** The names printed by running each tree of a list in order. */
  function ForestTrace(cs: seq<Component>): seq<string> {
    if |cs| == 0 then [] else Trace(cs[0]) + ForestTrace(cs[1..])
  }

  /** Every node is printed exactly once: the trace is as long as the tree
      has nodes. */
  lemma {:induction false} TraceLength(c: Component)
    ensures |Trace(c)| == NodeCount(c)
  {
    match c
    case Child(_) =>
    case Composite(_, kids) => ForestTraceLength(kids);
  }

  lemma {:induction false} ForestTraceLength(cs: seq<Component>)
    ensures |ForestTrace(cs)| == ForestCount(cs)
  {
    if |cs| > 0 {
      TraceLength(cs[0]);
      ForestTraceLength(cs[1..]);
    }
  }

  /** Running two lists of trees one after the other prints the first list's
      names and then the second's. */
  lemma {:induction false} ForestTraceConcat(a: seq<Component>, b: seq<Component>)
    ensures ForestTrace(a + b) == ForestTrace(a) + ForestTrace(b)
    ensures ForestCount(a + b) == ForestCount(a) + ForestCount(b)
  {
    if |a| == 0 {
      assert a + b == b;
    } else {
      assert (a + b)[1..] == a[1..] + b;
      ForestTraceConcat(a[1..], b);
    }
  }

  /** A list of trees split at position i: the part before, tree i, the rest. */
  lemma {:induction false} ForestTraceSplit(cs: seq<Component>, i: nat)
    requires i < |cs|
    ensures ForestTrace(cs) == ForestTrace(cs[..i]) + Trace(cs[i]) + ForestTrace(cs[i + 1..])
  {
    var rest := [cs[i]] + cs[i + 1..];
    assert cs == cs[..i] + rest;
    assert rest[0] == cs[i] && rest[1..] == cs[i + 1..];
    ForestTraceConcat(cs[..i], rest);
  }

  /** `append_child`: the new child goes at the end, so its names are printed
      after everything the node printed before. */
  function AppendChild(c: Component, k: Component): (r: Component)
    requires c.Composite?
    ensures r.Composite? && r.name == c.name
    ensures r.children == c.children + [k]
    ensures Trace(r) == Trace(c) + Trace(k)
    ensures NodeCount(r) == NodeCount(c) + NodeCount(k)
  {
    ForestTraceConcat(c.children, [k]);
    assert ForestTrace([k]) == Trace(k) + ForestTrace([]);
    Composite(c.name, c.children + [k])
  }

  /** The position of the first element of `s` equal to `x`. */
  function FirstIndex<T(==)>(s: seq<T>, x: T): (i: nat)
    requires x in s
    ensures i < |s| && s[i] == x && x !in s[..i]
  {
    if s[0] == x then 0 else 1 + FirstIndex(s[1..], x)
  }

  /** An element absent from `s` and appended to it is found at the end. */
  lemma FirstIndexAfter<T>(s: seq<T>, x: T)
    requires x !in s
    ensures FirstIndex(s + [x], x) == |s|
  {
  }

  /** `remove_child`: `list.remove` drops the first child equal to `k` and
      raises ValueError when there is none. */
  function RemoveChild(c: Component, k: Component): (r: Result<Component>)
    requires c.Composite?
    ensures r.Ok? <==> k in c.children
    ensures r.Err? ==> r.error == ValueError
    ensures r.Ok? ==> r.value.Composite? && r.value.name == c.name
    ensures r.Ok? ==> multiset(r.value.children) + multiset{k} == multiset(c.children)
    ensures r.Ok? ==> var i := FirstIndex(c.children, k);
                      r.value.children == c.children[..i] + c.children[i + 1..]
  {
    if k in c.children then
      var i := FirstIndex(c.children, k);
      assert c.children == c.children[..i] + [k] + c.children[i + 1..];
      Ok(Composite(c.name, c.children[..i] + c.children[i + 1..]))
    else
      Err(ValueError)
  }

  /** Removing a child deletes exactly that child's block of names from the
      trace; the names before and after it keep their order. */
  lemma {:induction false} RemoveChildTrace(c: Component, k: Component)
    requires c.Composite? && k in c.children
    ensures var i := FirstIndex(c.children, k);
            Trace(c) == [c.name] + ForestTrace(c.children[..i]) + Trace(k) + ForestTrace(c.children[i + 1..])
    ensures var i := FirstIndex(c.children, k);
            Trace(RemoveChild(c, k).value) == [c.name] + ForestTrace(c.children[..i]) + ForestTrace(c.children[i + 1..])
  {
    var i := FirstIndex(c.children, k);
    var before, after := c.children[..i], c.children[i + 1..];
    assert Trace(c) == [c.name] + ForestTrace(before) + Trace(k) + ForestTrace(after) by {
      ForestTraceSplit(c.children, i);
    }
    assert Trace(RemoveChild(c, k).value) == [c.name] + ForestTrace(before) + ForestTrace(after) by {
      assert RemoveChild(c, k).value == Composite(c.name, before + after);
      ForestTraceConcat(before, after);
    }
  }

  /** Appending a child the node did not have and removing it again gives
      back the original node. */
  lemma AppendThenRemove(c: Component, k: Component)
    requires c.Composite? && k !in c.children
    ensures RemoveChild(AppendChild(c, k), k) == Ok(c)
  {
    var r := AppendChild(c, k);
    var n := |c.children|;
    assert r.children == c.children + [k];
    assert r.children[..n] == c.children;
    FirstIndexAfter(c.children, k);
    assert r.children[..n] + r.children[n + 1..] == c.children;
  }

  /** The driver: "submenu1" with two leaves, printed root first, then the
      leaves in the order they were appended. */
  lemma DriverTrace()
    ensures var sub1 := AppendChild(AppendChild(Composite("submenu1", []), Child("sub_submenu 11")),
                                    Child("sub_submenu 12"));
            Trace(sub1) == ["submenu1", "sub_submenu 11", "sub_submenu 12"]
  {
  }
}
