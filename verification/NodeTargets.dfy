/** Resolving what an operator named to one observed node: resolveNodeTarget
    (internal/application/action_policy.go) and resolveNodeActionTargets
    (internal/application/node_actions.go). */
module NodeTargets {
  import opened Roles
  import opened Sequences

  datatype Node = Node(id: string, name: string, addresses: seq<string>, role: NodeRole, version: string)

  /** NodeSnapshot.Target. */
  function Target(n: Node): string {
    if n.name != "" then n.name else if |n.addresses| > 0 then n.addresses[0] else ""
  }

  /** nodeMatchesIdentity. */
  predicate Matches(n: Node, identity: string) {
    identity != "" && (n.name == identity || n.id == identity || Target(n) == identity || identity in n.addresses)
  }

  /** The only node that answers to this identity. */
  ghost predicate OnlyMatch(nodes: seq<Node>, identity: string, i: nat) {
    i < |nodes| && Matches(nodes[i], identity) &&
    forall j :: 0 <= j < |nodes| && j != i ==> !Matches(nodes[j], identity)
  }

  /** Node i is what the identity means: nothing else answers to it, and nothing else answers
      to the name it will be addressed by. */
  ghost predicate Resolves(nodes: seq<Node>, identity: string, i: nat) {
    OnlyMatch(nodes, identity, i) && OnlyMatch(nodes, Target(nodes[i]), i)
  }

  /** resolveNodeTarget as a function, for what is said about it. */
  ghost function Resolve(nodes: seq<Node>, identity: string): Option<Node> {
    if i :| 0 <= i && Resolves(nodes, identity, i) then Some(nodes[i]) else None
  }

  lemma ResolvesUnique(nodes: seq<Node>, identity: string, i: nat)
    requires Resolves(nodes, identity, i)
    ensures Resolve(nodes, identity) == Some(nodes[i])
  {
  }

  method ResolveNodeTarget(nodes: seq<Node>, requested: string) returns (found: Option<Node>)
    ensures found == Resolve(nodes, requested)
  {
    if requested == "" { return None; }
    var matched := -1;
    for i := 0 to |nodes|
      invariant -1 <= matched < i
      invariant matched == -1 ==> forall j :: 0 <= j < i ==> !Matches(nodes[j], requested)
      invariant matched != -1 ==> Matches(nodes[matched], requested)
      invariant matched != -1 ==> forall j :: 0 <= j < i && j != matched ==> !Matches(nodes[j], requested)
    {
      if Matches(nodes[i], requested) {
        if matched != -1 {
          assert forall k :: 0 <= k ==> !OnlyMatch(nodes, requested, k);
          return None;
        }
        matched := i;
      }
    }
    if matched == -1 { return None; }
    assert forall k :: 0 <= k && OnlyMatch(nodes, requested, k) ==> k == matched;
    var canonical := Target(nodes[matched]);
    if canonical == "" { return None; }
    for i := 0 to |nodes|
      invariant forall j :: 0 <= j < i && j != matched ==> !Matches(nodes[j], canonical)
    {
      if i != matched && Matches(nodes[i], canonical) { return None; }
    }
    ResolvesUnique(nodes, requested, matched);
    return Some(nodes[matched]);
  }

  // ---- Meaning of a resolution -----------------------------------------------------------

  /** Resolving the canonical target of a resolved node gives the node again. */
  lemma ResolveIdempotent(nodes: seq<Node>, identity: string)
    requires Resolve(nodes, identity).Some?
    ensures Target(Resolve(nodes, identity).value) != ""
    ensures Resolve(nodes, Target(Resolve(nodes, identity).value)) == Resolve(nodes, identity)
  {
    var i :| 0 <= i && Resolves(nodes, identity, i);
    ResolvesUnique(nodes, identity, i);
    ResolvesUnique(nodes, Target(nodes[i]), i);
  }

  /** Two names with the same canonical target mean the same node. */
  lemma SameTargetSameNode(nodes: seq<Node>, a: string, b: string)
    requires Resolve(nodes, a).Some? && Resolve(nodes, b).Some?
    ensures Target(Resolve(nodes, a).value) == Target(Resolve(nodes, b).value) ==>
      Resolve(nodes, a) == Resolve(nodes, b)
  {
    if Target(Resolve(nodes, a).value) == Target(Resolve(nodes, b).value) {
      ResolveIdempotent(nodes, a);
      ResolveIdempotent(nodes, b);
    }
  }

  function Answering(identity: string): Node -> bool { n => Matches(n, identity) }

  lemma OnlyMatchFiltered(nodes: seq<Node>, identity: string, i: nat)
    requires OnlyMatch(nodes, identity, i)
    ensures Filter(Answering(identity), nodes) == [nodes[i]]
  {
    OnceFiltered(Answering(identity), nodes, i);
  }

  /** Being the only match is a matter of counting, whatever the order. */
  lemma OnlyMatchCounted(nodes: seq<Node>, identity: string)
    ensures (exists i :: 0 <= i && OnlyMatch(nodes, identity, i)) <==> Count(Answering(identity), nodes) == 1
  {
    var p := Answering(identity);
    CountedOnce(p, nodes);
    if i :| 0 <= i && OnlyMatch(nodes, identity, i) {
      OnceFiltered(p, nodes, i);
    }
    if i :| 0 <= i < |nodes| && p(nodes[i]) && forall j :: 0 <= j < |nodes| && j != i ==> !p(nodes[j]) {
      assert OnlyMatch(nodes, identity, i);
    }
  }

  lemma ReorderedMatch(a: seq<Node>, b: seq<Node>, identity: string, i: nat)
    requires Permutation(a, b) && OnlyMatch(a, identity, i)
    ensures exists j :: 0 <= j && OnlyMatch(b, identity, j) && b[j] == a[i]
  {
    var p := Answering(identity);
    OnlyMatchFiltered(a, identity, i);
    OnlyMatchCounted(b, identity);
    FilterPermutation(p, a, b);
    PermutationMembers(Filter(p, a), Filter(p, b));
    assert |Filter(p, b)| == 1;
    var j :| 0 <= j && OnlyMatch(b, identity, j);
    OnlyMatchFiltered(b, identity, j);
    assert a[i] in Filter(p, a);
  }

  /** The order of the node list does not matter. */
  lemma ResolveOrderIndependent(a: seq<Node>, b: seq<Node>, identity: string)
    requires Permutation(a, b)
    ensures Resolve(a, identity) == Resolve(b, identity)
  {
    if i :| 0 <= i && Resolves(a, identity, i) {
      ReorderedResolves(a, b, identity, i);
    } else if j :| 0 <= j && Resolves(b, identity, j) {
      ReorderedResolves(b, a, identity, j);
    }
  }

  lemma ReorderedResolves(a: seq<Node>, b: seq<Node>, identity: string, i: nat)
    requires Permutation(a, b) && Resolves(a, identity, i)
    ensures Resolve(a, identity) == Resolve(b, identity) == Some(a[i])
  {
    var canonical := Target(a[i]);
    ReorderedMatch(a, b, identity, i);
    ReorderedMatch(a, b, canonical, i);
    var j :| 0 <= j && OnlyMatch(b, identity, j) && b[j] == a[i];
    var k :| 0 <= k && OnlyMatch(b, canonical, k) && b[k] == a[i];
    assert Matches(b[j], canonical);
    assert j == k;
    ResolvesUnique(a, identity, i);
    ResolvesUnique(b, identity, j);
  }

  // ---- Targets of one action ----------------------------------------------------------------

  predicate KnownRole(r: NodeRole) { r.ControlRole? || r.WorkerRole? }

  /** Every requested identity means one node of known role. */
  ghost predicate AllResolve(nodes: seq<Node>, requested: seq<string>) {
    forall identity :: identity in requested ==>
      Resolve(nodes, identity).Some? && KnownRole(Resolve(nodes, identity).value.role)
  }

  function Targets(resolved: seq<Node>): seq<string> { Map(Target, resolved) }

  /** The resolved nodes in the order in which they were first named. */
  ghost function ResolvedNodes(nodes: seq<Node>, requested: seq<string>): seq<Node> {
    if requested == [] then []
    else
      var last := |requested| - 1;
      var before := ResolvedNodes(nodes, requested[..last]);
      match Resolve(nodes, requested[last])
      case Some(n) => if Target(n) in Targets(before) then before else before + [n]
      case None => before
  }

  lemma TargetsSnoc(resolved: seq<Node>, n: Node)
    ensures Targets(resolved + [n]) == Targets(resolved) + [Target(n)]
    ensures forall t :: t in Targets(resolved + [n]) <==> t in Targets(resolved) || t == Target(n)
  {
  }

  lemma StepOf(nodes: seq<Node>, requested: seq<string>, i: nat)
    requires i < |requested|
    ensures AllResolve(nodes, requested) ==> AllResolve(nodes, requested[..i + 1])
    ensures AllResolve(nodes, requested[..i + 1]) ==
      (AllResolve(nodes, requested[..i]) && Resolve(nodes, requested[i]).Some? &&
        KnownRole(Resolve(nodes, requested[i]).value.role))
    ensures var before, n := ResolvedNodes(nodes, requested[..i]), Resolve(nodes, requested[i]);
      ResolvedNodes(nodes, requested[..i + 1]) ==
        if n.Some? && Target(n.value) !in Targets(before) then before + [n.value] else before
  {
    PrefixOf(requested, i);
    assert requested[..i + 1][..i] == requested[..i];
    assert forall x :: x in requested[..i + 1] <==> x in requested[..i] || x == requested[i];
    assert forall x :: x in requested[..i + 1] ==> x in requested;
  }

  method ResolveNodeActionTargets(nodes: seq<Node>, requested: seq<string>) returns (r: Option<seq<Node>>)
    ensures r.Some? <==> requested != [] && AllResolve(nodes, requested)
    ensures r.Some? ==> r.value == ResolvedNodes(nodes, requested) && r.value != []
  {
    var resolved: seq<Node> := [];
    var seen: set<string> := {};
    for i := 0 to |requested|
      invariant AllResolve(nodes, requested[..i])
      invariant resolved == ResolvedNodes(nodes, requested[..i]) && (i > 0 ==> resolved != [])
      invariant forall t :: t in seen <==> t in Targets(resolved)
    {
      StepOf(nodes, requested, i);
      var node := ResolveNodeTarget(nodes, requested[i]);
      if node.None? { return None; }
      if !KnownRole(node.value.role) { return None; }
      var target := Target(node.value);
      if target in seen { continue; }
      seen := seen + {target};
      TargetsSnoc(resolved, node.value);
      resolved := resolved + [node.value];
    }
    assert requested[..|requested|] == requested;
    if |resolved| == 0 { return None; }
    return Some(resolved);
  }

  lemma {:induction false} ResolvedNodesFrom(nodes: seq<Node>, requested: seq<string>)
    ensures Distinct(Targets(ResolvedNodes(nodes, requested)))
    ensures forall n :: n in ResolvedNodes(nodes, requested) ==>
      exists identity :: identity in requested && Resolve(nodes, identity) == Some(n)
  {
    if requested == [] {
    } else {
      var last := |requested| - 1;
      ResolvedNodesFrom(nodes, requested[..last]);
      var before := ResolvedNodes(nodes, requested[..last]);
      assert requested[last] in requested;
      if Resolve(nodes, requested[last]).Some? {
        var n := Resolve(nodes, requested[last]).value;
        assert Targets(before + [n]) == Targets(before) + [Target(n)];
        DistinctSnoc(Targets(before), Target(n));
      }
    }
  }

  /** Dropping repeated targets loses no node: whatever was named is in the result. */
  lemma {:induction false} NoNodeLost(nodes: seq<Node>, requested: seq<string>, identity: string)
    requires identity in requested && Resolve(nodes, identity).Some?
    ensures Resolve(nodes, identity).value in ResolvedNodes(nodes, requested)
  {
    var last := |requested| - 1;
    var before := ResolvedNodes(nodes, requested[..last]);
    if identity == requested[last] {
      var n := Resolve(nodes, identity).value;
      if Target(n) in Targets(before) {
        var k :| 0 <= k < |before| && Targets(before)[k] == Target(n);
        assert before[k] in before;
        ResolvedNodesFrom(nodes, requested[..last]);
        var other :| other in requested[..last] && Resolve(nodes, other) == Some(before[k]);
        SameTargetSameNode(nodes, identity, other);
      }
    } else {
      assert requested == requested[..last] + [requested[last]];
      NoNodeLost(nodes, requested[..last], identity);
    }
  }

  /** Resolving the canonical targets again returns the same nodes in the same order, which is
      what execution relies on when it re-reads the nodes. */
  lemma ResolvedAgain(nodes: seq<Node>, requested: seq<string>)
    ensures ResolvedNodes(nodes, Targets(ResolvedNodes(nodes, requested))) == ResolvedNodes(nodes, requested)
  {
    ResolvedNodesFrom(nodes, requested);
    var resolved := ResolvedNodes(nodes, requested);
    forall n | n in resolved ensures Resolve(nodes, Target(n)) == Some(n) {
      var identity :| identity in requested && Resolve(nodes, identity) == Some(n);
      ResolveIdempotent(nodes, identity);
    }
    CanonicalAgain(nodes, resolved);
  }

  lemma {:induction false} CanonicalAgain(nodes: seq<Node>, resolved: seq<Node>)
    requires Distinct(Targets(resolved)) && forall n :: n in resolved ==> Resolve(nodes, Target(n)) == Some(n)
    ensures ResolvedNodes(nodes, Targets(resolved)) == resolved
  {
    if resolved == [] {
    } else {
      var last := |resolved| - 1;
      var before, n := resolved[..last], resolved[last];
      assert resolved == before + [n];
      assert Targets(resolved) == Targets(before) + [Target(n)];
      assert Targets(resolved)[..last] == Targets(before);
      DistinctSnoc(Targets(before), Target(n));
      CanonicalAgain(nodes, before);
      assert n in resolved;
    }
  }

  // ---- Over the fields ---------------------------------------------------------------------------

  /** An identity resolves to a node exactly when it is a name, an ID, a canonical target or an address
      of this node and of no other, and the node's name (or else its first address) is too. */
  lemma ResolveMeans(nodes: seq<Node>, identity: string, n: Node)
    ensures Resolve(nodes, identity) == Some(n) <==>
      exists i :: 0 <= i < |nodes| && nodes[i] == n && identity != "" &&
        (n.name != "" || (n.addresses != [] && n.addresses[0] != "")) &&
        var canonical := if n.name != "" then n.name else n.addresses[0];
        forall j :: 0 <= j < |nodes| ==>
          (j == i <==> nodes[j].name == identity || nodes[j].id == identity || identity in nodes[j].addresses) &&
          (j == i <==> nodes[j].name == canonical || nodes[j].id == canonical || canonical in nodes[j].addresses)
  {
    if i :| 0 <= i && Resolves(nodes, identity, i) && nodes[i] == n {
      ResolvesUnique(nodes, identity, i);
      assert Target(n) != "";
    }
  }
}
