/** What the planner's answer depends on: not on the order in which nodes and pods were
    observed, and not on how far an earlier rollout to the same target had come. */
module UpgradePlanning {
  import opened Roles
  import opened Sequences
  import opened Versions
  import opened UpgradeTypes
  import opened UpgradeAssessment
  import Text

  // ---- Membership views of the collected versions -----------------------------------

  ghost predicate RunsComponent(n: Node, v: Version) {
    n.role.ControlRole? && (v == Parsed(n.apiServer) || v == Parsed(n.controllerManager) || v == Parsed(n.scheduler))
  }

  ghost predicate Running(inv: Inventory, v: Version) {
    || (exists n :: n in inv.nodes && RunsComponent(n, v))
    || (inv.proxyEnabled && exists p :: p in inv.proxies && v == Parsed(p.version))
  }

  lemma {:induction false} ComponentMembers(nodes: seq<Node>, v: Version)
    ensures v in ComponentVersions(nodes) <==> exists n :: n in nodes && RunsComponent(n, v)
  {
    if nodes == [] {
    } else {
      var n, rest := nodes[|nodes| - 1], nodes[..|nodes| - 1];
      ComponentMembers(rest, v);
      assert forall x :: x in nodes <==> x in rest || x == n;
      var own :=
        if n.role.ControlRole? then [Parsed(n.apiServer), Parsed(n.controllerManager), Parsed(n.scheduler)] else [];
      assert ComponentVersions(nodes) == ComponentVersions(rest) + own;
      assert v in own <==> RunsComponent(n, v);
    }
  }

  lemma {:induction false} ProxyMembers(proxies: seq<Proxy>, v: Version)
    ensures v in ProxyVersions(proxies) <==> exists p :: p in proxies && v == Parsed(p.version)
  {
    if proxies == [] {
    } else {
      var p, rest := proxies[|proxies| - 1], proxies[..|proxies| - 1];
      ProxyMembers(rest, v);
      assert forall x :: x in proxies <==> x in rest || x == p;
      assert ProxyVersions(proxies) == ProxyVersions(rest) + [Parsed(p.version)];
    }
  }

  lemma ControlMembers(inv: Inventory)
    ensures forall v :: v in ControlVersions(inv) <==> Running(inv, v)
  {
    forall v ensures v in ControlVersions(inv) <==> Running(inv, v) {
      ComponentMembers(inv.nodes, v);
      ProxyMembers(inv.proxies, v);
    }
  }

  // ---- The order of node plans --------------------------------------------------------

  function PlanUIDs(plans: seq<NodePlan>): seq<string> { Map((p: NodePlan) => p.uid, plans) }

  function PlanNames(plans: seq<NodePlan>): seq<string> { Map((p: NodePlan) => p.name, plans) }

  lemma DistinctByName(plans: seq<NodePlan>)
    requires Distinct(PlanNames(plans))
    ensures Distinct(plans)
    ensures forall p, q :: p in plans && q in plans && p.name == q.name ==> p == q
  {
  }

  lemma PlanOrderStrict(plans: seq<NodePlan>)
    requires Distinct(PlanNames(plans))
    requires forall p :: p in plans ==> p.role != UnknownRole
    ensures OrdersStrictly((set p | p in plans), PlanOrder) && Within(plans, (set p | p in plans))
  {
    var dom := set p | p in plans;
    DistinctByName(plans);
    forall p | p in dom ensures !PlanOrder(p, p) { Text.LessIrreflexive(p.name); }
    forall p, q | p in dom && q in dom && p != q ensures PlanOrder(p, q) || PlanOrder(q, p) {
      Text.LessTotal(p.name, q.name);
    }
    forall p, q, r | p in dom && q in dom && r in dom && PlanOrder(p, q) && PlanOrder(q, r) ensures PlanOrder(p, r) {
      if p.role == q.role == r.role { Text.LessTransitive(p.name, q.name, r.name); }
    }
  }

  lemma UnsortedFacts(inv: Inventory, to: Version)
    requires NodesAccepted(inv)
    ensures Distinct(PlanNames(UnsortedPlans(inv.clusterUID, to, inv.nodes)))
    ensures PlanUIDs(UnsortedPlans(inv.clusterUID, to, inv.nodes)) == UIDs(inv.nodes)
    ensures forall p :: p in UnsortedPlans(inv.clusterUID, to, inv.nodes) ==> p.role != UnknownRole
  {
    var plans := UnsortedPlans(inv.clusterUID, to, inv.nodes);
    assert PlanNames(plans) == Names(inv.nodes);
    assert PlanUIDs(plans) == UIDs(inv.nodes);
    forall p | p in plans ensures p.role != UnknownRole {
      var i :| 0 <= i < |plans| && plans[i] == p;
      assert inv.nodes[i] in inv.nodes;
    }
  }

  lemma PlansListed(inv: Inventory, to: Version)
    ensures forall n :: n in inv.nodes ==> PlanNode(inv.clusterUID, to, n) in PlanNodes(inv, to)
    ensures forall p :: p in PlanNodes(inv, to) ==> exists n :: n in inv.nodes && p == PlanNode(inv.clusterUID, to, n)
  {
    var unsorted, plans := UnsortedPlans(inv.clusterUID, to, inv.nodes), PlanNodes(inv, to);
    PermutationMembers(unsorted, plans);
    forall n | n in inv.nodes ensures PlanNode(inv.clusterUID, to, n) in plans {
      var i :| 0 <= i < |inv.nodes| && inv.nodes[i] == n;
      assert unsorted[i] == PlanNode(inv.clusterUID, to, n);
    }
    forall p | p in plans ensures exists n :: n in inv.nodes && p == PlanNode(inv.clusterUID, to, n) {
      var i :| 0 <= i < |unsorted| && unsorted[i] == p;
      assert inv.nodes[i] in inv.nodes;
    }
  }

  lemma PlansDistinct(inv: Inventory, to: Version)
    requires NodesAccepted(inv)
    ensures Permutation(PlanUIDs(PlanNodes(inv, to)), UIDs(inv.nodes))
    ensures Distinct(PlanUIDs(PlanNodes(inv, to))) && Distinct(PlanNames(PlanNodes(inv, to)))
    ensures |PlanNodes(inv, to)| == |inv.nodes|
  {
    var unsorted, plans := UnsortedPlans(inv.clusterUID, to, inv.nodes), PlanNodes(inv, to);
    UnsortedFacts(inv, to);
    MapPermutation((p: NodePlan) => p.uid, unsorted, plans);
    MapPermutation((p: NodePlan) => p.name, unsorted, plans);
    PermutationDistinct(PlanUIDs(unsorted), PlanUIDs(plans));
    PermutationDistinct(PlanNames(unsorted), PlanNames(plans));
  }

  lemma PlansSorted(inv: Inventory, to: Version)
    requires NodesAccepted(inv)
    ensures Sorted(PlanNodes(inv, to), PlanOrder)
  {
    var unsorted := UnsortedPlans(inv.clusterUID, to, inv.nodes);
    UnsortedFacts(inv, to);
    PlanOrderStrict(unsorted);
    DistinctByName(unsorted);
    SortSorts(unsorted, (set p | p in unsorted), PlanOrder);
  }

  /** An accepted plan lists every observed node exactly once, control plane first and then
      by name, and no two entries share a UID or a name. */
  lemma PlanShape(inv: Inventory, target: VersionText)
    requires Assessable(inv, target)
    ensures Permutation(PlanUIDs(PlanOf(inv, target).nodes), UIDs(inv.nodes))
    ensures Distinct(PlanUIDs(PlanOf(inv, target).nodes)) && Distinct(PlanNames(PlanOf(inv, target).nodes))
    ensures Sorted(PlanOf(inv, target).nodes, PlanOrder)
    ensures forall n ::
      n in inv.nodes ==> PlanNode(inv.clusterUID, ParseStable(target).value, n) in PlanOf(inv, target).nodes
  {
    var to := ParseStable(target).value;
    PlansListed(inv, to);
    PlansDistinct(inv, to);
    PlansSorted(inv, to);
  }

  // ---- Order independence -------------------------------------------------------------

  /** The same observation, listed in another order. */
  ghost predicate Reordered(a: Inventory, b: Inventory) {
    && b == a.(nodes := b.nodes, proxies := b.proxies)
    && Permutation(a.nodes, b.nodes) && Permutation(a.proxies, b.proxies)
  }

  lemma ReorderedMembers(a: Inventory, b: Inventory)
    requires Reordered(a, b)
    ensures |a.nodes| == |b.nodes| && |a.proxies| == |b.proxies|
    ensures forall n :: n in a.nodes <==> n in b.nodes
    ensures forall p :: p in a.proxies <==> p in b.proxies
    ensures forall v :: v in ControlVersions(a) <==> v in ControlVersions(b)
    ensures ControlVersions(a) != [] ==>
      ControlVersions(b) != [] && MinVersion(ControlVersions(a)) == MinVersion(ControlVersions(b))
  {
    PermutationMembers(a.nodes, b.nodes);
    PermutationMembers(a.proxies, b.proxies);
    ControlMembers(a);
    ControlMembers(b);
    var vs, ws := ControlVersions(a), ControlVersions(b);
    assert forall v :: Running(a, v) <==> Running(b, v);
    if vs != [] {
      assert vs[0] in ws;
      MinVersionLeast(vs);
      MinVersionLeast(ws);
      LeastUnique(MinVersion(vs), MinVersion(ws), vs, ws);
    }
  }

  lemma ReorderedAccepted(a: Inventory, b: Inventory, target: VersionText)
    requires Reordered(a, b) && Assessable(a, target)
    ensures Assessable(b, target)
  {
    ReorderedMembers(a, b);
    MapPermutation((n: Node) => n.uid, a.nodes, b.nodes);
    MapPermutation((n: Node) => n.name, a.nodes, b.nodes);
    MapPermutation((p: Proxy) => p.nodeUID, a.proxies, b.proxies);
    PermutationDistinct(UIDs(a.nodes), UIDs(b.nodes));
    PermutationDistinct(Names(a.nodes), Names(b.nodes));
    assert NodesAccepted(b);
    assert ProxiesAccepted(b) by {
      if a.proxyEnabled {
        PermutationDistinct(Owners(a.proxies), Owners(b.proxies));
        forall p | p in b.proxies ensures ProxyAccepted(p, b.nodes) {
          assert ProxyAccepted(p, a.nodes);
          var n :| n in a.nodes && n.uid == p.nodeUID && n.name == p.name;
          assert n in b.nodes;
        }
      }
    }
  }

  lemma OwnerOrderStrict(proxies: seq<Proxy>)
    requires Distinct(Owners(proxies))
    ensures Distinct(proxies)
    ensures OrdersStrictly((set p | p in proxies), OwnerOrder) && Within(proxies, (set p | p in proxies))
  {
    var dom, owners := (set p | p in proxies), Owners(proxies);
    assert forall i :: 0 <= i < |proxies| ==> owners[i] == proxies[i].nodeUID;
    forall p | p in dom ensures !OwnerOrder(p, p) { Text.LessIrreflexive(p.nodeUID); }
    forall p, q | p in dom && q in dom && p != q ensures OwnerOrder(p, q) || OwnerOrder(q, p) {
      Text.LessTotal(p.nodeUID, q.nodeUID);
      var i :| 0 <= i < |proxies| && proxies[i] == p;
      var j :| 0 <= j < |proxies| && proxies[j] == q;
      assert owners[i] != owners[j];
    }
    forall p, q, r | p in dom && q in dom && r in dom && OwnerOrder(p, q) && OwnerOrder(q, r) ensures OwnerOrder(p, r) {
      Text.LessTransitive(p.nodeUID, q.nodeUID, r.nodeUID);
    }
  }

  lemma ReorderedNodes(a: Inventory, b: Inventory, to: Version)
    requires Reordered(a, b) && NodesAccepted(a)
    ensures PlanNodes(a, to) == PlanNodes(b, to)
  {
    var left, right := UnsortedPlans(a.clusterUID, to, a.nodes), UnsortedPlans(b.clusterUID, to, b.nodes);
    MapPermutation(n => PlanNode(a.clusterUID, to, n), a.nodes, b.nodes);
    UnsortedFacts(a, to);
    PlanOrderStrict(left);
    DistinctByName(left);
    SortOrderIndependent(left, right, (set p | p in left), PlanOrder);
  }

  lemma ReorderedProxies(a: Inventory, b: Inventory)
    requires Reordered(a, b) && ProxiesAccepted(a)
    ensures Sort(a.proxies, OwnerOrder) == Sort(b.proxies, OwnerOrder)
  {
    if a.proxyEnabled {
      OwnerOrderStrict(a.proxies);
      SortOrderIndependent(a.proxies, b.proxies, (set p | p in a.proxies), OwnerOrder);
    } else {
      PermutationMembers(a.proxies, b.proxies);
    }
  }

  lemma ReorderedAtTarget(a: Inventory, b: Inventory, to: Version)
    requires Reordered(a, b)
    ensures ControlPlaneAtTarget(a, to) <==> ControlPlaneAtTarget(b, to)
  {
    PermutationMembers(a.nodes, b.nodes);
    PermutationMembers(a.proxies, b.proxies);
  }

  lemma ReorderedPlan(a: Inventory, b: Inventory, target: VersionText)
    requires Reordered(a, b) && Assessable(a, target) && Assessable(b, target)
    ensures PlanOf(a, target) == PlanOf(b, target)
  {
    var to := ParseStable(target).value;
    ReorderedMembers(a, b);
    ReorderedNodes(a, b, to);
    ReorderedProxies(a, b);
    ReorderedAtTarget(a, b, to);
  }

  /** The order of nodes and pods in the inventory changes neither whether a plan is made
      nor which one. */
  lemma OrderIndependent(a: Inventory, b: Inventory, target: VersionText)
    requires Reordered(a, b)
    ensures Assess(a, target) == Assess(b, target)
  {
    if Assessable(a, target) {
      ReorderedAccepted(a, b, target);
      ReorderedPlan(a, b, target);
    } else if Assessable(b, target) {
      ReorderedAccepted(b, a, target);
    }
  }

  // ---- Resuming an interrupted rollout --------------------------------------------------

  /** A version that stayed, or now spells the target in any way. */
  predicate Moved(before: VersionText, after: VersionText, to: Version) {
    after == before || ParseStable(after) == Some(to)
  }

  /** The same node later in a rollout: any of its versions may have moved to the target;
      its image, configuration and cordon may have changed. */
  predicate NodeAdvanced(a: Node, b: Node, to: Version) {
    && b.name == a.name && b.uid == a.uid && b.role == a.role
    && b.talosID != "" && b.talosAddress != "" && b.talosVersion != ""
    && b.ready && b.targetKubeletImage != "" && b.configFingerprint != ""
    && b.proxyEnabled == a.proxyEnabled && b.proxyConfigKnown == a.proxyConfigKnown
    && (b.proxyConfigImage == "" ==> a.proxyConfigImage == "")
    && Moved(a.apiServer, b.apiServer, to) && Moved(a.controllerManager, b.controllerManager, to)
    && Moved(a.scheduler, b.scheduler, to) && Moved(a.kubelet, b.kubelet, to)
  }

  ghost predicate Advanced(a: Inventory, b: Inventory, to: Version) {
    && b.clusterUID == a.clusterUID && IdentityComplete(b) && b.healthy
    && b.proxyConfigKnown && b.targetProxyImage != "" && b.proxyEnabled == a.proxyEnabled
    && |b.nodes| == |a.nodes| && (forall i :: 0 <= i < |a.nodes| ==> NodeAdvanced(a.nodes[i], b.nodes[i], to))
    && |b.proxies| == |a.proxies|
    && (forall i :: 0 <= i < |a.proxies| ==>
          b.proxies[i] == a.proxies[i].(version := b.proxies[i].version) &&
          Moved(a.proxies[i].version, b.proxies[i].version, to))
  }

  lemma AdvancedNode(a: Node, b: Node, to: Version, proxyEnabled: bool)
    requires NodeAdvanced(a, b, to) && to.major == 1 && NodeAccepted(a) && ControlAccepted(a, proxyEnabled)
    ensures NodeAccepted(b) && ControlAccepted(b, proxyEnabled)
  {
  }

  lemma AdvancedProxy(a: Inventory, b: Inventory, to: Version, i: nat)
    requires Advanced(a, b, to) && to.major == 1 && i < |b.proxies| && i < |a.proxies| &&
      ProxyAccepted(a.proxies[i], a.nodes)
    requires UIDs(b.nodes) == UIDs(a.nodes) && Names(b.nodes) == Names(a.nodes)
    ensures ProxyAccepted(b.proxies[i], b.nodes)
  {
    var n :| n in a.nodes && n.uid == a.proxies[i].nodeUID && n.name == a.proxies[i].name;
    var j :| 0 <= j < |a.nodes| && a.nodes[j] == n;
    assert UIDs(b.nodes)[j] == n.uid && Names(b.nodes)[j] == n.name;
    assert b.nodes[j] in b.nodes;
  }

  lemma AdvancedNodes(a: Inventory, b: Inventory, target: VersionText)
    requires Assessable(a, target) && Advanced(a, b, ParseStable(target).value)
    ensures NodesAccepted(b) && ProxiesAccepted(b)
    ensures UIDs(b.nodes) == UIDs(a.nodes) && Names(b.nodes) == Names(a.nodes)
  {
    var to := ParseStable(target).value;
    assert UIDs(b.nodes) == UIDs(a.nodes) && Names(b.nodes) == Names(a.nodes);
    forall n | n in b.nodes ensures NodeAccepted(n) && ControlAccepted(n, b.proxyEnabled) {
      var i :| 0 <= i < |b.nodes| && b.nodes[i] == n;
      assert a.nodes[i] in a.nodes;
      AdvancedNode(a.nodes[i], n, to, b.proxyEnabled);
    }
    if a.proxyEnabled {
      assert Owners(b.proxies) == Owners(a.proxies);
      forall p | p in b.proxies ensures ProxyAccepted(p, b.nodes) {
        var i :| 0 <= i < |b.proxies| && b.proxies[i] == p;
        assert a.proxies[i] in a.proxies;
        AdvancedProxy(a, b, to, i);
      }
    }
  }

  lemma ComponentMoved(a: Node, b: Node, v: Version, to: Version)
    requires NodeAdvanced(a, b, to) && RunsComponent(b, v)
    ensures v == to || RunsComponent(a, v)
  {
  }

  /** A version running later was running before, or is the target. */
  lemma AdvancedRunning(a: Inventory, b: Inventory, to: Version, v: Version)
    requires Advanced(a, b, to) && Running(b, v)
    ensures v == to || Running(a, v)
  {
    if n :| n in b.nodes && RunsComponent(n, v) {
      var i :| 0 <= i < |b.nodes| && b.nodes[i] == n;
      ComponentMoved(a.nodes[i], n, v, to);
      assert a.nodes[i] in a.nodes;
    } else {
      var p :| p in b.proxies && v == Parsed(p.version);
      var i :| 0 <= i < |b.proxies| && b.proxies[i] == p;
      assert a.proxies[i] in a.proxies;
    }
  }

  /** Something still runs. */
  lemma AdvancedSomething(a: Inventory, b: Inventory, to: Version, v: Version)
    requires Advanced(a, b, to) && Running(a, v)
    ensures exists w :: Running(b, w)
  {
    if n :| n in a.nodes && RunsComponent(n, v) {
      var i :| 0 <= i < |a.nodes| && a.nodes[i] == n;
      var m := b.nodes[i];
      assert m in b.nodes && RunsComponent(m, Parsed(m.apiServer));
      assert Running(b, Parsed(m.apiServer));
    } else {
      var p :| p in a.proxies && v == Parsed(p.version);
      var i :| 0 <= i < |a.proxies| && a.proxies[i] == p;
      assert b.proxies[i] in b.proxies;
      assert Running(b, Parsed(b.proxies[i].version));
    }
  }

  lemma AdvancedVersions(a: Inventory, b: Inventory, to: Version)
    requires ControlVersions(a) != [] && Advanced(a, b, to)
    ensures ControlVersions(b) != []
    ensures forall v :: v in ControlVersions(b) ==> v == to || v in ControlVersions(a)
  {
    ControlMembers(a);
    ControlMembers(b);
    forall v | v in ControlVersions(b) ensures v == to || v in ControlVersions(a) {
      AdvancedRunning(a, b, to, v);
    }
    AdvancedSomething(a, b, to, ControlVersions(a)[0]);
    var w :| Running(b, w);
    assert w in ControlVersions(b);
  }

  lemma AdvancedWindow(a: Inventory, b: Inventory, target: VersionText)
    requires Assessable(a, target) && Advanced(a, b, ParseStable(target).value)
    ensures VersionsAccepted(b, ParseStable(target).value)
  {
    var to := ParseStable(target).value;
    AdvancedVersions(a, b, to);
    var vs, ws := ControlVersions(a), ControlVersions(b);
    var from, from' := MinVersion(vs), MinVersion(ws);
    MinVersionLeast(vs);
    MinVersionLeast(ws);
    assert from' == to || from' == from;
    assert KubeletsAccepted(b.nodes, from', to) by {
      forall n | n in b.nodes
        ensures exists m :: m in a.nodes && (Parsed(n.kubelet) == to || Parsed(n.kubelet) == Parsed(m.kubelet))
      {
        var i :| 0 <= i < |b.nodes| && b.nodes[i] == n;
        assert NodeAdvanced(a.nodes[i], n, to);
        assert a.nodes[i] in a.nodes;
      }
    }
    forall v | v in ws ensures ControlVersionAllowed(v, from', to) {
      assert v == to || v in vs;
      assert !Before(v, from');
    }
  }

  /** After any part of an accepted rollout, whichever versions reached the target, the
      cluster is accepted again for the same target and the nodes keep their order. */
  lemma Resumable(a: Inventory, b: Inventory, target: VersionText)
    requires Assessable(a, target) && Advanced(a, b, ParseStable(target).value)
    ensures Assessable(b, target)
    ensures PlanUIDs(PlanOf(b, target).nodes) == PlanUIDs(PlanOf(a, target).nodes)
  {
    AdvancedNodes(a, b, target);
    AdvancedWindow(a, b, target);
    var to := ParseStable(target).value;
    assert Map(NodeKey, a.nodes) == Map(NodeKey, b.nodes) by {
      assert forall i :: 0 <= i < |a.nodes| ==> NodeAdvanced(a.nodes[i], b.nodes[i], to);
    }
    SameNodeOrder(a, b, to);
  }

  datatype Key = Key(role: NodeRole, name: string, uid: string)

  function KeyOf(p: NodePlan): Key { Key(p.role, p.name, p.uid) }

  predicate KeyOrder(a: Key, b: Key) {
    if a.role != b.role then a.role.ControlRole? else Text.Less(a.name, b.name)
  }

  lemma RolesKnown(inv: Inventory, to: Version)
    requires NodesAccepted(inv)
    ensures forall p :: p in PlanNodes(inv, to) ==> p.role != UnknownRole
  {
    PlansListed(inv, to);
    forall p | p in PlanNodes(inv, to) ensures p.role != UnknownRole {
      var n :| n in inv.nodes && p == PlanNode(inv.clusterUID, to, n);
      assert NodeAccepted(n);
    }
  }

  lemma SameKeys(a: Inventory, b: Inventory, to: Version)
    requires NodesAccepted(a) && NodesAccepted(b) && Map(NodeKey, a.nodes) == Map(NodeKey, b.nodes)
    ensures Map(KeyOf, PlanNodes(a, to)) == Map(KeyOf, PlanNodes(b, to))
  {
    PlansDistinct(a, to);
    PlansKeyed(a, to);
    PlansKeyed(b, to);
    RolesKnown(a, to);
    KeyOrderStrict(PlanNodes(a, to));
    var keys := Map(KeyOf, PlanNodes(a, to));
    SortedUnique(keys, Map(KeyOf, PlanNodes(b, to)), (set k | k in keys), KeyOrder);
  }

  lemma SameNodeOrder(a: Inventory, b: Inventory, to: Version)
    requires NodesAccepted(a) && NodesAccepted(b) && Map(NodeKey, a.nodes) == Map(NodeKey, b.nodes)
    ensures PlanUIDs(PlanNodes(a, to)) == PlanUIDs(PlanNodes(b, to))
  {
    var p, q := PlanNodes(a, to), PlanNodes(b, to);
    SameKeys(a, b, to);
    assert |p| == |Map(KeyOf, p)| == |q|;
    forall i | 0 <= i < |p| ensures PlanUIDs(p)[i] == PlanUIDs(q)[i] {
      assert KeyOf(p[i]) == Map(KeyOf, p)[i] == Map(KeyOf, q)[i] == KeyOf(q[i]);
    }
  }

  function NodeKey(n: Node): Key { Key(n.role, n.name, n.uid) }

  lemma PlansKeyed(inv: Inventory, to: Version)
    requires NodesAccepted(inv)
    ensures Permutation(Map(KeyOf, PlanNodes(inv, to)), Map(NodeKey, inv.nodes))
    ensures Sorted(Map(KeyOf, PlanNodes(inv, to)), KeyOrder)
  {
    var unsorted, plans := UnsortedPlans(inv.clusterUID, to, inv.nodes), PlanNodes(inv, to);
    assert Map(KeyOf, unsorted) == Map(NodeKey, inv.nodes);
    MapPermutation(KeyOf, unsorted, plans);
    PlansSorted(inv, to);
    forall i, j | 0 <= i < j < |plans| ensures KeyOrder(Map(KeyOf, plans)[i], Map(KeyOf, plans)[j]) {
      assert PlanOrder(plans[i], plans[j]);
    }
  }

  lemma KeyOrderStrict(plans: seq<NodePlan>)
    requires Distinct(PlanNames(plans)) && forall p :: p in plans ==> p.role != UnknownRole
    ensures OrdersStrictly((set k | k in Map(KeyOf, plans)), KeyOrder)
  {
    var keys := Map(KeyOf, plans);
    var dom := set k | k in keys;
    DistinctByName(plans);
    forall k | k in dom ensures exists p :: p in plans && k == KeyOf(p) {
      var i :| 0 <= i < |keys| && keys[i] == k;
      assert plans[i] in plans;
    }
    forall k | k in dom ensures !KeyOrder(k, k) { Text.LessIrreflexive(k.name); }
    forall k, l | k in dom && l in dom && k != l ensures KeyOrder(k, l) || KeyOrder(l, k) {
      Text.LessTotal(k.name, l.name);
    }
    forall k, l, m | k in dom && l in dom && m in dom && KeyOrder(k, l) && KeyOrder(l, m) ensures KeyOrder(k, m) {
      if k.role == l.role == m.role { Text.LessTransitive(k.name, l.name, m.name); }
    }
  }
}
