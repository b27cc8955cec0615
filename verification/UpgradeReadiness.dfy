/** The read-only checks of the rollout: controlPlaneReachedTarget, allKubeletsReachedTarget
    and findUpgradeNode (internal/application/kubernetes_upgrade.go). */
module UpgradeReadiness {
  import opened Roles
  import opened Sequences
  import opened Versions
  import opened UpgradeTypes
  import opened UpgradeAssessment
  import opened UpgradePlanning

  // ---- Lookup ------------------------------------------------------------------------

  /** Position of the first node with this UID, |nodes| if there is none. */
  function Find(nodes: seq<Node>, uid: string): (i: nat)
    ensures i <= |nodes|
    ensures i < |nodes| ==> nodes[i].uid == uid
    ensures forall j :: 0 <= j < i ==> nodes[j].uid != uid
  {
    if nodes == [] then 0
    else if nodes[0].uid == uid then 0
    else
      var i := Find(nodes[1..], uid);
      assert forall j :: 0 < j < i + 1 ==> nodes[j] == nodes[1..][j - 1];
      i + 1
  }

  predicate Listed(nodes: seq<Node>, uid: string) { Find(nodes, uid) < |nodes| }

  function Lookup(nodes: seq<Node>, uid: string): Node
    requires Listed(nodes, uid)
  {
    nodes[Find(nodes, uid)]
  }

  lemma FindFirst(nodes: seq<Node>, uid: string, i: nat)
    requires i < |nodes| && nodes[i].uid == uid && forall j :: 0 <= j < i ==> nodes[j].uid != uid
    ensures Find(nodes, uid) == i
  {
  }

  /** findUpgradeNode. */
  method FindUpgradeNode(nodes: seq<Node>, uid: string) returns (i: nat)
    ensures i == Find(nodes, uid)
  {
    i := 0;
    while i < |nodes|
      invariant i <= |nodes| && forall j :: 0 <= j < i ==> nodes[j].uid != uid
    {
      if nodes[i].uid == uid {
        FindFirst(nodes, uid, i);
        return;
      }
      i := i + 1;
    }
  }

  // ---- The control plane has reached the target ---------------------------------------

  /** The name planned for a UID; "" for a UID that is not planned, as a Go map answers. */
  function PlannedName(plans: seq<NodePlan>, uid: string): string {
    if plans == [] then ""
    else
      var last := |plans| - 1;
      if plans[last].uid == uid then plans[last].name else PlannedName(plans[..last], uid)
  }

  predicate ComponentsAtTarget(n: Node, plan: Plan) {
    n.role.ControlRole? ==>
      && n.proxyConfigKnown && n.proxyEnabled == plan.proxyEnabled && n.proxyConfigImage == plan.targetProxyImage
      && n.apiServer == plan.targetVersion && n.controllerManager == plan.targetVersion
      && n.scheduler == plan.targetVersion
  }

  predicate ProxyAtTarget(p: Proxy, plan: Plan) {
    p.version == plan.targetVersion && p.name == PlannedName(plan.nodes, p.nodeUID)
  }

  ghost predicate ProxiesAtTarget(inv: Inventory, plan: Plan) {
    if plan.proxyEnabled then
      && inv.proxyRolloutComplete && |inv.proxies| == |plan.nodes|
      && (forall p :: p in inv.proxies ==> ProxyAtTarget(p, plan))
      && Distinct(Owners(inv.proxies))
    else
      inv.proxies == []
  }

  predicate SameCluster(inv: Inventory, plan: Plan) {
    inv.clusterUID == plan.clusterUID && inv.talosClusterID == plan.talosClusterID && |inv.nodes| == |plan.nodes|
  }

  ghost predicate ControlPlaneReached(inv: Inventory, plan: Plan) {
    && SameCluster(inv, plan)
    && inv.proxyConfigKnown && inv.proxyEnabled == plan.proxyEnabled
    && (forall n :: n in inv.nodes ==> ComponentsAtTarget(n, plan) && n.ready)
    && ProxiesAtTarget(inv, plan)
    && (forall p :: p in plan.nodes ==> Listed(inv.nodes, p.uid))
    && inv.healthy
  }

  function NameIn(names: map<string, string>, uid: string): string {
    if uid in names then names[uid] else ""
  }

  /** The lookup table of lines 416-419. */
  method PlannedNames(plans: seq<NodePlan>) returns (planned: map<string, string>)
    ensures forall u :: NameIn(planned, u) == PlannedName(plans, u)
  {
    planned := map[];
    for i := 0 to |plans|
      invariant forall u :: NameIn(planned, u) == PlannedName(plans[..i], u)
    {
      assert plans[..i + 1][..i] == plans[..i];
      planned := planned[plans[i].uid := plans[i].name];
    }
    assert plans[..|plans|] == plans;
  }

  /** `seen` holds the first i owners, which are distinct. */
  ghost predicate RecordedUpTo(uids: seq<string>, seen: set<string>, i: nat) {
    i <= |uids| && |seen| == i && Distinct(uids[..i]) && forall u :: u in seen <==> u in uids[..i]
  }

  ghost predicate Recorded(uids: seq<string>, seen: set<string>, i: nat) {
    forall m {:trigger RecordedUpTo(uids, seen, m)} :: m == i ==> RecordedUpTo(uids, seen, m)
  }

  lemma RecordedNext(uids: seq<string>, seen: set<string>, i: nat)
    requires Recorded(uids, seen, i) && i < |uids|
    ensures if uids[i] in seen then !Distinct(uids) else Recorded(uids, seen + {uids[i]}, i + 1)
  {
    assert RecordedUpTo(uids, seen, i);
    PrefixOf(uids, i);
    DistinctSnoc(uids[..i], uids[i]);
  }

  lemma RecordedAll(uids: seq<string>, seen: set<string>)
    requires Recorded(uids, seen, |uids|)
    ensures Distinct(uids) && |seen| == |uids|
  {
    assert RecordedUpTo(uids, seen, |uids|);
    assert uids[..|uids|] == uids;
  }

  method CheckPod(proxy: Proxy, plan: Plan, planned: map<string, string>) returns (ok: bool)
    requires forall u :: NameIn(planned, u) == PlannedName(plan.nodes, u)
    ensures ok <==> ProxyAtTarget(proxy, plan)
  {
    return proxy.version == plan.targetVersion && NameIn(planned, proxy.nodeUID) == proxy.name;
  }

  /** The loop over the pods; `owners` is the size of its seen-map. */
  method CheckPods(proxies: seq<Proxy>, plan: Plan, planned: map<string, string>) returns (ok: bool, owners: nat)
    requires forall u :: NameIn(planned, u) == PlannedName(plan.nodes, u)
    ensures ok <==> (forall p :: p in proxies ==> ProxyAtTarget(p, plan)) && Distinct(Owners(proxies))
    ensures ok ==> owners == |proxies|
  {
    var seen: set<string> := {};
    ghost var uids := Owners(proxies);
    for i := 0 to |proxies|
      invariant forall j :: 0 <= j < i ==> ProxyAtTarget(proxies[j], plan)
      invariant Recorded(uids, seen, i)
    {
      assert proxies[i] in proxies;
      RecordedNext(uids, seen, i);
      var fits := CheckPod(proxies[i], plan, planned);
      if !fits { return false, 0; }
      if proxies[i].nodeUID in seen { return false, 0; }
      seen := seen + {proxies[i].nodeUID};
    }
    RecordedAll(uids, seen);
    return true, |seen|;
  }

  /** Lines 409-435 of the check: one kube-proxy pod per planned node. */
  method CheckProxies(inv: Inventory, plan: Plan) returns (ok: bool)
    ensures ok <==> ProxiesAtTarget(inv, plan)
  {
    if !plan.proxyEnabled { return |inv.proxies| == 0; }
    if !inv.proxyRolloutComplete { return false; }
    if |inv.proxies| != |plan.nodes| { return false; }
    var planned := PlannedNames(plan.nodes);
    var owners;
    ok, owners := CheckPods(inv.proxies, plan, planned);
    if ok && owners != |plan.nodes| {
      assert false; // Distinct owners, as many as planned nodes: line 430 never fires.
    }
  }

  method ControlPlaneReachedTarget(inv: Inventory, plan: Plan) returns (ok: bool)
    ensures ok <==> ControlPlaneReached(inv, plan)
  {
    if inv.clusterUID != plan.clusterUID || inv.talosClusterID != plan.talosClusterID || |inv.nodes| != |plan.nodes| ||
       !inv.proxyConfigKnown || inv.proxyEnabled != plan.proxyEnabled
    {
      return false;
    }
    for i := 0 to |inv.nodes|
      invariant forall j :: 0 <= j < i ==> ComponentsAtTarget(inv.nodes[j], plan) && inv.nodes[j].ready
    {
      var node := inv.nodes[i];
      assert node in inv.nodes;
      if !ComponentsAtTarget(node, plan) { return false; }
      if !node.ready { return false; }
    }
    var proxies := CheckProxies(inv, plan);
    if !proxies { return false; }
    for i := 0 to |plan.nodes|
      invariant forall j :: 0 <= j < i ==> Listed(inv.nodes, plan.nodes[j].uid)
    {
      assert plan.nodes[i] in plan.nodes;
      var found := FindUpgradeNode(inv.nodes, plan.nodes[i].uid);
      if found == |inv.nodes| { return false; }
    }
    return inv.healthy;
  }

  // ---- Every kubelet has reached the target --------------------------------------------

  predicate KubeletAtTarget(nodes: seq<Node>, p: NodePlan, target: VersionText) {
    Listed(nodes, p.uid) &&
    var n := Lookup(nodes, p.uid);
    && n.name == p.name && n.kubelet == target && n.kubeletImage == p.targetKubeletImage && n.ready
    && n.unschedulable == p.originallyCordoned
  }

  ghost predicate AllKubeletsReached(inv: Inventory, plan: Plan) {
    && ControlPlaneReached(inv, plan)
    && (forall p :: p in plan.nodes ==> KubeletAtTarget(inv.nodes, p, plan.targetVersion))
  }

  method AllKubeletsReachedTarget(inv: Inventory, plan: Plan) returns (ok: bool)
    ensures ok <==> AllKubeletsReached(inv, plan)
  {
    if inv.clusterUID != plan.clusterUID || inv.talosClusterID != plan.talosClusterID || |inv.nodes| != |plan.nodes| {
      return false;
    }
    var reached := ControlPlaneReachedTarget(inv, plan);
    if !reached { return false; }
    for i := 0 to |plan.nodes|
      invariant forall j :: 0 <= j < i ==> KubeletAtTarget(inv.nodes, plan.nodes[j], plan.targetVersion)
    {
      var planned := plan.nodes[i];
      assert planned in plan.nodes;
      var found := FindUpgradeNode(inv.nodes, planned.uid);
      if found == |inv.nodes| ||
         inv.nodes[found].name != planned.name || inv.nodes[found].kubelet != plan.targetVersion ||
         inv.nodes[found].kubeletImage != planned.targetKubeletImage || !inv.nodes[found].ready
      {
        return false;
      }
      if inv.nodes[found].unschedulable != planned.originallyCordoned { return false; }
    }
    return true;
  }

  // ---- Readiness is a bijection --------------------------------------------------------

  /** Accepting an inventory means that it observes exactly the planned nodes, each once. */
  lemma ReachedNodesBijective(inv: Inventory, plan: Plan)
    requires ControlPlaneReached(inv, plan) && Distinct(PlanUIDs(plan.nodes))
    ensures Permutation(PlanUIDs(plan.nodes), UIDs(inv.nodes)) && Distinct(UIDs(inv.nodes))
    ensures forall i :: 0 <= i < |inv.nodes| ==> Find(inv.nodes, inv.nodes[i].uid) == i
  {
    var planned, observed := PlanUIDs(plan.nodes), UIDs(inv.nodes);
    forall u | u in planned ensures u in observed {
      var i :| 0 <= i < |planned| && planned[i] == u;
      assert plan.nodes[i] in plan.nodes;
      assert observed[Find(inv.nodes, u)] == u;
    }
    Pigeonhole(planned, observed);
    assert forall i :: 0 <= i < |inv.nodes| ==> observed[i] == inv.nodes[i].uid;
  }

  lemma {:induction false} PlannedNameOf(plans: seq<NodePlan>, uid: string)
    ensures PlannedName(plans, uid) != "" ==> uid in PlanUIDs(plans)
  {
    if plans == [] {
    } else {
      var last := |plans| - 1;
      PlannedNameOf(plans[..last], uid);
      assert PlanUIDs(plans) == PlanUIDs(plans[..last]) + [plans[last].uid];
    }
  }

  lemma {:induction false} PlannedNameFound(plans: seq<NodePlan>, uid: string)
    requires uid in PlanUIDs(plans) && forall p :: p in plans ==> p.name != ""
    ensures PlannedName(plans, uid) != ""
  {
    var last := |plans| - 1;
    assert PlanUIDs(plans) == PlanUIDs(plans[..last]) + [plans[last].uid];
    if plans[last].uid == uid {
    } else {
      PlannedNameFound(plans[..last], uid);
    }
  }

  /** With kube-proxy enabled, the accepted pods are one per planned node exactly when every pod
      carries a node name: the lookup of an unplanned UID accepts a pod without one. */
  lemma ReachedProxiesBijective(inv: Inventory, plan: Plan)
    requires ControlPlaneReached(inv, plan) && Distinct(PlanUIDs(plan.nodes)) && plan.proxyEnabled
    requires forall p :: p in plan.nodes ==> p.name != ""
    ensures Permutation(Owners(inv.proxies), PlanUIDs(plan.nodes)) <==> forall p :: p in inv.proxies ==> p.name != ""
  {
    var owners, planned := Owners(inv.proxies), PlanUIDs(plan.nodes);
    if forall p :: p in inv.proxies ==> p.name != "" {
      forall u | u in owners ensures u in planned {
        var i :| 0 <= i < |owners| && owners[i] == u;
        assert ProxyAtTarget(inv.proxies[i], plan);
        PlannedNameOf(plan.nodes, u);
      }
      Pigeonhole(owners, planned);
    }
    if Permutation(owners, planned) {
      PermutationMembers(owners, planned);
      forall p | p in inv.proxies ensures p.name != "" {
        var i :| 0 <= i < |inv.proxies| && inv.proxies[i] == p;
        assert owners[i] in planned;
        PlannedNameFound(plan.nodes, p.nodeUID);
      }
    }
  }

  /** And then every planned node has exactly one pod, at the target. */
  lemma NamedPodsOnePerNode(inv: Inventory, plan: Plan, i: nat)
    requires ControlPlaneReached(inv, plan) && Distinct(PlanUIDs(plan.nodes)) && plan.proxyEnabled && i < |plan.nodes|
    requires Permutation(Owners(inv.proxies), PlanUIDs(plan.nodes))
    ensures multiset(Owners(inv.proxies))[plan.nodes[i].uid] == 1
    ensures exists k ::
      0 <= k < |inv.proxies| && inv.proxies[k].nodeUID == plan.nodes[i].uid &&
      inv.proxies[k].version == plan.targetVersion
  {
    var owners, planned := Owners(inv.proxies), PlanUIDs(plan.nodes);
    DistinctCounts(planned);
    assert planned[i] in multiset(planned);
    PermutationMembers(owners, planned);
    assert planned[i] in owners;
    var k :| 0 <= k < |owners| && owners[k] == planned[i];
    assert ProxyAtTarget(inv.proxies[k], plan);
  }

  /** One control-plane node with its kube-proxy pod, all at 1.31.0. */
  function SettledCluster(): Inventory {
    var to, cli := Print(Version(1, 31, 0)), CliIdentity("/bin/talosctl", SUPPORTED_CLI, "sum");
    var node :=
      Node("cp", "u1", "t", "a", ControlRole, "v1", true, true, "img", to, to, to, to, "kubelet", "kubelet", "f", true,
        false);
    Inventory("c", "tc", "g", cli, [node], true, true, "img", true, [Proxy("u1", "cp", to)], [], false, true)
  }

  lemma SettledComponents()
    ensures ControlVersions(SettledCluster()) ==
      [Version(1, 31, 0), Version(1, 31, 0), Version(1, 31, 0), Version(1, 31, 0)]
  {
    var inv, to := SettledCluster(), Version(1, 31, 0);
    assert inv.nodes[..0] == [] && inv.proxies[..0] == [];
    assert ComponentVersions(inv.nodes) == [] + [to, to, to];
    assert ProxyVersions(inv.proxies) == [] + [to];
  }

  lemma SameVersionLeast(vs: seq<Version>, to: Version)
    requires vs != [] && forall v :: v in vs ==> v == to
    ensures MinVersion(vs) == to
  {
    MinVersionLeast(vs);
  }

  lemma SettledVersions()
    ensures VersionsAccepted(SettledCluster(), Version(1, 31, 0))
  {
    SettledComponents();
    SameVersionLeast(ControlVersions(SettledCluster()), Version(1, 31, 0));
  }

  lemma SettledMembers()
    ensures NodesAccepted(SettledCluster()) && ProxiesAccepted(SettledCluster())
  {
    var inv := SettledCluster();
    assert inv.nodes[0] in inv.nodes;
    assert KnownAs(inv.nodes, "u1", "cp");
  }

  lemma SettledPlan()
    ensures PlanNodes(SettledCluster(), Version(1, 31, 0)) ==
      [PlanNode("c", Version(1, 31, 0), SettledCluster().nodes[0])]
  {
    var unsorted := UnsortedPlans("c", Version(1, 31, 0), SettledCluster().nodes);
    assert unsorted == [PlanNode("c", Version(1, 31, 0), SettledCluster().nodes[0])] && unsorted[1..] == [];
  }

  /** So the name condition cannot be dropped, not even for a plan made from an accepted inventory:
      a pod without a name on an unplanned node passes for the pod of the only planned node. */
  lemma NamelessProxyAccepted()
    ensures exists start: Inventory, target: VersionText, inv: Inventory ::
      Assessable(start, target) && PlanOf(start, target).proxyEnabled &&
      ControlPlaneReached(inv, PlanOf(start, target)) &&
      !Permutation(Owners(inv.proxies), PlanUIDs(PlanOf(start, target).nodes))
  {
    var start, target := SettledCluster(), Print(Version(1, 31, 0));
    SettledVersions();
    SettledMembers();
    SettledPlan();
    var plan := PlanOf(start, target);
    var inv := start.(proxies := [Proxy("u2", "", target)]);
    NamelessReached(inv, plan);
    assert Owners(inv.proxies) == ["u2"] && PlanUIDs(plan.nodes) == ["u1"];
    assert multiset(["u2"])["u1"] == 0 && multiset(["u1"])["u1"] == 1;
  }

  lemma NamelessReached(inv: Inventory, plan: Plan)
    requires inv == SettledCluster().(proxies := [Proxy("u2", "", Print(Version(1, 31, 0)))])
    requires ControlVersions(SettledCluster()) != [] && plan == PlanOf(SettledCluster(), Print(Version(1, 31, 0)))
    requires plan.nodes == [PlanNode("c", Version(1, 31, 0), SettledCluster().nodes[0])]
    ensures ControlPlaneReached(inv, plan)
  {
    assert PlannedName(plan.nodes, "u2") == "";
    assert inv.nodes[0].uid == "u1";
    assert Listed(inv.nodes, "u1");
  }
}
