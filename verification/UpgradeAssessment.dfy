/** The upgrade planner, AssessKubernetesUpgrade.

    Assessable says, without loops and without an order on nodes or pods, which inventories
    are accepted; PlanOf says which plan they get. The method walks the inventory as the
    source does and is proved to agree with the two. */
module UpgradeAssessment {
  import opened Roles
  import opened Sequences
  import opened Versions
  import opened UpgradeTypes
  import Text

  const SUPPORTED_CLI := "v1.14.5"

  // ---- What is accepted ------------------------------------------------------------

  predicate IdentityComplete(inv: Inventory) {
    && inv.clusterUID != "" && inv.talosClusterID != "" && inv.gateway != ""
    && inv.cli.version == SUPPORTED_CLI && inv.cli.path != "" && inv.cli.sha256 != ""
  }

  predicate IdentityKnown(n: Node) {
    && n.name != "" && n.uid != "" && n.talosID != "" && n.talosAddress != ""
    && n.role != UnknownRole && n.talosVersion != ""
  }

  predicate NodeAccepted(n: Node) {
    && IdentityKnown(n) && n.ready && ParseStable(n.kubelet).Some?
    && n.targetKubeletImage != "" && n.configFingerprint != ""
  }

  predicate ControlAccepted(n: Node, proxyEnabled: bool) {
    n.role.ControlRole? ==>
      && n.proxyConfigKnown && n.proxyEnabled == proxyEnabled
      && (proxyEnabled ==> n.proxyConfigImage != "")
      && ParseStable(n.apiServer).Some? && ParseStable(n.controllerManager).Some? && ParseStable(n.scheduler).Some?
  }

  ghost predicate KnownAs(nodes: seq<Node>, uid: string, name: string) {
    exists n :: n in nodes && n.uid == uid && n.name == name
  }

  function UIDs(nodes: seq<Node>): seq<string> { Map((n: Node) => n.uid, nodes) }

  function Names(nodes: seq<Node>): seq<string> { Map((n: Node) => n.name, nodes) }

  function Owners(proxies: seq<Proxy>): seq<string> { Map((p: Proxy) => p.nodeUID, proxies) }

  ghost predicate DistinctNodes(nodes: seq<Node>) {
    Distinct(UIDs(nodes)) && Distinct(Names(nodes))
  }

  ghost predicate NodesAccepted(inv: Inventory) {
    && inv.nodes != []
    && (forall n :: n in inv.nodes ==> NodeAccepted(n))
    && DistinctNodes(inv.nodes)
    && (forall n :: n in inv.nodes ==> ControlAccepted(n, inv.proxyEnabled))
  }

  ghost predicate ProxyAccepted(p: Proxy, nodes: seq<Node>) {
    && p.nodeUID != "" && p.name != "" && KnownAs(nodes, p.nodeUID, p.name) && ParseStable(p.version).Some?
  }

  ghost predicate ProxiesAccepted(inv: Inventory) {
    if inv.proxyEnabled then
      && |inv.proxies| == |inv.nodes|
      && (forall p :: p in inv.proxies ==> ProxyAccepted(p, inv.nodes))
      && Distinct(Owners(inv.proxies))
    else
      inv.proxies == []
  }

  function Parsed(t: VersionText): Version {
    match ParseStable(t)
    case Some(v) => v
    case None => Version(0, 0, 0)
  }

  /** Every version the control plane runs: three components per control-plane node, one per
      kube-proxy pod. */
  function ComponentVersions(nodes: seq<Node>): seq<Version> {
    if nodes == [] then []
    else
      var n := nodes[|nodes| - 1];
      ComponentVersions(nodes[..|nodes| - 1]) +
      if n.role.ControlRole? then [Parsed(n.apiServer), Parsed(n.controllerManager), Parsed(n.scheduler)] else []
  }

  function ProxyVersions(proxies: seq<Proxy>): seq<Version> {
    if proxies == [] then []
    else ProxyVersions(proxies[..|proxies| - 1]) + [Parsed(proxies[|proxies| - 1].version)]
  }

  function ControlVersions(inv: Inventory): seq<Version> {
    ComponentVersions(inv.nodes) + if inv.proxyEnabled then ProxyVersions(inv.proxies) else []
  }

  function MinVersion(vs: seq<Version>): (m: Version)
    requires vs != []
  {
    if |vs| == 1 then vs[0]
    else
      var m := MinVersion(vs[..|vs| - 1]);
      if Before(vs[|vs| - 1], m) then vs[|vs| - 1] else m
  }

  /** Patch upgrades, or one forward minor step. */
  predicate SupportedStep(from: Version, to: Version) {
    to.major == from.major && from.minor <= to.minor <= from.minor + 1 &&
    (to.minor == from.minor ==> from.patch <= to.patch)
  }

  predicate ControlVersionAllowed(v: Version, from: Version, to: Version) {
    (v == from || v == to) && v.minor <= to.minor <= v.minor + 1
  }

  predicate KubeletVersionAllowed(v: Version, source: Version, to: Version) {
    !Before(to, v) && (v == source || v == to) && v.minor <= to.minor <= v.minor + 3
  }

  /** Kubelets that are not at the target all run one version. */
  ghost predicate CoherentKubelets(nodes: seq<Node>, to: Version) {
    forall n, m :: n in nodes && m in nodes && Parsed(n.kubelet) != to && Parsed(m.kubelet) != to
      ==> Parsed(n.kubelet) == Parsed(m.kubelet)
  }

  ghost predicate KubeletsAccepted(nodes: seq<Node>, from: Version, to: Version) {
    && (from == to ==> CoherentKubelets(nodes, to))
    && (forall n ::
         n in nodes ==> KubeletVersionAllowed(Parsed(n.kubelet), if from == to then Parsed(n.kubelet) else from, to))
  }

  ghost predicate VersionsAccepted(inv: Inventory, to: Version) {
    var vs := ControlVersions(inv);
    vs != [] &&
    var from := MinVersion(vs);
    && SupportedStep(from, to)
    && (forall v :: v in vs ==> ControlVersionAllowed(v, from, to))
    && KubeletsAccepted(inv.nodes, from, to)
  }

  /** AssessKubernetesUpgrade succeeds. */
  ghost predicate Assessable(inv: Inventory, target: VersionText) {
    && IdentityComplete(inv) && inv.healthy
    && ParseStable(target).Some?
    && inv.proxyConfigKnown && inv.targetProxyImage != ""
    && NodesAccepted(inv) && ProxiesAccepted(inv)
    && VersionsAccepted(inv, ParseStable(target).value)
  }

  // ---- Which plan is made ----------------------------------------------------------

  /** Control-plane nodes first, then by name. */
  predicate PlanOrder(a: NodePlan, b: NodePlan) {
    if a.role != b.role then a.role.ControlRole? else Text.Less(a.name, b.name)
  }

  predicate OwnerOrder(a: Proxy, b: Proxy) { Text.Less(a.nodeUID, b.nodeUID) }

  function PlanNode(clusterUID: string, to: Version, n: Node): NodePlan {
    NodePlan(clusterUID, n.name, n.uid, n.talosID, n.talosAddress, n.role, n.talosVersion,
             Print(Parsed(n.kubelet)), Print(to), n.kubeletImage, n.targetKubeletImage, n.configFingerprint,
             n.unschedulable, Print(Parsed(n.kubelet)) == Print(to))
  }

  function UnsortedPlans(clusterUID: string, to: Version, nodes: seq<Node>): seq<NodePlan> {
    Map(n => PlanNode(clusterUID, to, n), nodes)
  }

  function PlanNodes(inv: Inventory, to: Version): seq<NodePlan> {
    Sort(UnsortedPlans(inv.clusterUID, to, inv.nodes), PlanOrder)
  }

  lemma UnsortedPlansSnoc(clusterUID: string, to: Version, nodes: seq<Node>, n: Node)
    ensures UnsortedPlans(clusterUID, to, nodes + [n]) ==
      UnsortedPlans(clusterUID, to, nodes) + [PlanNode(clusterUID, to, n)]
  {
  }

  predicate ControlPlaneAtTarget(inv: Inventory, to: Version) {
    && (forall n :: n in inv.nodes && n.role.ControlRole? ==>
          && Normalize(n.apiServer) == Normalize(n.controllerManager) == Normalize(n.scheduler) == Print(to)
          && n.proxyConfigImage == inv.targetProxyImage)
    && (if inv.proxyEnabled then
          && inv.proxyRolloutComplete && |inv.proxies| > 0 && |inv.proxies| == |inv.nodes|
          && (forall p :: p in inv.proxies ==> Normalize(p.version) == Print(to))
        else
          inv.proxies == [])
  }

  function PlanOf(inv: Inventory, target: VersionText): Plan
    requires ParseStable(target).Some? && ControlVersions(inv) != []
  {
    var to := ParseStable(target).value;
    Plan(inv.clusterUID, inv.talosClusterID, inv.gateway, inv.cli,
         Print(MinVersion(ControlVersions(inv))), Print(to),
         inv.proxyEnabled, inv.targetProxyImage, Sort(inv.proxies, OwnerOrder), PlanNodes(inv, to),
         inv.manifests, ControlPlaneAtTarget(inv, to) && inv.manifestsConverged, "")
  }

  ghost function Assess(inv: Inventory, target: VersionText): Option<Plan> {
    if Assessable(inv, target) then Some(PlanOf(inv, target)) else None
  }

  // ---- The source's walk over the inventory ----------------------------------------

  /** Lines 168-197: node checks, duplicate checks and the unsorted node plans. */
  method CollectNodes(inv: Inventory, to: Version) returns (plans: Option<seq<NodePlan>>)
    ensures plans.Some? <==>
      (forall n :: n in inv.nodes ==> NodeAccepted(n)) && DistinctNodes(inv.nodes)
    ensures plans.Some? ==> plans.value == UnsortedPlans(inv.clusterUID, to, inv.nodes)
  {
    var seenUID: set<string>, seenName: set<string> := {}, {};
    var collected: seq<NodePlan> := [];
    ghost var uids, names := UIDs(inv.nodes), Names(inv.nodes);
    for i := 0 to |inv.nodes|
      invariant forall j :: 0 <= j < i ==> NodeAccepted(inv.nodes[j])
      invariant forall u :: u in seenUID <==> u in uids[..i]
      invariant forall u :: u in seenName <==> u in names[..i]
      invariant Distinct(uids[..i]) && Distinct(names[..i])
      invariant collected == UnsortedPlans(inv.clusterUID, to, inv.nodes[..i])
    {
      var node := inv.nodes[i];
      PrefixOf(uids, i);
      PrefixOf(names, i);
      DistinctSnoc(uids[..i], uids[i]);
      DistinctSnoc(names[..i], names[i]);
      assert node in inv.nodes;
      if !IdentityKnown(node) { return None; }
      if node.uid in seenUID { return None; }
      if node.name in seenName { return None; }
      seenUID, seenName := seenUID + {node.uid}, seenName + {node.name};
      if !node.ready { return None; }
      var kubelet := ParseStable(node.kubelet);
      if kubelet.None? { return None; }
      if node.targetKubeletImage == "" || node.configFingerprint == "" { return None; }
      UnsortedPlansSnoc(inv.clusterUID, to, inv.nodes[..i], node);
      PrefixOf(inv.nodes, i);
      collected := collected + [PlanNode(inv.clusterUID, to, node)];
    }
    assert inv.nodes[..|inv.nodes|] == inv.nodes;
    assert uids[..|uids|] == uids && names[..|names|] == names;
    return Some(collected);
  }

  /** Lines 207-221: one control-plane node. */
  method CheckComponents(node: Node, proxyEnabled: bool) returns (versions: Option<seq<Version>>)
    requires node.role.ControlRole?
    ensures versions.Some? <==> ControlAccepted(node, proxyEnabled)
    ensures versions.Some? ==>
      versions.value == [Parsed(node.apiServer), Parsed(node.controllerManager), Parsed(node.scheduler)]
  {
    if !node.proxyConfigKnown || node.proxyEnabled != proxyEnabled { return None; }
    if proxyEnabled && node.proxyConfigImage == "" { return None; }
    var api := ParseStable(node.apiServer);
    if api.None? { return None; }
    var manager := ParseStable(node.controllerManager);
    if manager.None? { return None; }
    var scheduler := ParseStable(node.scheduler);
    if scheduler.None? { return None; }
    return Some([api.value, manager.value, scheduler.value]);
  }

  /** Lines 204-222: the component versions of the control-plane nodes. */
  method CollectComponents(inv: Inventory) returns (versions: Option<seq<Version>>)
    ensures versions.Some? <==> forall n :: n in inv.nodes ==> ControlAccepted(n, inv.proxyEnabled)
    ensures versions.Some? ==> versions.value == ComponentVersions(inv.nodes)
  {
    var collected: seq<Version> := [];
    for i := 0 to |inv.nodes|
      invariant forall j :: 0 <= j < i ==> ControlAccepted(inv.nodes[j], inv.proxyEnabled)
      invariant collected == ComponentVersions(inv.nodes[..i])
    {
      var node := inv.nodes[i];
      assert node in inv.nodes;
      assert inv.nodes[..i + 1][..i] == inv.nodes[..i];
      if node.role != ControlRole { continue; }
      var components := CheckComponents(node, inv.proxyEnabled);
      if components.None? { return None; }
      collected := collected + components.value;
    }
    assert inv.nodes[..|inv.nodes|] == inv.nodes;
    return Some(collected);
  }

  /** The lookup table of lines 228-231. */
  ghost predicate TableOf(known: map<string, string>, nodes: seq<Node>) {
    && (forall u :: u in known ==> KnownAs(nodes, u, known[u]))
    && (forall n :: n in nodes ==> n.uid in known && known[n.uid] == n.name)
  }

  method NodeNames(nodes: seq<Node>) returns (known: map<string, string>)
    requires Distinct(UIDs(nodes))
    ensures TableOf(known, nodes)
  {
    known := map[];
    ghost var uids := UIDs(nodes);
    for i := 0 to |nodes|
      invariant forall u :: u in known ==> KnownAs(nodes, u, known[u]) && u in uids[..i]
      invariant forall j :: 0 <= j < i ==> nodes[j].uid in known && known[nodes[j].uid] == nodes[j].name
    {
      PrefixOf(uids, i);
      DistinctSnoc(uids[..i], uids[i]);
      assert forall j :: 0 <= j < i ==> nodes[j].uid == uids[..i][j];
      known := known[nodes[i].uid := nodes[i].name];
      assert nodes[i] in nodes;
    }
  }

  lemma TableAnswers(known: map<string, string>, nodes: seq<Node>, uid: string, name: string)
    requires TableOf(known, nodes)
    ensures uid in known && known[uid] == name <==> KnownAs(nodes, uid, name)
  {
  }

  /** Lines 235-253: one kube-proxy pod. */
  method CheckProxy(proxy: Proxy, nodes: seq<Node>, known: map<string, string>, repeated: bool)
    returns (version: Option<Version>)
    requires TableOf(known, nodes)
    ensures version == if ProxyAccepted(proxy, nodes) && !repeated then ParseStable(proxy.version) else None
  {
    TableAnswers(known, nodes, proxy.nodeUID, proxy.name);
    if proxy.nodeUID == "" || proxy.name == "" { return None; }
    if (if proxy.nodeUID in known then known[proxy.nodeUID] else "") != proxy.name { return None; }
    if repeated { return None; }
    return ParseStable(proxy.version);
  }

  method CollectPods(proxies: seq<Proxy>, nodes: seq<Node>, known: map<string, string>)
    returns (versions: Option<seq<Version>>)
    requires TableOf(known, nodes)
    ensures versions.Some? <==> (forall p :: p in proxies ==> ProxyAccepted(p, nodes)) && Distinct(Owners(proxies))
    ensures versions.Some? ==> versions.value == ProxyVersions(proxies)
  {
    var seen: set<string> := {};
    var collected: seq<Version> := [];
    ghost var owners := Owners(proxies);
    for i := 0 to |proxies|
      invariant forall j :: 0 <= j < i ==> ProxyAccepted(proxies[j], nodes)
      invariant forall u :: u in seen <==> u in owners[..i]
      invariant Distinct(owners[..i])
      invariant collected == ProxyVersions(proxies[..i])
    {
      var proxy := proxies[i];
      assert proxy in proxies;
      PrefixOf(owners, i);
      DistinctSnoc(owners[..i], owners[i]);
      assert proxies[..i + 1] == proxies[..i] + [proxy];
      var parsed := CheckProxy(proxy, nodes, known, proxy.nodeUID in seen);
      if parsed.None? { return None; }
      seen := seen + {proxy.nodeUID};
      collected := collected + [parsed.value];
    }
    assert owners[..|owners|] == owners && proxies[..|proxies|] == proxies;
    return Some(collected);
  }

  /** Lines 223-254: the kube-proxy pods must cover the nodes one to one. */
  method CollectProxies(inv: Inventory) returns (versions: Option<seq<Version>>)
    requires inv.nodes != [] && Distinct(UIDs(inv.nodes))
    ensures versions.Some? <==> ProxiesAccepted(inv)
    ensures versions.Some? ==> versions.value == if inv.proxyEnabled then ProxyVersions(inv.proxies) else []
  {
    if !inv.proxyEnabled {
      if |inv.proxies| != 0 { return None; }
      return Some([]);
    }
    if |inv.proxies| == 0 { return None; }
    var known := NodeNames(inv.nodes);
    if |inv.proxies| != |inv.nodes| { return None; }
    versions := CollectPods(inv.proxies, inv.nodes, known);
  }

  /** Lines 258-263: the running minimum. */
  method RunningMinimum(versions: seq<Version>) returns (least: Version)
    requires versions != []
    ensures least == MinVersion(versions) && IsLeast(least, versions)
  {
    least := versions[0];
    for i := 1 to |versions|
      invariant least == MinVersion(versions[..i]) && IsLeast(least, versions[..i])
    {
      assert versions[..i + 1] == versions[..i] + [versions[i]];
      if Before(versions[i], least) {
        least := versions[i];
      }
    }
    assert versions[..|versions|] == versions;
  }

  /** coherentKubeletSource. */
  method CoherentKubeletSource(nodes: seq<NodePlan>, target: Version) returns (source: Option<Version>)
    ensures source.Some? <==>
      (forall n, m :: n in nodes && m in nodes && Parsed(n.sourceVersion) != target && Parsed(m.sourceVersion) != target
         ==> Parsed(n.sourceVersion) == Parsed(m.sourceVersion))
    ensures source.Some? ==>
      forall n :: n in nodes ==> Parsed(n.sourceVersion) == source.value || Parsed(n.sourceVersion) == target
  {
    var current := target;
    for i := 0 to |nodes|
      invariant forall j ::
        0 <= j < i ==> Parsed(nodes[j].sourceVersion) == current || Parsed(nodes[j].sourceVersion) == target
      invariant current != target ==> exists j :: 0 <= j < i && Parsed(nodes[j].sourceVersion) == current
    {
      var version := Parsed(nodes[i].sourceVersion);
      if version == target { continue; }
      if current != target && current != version {
        assert nodes[i] in nodes;
        return None;
      }
      current := version;
    }
    return Some(current);
  }

  /** Lines 269-276. */
  method CheckControlVersions(versions: seq<Version>, from: Version, to: Version) returns (ok: bool)
    ensures ok <==> forall v :: v in versions ==> ControlVersionAllowed(v, from, to)
  {
    for i := 0 to |versions|
      invariant forall j :: 0 <= j < i ==> ControlVersionAllowed(versions[j], from, to)
    {
      var version := versions[i];
      assert version in versions;
      if version != from && version != to { return false; }
      if version.minor > to.minor || to.minor - version.minor > 1 { return false; }
    }
    return true;
  }

  /** Lines 280-299. */
  method CheckKubelets(plans: seq<NodePlan>, from: Version, to: Version) returns (ok: bool)
    requires forall p :: p in plans ==> p.sourceVersion == Print(Parsed(p.sourceVersion))
    ensures ok <==> PlannedKubeletsAccepted(plans, from, to)
  {
    var source := from;
    if from == to {
      var coherent := CoherentKubeletSource(plans, to);
      if coherent.None? { return false; }
      source := coherent.value;
    }
    for i := 0 to |plans|
      invariant forall j :: 0 <= j < i ==> KubeletVersionAllowed(Parsed(plans[j].sourceVersion), source, to)
    {
      var version := Parsed(plans[i].sourceVersion);
      assert plans[i] in plans;
      if Before(to, version) { return false; }
      if version != source && version != to { return false; }
      if version.minor > to.minor || to.minor - version.minor > 3 { return false; }
    }
    return true;
  }

  ghost predicate PlannedKubeletsAccepted(plans: seq<NodePlan>, from: Version, to: Version) {
    && (from == to ==>
         forall n, m ::
           n in plans && m in plans && Parsed(n.sourceVersion) != to && Parsed(m.sourceVersion) != to ==>
             Parsed(n.sourceVersion) == Parsed(m.sourceVersion))
    && (forall n :: n in plans ==>
          KubeletVersionAllowed(Parsed(n.sourceVersion), if from == to then Parsed(n.sourceVersion) else from, to))
  }

  /** The plans carry the kubelet versions of the nodes they were made from. */
  lemma PlannedKubelets(inv: Inventory, from: Version, to: Version)
    requires forall n :: n in inv.nodes ==> NodeAccepted(n)
    ensures PlannedKubeletsAccepted(PlanNodes(inv, to), from, to) <==> KubeletsAccepted(inv.nodes, from, to)
    ensures forall p :: p in PlanNodes(inv, to) ==> p.sourceVersion == Print(Parsed(p.sourceVersion))
  {
    var plans, unsorted := PlanNodes(inv, to), UnsortedPlans(inv.clusterUID, to, inv.nodes);
    PermutationMembers(plans, unsorted);
    forall n | n in inv.nodes
      ensures PlanNode(inv.clusterUID, to, n) in plans &&
        Parsed(PlanNode(inv.clusterUID, to, n).sourceVersion) == Parsed(n.kubelet)
    {
      var i :| 0 <= i < |inv.nodes| && inv.nodes[i] == n;
      assert unsorted[i] == PlanNode(inv.clusterUID, to, n);
    }
    forall p | p in plans
      ensures exists n :: n in inv.nodes && p == PlanNode(inv.clusterUID, to, n)
    {
      var i :| 0 <= i < |unsorted| && unsorted[i] == p;
      assert inv.nodes[i] in inv.nodes;
    }
  }

  lemma {:induction false} MinVersionLeast(vs: seq<Version>)
    requires vs != []
    ensures IsLeast(MinVersion(vs), vs)
  {
    if |vs| == 1 {
    } else {
      var rest := vs[..|vs| - 1];
      MinVersionLeast(rest);
      assert vs == rest + [vs[|vs| - 1]];
    }
  }

  /** Lines 255-299: the source version, if every version is within its window. */
  method CheckVersions(inv: Inventory, nodes: seq<NodePlan>, versions: seq<Version>, to: Version)
    returns (from: Option<Version>)
    requires nodes == PlanNodes(inv, to) && versions == ControlVersions(inv) &&
      forall n :: n in inv.nodes ==> NodeAccepted(n)
    ensures from.Some? <==> VersionsAccepted(inv, to)
    ensures from.Some? ==> from.value == MinVersion(versions)
  {
    if |versions| == 0 { return None; }
    var least := RunningMinimum(versions);
    if !SupportedStep(least, to) { return None; }
    var allowed := CheckControlVersions(versions, least, to);
    if !allowed { return None; }
    PlannedKubelets(inv, least, to);
    var kubelets := CheckKubelets(nodes, least, to);
    if !kubelets { return None; }
    return Some(least);
  }

  method AssessKubernetesUpgrade(inv: Inventory, target: VersionText) returns (plan: Option<Plan>)
    ensures plan == Assess(inv, target)
  {
    if !IdentityComplete(inv) { return None; }
    if !inv.healthy || |inv.nodes| == 0 { return None; }
    var parsed := ParseStable(target);
    if parsed.None? { return None; }
    var to := parsed.value;
    if !inv.proxyConfigKnown { return None; }
    if inv.targetProxyImage == "" { return None; }
    var collected := CollectNodes(inv, to);
    if collected.None? { return None; }
    var nodes := Sort(collected.value, PlanOrder);
    var components := CollectComponents(inv);
    if components.None? { return None; }
    var proxies := CollectProxies(inv);
    if proxies.None? { return None; }
    var from := CheckVersions(inv, nodes, components.value + proxies.value, to);
    if from.None? { return None; }
    return Some(Plan(inv.clusterUID, inv.talosClusterID, inv.gateway, inv.cli, Print(from.value), Print(to),
                     inv.proxyEnabled, inv.targetProxyImage, Sort(inv.proxies, OwnerOrder), nodes, inv.manifests,
                     ControlPlaneAtTarget(inv, to) && inv.manifestsConverged, ""));
  }
}
