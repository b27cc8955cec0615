/** What acceptance means and what a plan says, over the fields of the observation alone
    (internal/domain/kubernetes_upgrade.go). */
module PlanMeaning {
  import opened Roles
  import opened Sequences
  import opened Versions
  import opened UpgradeTypes
  import opened UpgradeAssessment
  import opened UpgradePlanning
  import Text

  /** A readable version of the supported major version. */
  predicate Readable(t: VersionText) { t.Spelled? && t.version.major == 1 }

  predicate Reads(t: VersionText, v: Version) { Readable(t) && t.version == v }

  /** Of two versions with the same major part. */
  predicate Older(a: Version, b: Version) {
    a.minor < b.minor || (a.minor == b.minor && a.patch < b.patch)
  }

  /** Some control-plane component or kube-proxy pod runs this version. */
  ghost predicate Runs(inv: Inventory, v: Version) {
    || (exists n :: n in inv.nodes && n.role == ControlRole &&
          (Reads(n.apiServer, v) || Reads(n.controllerManager, v) || Reads(n.scheduler, v)))
    || (inv.proxyEnabled && exists p :: p in inv.proxies && Reads(p.version, v))
  }

  ghost predicate OldestRunning(inv: Inventory, v: Version) {
    Runs(inv, v) && forall w :: Runs(inv, w) ==> !Older(w, v)
  }

  // ---- Acceptance ------------------------------------------------------------------------

  /** The nodes of the observation, with their components. */
  lemma NodesMean(inv: Inventory)
    ensures NodesAccepted(inv) <==>
      && inv.nodes != []
      && (forall n :: n in inv.nodes ==>
            n.name != "" && n.uid != "" && n.talosID != "" && n.talosAddress != "" && n.talosVersion != "" &&
            n.role in {ControlRole, WorkerRole} && n.ready && Readable(n.kubelet) && n.targetKubeletImage != "" &&
            n.configFingerprint != "")
      && (forall i, j :: 0 <= i < j < |inv.nodes| ==>
            inv.nodes[i].uid != inv.nodes[j].uid && inv.nodes[i].name != inv.nodes[j].name)
      && (forall n :: n in inv.nodes && n.role == ControlRole ==>
            n.proxyConfigKnown && n.proxyEnabled == inv.proxyEnabled &&
            (inv.proxyEnabled ==> n.proxyConfigImage != "") &&
            Readable(n.apiServer) && Readable(n.controllerManager) && Readable(n.scheduler))
  {
  }

  lemma ProxiesMean(inv: Inventory)
    ensures ProxiesAccepted(inv) <==>
      && (!inv.proxyEnabled ==> inv.proxies == [])
      && (inv.proxyEnabled ==>
            && |inv.proxies| == |inv.nodes|
            && (forall p :: p in inv.proxies ==>
                  p.nodeUID != "" && p.name != "" && Readable(p.version) &&
                  exists n :: n in inv.nodes && n.uid == p.nodeUID && n.name == p.name)
            && (forall i, j :: 0 <= i < j < |inv.proxies| ==> inv.proxies[i].nodeUID != inv.proxies[j].nodeUID))
  {
  }

  /** With readable versions, the collected versions are the ones that run. */
  lemma RunningMeans(inv: Inventory, v: Version)
    requires NodesAccepted(inv) && ProxiesAccepted(inv)
    ensures v in ControlVersions(inv) <==> Runs(inv, v)
    ensures Runs(inv, v) ==> v.major == 1
  {
    NodesMean(inv);
    ProxiesMean(inv);
    ControlMembers(inv);
    forall n | n in inv.nodes && n.role == ControlRole
      ensures RunsComponent(n, v) <==> Reads(n.apiServer, v) || Reads(n.controllerManager, v) || Reads(n.scheduler, v)
    {
    }
    forall p | p in inv.proxies && inv.proxyEnabled ensures v == Parsed(p.version) <==> Reads(p.version, v) {
      assert Readable(p.version);
    }
  }

  lemma OldestMeans(inv: Inventory, from: Version)
    requires NodesAccepted(inv) && ProxiesAccepted(inv)
    ensures ControlVersions(inv) != [] && from == MinVersion(ControlVersions(inv)) <==> OldestRunning(inv, from)
  {
    var vs := ControlVersions(inv);
    forall v ensures (v in vs <==> Runs(inv, v)) && (Runs(inv, v) ==> v.major == 1) { RunningMeans(inv, v); }
    if vs != [] { MinVersionLeast(vs); }
    if OldestRunning(inv, from) {
      assert from in vs;
      assert IsLeast(from, vs);
      LeastUnique(from, MinVersion(vs), vs, vs);
    }
  }

  /** The supported window: a patch upgrade or one minor step, nothing running but its two ends, and
      kubelets at the target, at the oldest control-plane version, or, once the control plane is at the
      target, together at one version at most three minor versions back. */
  ghost predicate InWindow(inv: Inventory, from: Version, to: Version) {
    && (from.minor == to.minor ==> from.patch <= to.patch) && from.minor <= to.minor <= from.minor + 1
    && ControlInWindow(inv, from, to) && KubeletsInWindow(inv, from, to)
  }

  ghost predicate ControlInWindow(inv: Inventory, from: Version, to: Version) {
    forall v :: Runs(inv, v) ==> v == from || v == to
  }

  ghost predicate KubeletsInWindow(inv: Inventory, from: Version, to: Version) {
    EachInWindow(inv, from, to) && (from == to ==> OneBehind(inv, to))
  }

  ghost predicate EachInWindow(inv: Inventory, from: Version, to: Version) {
    forall n, v :: n in inv.nodes && Reads(n.kubelet, v) && v != to ==>
      Older(v, to) && v.minor + 3 >= to.minor && (from != to ==> v == from)
  }

  ghost predicate OneBehind(inv: Inventory, to: Version) {
    forall n, m, v, w ::
      n in inv.nodes && m in inv.nodes && Reads(n.kubelet, v) && Reads(m.kubelet, w) && v != to && w != to ==> v == w
  }

  lemma KubeletReads(inv: Inventory, n: Node)
    requires NodesAccepted(inv) && n in inv.nodes
    ensures Parsed(n.kubelet).major == 1 && forall v :: Reads(n.kubelet, v) <==> v == Parsed(n.kubelet)
  {
    assert NodeAccepted(n);
  }

  lemma EachMeans(inv: Inventory, from: Version, to: Version)
    requires NodesAccepted(inv) && from.major == to.major == 1
    requires from.minor <= to.minor <= from.minor + 1 && (from.minor == to.minor ==> from.patch <= to.patch)
    ensures EachInWindow(inv, from, to) <==>
      forall n ::
        n in inv.nodes ==>
          KubeletVersionAllowed(Parsed(n.kubelet), if from == to then Parsed(n.kubelet) else from, to)
  {
    forall n | n in inv.nodes
      ensures KubeletVersionAllowed(Parsed(n.kubelet), if from == to then Parsed(n.kubelet) else from, to) <==>
        forall v :: Reads(n.kubelet, v) && v != to ==>
          Older(v, to) && v.minor + 3 >= to.minor && (from != to ==> v == from)
    {
      KubeletReads(inv, n);
    }
  }

  lemma OneBehindMeans(inv: Inventory, to: Version)
    requires NodesAccepted(inv)
    ensures OneBehind(inv, to) <==> CoherentKubelets(inv.nodes, to)
  {
    forall n | n in inv.nodes ensures forall v :: Reads(n.kubelet, v) <==> v == Parsed(n.kubelet) {
      KubeletReads(inv, n);
    }
    forall n | n in inv.nodes ensures Reads(n.kubelet, Parsed(n.kubelet)) {}
  }

  lemma KubeletsMean(inv: Inventory, from: Version, to: Version)
    requires NodesAccepted(inv) && from.major == to.major == 1
    requires from.minor <= to.minor <= from.minor + 1 && (from.minor == to.minor ==> from.patch <= to.patch)
    ensures KubeletsAccepted(inv.nodes, from, to) <==> KubeletsInWindow(inv, from, to)
  {
    EachMeans(inv, from, to);
    OneBehindMeans(inv, to);
  }

  ghost predicate ControlAllowed(vs: seq<Version>, from: Version, to: Version) {
    forall v :: v in vs ==> ControlVersionAllowed(v, from, to)
  }

  /** Acceptance in three parts, each of which is turned on its own. */
  lemma WindowParts(inv: Inventory, from: Version, to: Version)
    requires ControlVersions(inv) != [] && from == MinVersion(ControlVersions(inv))
    ensures VersionsAccepted(inv, to) <==>
      SupportedStep(from, to) && ControlAllowed(ControlVersions(inv), from, to) && KubeletsAccepted(inv.nodes, from, to)
  {
  }

  lemma ControlMeans(inv: Inventory, from: Version, to: Version)
    requires NodesAccepted(inv) && ProxiesAccepted(inv) && from.minor <= to.minor <= from.minor + 1
    ensures ControlAllowed(ControlVersions(inv), from, to) <==> ControlInWindow(inv, from, to)
  {
    forall v ensures v in ControlVersions(inv) <==> Runs(inv, v) { RunningMeans(inv, v); }
  }

  lemma WindowMeans(inv: Inventory, from: Version, to: Version)
    requires NodesAccepted(inv) && ProxiesAccepted(inv) && to.major == 1 && OldestRunning(inv, from)
    ensures VersionsAccepted(inv, to) <==> InWindow(inv, from, to)
  {
    OldestMeans(inv, from);
    WindowParts(inv, from, to);
    RunningMeans(inv, from);
    if SupportedStep(from, to) {
      ControlMeans(inv, from, to);
      KubeletsMean(inv, from, to);
    }
  }

  /** An upgrade is planned exactly for these observations and targets. */
  lemma AcceptedMeans(inv: Inventory, target: VersionText)
    ensures Assessable(inv, target) <==>
      && inv.clusterUID != "" && inv.talosClusterID != "" && inv.gateway != ""
      && inv.cli.version == "v1.14.5" && inv.cli.path != "" && inv.cli.sha256 != ""
      && inv.healthy && inv.proxyConfigKnown && inv.targetProxyImage != ""
      && Readable(target) && NodesAccepted(inv) && ProxiesAccepted(inv)
      && exists from :: OldestRunning(inv, from) && InWindow(inv, from, target.version)
  {
    if NodesAccepted(inv) && ProxiesAccepted(inv) && Readable(target) {
      if ControlVersions(inv) != [] {
        var from := MinVersion(ControlVersions(inv));
        OldestMeans(inv, from);
        WindowMeans(inv, from, target.version);
      }
      forall from | OldestRunning(inv, from) && InWindow(inv, from, target.version)
        ensures VersionsAccepted(inv, target.version)
      {
        WindowMeans(inv, from, target.version);
      }
    }
  }

  // ---- The plan ----------------------------------------------------------------------------

  /** Every component and every pod is at the target, with the target image. */
  ghost predicate EverythingAt(inv: Inventory, to: Version) {
    && (forall n :: n in inv.nodes && n.role == ControlRole ==>
          n.proxyConfigImage == inv.targetProxyImage &&
          Reads(n.apiServer, to) && Reads(n.controllerManager, to) && Reads(n.scheduler, to))
    && (inv.proxyEnabled ==> inv.proxyRolloutComplete && forall p :: p in inv.proxies ==> Reads(p.version, to))
  }

  lemma AtTargetMeans(inv: Inventory, to: Version)
    requires NodesAccepted(inv) && ProxiesAccepted(inv) && to.major == 1
    ensures ControlPlaneAtTarget(inv, to) <==> EverythingAt(inv, to)
  {
    forall n | n in inv.nodes && n.role == ControlRole
      ensures Normalize(n.apiServer) == Normalize(n.controllerManager) == Normalize(n.scheduler) == Print(to) <==>
        Reads(n.apiServer, to) && Reads(n.controllerManager, to) && Reads(n.scheduler, to)
    {
      assert ControlAccepted(n, inv.proxyEnabled);
    }
    forall p | p in inv.proxies && inv.proxyEnabled
      ensures Normalize(p.version) == Print(to) <==> Reads(p.version, to)
    {
      assert ProxyAccepted(p, inv.nodes);
    }
  }

  lemma AcceptedParts(inv: Inventory, target: VersionText)
    requires Assessable(inv, target)
    ensures Readable(target) && ParseStable(target) == Some(target.version)
    ensures NodesAccepted(inv) && ProxiesAccepted(inv) && ControlVersions(inv) != []
  {
  }

  /** The plan's own fields. */
  lemma PlanHeader(inv: Inventory, target: VersionText)
    requires Assessable(inv, target)
    ensures var plan := PlanOf(inv, target);
      && plan.clusterUID == inv.clusterUID && plan.talosClusterID == inv.talosClusterID
      && plan.gateway == inv.gateway && plan.cli == inv.cli && plan.manifests == inv.manifests
      && plan.proxyEnabled == inv.proxyEnabled && plan.targetProxyImage == inv.targetProxyImage
    ensures Readable(target) && PlanOf(inv, target).targetVersion == Spelled("", target.version)
    ensures exists from :: OldestRunning(inv, from) && PlanOf(inv, target).sourceVersion == Spelled("", from)
    ensures PlanOf(inv, target).skipControlPlane <==> inv.manifestsConverged && EverythingAt(inv, target.version)
  {
    AcceptedParts(inv, target);
    OldestMeans(inv, MinVersion(ControlVersions(inv)));
    AtTargetMeans(inv, target.version);
  }

  /** The pods are the observed ones, by the UIDs of their nodes. */
  lemma PlanProxies(inv: Inventory, target: VersionText)
    requires Assessable(inv, target)
    ensures Permutation(PlanOf(inv, target).proxies, inv.proxies)
    ensures forall i, j :: 0 <= i < j < |PlanOf(inv, target).proxies| ==>
      Text.Less(PlanOf(inv, target).proxies[i].nodeUID, PlanOf(inv, target).proxies[j].nodeUID)
  {
    AcceptedParts(inv, target);
    SortedProxies(inv);
  }

  lemma SortedProxies(inv: Inventory)
    requires ProxiesAccepted(inv)
    ensures Sorted(Sort(inv.proxies, OwnerOrder), OwnerOrder)
  {
    if inv.proxyEnabled {
      OwnerOrderStrict(inv.proxies);
      SortSorts(inv.proxies, (set p | p in inv.proxies), OwnerOrder);
    }
  }

  /** Control-plane nodes come first, and nodes of the same role by name. */
  lemma PlanSequence(inv: Inventory, target: VersionText, i: nat, j: nat)
    requires Assessable(inv, target) && i < j < |PlanOf(inv, target).nodes|
    ensures var p, q := PlanOf(inv, target).nodes[i], PlanOf(inv, target).nodes[j];
      && (q.role == ControlRole ==> p.role == ControlRole) && (p.role == q.role ==> Text.Less(p.name, q.name))
      && p.uid != q.uid && p.name != q.name
  {
    AcceptedParts(inv, target);
    PlanShape(inv, target);
    var plans := PlanOf(inv, target).nodes;
    assert PlanOrder(plans[i], plans[j]);
    assert PlanUIDs(plans)[i] != PlanUIDs(plans)[j] && PlanNames(plans)[i] != PlanNames(plans)[j];
    RolesKnown(inv, target.version);
  }

  lemma EntryMeans(inv: Inventory, to: Version, n: Node)
    requires NodesAccepted(inv) && n in inv.nodes
    ensures PlanNode(inv.clusterUID, to, n) in PlanNodes(inv, to)
    ensures forall p :: p in PlanNodes(inv, to) && p.uid == n.uid ==> p == PlanNode(inv.clusterUID, to, n)
    ensures multiset(PlanUIDs(PlanNodes(inv, to)))[n.uid] == 1
  {
    var plans, entry := PlanNodes(inv, to), PlanNode(inv.clusterUID, to, n);
    PlansListed(inv, to);
    PlansDistinct(inv, to);
    var k :| 0 <= k < |plans| && plans[k] == entry;
    forall p | p in plans && p.uid == n.uid ensures p == entry {
      var j :| 0 <= j < |plans| && plans[j] == p;
      assert PlanUIDs(plans)[j] == PlanUIDs(plans)[k];
    }
    DistinctCounts(PlanUIDs(plans));
    assert PlanUIDs(plans)[k] == n.uid;
    assert PlanUIDs(plans)[k] in multiset(PlanUIDs(plans));
  }

  /** The entry of an observed node: there is one, and all its fields are those of the node. */
  lemma PlanEntry(inv: Inventory, target: VersionText, n: Node)
    requires Assessable(inv, target) && n in inv.nodes
    ensures exists p :: p in PlanOf(inv, target).nodes && p.uid == n.uid
    ensures multiset(PlanUIDs(PlanOf(inv, target).nodes))[n.uid] == 1
    ensures forall p :: p in PlanOf(inv, target).nodes && p.uid == n.uid ==>
      && p.clusterUID == inv.clusterUID && p.name == n.name && p.talosID == n.talosID
      && p.talosAddress == n.talosAddress
      && p.role == n.role && p.talosVersion == n.talosVersion
      && p.sourceKubeletImage == n.kubeletImage && p.targetKubeletImage == n.targetKubeletImage
      && p.configFingerprint == n.configFingerprint && p.originallyCordoned == n.unschedulable
      && Readable(n.kubelet) && p.sourceVersion == Spelled("", n.kubelet.version)
      && Readable(target) && p.targetVersion == Spelled("", target.version)
      && (p.skip <==> n.kubelet.version == target.version)
  {
    AcceptedParts(inv, target);
    EntryMeans(inv, target.version, n);
    assert NodeAccepted(n);
  }
}
