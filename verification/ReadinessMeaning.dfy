/** What the checks of the rollout look at, over the fields of plan, observation and baseline alone
    (internal/application/kubernetes_upgrade.go). */
module ReadinessMeaning {
  import opened Roles
  import opened Sequences
  import opened UpgradeTypes
  import opened UpgradePlanning
  import opened UpgradeReadiness
  import opened UpgradeRollout

  /** The first node with a UID is the node with this UID, when no UID repeats. */
  lemma LookupMeans(nodes: seq<Node>, uid: string)
    ensures Listed(nodes, uid) <==> exists n :: n in nodes && n.uid == uid
    ensures Listed(nodes, uid) ==> Lookup(nodes, uid) in nodes && Lookup(nodes, uid).uid == uid
    ensures Listed(nodes, uid) ==>
      exists i :: 0 <= i < |nodes| && nodes[i] == Lookup(nodes, uid) && forall j :: 0 <= j < i ==> nodes[j].uid != uid
  {
    if n :| n in nodes && n.uid == uid {
      var i :| 0 <= i < |nodes| && nodes[i] == n;
      assert Find(nodes, uid) <= i;
    }
  }

  /** A pod is accepted by its planned name. */
  lemma {:induction false} PlannedNameMeans(plans: seq<NodePlan>, uid: string)
    requires Distinct(PlanUIDs(plans))
    ensures forall p :: p in plans && p.uid == uid ==> PlannedName(plans, uid) == p.name
    ensures (forall p :: p in plans ==> p.uid != uid) ==> PlannedName(plans, uid) == ""
  {
    if plans == [] {
    } else {
      var last := |plans| - 1;
      var before := plans[..last];
      assert forall i :: 0 <= i < last ==> PlanUIDs(before)[i] == PlanUIDs(plans)[i];
      PlannedNameMeans(before, uid);
      if plans[last].uid == uid {
        forall i | 0 <= i < |plans| && plans[i].uid == uid ensures i == last {
          assert PlanUIDs(plans)[i] == PlanUIDs(plans)[last];
        }
      } else {
        forall p | p in plans && p.uid == uid ensures p in before {
          var i :| 0 <= i < |plans| && plans[i] == p;
          assert before[i] == p;
        }
      }
    }
  }

  /** The pods of a cluster with kube-proxy: rolled out, one per planned node, all at the target, under the
      planned name of their node, and no two on one node. */
  ghost predicate PodsFit(inv: Inventory, plan: Plan) {
    && inv.proxyRolloutComplete && |inv.proxies| == |plan.nodes|
    && (forall p :: p in inv.proxies ==> p.version == plan.targetVersion)
    && (forall p, q :: p in inv.proxies && q in plan.nodes && q.uid == p.nodeUID ==> q.name == p.name)
    && (forall p :: p in inv.proxies && (forall q :: q in plan.nodes ==> q.uid != p.nodeUID) ==> p.name == "")
    && (forall i, j :: 0 <= i < j < |inv.proxies| ==> inv.proxies[i].nodeUID != inv.proxies[j].nodeUID)
  }

  lemma PodsMean(inv: Inventory, plan: Plan)
    requires Distinct(PlanUIDs(plan.nodes)) && plan.proxyEnabled
    ensures ProxiesAtTarget(inv, plan) <==> PodsFit(inv, plan)
  {
    forall p | p in inv.proxies
      ensures p.name == PlannedName(plan.nodes, p.nodeUID) <==>
        (forall q :: q in plan.nodes && q.uid == p.nodeUID ==> q.name == p.name) &&
        ((forall q :: q in plan.nodes ==> q.uid != p.nodeUID) ==> p.name == "")
    {
      PlannedNameMeans(plan.nodes, p.nodeUID);
    }
  }

  /** The control plane is at the target: this cluster, healthy, with this many nodes, all ready, every
      planned one among them; control-plane components, proxy setting and image as planned; pods too. */
  lemma ControlPlaneMeans(inv: Inventory, plan: Plan)
    requires Distinct(PlanUIDs(plan.nodes))
    ensures ControlPlaneReached(inv, plan) <==>
      && inv.clusterUID == plan.clusterUID && inv.talosClusterID == plan.talosClusterID
      && |inv.nodes| == |plan.nodes| && inv.healthy && inv.proxyConfigKnown && inv.proxyEnabled == plan.proxyEnabled
      && (forall n :: n in inv.nodes ==> n.ready)
      && (forall n :: n in inv.nodes && n.role == ControlRole ==>
            n.proxyConfigKnown && n.proxyEnabled == plan.proxyEnabled && n.proxyConfigImage == plan.targetProxyImage &&
            n.apiServer == n.controllerManager == n.scheduler == plan.targetVersion)
      && (forall p :: p in plan.nodes ==> exists n :: n in inv.nodes && n.uid == p.uid)
      && (if plan.proxyEnabled then PodsFit(inv, plan) else inv.proxies == [])
  {
    forall p | p in plan.nodes ensures Listed(inv.nodes, p.uid) <==> exists n :: n in inv.nodes && n.uid == p.uid {
      LookupMeans(inv.nodes, p.uid);
    }
    if plan.proxyEnabled { PodsMean(inv, plan); }
  }

  /** What the rollout waits for at node `next`: the control plane as above, and every planned node with its
      identity and cordon state and with kubelet, image and configuration as in the baseline; the ones
      before `next` are at the target, with the image that goes with it. */
  lemma SettledMeans(inv: Inventory, plan: Plan, base: seq<Node>, next: nat)
    ensures SettledInventory(inv, plan, base, next) <==>
      && ControlPlaneReached(inv, plan)
      && forall i :: 0 <= i < |plan.nodes| ==>
           var p := plan.nodes[i];
           Listed(inv.nodes, p.uid) && Listed(base, p.uid) &&
           var n, b := Lookup(inv.nodes, p.uid), Lookup(base, p.uid);
           && n.name == p.name && n.talosID == p.talosID && n.talosAddress == p.talosAddress && n.role == p.role
           && n.talosVersion == p.talosVersion && n.unschedulable == p.originallyCordoned
           && n.kubelet == b.kubelet && n.kubeletImage == b.kubeletImage && n.configFingerprint == b.configFingerprint
           && (i < next ==> n.kubelet == plan.targetVersion && n.kubeletImage == n.targetKubeletImage)
  {
  }

  /** The final check: the control plane as above, and every planned node ready under its name and cordon
      state, at the target with the planned image. */
  lemma KubeletsMean(inv: Inventory, plan: Plan)
    ensures AllKubeletsReached(inv, plan) <==>
      && ControlPlaneReached(inv, plan)
      && forall i :: 0 <= i < |plan.nodes| ==>
           var p := plan.nodes[i];
           Listed(inv.nodes, p.uid) &&
           var n := Lookup(inv.nodes, p.uid);
           && n.name == p.name && n.unschedulable == p.originallyCordoned && n.ready
           && n.kubelet == plan.targetVersion && n.kubeletImage == p.targetKubeletImage
  {
    assert forall i :: 0 <= i < |plan.nodes| ==> plan.nodes[i] in plan.nodes;
  }

  /** What a successful update leaves in the baseline: the entry of its node gets the replied configuration,
      the target version and the image that was asked for, and keeps the rest; other entries stay. */
  lemma RewrittenMeans(base: seq<Node>, node: NodePlan, reply: KubeletReply, plan: Plan, uid: string)
    requires Listed(base, uid)
    ensures var after := Rewritten(base, node, reply, plan.targetVersion);
      |after| == |base| && Listed(after, uid) &&
      Lookup(after, uid) ==
      if uid != node.uid then Lookup(base, uid)
      else Lookup(base, uid).(kubelet := plan.targetVersion, kubeletImage := node.targetKubeletImage,
        configFingerprint := reply.result.configFingerprint)
  {
    var after := Rewritten(base, node, reply, plan.targetVersion);
    FindFirst(after, uid, Find(base, uid));
  }
}
