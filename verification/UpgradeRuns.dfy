/** What the rollout's contract means for a whole run, read off its trace. */
module UpgradeRuns {
  import opened Sequences
  import opened UpgradeTypes
  import opened UpgradeAssessment
  import opened UpgradePlanning
  import opened UpgradeReadiness
  import opened UpgradeRollout
  import opened UpgradeRecovery
  import opened Operations

  /** Updates follow the plan's order, and an update that is followed by another one succeeded. */
  lemma UpdatesFollowPlan(t: seq<Call>, plan: Plan, path: string, j: nat, k: nat)
    requires SafeRun(t, plan, path) && j < k < |t| && t[j].UpgradedKubelet? && t[k].UpgradedKubelet?
    ensures !t[j].kubelet.failed && t[j].kubelet.result.outcome == Completed &&
      t[j].kubelet.result.configFingerprint != ""
    ensures exists a, b :: 0 <= a < b && KubeletCallFor(t, j, plan, a) && KubeletCallFor(t, k, plan, b)
  {
    assert SafeKubelet(t, k, plan, path);
    var b := Replay(t, k, plan).done;
    assert DoneCall(t, j, plan, b);
    var a :| 0 <= a < b && KubeletCallFor(t, j, plan, a);
  }

  /** No node is updated twice in a run. */
  lemma UpdatedOnce(t: seq<Call>, plan: Plan, path: string, j: nat, k: nat)
    requires SafeRun(t, plan, path) && j < k < |t| && t[j].UpgradedKubelet? && t[k].UpgradedKubelet?
    requires Distinct(PlanUIDs(plan.nodes))
    ensures t[j].node.uid != t[k].node.uid
  {
    UpdatesFollowPlan(t, plan, path, j, k);
    var a, b :| 0 <= a < b && KubeletCallFor(t, j, plan, a) && KubeletCallFor(t, k, plan, b);
    OtherUID(plan, a, b);
  }

  /** After an update that did not succeed, the run sends nothing that changes the cluster. */
  lemma NothingAfterFailure(t: seq<Call>, plan: Plan, path: string, j: nat, k: nat)
    requires SafeRun(t, plan, path) && j < k < |t| && t[j].UpgradedKubelet? && !Succeeded(t[j].kubelet)
    ensures !t[k].UpgradedKubelet? && !t[k].RanControlPlane?
  {
    if t[k].UpgradedKubelet? {
      UpdatesFollowPlan(t, plan, path, j, k);
    }
    assert SafeControlPlane(t, k, plan, path) && SafeKubelet(t, j, plan, path);
  }

  lemma SameCallSameNode(t: seq<Call>, k: nat, plan: Plan, i: nat, j: nat)
    requires KubeletCallFor(t, k, plan, i) && KubeletCallFor(t, k, plan, j) && Distinct(PlanUIDs(plan.nodes))
    ensures i == j
  {
    if i != j { OtherUID(plan, i, j); }
  }

  // ---- The baseline, node by node --------------------------------------------------------------

  /** Call j updated this node, with success. */
  ghost predicate Updates(t: seq<Call>, j: int, uid: string) {
    0 <= j < |t| && t[j].UpgradedKubelet? && Succeeded(t[j].kubelet) && t[j].node.uid == uid
  }

  /** At the target, with the image that was asked for and the configuration that was replied. */
  predicate Carries(n: Node, call: Call, plan: Plan)
    requires call.UpgradedKubelet?
  {
    n.kubelet == plan.targetVersion && n.kubeletImage == call.node.targetKubeletImage &&
    n.configFingerprint == call.kubelet.result.configFingerprint
  }

  /** As the observation that verified the control plane showed it. */
  ghost predicate AsFirst(t: seq<Call>, plan: Plan, n: Node) {
    Listed(FirstNodes(t, plan), n.uid) &&
    var first := Lookup(FirstNodes(t, plan), n.uid);
    n.kubelet == first.kubelet && n.kubeletImage == first.kubeletImage && n.configFingerprint == first.configFingerprint
  }

  /** The last successful update of this node before call k. */
  ghost function LastUpdate(t: seq<Call>, k: nat, plan: Plan, uid: string): (last: Option<nat>)
    ensures last.Some? ==>
      last.value < k && Updates(t, last.value, uid) && forall j :: last.value < j < k ==> !Updates(t, j, uid)
    ensures last.None? ==> forall j :: StartOf(plan) <= j < k ==> !Updates(t, j, uid)
  {
    if k <= StartOf(plan) then None
    else if Updates(t, k - 1, uid) then Some(k - 1)
    else LastUpdate(t, k - 1, plan, uid)
  }

  /** The node has what its last successful update before call k left there, or, without one, what
      the observation that verified the control plane showed. */
  ghost predicate AsLeft(t: seq<Call>, k: nat, plan: Plan, n: Node) {
    match LastUpdate(t, k, plan, n.uid)
    case Some(j) => Carries(n, t[j], plan)
    case None => AsFirst(t, plan, n)
  }

  lemma FindUpdated(base: seq<Node>, b: nat, n: Node, uid: string)
    requires b < |base| && n.uid == base[b].uid
    ensures Find(base[b := n], uid) == Find(base, uid)
  {
    var f := Find(base, uid);
    if f < |base| { FindFirst(base[b := n], uid, f); }
  }

  /** One entry of the baseline after one more call. */
  function Entry(n: Node, call: Call, plan: Plan): Node {
    if call.UpgradedKubelet? && Succeeded(call.kubelet) && call.node.uid == n.uid
    then Completion(n, call.node, call.kubelet, plan.targetVersion) else n
  }

  lemma AdvancedLookup(r: Rollout, call: Call, plan: Plan, uid: string)
    ensures var base := Advance(r, call, plan).base;
      && |base| == |r.base| && Find(base, uid) == Find(r.base, uid)
      && (Listed(r.base, uid) ==> Lookup(base, uid) == Entry(Lookup(r.base, uid), call, plan))
  {
    if call.UpgradedKubelet? && Succeeded(call.kubelet) {
      var b := Find(r.base, call.node.uid);
      if b < |r.base| {
        FindUpdated(r.base, b, Completion(r.base[b], call.node, call.kubelet, plan.targetVersion), uid);
      }
    }
  }

  /** What the loop compares a node with is what the last successful update of it replied. */
  lemma {:induction false} BaselineAsLeft(t: seq<Call>, k: nat, plan: Plan, uid: string)
    requires StartOf(plan) <= k <= |t|
    ensures var base := Replay(t, k, plan).base;
      && Find(base, uid) == Find(FirstNodes(t, plan), uid) && |base| == |FirstNodes(t, plan)|
      && (Listed(base, uid) ==> AsLeft(t, k, plan, Lookup(base, uid)))
  {
    if k == StartOf(plan) {
    } else {
      BaselineAsLeft(t, k - 1, plan, uid);
      var r := Replay(t, k - 1, plan);
      AdvancedLookup(r, t[k - 1], plan, uid);
      if Listed(r.base, uid) { StillAsLeft(t, k, plan, Lookup(r.base, uid)); }
    }
  }

  lemma StillAsLeft(t: seq<Call>, k: nat, plan: Plan, n: Node)
    requires StartOf(plan) < k <= |t| && AsLeft(t, k - 1, plan, n)
    ensures AsLeft(t, k, plan, Entry(n, t[k - 1], plan))
  {
    if Updates(t, k - 1, n.uid) {
      assert LastUpdate(t, k, plan, n.uid) == Some(k - 1);
    } else {
      assert Entry(n, t[k - 1], plan) == n;
      assert LastUpdate(t, k, plan, n.uid) == LastUpdate(t, k - 1, plan, n.uid);
    }
  }

  /** What agrees with the baseline is as left. */
  lemma SameAsLeft(t: seq<Call>, k: nat, plan: Plan, n: Node)
    requires StartOf(plan) <= k <= |t| && Listed(Replay(t, k, plan).base, n.uid)
    requires SameKubelet(n, Lookup(Replay(t, k, plan).base, n.uid))
    ensures AsLeft(t, k, plan, n)
  {
    BaselineAsLeft(t, k, plan, n.uid);
  }

  // ---- What the observations show ---------------------------------------------------------------

  lemma UnchangedAsLeft(t: seq<Call>, k: nat, plan: Plan, inv: Inventory, h: nat)
    requires StartOf(plan) <= k <= |t| && h < |plan.nodes|
    requires AllUnchanged(inv.nodes, plan, Replay(t, k, plan).base, Replay(t, k, plan).done)
    ensures var p := plan.nodes[h];
      Listed(inv.nodes, p.uid) && IdentityKept(p, Lookup(inv.nodes, p.uid)) &&
      AsLeft(t, k, plan, Lookup(inv.nodes, p.uid))
  {
    var r := Replay(t, k, plan);
    assert NodeUnchanged(plan.nodes[h], inv.nodes, r.base, h < r.done, plan.targetVersion);
    SameAsLeft(t, k, plan, Lookup(inv.nodes, plan.nodes[h].uid));
  }

  /** Every observation that the rollout went on after showed every planned node with its identity and
      cordon state, and with the kubelet, image and configuration that the run itself had left there;
      or it was an answer that the cluster is not ready yet. */
  lemma NothingOverlooked(t: seq<Call>, plan: Plan, path: string, k: nat, h: nat)
    requires SafeRun(t, plan, path) && StartOf(plan) <= k < |t| - 1 && t[k].Inspected? && h < |plan.nodes|
    ensures t[k].reply.NotReadyYet? || (
      && t[k].reply.Observed? && SameCluster(t[k].reply.inventory, plan)
      && Listed(t[k].reply.inventory.nodes, plan.nodes[h].uid)
      && var n := Lookup(t[k].reply.inventory.nodes, plan.nodes[h].uid);
         && n.name == plan.nodes[h].name && n.talosID == plan.nodes[h].talosID && n.role == plan.nodes[h].role
         && n.talosAddress == plan.nodes[h].talosAddress && n.talosVersion == plan.nodes[h].talosVersion
         && n.unschedulable == plan.nodes[h].originallyCordoned && AsLeft(t, k, plan, n))
  {
    assert Passed(t, k, plan);
    if t[k].reply.Observed? { UnchangedAsLeft(t, k, plan, t[k].reply.inventory, h); }
  }

  /** No call before k updates a node whose turn comes with call k or later. */
  lemma PendingNotUpdated(t: seq<Call>, plan: Plan, k: nat, i: nat, h: nat)
    requires EarlierCallsDone(t, k, plan, i) && k <= |t| && i <= h < |plan.nodes| && Distinct(PlanUIDs(plan.nodes))
    ensures forall j :: 0 <= j < k ==> !Updates(t, j, plan.nodes[h].uid)
  {
    forall j | 0 <= j < k && t[j].UpgradedKubelet? ensures t[j].node.uid != plan.nodes[h].uid {
      assert DoneCall(t, j, plan, i);
      var a :| 0 <= a < i && KubeletCallFor(t, j, plan, a);
      OtherUID(plan, a, h);
    }
  }

  /** The only update of a node is its last. */
  lemma OnlyUpdateIsLast(t: seq<Call>, plan: Plan, path: string, j: nat, k: nat, uid: string)
    requires SafeRun(t, plan, path) && Distinct(PlanUIDs(plan.nodes)) && j < k <= |t| && Updates(t, j, uid)
    ensures LastUpdate(t, k, plan, uid) == Some(j)
  {
    assert SafeKubelet(t, j, plan, path);
    forall l | j < l < k && t[l].UpgradedKubelet? ensures t[l].node.uid != uid {
      UpdatedOnce(t, plan, path, j, l);
    }
  }

  lemma SeenReady(t: seq<Call>, plan: Plan, k: nat, i: nat, h: nat)
    requires k < |t| && KubeletCallFor(t, k, plan, i) && h < |plan.nodes|
    ensures var inv := t[k - 1].reply.inventory;
      && Listed(inv.nodes, plan.nodes[h].uid)
      && var n := Lookup(inv.nodes, plan.nodes[h].uid);
      && n.ready && n.unschedulable == plan.nodes[h].originallyCordoned
      && n.name == plan.nodes[h].name && n.talosID == plan.nodes[h].talosID && n.role == plan.nodes[h].role
      && n.talosAddress == plan.nodes[h].talosAddress && n.talosVersion == plan.nodes[h].talosVersion
      && (n.role.ControlRole? ==> n.apiServer == n.controllerManager == n.scheduler == plan.targetVersion)
      && (h < i ==> n.kubelet == plan.targetVersion && n.kubeletImage == n.targetKubeletImage)
      && (h == i ==> n.kubelet != plan.targetVersion)
  {
    var inv := t[k - 1].reply.inventory;
    var n := Lookup(inv.nodes, plan.nodes[h].uid);
    assert n in inv.nodes;
    assert ComponentsAtTarget(n, plan);
    if h < i { assert KubeletDone(n, plan.targetVersion); }
  }

  lemma SeenAsLeft(t: seq<Call>, plan: Plan, path: string, k: nat, i: nat, h: nat)
    requires SafeRun(t, plan, path) && k < |t| && t[k].UpgradedKubelet? && KubeletCallFor(t, k, plan, i)
    requires Distinct(PlanUIDs(plan.nodes)) && h < |plan.nodes|
    ensures k > StartOf(plan) && EarlierCallsDone(t, k, plan, i)
    ensures Listed(t[k - 1].reply.inventory.nodes, plan.nodes[h].uid)
    ensures AsLeft(t, k, plan, Lookup(t[k - 1].reply.inventory.nodes, plan.nodes[h].uid))
  {
    assert SafeKubelet(t, k, plan, path);
    SameCallSameNode(t, k, plan, i, Replay(t, k, plan).done);
    UnchangedAsLeft(t, k, plan, t[k - 1].reply.inventory, h);
  }

  /** When a kubelet is updated, the observation made just before showed every node ready with the
      control plane at the target. Every planned node before it was at the target, with the image and
      the configuration its own update had replied; this node and all after it, and those that needed no
      update, had the kubelet, image and configuration of the observation that verified the control
      plane. */
  lemma OthersUntouchedOrDone(t: seq<Call>, plan: Plan, path: string, k: nat, i: nat, h: nat)
    requires SafeRun(t, plan, path) && k < |t| && t[k].UpgradedKubelet? && KubeletCallFor(t, k, plan, i)
    requires Distinct(PlanUIDs(plan.nodes)) && h < |plan.nodes|
    ensures Sees(t, k - 1)
    ensures var inv := t[k - 1].reply.inventory;
      && Listed(inv.nodes, plan.nodes[h].uid)
      && var n := Lookup(inv.nodes, plan.nodes[h].uid);
      && n.ready && n.unschedulable == plan.nodes[h].originallyCordoned
      && n.name == plan.nodes[h].name && n.talosID == plan.nodes[h].talosID && n.role == plan.nodes[h].role
      && n.talosAddress == plan.nodes[h].talosAddress && n.talosVersion == plan.nodes[h].talosVersion
      && (n.role.ControlRole? ==> n.apiServer == n.controllerManager == n.scheduler == plan.targetVersion)
      && (h < i ==> n.kubelet == plan.targetVersion && n.kubeletImage == n.targetKubeletImage)
      && (h == i ==> n.kubelet != plan.targetVersion)
    ensures var uid := plan.nodes[h].uid; var n := Lookup(t[k - 1].reply.inventory.nodes, uid);
      && (forall j :: 0 <= j < k && Updates(t, j, uid) ==> h < i && Carries(n, t[j], plan))
      && ((forall j :: 0 <= j < k ==> !Updates(t, j, uid)) ==> AsFirst(t, plan, n))
  {
    SeenReady(t, plan, k, i, h);
    SeenAsLeft(t, plan, path, k, i, h);
    var uid := plan.nodes[h].uid;
    if h >= i { PendingNotUpdated(t, plan, k, i, h); }
    forall j | 0 <= j < k && Updates(t, j, uid) ensures LastUpdate(t, k, plan, uid) == Some(j) {
      OnlyUpdateIsLast(t, plan, path, j, k, uid);
    }
  }

  // ---- What an update asks for --------------------------------------------------------------------

  /** An update is for one planned node, right after an observation of it. It asks for the image that
      this observation names as the target, states what the observation shows to be there now, and
      names the node as it was planned. */
  lemma UpdateAsks(t: seq<Call>, plan: Plan, path: string, k: nat) returns (i: nat)
    requires SafeRun(t, plan, path) && k < |t| && t[k].UpgradedKubelet?
    ensures k > StartOf(plan) && i < |plan.nodes| && KubeletCallFor(t, k, plan, i)
    ensures t[k - 1].Inspected? && t[k - 1].reply.Observed? && Listed(t[k - 1].reply.inventory.nodes, plan.nodes[i].uid)
    ensures var live, asked := Lookup(t[k - 1].reply.inventory.nodes, plan.nodes[i].uid), t[k].node;
      && asked.targetKubeletImage == live.targetKubeletImage && asked.sourceKubeletImage == live.kubeletImage
      && asked.sourceVersion == live.kubelet && asked.configFingerprint == live.configFingerprint
      && asked.originallyCordoned == live.unschedulable && live.kubelet != plan.targetVersion
    ensures var planned, asked := plan.nodes[i], t[k].node;
      && asked.clusterUID == planned.clusterUID && asked.name == planned.name && asked.uid == planned.uid
      && asked.talosID == planned.talosID && asked.talosAddress == planned.talosAddress && asked.role == planned.role
      && asked.talosVersion == planned.talosVersion && asked.targetVersion == planned.targetVersion
  {
    assert SafeKubelet(t, k, plan, path);
    i := Replay(t, k, plan).done;
  }

  // ---- What must precede a change -------------------------------------------------------------

  ghost predicate MatchesPlan(inv: Inventory, plan: Plan) {
    Assess(inv, plan.targetVersion).Some? &&
    Assess(inv, plan.targetVersion).value.(fingerprint := plan.fingerprint) == plan
  }

  /** Before anything is changed, the first and the third call observed inventories that assess to the
      plan, field by field, and the second made a snapshot of the plan's gateway that is good. */
  lemma ChangesConfirmed(result: UpgradeResult, ok: bool, t: seq<Call>, plan: Plan, path: string, k: nat)
    requires HonestResult(result, ok, t, plan, path) && SafeRun(t, plan, path) && k < |t|
    requires t[k].RanControlPlane? || t[k].UpgradedKubelet?
    ensures k >= 3 && Sees(t, 0) && Sees(t, 2) && t[1].Snapshotted?
    ensures MatchesPlan(t[0].reply.inventory, plan) && MatchesPlan(t[2].reply.inventory, plan)
    ensures t[1].gateway == plan.gateway && t[1].path == path
    ensures t[k].RanControlPlane? ==> k == 3 && t[k].upgrade == plan && !plan.skipControlPlane
    ensures t[k].UpgradedKubelet? ==>
      var verified := if plan.skipControlPlane then 3 else 4;
      && k > verified && (!plan.skipControlPlane ==> t[3] == RanControlPlane(plan, true))
      && Sees(t, verified) && ControlPlaneReached(t[verified].reply.inventory, plan)
    ensures var reply := t[1].snapshot;
      && !reply.failed && reply.receipt.node == plan.gateway && reply.receipt.path == path
      && reply.receipt.size > 0 && |reply.receipt.sha256| == 64
    ensures result.snapshot == Some(t[1].snapshot.receipt)
  {
    assert SafeKubelet(t, k, plan, path) && SafeControlPlane(t, k, plan, path);
    assert SeesPlan(t, 0, plan) && SeesPlan(t, 2, plan);
  }

  /** A run that reports completion ends in an observation of a healthy cluster in which everything
      is at the target, and reports every node as completed. */
  lemma CompletedRunMeans(result: UpgradeResult, t: seq<Call>, plan: Plan, path: string, h: nat)
    requires HonestResult(result, true, t, plan, path) && h < |plan.nodes|
    ensures result.outcome == Completed && |result.nodes| == |plan.nodes| && result.nodes[h].outcome == Completed
    ensures t != [] && Sees(t, |t| - 1)
    ensures var inv := t[|t| - 1].reply.inventory;
      && inv.healthy && inv.clusterUID == plan.clusterUID && inv.talosClusterID == plan.talosClusterID
      && |inv.nodes| == |plan.nodes| && inv.proxyEnabled == plan.proxyEnabled
      && (forall n :: n in inv.nodes ==> n.ready)
      && (forall n :: n in inv.nodes && n.role.ControlRole? ==>
            n.apiServer == n.controllerManager == n.scheduler == plan.targetVersion &&
            n.proxyEnabled == plan.proxyEnabled && n.proxyConfigImage == plan.targetProxyImage)
      && (forall p :: p in inv.proxies ==> p.version == plan.targetVersion)
      && (plan.proxyEnabled ==> inv.proxyRolloutComplete && |inv.proxies| == |plan.nodes|)
    ensures var inv, p := t[|t| - 1].reply.inventory, plan.nodes[h];
      Listed(inv.nodes, p.uid) &&
      var n := Lookup(inv.nodes, p.uid);
      && n.name == p.name && n.kubelet == plan.targetVersion && n.kubeletImage == p.targetKubeletImage
      && n.kubeletImage == n.targetKubeletImage && n.unschedulable == p.originallyCordoned
      && n.talosID == p.talosID && n.talosAddress == p.talosAddress && n.role == p.role
      && n.talosVersion == p.talosVersion
  {
    assert FinishedWith(t, plan);
    EndMeans(t[|t| - 1].reply.inventory, plan, h);
    assert Backed(result.nodes[h], t, plan, h);
  }

  lemma EndMeans(inv: Inventory, plan: Plan, h: nat)
    requires ReadyForNode(inv, plan, |plan.nodes|) && AllKubeletsReached(inv, plan) && h < |plan.nodes|
    ensures forall n :: n in inv.nodes ==> n.ready && ComponentsAtTarget(n, plan)
    ensures forall p :: p in inv.proxies ==> p.version == plan.targetVersion
    ensures var p := plan.nodes[h];
      && Listed(inv.nodes, p.uid) && IdentityKept(p, Lookup(inv.nodes, p.uid))
      && KubeletAtTarget(inv.nodes, p, plan.targetVersion) && KubeletDone(Lookup(inv.nodes, p.uid), plan.targetVersion)
  {
    assert plan.nodes[h] in plan.nodes;
    forall p | p in inv.proxies ensures p.version == plan.targetVersion { assert ProxyAtTarget(p, plan); }
  }

  // ---- What the report tells --------------------------------------------------------------------

  lemma CallNode(t: seq<Call>, k: nat, plan: Plan, i: nat)
    requires KubeletCallFor(t, k, plan, i)
    ensures t[k].node.uid == plan.nodes[i].uid
  {
  }

  lemma SameUpdate(t: seq<Call>, plan: Plan, path: string, j: nat, k: nat, i: nat)
    requires SafeRun(t, plan, path) && Distinct(PlanUIDs(plan.nodes))
    requires KubeletCallFor(t, j, plan, i) && KubeletCallFor(t, k, plan, i)
    ensures j == k
  {
    if j < k {
      UpdatedOnce(t, plan, path, j, k);
    } else if k < j {
      UpdatedOnce(t, plan, path, k, j);
    }
  }

  lemma ReachedNodes(result: UpgradeResult, ok: bool, t: seq<Call>, plan: Plan, path: string, k: nat)
    requires HonestResult(result, ok, t, plan, path) && SafeRun(t, plan, path)
    requires k < |t| && t[k].UpgradedKubelet?
    ensures |result.nodes| == |plan.nodes| && HonestNodes(result.nodes, t, plan)
  {
    assert SafeKubelet(t, k, plan, path);
  }

  /** Every update that was sent is in the report, under its node, with its reply. */
  lemma EveryUpdateReported(
    result: UpgradeResult, ok: bool, t: seq<Call>, plan: Plan, path: string, k: nat, i: nat)
    requires HonestResult(result, ok, t, plan, path) && SafeRun(t, plan, path) && Distinct(PlanUIDs(plan.nodes))
    requires k < |t| && KubeletCallFor(t, k, plan, i)
    ensures |result.nodes| == |plan.nodes| && i < |result.nodes|
    ensures Succeeded(t[k].kubelet) ==> result.nodes[i] == t[k].kubelet.result
    ensures !Succeeded(t[k].kubelet) ==>
      var reply, entry := t[k].kubelet, result.nodes[i];
      && k == |t| - 1 && entry.message != "" && entry.nodeUID == plan.nodes[i].uid
      && entry.leftCordoned == reply.result.leftCordoned && entry.configFingerprint == reply.result.configFingerprint
      && entry.outcome == if reply.failed then reply.result.outcome else Unconfirmed
  {
    ReachedNodes(result, ok, t, plan, path, k);
    UpdateInReport(result.nodes, t, plan, path, k, i);
  }

  lemma UpdateInReport(nodes: seq<NodeResult>, t: seq<Call>, plan: Plan, path: string, k: nat, i: nat)
    requires HonestNodes(nodes, t, plan) && |nodes| == |plan.nodes| && SafeRun(t, plan, path)
    requires k < |t| && KubeletCallFor(t, k, plan, i) && Distinct(PlanUIDs(plan.nodes))
    ensures Succeeded(t[k].kubelet) ==> nodes[i] == t[k].kubelet.result
    ensures !Succeeded(t[k].kubelet) ==> k == |t| - 1 && FailedEntry(nodes[i], t, plan, i)
  {
    CallNode(t, k, plan, i);
    assert !Untouched(t, plan.nodes[i].uid);
    var m := Replay(t, |t|, plan).done;
    assert HonestWith(nodes, t, plan, m);
    if i < m {
      assert Backed(nodes[i], t, plan, i);
      CompletedInReport(nodes[i], t, plan, path, k, i);
    } else {
      FailedInReport(nodes, t, plan, m, i);
      SameUpdate(t, plan, path, |t| - 1, k, i);
    }
  }

  lemma FailedInReport(nodes: seq<NodeResult>, t: seq<Call>, plan: Plan, m: nat, i: nat)
    requires if FailedLast(t) then FailedAt(nodes, t, plan, m) && NotAttemptedFrom(nodes, t, plan, m + 1)
      else StoppedAt(nodes, t, plan, m)
    requires m <= i < |nodes| == |plan.nodes| && !Untouched(t, plan.nodes[i].uid)
    ensures FailedLast(t) && FailedEntry(nodes[i], t, plan, i)
  {
  }

  lemma CompletedInReport(entry: NodeResult, t: seq<Call>, plan: Plan, path: string, k: nat, i: nat)
    requires Backed(entry, t, plan, i) && !Untouched(t, plan.nodes[i].uid) && SafeRun(t, plan, path)
    requires k < |t| && KubeletCallFor(t, k, plan, i) && Distinct(PlanUIDs(plan.nodes))
    ensures Succeeded(t[k].kubelet) && entry == t[k].kubelet.result
  {
    var j :| 0 <= j && Replied(entry, t, plan, i, j);
    SameUpdate(t, plan, path, j, k, i);
  }

  lemma ReportedNodes(result: UpgradeResult, ok: bool, t: seq<Call>, plan: Plan, path: string)
    requires HonestResult(result, ok, t, plan, path) && result.nodes != []
    ensures |result.nodes| == |plan.nodes| && HonestNodes(result.nodes, t, plan)
  {
  }

  /** And a node without an update is reported as completed only if an observation showed it at the
      target, with the image that goes with it, and otherwise as not attempted. */
  lemma UntouchedReported(result: UpgradeResult, ok: bool, t: seq<Call>, plan: Plan, path: string, i: nat)
    requires HonestResult(result, ok, t, plan, path) && i < |result.nodes| && |result.nodes| == |plan.nodes|
    requires Untouched(t, plan.nodes[i].uid)
    ensures var entry := result.nodes[i];
      && entry.nodeUID == plan.nodes[i].uid && !entry.leftCordoned && entry.configFingerprint == ""
      && (entry.outcome == NotAttempted || (entry.outcome == Completed && entry.message == "" && SeenDone(t, plan, i)))
  {
    ReportedNodes(result, ok, t, plan, path);
    EntryUntouched(result.nodes, t, plan, i);
  }

  lemma EntryUntouched(nodes: seq<NodeResult>, t: seq<Call>, plan: Plan, i: nat)
    requires HonestNodes(nodes, t, plan) && i < |nodes| == |plan.nodes| && Untouched(t, plan.nodes[i].uid)
    ensures var entry := nodes[i];
      && entry.nodeUID == plan.nodes[i].uid && !entry.leftCordoned && entry.configFingerprint == ""
      && (entry.outcome == NotAttempted || (entry.outcome == Completed && entry.message == "" && SeenDone(t, plan, i)))
  {
    var m := Replay(t, |t|, plan).done;
    assert HonestWith(nodes, t, plan, m);
    if i < m {
      assert Backed(nodes[i], t, plan, i);
      UntouchedSkipped(nodes[i], t, plan, i);
    }
  }

  lemma UntouchedSkipped(entry: NodeResult, t: seq<Call>, plan: Plan, i: nat)
    requires Backed(entry, t, plan, i) && Untouched(t, plan.nodes[i].uid)
    ensures entry == NodeResult(plan.nodes[i].uid, Completed, false, "", "") && SeenDone(t, plan, i)
  {
    if k :| 0 <= k && Replied(entry, t, plan, i, k) {
      CallNode(t, k, plan, i);
      assert false;
    }
  }

  /** And a node that is reported as not attempted had no update, unless that is what a failed update
      of it replied. */
  lemma NotAttemptedIsUntouched(result: UpgradeResult, ok: bool, t: seq<Call>, plan: Plan, path: string, i: nat)
    requires HonestResult(result, ok, t, plan, path) && i < |result.nodes| && result.nodes[i].outcome.NotAttempted?
    ensures |result.nodes| == |plan.nodes|
    ensures Untouched(t, plan.nodes[i].uid) ||
      (FailedLast(t) && FailedEntry(result.nodes[i], t, plan, i) && t[|t| - 1].kubelet.result.outcome.NotAttempted?)
  {
    ReportedNodes(result, ok, t, plan, path);
    EntryNotAttempted(result.nodes, t, plan, i);
  }

  lemma EntryNotAttempted(nodes: seq<NodeResult>, t: seq<Call>, plan: Plan, i: nat)
    requires HonestNodes(nodes, t, plan) && i < |nodes| == |plan.nodes| && nodes[i].outcome.NotAttempted?
    ensures Untouched(t, plan.nodes[i].uid) ||
      (FailedLast(t) && FailedEntry(nodes[i], t, plan, i) && t[|t| - 1].kubelet.result.outcome.NotAttempted?)
  {
    var m := Replay(t, |t|, plan).done;
    assert HonestWith(nodes, t, plan, m);
    assert i < m ==> Backed(nodes[i], t, plan, i);
  }

  /** A completed run starts at an accepted inventory of the plan and ends at a finished one. */
  lemma CompletedRunFinished(t: seq<Call>, plan: Plan)
    requires ConfirmedTwice(t, plan) && FinishedWith(t, plan)
    ensures Sees(t, 0) && Finished(t[0].reply.inventory, plan, t[|t| - 1].reply.inventory)
  {
    assert SeesPlan(t, 0, plan);
  }

  /** So planning again for what a completed run last saw succeeds exactly when the parts that no
      rollout check reads are complete, and then skips every node, and the control plane exactly
      when the manifest stage is remembered and the target proxy image has not changed. */
  lemma CompletedRunSkipsAll(t: seq<Call>, plan: Plan)
    requires ConfirmedTwice(t, plan) && FinishedWith(t, plan)
    ensures var end := t[|t| - 1].reply.inventory; var again := Assess(end, plan.targetVersion);
      && (again.Some? <==> UncheckedPartsComplete(end))
      && (again.Some? ==> forall p :: p in again.value.nodes ==> p.skip)
      && (again.Some? ==> (again.value.skipControlPlane <==> end.manifestsConverged && SameProxyImage(plan, end)))
  {
    var end := t[|t| - 1].reply.inventory;
    CompletedRunFinished(t, plan);
    FinishedAssessable(t[0].reply.inventory, plan, end);
    if UncheckedPartsComplete(end) { FinishedIsSkipped(t[0].reply.inventory, plan, end); }
  }
}
