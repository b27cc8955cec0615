/** The Kubernetes rollout, runKubernetesUpgrade and waitForUpgradeInventory
    (internal/application/kubernetes_upgrade.go).

    The cluster is an adversary: every observation, every reply and every moment of
    cancellation is arbitrary. A session records the calls it makes in `trace`, so that what
    is proved ranges over whole runs. */
module UpgradeRollout {
  import opened Sequences
  import opened Versions
  import opened UpgradeTypes
  import opened UpgradeAssessment
  import opened UpgradePlanning
  import opened UpgradeReadiness
  import opened Operations

  /** NotReadyYet is an error that wraps ErrKubernetesUpgradeNotReady; Failed is any other. */
  datatype InspectReply = Observed(inventory: Inventory) | NotReadyYet | Failed

  datatype NodeResult = NodeResult(
    nodeUID: string, outcome: Outcome, leftCordoned: bool, message: string, configFingerprint: string)

  datatype KubeletReply = KubeletReply(result: NodeResult, failed: bool)

  datatype Call =
    | Inspected(reply: InspectReply)
    | Snapshotted(gateway: string, path: string, snapshot: SnapshotReply)
    | RanControlPlane(upgrade: Plan, ok: bool)
    | UpgradedKubelet(node: NodePlan, kubelet: KubeletReply)

  datatype UpgradeResult = UpgradeResult(outcome: Outcome, nodes: seq<NodeResult>, snapshot: Option<Receipt>)

  datatype WaitResult = Settled(inventory: Inventory) | Stopped

  /** How the loop over the nodes went on at one node: done, stopped before any update with a
      message for the node's entry, or stopped by an update that did not succeed. */
  datatype StepResult = NodeDone(result: NodeResult) | NodeStopped(message: string) | NodeFailed(result: NodeResult)

  // ---- The session as the rollout uses it -------------------------------------------------

  class UpgradeSession {
    /** kubernetesUpgradeManifests: cluster UID and target of every verified CLI stage. */
    var manifestEvidence: set<(string, VersionText)>
    var trace: seq<Call>
    const context: OperationContext

    constructor ()
      ensures manifestEvidence == {} && trace == [] && fresh(context) && !context.ended
    {
      manifestEvidence, trace := {}, [];
      context := new OperationContext();
    }

    /** Inspect with applyKubernetesUpgradeManifestEvidence. The adapter itself never reports
        converged manifests. */
    method Inspect(target: VersionText) returns (reply: InspectReply)
      modifies this`trace
      ensures trace == old(trace) + [Inspected(reply)]
      ensures reply.Observed? ==>
        (reply.inventory.manifestsConverged <==> (reply.inventory.clusterUID, target) in manifestEvidence)
    {
      reply := *;
      if reply.Observed? {
        var converged := (reply.inventory.clusterUID, target) in manifestEvidence;
        reply := Observed(reply.inventory.(manifestsConverged := converged));
      }
      trace := trace + [Inspected(reply)];
    }

    /** executeEtcdSnapshot. */
    method TakeSnapshot(node: string, path: string) returns (snapshot: Option<Receipt>, ok: bool)
      modifies this`trace, context
      ensures trace == old(trace) ||
        (|trace| == |old(trace)| + 1 && trace[..|old(trace)|] == old(trace) && trace[|old(trace)|].Snapshotted? &&
          trace[|old(trace)|].gateway == node && trace[|old(trace)|].path == path)
      ensures ok ==> |trace| == |old(trace)| + 1 && Verified(trace[|old(trace)|].snapshot, node, path)
      ensures snapshot == if trace == old(trace) then None else KeptReceipt(trace[|old(trace)|].snapshot, node, path)
      ensures !ok ==> context.ended || (|trace| > |old(trace)| && !Verified(trace[|old(trace)|].snapshot, node, path))
    {
      var reply;
      reply, snapshot, ok := ExecuteEtcdSnapshot(context, node, path);
      if reply.Some? { trace := trace + [Snapshotted(node, path, reply.value)]; }
    }

    method RunControlPlane(plan: Plan) returns (ok: bool)
      modifies this`trace
      ensures trace == old(trace) + [RanControlPlane(plan, ok)]
    {
      ok := *;
      trace := trace + [RanControlPlane(plan, ok)];
    }

    /** The adapter answers for the node it was asked about. */
    method UpgradeKubelet(node: NodePlan) returns (reply: KubeletReply)
      modifies this`trace
      ensures trace == old(trace) + [UpgradedKubelet(node, reply)] && reply.result.nodeUID == node.uid
    {
      reply := *;
      reply := reply.(result := reply.result.(nodeUID := node.uid));
      trace := trace + [UpgradedKubelet(node, reply)];
    }
  }

  // ---- What a run may do -----------------------------------------------------------------

  ghost predicate Sees(t: seq<Call>, k: int) {
    0 <= k < |t| && t[k].Inspected? && t[k].reply.Observed?
  }

  /** Call k observed an inventory that assesses to the confirmed plan. */
  ghost predicate SeesPlan(t: seq<Call>, k: int, plan: Plan) {
    Sees(t, k) &&
    var p := Assess(t[k].reply.inventory, plan.targetVersion);
    p.Some? && SamePlan(plan, p.value)
  }

  ghost predicate ConfirmedAt(t: seq<Call>, at: int, plan: Plan) {
    forall k {:trigger SeesPlan(t, k, plan)} :: k == at ==> SeesPlan(t, k, plan)
  }

  /** The first and the third call confirmed the plan. */
  ghost predicate ConfirmedTwice(t: seq<Call>, plan: Plan) {
    forall k {:trigger SeesPlan(t, k, plan)} :: k == 0 || k == 2 ==> SeesPlan(t, k, plan)
  }

  /** A snapshot was verified between two observations; ConfirmedTwice says what these saw. */
  ghost predicate Preflighted(t: seq<Call>, plan: Plan, path: string) {
    && |t| >= 3 && Sees(t, 0) && Sees(t, 2)
    && t[1].Snapshotted? && t[1].gateway == plan.gateway && t[1].path == path
    && Verified(t[1].snapshot, plan.gateway, path)
  }

  function StartOf(plan: Plan): nat { if plan.skipControlPlane then 4 else 5 }

  /** Then the control-plane stage succeeded or was skipped, and was verified. */
  ghost predicate Started(t: seq<Call>, plan: Plan, path: string) {
    && |t| >= StartOf(plan) && Preflighted(t, plan, path)
    && (!plan.skipControlPlane ==> t[3] == RanControlPlane(plan, true))
    && Sees(t, StartOf(plan) - 1) && ControlPlaneReached(t[StartOf(plan) - 1].reply.inventory, plan)
  }

  predicate IdentityKept(p: NodePlan, n: Node) {
    && n.name == p.name && n.talosID == p.talosID && n.talosAddress == p.talosAddress && n.role == p.role
    && n.talosVersion == p.talosVersion && n.unschedulable == p.originallyCordoned
  }

  predicate KubeletDone(n: Node, target: VersionText) {
    n.kubelet == target && n.kubeletImage == n.targetKubeletImage
  }

  /** Every planned node is there with its planned identity and cordon state, the first
      `next` kubelets are done, and the control plane is at the target with all nodes ready. */
  ghost predicate ReadyForNode(inv: Inventory, plan: Plan, next: nat) {
    && ControlPlaneReached(inv, plan)
    && (forall i :: 0 <= i < |plan.nodes| ==>
          Listed(inv.nodes, plan.nodes[i].uid) && IdentityKept(plan.nodes[i], Lookup(inv.nodes, plan.nodes[i].uid)))
    && (forall i :: 0 <= i < next && i < |plan.nodes| ==>
          Listed(inv.nodes, plan.nodes[i].uid) && KubeletDone(Lookup(inv.nodes, plan.nodes[i].uid), plan.targetVersion))
  }

  predicate Succeeded(reply: KubeletReply) {
    !reply.failed && reply.result.outcome.Completed? && reply.result.configFingerprint != ""
  }

  /** The node plan that is sent: the planned identity with the state just observed. */
  function Refreshed(p: NodePlan, live: Node): NodePlan {
    p.(sourceVersion := live.kubelet, sourceKubeletImage := live.kubeletImage,
      targetKubeletImage := live.targetKubeletImage,
       configFingerprint := live.configFingerprint, originallyCordoned := live.unschedulable)
  }

  ghost predicate KubeletCallFor(t: seq<Call>, k: nat, plan: Plan, i: nat) {
    && k < |t| && t[k].UpgradedKubelet? && i < |plan.nodes|
    && Sees(t, k - 1) && ReadyForNode(t[k - 1].reply.inventory, plan, i)
    && t[k].node == Refreshed(plan.nodes[i], Lookup(t[k - 1].reply.inventory.nodes, plan.nodes[i].uid))
    && t[k].node.sourceVersion != plan.targetVersion
    && t[k].kubelet.result.nodeUID == plan.nodes[i].uid
  }

  /** Call j, if it is an update, succeeded and was for one of the first i nodes. */
  ghost predicate DoneCall(t: seq<Call>, j: nat, plan: Plan, i: nat) {
    j < |t| && (t[j].UpgradedKubelet? ==>
      Succeeded(t[j].kubelet) && exists h :: 0 <= h < i && KubeletCallFor(t, j, plan, h))
  }

  ghost predicate EarlierCallsDone(t: seq<Call>, k: nat, plan: Plan, i: nat) {
    forall j {:trigger DoneCall(t, j, plan, i)} :: 0 <= j < k && j < |t| ==> DoneCall(t, j, plan, i)
  }

  predicate SameKubelet(a: Node, b: Node) {
    a.kubelet == b.kubelet && a.kubeletImage == b.kubeletImage && a.configFingerprint == b.configFingerprint
  }

  predicate NodeUnchanged(p: NodePlan, nodes: seq<Node>, base: seq<Node>, done: bool, target: VersionText) {
    && Listed(nodes, p.uid) && IdentityKept(p, Lookup(nodes, p.uid))
    && (done ==> KubeletDone(Lookup(nodes, p.uid), target))
    && Listed(base, p.uid) && SameKubelet(Lookup(nodes, p.uid), Lookup(base, p.uid))
  }

  ghost predicate AllUnchanged(nodes: seq<Node>, plan: Plan, base: seq<Node>, next: nat) {
    forall i :: 0 <= i < |plan.nodes| ==> NodeUnchanged(plan.nodes[i], nodes, base, i < next, plan.targetVersion)
  }

  /** What the loop over the nodes waits for at node `next`, given the baseline it compares with. */
  ghost predicate SettledInventory(inv: Inventory, plan: Plan, base: seq<Node>, next: nat) {
    ControlPlaneReached(inv, plan) && AllUnchanged(inv.nodes, plan, base, next)
  }

  // ---- How far a trace is ------------------------------------------------------------------

  /** The number of nodes that are done, and the baseline: the observation that verified the control
      plane, with what every successful update has written into it since. */
  datatype Rollout = Rollout(done: nat, base: seq<Node>)

  /** What a successful update leaves in the baseline entry of its node, lines 328-330. */
  function Completion(before: Node, node: NodePlan, reply: KubeletReply, target: VersionText): Node {
    before.(configFingerprint := reply.result.configFingerprint, kubelet := target,
      kubeletImage := node.targetKubeletImage)
  }

  function Rewritten(base: seq<Node>, node: NodePlan, reply: KubeletReply, target: VersionText): seq<Node> {
    var b := Find(base, node.uid);
    if b < |base| then base[b := Completion(base[b], node, reply, target)] else base
  }

  /** A settled observation in which the node whose turn it is needs no update. */
  ghost predicate Skips(r: Rollout, inv: Inventory, plan: Plan) {
    && r.done < |plan.nodes| && SettledInventory(inv, plan, r.base, r.done)
    && Listed(inv.nodes, plan.nodes[r.done].uid)
    && KubeletDone(Lookup(inv.nodes, plan.nodes[r.done].uid), plan.targetVersion)
  }

  ghost function Advance(r: Rollout, call: Call, plan: Plan): Rollout {
    match call
    case UpgradedKubelet(node, reply) =>
      if Succeeded(reply) then Rollout(r.done + 1, Rewritten(r.base, node, reply, plan.targetVersion)) else r
    case Inspected(Observed(inv)) => if Skips(r, inv, plan) then r.(done := r.done + 1) else r
    case _ => r
  }

  ghost function FirstNodes(t: seq<Call>, plan: Plan): seq<Node> {
    if Sees(t, StartOf(plan) - 1) then t[StartOf(plan) - 1].reply.inventory.nodes else []
  }

  /** How far the first k calls have brought the loop over the nodes. */
  ghost function Replay(t: seq<Call>, k: nat, plan: Plan): Rollout {
    if k <= StartOf(plan) || k > |t| then Rollout(0, FirstNodes(t, plan))
    else Advance(Replay(t, k - 1, plan), t[k - 1], plan)
  }

  // ---- Safety of a run ---------------------------------------------------------------------

  /** Nothing but readiness is missing, lines 370-384. */
  ghost predicate OnlyNotReady(reply: InspectReply, plan: Plan, base: seq<Node>, next: nat) {
    || reply.NotReadyYet?
    || (reply.Observed? && AllUnchanged(reply.inventory.nodes, plan, base, next)
        && ControlPlaneReached(AsIfReady(reply.inventory), plan) && !ControlPlaneReached(reply.inventory, plan))
  }

  /** Lines 370-375: the observation as it would be once readiness settles. */
  function AsIfReady(inv: Inventory): Inventory {
    inv.(healthy := true, proxyRolloutComplete := true, nodes := Map((n: Node) => n.(ready := true), inv.nodes))
  }

  /** Call k, an observation during the rollout, was one to go on after: only readiness was missing,
      or the node whose turn it was is done, or its update is the next call. */
  ghost predicate Passed(t: seq<Call>, k: nat, plan: Plan) {
    k < |t| && t[k].Inspected? &&
    var r, reply := Replay(t, k, plan), t[k].reply;
    || OnlyNotReady(reply, plan, r.base, r.done)
    || (reply.Observed? && r.done < |plan.nodes| && SettledInventory(reply.inventory, plan, r.base, r.done)
        && (Skips(r, reply.inventory, plan) || (k + 1 < |t| && t[k + 1].UpgradedKubelet?)))
  }

  /** No observation before call `end` that showed a change was passed over. */
  ghost predicate Watchful(t: seq<Call>, plan: Plan, end: int) {
    forall k {:trigger Passed(t, k, plan)} ::
      StartOf(plan) <= k < end && k < |t| && t[k].Inspected? ==> Passed(t, k, plan)
  }

  /** The control-plane command, if call k is one, came right after the second confirmation. */
  ghost predicate SafeControlPlane(t: seq<Call>, k: nat, plan: Plan, path: string) {
    k < |t| && (t[k].RanControlPlane? ==>
      k == 3 && t[k].upgrade == plan && !plan.skipControlPlane && Preflighted(t, plan, path))
  }

  /** The update at call k was due for node r.done: everything before it is done, and the observation
      right before it is settled against the baseline. */
  ghost predicate Due(t: seq<Call>, k: nat, plan: Plan, r: Rollout) {
    && KubeletCallFor(t, k, plan, r.done) && EarlierCallsDone(t, k, plan, r.done)
    && SettledInventory(t[k - 1].reply.inventory, plan, r.base, r.done)
  }

  ghost predicate SafeKubelet(t: seq<Call>, k: nat, plan: Plan, path: string) {
    k < |t| && (t[k].UpgradedKubelet? ==>
      Started(t, plan, path) && k > StartOf(plan) && Due(t, k, plan, Replay(t, k, plan)))
  }

  /** The safety of a whole run: the control-plane command and the kubelet updates are only
      ever sent after everything they depend on, and no change in the cluster is passed over. */
  ghost predicate SafeRun(t: seq<Call>, plan: Plan, path: string) {
    && (forall k {:trigger SafeControlPlane(t, k, plan, path)} :: 0 <= k < |t| ==> SafeControlPlane(t, k, plan, path))
    && (forall k {:trigger SafeKubelet(t, k, plan, path)} :: 0 <= k < |t| ==> SafeKubelet(t, k, plan, path))
    && Watchful(t, plan, |t| - 1)
  }

  ghost predicate NoMutation(t: seq<Call>) {
    forall k :: 0 <= k < |t| ==> !t[k].RanControlPlane? && !t[k].UpgradedKubelet?
  }

  // ---- What a run may report ---------------------------------------------------------------

  /** No update of this node was sent. */
  ghost predicate Untouched(t: seq<Call>, uid: string) {
    forall k :: 0 <= k < |t| && t[k].UpgradedKubelet? ==> t[k].node.uid != uid
  }

  /** Call k was a successful update of node j, and this its reply. */
  ghost predicate Replied(entry: NodeResult, t: seq<Call>, plan: Plan, j: nat, k: nat) {
    k < |t| && KubeletCallFor(t, k, plan, j) && Succeeded(t[k].kubelet) && entry == t[k].kubelet.result
  }

  /** A completed entry for node j has a reason: it is the reply to an update that succeeded, or
      the node was observed at the target and no update was sent. */
  ghost predicate Backed(entry: NodeResult, t: seq<Call>, plan: Plan, j: nat) {
    j < |plan.nodes| && entry.nodeUID == plan.nodes[j].uid && entry.outcome.Completed? &&
    ((exists k :: 0 <= k && Replied(entry, t, plan, j, k)) ||
     (entry == SkippedEntry(plan.nodes[j].uid) && SeenDone(t, plan, j) && Untouched(t, plan.nodes[j].uid)))
  }

  function SkippedEntry(uid: string): NodeResult { NodeResult(uid, Completed, false, "", "") }

  ghost predicate SeenDone(t: seq<Call>, plan: Plan, j: nat) {
    j < |plan.nodes| &&
    exists k :: Sees(t, k) && Listed(t[k].reply.inventory.nodes, plan.nodes[j].uid) &&
      KubeletDone(Lookup(t[k].reply.inventory.nodes, plan.nodes[j].uid), plan.targetVersion)
  }

  ghost predicate CompletedPrefix(nodes: seq<NodeResult>, t: seq<Call>, plan: Plan, m: nat) {
    m <= |nodes| && m <= |plan.nodes| && forall j :: 0 <= j < m ==> Backed(nodes[j], t, plan, j)
  }

  function Unattempted(p: NodePlan, message: string): NodeResult {
    NodeResult(p.uid, NotAttempted, false, message, "")
  }

  /** From node m on the report says that nothing was attempted, and nothing was. */
  ghost predicate NotAttemptedFrom(nodes: seq<NodeResult>, t: seq<Call>, plan: Plan, m: nat) {
    |nodes| == |plan.nodes| &&
    forall j :: m <= j < |nodes| ==> nodes[j] == Unattempted(plan.nodes[j], "") && Untouched(t, plan.nodes[j].uid)
  }

  /** The same, where the entry of node m may carry the reason. */
  ghost predicate StoppedAt(nodes: seq<NodeResult>, t: seq<Call>, plan: Plan, m: nat) {
    && NotAttemptedFrom(nodes, t, plan, m + 1)
    && (m < |nodes| ==> nodes[m] == Unattempted(plan.nodes[m], nodes[m].message) && Untouched(t, plan.nodes[m].uid))
  }

  /** The entry reports the last call of the run, an update of node m that did not succeed. */
  ghost predicate FailedEntry(entry: NodeResult, t: seq<Call>, plan: Plan, m: nat) {
    && |t| > 0 && KubeletCallFor(t, |t| - 1, plan, m) && !Succeeded(t[|t| - 1].kubelet)
    && entry.message != ""
    && var reply := t[|t| - 1].kubelet;
       entry == reply.result.(
         outcome := if reply.failed then reply.result.outcome else Unconfirmed, message := entry.message)
  }

  ghost predicate FailedAt(nodes: seq<NodeResult>, t: seq<Call>, plan: Plan, m: nat) {
    m < |nodes| && FailedEntry(nodes[m], t, plan, m)
  }

  predicate FailedLast(t: seq<Call>) {
    t != [] && t[|t| - 1].UpgradedKubelet? && !Succeeded(t[|t| - 1].kubelet)
  }

  /** No entries, or one per planned node in plan order: completed ones for exactly the nodes that the
      trace has done, the update that did not succeed if the trace ends in one, then nodes for which no
      update was sent. */
  ghost predicate HonestNodes(nodes: seq<NodeResult>, t: seq<Call>, plan: Plan) {
    nodes == [] ||
    forall m {:trigger HonestWith(nodes, t, plan, m)} ::
      m == Replay(t, |t|, plan).done ==> HonestWith(nodes, t, plan, m)
  }

  ghost predicate HonestWith(nodes: seq<NodeResult>, t: seq<Call>, plan: Plan, m: nat) {
    CompletedPrefix(nodes, t, plan, m) &&
    if FailedLast(t) then FailedAt(nodes, t, plan, m) && NotAttemptedFrom(nodes, t, plan, m + 1)
    else StoppedAt(nodes, t, plan, m)
  }

  ghost predicate FinishedWith(t: seq<Call>, plan: Plan) {
    Sees(t, |t| - 1) && ReadyForNode(t[|t| - 1].reply.inventory, plan, |plan.nodes|) &&
    AllKubeletsReached(t[|t| - 1].reply.inventory, plan)
  }

  /** A run that reached the stages after the second confirmation reports one entry per node if it
      reached the nodes, and completion only with everything observed at the target. */
  ghost predicate HonestStages(result: UpgradeResult, ok: bool, t: seq<Call>, plan: Plan, path: string) {
    && HonestNodes(result.nodes, t, plan) && |result.nodes| == (if Started(t, plan, path) then |plan.nodes| else 0)
    && result.outcome == (if ok then Completed else Unconfirmed)
    && (ok ==>
         FinishedWith(t, plan) && |result.nodes| == |plan.nodes| &&
         CompletedPrefix(result.nodes, t, plan, |plan.nodes|))
  }

  /** A run that did not get that far changed nothing and says so. Every valid receipt is kept. */
  ghost predicate HonestResult(result: UpgradeResult, ok: bool, t: seq<Call>, plan: Plan, path: string) {
    && result.snapshot == KeptOf(t, plan, path)
    && if Preflighted(t, plan, path) && ConfirmedTwice(t, plan) then HonestStages(result, ok, t, plan, path)
       else !ok && result.outcome == NotAttempted && result.nodes == [] && NoMutation(t)
  }

  /** The receipt of the snapshot call, whenever it is valid. */
  function KeptOf(t: seq<Call>, plan: Plan, path: string): Option<Receipt> {
    if |t| > 1 && t[1].Snapshotted? then KeptReceipt(t[1].snapshot, plan.gateway, path) else None
  }

  // ---- Why a run may stop ---------------------------------------------------------------------

  ghost predicate NotConfirmed(t: seq<Call>, at: int, plan: Plan) {
    forall k {:trigger SeesPlan(t, k, plan)} :: k == at ==> !SeesPlan(t, k, plan)
  }

  /** The last observation was not what the loop over the nodes waited for at the node whose turn it
      was, or, with all nodes done, not what the final verification asks for. */
  ghost predicate Blames(t: seq<Call>, plan: Plan) {
    |t| > StartOf(plan) && t[|t| - 1].Inspected? &&
    var r, reply := Replay(t, |t| - 1, plan), t[|t| - 1].reply;
    || !reply.Observed? || !SettledInventory(reply.inventory, plan, r.base, r.done)
    || (r.done < |plan.nodes| && Listed(reply.inventory.nodes, plan.nodes[r.done].uid)
        && WrongImage(Lookup(reply.inventory.nodes, plan.nodes[r.done].uid), plan.targetVersion))
    || (r.done == |plan.nodes| && !AllKubeletsReached(reply.inventory, plan))
  }

  /** At the target version, but not with the image that goes with it. */
  predicate WrongImage(n: Node, target: VersionText) { n.kubelet == target && n.kubeletImage != n.targetKubeletImage }

  /** The last answer of the cluster was not good enough to go on. */
  ghost predicate Excused(t: seq<Call>, plan: Plan, path: string) {
    t != [] &&
    var last := |t| - 1;
    match t[last]
    case Snapshotted(_, _, snapshot) => !Verified(snapshot, plan.gateway, path)
    case RanControlPlane(_, ok) => !ok
    case UpgradedKubelet(_, kubelet) => !Succeeded(kubelet)
    case Inspected(reply) =>
      || ((last == 0 || last == 2) && NotConfirmed(t, last, plan))
      || (last == StartOf(plan) - 1 && (!reply.Observed? || !ControlPlaneReached(reply.inventory, plan)))
      || Blames(t, plan)
  }

  // ---- Waiting --------------------------------------------------------------------------------

  /** t2 continues t1 with observations only. */
  ghost predicate OnlyInspections(t1: seq<Call>, t2: seq<Call>) {
    t1 <= t2 && forall k :: |t1| <= k < |t2| ==> t2[k].Inspected?
  }

  /** Lines 357-369: identity, cordon state and pending configuration of every planned node. */
  method CheckUnchanged(inv: Inventory, plan: Plan, baseline: array<Node>, next: nat) returns (ok: bool)
    ensures ok <==> AllUnchanged(inv.nodes, plan, baseline[..], next)
  {
    for i := 0 to |plan.nodes|
      invariant forall j ::
        0 <= j < i ==> NodeUnchanged(plan.nodes[j], inv.nodes, baseline[..], j < next, plan.targetVersion)
    {
      var planned := plan.nodes[i];
      var found := FindUpgradeNode(inv.nodes, planned.uid);
      if found == |inv.nodes| || !IdentityKept(planned, inv.nodes[found]) { return false; }
      if i < next &&
        (inv.nodes[found].kubelet != plan.targetVersion ||
         inv.nodes[found].kubeletImage != inv.nodes[found].targetKubeletImage)
      {
        return false;
      }
      var before := FindUpgradeNode(baseline[..], planned.uid);
      if before == baseline.Length || !SameKubelet(inv.nodes[found], baseline[before]) { return false; }
    }
    return true;
  }

  ghost predicate Unsettled(reply: InspectReply, plan: Plan, base: seq<Node>, next: nat) {
    !reply.Observed? || !SettledInventory(reply.inventory, plan, base, next)
  }

  /** Pretending that everything is ready never makes a reached control plane unreached. */
  lemma ReachedAsIfReady(inv: Inventory, plan: Plan)
    requires ControlPlaneReached(inv, plan)
    ensures ControlPlaneReached(AsIfReady(inv), plan)
  {
  }

  /** The observations from `from` up to `end` were waited through. */
  ghost predicate Waited(from: nat, t: seq<Call>, plan: Plan, base: seq<Node>, next: nat, end: int) {
    forall k :: from <= k < end && k < |t| && t[k].Inspected? ==> OnlyNotReady(t[k].reply, plan, base, next)
  }

  /** waitForUpgradeInventory. `polls` bounds the observations before the wait's own deadline
      passes; it is arbitrary. */
  method WaitForUpgradeInventory(s: UpgradeSession, plan: Plan, baseline: array<Node>, next: nat)
    returns (r: WaitResult)
    modifies s`trace, s.context
    ensures OnlyInspections(old(s.trace), s.trace)
    ensures Waited(|old(s.trace)|, s.trace, plan, baseline[..], next, |s.trace| - 1)
    ensures r.Settled? ==> |s.trace| > |old(s.trace)| && s.trace[|s.trace| - 1] == Inspected(Observed(r.inventory))
    ensures r.Settled? ==> SettledInventory(r.inventory, plan, baseline[..], next)
    ensures r.Settled? ==>
      (r.inventory.manifestsConverged <==> (r.inventory.clusterUID, plan.targetVersion) in s.manifestEvidence)
    ensures r.Stopped? ==> s.context.ended || |s.trace| > |old(s.trace)|
    ensures r.Stopped? && |s.trace| > |old(s.trace)| ==>
      Unsettled(s.trace[|s.trace| - 1].reply, plan, baseline[..], next)
  {
    var polls: nat := *;
    while true
      invariant OnlyInspections(old(s.trace), s.trace)
      invariant Waited(|old(s.trace)|, s.trace, plan, baseline[..], next, |s.trace|)
      invariant (old(s.context.ended) ==> s.context.ended)
      decreases polls
    {
      var done := s.context.Ended();
      if done { return Stopped; }
      var reply := s.Inspect(plan.targetVersion);
      if reply.Failed? { return Stopped; }
      if reply.Observed? {
        var inv := reply.inventory;
        if !SameCluster(inv, plan) { return Stopped; }
        var same := CheckUnchanged(inv, plan, baseline, next);
        if !same { return Stopped; }
        var settling := ControlPlaneReachedTarget(AsIfReady(inv), plan);
        if ControlPlaneReached(inv, plan) { ReachedAsIfReady(inv, plan); }
        if !settling { return Stopped; }
        var reached := ControlPlaneReachedTarget(inv, plan);
        if reached { return Settled(inv); }
      }
      if polls == 0 { return Stopped; }
      polls := polls - 1;
    }
  }

  // ---- Extending a run ---------------------------------------------------------------------------

  /** The state of the loop between two nodes: the first i are done. */
  ghost predicate Rolling(t: seq<Call>, plan: Plan, path: string, i: nat) {
    && Started(t, plan, path) && SafeRun(t, plan, path) && EarlierCallsDone(t, |t|, plan, i)
    && Watchful(t, plan, |t|)
  }

  /** And the array holds the baseline. */
  ghost predicate Stands(t: seq<Call>, plan: Plan, base: seq<Node>, i: nat) {
    |t| >= StartOf(plan) && i <= |plan.nodes| && Replay(t, |t|, plan) == Rollout(i, base)
  }

  /** What came before is not reinterpreted as the run goes on. */
  lemma {:induction false} ReplayStays(t1: seq<Call>, t2: seq<Call>, plan: Plan, k: nat)
    requires t1 <= t2 && StartOf(plan) <= |t1| && k <= |t1|
    ensures Replay(t1, k, plan) == Replay(t2, k, plan)
  {
    if k <= StartOf(plan) {
    } else {
      ReplayStays(t1, t2, plan, k - 1);
    }
  }

  lemma PassedStays(t1: seq<Call>, t2: seq<Call>, plan: Plan, k: nat)
    requires t1 <= t2 && StartOf(plan) <= |t1| && Passed(t1, k, plan)
    ensures Passed(t2, k, plan)
  {
    ReplayStays(t1, t2, plan, k);
    assert t1[k] == t2[k];
  }

  lemma WatchfulStays(t1: seq<Call>, t2: seq<Call>, plan: Plan, end: int)
    requires t1 <= t2 && StartOf(plan) <= |t1| && end <= |t1| && Watchful(t1, plan, end)
    ensures Watchful(t2, plan, end)
  {
    forall k | StartOf(plan) <= k < end && t2[k].Inspected? ensures Passed(t2, k, plan) {
      assert t1[k] == t2[k];
      assert Passed(t1, k, plan);
      PassedStays(t1, t2, plan, k);
    }
  }

  lemma CallStays(t1: seq<Call>, t2: seq<Call>, plan: Plan, k: nat, i: nat)
    requires t1 <= t2 && k < |t1|
    ensures KubeletCallFor(t1, k, plan, i) <==> KubeletCallFor(t2, k, plan, i)
  {
  }

  lemma DoneStays(t1: seq<Call>, t2: seq<Call>, plan: Plan, i: nat, m: nat, j: nat)
    requires t1 <= t2 && i <= m && j < |t1| && DoneCall(t1, j, plan, i)
    ensures DoneCall(t2, j, plan, m)
  {
    assert t1[j] == t2[j];
    if t1[j].UpgradedKubelet? {
      var h :| 0 <= h < i && KubeletCallFor(t1, j, plan, h);
      CallStays(t1, t2, plan, j, h);
    }
  }

  lemma EarlierStays(t1: seq<Call>, t2: seq<Call>, plan: Plan, k: nat, i: nat)
    requires t1 <= t2 && k <= |t1| && EarlierCallsDone(t1, k, plan, i)
    ensures EarlierCallsDone(t2, k, plan, i)
  {
    forall j | 0 <= j < k ensures DoneCall(t2, j, plan, i) {
      DoneStays(t1, t2, plan, i, i, j);
    }
  }

  lemma StartStays(t1: seq<Call>, t2: seq<Call>, plan: Plan, path: string)
    requires t1 <= t2 && Started(t1, plan, path)
    ensures Started(t2, plan, path)
  {
  }

  lemma DueStays(t1: seq<Call>, t2: seq<Call>, plan: Plan, k: nat, r: Rollout)
    requires t1 <= t2 && k < |t1| && Due(t1, k, plan, r)
    ensures Due(t2, k, plan, r)
  {
    CallStays(t1, t2, plan, k, r.done);
    EarlierStays(t1, t2, plan, k, r.done);
    assert t2[k - 1] == t1[k - 1];
  }

  /** What was safe stays safe as the run goes on. */
  lemma SafeStays(t1: seq<Call>, t2: seq<Call>, plan: Plan, path: string, k: nat)
    requires t1 <= t2 && k < |t1| && Started(t1, plan, path)
    requires SafeKubelet(t1, k, plan, path) && SafeControlPlane(t1, k, plan, path)
    ensures SafeKubelet(t2, k, plan, path) && SafeControlPlane(t2, k, plan, path)
  {
    assert t2[k] == t1[k];
    StartStays(t1, t2, plan, path);
    if t1[k].UpgradedKubelet? {
      ReplayStays(t1, t2, plan, k);
      DueStays(t1, t2, plan, k, Replay(t1, k, plan));
    }
  }

  lemma SafePrefix(t1: seq<Call>, t2: seq<Call>, plan: Plan, path: string)
    requires t1 <= t2 && SafeRun(t1, plan, path) && Started(t1, plan, path)
    ensures forall k :: 0 <= k < |t1| ==> SafeKubelet(t2, k, plan, path) && SafeControlPlane(t2, k, plan, path)
  {
    forall k | 0 <= k < |t1| ensures SafeKubelet(t2, k, plan, path) && SafeControlPlane(t2, k, plan, path) {
      assert SafeKubelet(t1, k, plan, path) && SafeControlPlane(t1, k, plan, path);
      SafeStays(t1, t2, plan, path, k);
    }
  }

  lemma DonePrefix(t1: seq<Call>, t2: seq<Call>, plan: Plan, i: nat, m: nat)
    requires t1 <= t2 && i <= m && EarlierCallsDone(t1, |t1|, plan, i)
    ensures EarlierCallsDone(t2, |t1|, plan, m)
  {
    forall j | 0 <= j < |t1| ensures DoneCall(t2, j, plan, m) {
      assert DoneCall(t1, j, plan, i);
      DoneStays(t1, t2, plan, i, m, j);
    }
  }

  // ---- Observations --------------------------------------------------------------------------------

  /** Waiting moves nothing. */
  lemma {:induction false} ReplayWaiting(t1: seq<Call>, t2: seq<Call>, plan: Plan, base: seq<Node>, i: nat, k: nat)
    requires Stands(t1, plan, base, i) && OnlyInspections(t1, t2)
    requires Waited(|t1|, t2, plan, base, i, |t2| - 1)
    requires |t1| <= k && (k == |t1| || k < |t2|)
    ensures Replay(t2, k, plan) == Rollout(i, base)
  {
    if k == |t1| {
      ReplayStays(t1, t2, plan, k);
    } else {
      ReplayWaiting(t1, t2, plan, base, i, k - 1);
      assert OnlyNotReady(t2[k - 1].reply, plan, base, i);
    }
  }

  lemma WaitingPassed(t1: seq<Call>, t2: seq<Call>, plan: Plan, base: seq<Node>, i: nat)
    requires Stands(t1, plan, base, i) && OnlyInspections(t1, t2) && Watchful(t1, plan, |t1|)
    requires Waited(|t1|, t2, plan, base, i, |t2| - 1)
    ensures Watchful(t2, plan, |t2| - 1)
  {
    WatchfulStays(t1, t2, plan, |t1|);
    forall k | |t1| <= k < |t2| - 1 ensures Passed(t2, k, plan) {
      ReplayWaiting(t1, t2, plan, base, i, k);
    }
  }

  /** Waiting keeps a run safe and its progress as it is. */
  lemma WaitingSafe(t1: seq<Call>, t2: seq<Call>, plan: Plan, path: string, base: seq<Node>, i: nat)
    requires Rolling(t1, plan, path, i) && Stands(t1, plan, base, i) && OnlyInspections(t1, t2)
    requires Waited(|t1|, t2, plan, base, i, |t2| - 1)
    ensures Started(t2, plan, path) && SafeRun(t2, plan, path) && EarlierCallsDone(t2, |t2|, plan, i)
    ensures Replay(t2, |t2| - 1, plan) == Rollout(i, base) || t2 == t1
  {
    StartStays(t1, t2, plan, path);
    SafePrefix(t1, t2, plan, path);
    EarlierStays(t1, t2, plan, |t1|, i);
    WaitingPassed(t1, t2, plan, base, i);
    if t2 != t1 { ReplayWaiting(t1, t2, plan, base, i, |t2| - 1); }
  }

  /** The trace has done i nodes, and does not end in an update of another. */
  ghost predicate DoneBefore(t: seq<Call>, plan: Plan, i: nat) {
    && Replay(t, |t|, plan).done == i
    && EarlierCallsDone(t, if FailedLast(t) then |t| - 1 else |t|, plan, i)
    && (FailedLast(t) ==> KubeletCallFor(t, |t| - 1, plan, i))
  }

  lemma NoneFailed(t: seq<Call>, plan: Plan, i: nat)
    requires EarlierCallsDone(t, |t|, plan, i)
    ensures !FailedLast(t)
  {
    if t != [] && t[|t| - 1].UpgradedKubelet? { assert DoneCall(t, |t| - 1, plan, i); }
  }

  /** A wait that stops has not moved on either, and its last observation is to blame. */
  lemma WaitStopped(t1: seq<Call>, t2: seq<Call>, plan: Plan, path: string, base: seq<Node>, i: nat)
    requires Rolling(t1, plan, path, i) && Stands(t1, plan, base, i) && OnlyInspections(t1, t2)
    requires Waited(|t1|, t2, plan, base, i, |t2| - 1)
    requires |t2| > |t1| ==> Unsettled(t2[|t2| - 1].reply, plan, base, i)
    ensures DoneBefore(t2, plan, i) && !FailedLast(t2) && (|t2| > |t1| ==> Blames(t2, plan))
    ensures Started(t2, plan, path) && SafeRun(t2, plan, path)
  {
    WaitingSafe(t1, t2, plan, path, base, i);
    NoneFailed(t2, plan, i);
    if |t2| > |t1| {
      assert Replay(t2, |t2|, plan) == Advance(Replay(t2, |t2| - 1, plan), t2[|t2| - 1], plan);
    } else {
      assert t2 == t1;
    }
  }

  // ---- Reports -------------------------------------------------------------------------------------

  lemma OtherUID(plan: Plan, i: nat, j: nat)
    requires Distinct(PlanUIDs(plan.nodes)) && i < |plan.nodes| && j < |plan.nodes| && i != j
    ensures plan.nodes[i].uid != plan.nodes[j].uid
  {
  }

  /** Nodes from i on have no update among calls that were all for earlier ones. */
  lemma UntouchedFrom(t: seq<Call>, plan: Plan, i: nat, j: nat)
    requires EarlierCallsDone(t, |t|, plan, i) && Distinct(PlanUIDs(plan.nodes)) && i <= j < |plan.nodes|
    ensures Untouched(t, plan.nodes[j].uid)
  {
    forall k | 0 <= k < |t| && t[k].UpgradedKubelet? ensures t[k].node.uid != plan.nodes[j].uid {
      assert DoneCall(t, k, plan, i);
      var h :| 0 <= h < i && KubeletCallFor(t, k, plan, h);
      OtherUID(plan, h, j);
    }
  }

  lemma UntouchedAfter(t: seq<Call>, plan: Plan, i: nat, j: nat)
    requires DoneBefore(t, plan, i) && Distinct(PlanUIDs(plan.nodes)) && i <= j < |plan.nodes|
    requires FailedLast(t) ==> i < j
    ensures Untouched(t, plan.nodes[j].uid)
  {
    if FailedLast(t) {
      OtherUID(plan, i, j);
      forall k | 0 <= k < |t| - 1 && t[k].UpgradedKubelet? ensures t[k].node.uid != plan.nodes[j].uid {
        assert DoneCall(t, k, plan, i);
        var h :| 0 <= h < i && KubeletCallFor(t, k, plan, h);
        OtherUID(plan, h, j);
      }
    } else {
      UntouchedFrom(t, plan, i, j);
    }
  }

  /** All updates that t2 adds to t1 are of node i. */
  ghost predicate UpdatesOnly(t1: seq<Call>, t2: seq<Call>, plan: Plan, i: nat) {
    t1 <= t2 && i < |plan.nodes| &&
    forall k :: |t1| <= k < |t2| && t2[k].UpgradedKubelet? ==> t2[k].node.uid == plan.nodes[i].uid
  }

  lemma BackedStays(entry: NodeResult, t1: seq<Call>, t2: seq<Call>, plan: Plan, j: nat)
    requires Backed(entry, t1, plan, j) && t1 <= t2
    requires forall k :: |t1| <= k < |t2| && t2[k].UpgradedKubelet? ==> t2[k].node.uid != plan.nodes[j].uid
    ensures Backed(entry, t2, plan, j)
  {
    if k :| 0 <= k && Replied(entry, t1, plan, j, k) {
      CallStays(t1, t2, plan, k, j);
      assert t2[k] == t1[k];
      assert Replied(entry, t2, plan, j, k);
    } else {
      SeenStays(t1, t2, plan, j);
      forall k | 0 <= k < |t2| && t2[k].UpgradedKubelet? ensures t2[k].node.uid != plan.nodes[j].uid {
        if k < |t1| { assert t1[k] == t2[k]; }
      }
    }
  }

  lemma SeenStays(t1: seq<Call>, t2: seq<Call>, plan: Plan, j: nat)
    requires SeenDone(t1, plan, j) && t1 <= t2
    ensures SeenDone(t2, plan, j)
  {
    var k :| Sees(t1, k) && Listed(t1[k].reply.inventory.nodes, plan.nodes[j].uid) &&
      KubeletDone(Lookup(t1[k].reply.inventory.nodes, plan.nodes[j].uid), plan.targetVersion);
    assert Sees(t2, k);
  }

  /** Updates of node m do not touch what is reported of earlier nodes. */
  lemma PrefixStays(nodes: seq<NodeResult>, more: seq<NodeResult>, t1: seq<Call>, t2: seq<Call>, plan: Plan, m: nat)
    requires CompletedPrefix(nodes, t1, plan, m) && nodes <= more && Distinct(PlanUIDs(plan.nodes))
    requires UpdatesOnly(t1, t2, plan, m) || OnlyInspections(t1, t2)
    ensures CompletedPrefix(more, t2, plan, m)
  {
    forall j | 0 <= j < m ensures Backed(more[j], t2, plan, j) {
      if m < |plan.nodes| { OtherUID(plan, m, j); }
      BackedStays(nodes[j], t1, t2, plan, j);
    }
  }

  // ---- One node -----------------------------------------------------------------------------------

  lemma SettledReady(inv: Inventory, plan: Plan, base: seq<Node>, next: nat)
    requires SettledInventory(inv, plan, base, next)
    ensures ReadyForNode(inv, plan, next)
  {
    forall i | 0 <= i < |plan.nodes|
      ensures NodeUnchanged(plan.nodes[i], inv.nodes, base, i < next, plan.targetVersion)
    {
    }
  }

  /** Lines 282-293 and 303-307 repeat checks that a settled observation has passed. */
  lemma RechecksCannotFire(inv: Inventory, plan: Plan, base: seq<Node>, next: nat)
    requires SettledInventory(inv, plan, base, next) && next < |plan.nodes|
    ensures var p := plan.nodes[next];
      && Listed(base, p.uid) && Listed(inv.nodes, p.uid)
      && IdentityKept(p, Lookup(inv.nodes, p.uid)) && Lookup(inv.nodes, p.uid).ready
      && SameKubelet(Lookup(inv.nodes, p.uid), Lookup(base, p.uid))
  {
    var p := plan.nodes[next];
    assert NodeUnchanged(p, inv.nodes, base, false, plan.targetVersion);
    assert Lookup(inv.nodes, p.uid) in inv.nodes;
  }

  /** A settled observation was just made, with the first i nodes done. */
  ghost predicate SettledAt(t: seq<Call>, inv: Inventory, plan: Plan, path: string, base: seq<Node>, i: nat) {
    && |t| > StartOf(plan) && t[|t| - 1] == Inspected(Observed(inv))
    && Started(t, plan, path) && SafeRun(t, plan, path) && EarlierCallsDone(t, |t|, plan, i)
    && Replay(t, |t| - 1, plan) == Rollout(i, base) && SettledInventory(inv, plan, base, i)
  }

  /** So node i, which the baseline and the observation have, may be handled. */
  ghost predicate ObservedFor(t: seq<Call>, inv: Inventory, plan: Plan, path: string, base: seq<Node>, i: nat) {
    && i < |plan.nodes| && Listed(base, plan.nodes[i].uid) && Listed(inv.nodes, plan.nodes[i].uid)
    && (forall m {:trigger SettledAt(t, inv, plan, path, base, m)} :: m == i ==> SettledAt(t, inv, plan, path, base, m))
  }

  lemma WaitSettled(
    t1: seq<Call>, t2: seq<Call>, inv: Inventory, plan: Plan, path: string, base: seq<Node>, i: nat)
    requires Rolling(t1, plan, path, i) && Stands(t1, plan, base, i) && OnlyInspections(t1, t2) && i < |plan.nodes|
    requires Waited(|t1|, t2, plan, base, i, |t2| - 1) && |t2| > |t1| && t2[|t2| - 1] == Inspected(Observed(inv))
    requires SettledInventory(inv, plan, base, i)
    ensures ObservedFor(t2, inv, plan, path, base, i)
    ensures Started(t2, plan, path) && SafeRun(t2, plan, path)
    ensures IdentityKept(plan.nodes[i], Lookup(inv.nodes, plan.nodes[i].uid)) &&
      Lookup(inv.nodes, plan.nodes[i].uid).ready
  {
    WaitingSafe(t1, t2, plan, path, base, i);
    RechecksCannotFire(inv, plan, base, i);
  }

  /** Lines 275-293: wait, then look the node up in the baseline and in the observation. */
  method ObserveNode(s: UpgradeSession, plan: Plan, path: string, baseline: array<Node>, index: nat)
    returns (wait: WaitResult, b: nat)
    requires index < |plan.nodes|
    requires Rolling(s.trace, plan, path, index) && Stands(s.trace, plan, baseline[..], index)
    modifies s`trace, s.context
    ensures OnlyInspections(old(s.trace), s.trace) && Started(s.trace, plan, path) && SafeRun(s.trace, plan, path)
    ensures wait.Settled? ==> ObservedFor(s.trace, wait.inventory, plan, path, baseline[..], index)
    ensures wait.Settled? ==> b == Find(baseline[..], plan.nodes[index].uid) < baseline.Length
    ensures wait.Stopped? ==> DoneBefore(s.trace, plan, index) && !FailedLast(s.trace)
    ensures wait.Stopped? ==> s.context.ended || Blames(s.trace, plan)
  {
    b := 0;
    ghost var t0 := s.trace;
    wait := WaitForUpgradeInventory(s, plan, baseline, index);
    if wait.Stopped? {
      WaitStopped(t0, s.trace, plan, path, baseline[..], index);
      return;
    }
    var inv, original := wait.inventory, plan.nodes[index];
    WaitSettled(t0, s.trace, inv, plan, path, baseline[..], index);
    b := FindUpgradeNode(baseline[..], original.uid);
    var f := FindUpgradeNode(inv.nodes, original.uid);
    if b == baseline.Length || f == |inv.nodes| || !IdentityKept(original, inv.nodes[f]) || !inv.nodes[f].ready {
      assert false; // Lines 282-293 cannot fire after a successful wait.
    }
  }

  /** An observation of a node that is not at the target yet does not move the loop. */
  lemma NotSkipped(t: seq<Call>, inv: Inventory, plan: Plan, path: string, base: seq<Node>, i: nat)
    requires ObservedFor(t, inv, plan, path, base, i)
    requires !KubeletDone(Lookup(inv.nodes, plan.nodes[i].uid), plan.targetVersion)
    ensures Replay(t, |t|, plan) == Rollout(i, base)
  {
    assert SettledAt(t, inv, plan, path, base, i);
    assert Replay(t, |t|, plan) == Advance(Replay(t, |t| - 1, plan), t[|t| - 1], plan);
  }

  /** t2 is t1 with one more call, the update of node i that the observation allows. */
  ghost predicate PermittedCall(t1: seq<Call>, t2: seq<Call>, inv: Inventory, plan: Plan, i: nat) {
    && t1 <= t2 && |t2| == |t1| + 1 && t2[|t1|].UpgradedKubelet? && i < |plan.nodes|
    && Listed(inv.nodes, plan.nodes[i].uid)
    && t2[|t1|].node == Refreshed(plan.nodes[i], Lookup(inv.nodes, plan.nodes[i].uid))
    && t2[|t1|].node.sourceVersion != plan.targetVersion && t2[|t1|].kubelet.result.nodeUID == plan.nodes[i].uid
  }

  lemma PermittedDue(t1: seq<Call>, t2: seq<Call>, inv: Inventory, plan: Plan, path: string, base: seq<Node>, i: nat)
    requires ObservedFor(t1, inv, plan, path, base, i) && PermittedCall(t1, t2, inv, plan, i)
    ensures Due(t2, |t1|, plan, Rollout(i, base)) && Replay(t2, |t1|, plan) == Rollout(i, base)
  {
    assert SettledAt(t1, inv, plan, path, base, i);
    SettledReady(inv, plan, base, i);
    assert t2[|t1| - 1] == t1[|t1| - 1];
    assert Sees(t2, |t1| - 1);
    DonePrefix(t1, t2, plan, i, i);
    NotSkipped(t1, inv, plan, path, base, i);
    ReplayStays(t1, t2, plan, |t1|);
  }

  lemma PermittedWatchful(
    t1: seq<Call>, t2: seq<Call>, inv: Inventory, plan: Plan, path: string, base: seq<Node>, i: nat)
    requires ObservedFor(t1, inv, plan, path, base, i) && PermittedCall(t1, t2, inv, plan, i)
    ensures Watchful(t2, plan, |t2|)
  {
    assert SettledAt(t1, inv, plan, path, base, i);
    WatchfulStays(t1, t2, plan, |t1| - 1);
    ReplayStays(t1, t2, plan, |t1| - 1);
    assert t2[|t1| - 1] == t1[|t1| - 1];
    assert Passed(t2, |t1| - 1, plan);
  }

  lemma PermittedSafe(t1: seq<Call>, t2: seq<Call>, inv: Inventory, plan: Plan, path: string, base: seq<Node>, i: nat)
    requires ObservedFor(t1, inv, plan, path, base, i) && PermittedCall(t1, t2, inv, plan, i)
    ensures Started(t2, plan, path) && SafeRun(t2, plan, path)
  {
    ObservedStarted(t1, inv, plan, path, base, i);
    StartStays(t1, t2, plan, path);
    SafePrefix(t1, t2, plan, path);
    PermittedWatchful(t1, t2, inv, plan, path, base, i);
    PermittedSafeCall(t1, t2, inv, plan, path, base, i);
    forall k | 0 <= k < |t2| ensures SafeKubelet(t2, k, plan, path) && SafeControlPlane(t2, k, plan, path) {
      assert k < |t1| || k == |t1|;
    }
  }

  lemma ObservedStarted(t: seq<Call>, inv: Inventory, plan: Plan, path: string, base: seq<Node>, i: nat)
    requires ObservedFor(t, inv, plan, path, base, i)
    ensures |t| > StartOf(plan) && Started(t, plan, path) && SafeRun(t, plan, path)
  {
    assert SettledAt(t, inv, plan, path, base, i);
  }

  lemma PermittedSafeCall(
    t1: seq<Call>, t2: seq<Call>, inv: Inventory, plan: Plan, path: string, base: seq<Node>, i: nat)
    requires ObservedFor(t1, inv, plan, path, base, i) && PermittedCall(t1, t2, inv, plan, i)
    requires Started(t2, plan, path)
    ensures SafeKubelet(t2, |t1|, plan, path)
  {
    PermittedDue(t1, t2, inv, plan, path, base, i);
    assert SettledAt(t1, inv, plan, path, base, i);
  }

  lemma UpdateRolling(t1: seq<Call>, t2: seq<Call>, inv: Inventory, plan: Plan, path: string, base: seq<Node>, i: nat)
    requires ObservedFor(t1, inv, plan, path, base, i) && PermittedCall(t1, t2, inv, plan, i)
    requires Succeeded(t2[|t1|].kubelet) && KubeletCallFor(t2, |t1|, plan, i)
    ensures Rolling(t2, plan, path, i + 1)
  {
    assert SettledAt(t1, inv, plan, path, base, i);
    PermittedSafe(t1, t2, inv, plan, path, base, i);
    PermittedWatchful(t1, t2, inv, plan, path, base, i);
    DonePrefix(t1, t2, plan, i, i + 1);
    assert DoneCall(t2, |t1|, plan, i + 1);
  }

  /** When the update succeeded the next node may follow, and the baseline has its result. */
  lemma UpdateDone(
    t1: seq<Call>, t2: seq<Call>, inv: Inventory, plan: Plan, path: string, base: seq<Node>, i: nat, ended: bool)
    requires ObservedFor(t1, inv, plan, path, base, i) && PermittedCall(t1, t2, inv, plan, i)
    requires Succeeded(t2[|t1|].kubelet)
    ensures Handled(NodeDone(t2[|t1|].kubelet.result), ended, t2, plan, path,
      Rewritten(base, t2[|t1|].node, t2[|t1|].kubelet, plan.targetVersion), i)
  {
    PermittedDue(t1, t2, inv, plan, path, base, i);
    UpdateRolling(t1, t2, inv, plan, path, base, i);
    assert Replied(t2[|t1|].kubelet.result, t2, plan, i, |t1|);
    assert Replay(t2, |t2|, plan) == Advance(Replay(t2, |t1|, plan), t2[|t1|], plan);
  }

  lemma UpdateFailed(
    t1: seq<Call>, t2: seq<Call>, inv: Inventory, plan: Plan, path: string, base: seq<Node>, i: nat, r: StepResult,
    ended: bool)
    requires ObservedFor(t1, inv, plan, path, base, i) && PermittedCall(t1, t2, inv, plan, i)
    requires !Succeeded(t2[|t1|].kubelet) && r.NodeFailed? && r.result.message != ""
    requires var reply := t2[|t1|].kubelet;
      r.result == reply.result.(
        outcome := if reply.failed then reply.result.outcome else Unconfirmed, message := r.result.message)
    ensures Handled(r, ended, t2, plan, path, base, i)
  {
    PermittedSafe(t1, t2, inv, plan, path, base, i);
    PermittedDue(t1, t2, inv, plan, path, base, i);
    assert Replay(t2, |t2|, plan) == Advance(Replay(t2, |t1|, plan), t2[|t1|], plan);
  }

  /** What one node came to: done, with the baseline and a report entry for it; failed, with the entry;
      or stopped before any update, because the context ended or the last observation was to blame. */
  ghost predicate HandledAt(r: StepResult, ended: bool, t: seq<Call>, plan: Plan, path: string, base: seq<Node>, i: nat)
  {
    && Started(t, plan, path) && SafeRun(t, plan, path)
    && match r
       case NodeDone(result) => Rolling(t, plan, path, i + 1) && Stands(t, plan, base, i + 1) &&
         Backed(result, t, plan, i)
       case NodeFailed(entry) => DoneBefore(t, plan, i) && FailedEntry(entry, t, plan, i)
       case NodeStopped(_) => DoneBefore(t, plan, i) && !FailedLast(t) && (ended || Blames(t, plan))
  }

  ghost predicate Handled(r: StepResult, ended: bool, t: seq<Call>, plan: Plan, path: string, base: seq<Node>, i: nat) {
    forall m {:trigger HandledAt(r, ended, t, plan, path, base, m)} ::
      m == i ==> HandledAt(r, ended, t, plan, path, base, m)
  }

  /** Lines 308-330: send the update and record its success in the baseline. */
  method SendUpdate(s: UpgradeSession, inv: Inventory, plan: Plan, path: string, baseline: array<Node>, index: nat,
      b: nat)
    returns (r: StepResult)
    requires ObservedFor(s.trace, inv, plan, path, baseline[..], index)
    requires b == Find(baseline[..], plan.nodes[index].uid)
    requires Lookup(inv.nodes, plan.nodes[index].uid).kubelet != plan.targetVersion
    modifies s`trace, baseline
    ensures Handled(r, s.context.ended, s.trace, plan, path, baseline[..], index) && !r.NodeStopped?
    ensures |s.trace| == |old(s.trace)| + 1 && old(s.trace) <= s.trace && s.trace[|old(s.trace)|].UpgradedKubelet?
    ensures s.trace[|old(s.trace)|].node == Refreshed(plan.nodes[index], Lookup(inv.nodes, plan.nodes[index].uid))
    ensures r.NodeDone? ==>
      var call := s.trace[|old(s.trace)|];
      baseline[..] ==
      old(baseline[..])[b := Completion(old(baseline[b]), call.node, call.kubelet, plan.targetVersion)]
    ensures !r.NodeDone? ==> baseline[..] == old(baseline[..])
  {
    ghost var t1, base := s.trace, baseline[..];
    var live := Refreshed(plan.nodes[index], Lookup(inv.nodes, plan.nodes[index].uid));
    var reply := s.UpgradeKubelet(live);
    if !Succeeded(reply) {
      var outcome := if reply.failed then reply.result.outcome else Unconfirmed;
      r := NodeFailed(reply.result.(outcome := outcome, message := "kubelet update failed"));
      UpdateFailed(t1, s.trace, inv, plan, path, base, index, r, s.context.ended);
      return;
    }
    baseline[b] := Completion(baseline[b], live, reply, plan.targetVersion);
    UpdateDone(t1, s.trace, inv, plan, path, base, index, s.context.ended);
    return NodeDone(reply.result);
  }

  /** A node that is already at the target needs no update. */
  lemma SkipNode(t: seq<Call>, inv: Inventory, plan: Plan, path: string, base: seq<Node>, i: nat)
    requires ObservedFor(t, inv, plan, path, base, i) && Distinct(PlanUIDs(plan.nodes))
    requires KubeletDone(Lookup(inv.nodes, plan.nodes[i].uid), plan.targetVersion)
    ensures Rolling(t, plan, path, i + 1) && Stands(t, plan, base, i + 1)
    ensures Backed(SkippedEntry(plan.nodes[i].uid), t, plan, i)
  {
    assert SettledAt(t, inv, plan, path, base, i);
    assert Sees(t, |t| - 1);
    UntouchedFrom(t, plan, i, i);
    DonePrefix(t, t, plan, i, i + 1);
    assert Replay(t, |t|, plan) == Advance(Replay(t, |t| - 1, plan), t[|t| - 1], plan);
    assert Passed(t, |t| - 1, plan);
  }

  /** The observation shows the target version with another image, lines 295-300. */
  lemma WrongImageBlamed(t: seq<Call>, inv: Inventory, plan: Plan, path: string, base: seq<Node>, i: nat)
    requires ObservedFor(t, inv, plan, path, base, i)
    requires WrongImage(Lookup(inv.nodes, plan.nodes[i].uid), plan.targetVersion)
    ensures Blames(t, plan) && DoneBefore(t, plan, i) && !FailedLast(t)
    ensures Started(t, plan, path) && SafeRun(t, plan, path)
  {
    assert SettledAt(t, inv, plan, path, base, i);
    NotSkipped(t, inv, plan, path, base, i);
  }

  lemma StandingDone(t: seq<Call>, plan: Plan, path: string, base: seq<Node>, i: nat)
    requires Rolling(t, plan, path, i) && Stands(t, plan, base, i)
    ensures DoneBefore(t, plan, i) && !FailedLast(t)
  {
    NoneFailed(t, plan, i);
  }

  lemma ObservedSame(t: seq<Call>, inv: Inventory, plan: Plan, path: string, base: seq<Node>, i: nat)
    requires ObservedFor(t, inv, plan, path, base, i)
    ensures SameKubelet(Lookup(inv.nodes, plan.nodes[i].uid), Lookup(base, plan.nodes[i].uid))
  {
    assert SettledAt(t, inv, plan, path, base, i);
    RechecksCannotFire(inv, plan, base, i);
  }

  /** Lines 294-302: a node at the target version is done, or its image is wrong. */
  lemma TargetSeen(t: seq<Call>, inv: Inventory, plan: Plan, path: string, base: seq<Node>, i: nat, ended: bool)
    requires ObservedFor(t, inv, plan, path, base, i) && Distinct(PlanUIDs(plan.nodes))
    requires Lookup(inv.nodes, plan.nodes[i].uid).kubelet == plan.targetVersion
    ensures if WrongImage(Lookup(inv.nodes, plan.nodes[i].uid), plan.targetVersion)
      then Handled(NodeStopped(""), ended, t, plan, path, base, i)
      else Handled(NodeDone(SkippedEntry(plan.nodes[i].uid)), ended, t, plan, path, base, i)
  {
    if WrongImage(Lookup(inv.nodes, plan.nodes[i].uid), plan.targetVersion) {
      WrongImageBlamed(t, inv, plan, path, base, i);
    } else {
      SkipNode(t, inv, plan, path, base, i);
    }
  }

  /** Lines 294-330: what a settled observation calls for. */
  method HandleNode(s: UpgradeSession, inv: Inventory, plan: Plan, path: string, baseline: array<Node>, index: nat,
      b: nat)
    returns (r: StepResult)
    requires ObservedFor(s.trace, inv, plan, path, baseline[..], index) && Distinct(PlanUIDs(plan.nodes))
    requires b == Find(baseline[..], plan.nodes[index].uid) < baseline.Length
    modifies s`trace, baseline
    ensures UpdatesOnly(old(s.trace), s.trace, plan, index)
    ensures Handled(r, s.context.ended, s.trace, plan, path, baseline[..], index)
  {
    var original := plan.nodes[index];
    var live := Lookup(inv.nodes, original.uid);
    if live.kubelet == plan.targetVersion {
      TargetSeen(s.trace, inv, plan, path, baseline[..], index, s.context.ended);
      if live.kubeletImage != live.targetKubeletImage { return NodeStopped(""); }
      return NodeDone(SkippedEntry(original.uid));
    }
    ObservedSame(s.trace, inv, plan, path, baseline[..], index);
    if !SameKubelet(live, baseline[b]) {
      assert false; // Lines 303-307 cannot fire either.
    }
    r := SendUpdate(s, inv, plan, path, baseline, index, b);
  }

  lemma WaitThenUpdate(t1: seq<Call>, t2: seq<Call>, t3: seq<Call>, plan: Plan, i: nat)
    requires OnlyInspections(t1, t2) && UpdatesOnly(t2, t3, plan, i)
    ensures UpdatesOnly(t1, t3, plan, i)
  {
    assert forall k :: |t1| <= k < |t2| ==> t3[k] == t2[k];
  }

  /** The body of the loop over plan.Nodes, lines 270-330. */
  method UpgradeNode(s: UpgradeSession, plan: Plan, path: string, baseline: array<Node>, index: nat)
    returns (r: StepResult)
    requires index < |plan.nodes| && Distinct(PlanUIDs(plan.nodes))
    requires Rolling(s.trace, plan, path, index) && Stands(s.trace, plan, baseline[..], index)
    modifies s`trace, s.context, baseline
    ensures UpdatesOnly(old(s.trace), s.trace, plan, index)
    ensures Handled(r, s.context.ended, s.trace, plan, path, baseline[..], index)
  {
    ghost var t1 := s.trace;
    var done := s.context.Ended();
    if done {
      StandingDone(s.trace, plan, path, baseline[..], index);
      return NodeStopped("");
    }
    var wait, b := ObserveNode(s, plan, path, baseline, index);
    if wait.Stopped? { return NodeStopped("readiness check stopped"); }
    ghost var t2 := s.trace;
    r := HandleNode(s, wait.inventory, plan, path, baseline, index, b);
    WaitThenUpdate(t1, t2, s.trace, plan, index);
  }

  // ---- All nodes, and the whole run ----------------------------------------------------------------

  /** appendNotAttempted; it is always called with from == len(result.Nodes). */
  method AppendNotAttempted(nodes: seq<NodeResult>, plan: Plan) returns (all: seq<NodeResult>)
    requires |nodes| <= |plan.nodes|
    ensures nodes <= all && |all| == |plan.nodes|
    ensures forall j :: |nodes| <= j < |all| ==> all[j] == Unattempted(plan.nodes[j], "")
  {
    all := nodes;
    for j := |nodes| to |plan.nodes|
      invariant |all| == j && nodes <= all
      invariant forall k :: |nodes| <= k < j ==> all[k] == Unattempted(plan.nodes[k], "")
    {
      all := all + [Unattempted(plan.nodes[j], "")];
    }
  }

  lemma StoppedHonest(nodes: seq<NodeResult>, all: seq<NodeResult>, t: seq<Call>, plan: Plan)
    requires CompletedPrefix(nodes, t, plan, |nodes|) && nodes <= all && |all| == |plan.nodes| > |nodes|
    requires DoneBefore(t, plan, |nodes|) && !FailedLast(t) && Distinct(PlanUIDs(plan.nodes))
    requires all[|nodes|] == Unattempted(plan.nodes[|nodes|], all[|nodes|].message)
    requires forall j :: |nodes| < j < |all| ==> all[j] == Unattempted(plan.nodes[j], "")
    ensures HonestNodes(all, t, plan)
  {
    forall j | |nodes| <= j < |plan.nodes| ensures Untouched(t, plan.nodes[j].uid) {
      UntouchedAfter(t, plan, |nodes|, j);
    }
    assert CompletedPrefix(all, t, plan, |nodes|);
  }

  lemma FailedHonest(nodes: seq<NodeResult>, result: NodeResult, all: seq<NodeResult>, t: seq<Call>, plan: Plan)
    requires CompletedPrefix(nodes, t, plan, |nodes|) && nodes + [result] <= all && |all| == |plan.nodes|
    requires FailedEntry(result, t, plan, |nodes|) && DoneBefore(t, plan, |nodes|) && Distinct(PlanUIDs(plan.nodes))
    requires forall j :: |nodes| < j < |all| ==> all[j] == Unattempted(plan.nodes[j], "")
    ensures HonestNodes(all, t, plan)
  {
    forall j | |nodes| < j < |plan.nodes| ensures Untouched(t, plan.nodes[j].uid) {
      UntouchedAfter(t, plan, |nodes|, j);
    }
    assert all[|nodes|] == result;
    assert forall j :: 0 <= j < |nodes| ==> all[j] == nodes[j];
    assert FailedAt(all, t, plan, |nodes|);
  }

  lemma DoneHonest(nodes: seq<NodeResult>, result: NodeResult, t: seq<Call>, plan: Plan)
    requires CompletedPrefix(nodes, t, plan, |nodes|) && |nodes| < |plan.nodes|
    requires Backed(result, t, plan, |nodes|)
    ensures CompletedPrefix(nodes + [result], t, plan, |nodes| + 1)
  {
    forall j | 0 <= j < |nodes| + 1 ensures Backed((nodes + [result])[j], t, plan, j) {
      if j < |nodes| {
        assert (nodes + [result])[j] == nodes[j];
      } else {
        assert j == |nodes|;
      }
    }
  }

  /** Lines 271-307: the remaining nodes, the first of them with the reason. */
  method ReportStopped(nodes: seq<NodeResult>, plan: Plan, message: string, ghost t: seq<Call>)
    returns (reported: seq<NodeResult>)
    requires |nodes| < |plan.nodes| && CompletedPrefix(nodes, t, plan, |nodes|)
    requires DoneBefore(t, plan, |nodes|) && !FailedLast(t) && Distinct(PlanUIDs(plan.nodes))
    ensures HonestNodes(reported, t, plan) && |reported| == |plan.nodes|
  {
    var all := AppendNotAttempted(nodes, plan);
    reported := all[|nodes| := all[|nodes|].(message := message)];
    StoppedHonest(nodes, reported, t, plan);
  }

  /** Lines 312-327: the failed node and the remaining ones. */
  method ReportFailed(nodes: seq<NodeResult>, plan: Plan, entry: NodeResult, ghost t: seq<Call>)
    returns (reported: seq<NodeResult>)
    requires |nodes| < |plan.nodes| && CompletedPrefix(nodes, t, plan, |nodes|)
    requires FailedEntry(entry, t, plan, |nodes|) && DoneBefore(t, plan, |nodes|) && Distinct(PlanUIDs(plan.nodes))
    ensures HonestNodes(reported, t, plan) && |reported| == |plan.nodes|
  {
    reported := AppendNotAttempted(nodes + [entry], plan);
    FailedHonest(nodes, entry, reported, t, plan);
  }

  /** The loop invariant: the first `index` nodes are done and reported, the run is safe, and
      the array holds the baseline. */
  ghost predicate Progress(t: seq<Call>, plan: Plan, path: string, base: seq<Node>, nodes: seq<NodeResult>, index: nat)
  {
    && Rolling(t, plan, path, index) && Stands(t, plan, base, index)
    && |nodes| == index && CompletedPrefix(nodes, t, plan, index)
  }

  /** One iteration with its report. */
  method UpgradeNext(s: UpgradeSession, plan: Plan, path: string, baseline: array<Node>, nodes: seq<NodeResult>)
    returns (reported: seq<NodeResult>, more: bool)
    requires |nodes| < |plan.nodes| && Distinct(PlanUIDs(plan.nodes))
    requires Progress(s.trace, plan, path, baseline[..], nodes, |nodes|)
    modifies s`trace, s.context, baseline
    ensures old(s.trace) <= s.trace && Started(s.trace, plan, path) && SafeRun(s.trace, plan, path)
    ensures more ==> |reported| == |nodes| + 1 && Progress(s.trace, plan, path, baseline[..], reported, |reported|)
    ensures !more ==>
      && HonestNodes(reported, s.trace, plan) && |reported| == |plan.nodes|
      && (s.context.ended || FailedLast(s.trace) || Blames(s.trace, plan))
  {
    ghost var before := s.trace;
    var step := UpgradeNode(s, plan, path, baseline, |nodes|);
    PrefixStays(nodes, nodes, before, s.trace, plan, |nodes|);
    assert HandledAt(step, s.context.ended, s.trace, plan, path, baseline[..], |nodes|);
    match step
    case NodeStopped(message) =>
      reported := ReportStopped(nodes, plan, message, s.trace);
      return reported, false;
    case NodeFailed(entry) =>
      reported := ReportFailed(nodes, plan, entry, s.trace);
      return reported, false;
    case NodeDone(entry) =>
      DoneHonest(nodes, entry, s.trace, plan);
      return nodes + [entry], true;
  }

  /** The loop over plan.Nodes, lines 269-331. */
  method UpgradeKubelets(s: UpgradeSession, plan: Plan, path: string, baseline: array<Node>)
    returns (nodes: seq<NodeResult>, ok: bool)
    requires Distinct(PlanUIDs(plan.nodes))
    requires Rolling(s.trace, plan, path, 0) && Stands(s.trace, plan, baseline[..], 0)
    modifies s`trace, s.context, baseline
    ensures old(s.trace) <= s.trace && Started(s.trace, plan, path) && SafeRun(s.trace, plan, path)
    ensures ok ==> Progress(s.trace, plan, path, baseline[..], nodes, |plan.nodes|)
    ensures !ok ==>
      && HonestNodes(nodes, s.trace, plan) && |nodes| == |plan.nodes|
      && (s.context.ended || FailedLast(s.trace) || Blames(s.trace, plan))
  {
    nodes := [];
    while |nodes| < |plan.nodes|
      invariant |nodes| <= |plan.nodes| && old(s.trace) <= s.trace
      invariant Progress(s.trace, plan, path, baseline[..], nodes, |nodes|)
    {
      var more;
      nodes, more := UpgradeNext(s, plan, path, baseline, nodes);
      if !more { return nodes, false; }
    }
    ok := true;
  }

  // ---- The stages before the kubelets ---------------------------------------------------------------

  lemma ConfirmedPlan(inv: Inventory, plan: Plan)
    requires var p := Assess(inv, plan.targetVersion); p.Some? && SamePlan(plan, p.value)
    ensures Distinct(PlanUIDs(plan.nodes)) && plan.nodes != []
    ensures plan.clusterUID == inv.clusterUID
    ensures plan.skipControlPlane ==> inv.manifestsConverged
  {
    PlanShape(inv, plan.targetVersion);
    assert plan.nodes == PlanOf(inv, plan.targetVersion).nodes;
  }

  method Confirm(s: UpgradeSession, plan: Plan) returns (ok: bool)
    modifies s`trace
    ensures |s.trace| == |old(s.trace)| + 1 && old(s.trace) <= s.trace && s.trace[|old(s.trace)|].Inspected?
    ensures ok ==> Sees(s.trace, |old(s.trace)|) && ConfirmedAt(s.trace, |old(s.trace)|, plan)
    ensures ok ==> Distinct(PlanUIDs(plan.nodes)) && plan.nodes != []
    ensures !ok ==> NotConfirmed(s.trace, |old(s.trace)|, plan)
    ensures ok && plan.skipControlPlane ==> (plan.clusterUID, plan.targetVersion) in s.manifestEvidence
  {
    var reply := s.Inspect(plan.targetVersion);
    if !reply.Observed? { return false; }
    var current := AssessKubernetesUpgrade(reply.inventory, plan.targetVersion);
    if current.None? || !SamePlan(plan, current.value) { return false; }
    ConfirmedPlan(reply.inventory, plan);
    ok := true;
  }

  /** Lines 222-248: confirm, snapshot, confirm again. */
  method Preflight(s: UpgradeSession, plan: Plan, path: string) returns (snapshot: Option<Receipt>, ok: bool)
    requires s.trace == []
    modifies s`trace, s.context
    ensures NoMutation(s.trace)
    ensures |s.trace| <= 3 && snapshot == KeptOf(s.trace, plan, path)
    ensures ok <==> |s.trace| == 3 && Preflighted(s.trace, plan, path) && ConfirmedTwice(s.trace, plan)
    ensures ok ==> Distinct(PlanUIDs(plan.nodes)) && plan.nodes != []
    ensures ok && plan.skipControlPlane ==> (plan.clusterUID, plan.targetVersion) in s.manifestEvidence
    ensures !ok ==> s.context.ended || Excused(s.trace, plan, path)
  {
    snapshot := None;
    ok := Confirm(s, plan);
    if !ok { return; }
    var done := s.context.Ended();
    if done { return None, false; }
    ghost var t1 := s.trace;
    snapshot, ok := s.TakeSnapshot(plan.gateway, path);
    if !ok { return; }
    ghost var t2 := s.trace;
    ok := Confirm(s, plan);
    assert s.trace[0] == t1[0] && s.trace[1] == t2[1];
    if !ok && ConfirmedTwice(s.trace, plan) { assert SeesPlan(s.trace, 2, plan); }
    if ok { ConfirmedBoth(t1, s.trace, plan); }
  }

  lemma ConfirmedBoth(t1: seq<Call>, t2: seq<Call>, plan: Plan)
    requires |t1| == 1 && t1 <= t2 && ConfirmedAt(t1, 0, plan) && ConfirmedAt(t2, 2, plan)
    ensures ConfirmedTwice(t2, plan)
  {
    forall k | k == 0 || k == 2 ensures SeesPlan(t2, k, plan) {
      if k == 0 { assert SeesPlan(t1, 0, plan); }
    }
  }

  /** Lines 249-268: run the control-plane stage unless it is done, verify it, and remember
      the verified stage for later plans of this session. */
  method UpgradeControlPlane(s: UpgradeSession, plan: Plan, path: string) returns (after: Inventory, ok: bool)
    requires |s.trace| == 3 && Preflighted(s.trace, plan, path) && NoMutation(s.trace)
    modifies s`trace, s`manifestEvidence
    ensures old(s.trace) <= s.trace && SafeRun(s.trace, plan, path)
    ensures forall k :: 0 <= k < |s.trace| ==> !s.trace[k].UpgradedKubelet?
    ensures ok <==> Started(s.trace, plan, path)
    ensures ok ==> |s.trace| == StartOf(plan) && after == s.trace[StartOf(plan) - 1].reply.inventory
    ensures !ok ==> Excused(s.trace, plan, path)
    ensures s.manifestEvidence ==
      old(s.manifestEvidence) + if ok && !plan.skipControlPlane then {(plan.clusterUID, plan.targetVersion)} else {}
  {
    ghost var t0 := s.trace;
    after := *;
    if !plan.skipControlPlane {
      ok := s.RunControlPlane(plan);
      if !ok { return; }
    }
    ghost var t1 := s.trace;
    var reply := s.Inspect(plan.targetVersion);
    assert s.trace[0] == t0[0] && s.trace[1] == t0[1] && s.trace[2] == t0[2];
    if !reply.Observed? { return after, false; }
    ok := ControlPlaneReachedTarget(reply.inventory, plan);
    if !ok { return; }
    after := reply.inventory;
    if !plan.skipControlPlane {
      s.manifestEvidence := s.manifestEvidence + {(plan.clusterUID, plan.targetVersion)};
    }
  }

  lemma StartRolling(t: seq<Call>, plan: Plan, path: string)
    requires Started(t, plan, path) && SafeRun(t, plan, path) && |t| == StartOf(plan)
    requires forall k :: 0 <= k < |t| ==> !t[k].UpgradedKubelet?
    ensures Rolling(t, plan, path, 0) && Stands(t, plan, t[StartOf(plan) - 1].reply.inventory.nodes, 0)
  {
  }

  lemma ConfirmationStays(t1: seq<Call>, t2: seq<Call>, plan: Plan)
    requires t1 <= t2 && ConfirmedTwice(t1, plan)
    ensures ConfirmedTwice(t2, plan)
  {
    forall k | k == 0 || k == 2 ensures SeesPlan(t2, k, plan) {
      assert SeesPlan(t1, k, plan);
    }
  }

  /** Lines 332-336: every kubelet must be at the target in one settled observation. */
  method VerifyRollout(s: UpgradeSession, plan: Plan, path: string, baseline: array<Node>, nodes: seq<NodeResult>)
    returns (ok: bool)
    requires Progress(s.trace, plan, path, baseline[..], nodes, |plan.nodes|) && Distinct(PlanUIDs(plan.nodes))
    modifies s`trace, s.context
    ensures old(s.trace) <= s.trace && SafeRun(s.trace, plan, path) && Started(s.trace, plan, path)
    ensures |nodes| == |plan.nodes| && HonestNodes(nodes, s.trace, plan)
    ensures CompletedPrefix(nodes, s.trace, plan, |plan.nodes|)
    ensures !ok ==> s.context.ended || Blames(s.trace, plan)
    ensures ok ==> |s.trace| > StartOf(plan) && FinishedWith(s.trace, plan) && !Blames(s.trace, plan)
    ensures ok ==> var inv := s.trace[|s.trace| - 1].reply.inventory;
      inv.clusterUID == plan.clusterUID &&
      (inv.manifestsConverged <==> (plan.clusterUID, plan.targetVersion) in s.manifestEvidence)
  {
    ghost var t, n := s.trace, |plan.nodes|;
    var final := WaitForUpgradeInventory(s, plan, baseline, |plan.nodes|);
    FinalWait(t, s.trace, plan, path, baseline[..], nodes);
    if final.Stopped? {
      WaitStopped(t, s.trace, plan, path, baseline[..], n);
      return false;
    }
    FinalSettled(t, s.trace, final.inventory, plan, path, baseline[..]);
    ok := AllKubeletsReachedTarget(final.inventory, plan);
  }

  lemma FinalWait(t1: seq<Call>, t2: seq<Call>, plan: Plan, path: string, base: seq<Node>, nodes: seq<NodeResult>)
    requires Progress(t1, plan, path, base, nodes, |plan.nodes|) && Distinct(PlanUIDs(plan.nodes))
    requires OnlyInspections(t1, t2) && Waited(|t1|, t2, plan, base, |plan.nodes|, |t2| - 1)
    ensures SafeRun(t2, plan, path) && Started(t2, plan, path)
    ensures HonestNodes(nodes, t2, plan) && CompletedPrefix(nodes, t2, plan, |plan.nodes|)
  {
    WaitingSafe(t1, t2, plan, path, base, |plan.nodes|);
    PrefixStays(nodes, nodes, t1, t2, plan, |plan.nodes|);
    AllDone(t1, t2, plan, base, nodes);
  }

  lemma FinalSettled(t1: seq<Call>, t2: seq<Call>, inv: Inventory, plan: Plan, path: string, base: seq<Node>)
    requires Rolling(t1, plan, path, |plan.nodes|) && Stands(t1, plan, base, |plan.nodes|) && OnlyInspections(t1, t2)
    requires Waited(|t1|, t2, plan, base, |plan.nodes|, |t2| - 1) && |t2| > |t1|
    requires t2[|t2| - 1] == Inspected(Observed(inv)) && SettledInventory(inv, plan, base, |plan.nodes|)
    ensures |t2| > StartOf(plan) && inv.clusterUID == plan.clusterUID
    ensures FinishedWith(t2, plan) <==> AllKubeletsReached(inv, plan)
    ensures Blames(t2, plan) <==> !AllKubeletsReached(inv, plan)
  {
    ReplayWaiting(t1, t2, plan, base, |plan.nodes|, |t2| - 1);
    FinalBlamed(t2, inv, plan, base);
    SettledReady(inv, plan, base, |plan.nodes|);
  }

  lemma FinalBlamed(t: seq<Call>, inv: Inventory, plan: Plan, base: seq<Node>)
    requires |t| > StartOf(plan) && t[|t| - 1] == Inspected(Observed(inv))
    requires Replay(t, |t| - 1, plan) == Rollout(|plan.nodes|, base) && SettledInventory(inv, plan, base, |plan.nodes|)
    ensures Blames(t, plan) <==> !AllKubeletsReached(inv, plan)
  {
  }

  /** The final wait leaves all nodes done. */
  lemma AllDone(t1: seq<Call>, t2: seq<Call>, plan: Plan, base: seq<Node>, nodes: seq<NodeResult>)
    requires Stands(t1, plan, base, |plan.nodes|) && OnlyInspections(t1, t2)
    requires Waited(|t1|, t2, plan, base, |plan.nodes|, |t2| - 1) && EarlierCallsDone(t2, |t2|, plan, |plan.nodes|)
    requires CompletedPrefix(nodes, t2, plan, |plan.nodes|) && |nodes| == |plan.nodes|
    ensures HonestNodes(nodes, t2, plan)
  {
    NoneFailed(t2, plan, |plan.nodes|);
    if t2 == t1 {
    } else {
      ReplayWaiting(t1, t2, plan, base, |plan.nodes|, |t2| - 1);
      assert Replay(t2, |t2|, plan) == Advance(Replay(t2, |t2| - 1, plan), t2[|t2| - 1], plan);
    }
  }

  /** Lines 269-338. */
  method RollOut(s: UpgradeSession, plan: Plan, path: string, after: Inventory, snapshot: Option<Receipt>)
    returns (result: UpgradeResult, ok: bool)
    requires Distinct(PlanUIDs(plan.nodes)) && plan.nodes != []
    requires Rolling(s.trace, plan, path, 0) && Stands(s.trace, plan, after.nodes, 0)
    modifies s`trace, s.context
    ensures old(s.trace) <= s.trace && SafeRun(s.trace, plan, path)
    ensures Started(s.trace, plan, path) && HonestStages(result, ok, s.trace, plan, path) && result.snapshot == snapshot
    ensures !ok ==> s.context.ended || FailedLast(s.trace) || Blames(s.trace, plan)
    ensures ok ==> |s.trace| > StartOf(plan) && !Blames(s.trace, plan)
    ensures ok ==> var inv := s.trace[|s.trace| - 1].reply.inventory;
      inv.clusterUID == plan.clusterUID &&
      (inv.manifestsConverged <==> (plan.clusterUID, plan.targetVersion) in s.manifestEvidence)
  {
    var baseline := new Node[|after.nodes|](i requires 0 <= i < |after.nodes| => after.nodes[i]);
    assert baseline[..] == after.nodes;
    var nodes, done := UpgradeKubelets(s, plan, path, baseline);
    if !done { return UpgradeResult(Unconfirmed, nodes, snapshot), false; }
    ok := VerifyRollout(s, plan, path, baseline, nodes);
    result := UpgradeResult(if ok then Completed else Unconfirmed, nodes, snapshot);
  }

  /** Lines 249-338: everything after the second confirmation. */
  method RunConfirmed(s: UpgradeSession, plan: Plan, path: string, snapshot: Option<Receipt>)
    returns (result: UpgradeResult, ok: bool)
    requires |s.trace| == 3 && Preflighted(s.trace, plan, path) && NoMutation(s.trace)
    requires Distinct(PlanUIDs(plan.nodes)) && plan.nodes != []
    requires plan.skipControlPlane ==> (plan.clusterUID, plan.targetVersion) in s.manifestEvidence
    modifies s, s.context
    ensures old(s.trace) <= s.trace && SafeRun(s.trace, plan, path)
    ensures HonestStages(result, ok, s.trace, plan, path) && result.snapshot == snapshot
    ensures !ok ==> s.context.ended || Excused(s.trace, plan, path)
    ensures ok ==> !Excused(s.trace, plan, path)
    ensures ok ==> s.trace[|s.trace| - 1].reply.inventory.manifestsConverged
    ensures s.manifestEvidence == old(s.manifestEvidence) +
      if Started(s.trace, plan, path) && !plan.skipControlPlane then {(plan.clusterUID, plan.targetVersion)} else {}
  {
    var after, reached := UpgradeControlPlane(s, plan, path);
    if !reached { return UpgradeResult(Unconfirmed, [], snapshot), false; }
    StartRolling(s.trace, plan, path);
    ghost var t := s.trace;
    result, ok := RollOut(s, plan, path, after, snapshot);
    StartStays(t, s.trace, plan, path);
  }

  /** runKubernetesUpgrade. */
  method RunKubernetesUpgrade(s: UpgradeSession, plan: Plan, path: string) returns (result: UpgradeResult, ok: bool)
    modifies s, s.context
    ensures SafeRun(s.trace, plan, path)
    ensures HonestResult(result, ok, s.trace, plan, path)
    ensures ok ==> s.trace[|s.trace| - 1].reply.inventory.manifestsConverged
    ensures !ok ==> s.context.ended || Excused(s.trace, plan, path)
    ensures ok ==> !Excused(s.trace, plan, path)
    ensures s.manifestEvidence == old(s.manifestEvidence) +
      if Started(s.trace, plan, path) && !plan.skipControlPlane then {(plan.clusterUID, plan.targetVersion)} else {}
  {
    s.trace := [];
    var snapshot, ready := Preflight(s, plan, path);
    if !ready { return UpgradeResult(NotAttempted, [], snapshot), false; }
    ghost var t0 := s.trace;
    result, ok := RunConfirmed(s, plan, path, snapshot);
    ConfirmationStays(t0, s.trace, plan);
    assert s.trace[0] == t0[0] && s.trace[1] == t0[1] && s.trace[2] == t0[2];
  }
}
