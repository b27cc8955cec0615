/** Coming back to a cluster: what the next plan sees after a completed rollout, and how the
    manifest evidence of a session is found again (or not). */
module UpgradeRecovery {
  import opened Roles
  import opened Sequences
  import opened Versions
  import opened UpgradeTypes
  import opened UpgradeAssessment
  import opened UpgradePlanning
  import opened UpgradeReadiness
  import opened UpgradeRollout

  // ---- After a completed rollout --------------------------------------------------------

  /** The parts of an observation that the rollout's own checks do not look at. */
  ghost predicate UncheckedPartsComplete(inv: Inventory) {
    && inv.gateway != "" && inv.cli.version == SUPPORTED_CLI && inv.cli.path != "" && inv.cli.sha256 != ""
    && inv.targetProxyImage != ""
    && (forall n :: n in inv.nodes ==> n.configFingerprint != "")
    && (forall p :: p in inv.proxies ==> p.name != "")
  }

  /** A plan made from an accepted inventory, and an observation that ended its rollout. */
  ghost predicate Finished(start: Inventory, plan: Plan, end: Inventory) {
    && Assessable(start, plan.targetVersion) && SamePlan(plan, PlanOf(start, plan.targetVersion))
    && ReadyForNode(end, plan, |plan.nodes|) && AllKubeletsReached(end, plan)
  }

  /** Every observed node is a planned one with its planned identity, at the target. */
  lemma FinishedNode(start: Inventory, plan: Plan, end: Inventory, i: nat) returns (p: NodePlan)
    requires Finished(start, plan, end) && i < |end.nodes|
    ensures p in plan.nodes && p.uid == end.nodes[i].uid && IdentityKept(p, end.nodes[i])
    ensures end.nodes[i].kubelet == plan.targetVersion && end.nodes[i].targetKubeletImage == p.targetKubeletImage
  {
    PlanShape(start, plan.targetVersion);
    ReachedNodesBijective(end, plan);
    var n, planned := end.nodes[i], PlanUIDs(plan.nodes);
    PermutationMembers(planned, UIDs(end.nodes));
    assert UIDs(end.nodes)[i] in planned;
    var k :| 0 <= k < |planned| && planned[k] == n.uid;
    p := plan.nodes[k];
    assert p in plan.nodes;
    assert Find(end.nodes, p.uid) == i;
    assert KubeletAtTarget(end.nodes, p, plan.targetVersion);
    assert KubeletDone(Lookup(end.nodes, p.uid), plan.targetVersion);
  }

  /** A planned node comes from an accepted one. */
  lemma PlannedFields(start: Inventory, plan: Plan, p: NodePlan)
    requires Assessable(start, plan.targetVersion) && SamePlan(plan, PlanOf(start, plan.targetVersion)) &&
      p in plan.nodes
    ensures p.name != "" && p.uid != "" && p.talosID != "" && p.talosAddress != "" && p.role != UnknownRole
    ensures p.talosVersion != "" && p.targetKubeletImage != ""
  {
    var to := ParseStable(plan.targetVersion).value;
    PlansListed(start, to);
    assert p in PlanNodes(start, to);
    var n :| n in start.nodes && p == PlanNode(start.clusterUID, to, n);
    assert NodeAccepted(n);
  }

  /** A plan that a run confirms meets the hypotheses of ReachedProxiesBijective. */
  lemma ConfirmedPlanProxies(start: Inventory, plan: Plan, inv: Inventory)
    requires Assessable(start, plan.targetVersion) && SamePlan(plan, PlanOf(start, plan.targetVersion))
    requires ControlPlaneReached(inv, plan) && plan.proxyEnabled
    ensures Permutation(Owners(inv.proxies), PlanUIDs(plan.nodes)) <==> forall p :: p in inv.proxies ==> p.name != ""
  {
    PlanShape(start, plan.targetVersion);
    forall p | p in plan.nodes ensures p.name != "" { PlannedFields(start, plan, p); }
    ReachedProxiesBijective(inv, plan);
  }

  lemma FinishedAccepted(start: Inventory, plan: Plan, end: Inventory)
    requires Finished(start, plan, end) && UncheckedPartsComplete(end)
    ensures forall n :: n in end.nodes ==> NodeAccepted(n) && ControlAccepted(n, end.proxyEnabled)
  {
    forall n | n in end.nodes ensures NodeAccepted(n) && ControlAccepted(n, end.proxyEnabled) {
      var i :| 0 <= i < |end.nodes| && end.nodes[i] == n;
      var p := FinishedNode(start, plan, end, i);
      PlannedFields(start, plan, p);
      assert ComponentsAtTarget(n, plan);
    }
  }

  lemma FinishedDistinct(start: Inventory, plan: Plan, end: Inventory)
    requires Finished(start, plan, end)
    ensures DistinctNodes(end.nodes) && end.nodes != []
  {
    PlanShape(start, plan.targetVersion);
    ReachedNodesBijective(end, plan);
    DistinctByName(plan.nodes);
    PermutationMembers(PlanUIDs(plan.nodes), UIDs(start.nodes));
    var names, uids := Names(end.nodes), UIDs(end.nodes);
    forall i, j | 0 <= i < j < |names| ensures names[i] != names[j] {
      var p := FinishedNode(start, plan, end, i);
      var q := FinishedNode(start, plan, end, j);
      assert uids[i] != uids[j];
    }
  }

  lemma {:induction false} PlannedNameEntry(plans: seq<NodePlan>, uid: string)
    requires PlannedName(plans, uid) != ""
    ensures exists p :: p in plans && p.uid == uid && p.name == PlannedName(plans, uid)
  {
    var last := |plans| - 1;
    if plans[last].uid != uid {
      PlannedNameEntry(plans[..last], uid);
      var p :| p in plans[..last] && p.uid == uid && p.name == PlannedName(plans[..last], uid);
      assert p in plans;
    } else {
      assert plans[last] in plans;
    }
  }

  lemma FinishedProxies(start: Inventory, plan: Plan, end: Inventory)
    requires Finished(start, plan, end) && UncheckedPartsComplete(end)
    ensures ProxiesAccepted(end)
  {
    if end.proxyEnabled {
      forall x | x in end.proxies ensures ProxyAccepted(x, end.nodes) {
        assert ProxyAtTarget(x, plan);
        PlannedNameEntry(plan.nodes, x.nodeUID);
        var p :| p in plan.nodes && p.uid == x.nodeUID && p.name == x.name;
        PlannedFields(start, plan, p);
        assert KubeletAtTarget(end.nodes, p, plan.targetVersion);
        assert Lookup(end.nodes, p.uid) in end.nodes;
      }
    }
  }

  lemma TargetPrinted(start: Inventory, plan: Plan)
    requires Assessable(start, plan.targetVersion) && SamePlan(plan, PlanOf(start, plan.targetVersion))
    ensures plan.targetVersion == Print(ParseStable(plan.targetVersion).value)
  {
  }

  lemma FinishedVersions(start: Inventory, plan: Plan, end: Inventory)
    requires Finished(start, plan, end)
    ensures VersionsAccepted(end, ParseStable(plan.targetVersion).value)
  {
    var to := ParseStable(plan.targetVersion).value;
    TargetPrinted(start, plan);
    ControlMembers(end);
    var vs := ControlVersions(end);
    forall v | v in vs ensures v == to {
      if n :| n in end.nodes && RunsComponent(n, v) {
        assert ComponentsAtTarget(n, plan);
      } else {
        var p :| p in end.proxies && v == Parsed(p.version);
        assert ProxyAtTarget(p, plan);
      }
    }
    FinishedRuns(start, plan, end);
    MinVersionLeast(vs);
    forall n | n in end.nodes ensures Parsed(n.kubelet) == to {
      var i :| 0 <= i < |end.nodes| && end.nodes[i] == n;
      var p := FinishedNode(start, plan, end, i);
    }
  }

  /** A control-plane node at the start is still observed, as one, at the end. */
  lemma ControlNodeRemains(start: Inventory, plan: Plan, end: Inventory, n: Node) returns (m: Node)
    requires Finished(start, plan, end) && n in start.nodes && n.role.ControlRole?
    ensures m in end.nodes && m.role.ControlRole?
  {
    var to := ParseStable(plan.targetVersion).value;
    PlansListed(start, to);
    var p := PlanNode(start.clusterUID, to, n);
    assert p in plan.nodes;
    assert KubeletAtTarget(end.nodes, p, plan.targetVersion);
    var k :| 0 <= k < |plan.nodes| && plan.nodes[k] == p;
    m := Lookup(end.nodes, p.uid);
    assert IdentityKept(plan.nodes[k], m);
  }

  lemma RunningListed(inv: Inventory, v: Version)
    requires Running(inv, v)
    ensures ControlVersions(inv) != []
  {
    ControlMembers(inv);
    assert v in ControlVersions(inv);
  }

  lemma FinishedRuns(start: Inventory, plan: Plan, end: Inventory)
    requires Finished(start, plan, end)
    ensures ControlVersions(end) != []
  {
    if end.proxyEnabled {
      FinishedDistinct(start, plan, end);
      assert end.proxies[0] in end.proxies;
      RunningListed(end, Parsed(end.proxies[0].version));
    } else {
      ControlMembers(start);
      assert Running(start, ControlVersions(start)[0]);
      var n :| n in start.nodes && n.role.ControlRole?;
      var m := ControlNodeRemains(start, plan, end, n);
      assert RunsComponent(m, Parsed(m.apiServer));
      RunningListed(end, Parsed(m.apiServer));
    }
  }

  /** The inventory a completed rollout ends in is accepted for the same target exactly when
      the parts no rollout check looks at are complete. */
  lemma FinishedAssessable(start: Inventory, plan: Plan, end: Inventory)
    requires Finished(start, plan, end)
    ensures Assessable(end, plan.targetVersion) <==> UncheckedPartsComplete(end)
  {
    if UncheckedPartsComplete(end) {
      FinishedAccepted(start, plan, end);
      FinishedDistinct(start, plan, end);
      FinishedProxies(start, plan, end);
      FinishedVersions(start, plan, end);
    } else {
      if n :| n in end.nodes && n.configFingerprint == "" {
        assert !NodeAccepted(n);
      } else if p :| p in end.proxies && p.name == "" {
        assert !ProxyAccepted(p, end.nodes);
      }
    }
  }

  lemma FinishedNodesSkipped(start: Inventory, plan: Plan, end: Inventory)
    requires Finished(start, plan, end)
    ensures forall p :: p in PlanNodes(end, ParseStable(plan.targetVersion).value) ==> p.skip
  {
    TargetPrinted(start, plan);
    var to := ParseStable(plan.targetVersion).value;
    PlansListed(end, to);
    forall p | p in PlanNodes(end, to) ensures p.skip {
      var n :| n in end.nodes && p == PlanNode(end.clusterUID, to, n);
      var i :| 0 <= i < |end.nodes| && end.nodes[i] == n;
      var q := FinishedNode(start, plan, end, i);
    }
  }

  /** Whether a later plan compares the kube-proxy image of the control plane with the right one. */
  predicate SameProxyImage(plan: Plan, end: Inventory) {
    end.targetProxyImage == plan.targetProxyImage || forall n :: n in end.nodes ==> !n.role.ControlRole?
  }

  /** Then every node is skipped, and the control plane is skipped too exactly when this session
      holds the manifest evidence and the target proxy image is still the planned one (or there is
      no control-plane node left to compare it with). */
  lemma FinishedIsSkipped(start: Inventory, plan: Plan, end: Inventory)
    requires Finished(start, plan, end) && UncheckedPartsComplete(end)
    ensures Assessable(end, plan.targetVersion)
    ensures forall p :: p in PlanOf(end, plan.targetVersion).nodes ==> p.skip
    ensures PlanOf(end, plan.targetVersion).skipControlPlane <==> end.manifestsConverged && SameProxyImage(plan, end)
  {
    FinishedAssessable(start, plan, end);
    FinishedNodesSkipped(start, plan, end);
    TargetPrinted(start, plan);
    FinishedDistinct(start, plan, end);
    ReachedAtTarget(plan, end, ParseStable(plan.targetVersion).value);
  }

  lemma ReachedAtTarget(plan: Plan, end: Inventory, to: Version)
    requires ControlPlaneReached(end, plan) && plan.nodes != []
    requires plan.targetVersion == Print(to) && to.major == 1
    ensures ControlPlaneAtTarget(end, to) <==> SameProxyImage(plan, end)
  {
    forall n | n in end.nodes && n.role.ControlRole? ensures ComponentsAtTarget(n, plan) {}
    forall p | p in end.proxies && end.proxyEnabled ensures ProxyAtTarget(p, plan) {}
  }

  // ---- Manifest evidence ------------------------------------------------------------------

  type Evidence = set<(string, VersionText)>

  /** applyKubernetesUpgradeManifestEvidence on an adapter observation, which never reports
      converged manifests itself. */
  function WithEvidence(inv: Inventory, target: VersionText, evidence: Evidence): Inventory {
    inv.(manifestsConverged := (inv.clusterUID, target) in evidence)
  }

  /** Stages are remembered under the printed target only. */
  ghost predicate StoredPrinted(evidence: Evidence) {
    forall e :: e in evidence && ParseStable(e.1).Some? ==> e.1 == Print(ParseStable(e.1).value)
  }

  /** A run stores evidence under the plan's own target, which is printed, so every session keeps
      this. The last hypothesis is the evidence clause of RunKubernetesUpgrade. */
  lemma RunKeepsStoredPrinted(
    before: Evidence, after: Evidence, result: UpgradeResult, ok: bool, t: seq<Call>, plan: Plan, path: string)
    requires StoredPrinted(before) && HonestResult(result, ok, t, plan, path)
    requires after ==
      before + if Started(t, plan, path) && !plan.skipControlPlane then {(plan.clusterUID, plan.targetVersion)} else {}
    ensures StoredPrinted(after)
  {
    if Started(t, plan, path) && !plan.skipControlPlane {
      assert t[3].RanControlPlane?;
      assert ConfirmedTwice(t, plan);
      assert SeesPlan(t, 0, plan);
      TargetPrinted(t[0].reply.inventory, plan);
    }
  }

  /** What PrepareKubernetesUpgrade plans for the target as the operator spelled it. */
  ghost function Prepared(inv: Inventory, target: VersionText, evidence: Evidence): Option<Plan> {
    Assess(WithEvidence(inv, target, evidence), target)
  }

  /** What the run's first confirmation computes from the same observation. */
  ghost function Reconfirmed(inv: Inventory, target: VersionText, evidence: Evidence): Option<Plan>
    requires ParseStable(target).Some?
  {
    var printed := Print(ParseStable(target).value);
    Assess(WithEvidence(inv, printed, evidence), printed)
  }

  lemma SpellingIrrelevant(a: Inventory, b: Inventory, target: VersionText)
    requires ParseStable(target).Some? && b == a.(manifestsConverged := b.manifestsConverged)
    ensures Assessable(a, target) <==> Assessable(b, Print(ParseStable(target).value))
    ensures Assessable(a, target) ==>
      PlanOf(b, Print(ParseStable(target).value)) == PlanOf(a, target).(skipControlPlane :=
        ControlPlaneAtTarget(a, ParseStable(target).value) && b.manifestsConverged)
  {
    assert ControlVersions(a) == ControlVersions(b);
  }

  /** Preparing under an unprinted spelling forgets the session's evidence: the prepared plan
      is the one the run confirms exactly when the spelling is the printed one, or no stage is
      remembered for this target, or the control plane is not at the target anyway. */
  lemma PreparedIsReconfirmed(inv: Inventory, target: VersionText, evidence: Evidence)
    requires StoredPrinted(evidence) && ParseStable(target).Some? && Prepared(inv, target, evidence).Some?
    ensures var to := ParseStable(target).value;
      Reconfirmed(inv, target, evidence) == Prepared(inv, target, evidence) <==>
        target == Print(to) || (inv.clusterUID, Print(to)) !in evidence || !ControlPlaneAtTarget(inv, to)
  {
    var to := ParseStable(target).value;
    var a, b := WithEvidence(inv, target, evidence), WithEvidence(inv, Print(to), evidence);
    SpellingIrrelevant(a, b, target);
    assert ControlPlaneAtTarget(a, to) <==> ControlPlaneAtTarget(inv, to);
    if target != Print(to) {
      assert (inv.clusterUID, target) !in evidence;
    }
  }

  /** One control-plane node whose components run 1.31.0 while its kubelet still runs 1.30.0. */
  function HalfUpgraded(): Inventory {
    var from, to, cli :=
      Print(Version(1, 30, 0)), Print(Version(1, 31, 0)), CliIdentity("/bin/talosctl", SUPPORTED_CLI, "sum");
    var node :=
      Node("cp", "u", "t", "a", ControlRole, "v1", false, true, "img", to, to, to, from, "old", "new", "f", true,
        false);
    Inventory("c", "tc", "g", cli, [node], false, true, "img", true, [], [], false, true)
  }

  /** So a session that verified the control-plane stage for 1.31.0 cannot continue under the
      spelling "v1.31.0": the plan it prepares is never the one its run confirms. */
  lemma EvidenceForgotten()
    ensures exists target, evidence ::
      && StoredPrinted(evidence) && ParseStable(target) == Some(Version(1, 31, 0))
      && (HalfUpgraded().clusterUID, Print(Version(1, 31, 0))) in evidence
      && Prepared(HalfUpgraded(), target, evidence).Some?
      && Reconfirmed(HalfUpgraded(), target, evidence) != Prepared(HalfUpgraded(), target, evidence)
  {
    var inv, target := HalfUpgraded(), Spelled("v", Version(1, 31, 0));
    var evidence: Evidence := {("c", Print(Version(1, 31, 0)))};
    HalfUpgradedAccepted(WithEvidence(inv, target, evidence), target);
    assert ControlPlaneAtTarget(inv, Version(1, 31, 0));
    PreparedIsReconfirmed(inv, target, evidence);
  }

  lemma HalfUpgradedAccepted(inv: Inventory, target: VersionText)
    requires inv == HalfUpgraded().(manifestsConverged := inv.manifestsConverged) &&
      ParseStable(target) == Some(Version(1, 31, 0))
    ensures Assessable(inv, target)
  {
    HalfUpgradedVersions(inv);
  }

  lemma HalfUpgradedVersions(inv: Inventory)
    requires inv == HalfUpgraded().(manifestsConverged := inv.manifestsConverged)
    ensures VersionsAccepted(inv, Version(1, 31, 0))
  {
    var to := Version(1, 31, 0);
    assert inv.nodes[..0] == [];
    assert ControlVersions(inv) == [] + [to, to, to] + [];
    SameVersionLeast(ControlVersions(inv), to);
  }
}
