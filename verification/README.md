# t9s mutation core in Dafny

t9s lets an operator change a Talos cluster from a terminal. Every change follows one protocol: a plan is
prepared from an observation, confirmed, admitted once, checked against fresh observations, carried out step by
step, and reported as it really went. This project models that protocol and proves what it is for.

The cluster, the adapters and the moment of cancellation are adversaries: every observation, every reply and every
end of a context is arbitrary. Sessions and backends record the calls they make in a `trace` (or `received` and
`written` for byte streams), so the contracts speak about whole runs, and most executions carry three statements:
nothing is sent unless what must precede it is in the trace; the result says exactly what the trace says; and a
run that stops has a cause in its last step, so a run without bad answers goes through. Where a contract goes through a
definition of this project, a lemma beside it says over the fields alone what that definition means (the sections
"Over the fields" and "Over the bytes", `PlanMeaning` and `ReadinessMeaning`).

| Group | Files |
| --- | --- |
| Kubernetes upgrade | `Versions`, `UpgradeTypes`, `UpgradeAssessment`, `UpgradePlanning`, `PlanMeaning`, `UpgradeReadiness`, `UpgradeRollout`, `ReadinessMeaning`, `UpgradeRuns`, `UpgradeRecovery` |
| Admission and leases | `Admission` (interleaved steps of all callers), `MutationLease` (the objects), `UpgradeOperation` (leases that outlive a call) |
| Etcd | `EtcdQuorum`, `EtcdMembership`, `EtcdActions`, `EtcdExecution` |
| Nodes, disks, configuration | `NodeTargets`, `DiskScope`, `DestructiveDisks`, `NodeActions`, `ConfigurationApply` |
| Byte streams | `Lines`, `LogDecoder`, `SnapshotStream`, `UpgradeOutput` |
| Shared | `Sequences`, `Text`, `Roles`, `Operations` (outcomes, ending contexts, the safety snapshot) |

`dafny verify dfyconfig.toml` checks the whole project.

## Where the code and its intent part

- `docs/src/content/docs/security.md` says that removing a learner is never blocked for quorum. The gate counts the
  voters all the same; `EtcdMembership.LearnerGate` says exactly when a learner's change passes, and
  `EtcdMembership.LearnerBlocked` is a learner whose leave is refused because one healthy voter of two would be left.
- Manifest evidence is stored under the printed target version but looked up under the operator's spelling when the
  next upgrade is prepared. `UpgradeRecovery.PreparedIsReconfirmed` says exactly when the prepared plan survives its
  first confirmation, and `UpgradeRecovery.EvidenceForgotten` is a plan that cannot.
- A kube-proxy pod without a name on an unplanned node passes the readiness check: the lookup of a UID that is not
  planned answers "". `UpgradeReadiness.ReachedProxiesBijective` says that the accepted pods are one per planned node
  exactly when every pod has a name, and `UpgradeReadiness.NamelessProxyAccepted` is an inventory where they are not.
  The adapter of this repository never produces one, because it names every pod after a listed node
  (`internal/adapters/talos/kubernetes_upgrade_inventory.go:278-286`); the readiness check does not rely on that.
- A reset names user disks by device name only. `DiskScope.SystemDiskNamedIff` says exactly when that name is the
  system disk's too, and `DiskScope.SharedNameReachesSystemDisk` is an inventory where it is.
- Some checks can never fire and are proved dead: lines 282-293, 303-307 and 430 of
  `internal/application/kubernetes_upgrade.go`, lines 159-162 and 370-380 of
  `internal/application/etcd_actions.go`, and lines 83-85 of `internal/application/upgrade_operation.go`, where
  the missing snapshot capability has already blocked the facts.

## Model

| member | source | states |
|---|---|---|
| UpgradeAssessment.AssessKubernetesUpgrade | internal/domain/kubernetes_upgrade.go:139-301 | the walk over the inventory accepts exactly the inventories that the order-free definition accepts, and returns exactly the plan defined for them |
| UpgradeAssessment.CollectNodes | internal/domain/kubernetes_upgrade.go:161-203 | node plans come out iff every node is complete and no UID or name repeats, one per node |
| UpgradeAssessment.CollectComponents | internal/domain/kubernetes_upgrade.go:204-222 | control-plane versions are collected iff every control-plane node reports a consistent proxy setting and readable versions |
| UpgradeAssessment.CollectProxies | internal/domain/kubernetes_upgrade.go:223-254 | pod versions are collected iff the pods cover the nodes one to one by UID and name |
| UpgradeAssessment.RunningMinimum | internal/domain/kubernetes_upgrade.go:258-264 | the running minimum is a least version of the collected ones |
| UpgradeAssessment.CoherentKubeletSource | internal/domain/kubernetes_upgrade.go:303-319 | succeeds iff all kubelets that are not at the target run one version, and then every kubelet runs that version or the target |
| UpgradeAssessment.CheckKubelets | internal/domain/kubernetes_upgrade.go:280-299 | accepts exactly the plans whose kubelets are within the supported window of the source and the target |
| UpgradeAssessment.PlannedKubelets | internal/domain/kubernetes_upgrade.go:189-202 | checking the versions in the sorted plans is checking those of the observed nodes |
| UpgradePlanning.PlanShape | internal/domain/kubernetes_upgrade.go:161-203 | an accepted inventory gets one plan entry per node, with distinct UIDs and names, control plane first and then by name |
| UpgradePlanning.OrderIndependent | internal/domain/kubernetes_upgrade.go:139-301 | the order in which nodes and pods are listed changes neither acceptance nor the plan |
| UpgradePlanning.Resumable | internal/domain/kubernetes_upgrade.go:258-319 | after any part of an accepted rollout the cluster is accepted again for the same target, with the same node order |
| UpgradePlanning.SameNodeOrder | internal/domain/kubernetes_upgrade.go:194-203 | the order of the plan depends on roles, names and UIDs only |
| PlanMeaning.NodesMean | internal/domain/kubernetes_upgrade.go:168-222 | which nodes pass: named, identified, ready, of known role, with readable versions, image and fingerprint, no UID or name twice; control-plane nodes with the proxy setting of the cluster and readable components |
| PlanMeaning.ProxiesMean | internal/domain/kubernetes_upgrade.go:223-254 | which pods pass: none without kube-proxy; otherwise as many as nodes, each with a readable version and the UID and name of one node, no node twice |
| PlanMeaning.AcceptedMeans | internal/domain/kubernetes_upgrade.go:139-301 | an upgrade is planned iff identities, health and images are complete, nodes and pods pass, and from the oldest running version the target is a patch or one minor step, nothing else runs in the control plane, and no kubelet is newer, of another version or more than three minor versions behind |
| PlanMeaning.PlanHeader | internal/domain/kubernetes_upgrade.go:153-161 | the plan has cluster, gateway, command, manifests, proxy setting and image of the observation, the oldest running version as its source and the target; it skips the control plane iff the manifests converged and every component, pod and image is at the target |
| PlanMeaning.PlanProxies | internal/domain/kubernetes_upgrade.go:157-161 | its pods are the observed ones, strictly ordered by the UIDs of their nodes |
| PlanMeaning.PlanSequence | internal/domain/kubernetes_upgrade.go:198-203 | of two entries the earlier one is of a control-plane node if the later one is, and of two with the same role it has the smaller name |
| PlanMeaning.PlanEntry | internal/domain/kubernetes_upgrade.go:190-196 | every observed node has exactly one entry by its UID; name, Talos ID, address, role, versions, both images, fingerprint and cordon state of the entry are those of the node, and it is skipped iff its kubelet is at the target |
| UpgradeReadiness.FindUpgradeNode | internal/application/kubernetes_upgrade.go:460-467 | finds the first node with the UID |
| UpgradeReadiness.PlannedNames | internal/application/kubernetes_upgrade.go:416-419 | the lookup table answers with the planned name of a UID and with "" for any other |
| UpgradeReadiness.CheckProxies | internal/application/kubernetes_upgrade.go:409-435 | accepts iff there is one pod per planned node, at the target, with distinct owners and planned names; the count check at line 430 is dead |
| UpgradeReadiness.ControlPlaneReachedTarget | internal/application/kubernetes_upgrade.go:397-442 | true iff cluster, proxies, control-plane components, readiness and every planned node are as the plan wants them |
| UpgradeReadiness.AllKubeletsReachedTarget | internal/application/kubernetes_upgrade.go:444-458 | true iff the control plane is reached and every planned kubelet runs the target version and image with its cordon state |
| UpgradeReadiness.ReachedNodesBijective | internal/application/kubernetes_upgrade.go:397-442 | acceptance means that the observed UIDs are a permutation of the planned ones |
| UpgradeReadiness.ReachedProxiesBijective | internal/application/kubernetes_upgrade.go:409-435 | with kube-proxy enabled the owners of the accepted pods are a permutation of the planned UIDs iff every pod carries a node name |
| UpgradeReadiness.NamedPodsOnePerNode | internal/application/kubernetes_upgrade.go:409-435 | and then every planned node owns exactly one pod, at the target version |
| UpgradeReadiness.NamelessProxyAccepted | internal/application/kubernetes_upgrade.go:420-424 | for the plan of an accepted inventory, an inventory with a nameless pod on an unplanned node passes the check although its pods do not cover the plan |
| UpgradeRecovery.ConfirmedPlanProxies | internal/application/kubernetes_upgrade.go:409-435 | for every plan that a run confirms, the accepted pods are one per planned node iff all of them are named |
| UpgradeRollout.RunKubernetesUpgrade | internal/application/kubernetes_upgrade.go:206-339 | every run is safe (each update only after a verified snapshot between two confirmations, a verified control plane, and an observation right before it that agrees with the baseline the trace has left: earlier nodes done with the replied configuration, this one and later ones as first seen; and no observed change is passed over); the outcome, the receipt and every node entry are those the trace justifies, completed for exactly the nodes it has done and not attempted only where no update was sent; evidence is stored exactly for a verified stage; it stops only when cancelled or when its last answer was not good enough for the node whose turn it was, and the last answer of a completed run was |
| UpgradeRollout.WaitForUpgradeInventory | internal/application/kubernetes_upgrade.go:344-395 | only observes; every observation before the last was missing nothing but readiness, with identity, cordon state, kubelet, image and configuration of every node as in the baseline; it settles exactly on such an observation with the control plane reached, and otherwise stops on one that is not, or for cancellation |
| UpgradeRollout.CheckUnchanged | internal/application/kubernetes_upgrade.go:357-369 | true iff every planned node is unchanged against the baseline, with the first ones done |
| UpgradeRollout.ObserveNode | internal/application/kubernetes_upgrade.go:275-293 | after a successful wait the repeated checks cannot fire |
| UpgradeRollout.RechecksCannotFire | internal/application/kubernetes_upgrade.go:282-307 | a settled observation already passes the identity, readiness, cordon and configuration checks that follow it |
| UpgradeRollout.SendUpdate | internal/application/kubernetes_upgrade.go:308-330 | exactly one update is sent, for the planned node with the state just observed; success writes the target version, the image asked for and the replied configuration into this node's baseline entry and leaves every other entry as it was, failure leaves all |
| UpgradeRollout.HandleNode | internal/application/kubernetes_upgrade.go:294-330 | a settled observation leads to a skipped node, a stop with the observation to blame, or one update; progress, baseline and report entry follow |
| UpgradeRollout.UpgradeNext | internal/application/kubernetes_upgrade.go:269-331 | one iteration keeps safety, progress, baseline and the completed prefix, or ends with an honest report and a cause: the context, a failed update, or an observation that does not settle against the baseline of the trace |
| UpgradeRollout.UpgradeKubelets | internal/application/kubernetes_upgrade.go:269-331 | the loop keeps all of it for every node in plan order |
| UpgradeRollout.AppendNotAttempted | internal/application/kubernetes_upgrade.go:469-473 | the remaining plan nodes are reported as not attempted, in order |
| UpgradeRollout.Preflight | internal/application/kubernetes_upgrade.go:222-248 | success means two confirmations of the plan around a verified snapshot; nothing was changed |
| UpgradeRollout.UpgradeControlPlane | internal/application/kubernetes_upgrade.go:249-268 | the command runs unless skipped, the stage is verified by an observation, and only then remembered |
| UpgradeRollout.VerifyRollout | internal/application/kubernetes_upgrade.go:332-336 | success means one final observation in which everything is at the target and which is no cause to stop; failure has one |
| ReadinessMeaning.ControlPlaneMeans | internal/application/kubernetes_upgrade.go:397-442 | the control plane is reached iff this is the planned cluster, healthy, with as many nodes as planned, all ready and every planned UID among them, control-plane components, proxy setting and image as planned, and the pods fit |
| ReadinessMeaning.PodsMean | internal/application/kubernetes_upgrade.go:409-435 | pods fit iff they are rolled out, as many as planned nodes, at the target, no two on one node, and each named as its node is planned, or not at all on a node that is not planned |
| ReadinessMeaning.SettledMeans | internal/application/kubernetes_upgrade.go:353-388 | the wait settles iff the control plane is reached and every planned node has its planned identity and cordon state and the kubelet, image and configuration of the baseline, the first ones at the target with its image |
| ReadinessMeaning.KubeletsMean | internal/application/kubernetes_upgrade.go:444-458 | the final check passes iff the control plane is reached and every planned node is ready under its name and cordon state, at the target with the planned image |
| ReadinessMeaning.RewrittenMeans | internal/application/kubernetes_upgrade.go:328-330 | a successful update writes the target version, the image asked for and the replied configuration into the baseline entry of its node, and nothing else |
| ReadinessMeaning.LookupMeans | internal/application/kubernetes_upgrade.go:460-467 | a planned node is looked up as the first observed one with its UID |
| UpgradeRuns.UpdatesFollowPlan | internal/application/kubernetes_upgrade.go:269-331 | updates go out in plan order, and one that is followed by another succeeded |
| UpgradeRuns.UpdatedOnce | internal/application/kubernetes_upgrade.go:269-331 | no node is updated twice in a run |
| UpgradeRuns.NothingAfterFailure | internal/application/kubernetes_upgrade.go:314-327 | after a failed update nothing that changes the cluster is sent |
| UpgradeRuns.BaselineAsLeft | internal/application/kubernetes_upgrade.go:328-330 | at every call the baseline entry of a node is what its last successful update replied, or, without one, what the observation that verified the control plane showed |
| UpgradeRuns.NothingOverlooked | internal/application/kubernetes_upgrade.go:344-395 | every observation that the rollout goes on after shows every planned node with its identity, cordon state and what the run itself left there, or is an answer that the cluster is not ready |
| UpgradeRuns.OthersUntouchedOrDone | internal/application/kubernetes_upgrade.go:275-314 | at every update all nodes were seen ready with the control plane at the target; earlier nodes are at the target with the image and configuration their own update replied, and this one, all later ones and those never updated run what the observation that verified the control plane showed |
| UpgradeRuns.UpdateAsks | internal/application/kubernetes_upgrade.go:308-314 | an update asks for the image that the observation right before it names as the target, states the version, image, fingerprint and cordon state observed there, and names the node and the target version as planned |
| UpgradeRuns.ChangesConfirmed | internal/application/kubernetes_upgrade.go:222-249 | before the first change the plan was assessed twice from fresh observations, equal in every field, around a snapshot asked for and received from its gateway at the given path; the command is run once, for exactly this plan, unless its stage is skipped, and before any kubelet an observation showed the control plane at the target |
| UpgradeRuns.CompletedRunMeans | internal/application/kubernetes_upgrade.go:332-338 | a completed run reports every node as completed and last saw the planned cluster healthy, with every node ready, under its planned identity and cordon state, and with kubelet, image, components and pods at the target |
| UpgradeRuns.EveryUpdateReported | internal/application/kubernetes_upgrade.go:309-327 | every update that was sent is in the report under its node with its reply; one that did not succeed was the last call |
| UpgradeRuns.NotAttemptedIsUntouched | internal/application/kubernetes_upgrade.go:469-473 | a node reported as not attempted had no update, unless a failed update of it replied just that |
| UpgradeRuns.UntouchedReported | internal/application/kubernetes_upgrade.go:294-302 | a node without an update is reported as not attempted, or as completed if an observation showed it at the target with its image |
| UpgradeRuns.CompletedRunSkipsAll | internal/application/kubernetes_upgrade.go:332-338 | planning again for what a completed run last saw succeeds iff the parts no rollout check reads are complete; it skips every node, and the control plane iff the manifest stage is remembered and the target proxy image is unchanged |
| UpgradeRecovery.FinishedAssessable | internal/domain/kubernetes_upgrade.go:139-301 | the inventory a completed rollout ends in is accepted again iff the parts no rollout check reads are complete |
| UpgradeRecovery.FinishedIsSkipped | internal/domain/kubernetes_upgrade.go:329-354 | then every node is skipped, and the control plane iff the manifest evidence is held and the target proxy image is the planned one (or no control-plane node is left to compare) |
| UpgradeRecovery.RunKeepsStoredPrinted | internal/application/kubernetes_upgrade.go:249-268 | a run remembers a stage under the printed target only, which PreparedIsReconfirmed relies on |
| UpgradeRecovery.PreparedIsReconfirmed | internal/application/kubernetes_upgrade.go:36-96 | the prepared plan is the one the run confirms iff the target is spelled as printed, or no stage is remembered, or the control plane is not at the target |
| UpgradeRecovery.EvidenceForgotten | internal/application/kubernetes_upgrade.go:36-108 | a half-finished upgrade whose plan, prepared under another spelling, its own run rejects |
| Admission.RunKeeps | internal/application/mutation.go:39-93 | under every interleaving registry and busy flags describe the live leases |
| Admission.CountersAreLeases | internal/application/mutation_registry.go:13-39 | each counter equals the number of live leases of its scope and is at most one; a lease of unknown scope is the only one |
| Admission.LateReleaseHarmless | internal/application/mutation.go:82-91 | repeating either half of a release changes nothing |
| Admission.ClearsOnlyItsOwn | internal/application/mutation.go:84-90 | a release that clears a busy flag clears it for its own lease, never for a newer one |
| Admission.AdmitThenRelease | internal/application/mutation.go:39-93 | releasing restores registry and session; only the plan stays used |
| Admission.AdmittedOnce | internal/application/mutation.go:58-60 | no plan is admitted twice in any run |
| Admission.DiscardedNeverAdmitted | internal/application/configuration_apply.go:212-223 | a discarded configuration is never admitted |
| Admission.ClosedAdmitsNothing | internal/application/session.go:33-47 | nothing is admitted after Close |
| Admission.AnnouncedIsReleased | internal/application/kubernetes_upgrade.go:194-202 | the worker stores, releases in two halves and announces without any guard; however other releases of the same lease interleave, completion is announced only after the result is stored and the lease is free |
| Admission.LeaseSteps | internal/application/kubernetes_upgrade.go:194-202 | in every step a lease changes only by a release or by its worker, which stores, releases registry and flag, and announces, one after the other |
| Admission.SessionSteps | internal/application/session.go:33-47 | in every step a session is closed or ends only by its own close, learns its cluster once, and never changes whether it may write |
| Admission.PlanSteps | internal/application/mutation.go:50-80 | in every step a plan is consumed only by being admitted, and loses its request only if its owner discards an unused configuration |
| Admission.RefusalMeans | internal/application/mutation.go:39-80 | the answer to an admission is the first that applies: closed, read-only, not a plan of this session, used, blocked, not approved or not the right words, busy |
| Admission.AdmitsMeans | internal/application/mutation.go:39-93 | in every run a step admits a plan iff an open, writable, idle session is given its own unused and unblocked plan, approved and with the words it asks for (for a device wipe the device, with or without /dev/), while no live lease has its scope or no scope |
| MutationLease.MutationRegistry.Acquire | internal/application/mutation_registry.go:13-26 | takes the registry's step, or leaves it alone when the scope is refused |
| MutationLease.MutationRegistry.Release | internal/application/mutation_registry.go:28-37 | takes the release step, with the unsigned counter |
| MutationLease.Session.Admit | internal/application/mutation.go:39-93 | admits iff the session is open, writable and idle, the plan its own, unused, unblocked and with a request, the confirmation approved with the required words, and the registry free; refuses with the first failing check and changes nothing, or consumes the plan, sets the flag and hands out a held lease |
| MutationLease.Lease.Release | internal/application/mutation.go:83-91 | releases registry and flag once; later calls change nothing |
| MutationLease.Session.DiscardConfiguration | internal/application/configuration_apply.go:212-223 | the part on the plan: drops the request of an unconsumed configuration of this session and nothing else |
| UpgradeOperation.RetainedStream.Complete | internal/application/upgrade_operation.go:121-129 | stores, releases, announces; every state in between satisfies the stream's invariant |
| UpgradeOperation.RetainedStream.Wait | internal/application/upgrade_operation.go:134-149 | whoever gets a result gets the stored one, after the lease is free |
| UpgradeOperation.ExecuteUpgrade | internal/application/upgrade_operation.go:20-106 | a context that has ended is noticed before admission and consumes nothing; a stream starts only after the facts were read again, and with allowed downtime around a verified snapshot; an error releases the lease exactly once and its cause is what the last reading, snapshot or stream start came to; a stream keeps the lease |
| UpgradeOperation.SingleControlPlaneUpgradeMember | internal/application/upgrade_downtime.go:7-30 | names the member iff the node is the only control-plane node and its only etcd member is a healthy voter without alarms |
| UpgradeOperation.UnblockedUpgradeIsJustified | internal/application/node_actions.go:384-395 | an unblocked upgrade of a control-plane node either leaves a possible majority of voters or is the allowed downtime of the only member |
| UpgradeOperation.SoleMemberMeans | internal/application/upgrade_downtime.go:7-30 | the sole member over the fields: one control-plane node, one listed member, a healthy voter without alarms that goes by a name or address of this node |
| UpgradeOperation.FactsMean | internal/application/node_actions.go:335-396 | ID, name, role, version and canonical target in the facts are those of the node the request resolves to; with downtime allowed they are unblocked iff it is the sole member and snapshots can be taken, otherwise iff it is no control-plane node or more than half of the voters may stay |
| UpgradeOperation.VerdictMeans | internal/application/upgrade_operation.go:43-79 | a reading lets the run go on iff it gives the prepared facts and these are not blocked |
| UpgradeOperation.StreamedMeans | internal/application/upgrade_operation.go:43-103 | a stream is started for the requested target and image as the last step, and the reading right before it found the machine that was prepared; with allowed downtime a good snapshot from this node came first |
| UpgradeOperation.PrepareKubernetesUpgrade | internal/application/kubernetes_upgrade.go:36-83 | prepares iff the observation, with this session's evidence, assesses, and the session is open and serves no other cluster; the session then serves this one, and the plan is unused and needs the phrase for its cluster and target |
| UpgradeOperation.ExecuteKubernetesUpgrade | internal/application/kubernetes_upgrade.go:169-204 | an expired plan, an invalid snapshot path and a refused admission touch nothing; every refusal after admission releases the lease once; otherwise the worker has the prepared plan, the admitting session's evidence, and a stream that holds the lease |
| UpgradeOperation.UpgradeWorker.Work | internal/application/kubernetes_upgrade.go:194-202 | the worker announces an honest result of a safe rollout of its plan, with its cause, after releasing the lease |
| UpgradeOperation.UpgradeAndWait | internal/application/kubernetes_upgrade.go:169-204 | executing a prepared upgrade and waiting gives a refusal that sent nothing, or the honest result of a safe run of exactly the prepared plan, with the session free again |
| NodeTargets.ResolveNodeTarget | internal/application/action_policy.go:47-74 | resolves iff exactly one node answers to the name and nothing else answers to its canonical target |
| NodeTargets.ResolveMeans | internal/application/action_policy.go:47-89 | a name resolves to a node iff it is a name, ID or address of this node and no other, and so is the name the node will be addressed by |
| NodeTargets.ResolveIdempotent | internal/application/action_policy.go:47-74 | the canonical target of a resolved node resolves to that node |
| NodeTargets.SameTargetSameNode | internal/application/action_policy.go:47-74 | equal canonical targets mean the same node |
| NodeTargets.ResolveOrderIndependent | internal/application/action_policy.go:47-74 | the order of the node list does not matter |
| NodeTargets.ResolveNodeActionTargets | internal/application/node_actions.go:305-329 | succeeds iff every name resolves to a node of known role, with the nodes in the order of first mention |
| NodeTargets.NoNodeLost | internal/application/node_actions.go:319-324 | dropping repeated targets drops no node |
| NodeTargets.ResolvedNodesFrom | internal/application/node_actions.go:305-329 | the canonical targets are distinct and every node was asked for |
| NodeTargets.ResolvedAgain | internal/application/node_actions.go:305-329 | resolving the canonical targets again gives the same nodes in the same order |
| EtcdQuorum.AssessEtcdQuorum | internal/application/action_policy.go:128-163 | counting losses down gives the number of surviving voters |
| EtcdQuorum.QuorumOrdered | internal/application/action_policy.go:157-163 | remaining, confirmed remaining and voters are ordered, and the floor is a majority |
| EtcdQuorum.QuorumMonotone | internal/application/action_policy.go:128-163 | more targets never leave more voters |
| EtcdQuorum.QuorumMeans | internal/application/action_policy.go:128-163 | voters, those known to be sound and those that may be, counted over the fields, where a target touches a member by its hostname, its decimal ID or a host of its URLs |
| EtcdQuorum.NodeGatesMean | internal/application/action_policy.go:176-182 | the ordinary gate refuses iff at most half of the known voters may stay; the reset gate (lines 260-272) refuses control-plane targets iff etcd is unreadable, has no known voter, or at most half are known to stay; the refusal says which, with the counts |
| EtcdQuorum.TargetsIncludeControlPlane | internal/application/action_policy.go:91-104 | true iff some target is the canonical target of a control-plane node |
| EtcdQuorum.ResetGateStricter | internal/application/action_policy.go:176-182 | what the ordinary gate refuses for control-plane targets the reset gate refuses |
| EtcdQuorum.GatesMonotone | internal/application/action_policy.go:260-272 | both gates refuse every larger set of targets |
| EtcdMembership.ResolveEtcdMember | internal/application/action_policy.go:108-126 | resolves iff exactly one member agrees with every given part of the identity |
| EtcdMembership.CheckMembership | internal/application/action_policy.go:207-226 | the gate refuses with the first reason that applies, and allows otherwise |
| EtcdMembership.MemberGate | internal/application/action_policy.go:207-226 | for the one member that agrees with the identity: a removal of a member known to be healthy is refused and never a leave for that reason; otherwise a member that can be named may go iff the voters known to be healthy that do not share its name are a majority |
| EtcdMembership.NoMemberGate | internal/application/action_policy.go:192-203 | without etcd, without an identity, or without a member that agrees there is a refusal that says so |
| EtcdMembership.AmbiguousMemberGate | internal/application/action_policy.go:108-126 | two members that agree are as good as none |
| EtcdMembership.AllowedKeepsMajority | internal/application/action_policy.go:207-226 | an allowed change leaves known-healthy voters that are a majority of the old and the new membership, and a voter goes only if there are three |
| EtcdMembership.MajorityPersists | internal/application/action_policy.go:207-226 | over any run of gated changes and observations the healthy majority is never taken by a change, and the last two voters stay |
| EtcdMembership.EventKeeps | internal/application/action_policy.go:207-226 | every change that is let through ends with a healthy majority |
| EtcdMembership.SurvivorsMeet | internal/application/action_policy.go:207-226 | what two allowed changes leave behind shares a healthy voter |
| EtcdMembership.LearnerGate | internal/application/action_policy.go:207-226 | a learner's change is allowed iff healthy voters not sharing its name are a majority |
| EtcdMembership.LearnerBlocked | internal/application/action_policy.go:218-224 | with etcd readable, the leave of a learner is refused for quorum: it would leave one healthy voter of two, and two are needed |
| EtcdActions.UnwarnedToleratesOneLoss | internal/application/action_policy.go:228-241 | an allowed change of a voter without a warning survives the loss of one more voter |
| EtcdActions.SnapshotNodeForFacts | internal/application/action_policy.go:243-255 | the first healthy other voter, or the member itself if there is none |
| EtcdActions.SelectSource | internal/application/etcd_actions.go:338-365 | the two-phase search is the single search of its definition |
| EtcdActions.FirstRoutableVoterIsSource | internal/application/etcd_actions.go:338-357 | whenever a healthy other voter is a discoverable control-plane node, the first such voter gives the snapshot |
| EtcdActions.SourceWithoutVoter | internal/application/etcd_actions.go:357-365 | without a discoverable healthy voter the source is the member itself if no other voter is healthy, else the first control-plane node with another name, else none |
| EtcdActions.AllowedHasOtherVoter | internal/application/action_policy.go:243-255 | an allowed change never falls back to the changed member for its snapshot, if healthy voters have hostnames |
| EtcdActions.WarnOfLeadership | internal/application/action_policy.go:297-320 | warns iff a member of that hostname is known to lead and no other voter is known to be healthy |
| EtcdActions.ReadEtcdActionFacts | internal/application/etcd_actions.go:270-383 | reports exactly the facts of the observation, or refuses exactly when the definition does; the gateway checks are dead |
| EtcdActions.FactsNameNode | internal/application/etcd_actions.go:270-290 | the facts have ID, name and canonical target of the control-plane node the request resolves to |
| EtcdActions.FactsNameMember | internal/application/etcd_actions.go:291-320 | and ID and hostname of the only listed member that agrees with the request |
| EtcdActions.FactsOfChange | internal/application/etcd_actions.go:321-383 | a removal or a leave is unblocked iff the member can be named, is not a healthy member to be removed, and a majority of healthy voters does not share its name; it is warned about iff no further voter may fail; the snapshot source and the node that is called are those of the search |
| EtcdActions.FactsOfOthers | internal/application/etcd_actions.go:270-335 | every other action goes to the requested node unblocked; only forfeiting leadership can have a warning |
| EtcdActions.FactsRead | internal/application/etcd_actions.go:243-383 | the facts can be read iff the requested node is a control-plane node (or gone, for a removal), its member is listed exactly once and belongs to it, and a change has a node for its snapshot |
| EtcdActions.WhereCallsGo | internal/application/etcd_actions.go:337-381 | a leave goes to the member's own node, a removal to the snapshot source; both are discoverable control-plane nodes |
| EtcdActions.PrepareEtcdAction | internal/application/etcd_actions.go:55-96 | prepares canonical names and the facts read under them |
| EtcdActions.PreparedIsReread | internal/application/etcd_actions.go:243-268 | without a change in the cluster, execution reads exactly the prepared facts from the canonical names |
| EtcdExecution.EtcdCluster.Run | internal/application/etcd_actions.go:116-201 | at most one call, last, after the prepared facts were read again (around a verified snapshot for membership changes), sent where the facts say; success iff the step succeeded, errors with their cause, and an honest result |
| EtcdExecution.EtcdCluster.TakeSnapshot | internal/application/etcd_actions.go:392-420 | completed iff the call succeeded with a valid receipt; a valid receipt is kept even when the call failed |
| EtcdExecution.RpcNodeKnown | internal/application/etcd_actions.go:159-162 | there is always a node to send the call to |
| EtcdExecution.SentToPrepared | internal/application/etcd_actions.go:156-201 | a call has the requested kind and member and goes where the facts say, right after a reading in which the request resolved to the prepared node, by ID, name and role |
| EtcdExecution.SentIsJustified | internal/application/etcd_actions.go:116-156 | a removal or a leave goes out only after a good snapshot from the prepared source and a reading after it in which the prepared member was not known to be healthy (for a removal) and a majority of healthy voters did not share its name |
| EtcdExecution.VerdictMeans | internal/application/etcd_actions.go:116-130 | a reading lets the run go on iff it gives the prepared facts and these are not blocked |
| EtcdExecution.ResultMeans | internal/application/etcd_actions.go:156-201 | the entry of the result names the member or the node and has the outcome of the call, or of the snapshot that was asked for |
| EtcdExecution.ExecuteEtcdAction | internal/application/etcd_actions.go:102-202 | a refused plan touches nothing; an admitted one runs as above and releases its lease exactly once |
| ConfigurationApply.PreviewTargets | internal/application/configuration_apply.go:114-136 | blocked iff some preview failed or answered another mode than the requested one, which for an automatic request is "no reboot"; otherwise one fact per target, in order, with ID, name, role and canonical target of its node and the fingerprint answered |
| ConfigurationApply.SameIdentities | internal/application/configuration_apply.go:336-347 | true iff the identities agree one by one |
| ConfigurationApply.UnchangedNodesPass | internal/application/configuration_apply.go:255-258 | nodes that did not change since preparing pass the check at execution |
| ConfigurationApply.ConfigurationBackend.PreviewAgain | internal/application/configuration_apply.go:259-270 | success means that every target's preview agrees with the prepared one |
| ConfigurationApply.ConfigurationBackend.ApplyAll | internal/application/configuration_apply.go:272-316 | targets are applied in order until one does not confirm; results and callbacks are the ledger of the calls |
| ConfigurationApply.ResultsInOrder | internal/application/configuration_apply.go:272-316 | a confirmed prefix, at most one unconfirmed target, then not attempted; Apply was called exactly for the first two |
| ConfigurationApply.NoTargetTwice | internal/application/configuration_apply.go:255-258 | different targets of a run are different nodes |
| ConfigurationApply.SameNodesMean | internal/application/configuration_apply.go:255-258 | execution goes on iff the prepared targets are still canonical, different, and each those of a node with the prepared ID, name and role |
| ConfigurationApply.AppliedMeans | internal/application/configuration_apply.go:259-286 | once anything is applied, every target was previewed again with this payload and mode and answered the prepared fingerprint in the expected mode; then this payload is applied in this mode, target by target, each after the ones before it were answered in the expected mode |
| ConfigurationApply.OutcomesMean | internal/application/configuration_apply.go:272-316 | a target is not attempted iff no call was made for it, unconfirmed iff its call failed or answered another mode, and otherwise staged or accepted as requested |
| ConfigurationApply.ExecuteConfiguration | internal/application/configuration_apply.go:227-317 | nothing is applied before every preview is verified again with the prepared payload on the prepared nodes; the callbacks are the results, errors have their cause, the payload is cleared and the lease released once |
| ConfigurationApply.DiscardConfiguration | internal/application/configuration_apply.go:212-223 | the payload is cleared and the request dropped, or the plan is not this session's to discard and nothing changes |
| DiskScope.PickNamed | internal/application/node_destructive_actions.go:107-131 | the loop picks the disks of the definition, and it succeeds iff every name is given once, is not empty, and is exactly one user disk's |
| DiskScope.PickedIff | internal/application/node_destructive_actions.go:107-131 | named disks can be picked iff the names are distinct, not empty, and each is carried by exactly one user disk |
| DiskScope.ResetAllowed | internal/application/node_destructive_actions.go:83-144 | a reset is allowed iff there is one system disk, writable if it is to be wiped, every given name is one writable user disk's, and a wipe of user disks has any |
| DiskScope.ResetSelects | internal/application/node_destructive_actions.go:83-144 | it then wipes the system disk unless it is for user disks only, and the named writable user disks, or all of them without names, or none if it is for the system disk |
| DiskScope.DeviceAllowed | internal/application/node_destructive_actions.go:146-168 | a device wipe is allowed iff one disk answers to the device name, with or without /dev/, and it is neither the system disk nor read-only |
| DiskScope.ScopeMeans | internal/application/node_destructive_actions.go:83-168 | the recorded scope has exactly the wiped disks, each with its node and all attributes |
| DiskScope.ResetNamesMean | internal/application/node_destructive_actions.go:119-143 | a reset records the device names of the wiped user disks, in order |
| DiskScope.DiskFacts.CaptureResetDiskScope | internal/application/node_destructive_actions.go:83-144 | adds exactly the selected disks of this node, or one reason to refuse and nothing else |
| DiskScope.DiskFacts.CaptureDeviceWipeScope | internal/application/node_destructive_actions.go:146-168 | adds the only disk that answers to the device name if it is a writable user disk, or one reason to refuse |
| DiskScope.AssessDeviceWipe | internal/application/action_policy.go:349-369 | accepts iff the first disk that answers to the device name is neither the system disk nor read-only |
| DiskScope.OnlyWritableUserDisks | internal/application/node_destructive_actions.go:83-168 | only writable user disks of the node's own inventory are selected, none in system-disk mode; the system disk is never selected in user-disk mode |
| DiskScope.SystemDiskNamedIff | internal/application/node_destructive_actions.go:119-143 | the names sent include the system disk's iff a wiped writable user disk carries the same name |
| DiskScope.DistinctNamesSpareSystemDisk | internal/application/node_destructive_actions.go:119-143 | with distinct device names the system disk is never named |
| DiskScope.SharedNameReachesSystemDisk | internal/application/node_destructive_actions.go:119-143 | with a shared name a user-disk reset names the system disk |
| NodeActions.ReadNodeFacts | internal/application/node_actions.go:335-409 | ID, name, role and canonical target of every node in order, the gate and quorum of the kind of action, and the warning compared later, which control-plane targets alone can have |
| NodeActions.RequestsMean | internal/application/node_actions.go:221-303 | which requests are valid: named targets, one if forced or destroying user disks or a device, force for reboots and shutdowns only, no user disks for a system-disk reset, a named device and node for a wipe |
| NodeActions.FactsMean | internal/application/node_actions.go:335-409 | etcd matters iff a control-plane node is a target and no device is wiped; then the warning says whether voters known to be healthy stay a majority, and the gate refuses a reset without such a majority and anything else without a possible one |
| NodeActions.GateSeesControlPlane | internal/application/action_policy.go:91-104 | for canonical targets the gate's lookup finds a control-plane node iff there is one |
| NodeActions.ConfirmedKeepsQuorum | internal/application/node_actions.go:367-409 | a reset that goes out leaves a healthy majority of the voters untouched; a reboot, shutdown or rollback leaves a possible majority when the membership is known |
| NodeActions.SameMachines | internal/application/node_actions.go:152-187 | what goes out goes to the machines that were confirmed: every target resolves to a node of the confirmed ID, name, role and canonical target |
| NodeActions.SameDisks | internal/application/node_destructive_actions.go:170-175 | and whatever is wiped was in the confirmed scope with all its attributes |
| NodeActions.ConfirmedRisk | internal/application/node_actions.go:411-422 | over the fields: control-plane targets leave a majority of voters known to be healthy after a reset, possibly healthy after anything else |
| NodeActions.OrdersMean | internal/application/node_destructive_actions.go:195-213 | an order has the kind and force, the mode with exactly the names of the user disks selected on this node, or the device that was confirmed |
| NodeActions.DispatchedMeans | internal/application/node_actions.go:152-219 | an order goes to the target whose turn it is, after the disks of all were read and everything was confirmed again |
| NodeActions.ReportMeans | internal/application/node_actions.go:188-219 | a target is accepted or unconfirmed as its order came out, and unset iff there was none |
| NodeActions.NobodyElsesDisks | internal/application/node_destructive_actions.go:205-213 | no node is sent another node's disks, although all names are gathered in one list |
| NodeActions.NodeCluster.ReadDestructiveDiskFacts | internal/application/node_destructive_actions.go:30-81 | refused iff some inventory is missing or selects nothing it may; otherwise the scopes and names of all targets in order |
| NodeActions.PrepareNodeAction | internal/application/node_actions.go:34-120 | for reboot, shutdown, rollback, reset and device wipe: prepares iff all names resolve (and the wipe node is the target) and the context lasts, with canonical targets, one where the action allows only one; blocked iff the gate refuses or one of the inventories it has just read does, and otherwise what execution confirms while nothing changes |
| NodeActions.ExecuteNodeAction | internal/application/node_actions.go:124-219 | orders go out only for confirmed facts of nodes of known role, one per target in order, each of the confirmed kind and justified by the inventory read from that node where it names disks; results are the ledger of the orders and there are none without results; errors have their cause in the nodes seen or the inventories read; the lease is released once |
| Lines.SplitJoins | internal/adapters/talos/logs.go:97-131 | what splitting at newlines means: no newline inside a line, and joining gives the bytes back |
| Lines.SplitIsEndedAndRest | internal/adapters/talos/logs.go:97-131 | splitting from the front is following the bytes one after the other |
| LogDecoder.CutMeans | internal/adapters/talos/logs.go:106-111 | the first 2048 bytes of a line are kept, and it is marked iff there were more |
| LogDecoder.LogLinesMean | internal/adapters/talos/logs.go:97-131 | the lines of a log are what is between its newlines, cut, whatever frames it came in |
| LogDecoder.RecordLinesMean | internal/adapters/talos/logs.go:117-122 | the lines of records follow each other, each record split like a log of its own |
| LogDecoder.FramesMean | internal/adapters/talos/logs.go:131-148 | the frames of a stream that does not fail are all its frames, in order |
| LogDecoder.LineText | internal/adapters/talos/logs.go:83-91 | the text of a cut line is the bounded text of its longest valid start; a line that was not cut keeps all its bytes |
| LogDecoder.DataStreamDecoder.FinishLine | internal/adapters/talos/logs.go:92-94 | hands out the kept prefix with its flag and keeps nothing |
| LogDecoder.DataStreamDecoder.Keep | internal/adapters/talos/logs.go:106-111 | keeping a bounded prefix keeps what cutting the whole line would |
| LogDecoder.DataStreamDecoder.Next | internal/adapters/talos/logs.go:97-149 | a batch of at most 200 lines continues the lines of what was received; a failure hands out nothing and loses nothing |
| LogDecoder.ReadAll | internal/adapters/talos/logs.go:97-149 | all batches together are the split of all bytes, or of each record frame, however framed and batched |
| SnapshotStream.SnapshotHasher.Write | internal/adapters/talos/etcd_operations.go:108-118 | what was hashed followed by the trailer is what was written, and the trailer is its last 32 bytes |
| SnapshotStream.SnapshotHasher.Matches | internal/adapters/talos/etcd_operations.go:68-73 | accepts iff the bytes are a payload followed by its digest, however they were chunked |
| SnapshotStream.Snapshot | internal/adapters/talos/etcd_operations.go:36-96 | the accepted bytes, synced and closed, are at the path, where nothing was, with a receipt that callers trust; or nothing is left behind and there is a reason |
| SnapshotStream.HexMeans | internal/adapters/talos/etcd_operations.go:86-96 | two digits of the receipt's digest read back as their byte |
| Operations.ReceiptMeans | internal/application/etcd_actions.go:422-428 | a receipt counts iff it is for the requested node and path, not empty, and has 64 hexadecimal digits; it is kept whether or not the call failed |
| Text.LessMeans | internal/domain/kubernetes_upgrade.go:198-203 | the order of names is decided by the first character that differs, or by the end of a name |
| Text.DecimalMeans | internal/application/action_policy.go:409-417 | a member ID is compared by its decimal digits, which read back as the ID |
| Text.TrimSpaceMeans | internal/application/action_policy.go:450-459 | white space goes from both ends of a name and nothing else does |
| Text.TrimPrefixMeans | internal/application/action_validation.go:47-49 | a device name loses a leading /dev/ once |
| UpgradeOutput.ConsumeUpgradeOutput | internal/adapters/talos/kubernetes_upgrade_process.go:152-185 | exactly the lines of at most 65536 bytes are emitted, whatever the buffer splits; the unfinished one only at a clean end |
| UpgradeOutput.EmittedFirst | internal/adapters/talos/kubernetes_upgrade_process.go:156-173 | a line is emitted with its newline iff both take at most 65536 bytes, and reading goes on after it |
| UpgradeOutput.EmittedLast | internal/adapters/talos/kubernetes_upgrade_process.go:177-183 | an unfinished last line is emitted iff it is not empty, fits, and the input ended well |

## Left out

- The terminal UI, the command line, read-only views, diagnosis, health rules, services, images and time servers: shallow branching around the same admission protocol.
- Talos, Kubernetes and gRPC adapters other than the byte splitters: they are oracles with arbitrary answers. Two facts about them are used: a kubelet update answers for the node it was asked about, and an observation never reports converged manifests by itself.
- Parsing of versions and URLs, JSON, SHA-256, the validity of UTF-8 and the counting of runes: version strings are given by the version they spell and their spelling, endpoint URLs by their host names, JSON equality as equality of values; digests, `utf8.Valid` and `boundRunes` are arbitrary functions. White space is ASCII.
- Wording: errors, warnings, the note left on an expired preview, messages and progress events are kept apart only as far as code compares them. The warning text of a Talos upgrade is an uninterpreted function of what was read.
- Deadlines and expiry: arbitrary flags and an arbitrary number of polls. A wait is bounded by the number of its observations.
- Go scheduling: Admission interleaves atomic steps, with Session.admit as one step because it holds the session's mutex and enters the registry once; orders of one node action are sent one after the other.
- Version numbers are unbounded; the wrap of a 64-bit minor version is not modelled. The registry's 32-bit known counters are unbounded too, and proved to stay at one.
- sort.Slice is an insertion sort here; UpgradePlanning shows that any sorting algorithm gives the same plan.
- Prepare and discard paths of a session under its mutex are modelled where they decide something (admission, discarding, canonical names, evidence); option validation that only rejects malformed requests is not, except NodeActions.ValidRequest.
- Previews shown to the operator, and the fixed suffix that a graceful reset adds to its warning on both sides of the comparison.
- Options that a reset or a device wipe passes through unread: system partitions, graceful, reboot and the wipe method.
- A disk inventory reader that is missing altogether, for which the code blocks a reset or wipe without reading anything.
- UpgradeRollout.RunKubernetesUpgrade: does not fix how many observations a wait makes, because its deadline is arbitrary.
- SnapshotStream.Snapshot: assumes that removing the staging file succeeds; the source ignores a failure to do so.
