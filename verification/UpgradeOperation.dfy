/** Operations that outlive the call that starts them: ExecuteUpgrade
    (internal/application/upgrade_operation.go) and ExecuteKubernetesUpgrade
    (internal/application/kubernetes_upgrade.go). The lease is released at once when the start
    fails, and otherwise by the worker, after the result is stored and before it is announced. */
module UpgradeOperation {
  import opened Roles
  import opened Sequences
  import opened NodeTargets
  import opened EtcdQuorum
  import opened Operations
  import opened MutationLease
  import A = Admission
  import Recovery = UpgradeRecovery
  import Rollout = UpgradeRollout
  import UpgradeAssessment
  import UpgradePlanning
  import Versions
  import UpgradeTypes

  // ---- The retained stream ---------------------------------------------------------------------

  /** retainedUpgradeStream and kubernetesUpgradeStream. Every step of the worker keeps Valid, so
      a waiter that sees `done` between any two of them sees a stored result and a free lease. */
  class RetainedStream<R(==)> {
    const lease: Lease
    var terminal: Option<R>
    var done: bool

    ghost predicate Valid()
      reads this, lease
    {
      && (lease.registryHeld <==> lease.busyHeld) && (lease.releases == if lease.busyHeld then 0 else 1)
      && (terminal.None? ==> lease.busyHeld) && (lease.busyHeld ==> !done)
    }

    ghost predicate Running()
      reads this, lease
    {
      Valid() && terminal.None?
    }

    constructor (lease: Lease)
      requires lease.registryHeld && lease.busyHeld && lease.releases == 0
      ensures Running() && this.lease == lease
    {
      this.lease, terminal, done := lease, None, false;
    }

    method Store(result: R)
      requires Running()
      modifies this`terminal
      ensures Valid() && terminal == Some(result)
    {
      terminal := Some(result);
    }

    method ReleaseLease()
      requires Valid() && terminal.Some?
      modifies lease, lease.session`mutationBusy, lease.session.registry
      ensures Valid() && !lease.busyHeld && lease.releases == 1
      ensures old(lease.busyHeld) ==>
        !lease.session.mutationBusy &&
        lease.session.registry.State() == A.Released(old(lease.session.registry.State()), lease.scope)
      ensures !old(lease.busyHeld) ==>
        lease.session.State() == old(lease.session.State()) &&
        lease.session.registry.State() == old(lease.session.registry.State())
    {
      lease.Release();
    }

    method Announce()
      requires Valid() && terminal.Some? && !lease.busyHeld
      modifies this`done
      ensures Valid() && done
    {
      done := true;
    }

    /** The end of the worker. */
    method Complete(result: R)
      requires Running()
      modifies this`terminal, this`done, lease, lease.session`mutationBusy, lease.session.registry
      ensures Valid() && done && terminal == Some(result) && lease.releases == 1 && !lease.session.mutationBusy
      ensures lease.session.registry.State() == A.Released(old(lease.session.registry.State()), lease.scope)
    {
      Store(result);
      ReleaseLease();
      Announce();
    }

    /** Wait with a context that may end first. Any number of waiters get the same result, and
        none of them before the lease is free. */
    method Wait(gaveUp: bool) returns (r: Option<R>)
      requires Valid()
      ensures r.Some? ==> done && r == terminal && lease.releases == 1 && !lease.busyHeld
      ensures done && !gaveUp ==> r.Some?
    {
      if done && !gaveUp { return terminal; }
      return None;
    }
  }

  // ---- Facts of a Talos upgrade -----------------------------------------------------------------

  datatype Request = Request(target: string, image: string, allowDowntime: bool, snapshotPath: string)

  datatype Block = NotTheSoleMember | WouldLoseQuorum(reason: Refusal)

  datatype NodeFact = NodeFact(id: string, name: string, target: string, role: NodeRole, version: string)

  datatype Facts = Facts(downtimeMemberID: nat, node: NodeFact, warning: string, blocked: Option<Block>)

  datatype Reading = Unread | Readable(nodes: seq<Node>, etcd: EtcdFacts)

  /** Warnings are text that depends on the reading and the request only. */
  type Wording = (seq<Node>, EtcdFacts, Request) -> string

  function ControlNodes(): Node -> bool { (n: Node) => n.role.ControlRole? }

  /** singleControlPlaneUpgradeMember. */
  predicate SoleMember(nodes: seq<Node>, node: Node, etcd: EtcdFacts) {
    && etcd.available && |etcd.members| == 1 && node.role.ControlRole? && Count(ControlNodes(), nodes) == 1
    && var m := etcd.members[0];
       m.memberID != 0 && Voter(m) && Healthy(m) && !m.hasAlarms &&
       AtRisk(m, [node.name, Target(node)] + node.addresses)
  }

  method SingleControlPlaneUpgradeMember(nodes: seq<Node>, node: Node, etcd: EtcdFacts) returns (memberID: nat)
    ensures memberID != 0 <==> SoleMember(nodes, node, etcd)
    ensures memberID != 0 ==> memberID == etcd.members[0].memberID
  {
    if !etcd.available || |etcd.members| != 1 || node.role != ControlRole { return 0; }
    var count := 0;
    for i := 0 to |nodes|
      invariant count == Count(ControlNodes(), nodes[..i])
    {
      CountSnoc(ControlNodes(), nodes, i);
      if nodes[i].role == ControlRole { count := count + 1; }
    }
    assert nodes[..|nodes|] == nodes;
    if count != 1 { return 0; }
    var m := etcd.members[0];
    if m.memberID == 0 || m.isLearner || !m.statusKnown || m.hasErrors || m.hasAlarms { return 0; }
    var matches := MatchesAnyTarget(m, [node.name, Target(node)] + node.addresses);
    if !matches { return 0; }
    return m.memberID;
  }

  ghost predicate Resolvable(nodes: seq<Node>, target: string) {
    Resolve(nodes, target).Some? && KnownRole(Resolve(nodes, target).value.role)
  }

  function Identify(n: Node): NodeFact { NodeFact(n.id, n.name, Target(n), n.role, n.version) }

  /** Downtime needs the snapshot capability as well. */
  function BlockOf(nodes: seq<Node>, node: Node, etcd: EtcdFacts, r: Request, canSnapshot: bool): Option<Block> {
    var gate := OrdinaryGate(etcd, [Target(node)]);
    if r.allowDowntime then (if SoleMember(nodes, node, etcd) && canSnapshot then None else Some(NotTheSoleMember))
    else if node.role.ControlRole? && gate.Refused? then Some(WouldLoseQuorum(gate.reason))
    else None
  }

  /** readNodeActionFacts for an upgrade, or None when the target cannot be read. */
  ghost function FactsOf(o: Reading, r: Request, wording: Wording, canSnapshot: bool): Option<Facts> {
    if o.Unread? || !Resolvable(o.nodes, r.target) then None
    else
      var node := Resolve(o.nodes, r.target).value;
      Some(Facts(
        if SoleMember(o.nodes, node, o.etcd) then o.etcd.members[0].memberID else 0,
        Identify(node), wording(o.nodes, o.etcd, r), BlockOf(o.nodes, node, o.etcd, r, canSnapshot)))
  }

  method ReadFacts(o: Reading, r: Request, wording: Wording, canSnapshot: bool) returns (facts: Option<Facts>)
    ensures facts == FactsOf(o, r, wording, canSnapshot)
  {
    if o.Unread? { return None; }
    var found := ResolveNodeTarget(o.nodes, r.target);
    if found.None? || !KnownRole(found.value.role) { return None; }
    var node := found.value;
    var memberID := SingleControlPlaneUpgradeMember(o.nodes, node, o.etcd);
    var q := AssessEtcdQuorum(o.etcd, [Target(node)]);
    var blocked: Option<Block> := None;
    if r.allowDowntime {
      if memberID == 0 || !canSnapshot { blocked := Some(NotTheSoleMember); }
    } else if node.role == ControlRole && CertainlyBelowQuorum(q) {
      blocked := Some(WouldLoseQuorum(WouldDrop(q.confirmedRemaining, q.voters, q.floor)));
    }
    return Some(Facts(memberID, Identify(node), wording(o.nodes, o.etcd, r), blocked));
  }

  /** Whether or not downtime is allowed, an unblocked upgrade of a control-plane node never takes
      down a majority of voters that another node could have kept: either a majority of the voters
      may still be healthy without it, or there is no other voter and no other control-plane node. */
  lemma UnblockedUpgradeIsJustified(o: Reading, r: Request, wording: Wording, canSnapshot: bool, f: Facts)
    requires FactsOf(o, r, wording, canSnapshot) == Some(f) && f.blocked.None? && f.node.role.ControlRole? &&
      QuorumOf(o.etcd, [f.node.target]).Quorum?
    ensures
      || 2 * Count(PossibleSurvivor([f.node.target]), o.etcd.members) > Count(IsVoter(), o.etcd.members)
      || (r.allowDowntime && |o.etcd.members| == 1 && Healthy(o.etcd.members[0]) &&
           Count(ControlNodes(), o.nodes) == 1 &&
          f.downtimeMemberID == o.etcd.members[0].memberID)
  {
  }

  // ---- ExecuteUpgrade ----------------------------------------------------------------------------------

  datatype Call =
    | Checked(reading: Reading)
    | Took(node: string, path: string, reply: SnapshotReply)
    | Streamed(target: string, image: string)

  datatype Error =
    | NotAdmitted(reason: A.Error) | CapabilityUnavailable | Unreadable | Blocked | Changed | SnapshotFailed
    | ContextEnded

  /** The reading at k gave the prepared facts, and they are not blocked. */
  ghost predicate Rechecked(t: seq<Call>, k: nat, r: Request, wording: Wording, canSnapshot: bool, facts: Facts) {
    k < |t| && t[k].Checked? && facts.blocked.None? && FactsOf(t[k].reading, r, wording, canSnapshot) == Some(facts)
  }

  /** What must precede the upgrade stream: the facts read again; with allowed downtime, a verified
      snapshot of the node and the facts read once more after it. */
  ghost predicate Guarded(t: seq<Call>, r: Request, wording: Wording, canSnapshot: bool, facts: Facts) {
    && Rechecked(t, 0, r, wording, canSnapshot, facts)
    && if r.allowDowntime then
         |t| == 3 && t[1].Took? && t[1].node == r.target && t[1].path == r.snapshotPath &&
         Verified(t[1].reply, r.target, r.snapshotPath) && Rechecked(t, 2, r, wording, canSnapshot, facts)
       else |t| == 1
  }

  ghost predicate SafeRun(t: seq<Call>, r: Request, wording: Wording, canSnapshot: bool, facts: Facts) {
    forall k :: 0 <= k < |t| && t[k].Streamed? ==>
      k == |t| - 1 && t[k] == Streamed(r.target, r.image) && Guarded(t[..k], r, wording, canSnapshot, facts)
  }

  /** What a reading comes to. */
  function Verdict(current: Option<Facts>, facts: Facts): Option<Error> {
    if current.None? then Some(Error.Unreadable)
    else if current.value.blocked.Some? then Some(Blocked)
    else if current.value != facts then Some(Changed)
    else None
  }

  /** Every error has its cause: the last step, or the end of the context. */
  ghost predicate Explained(
    error: Error, t: seq<Call>, r: Request, wording: Wording, canSnapshot: bool, facts: Facts, streams: bool,
    ended: bool)
  {
    var last := |t| - 1;
    match error
    case ContextEnded => ended
    case CapabilityUnavailable => !streams && last >= 0 && t[last].Streamed?
    case SnapshotFailed => ended || (last >= 0 && t[last].Took? && !Verified(t[last].reply, r.target, r.snapshotPath))
    case _ =>
      last >= 0 && t[last].Checked? &&
      Verdict(FactsOf(t[last].reading, r, wording, canSnapshot), facts) == Some(error)
  }

  function ReceiptOf(t: seq<Call>): Option<Receipt> {
    if |t| > 1 && t[1].Took? then Some(t[1].reply.receipt) else None
  }

  class PreparedUpgrade {
    const state: PreparedState
    const request: Request
    const facts: Facts
    const wording: Wording

    constructor (state: PreparedState, request: Request, facts: Facts, wording: Wording)
      ensures this.state == state && this.request == request && this.facts == facts && this.wording == wording
    {
      this.state, this.request, this.facts, this.wording := state, request, facts, wording;
    }
  }

  class UpgradeBackend {
    var trace: seq<Call>
    const context: OperationContext

    constructor ()
      ensures trace == [] && fresh(context) && !context.ended
    {
      trace := [];
      context := new OperationContext();
    }

    method ReadCluster() returns (o: Reading)
      modifies this`trace
      ensures trace == old(trace) + [Checked(o)]
    {
      o := *;
      trace := trace + [Checked(o)];
    }

    /** checkFacts. */
    method CheckFacts(p: PreparedUpgrade, canSnapshot: bool) returns (error: Option<Error>)
      modifies this`trace, context
      ensures |trace| == |old(trace)| + 1 && trace[..|old(trace)|] == old(trace) && trace[|old(trace)|].Checked?
      ensures error.None? ==> Rechecked(trace, |old(trace)|, p.request, p.wording, canSnapshot, p.facts)
      ensures var verdict := Verdict(FactsOf(trace[|old(trace)|].reading, p.request, p.wording, canSnapshot), p.facts);
        error == verdict || (error == Some(Error.ContextEnded) && context.ended)
    {
      var o := ReadCluster();
      var current := ReadFacts(o, p.request, p.wording, canSnapshot);
      if current.None? { return Some(Error.Unreadable); }
      var done := context.Ended();
      if done { return Some(Error.ContextEnded); }
      if current.value.blocked.Some? { return Some(Blocked); }
      if current.value != p.facts { return Some(Changed); }
      return None;
    }

    method TakeSnapshot(node: string, path: string) returns (snapshot: Option<Receipt>, ok: bool)
      modifies this, context
      ensures trace == old(trace) ||
        (|trace| == |old(trace)| + 1 && trace[..|old(trace)|] == old(trace) && trace[|old(trace)|].Took?)
      ensures ok ==> trace != old(trace)
      ensures !ok ==> context.ended || (trace != old(trace) && !Verified(trace[|old(trace)|].reply, node, path))
      ensures ok ==>
        var call := trace[|old(trace)|];
        call.Took? && call.node == node && call.path == path && Verified(call.reply, node, path) &&
        snapshot == Some(call.reply.receipt)
    {
      var reply;
      reply, snapshot, ok := ExecuteEtcdSnapshot(context, node, path);
      if reply.Some? { trace := trace + [Took(node, path, reply.value)]; }
    }

    method StartStream(p: PreparedUpgrade, streams: bool) returns (error: Option<Error>)
      modifies this, context
      ensures error == Some(Error.ContextEnded) ==> trace == old(trace) && context.ended
      ensures error != Some(Error.ContextEnded) ==>
        trace == old(trace) + [Streamed(p.request.target, p.request.image)] &&
        error == if streams then None else Some(CapabilityUnavailable)
    {
      var done := context.Ended();
      if done { return Some(Error.ContextEnded); }
      trace := trace + [Streamed(p.request.target, p.request.image)];
      return if streams then None else Some(CapabilityUnavailable);
    }

    /** With allowed downtime: a verified snapshot after the first check, and the facts once more. */
    method SnapshotAndRecheck(p: PreparedUpgrade, canSnapshot: bool)
      returns (snapshot: Option<Receipt>, error: Option<Error>)
      requires |trace| == 1 && Rechecked(trace, 0, p.request, p.wording, canSnapshot, p.facts) &&
        p.request.allowDowntime
      modifies this, context
      ensures forall k :: 0 <= k < |trace| ==> !trace[k].Streamed?
      ensures error.None? ==> Guarded(trace, p.request, p.wording, canSnapshot, p.facts) && snapshot == ReceiptOf(trace)
      ensures error.Some? ==> snapshot.None?
      ensures error.Some? ==>
        Explained(error.value, trace, p.request, p.wording, canSnapshot, p.facts, true, context.ended)
    {
      if !canSnapshot {
        // Without the capability the facts are blocked already.
        assert false;
      }
      var ok;
      snapshot, ok := TakeSnapshot(p.request.target, p.request.snapshotPath);
      if !ok { return None, Some(SnapshotFailed); }
      ghost var taken := trace;
      error := CheckFacts(p, canSnapshot);
      assert trace[0] == taken[0] && trace[1] == taken[1];
      if error.Some? { snapshot := None; }
    }

    /** From the first check to the start of the stream. */
    method Start(p: PreparedUpgrade, canSnapshot: bool, streams: bool)
      returns (snapshot: Option<Receipt>, error: Option<Error>)
      requires trace == []
      modifies this, context
      ensures SafeRun(trace, p.request, p.wording, canSnapshot, p.facts)
      ensures error.None? ==> trace != [] && trace[|trace| - 1].Streamed?
      ensures error.Some? ==>
        Explained(error.value, trace, p.request, p.wording, canSnapshot, p.facts, streams, context.ended)
      ensures error.None? ==> snapshot == if p.request.allowDowntime then ReceiptOf(trace) else None
    {
      snapshot := None;
      error := CheckFacts(p, canSnapshot);
      if error.Some? { return; }
      if p.request.allowDowntime {
        snapshot, error := SnapshotAndRecheck(p, canSnapshot);
        if error.Some? { return; }
      }
      ghost var before := trace;
      error := StartStream(p, streams);
      if error.Some? { snapshot := None; }
      assert trace != before ==> trace[..|trace| - 1] == before;
    }
  }

  /** ExecuteUpgrade. A stream comes with a lease that is still held, an error after admission with
      one that has been released exactly once. A context that has ended is noticed before. */
  method ExecuteUpgrade(
    session: Session, p: PreparedUpgrade, confirmation: A.Confirmation, backend: UpgradeBackend,
    capable: bool, canSnapshot: bool, streams: bool)
    returns (stream: RetainedStream?<Option<Receipt>>, snapshot: Option<Receipt>, error: Option<Error>,
      ghost lease: Lease?)
    requires backend.trace == []
    modifies session`mutationBusy, p.state`consumed, session.registry, backend, backend.context
    ensures SafeRun(backend.trace, p.request, p.wording, canSnapshot, p.facts)
    ensures var refusal :=
      old(A.Refusal(session.State(), session.id, p.state.State(), confirmation, session.registry.State()));
      && (lease == null ==>
           error == Some(Error.ContextEnded) || (refusal.Some? && error == Some(NotAdmitted(refusal.value))))
      && (lease != null ==> fresh(lease) && refusal.None? && p.state.consumed)
    ensures lease == null ==>
      backend.trace == [] && session.registry.State() == old(session.registry.State()) &&
      p.state.State() == old(p.state.State())
    ensures error.Some? && !error.value.NotAdmitted? ==>
      if lease != null && !capable then error.value.CapabilityUnavailable? && backend.trace == []
      else
        Explained(error.value, backend.trace, p.request, p.wording, canSnapshot, p.facts, streams,
          backend.context.ended)
    ensures error.Some? ==> stream == null && session.State() == old(session.State())
    ensures error.Some? && lease != null ==>
      lease.releases == 1 &&
      session.registry.State() ==
        A.Released(A.Acquired(old(session.registry.State()), session.clusterUID), session.clusterUID)
    ensures error.None? ==>
      stream != null && fresh(stream) && stream.lease == lease && stream.Running() && session.mutationBusy &&
      session.registry.State() == A.Acquired(old(session.registry.State()), session.clusterUID) &&
      backend.trace != [] && backend.trace[|backend.trace| - 1].Streamed? &&
      snapshot == if p.request.allowDowntime then ReceiptOf(backend.trace) else None
  {
    stream, snapshot, lease := null, None, null;
    var over := backend.context.Ended();
    if over { return null, None, Some(Error.ContextEnded), null; }
    var refused, held := session.Admit(p.state, confirmation);
    lease := held;
    if refused.Some? { return null, None, Some(NotAdmitted(refused.value)), lease; }
    if !capable {
      error := Some(CapabilityUnavailable);
    } else {
      snapshot, error := backend.Start(p, canSnapshot, streams);
    }
    if error.Some? {
      held.Release();
      return;
    }
    stream := new RetainedStream<Option<Receipt>>(held);
  }

  // ---- Over the fields ---------------------------------------------------------------------------

  /** Downtime is for the only control-plane node and the only member, which is healthy, has no alarm,
      votes, and goes by a name or an address of this node. */
  lemma SoleMemberMeans(nodes: seq<Node>, node: Node, etcd: EtcdFacts)
    ensures SoleMember(nodes, node, etcd) <==>
      && etcd.available && |etcd.members| == 1 && node.role == ControlRole
      && (exists i :: 0 <= i < |nodes| && nodes[i].role == ControlRole &&
            forall j :: 0 <= j < |nodes| && j != i ==> nodes[j].role != ControlRole)
      && var m := etcd.members[0];
         && m.memberID > 0 && !m.isLearner && m.statusKnown && !m.hasErrors && !m.hasAlarms
         && Touched(m, [node.name] + node.addresses)
  {
    CountedOnce(ControlNodes(), nodes);
    if |etcd.members| == 1 {
      var m, all, fewer := etcd.members[0], [node.name, Target(node)] + node.addresses, [node.name] + node.addresses;
      TouchedMeans(m, all);
      assert all == [node.name] + [Target(node)] + node.addresses;
      assert forall x :: x in all <==> x in fewer || x == Target(node);
      assert node.addresses != [] ==> node.addresses[0] in fewer;
    }
  }

  /** The prepared facts, and the facts at execution, are those of the node the request names: who it is,
      and whether it may be taken down. */
  lemma FactsMean(o: Reading, r: Request, wording: Wording, canSnapshot: bool, f: Facts)
    requires FactsOf(o, r, wording, canSnapshot) == Some(f)
    ensures o.Readable? && Resolve(o.nodes, r.target).Some?
    ensures var n := Resolve(o.nodes, r.target).value;
      && f.node.id == n.id && f.node.name == n.name && f.node.role == n.role && f.node.version == n.version
      && f.node.target == (if n.name != "" then n.name else if n.addresses != [] then n.addresses[0] else "")
      && f.node.role in {ControlRole, WorkerRole} && f.warning == wording(o.nodes, o.etcd, r)
      && f.downtimeMemberID == (if SoleMember(o.nodes, n, o.etcd) then o.etcd.members[0].memberID else 0)
    ensures r.allowDowntime ==> (f.blocked.None? <==> f.downtimeMemberID > 0 && canSnapshot)
    ensures !r.allowDowntime ==>
      (f.blocked.Some? <==>
        && f.node.role == ControlRole && o.etcd.available && Count(Voting(), o.etcd.members) > 0
        && 2 * Count(PossiblySoundVoting([f.node.target]), o.etcd.members) <= Count(Voting(), o.etcd.members))
  {
    NodeGatesMean(o.nodes, o.etcd, [f.node.target]);
  }

  /** What the stream is started for: the requested image on the requested node, which the reading right
      before it found to be the machine that was prepared. With allowed downtime a good snapshot of this
      node came first, and it is still the only control-plane node and member; without it, a majority of
      the voters may be left. */
  lemma StreamedMeans(t: seq<Call>, k: nat, r: Request, wording: Wording, canSnapshot: bool, facts: Facts)
    requires SafeRun(t, r, wording, canSnapshot, facts) && k < |t| && t[k].Streamed?
    ensures t[k].target == r.target && t[k].image == r.image && k == |t| - 1 == if r.allowDowntime then 3 else 1
    ensures t[k - 1].Checked? && t[k - 1].reading.Readable? && Resolve(t[k - 1].reading.nodes, r.target).Some?
    ensures var n := Resolve(t[k - 1].reading.nodes, r.target).value;
      && facts.node.id == n.id && facts.node.name == n.name && facts.node.role == n.role
      && facts.node.version == n.version
      && (r.allowDowntime ==> SoleMember(t[k - 1].reading.nodes, n, t[k - 1].reading.etcd))
    ensures r.allowDowntime ==>
      t[1].Took? && t[1].node == r.target && t[1].path == r.snapshotPath && !t[1].reply.failed &&
      var receipt := t[1].reply.receipt;
      receipt.node == r.target && receipt.path == r.snapshotPath && receipt.size > 0 && |receipt.sha256| == 64 &&
      ReceiptOf(t) == Some(receipt)
    ensures !r.allowDowntime && facts.node.role == ControlRole && t[k - 1].reading.etcd.available ==>
      var members := t[k - 1].reading.etcd.members;
      Count(Voting(), members) == 0 ||
      2 * Count(PossiblySoundVoting([facts.node.target]), members) > Count(Voting(), members)
  {
    FactsMean(t[k - 1].reading, r, wording, canSnapshot, facts);
  }

  /** A reading lets the run go on exactly when it gives the prepared facts, and they are not blocked. */
  lemma VerdictMeans(current: Option<Facts>, facts: Facts)
    ensures Verdict(current, facts) == None <==> current == Some(facts) && facts.blocked.None?
    ensures Verdict(current, facts) == Some(Error.Unreadable) <==> current.None?
    ensures Verdict(current, facts) == Some(Blocked) <==> current.Some? && current.value.blocked.Some?
  {
  }

  // ---- PrepareKubernetesUpgrade and ExecuteKubernetesUpgrade --------------------------------------------

  datatype RolloutEnd = RolloutEnd(result: Rollout.UpgradeResult, ok: bool)

  /** One session of the application: its part in admission, and its part in a rollout. */
  class Client {
    const session: Session
    const rollout: Rollout.UpgradeSession

    constructor (session: Session, rollout: Rollout.UpgradeSession)
      ensures this.session == session && this.rollout == rollout
    {
      this.session, this.rollout := session, rollout;
    }
  }

  class PreparedKubernetesUpgrade {
    const state: PreparedState
    const plan: UpgradeTypes.Plan

    constructor (state: PreparedState, plan: UpgradeTypes.Plan)
      ensures this.state == state && this.plan == plan
    {
      this.state, this.plan := state, plan;
    }
  }

  /** The phrase to type, made from the cluster and the printed target. */
  type Phrase = (string, Versions.VersionText) -> string

  /** applyKubernetesUpgradeManifestEvidence and the assessment. */
  method PlanFor(observed: UpgradeTypes.Inventory, target: Versions.VersionText, evidence: Recovery.Evidence)
    returns (plan: Option<UpgradeTypes.Plan>)
    ensures plan == Recovery.Prepared(observed, target, evidence)
    ensures plan.Some? ==> plan.value.clusterUID == observed.clusterUID
  {
    var inv := observed.(manifestsConverged := (observed.clusterUID, target) in evidence);
    plan := UpgradeAssessment.AssessKubernetesUpgrade(inv, target);
    if plan.Some? { UpgradePlanning.PlanShape(inv, target); }
  }

  /** PrepareKubernetesUpgrade, given what the adapter answered: the plan for the observation with the
      evidence of this session, unless the session serves another cluster. Preparing tells it which. */
  method PrepareKubernetesUpgrade(client: Client, reply: Rollout.InspectReply, target: Versions.VersionText,
      phrase: Phrase)
    returns (prepared: PreparedKubernetesUpgrade?)
    modifies client.session`clusterUID
    ensures prepared != null <==>
      && reply.Observed? && Recovery.Prepared(reply.inventory, target, client.rollout.manifestEvidence).Some?
      && !client.session.closed && !client.session.lifetimeEnded
      && old(client.session.clusterUID) in {"", reply.inventory.clusterUID}
    ensures prepared == null ==> client.session.clusterUID == old(client.session.clusterUID)
    ensures prepared != null ==>
      && fresh(prepared) && fresh(prepared.state)
      && Some(prepared.plan) == Recovery.Prepared(reply.inventory, target, client.rollout.manifestEvidence)
      && client.session.clusterUID == prepared.plan.clusterUID == reply.inventory.clusterUID
      && prepared.state.State() == A.Plan(
        client.session.id, false, A.OtherRequest, "", phrase(prepared.plan.clusterUID, prepared.plan.targetVersion))
  {
    if !reply.Observed? { return null; }
    var plan := PlanFor(reply.inventory, target, client.rollout.manifestEvidence);
    if plan.None? { return null; }
    if client.session.closed || client.session.lifetimeEnded { return null; }
    if client.session.clusterUID != "" && client.session.clusterUID != plan.value.clusterUID { return null; }
    client.session.clusterUID := plan.value.clusterUID;
    var token := phrase(plan.value.clusterUID, plan.value.targetVersion);
    var state := new PreparedState(client.session.id, A.OtherRequest, "", token);
    prepared := new PreparedKubernetesUpgrade(state, plan.value);
  }

  /** The worker that ExecuteKubernetesUpgrade starts: what it runs, and where it announces the end. */
  class UpgradeWorker {
    const stream: RetainedStream<RolloutEnd>
    const rollout: Rollout.UpgradeSession
    const plan: UpgradeTypes.Plan
    const path: string

    constructor (
      stream: RetainedStream<RolloutEnd>, rollout: Rollout.UpgradeSession, plan: UpgradeTypes.Plan, path: string)
      ensures this.stream == stream && this.rollout == rollout && this.plan == plan && this.path == path
    {
      this.stream, this.rollout, this.plan, this.path := stream, rollout, plan, path;
    }

    /** The rollout runs under the lease, and whatever it comes to is announced after the lease is
        free. */
    method Work()
      requires stream.Running()
      modifies rollout, rollout.context, stream`terminal, stream`done, stream.lease,
        stream.lease.session`mutationBusy, stream.lease.session.registry
      ensures stream.Valid() && stream.done && stream.terminal.Some? && stream.lease.releases == 1
      ensures !stream.lease.session.mutationBusy
      ensures stream.lease.session.registry.State() ==
        A.Released(old(stream.lease.session.registry.State()), stream.lease.scope)
      ensures Rollout.SafeRun(rollout.trace, plan, path)
      ensures Rollout.HonestResult(stream.terminal.value.result, stream.terminal.value.ok, rollout.trace, plan, path)
      ensures var ok := stream.terminal.value.ok;
        && (!ok ==> rollout.context.ended || Rollout.Excused(rollout.trace, plan, path))
        && (ok ==> !Rollout.Excused(rollout.trace, plan, path))
    {
      var result, ok := Rollout.RunKubernetesUpgrade(rollout, plan, path);
      stream.Complete(RolloutEnd(result, ok));
    }
  }

  /** ExecuteKubernetesUpgrade up to the start of its worker, which gets the plan that was prepared and
      admitted, the session that admitted it, and the lease. */
  method ExecuteKubernetesUpgrade(
    client: Client, prepared: PreparedKubernetesUpgrade, confirmation: A.Confirmation, path: string,
    expiredBefore: bool, validPath: bool, expiredAfter: bool, capable: bool)
    returns (worker: UpgradeWorker?, ghost lease: Lease?)
    modifies client.session`mutationBusy, prepared.state`consumed, client.session.registry
    ensures var session, state := client.session, prepared.state;
      var refusal :=
        old(A.Refusal(session.State(), session.id, state.State(), confirmation, session.registry.State()));
      && (worker == null ==> session.State() == old(session.State()))
      && (worker == null && lease != null ==>
           && fresh(lease) && lease.releases == 1 && state.consumed && (expiredAfter || !capable)
           && session.registry.State() ==
              A.Released(A.Acquired(old(session.registry.State()), session.clusterUID), session.clusterUID))
      && (worker == null && lease == null ==>
           && (expiredBefore || !validPath || refusal.Some?)
           && session.registry.State() == old(session.registry.State()) && state.consumed == old(state.consumed))
      && (worker != null ==>
           && fresh(worker) && fresh(worker.stream) && worker.stream.lease == lease && worker.stream.Running()
           && refusal.None? && state.consumed && !expiredBefore && validPath && !expiredAfter && capable
           && session.registry.State() == A.Acquired(old(session.registry.State()), session.clusterUID))
    ensures worker != null ==>
      && worker.plan == prepared.plan && worker.path == path && worker.rollout == client.rollout
      && fresh(worker.stream.lease) && worker.stream.lease.session == client.session
      && worker.stream.lease.scope == client.session.clusterUID
  {
    if expiredBefore || !validPath { return null, null; }
    var error, held := client.session.Admit(prepared.state, confirmation);
    lease := held;
    if error.Some? { return null, lease; }
    if expiredAfter || !capable {
      held.Release();
      return null, lease;
    }
    var stream := new RetainedStream<RolloutEnd>(held);
    worker := new UpgradeWorker(stream, client.rollout, prepared.plan, path);
  }

  /** From a plan to its end: whoever executes a prepared upgrade and waits gets either a refusal that
      sent nothing, or the honest result of a safe run of exactly this plan, with the session and the
      registry as before and the plan used. */
  method UpgradeAndWait(
    client: Client, prepared: PreparedKubernetesUpgrade, confirmation: A.Confirmation, path: string,
    expiredBefore: bool, validPath: bool, expiredAfter: bool, capable: bool)
    returns (end: Option<RolloutEnd>)
    modifies client.session`mutationBusy, prepared.state`consumed, client.session.registry
    modifies client.rollout, client.rollout.context
    ensures client.session.State() == old(client.session.State())
    ensures client.session.registry.State() == old(client.session.registry.State()) ||
      client.session.registry.State() ==
        A.Released(A.Acquired(old(client.session.registry.State()), client.session.clusterUID),
          client.session.clusterUID)
    ensures end.None? ==> client.rollout.trace == old(client.rollout.trace)
    ensures end.Some? ==>
      && old(A.Refusal(client.session.State(), client.session.id, prepared.state.State(), confirmation,
           client.session.registry.State())).None?
      && prepared.state.consumed && Rollout.SafeRun(client.rollout.trace, prepared.plan, path)
      && Rollout.HonestResult(end.value.result, end.value.ok, client.rollout.trace, prepared.plan, path)
  {
    ghost var lease;
    var worker;
    worker, lease := ExecuteKubernetesUpgrade(
      client, prepared, confirmation, path, expiredBefore, validPath, expiredAfter, capable);
    if worker == null { return None; }
    worker.Work();
    end := worker.stream.Wait(false);
  }
}
