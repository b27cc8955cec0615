/** Preparing and executing reboot, shutdown, rollback, reset and device wipe
    (internal/application/node_actions.go and node_destructive_actions.go): what was confirmed is
    read again, and every node is sent orders about its own disks only. */
module NodeActions {
  import opened Roles
  import opened Sequences
  import opened NodeTargets
  import opened EtcdQuorum
  import opened DiskScope
  import opened DestructiveDisks
  import opened Operations
  import opened MutationLease
  import A = Admission
  import Text

  datatype PowerKind = Reboot | Shutdown | Rollback

  /** The actions of ExecuteNodeAction. */
  datatype NodeAction = Power(kind: PowerKind, force: bool) | OnDisks(disks: Action)

  datatype Request = Request(targets: seq<string>, action: NodeAction, wipeNode: string)

  datatype Identity = Identity(id: string, name: string, target: string, role: NodeRole)

  /** The quorum warning of an action, by the numbers it mentions. */
  datatype Warning =
    | NoWarning | ControlPlaneUnclear(quorum: Quorum) | ControlPlaneBelow(left: int, voters: int, floor: int)
    | ControlPlane

  /** nodeActionFacts. */
  datatype Facts = Facts(
    identities: seq<Identity>, gate: Gate, quorum: Option<Quorum>, warning: Warning,
    scope: seq<ScopedDisk>, resetUserDisks: seq<string>)

  datatype Order =
    | PowerOrder(kind: PowerKind, force: bool) | ResetOrder(mode: WipeMode, userDisks: seq<string>)
    | DeviceOrder(device: string)

  datatype Call = ReadDisks(node: string, reading: DiskReading) | Dispatched(target: string, order: Order, failed: bool)

  datatype TargetResult = TargetResult(target: string, outcome: Outcome)

  datatype Error =
    | NotAdmitted(reason: A.Error) | CapabilityUnavailable | Unreadable | Blocked | Changed | ContextEnded | CallFailed

  // ---- The request -----------------------------------------------------------------------------

  predicate OneTarget(a: NodeAction) {
    match a
    case Power(_, force) => force
    case OnDisks(disks) => SingleNode(disks)
  }

  /** validateNodeActionRequest for these kinds. */
  predicate ValidRequest(r: Request) {
    && r.targets != [] && (forall i :: 0 <= i < |r.targets| ==> !Text.Blank(r.targets[i]))
    && (OneTarget(r.action) ==> |r.targets| == 1)
    && match r.action
       case Power(kind, force) => force ==> !kind.Rollback?
       case OnDisks(Reset(mode, userDisks)) => mode.WipeSystemDisk? ==> userDisks == []
       case OnDisks(WipeDevice(device)) => !Text.Blank(r.wipeNode) && !Text.Blank(device)
  }

  /** A request names its nodes, and only one if it is forced or destroys user disks or a device; nothing
      else is forced than a reboot or a shutdown, and a reset of the system disk lists no user disks. */
  lemma RequestsMean(r: Request)
    ensures ValidRequest(r) <==>
      && r.targets != [] && (forall t :: t in r.targets ==> Text.TrimSpace(t) != "")
      && (r.action.Power? && r.action.force ==> |r.targets| == 1 && r.action.kind != Rollback)
      && (r.action.OnDisks? && r.action.disks.Reset? ==>
            if r.action.disks.mode.WipeSystemDisk? then r.action.disks.userDisks == [] else |r.targets| == 1)
      && (r.action.OnDisks? && r.action.disks.WipeDevice? ==>
            |r.targets| == 1 && Text.TrimSpace(r.wipeNode) != "" && Text.TrimSpace(r.action.disks.device) != "")
  {
    assert (forall t :: t in r.targets ==> !Text.Blank(t)) ==>
      forall i :: 0 <= i < |r.targets| ==> r.targets[i] in r.targets;
  }

  // ---- Facts ----------------------------------------------------------------------------------------

  function IdentityOf(): Node -> Identity { (n: Node) => Identity(n.id, n.name, Target(n), n.role) }

  predicate AnyControl(targets: seq<Node>) { exists n :: n in targets && n.role.ControlRole? }

  predicate Wipes(a: NodeAction) { a.OnDisks? && a.disks.WipeDevice? }

  predicate Resets(a: NodeAction) { a.OnDisks? && a.disks.Reset? }

  /** readNodeActionFacts: a reset has its own, stricter gate, a device wipe has none. */
  ghost function GateOf(nodes: seq<Node>, targets: seq<Node>, a: NodeAction, etcd: EtcdFacts): Gate {
    if !AnyControl(targets) || Wipes(a) then Allowed
    else if Resets(a) then ResetGate(nodes, etcd, Targets(targets))
    else OrdinaryGate(etcd, Targets(targets))
  }

  ghost function QuorumFact(targets: seq<Node>, a: NodeAction, etcd: EtcdFacts): Option<Quorum> {
    if AnyControl(targets) && Resets(a) then Some(QuorumOf(etcd, Targets(targets))) else None
  }

  /** etcdQuorumWarningFacts. */
  function QuorumWarning(q: Quorum): Warning {
    if !q.Quorum? then ControlPlaneUnclear(q)
    else if BelowQuorum(q) then ControlPlaneBelow(q.remaining, q.voters, q.floor)
    else ControlPlane
  }

  function WarningOf(targets: seq<Node>, a: NodeAction, etcd: EtcdFacts): Warning {
    if !AnyControl(targets) || Wipes(a) then NoWarning else QuorumWarning(QuorumOf(etcd, Targets(targets)))
  }

  /** The facts besides the disks. */
  ghost function FactsOf(nodes: seq<Node>, targets: seq<Node>, a: NodeAction, etcd: EtcdFacts): Facts {
    Facts(Map(IdentityOf(), targets), GateOf(nodes, targets, a, etcd), QuorumFact(targets, a, etcd),
      WarningOf(targets, a, etcd), [], [])
  }

  method Identities(targets: seq<Node>) returns (identities: seq<Identity>, names: seq<string>, hasControlPlane: bool)
    ensures identities == Map(IdentityOf(), targets) && names == Targets(targets)
    ensures hasControlPlane <==> AnyControl(targets)
  {
    identities, names, hasControlPlane := [], [], false;
    for i := 0 to |targets|
      invariant identities == Map(IdentityOf(), targets[..i]) && names == Targets(targets[..i])
      invariant hasControlPlane <==> AnyControl(targets[..i])
    {
      assert targets[..i + 1] == targets[..i] + [targets[i]];
      identities := identities + [IdentityOf()(targets[i])];
      names := names + [Target(targets[i])];
      hasControlPlane := hasControlPlane || targets[i].role == ControlRole;
    }
    assert targets[..|targets|] == targets;
  }

  method ReadNodeFacts(nodes: seq<Node>, targets: seq<Node>, a: NodeAction, etcd: EtcdFacts) returns (facts: Facts)
    ensures facts == FactsOf(nodes, targets, a, etcd)
    ensures |facts.identities| == |targets| && forall i :: 0 <= i < |targets| ==>
      facts.identities[i].id == targets[i].id && facts.identities[i].name == targets[i].name &&
      facts.identities[i].role == targets[i].role
  {
    var identities, names, hasControlPlane := Identities(targets);
    if !hasControlPlane || Wipes(a) { return Facts(identities, Allowed, None, NoWarning, [], []); }
    var q := AssessEtcdQuorum(etcd, names);
    if Resets(a) {
      var gate := CheckReset(nodes, names, etcd);
      return Facts(identities, gate, Some(q), QuorumWarning(q), [], []);
    }
    var gate :=
      if CertainlyBelowQuorum(q) then Refused(WouldDrop(q.confirmedRemaining, q.voters, q.floor)) else Allowed;
    return Facts(identities, gate, None, QuorumWarning(q), [], []);
  }

  /** resetQuorumBlockReasonFacts. */
  method CheckReset(nodes: seq<Node>, names: seq<string>, etcd: EtcdFacts) returns (gate: Gate)
    ensures gate == ResetGate(nodes, etcd, names)
  {
    var included := TargetsIncludeControlPlane(nodes, names);
    if !included { return Allowed; }
    var q := AssessEtcdQuorum(etcd, names);
    if q.QuorumUnavailable? { return Refused(EtcdUnknown); }
    if q.MembershipUnknown? { return Refused(ImpactUnknown); }
    if BelowQuorum(q) { return Refused(WouldDrop(q.remaining, q.voters, q.floor)); }
    return Allowed;
  }

  /** What the facts say about etcd. Only targets with a control-plane node matter, and a device wipe
      never does. */
  lemma FactsMean(nodes: seq<Node>, targets: seq<Node>, a: NodeAction, etcd: EtcdFacts)
    ensures var f, names := FactsOf(nodes, targets, a, etcd), Targets(targets);
      var matters := (exists n :: n in targets && n.role == ControlRole) && !(a.OnDisks? && a.disks.WipeDevice?);
      var voters, sound := Count(Voting(), etcd.members), Count(SoundVoting(names), etcd.members);
      && f.scope == [] && f.resetUserDisks == []
      && f.quorum == (if matters && a.OnDisks? then Some(QuorumOf(etcd, names)) else None)
      && f.warning == (
           if !matters then NoWarning
           else if !etcd.available || voters == 0 then ControlPlaneUnclear(QuorumOf(etcd, names))
           else if 2 * sound <= voters then ControlPlaneBelow(sound, voters, voters / 2 + 1)
           else ControlPlane)
      && (f.gate.Refused? <==>
            matters &&
            if a.OnDisks? then IncludesControlPlane(nodes, names) && (!etcd.available || 2 * sound <= voters)
            else etcd.available && voters > 0 && 2 * Count(PossiblySoundVoting(names), etcd.members) <= voters)
  {
    QuorumMeans(etcd, Targets(targets));
    NodeGatesMean(nodes, etcd, Targets(targets));
    CountMonotone(SoundVoting(Targets(targets)), Voting(), etcd.members);
  }

  /** The gate finds a control-plane node among canonical targets exactly when there is one. */
  lemma GateSeesControlPlane(nodes: seq<Node>, targets: seq<Node>)
    requires forall n :: n in targets ==> Resolve(nodes, Target(n)) == Some(n)
    ensures IncludesControlPlane(nodes, Targets(targets)) <==> AnyControl(targets)
  {
    if AnyControl(targets) {
      var n :| n in targets && n.role.ControlRole?;
      var k :| 0 <= k < |targets| && targets[k] == n;
      FirstNamed(nodes, n);
      assert NamesControlPlane(nodes, Targets(targets)[k]);
    }
    if IncludesControlPlane(nodes, Targets(targets)) {
      var k :| 0 <= k < |Targets(targets)| && NamesControlPlane(nodes, Targets(targets)[k]);
      assert targets[k] in targets;
      FirstNamed(nodes, targets[k]);
    }
  }

  lemma FirstNamed(nodes: seq<Node>, n: Node)
    requires Resolve(nodes, Target(n)) == Some(n)
    ensures NamesControlPlane(nodes, Target(n)) <==> n.role.ControlRole?
  {
  }

  /** What the facts of an action on control-plane nodes do not block leaves a majority of the voters:
      known to be healthy after a reset, possibly healthy after a reboot, shutdown or rollback with
      a known membership. */
  lemma UnblockedKeepsQuorum(nodes: seq<Node>, targets: seq<Node>, a: NodeAction, etcd: EtcdFacts)
    requires AnyControl(targets) && !Wipes(a) && GateOf(nodes, targets, a, etcd).Allowed?
    requires forall n :: n in targets ==> Resolve(nodes, Target(n)) == Some(n)
    ensures Resets(a) ==>
      etcd.available && 2 * Count(Survivor(Targets(targets)), etcd.members) > Count(IsVoter(), etcd.members)
    ensures a.Power? && QuorumOf(etcd, Targets(targets)).Quorum? ==>
      2 * Count(PossibleSurvivor(Targets(targets)), etcd.members) > Count(IsVoter(), etcd.members)
  {
    GateSeesControlPlane(nodes, targets);
  }

  // ---- Execution ----------------------------------------------------------------------------------

  /** What one reading of the cluster found, up to the disks. */
  datatype Observation = Unobserved | Observed(nodes: seq<Node>, etcd: EtcdFacts)

  function ReadCalls(targets: seq<string>, readings: seq<DiskReading>): seq<Call>
    requires |readings| <= |targets|
  {
    seq(|readings|, i requires 0 <= i < |readings| => ReadDisks(targets[i], readings[i]))
  }

  /** The nodes whose disks are read. */
  function DiskTargets(a: NodeAction, targets: seq<string>): seq<string> { if a.OnDisks? then targets else [] }

  /** The order that an action justifies for one of its targets, given that node's own inventory. */
  ghost predicate OwnOrder(a: NodeAction, readings: seq<DiskReading>, i: nat, order: Order) {
    match a
    case Power(kind, force) => order == PowerOrder(kind, force)
    case OnDisks(disks) =>
      i < |readings| && Allows(disks, readings[i]) &&
      order == if disks.Reset? then ResetOrder(disks.mode, ResetNames(disks, Chosen(disks, readings[i])))
        else DeviceOrder(disks.device)
  }

  /** dispatchPreparedNodeAction: with the names that all targets together contributed. */
  function OrderOf(a: NodeAction, names: seq<string>): Order {
    match a
    case Power(kind, force) => PowerOrder(kind, force)
    case OnDisks(Reset(mode, _)) => ResetOrder(mode, names)
    case OnDisks(WipeDevice(device)) => DeviceOrder(device)
  }

  /** What was captured of the disks, if the action reads any. */
  ghost predicate DiskFactsOf(a: NodeAction, targets: seq<string>, readings: seq<DiskReading>, facts: Facts) {
    match a
    case Power(_, _) => readings == [] && facts.scope == [] && facts.resetUserDisks == []
    case OnDisks(disks) =>
      && |readings| == |targets| && AllAllow(disks, readings)
      && facts.scope == AllScopes(disks, targets, readings) && facts.resetUserDisks == AllNames(disks, readings)
  }

  /** Although the names of all targets are gathered in one list, no node is sent another node's
      disks. */
  lemma NobodyElsesDisks(a: NodeAction, targets: seq<string>, readings: seq<DiskReading>, facts: Facts, i: nat)
    requires i < |targets| && (OneTarget(a) ==> |targets| == 1) && DiskFactsOf(a, targets, readings, facts)
    ensures OwnOrder(a, readings, i, OrderOf(a, facts.resetUserDisks))
  {
    if a.OnDisks? { NobodyElsesNames(a.disks, readings, i); }
  }

  /** Every target resolves to a node of known role. */
  ghost predicate AllKnown(nodes: seq<Node>, targets: seq<string>) {
    forall i ::
      0 <= i < |targets| ==> Resolve(nodes, targets[i]).Some? && KnownRole(Resolve(nodes, targets[i]).value.role)
  }

  /** What was read agrees with what was confirmed: the same nodes with the same disks, the same risk,
      and no reason to refuse. */
  ghost predicate Confirmed(o: Observation, a: NodeAction, targets: seq<string>, facts: Facts,
      readings: seq<DiskReading>)
  {
    && o.Observed? && AllKnown(o.nodes, targets)
    && facts.(scope := [], resetUserDisks := []) == FactsOf(o.nodes, ResolveEach(o.nodes, targets), a, o.etcd)
    && facts.gate.Allowed? && DiskFactsOf(a, targets, readings, facts)
  }

  ghost function ResolveEach(nodes: seq<Node>, targets: seq<string>): (r: seq<Node>)
    requires forall i :: 0 <= i < |targets| ==> Resolve(nodes, targets[i]).Some?
    ensures |r| == |targets| && forall i :: 0 <= i < |r| ==> r[i] == Resolve(nodes, targets[i]).value
  {
    seq(|targets|, i requires 0 <= i < |targets| => Resolve(nodes, targets[i]).value)
  }

  /** The readings are those of the trace, each of the node that the target resolves to now; only
      orders follow. */
  ghost predicate ReadFirst(t: seq<Call>, o: Observation, targets: seq<string>, readings: seq<DiskReading>) {
    var n := |readings|;
    if o.Observed? && AllKnown(o.nodes, targets) then
      && n <= |targets| && n <= |t| && t[..n] == ReadCalls(Targets(ResolveEach(o.nodes, targets)), readings)
      && forall k :: n <= k < |t| ==> t[k].Dispatched?
    else t == [] && readings == []
  }

  /** The calls after the disks were read: one per target in order, each justified by the
      inventory of the node it goes to. */
  ghost predicate Dispatches(calls: seq<Call>, a: NodeAction, targets: seq<string>, readings: seq<DiskReading>) {
    |calls| <= |targets| &&
    forall i ::
      0 <= i < |calls| ==>
        calls[i].Dispatched? && calls[i].target == targets[i] && OwnOrder(a, readings, i, calls[i].order)
  }

  /** One entry per target, in order. */
  ghost predicate Ledger(calls: seq<Call>, targets: seq<string>, results: seq<TargetResult>) {
    |results| == |targets| &&
    forall i :: 0 <= i < |results| ==> results[i] == TargetResult(targets[i],
      if i >= |calls| || !calls[i].Dispatched? then Unset else if calls[i].failed then Unconfirmed else Accepted)
  }

  /** Nothing is dispatched unless what was confirmed has just been read again. */
  ghost predicate SafeRun(t: seq<Call>, o: Observation, a: NodeAction, targets: seq<string>, facts: Facts,
      readings: seq<DiskReading>)
  {
    var n := |DiskTargets(a, targets)|;
    || (forall k :: 0 <= k < |t| ==> t[k].ReadDisks?)
    || (&& |t| > n == |readings| && Confirmed(o, a, targets, facts, readings)
        && t[..n] == ReadCalls(targets, readings) && Dispatches(t[n..], a, targets, readings))
  }

  lemma DispatchesOwn(calls: seq<Call>, a: NodeAction, targets: seq<string>, readings: seq<DiskReading>, facts: Facts)
    requires |calls| <= |targets| && (OneTarget(a) ==> |targets| == 1) && DiskFactsOf(a, targets, readings, facts)
    requires forall i :: 0 <= i < |calls| ==>
      calls[i].Dispatched? && calls[i].target == targets[i] && calls[i].order == OrderOf(a, facts.resetUserDisks)
    ensures Dispatches(calls, a, targets, readings)
  {
    forall i | 0 <= i < |calls| ensures OwnOrder(a, readings, i, calls[i].order) {
      NobodyElsesDisks(a, targets, readings, facts, i);
    }
  }

  /** An action that goes out leaves a majority of the voters. */
  lemma ConfirmedKeepsQuorum(o: Observation, a: NodeAction, targets: seq<string>, facts: Facts,
      readings: seq<DiskReading>)
    requires Confirmed(o, a, targets, facts, readings) && AnyControl(ResolveEach(o.nodes, targets)) && !Wipes(a)
    ensures var names := Targets(ResolveEach(o.nodes, targets));
      && (Resets(a) ==>
           o.etcd.available && 2 * Count(Survivor(names), o.etcd.members) > Count(IsVoter(), o.etcd.members))
      && (a.Power? && QuorumOf(o.etcd, names).Quorum? ==>
            2 * Count(PossibleSurvivor(names), o.etcd.members) > Count(IsVoter(), o.etcd.members))
  {
    var resolved := ResolveEach(o.nodes, targets);
    forall n | n in resolved ensures Resolve(o.nodes, Target(n)) == Some(n) {
      var i :| 0 <= i < |resolved| && resolved[i] == n;
      ResolveIdempotent(o.nodes, targets[i]);
    }
    UnblockedKeepsQuorum(o.nodes, resolved, a, o.etcd);
  }

  /** Every error has its cause. */
  ghost predicate Explained(
    error: Error, o: Observation, a: NodeAction, targets: seq<string>, facts: Facts, readings: seq<DiskReading>,
    results: seq<TargetResult>, ended: bool)
  {
    var allRead := |readings| == |DiskTargets(a, targets)|;
    match error
    case Unreadable => o.Unobserved?
    case Changed =>
      o.Observed? && (AllKnown(o.nodes, targets) ==> allRead && !Confirmed(o, a, targets, facts, readings))
    case Blocked =>
      && o.Observed? && AllKnown(o.nodes, targets)
      && (GateOf(o.nodes, ResolveEach(o.nodes, targets), a, o.etcd).Refused? ||
           (allRead && a.OnDisks? && !AllAllow(a.disks, readings)))
    case ContextEnded => ended
    case CallFailed => !AllAccepted(results)
    case _ => false
  }

  class PreparedNodeAction {
    const state: PreparedState
    const targets: seq<string>
    const action: NodeAction
    const facts: Facts

    /** Preparing stores canonical targets, and as many as the action may have. */
    ghost predicate Valid() {
      targets != [] && Map((f: Identity) => f.target, facts.identities) == targets &&
      (OneTarget(action) ==> |targets| == 1)
    }

    constructor (state: PreparedState, targets: seq<string>, action: NodeAction, facts: Facts)
      ensures this.state == state && this.targets == targets && this.action == action && this.facts == facts
    {
      this.state, this.targets, this.action, this.facts := state, targets, action, facts;
    }
  }

  /** One reading, taken into the facts. */
  method Capture(facts: DiskFacts, target: string, a: Action, reading: DiskReading)
    requires target != ""
    modifies facts
    ensures if Allows(a, reading) then facts.blocked == old(facts.blocked) else facts.blocked != []
    ensures facts.scope == old(facts.scope) + ScopeOf(target, Chosen(a, reading))
    ensures facts.resetUserDisks == old(facts.resetUserDisks) + ResetNames(a, Chosen(a, reading))
  {
    if reading.ReadFailed? {
      facts.Refuse(InventoryUnavailable);
      return;
    }
    if a.Reset? {
      facts.CaptureResetDiskScope(target, reading.disks, a);
    } else {
      facts.CaptureDeviceWipeScope(target, reading.disks, a);
    }
  }

  class NodeCluster {
    var trace: seq<Call>
    const context: OperationContext

    constructor ()
      ensures trace == [] && fresh(context) && !context.ended
    {
      trace := [];
      context := new OperationContext();
    }

    method ListDisks(node: string) returns (reading: DiskReading)
      modifies this`trace
      ensures trace == old(trace) + [ReadDisks(node, reading)]
    {
      reading := *;
      trace := trace + [ReadDisks(node, reading)];
    }

    method Send(target: string, order: Order) returns (failed: bool)
      modifies this`trace
      ensures trace == old(trace) + [Dispatched(target, order, failed)]
    {
      failed := *;
      trace := trace + [Dispatched(target, order, failed)];
    }

    /** One round of readDestructiveDiskFacts: read, look at the context, take it in. */
    method CaptureNext(facts: DiskFacts, target: string, a: Action) returns (reading: DiskReading, ok: bool)
      requires target != ""
      modifies this`trace, context, facts
      ensures trace == old(trace) + [ReadDisks(target, reading)]
      ensures !ok ==> context.ended
      ensures ok ==> if Allows(a, reading) then facts.blocked == old(facts.blocked) else facts.blocked != []
      ensures ok ==> facts.scope == old(facts.scope) + ScopeOf(target, Chosen(a, reading))
      ensures ok ==> facts.resetUserDisks == old(facts.resetUserDisks) + ResetNames(a, Chosen(a, reading))
    {
      reading := ListDisks(target);
      var done := context.Ended();
      if done { return reading, false; }
      Capture(facts, target, a, reading);
      ok := true;
    }

    /** readDestructiveDiskFacts, with a reader. A context that ends during a reading is noticed after it. */
    method ReadDestructiveDiskFacts(targets: seq<string>, a: Action)
      returns (facts: DiskFacts, ok: bool, ghost readings: seq<DiskReading>)
      requires trace == [] && forall i :: 0 <= i < |targets| ==> targets[i] != ""
      modifies this, context
      ensures fresh(facts) && |readings| <= |targets| && trace == ReadCalls(targets, readings)
      ensures !ok ==> context.ended
      ensures ok ==>
        |readings| == |targets| && Captures(facts.blocked, facts.scope, facts.resetUserDisks, a, targets, readings)
    {
      facts := new DiskFacts();
      readings := [];
      for i := 0 to |targets|
        invariant fresh(facts) && |readings| == i && trace == ReadCalls(targets, readings)
        invariant Captures(facts.blocked, facts.scope, facts.resetUserDisks, a, targets[..i], readings)
      {
        var done := context.Ended();
        if done { return facts, false, readings; }
        ghost var blocked, scope, names := facts.blocked, facts.scope, facts.resetUserDisks;
        var reading, taken := CaptureNext(facts, targets[i], a);
        if !taken { return facts, false, readings + [reading]; }
        CapturesSnoc(blocked, scope, names, a, targets[..i], readings, targets[i], reading, facts.blocked);
        assert targets[..i + 1] == targets[..i] + [targets[i]];
        readings := readings + [reading];
      }
      assert targets[..|targets|] == targets;
      return facts, true, readings;
    }

    /** The disk facts, if the action has any. */
    method ReadDisksFor(targets: seq<string>, a: NodeAction)
      returns (blocked: bool, scope: seq<ScopedDisk>, names: seq<string>, ok: bool, ghost readings: seq<DiskReading>)
      requires trace == [] && forall i :: 0 <= i < |targets| ==> targets[i] != ""
      modifies this, context
      ensures |readings| <= |targets| && trace == ReadCalls(targets, readings)
      ensures !ok ==> context.ended
      ensures ok ==>
        |readings| == |DiskTargets(a, targets)| && (blocked <==> a.OnDisks? && !AllAllow(a.disks, readings))
      ensures ok && !blocked ==>
        forall facts ::
          DiskFactsOf(a, targets, readings, facts) <==> facts.scope == scope && facts.resetUserDisks == names
    {
      if !a.OnDisks? { return false, [], [], true, []; }
      var facts;
      facts, ok, readings := ReadDestructiveDiskFacts(targets, a.disks);
      return facts.blocked != [], facts.scope, facts.resetUserDisks, ok, readings;
    }

    /** Everything ExecuteNodeAction checks before it dispatches. */
    method Recheck(plan: PreparedNodeAction, o: Observation)
      returns (error: Option<Error>, ghost readings: seq<DiskReading>)
      requires trace == [] && plan.Valid()
      modifies this, context
      ensures error.None? ==>
        Confirmed(o, plan.action, plan.targets, plan.facts, readings) && trace == ReadCalls(plan.targets, readings)
      ensures error.Some? ==>
        Explained(error.value, o, plan.action, plan.targets, plan.facts, readings, [], context.ended)
      ensures error.Some? ==> !error.value.CallFailed?
      ensures ReadFirst(trace, o, plan.targets, readings) && |trace| == |readings|
    {
      readings := [];
      if o.Unobserved? { return Some(Unreadable), readings; }
      var resolved := ResolveAll(o.nodes, plan.targets);
      if resolved.None? { return Some(Changed), readings; }
      error, readings := Reread(plan, o, resolved.value);
    }

    /** The facts of the resolved nodes against the prepared ones. */
    method Reread(plan: PreparedNodeAction, o: Observation, resolved: seq<Node>)
      returns (error: Option<Error>, ghost readings: seq<DiskReading>)
      requires trace == [] && plan.Valid() && o.Observed? && AllKnown(o.nodes, plan.targets) &&
        resolved == ResolveEach(o.nodes, plan.targets)
      requires forall i :: 0 <= i < |resolved| ==> Target(resolved[i]) != ""
      modifies this, context
      ensures error.None? ==>
        Confirmed(o, plan.action, plan.targets, plan.facts, readings) && trace == ReadCalls(plan.targets, readings)
      ensures error.Some? ==>
        Explained(error.value, o, plan.action, plan.targets, plan.facts, readings, [], context.ended)
      ensures error.Some? ==> !error.value.CallFailed?
      ensures ReadFirst(trace, o, plan.targets, readings) && |trace| == |readings|
    {
      var facts := ReadNodeFacts(o.nodes, resolved, plan.action, o.etcd);
      var over := context.Ended();
      if over { return Some(Error.ContextEnded), []; }
      var blocked, scope, names, ok;
      blocked, scope, names, ok, readings := ReadDisksFor(Targets(resolved), plan.action);
      if !ok { return Some(Error.ContextEnded), readings; }
      if facts.gate.Refused? || blocked { return Some(Blocked), readings; }
      Comparison(o, plan, resolved, facts, scope, names, readings);
      if plan.facts != facts.(scope := scope, resetUserDisks := names) { return Some(Changed), readings; }
      var done := context.Ended();
      return if done then Some(Error.ContextEnded) else None, readings;
    }

    /** The dispatch of every target, one after the other. */
    method DispatchAll(targets: seq<string>, order: Order) returns (results: seq<TargetResult>, ghost calls: seq<Call>)
      modifies this, context
      ensures trace == old(trace) + calls && |calls| <= |targets| && Ledger(calls, targets, results)
      ensures |calls| < |targets| ==> context.ended
      ensures forall i ::
        0 <= i < |calls| ==> calls[i].Dispatched? && calls[i].target == targets[i] && calls[i].order == order
    {
      results, calls := [], [];
      for i := 0 to |targets|
        invariant trace == old(trace) + calls && |calls| <= i && (context.ended || |calls| == i)
        invariant forall j ::
          0 <= j < |calls| ==> calls[j].Dispatched? && calls[j].target == targets[j] && calls[j].order == order
        invariant Ledger(calls, targets[..i], results)
      {
        assert targets[..i + 1] == targets[..i] + [targets[i]];
        var done := context.Ended();
        if done {
          results := results + [TargetResult(targets[i], Unset)];
          continue;
        }
        var failed := Send(targets[i], order);
        calls := calls + [Dispatched(targets[i], order, failed)];
        results := results + [TargetResult(targets[i], if failed then Unconfirmed else Accepted)];
      }
      assert targets[..|targets|] == targets;
    }

    method Run(plan: PreparedNodeAction, o: Observation)
      returns (results: seq<TargetResult>, error: Option<Error>, ghost readings: seq<DiskReading>)
      requires trace == [] && plan.Valid()
      modifies this, context
      ensures SafeRun(trace, o, plan.action, plan.targets, plan.facts, readings)
      ensures ReadFirst(trace, o, plan.targets, readings)
      ensures Reports(trace, plan.action, plan.targets, results, context.ended)
      ensures results != [] ==> Confirmed(o, plan.action, plan.targets, plan.facts, readings)
      ensures (exists k :: 0 <= k < |trace| && trace[k].Dispatched?) ==>
        o.Observed? && forall i :: 0 <= i < |plan.targets| ==>
          i < |plan.facts.identities| && Resolve(o.nodes, plan.targets[i]).Some? &&
          var n, known := Resolve(o.nodes, plan.targets[i]).value, plan.facts.identities[i];
          n.id == known.id && n.name == known.name && n.role == known.role && n.role in {ControlRole, WorkerRole}
      ensures error.Some? && error.value.CallFailed? ==> results != []
      ensures error.None? ==> results != [] && AllAccepted(results)
      ensures error.Some? ==>
        Explained(error.value, o, plan.action, plan.targets, plan.facts, readings, results, context.ended)
    {
      results := [];
      error, readings := Recheck(plan, o);
      if error.Some? { return; }
      SameMachines(o, plan.action, plan.targets, plan.facts, readings);
      ghost var before := trace;
      ghost var calls;
      results, calls := DispatchAll(plan.targets, OrderOf(plan.action, plan.facts.resetUserDisks));
      Dispatching(before, calls, plan, o, results, readings, context.ended);
      error := if AllAccepted(results) then None else Some(CallFailed);
    }
  }

  /** Orders after the readings of a confirmed action. */
  lemma Dispatching(
    before: seq<Call>, calls: seq<Call>, plan: PreparedNodeAction, o: Observation, results: seq<TargetResult>,
    readings: seq<DiskReading>, ended: bool)
    requires plan.Valid() && Confirmed(o, plan.action, plan.targets, plan.facts, readings)
    requires ReadFirst(before, o, plan.targets, readings) && |before| == |readings|
    requires before == ReadCalls(plan.targets, readings)
    requires |calls| <= |plan.targets| && Ledger(calls, plan.targets, results) && (|calls| < |plan.targets| ==> ended)
    requires forall i :: 0 <= i < |calls| ==>
      calls[i].Dispatched? && calls[i].target == plan.targets[i] &&
      calls[i].order == OrderOf(plan.action, plan.facts.resetUserDisks)
    ensures SafeRun(before + calls, o, plan.action, plan.targets, plan.facts, readings)
    ensures ReadFirst(before + calls, o, plan.targets, readings)
    ensures Reports(before + calls, plan.action, plan.targets, results, ended)
  {
    DispatchesOwn(calls, plan.action, plan.targets, readings, plan.facts);
    SafeDispatch(before, calls, o, plan.action, plan.targets, plan.facts, readings);
    OrdersFollow(before, calls, o, plan.targets, readings);
    assert (before + calls)[|before|..] == calls;
  }

  lemma SafeDispatch(
    before: seq<Call>, calls: seq<Call>, o: Observation, a: NodeAction, targets: seq<string>, facts: Facts,
    readings: seq<DiskReading>)
    requires Confirmed(o, a, targets, facts, readings) && |readings| <= |targets|
    requires before == ReadCalls(targets, readings) && Dispatches(calls, a, targets, readings)
    ensures SafeRun(before + calls, o, a, targets, facts, readings)
  {
    var t := before + calls;
    assert t[..|before|] == before && t[|before|..] == calls;
    if calls == [] { assert t == before; }
  }

  lemma OrdersFollow(
    before: seq<Call>, calls: seq<Call>, o: Observation, targets: seq<string>, readings: seq<DiskReading>)
    requires ReadFirst(before, o, targets, readings) && |before| == |readings|
    requires o.Observed? && AllKnown(o.nodes, targets) && forall i :: 0 <= i < |calls| ==> calls[i].Dispatched?
    ensures ReadFirst(before + calls, o, targets, readings)
  {
    assert (before + calls)[..|before|] == before[..|before|];
  }

  /** The results, if there are any, are the ledger of the orders, and none was left out unless the
      context ended; without results no order was sent. */
  ghost predicate Reports(t: seq<Call>, a: NodeAction, targets: seq<string>, results: seq<TargetResult>, ended: bool) {
    var n := |DiskTargets(a, targets)|;
    if results == [] then forall k :: 0 <= k < |t| ==> !t[k].Dispatched?
    else |t| >= n && Ledger(t[n..], targets, results) && (|t| == n + |targets| || ended)
  }

  predicate AllAccepted(results: seq<TargetResult>) {
    forall i :: 0 <= i < |results| ==> results[i].outcome == Accepted
  }

  /** The targets stay one by one; resolving must neither fail nor find an unknown role. */
  method ResolveAll(nodes: seq<Node>, targets: seq<string>) returns (resolved: Option<seq<Node>>)
    ensures resolved.Some? <==> AllKnown(nodes, targets)
    ensures resolved.Some? ==> resolved.value == ResolveEach(nodes, targets)
    ensures resolved.Some? ==> forall i :: 0 <= i < |targets| ==> Target(resolved.value[i]) != ""
  {
    var found: seq<Node> := [];
    for i := 0 to |targets|
      invariant |found| == i && forall j :: 0 <= j < i ==>
        Resolve(nodes, targets[j]) == Some(found[j]) && KnownRole(found[j].role) && Target(found[j]) != ""
    {
      var node := ResolveNodeTarget(nodes, targets[i]);
      if node.None? || !KnownRole(node.value.role) { return None; }
      ResolveIdempotent(nodes, targets[i]);
      found := found + [node.value];
    }
    return Some(found);
  }

  /** Unblocked facts equal the prepared ones exactly when these are confirmed. */
  lemma Comparison(
    o: Observation, plan: PreparedNodeAction, resolved: seq<Node>, facts: Facts,
    scope: seq<ScopedDisk>, names: seq<string>, readings: seq<DiskReading>)
    requires plan.Valid() && o.Observed? && AllKnown(o.nodes, plan.targets) &&
      resolved == ResolveEach(o.nodes, plan.targets)
    requires facts == FactsOf(o.nodes, resolved, plan.action, o.etcd) && facts.gate.Allowed?
    requires forall f ::
      DiskFactsOf(plan.action, Targets(resolved), readings, f) <==> f.scope == scope && f.resetUserDisks == names
    ensures plan.facts == facts.(scope := scope, resetUserDisks := names) ==> Targets(resolved) == plan.targets
    ensures plan.facts == facts.(scope := scope, resetUserDisks := names) <==>
      Confirmed(o, plan.action, plan.targets, plan.facts, readings)
  {
    SameTargets(facts.identities, resolved);
    if plan.facts.identities == facts.identities {
      assert Targets(resolved) == plan.targets;
    }
  }

  lemma SameTargets(identities: seq<Identity>, resolved: seq<Node>)
    requires identities == Map(IdentityOf(), resolved)
    ensures Targets(resolved) == Map((f: Identity) => f.target, identities)
  {
  }

  /** An order goes to one of the targets, each in its turn after the disks of all were read, and only when
      what was confirmed has been read again. */
  lemma DispatchedMeans(
    t: seq<Call>, o: Observation, a: NodeAction, targets: seq<string>, facts: Facts, readings: seq<DiskReading>, k: nat)
    requires SafeRun(t, o, a, targets, facts, readings) && k < |t| && t[k].Dispatched?
    ensures Confirmed(o, a, targets, facts, readings) && |readings| == if a.OnDisks? then |targets| else 0
    ensures |readings| <= k < |readings| + |targets| && t[k].target == targets[k - |readings|]
    ensures OwnOrder(a, readings, k - |readings|, t[k].order)
    ensures forall j :: 0 <= j < |readings| ==> t[j] == ReadDisks(targets[j], readings[j])
  {
    assert !(forall j :: 0 <= j < |t| ==> t[j].ReadDisks?);
    ReadsFirst(t, targets, readings, k);
    DispatchedAt(t[|readings|..], a, targets, readings, k - |readings|);
  }

  lemma ReadsFirst(t: seq<Call>, targets: seq<string>, readings: seq<DiskReading>, k: nat)
    requires |readings| <= |targets| && |readings| <= |t| && t[..|readings|] == ReadCalls(targets, readings)
    requires k < |t| && t[k].Dispatched?
    ensures k >= |readings| && forall j :: 0 <= j < |readings| ==> t[j] == ReadDisks(targets[j], readings[j])
  {
    assert forall j :: 0 <= j < |readings| ==> t[j] == t[..|readings|][j];
  }

  lemma DispatchedAt(calls: seq<Call>, a: NodeAction, targets: seq<string>, readings: seq<DiskReading>, i: nat)
    requires Dispatches(calls, a, targets, readings) && i < |calls|
    ensures i < |targets| && calls[i].Dispatched? && calls[i].target == targets[i]
    ensures OwnOrder(a, readings, i, calls[i].order)
  {
  }

  /** The result of a target is what the order for it came to. */
  lemma ReportMeans(t: seq<Call>, a: NodeAction, targets: seq<string>, results: seq<TargetResult>, ended: bool)
    requires Reports(t, a, targets, results, ended)
    ensures results == [] ==> forall k :: 0 <= k < |t| ==> t[k].ReadDisks?
    ensures results != [] ==> |results| == |targets| && forall i :: 0 <= i < |targets| ==>
      var k := i + if a.OnDisks? then |targets| else 0;
      && results[i].target == targets[i]
      && (results[i].outcome == Accepted <==> k < |t| && t[k].Dispatched? && !t[k].failed)
      && (results[i].outcome == Unconfirmed <==> k < |t| && t[k].Dispatched? && t[k].failed)
      && (results[i].outcome == Unset <==> k >= |t| || !t[k].Dispatched?)
  {
  }

  /** What is confirmed is confirmed of the same machines: by ID, name, canonical target and role. */
  lemma SameMachines(o: Observation, a: NodeAction, targets: seq<string>, facts: Facts, readings: seq<DiskReading>)
    requires Confirmed(o, a, targets, facts, readings)
    ensures |facts.identities| == |targets|
    ensures forall i :: 0 <= i < |targets| ==>
      Resolve(o.nodes, targets[i]).Some? &&
      var n, known := Resolve(o.nodes, targets[i]).value, facts.identities[i];
      && n.id == known.id && n.name == known.name && n.role == known.role && n.role in {ControlRole, WorkerRole}
      && known.target == if n.name != "" then n.name else if n.addresses != [] then n.addresses[0] else ""
  {
    var resolved := ResolveEach(o.nodes, targets);
    assert facts.identities == Map(IdentityOf(), resolved);
    forall i | 0 <= i < |targets| ensures facts.identities[i] == IdentityOf()(resolved[i]) {}
  }

  /** And of the same disks: whatever is wiped on a target was in the confirmed scope, with this target
      and with all its attributes. */
  lemma SameDisks(
    o: Observation, a: NodeAction, targets: seq<string>, facts: Facts, readings: seq<DiskReading>, i: nat, d: Disk)
    requires Confirmed(o, a, targets, facts, readings) && a.OnDisks? && i < |targets|
    requires |readings| == |targets| && Allows(a.disks, readings[i])
    requires var s := Chosen(a.disks, readings[i]); s.system == Some(d) || d in s.others
    ensures ScopedDisk(targets[i], d) in facts.scope
  {
    ScopeMeans(targets[i], Chosen(a.disks, readings[i]));
    ScopeListed(a.disks, targets, readings, i, ScopedDisk(targets[i], d));
  }

  lemma {:induction false} ScopeListed(
    a: Action, targets: seq<string>, readings: seq<DiskReading>, i: nat, e: ScopedDisk)
    requires i < |targets| == |readings| && e in ScopeOf(targets[i], Chosen(a, readings[i]))
    ensures e in AllScopes(a, targets, readings)
  {
    var last := |readings| - 1;
    if i == last {
    } else {
      ScopeListed(a, targets[..last], readings[..last], i, e);
    }
  }

  /** The confirmed risk: unless the action is a device wipe, the control-plane nodes among the targets
      leave a majority of the voters, known to be healthy for a reset, possibly healthy otherwise. */
  lemma ConfirmedRisk(o: Observation, a: NodeAction, targets: seq<string>, facts: Facts, readings: seq<DiskReading>)
    requires Confirmed(o, a, targets, facts, readings) && !Wipes(a)
    requires exists n :: n in ResolveEach(o.nodes, targets) && n.role == ControlRole
    ensures var names, members := Targets(ResolveEach(o.nodes, targets)), o.etcd.members;
      if a.OnDisks? then o.etcd.available && 2 * Count(SoundVoting(names), members) > Count(Voting(), members)
      else
        !o.etcd.available || Count(Voting(), members) == 0 ||
        2 * Count(PossiblySoundVoting(names), members) > Count(Voting(), members)
  {
    var resolved := ResolveEach(o.nodes, targets);
    forall n | n in resolved ensures Resolve(o.nodes, Target(n)) == Some(n) {
      var i :| 0 <= i < |resolved| && resolved[i] == n;
      ResolveIdempotent(o.nodes, targets[i]);
    }
    GateSeesControlPlane(o.nodes, resolved);
    NodeGatesMean(o.nodes, o.etcd, Targets(resolved));
  }

  /** What an order says: the kind and force of a power action; the mode of a reset with the names of
      the wiped disks; the device of a wipe. */
  lemma OrdersMean(a: NodeAction, readings: seq<DiskReading>, i: nat, order: Order)
    requires OwnOrder(a, readings, i, order)
    ensures a.Power? ==> order == PowerOrder(a.kind, a.force)
    ensures a.OnDisks? && a.disks.WipeDevice? ==> order == DeviceOrder(a.disks.device)
    ensures a.OnDisks? && a.disks.Reset? ==>
      && order.ResetOrder? && order.mode == a.disks.mode && i < |readings| && readings[i].Inventory?
      && Select(a.disks, readings[i].disks).Some?
      && forall name :: name in order.userDisks <==>
           exists d :: d in Select(a.disks, readings[i].disks).value.others && d.identity.deviceName == name
  {
    if a.OnDisks? && a.disks.Reset? {
      var others := Select(a.disks, readings[i].disks).value.others;
      forall name ensures name in Map(NameOf(), others) <==> exists d :: d in others && d.identity.deviceName == name {
        NamesOf(others, name);
      }
    }
  }

  /** ExecuteNodeAction. */
  method ExecuteNodeAction(
    session: Session, plan: PreparedNodeAction, confirmation: A.Confirmation, cluster: NodeCluster, o: Observation,
    capable: bool)
    returns (results: seq<TargetResult>, error: Option<Error>, ghost lease: Lease?, ghost readings: seq<DiskReading>)
    requires cluster.trace == [] && plan.Valid()
    modifies session`mutationBusy, plan.state`consumed, session.registry, cluster, cluster.context
    ensures var refusal :=
      old(A.Refusal(session.State(), session.id, plan.state.State(), confirmation, session.registry.State()));
      if refusal.Some?
      then error == Some(NotAdmitted(refusal.value)) && lease == null && cluster.trace == [] &&
           session.registry.State() == old(session.registry.State())
      else lease != null && fresh(lease) && lease.releases == 1 && plan.state.consumed &&
           session.registry.State() ==
             A.Released(A.Acquired(old(session.registry.State()), session.clusterUID), session.clusterUID)
    ensures session.State() == old(session.State())
    ensures SafeRun(cluster.trace, o, plan.action, plan.targets, plan.facts, readings)
    ensures (cluster.trace == [] && readings == []) || ReadFirst(cluster.trace, o, plan.targets, readings)
    ensures Reports(cluster.trace, plan.action, plan.targets, results, cluster.context.ended)
    ensures results != [] ==> Confirmed(o, plan.action, plan.targets, plan.facts, readings)
    ensures (exists k :: 0 <= k < |cluster.trace| && cluster.trace[k].Dispatched?) ==>
      o.Observed? && forall i :: 0 <= i < |plan.targets| ==>
        i < |plan.facts.identities| && Resolve(o.nodes, plan.targets[i]).Some? &&
        var n, known := Resolve(o.nodes, plan.targets[i]).value, plan.facts.identities[i];
        n.id == known.id && n.name == known.name && n.role == known.role && n.role in {ControlRole, WorkerRole}
    ensures error.Some? && error.value.CallFailed? ==> results != []
    ensures error.None? ==> results != [] && forall i :: 0 <= i < |results| ==> results[i].outcome == Accepted
    ensures error.Some? && !error.value.NotAdmitted? ==>
      if capable then
        Explained(error.value, o, plan.action, plan.targets, plan.facts, readings, results, cluster.context.ended)
      else error.value.CapabilityUnavailable?
  {
    results, readings := [], [];
    var refused, held := session.Admit(plan.state, confirmation);
    lease := held;
    if refused.Some? { return results, Some(NotAdmitted(refused.value)), lease, readings; }
    if !capable {
      error := Some(CapabilityUnavailable);
    } else {
      results, error, readings := cluster.Run(plan, o);
    }
    held.Release();
  }

  // ---- Preparing ----------------------------------------------------------------------------------

  datatype Prepared = Prepared(targets: seq<string>, action: NodeAction, facts: Facts, blocked: bool)

  ghost function Canonical(nodes: seq<Node>, identity: string): Option<string> {
    match Resolve(nodes, identity)
    case Some(n) => Some(Target(n))
    case None => None
  }

  /** A single name that resolves is the single canonical target. */
  lemma OnlyTarget(nodes: seq<Node>, requested: seq<string>)
    requires |requested| == 1 && Resolve(nodes, requested[0]).Some?
    ensures Targets(ResolvedNodes(nodes, requested)) == [Target(Resolve(nodes, requested[0]).value)]
  {
  }

  lemma {:induction false} NoMoreThanRequested(nodes: seq<Node>, requested: seq<string>)
    ensures |ResolvedNodes(nodes, requested)| <= |requested|
  {
    if requested == [] {
    } else {
      NoMoreThanRequested(nodes, requested[..|requested| - 1]);
    }
  }

  /** Canonical targets resolve, one by one, to the nodes they came from. */
  lemma CanonicalTargetsResolve(nodes: seq<Node>, requested: seq<string>)
    requires AllResolve(nodes, requested)
    ensures var resolved := ResolvedNodes(nodes, requested);
      && (forall i :: 0 <= i < |resolved| ==>
            Targets(resolved)[i] != "" && KnownRole(resolved[i].role) &&
            Resolve(nodes, Targets(resolved)[i]) == Some(resolved[i]))
      && ResolveEach(nodes, Targets(resolved)) == resolved
  {
    var resolved := ResolvedNodes(nodes, requested);
    ResolvedNodesFrom(nodes, requested);
    forall i | 0 <= i < |resolved|
      ensures Targets(resolved)[i] != "" && KnownRole(resolved[i].role) &&
        Resolve(nodes, Targets(resolved)[i]) == Some(resolved[i])
    {
      assert resolved[i] in resolved;
      var identity :| identity in requested && Resolve(nodes, identity) == Some(resolved[i]);
      ResolveIdempotent(nodes, identity);
    }
  }

  /** A device wipe must name the node it is for. */
  method CheckWipeNode(nodes: seq<Node>, r: Request, targets: seq<string>) returns (right: bool)
    requires ValidRequest(r) && AllResolve(nodes, r.targets) && targets == Targets(ResolvedNodes(nodes, r.targets)) &&
      targets != []
    ensures right <==> (Wipes(r.action) ==> Canonical(nodes, r.wipeNode) == Canonical(nodes, r.targets[0]))
    ensures right && Wipes(r.action) ==> Canonical(nodes, r.wipeNode) == Some(targets[0])
  {
    if !Wipes(r.action) { return true; }
    assert r.targets[0] in r.targets;
    OnlyTarget(nodes, r.targets);
    var wipeNode := ResolveNodeTarget(nodes, r.wipeNode);
    return wipeNode.Some? && Target(wipeNode.value) == targets[0];
  }

  /** The targets that a preparation works on. */
  method PrepareTargets(nodes: seq<Node>, r: Request) returns (resolved: Option<seq<Node>>)
    requires ValidRequest(r)
    ensures resolved.Some? <==>
      AllResolve(nodes, r.targets) &&
      (Wipes(r.action) ==> Canonical(nodes, r.wipeNode) == Canonical(nodes, r.targets[0]))
    ensures resolved.Some? ==>
      var targets := Targets(resolved.value);
      && resolved.value == ResolvedNodes(nodes, r.targets) && targets != []
      && (OneTarget(r.action) ==> |targets| == 1)
      && (Wipes(r.action) ==> Canonical(nodes, r.wipeNode) == Some(targets[0]))
      && (forall i :: 0 <= i < |targets| ==>
            targets[i] != "" && KnownRole(resolved.value[i].role) &&
            Resolve(nodes, targets[i]) == Some(resolved.value[i]))
      && ResolveEach(nodes, targets) == resolved.value
  {
    resolved := ResolveNodeActionTargets(nodes, r.targets);
    if resolved.None? { return; }
    NoMoreThanRequested(nodes, r.targets);
    CanonicalTargetsResolve(nodes, r.targets);
    var right := CheckWipeNode(nodes, r, Targets(resolved.value));
    if !right { return None; }
  }

  /** PrepareNodeAction. What is prepared and not blocked is what execution confirms as long as
      the cluster does not change. */
  method PrepareNodeAction(o: Observation, r: Request, cluster: NodeCluster)
    returns (prepared: Option<Prepared>, ghost readings: seq<DiskReading>)
    requires ValidRequest(r) && cluster.trace == []
    modifies cluster, cluster.context
    ensures forall k :: 0 <= k < |cluster.trace| ==> cluster.trace[k].ReadDisks?
    ensures prepared.Some? ==>
      var p := prepared.value;
      && o.Observed? && AllResolve(o.nodes, r.targets)
      && p.targets == Targets(ResolvedNodes(o.nodes, r.targets)) && p.action == r.action
      && Map((f: Identity) => f.target, p.facts.identities) == p.targets
      && p.targets != [] && (OneTarget(p.action) ==> |p.targets| == 1)
      && |p.facts.identities| == |p.targets|
      && (forall i :: 0 <= i < |p.targets| ==>
            var n, known := ResolvedNodes(o.nodes, r.targets)[i], p.facts.identities[i];
            known.id == n.id && known.name == n.name && known.role == n.role &&
            known.target == p.targets[i] == Target(n))
      && (Wipes(p.action) ==> Canonical(o.nodes, r.wipeNode) == Some(p.targets[0]))
      && (!p.blocked ==> Confirmed(o, p.action, p.targets, p.facts, readings))
      && |readings| == |DiskTargets(p.action, p.targets)| && cluster.trace == ReadCalls(p.targets, readings)
      && (p.blocked <==> p.facts.gate.Refused? || (p.action.OnDisks? && !AllAllow(p.action.disks, readings)))
    ensures prepared.None? ==>
      o.Unobserved? || !AllResolve(o.nodes, r.targets) || cluster.context.ended ||
      (Wipes(r.action) && Canonical(o.nodes, r.wipeNode) != Canonical(o.nodes, r.targets[0]))
  {
    readings := [];
    if o.Unobserved? { return None, readings; }
    var resolved := PrepareTargets(o.nodes, r);
    if resolved.None? { return None, readings; }
    var targets := Targets(resolved.value);
    var facts := ReadNodeFacts(o.nodes, resolved.value, r.action, o.etcd);
    SameTargets(facts.identities, resolved.value);
    var blocked, scope, names, ok;
    blocked, scope, names, ok, readings := cluster.ReadDisksFor(targets, r.action);
    if !ok { return None, readings; }
    var over := cluster.context.Ended();
    if over { return None, readings; }
    facts := facts.(scope := scope, resetUserDisks := names);
    return Some(Prepared(targets, r.action, facts, facts.gate.Refused? || blocked)), readings;
  }
}
