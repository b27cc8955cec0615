/** ExecuteEtcdAction (internal/application/etcd_actions.go): facts are read again before the
    safety snapshot and once more after it, and only unchanged, unblocked facts let a call go out.
    What the cluster answers, and when the context ends, is arbitrary. */
module EtcdExecution {
  import opened Sequences
  import opened EtcdMembership
  import opened EtcdQuorum
  import opened Roles
  import opened EtcdActions
  import opened Operations
  import opened MutationLease
  import NodeTargets
  import A = Admission
  import Text

  datatype Call =
    | Read(observation: Observation, facts: Option<Facts>)
    | Took(node: string, path: string, reply: SnapshotReply)
    | Sent(kind: Kind, target: string, memberID: nat, failed: bool)

  datatype TargetResult = TargetResult(target: string, outcome: Outcome, failed: bool, warning: Warning)

  datatype Result = Result(targets: seq<TargetResult>, snapshot: Option<Receipt>)

  datatype Error =
    | NotAdmitted(reason: A.Error) | CapabilityUnavailable | Unreadable | Blocked | Changed | ContextEnded | CallFailed

  const NOTHING := Result([], None)

  // ---- What a run may do ---------------------------------------------------------------------

  ghost predicate Observes(t: seq<Call>, k: int, o: Observation) {
    0 <= k < |t| && t[k].Read? && t[k].observation == o
  }

  /** The facts of every reading are the facts of what was observed. */
  ghost predicate Truthful(t: seq<Call>, r: Request) {
    forall k, o {:trigger Observes(t, k, o)} :: Observes(t, k, o) ==> t[k].facts == CurrentFacts(o, r)
  }

  predicate ReadsFacts(t: seq<Call>, k: int, p: Prepared) {
    0 <= k < |t| && t[k].Read? && t[k].facts == Some(p.facts)
  }

  ghost predicate Snapshotted(t: seq<Call>, k: int, node: string, p: Prepared) {
    0 <= k < |t| && t[k].Took? && t[k].node == node && t[k].path == p.request.snapshotPath
  }

  ghost predicate Saved(t: seq<Call>, k: int, node: string, p: Prepared) {
    Snapshotted(t, k, node, p) && Verified(t[k].reply, node, p.request.snapshotPath)
  }

  /** What must have happened before a call of this kind goes out: the prepared facts, unblocked,
      were read again; before a membership change they were read on both sides of a verified
      snapshot of the chosen source. */
  ghost predicate Guarded(t: seq<Call>, p: Prepared) {
    && p.facts.blocked.None? && ReadsFacts(t, 0, p)
    && if Destructive(p.request.kind)
       then |t| == 3 && Saved(t, 1, p.facts.snapshotNode, p) && ReadsFacts(t, 2, p)
       else |t| == 1
  }

  ghost predicate IsCall(t: seq<Call>, p: Prepared) {
    var last := |t| - 1;
    last >= 0 && t[last].Sent? && t[last].kind == p.request.kind && t[last].target == p.facts.rpcNode &&
    t[last].memberID == p.request.memberID && Guarded(t[..last], p)
  }

  /** A run sends at most one call, as its last step, and only when guarded. */
  ghost predicate SafeRun(t: seq<Call>, p: Prepared) {
    forall k :: 0 <= k < |t| && t[k].Sent? ==> k == |t| - 1 && !p.request.kind.Snapshot? && IsCall(t, p)
  }

  function SnapshotResult(node: string, path: string, reply: SnapshotReply): TargetResult {
    var ok := Verified(reply, node, path);
    TargetResult(node, if ok then Completed else Unconfirmed, !ok, NoWarning)
  }

  function CallResult(p: Prepared, failed: bool): TargetResult {
    var target := if p.facts.member.Some? then p.facts.member.value.hostname else p.facts.rpcNode;
    TargetResult(target, if failed then Unconfirmed else Accepted, failed, p.facts.warning)
  }

  /** The result reports the last step, and carries every valid receipt of the run. */
  ghost predicate HonestResult(t: seq<Call>, p: Prepared, r: Result) {
    var last := |t| - 1;
    && r.snapshot == (if |t| > 1 && t[1].Took? then KeptReceipt(t[1].reply, t[1].node, t[1].path) else None)
    && if last >= 0 && t[last].Sent? then r.targets == [CallResult(p, t[last].failed)]
       else if last >= 0 && t[last].Took? then
         var result := SnapshotResult(t[last].node, t[last].path, t[last].reply);
         r.targets == [result] || (r.targets == [] && result.outcome.Completed? && !p.request.kind.Snapshot?)
       else r.targets == []
  }

  /** No error means that the requested step was taken and succeeded. */
  ghost predicate Succeeded(t: seq<Call>, p: Prepared) {
    if p.request.kind.Snapshot? then
      |t| == 2 && p.facts.blocked.None? && ReadsFacts(t, 0, p) && Saved(t, 1, p.request.node, p)
    else IsCall(t, p) && !t[|t| - 1].failed
  }

  /** What a reading comes to. */
  function Verdict(facts: Option<Facts>, p: Prepared): Option<Error> {
    if facts.None? then Some(Unreadable)
    else if facts.value.blocked.Some? then Some(Blocked)
    else if facts.value != p.facts then Some(Changed)
    else None
  }

  /** Every error has its cause in the last step, or the context has ended. */
  ghost predicate Explained(error: Error, t: seq<Call>, p: Prepared, ended: bool) {
    var last := |t| - 1;
    match error
    case ContextEnded => ended
    case CallFailed =>
      ended || (last >= 0 && t[last].Sent? && t[last].failed) ||
      (last >= 0 && t[last].Took? && !Verified(t[last].reply, t[last].node, t[last].path))
    case _ => last >= 0 && t[last].Read? && Verdict(t[last].facts, p) == Some(error)
  }

  // ---- The run ------------------------------------------------------------------------------------

  class EtcdCluster {
    var trace: seq<Call>
    const context: OperationContext

    constructor ()
      ensures trace == [] && fresh(context) && !context.ended
    {
      trace := [];
      context := new OperationContext();
    }

    /** readCurrentEtcdActionFacts. */
    method ReadCurrent(p: Prepared) returns (facts: Option<Facts>)
      modifies this`trace
      ensures |trace| == |old(trace)| + 1 && trace[..|old(trace)|] == old(trace)
      ensures trace[|old(trace)|].Read? && trace[|old(trace)|].facts == facts
      ensures Truthful(old(trace), p.request) ==> Truthful(trace, p.request)
      ensures facts.Some? && !p.request.kind.Snapshot? ==> facts.value.rpcNode != ""
    {
      var o: Observation := *;
      facts := ReadCurrentFacts(o, p.request);
      TruthfulSnoc(trace, o, p.request);
      trace := trace + [Read(o, facts)];
      if facts.Some? && !p.request.kind.Snapshot? { RpcNodeKnown(o, p.request); }
    }

    /** executeEtcdSnapshot. */
    method TakeSnapshot(node: string, path: string, ghost q: Request) returns (r: Result, ok: bool)
      modifies this, context
      ensures trace == old(trace) || (|trace| == |old(trace)| + 1 && trace[..|old(trace)|] == old(trace))
      ensures Truthful(old(trace), q) ==> Truthful(trace, q)
      ensures trace == old(trace) ==> r == NOTHING && !ok && context.ended
      ensures trace != old(trace) ==>
        var call := trace[|old(trace)|];
        && call.Took? && call.node == node && call.path == path && ok == Verified(call.reply, node, path)
        && r == Result([SnapshotResult(node, path, call.reply)], KeptReceipt(call.reply, node, path))
    {
      var reply, kept;
      reply, kept, ok := ExecuteEtcdSnapshot(context, node, path);
      if reply.None? { return NOTHING, false; }
      if Truthful(trace, q) { TruthfulOther(trace, Took(node, path, reply.value), q); }
      trace := trace + [Took(node, path, reply.value)];
      r := Result([SnapshotResult(node, path, reply.value)], kept);
    }

    method Send(kind: Kind, target: string, memberID: nat) returns (failed: bool)
      modifies this`trace
      ensures trace == old(trace) + [Sent(kind, target, memberID, failed)]
    {
      failed := *;
      trace := trace + [Sent(kind, target, memberID, failed)];
    }

    /** A reading that has to agree with what was prepared. */
    method Recheck(p: Prepared) returns (error: Option<Error>)
      modifies this`trace
      ensures |trace| == |old(trace)| + 1 && trace[..|old(trace)|] == old(trace) && trace[|old(trace)|].Read?
      ensures Truthful(old(trace), p.request) ==> Truthful(trace, p.request)
      ensures error == Verdict(trace[|old(trace)|].facts, p)
      ensures error.None? <==> p.facts.blocked.None? && ReadsFacts(trace, |old(trace)|, p)
      ensures error.None? && !p.request.kind.Snapshot? ==> p.facts.rpcNode != ""
    {
      var current := ReadCurrent(p);
      if current.None? { return Some(Unreadable); }
      if current.value.blocked.Some? { return Some(Blocked); }
      if current.value != p.facts { return Some(Changed); }
      return None;
    }

    /** The safety snapshot before a membership change, and the reading after it. */
    method Protect(p: Prepared) returns (r: Result, error: Option<Error>)
      requires Destructive(p.request.kind) && |trace| == 1 && trace[0].Read? && Truthful(trace, p.request)
      modifies this, context
      ensures Truthful(trace, p.request)
      ensures 1 <= |trace| <= 3 && trace[0] == old(trace[0]) && forall k :: 0 <= k < |trace| ==> !trace[k].Sent?
      ensures HonestResult(trace, p, r) && (error.Some? ==> Explained(error.value, trace, p, context.ended))
      ensures error.None? ==>
        |trace| == 3 && Saved(trace, 1, p.facts.snapshotNode, p) && ReadsFacts(trace, 2, p) && r.targets == []
    {
      var ok;
      r, ok := TakeSnapshot(p.facts.snapshotNode, p.request.snapshotPath, p.request);
      if !ok { return r, Some(CallFailed); }
      r := Result([], r.snapshot);
      var done := context.Ended();
      if done { return r, Some(Error.ContextEnded); }
      error := Recheck(p);
    }

    /** The stages of ExecuteEtcdAction under the lease. */
    method Run(p: Prepared) returns (r: Result, error: Option<Error>)
      requires trace == []
      modifies this, context
      ensures Truthful(trace, p.request) && SafeRun(trace, p) && HonestResult(trace, p, r)
      ensures error.None? <==> Succeeded(trace, p)
      ensures error.Some? ==> Explained(error.value, trace, p, context.ended)
    {
      r := NOTHING;
      error := Recheck(p);
      if error.Some? { return; }
      var done := context.Ended();
      if done { return r, Some(Error.ContextEnded); }
      if p.request.kind.Snapshot? {
        var ok;
        r, ok := TakeSnapshot(p.request.node, p.request.snapshotPath, p.request);
        return r, if ok then None else Some(CallFailed);
      }
      if Destructive(p.request.kind) {
        r, error := Protect(p);
        if error.Some? { return; }
      }
      r, error := Dispatch(p, r.snapshot);
    }

    method Dispatch(p: Prepared, kept: Option<Receipt>) returns (r: Result, error: Option<Error>)
      requires Truthful(trace, p.request) && Guarded(trace, p) && !p.request.kind.Snapshot? && p.facts.rpcNode != ""
      requires HonestResult(trace, p, Result([], kept))
      modifies this, context
      ensures trace == old(trace) || (IsCall(trace, p) && trace[..|trace| - 1] == old(trace))
      ensures Truthful(trace, p.request) && HonestResult(trace, p, r)
      ensures error.None? <==> IsCall(trace, p) && !trace[|trace| - 1].failed
      ensures error.Some? ==> Explained(error.value, trace, p, context.ended)
    {
      r := Result([], kept);
      var done := context.Ended();
      if done { return r, Some(Error.ContextEnded); }
      var target := p.facts.rpcNode;
      if target == "" {
        // The fall-back to the requested node is never needed.
        assert false;
      }
      done := context.Ended();
      if done { return r, Some(Error.ContextEnded); }
      var failed := Send(p.request.kind, target, p.request.memberID);
      TruthfulOther(old(trace), trace[|trace| - 1], p.request);
      assert trace[..|trace| - 1] == old(trace);
      r := Result([CallResult(p, failed)], kept);
      return r, if failed then Some(CallFailed) else None;
    }
  }

  lemma TruthfulSnoc(t: seq<Call>, o: Observation, r: Request)
    ensures Truthful(t, r) ==> Truthful(t + [Read(o, CurrentFacts(o, r))], r)
  {
    if Truthful(t, r) {
      var t' := t + [Read(o, CurrentFacts(o, r))];
      forall k, x | Observes(t', k, x) ensures t'[k].facts == CurrentFacts(x, r) {
        if k < |t| { assert Observes(t, k, x); }
      }
    }
  }

  lemma TruthfulOther(t: seq<Call>, c: Call, r: Request)
    requires Truthful(t, r) && !c.Read?
    ensures Truthful(t + [c], r)
  {
    forall k, x | Observes(t + [c], k, x) ensures (t + [c])[k].facts == CurrentFacts(x, r) {
      assert Observes(t, k, x);
    }
  }

  /** There is always a node to send the call to. */
  lemma RpcNodeKnown(o: Observation, r: Request)
    requires CurrentFacts(o, r).Some? && !r.kind.Snapshot?
    ensures CurrentFacts(o, r).value.rpcNode != ""
  {
    var node := ActionNode(o.nodes, r).value;
    if NodeTargets.Resolve(o.nodes, r.node).Some? { NodeTargets.ResolveIdempotent(o.nodes, r.node); }
    if Destructive(r.kind) {
      WhereCallsGo(o.nodes, o.listing, node, r);
    }
  }

  class PreparedEtcdAction {
    const state: PreparedState
    const prepared: Prepared

    constructor (state: PreparedState, prepared: Prepared)
      ensures this.state == state && this.prepared == prepared
    {
      this.state, this.prepared := state, prepared;
    }
  }

  /** ExecuteEtcdAction: a refused plan touches nothing; an admitted one runs once, and on every
      path its lease is released exactly once before the call returns. */
  method ExecuteEtcdAction(session: Session, plan: PreparedEtcdAction, confirmation: A.Confirmation,
      cluster: EtcdCluster, capable: bool)
    returns (r: Result, error: Option<Error>, ghost lease: Lease?)
    requires cluster.trace == []
    modifies session`mutationBusy, plan.state`consumed, session.registry, cluster, cluster.context
    ensures var refusal :=
      old(A.Refusal(session.State(), session.id, plan.state.State(), confirmation, session.registry.State()));
      if refusal.Some?
      then error == Some(NotAdmitted(refusal.value)) && lease == null && cluster.trace == [] &&
           session.registry.State() == old(session.registry.State()) && plan.state.consumed == old(plan.state.consumed)
      else lease != null && fresh(lease) && lease.releases == 1 && plan.state.consumed &&
           session.registry.State() ==
             A.Released(A.Acquired(old(session.registry.State()), session.clusterUID), session.clusterUID)
    ensures session.State() == old(session.State())
    ensures Truthful(cluster.trace, plan.prepared.request) && SafeRun(cluster.trace, plan.prepared)
    ensures HonestResult(cluster.trace, plan.prepared, r)
    ensures error.None? ==> Succeeded(cluster.trace, plan.prepared)
    ensures error.Some? && !error.value.NotAdmitted? ==>
      if capable then
        !Succeeded(cluster.trace, plan.prepared) &&
        Explained(error.value, cluster.trace, plan.prepared, cluster.context.ended)
      else error.value.CapabilityUnavailable?
  {
    var refused, held := session.Admit(plan.state, confirmation);
    lease := held;
    if refused.Some? { return NOTHING, Some(NotAdmitted(refused.value)), lease; }
    if !capable {
      r, error := NOTHING, Some(CapabilityUnavailable);
    } else {
      r, error := cluster.Run(plan.prepared);
    }
    held.Release();
  }

  // ---- Over the fields --------------------------------------------------------------------------------

  lemma ReadAgain(t: seq<Call>, k: nat, p: Prepared)
    requires Truthful(t, p.request) && ReadsFacts(t, k, p)
    ensures k < |t| && t[k].Read? && CurrentFacts(t[k].observation, p.request) == Some(p.facts)
  {
    assert Observes(t, k, t[k].observation);
  }

  /** A reading lets the run go on exactly when it gives the prepared facts, and they are not blocked. */
  lemma VerdictMeans(facts: Option<Facts>, p: Prepared)
    ensures Verdict(facts, p) == None <==> facts == Some(p.facts) && p.facts.blocked.None?
    ensures Verdict(facts, p) == Some(Unreadable) <==> facts.None?
    ensures Verdict(facts, p) == Some(Blocked) <==> facts.Some? && facts.value.blocked.Some?
  {
  }

  /** A call names what was prepared, and right before it the cluster was read and the same node, by ID,
      name and role, answered to the request. */
  lemma SentToPrepared(t: seq<Call>, p: Prepared, k: nat)
    requires Truthful(t, p.request) && SafeRun(t, p) && k < |t| && t[k].Sent?
    ensures t[k].kind == p.request.kind && t[k].target == p.facts.rpcNode && t[k].memberID == p.request.memberID
    ensures k == |t| - 1 && k > 0 && t[k - 1].Read? && t[k - 1].observation.Observed?
    ensures var found := NodeTargets.Resolve(t[k - 1].observation.nodes, p.request.node);
      if found.Some? then
        var n := found.value;
        p.facts.nodeID == n.id && p.facts.nodeName == n.name && p.facts.nodeRole == n.role == ControlRole
      else p.request.kind == RemoveMember && p.facts.nodeName == p.request.node
  {
    ReadAgain(t, k - 1, p);
    FactsNameNode(t[k - 1].observation, p.request, p.facts);
  }

  /** A removal or a leave goes out only after a good snapshot from the prepared source, and when the
      reading after it found the prepared member, not known to be healthy if it is removed, with a
      majority of the voters known to be healthy and not to share its name. */
  lemma SentIsJustified(t: seq<Call>, p: Prepared, k: nat) returns (i: nat)
    requires Truthful(t, p.request) && SafeRun(t, p) && k < |t| && t[k].Sent?
    requires p.request.kind in {RemoveMember, LeaveCluster}
    ensures k == 3 && t[1].Took? && t[1].node == p.facts.snapshotNode && t[1].path == p.request.snapshotPath
    ensures var reply := t[1].reply;
      && !reply.failed && reply.receipt.node == p.facts.snapshotNode && reply.receipt.path == p.request.snapshotPath
      && reply.receipt.size > 0 && |reply.receipt.sha256| == 64
    ensures t[2].Read? && t[2].observation.Observed? && t[2].observation.listing.Listed?
    ensures i < |t[2].observation.listing.members|
    ensures var members := t[2].observation.listing.members;
      var m := members[i];
      && p.facts.member == Some(MemberName(m.memberID, m.hostname))
      && (p.request.kind == RemoveMember ==> !m.statusKnown || m.hasErrors)
      && var target := if Text.TrimSpace(m.hostname) != "" then m.hostname else Text.Decimal(m.memberID);
         2 * Count(SoundVoting([target]), members) > Count(Voting(), members)
  {
    assert t[..k][2] == t[2] && t[..k][1] == t[1];
    ReadAgain(t, 2, p);
    i := FactsOfChange(t[2].observation, p.request, p.facts);
  }

  /** The result of a call that was sent, or of a snapshot that was asked for, as its reply says. */
  lemma ResultMeans(t: seq<Call>, p: Prepared, r: Result)
    requires HonestResult(t, p, r) && t != []
    ensures t[|t| - 1].Sent? ==>
      && |r.targets| == 1 && r.targets[0].failed == t[|t| - 1].failed && r.targets[0].warning == p.facts.warning
      && r.targets[0].outcome == (if t[|t| - 1].failed then Unconfirmed else Accepted)
      && r.targets[0].target == (if p.facts.member.Some? then p.facts.member.value.hostname else p.facts.rpcNode)
    ensures t[|t| - 1].Took? && p.request.kind.Snapshot? ==>
      && |r.targets| == 1 && r.targets[0].target == t[|t| - 1].node
      && (r.targets[0].failed <==> !Verified(t[|t| - 1].reply, t[|t| - 1].node, t[|t| - 1].path))
      && r.targets[0].outcome == (if r.targets[0].failed then Unconfirmed else Completed)
  {
  }
}
