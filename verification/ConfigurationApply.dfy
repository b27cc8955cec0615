/** Previewing and applying a machine configuration (internal/application/configuration_apply.go).
    Every target is previewed again before the first one is changed; then targets are changed one
    after the other, until one does not confirm. */
module ConfigurationApply {
  import opened Roles
  import opened Sequences
  import opened NodeTargets
  import opened Operations
  import opened MutationLease
  import A = Admission

  /** domain.ConfigurationMode. The other modes are never requested, but a node may answer them. */
  datatype Mode = Auto | NoReboot | Staging | OtherMode

  datatype PreviewReply = PreviewFailed | Previewed(mode: Mode, fingerprint: string)

  datatype ApplyReply = ApplyFailed | AppliedAs(mode: Mode)

  datatype Identity = Identity(id: string, name: string, target: string, role: NodeRole)

  datatype TargetFact = TargetFact(identity: Identity, fingerprint: string)

  datatype Call =
    | Preview(target: string, data: seq<bv8>, requested: Mode, previewed: PreviewReply)
    | Apply(target: string, data: seq<bv8>, requested: Mode, applied: ApplyReply)

  datatype TargetResult = TargetResult(target: string, outcome: Outcome)

  datatype Error =
    | NotAdmitted(reason: A.Error) | AssessmentChanged | CapabilityUnavailable | ContextEnded | ApplyUnconfirmed

  /** expectedConfigurationResponseMode. */
  function ExpectedMode(requested: Mode): Mode { if requested.Auto? then NoReboot else requested }

  function IdentityOf(): Node -> Identity { (n: Node) => Identity(n.id, n.name, Target(n), n.role) }

  predicate GoodPreview(r: PreviewReply, requested: Mode) { r.Previewed? && r.mode == ExpectedMode(requested) }

  predicate GoodApply(r: ApplyReply, requested: Mode) { r.AppliedAs? && r.mode == ExpectedMode(requested) }

  // ---- What a run may do -----------------------------------------------------------------------

  /** Calls 0.. preview the targets in order with one payload and mode. */
  ghost predicate Previews(t: seq<Call>, n: nat, targets: seq<string>, data: seq<bv8>, mode: Mode) {
    n <= |t| && n <= |targets| && forall i :: 0 <= i < n ==>
      t[i].Preview? && t[i].target == targets[i] && t[i].data == data && t[i].requested == mode
  }

  ghost predicate Reverified(t: seq<Call>, n: nat, facts: seq<TargetFact>, mode: Mode) {
    n <= |t| && n <= |facts| && forall i :: 0 <= i < n ==>
      t[i].Preview? && GoodPreview(t[i].previewed, mode) && t[i].previewed.fingerprint == facts[i].fingerprint
  }

  /** These calls apply the targets in order, and all but the last succeeded. */
  ghost predicate Applies(calls: seq<Call>, targets: seq<string>, data: seq<bv8>, mode: Mode) {
    |calls| <= |targets| && forall i :: 0 <= i < |calls| ==>
      calls[i].Apply? && calls[i].target == targets[i] && calls[i].data == data && calls[i].requested == mode &&
      (i < |calls| - 1 ==> GoodApply(calls[i].applied, mode))
  }

  /** No target is changed unless every target's preview has just been verified again. */
  ghost predicate SafeRun(t: seq<Call>, targets: seq<string>, facts: seq<TargetFact>, data: seq<bv8>, mode: Mode) {
    var n := |targets|;
    if |t| <= n then Previews(t, |t|, targets, data, mode)
    else
      Previews(t[..n], n, targets, data, mode) && Reverified(t[..n], n, facts, mode) &&
      Applies(t[n..], targets, data, mode)
  }

  function OutcomeAt(calls: seq<Call>, i: nat, mode: Mode): Outcome {
    if i >= |calls| || !calls[i].Apply? then NotAttempted
    else if !GoodApply(calls[i].applied, mode) then Unconfirmed
    else if mode.Staging? then Staged else Accepted
  }

  /** One entry per target, in order, that says what the call for this target came to. */
  ghost predicate Ledger(calls: seq<Call>, targets: seq<string>, results: seq<TargetResult>, mode: Mode) {
    |results| <= |targets| &&
    forall i :: 0 <= i < |results| ==> results[i] == TargetResult(targets[i], OutcomeAt(calls, i, mode))
  }

  ghost predicate AllConfirmed(results: seq<TargetResult>) {
    forall i :: 0 <= i < |results| ==> results[i].outcome in {Accepted, Staged}
  }

  // ---- The run -------------------------------------------------------------------------------------

  /** The observed nodes at execution; None when they cannot be read. */
  type NodeReading = Option<seq<Node>>

  /** The targets still resolve to the nodes that were prepared. */
  ghost predicate SameNodes(nodes: NodeReading, targets: seq<string>, facts: seq<TargetFact>) {
    nodes.Some? && targets != [] && AllResolve(nodes.value, targets) &&
    Targets(ResolvedNodes(nodes.value, targets)) == targets &&
    Map(IdentityOf(), ResolvedNodes(nodes.value, targets)) == Map((f: TargetFact) => f.identity, facts)
  }

  /** sameConfigurationIdentities. */
  method SameIdentities(resolved: seq<Node>, facts: seq<TargetFact>) returns (same: bool)
    ensures same <==> Map(IdentityOf(), resolved) == Map((f: TargetFact) => f.identity, facts)
  {
    if |resolved| != |facts| { return false; }
    for i := 0 to |resolved|
      invariant forall j :: 0 <= j < i ==> IdentityOf()(resolved[j]) == facts[j].identity
    {
      if IdentityOf()(resolved[i]) != facts[i].identity {
        assert Map(IdentityOf(), resolved)[i] != Map((f: TargetFact) => f.identity, facts)[i];
        return false;
      }
    }
    return true;
  }

  method StillSameNodes(nodes: NodeReading, targets: seq<string>, facts: seq<TargetFact>) returns (same: bool)
    ensures same <==> SameNodes(nodes, targets, facts)
    ensures same ==> |targets| == |facts|
  {
    if nodes.None? { return false; }
    var resolved := ResolveNodeActionTargets(nodes.value, targets);
    if resolved.None? || Targets(resolved.value) != targets { return false; }
    same := SameIdentities(resolved.value, facts);
    assert same ==> |resolved.value| == |facts|;
  }

  ghost predicate PreviewFailedLast(t: seq<Call>, plan: PreparedConfiguration) {
    var last := |t| - 1;
    0 <= last < |plan.targets| && last < |plan.facts| && t[last].Preview? &&
    !(GoodPreview(t[last].previewed, plan.mode) && t[last].previewed.fingerprint == plan.facts[last].fingerprint)
  }

  /** Every error has its cause. */
  ghost predicate Explained(
    error: Error, t: seq<Call>, plan: PreparedConfiguration, data: seq<bv8>, digest: seq<bv8> -> string,
    nodes: NodeReading, expired: bool, capable: bool, ended: bool)
  {
    var n, last := |plan.targets|, |t| - 1;
    match error
    case NotAdmitted(_) => false
    case CapabilityUnavailable => !expired && !capable
    case ContextEnded => ended
    case AssessmentChanged =>
      || expired || digest(data) != plan.payloadDigest || !SameNodes(nodes, plan.targets, plan.facts)
      || PreviewFailedLast(t, plan)
    case ApplyUnconfirmed => last >= n && t[last].Apply? && !GoodApply(t[last].applied, plan.mode)
  }

  method Clear(a: array<bv8>)
    modifies a
    ensures forall i :: 0 <= i < a.Length ==> a[i] == 0
  {
    for i := 0 to a.Length
      invariant forall j :: 0 <= j < i ==> a[j] == 0
    {
      a[i] := 0;
    }
  }

  class PreparedConfiguration {
    const state: PreparedState
    const data: array<bv8>
    const targets: seq<string>
    const mode: Mode
    const facts: seq<TargetFact>
    const payloadDigest: string

    constructor (state: PreparedState, data: array<bv8>, targets: seq<string>, mode: Mode, facts: seq<TargetFact>,
        payloadDigest: string)
      ensures this.state == state && this.data == data && this.targets == targets && this.mode == mode
      ensures this.facts == facts && this.payloadDigest == payloadDigest
    {
      this.state, this.data, this.targets, this.mode, this.facts, this.payloadDigest :=
        state, data, targets, mode, facts, payloadDigest;
    }
  }

  class ConfigurationBackend {
    /** sha256.Sum256. */
    const digest: seq<bv8> -> string
    var trace: seq<Call>
    /** What the caller was told about, in order. */
    var reported: seq<TargetResult>
    const context: OperationContext

    constructor (digest: seq<bv8> -> string)
      ensures this.digest == digest && trace == [] && reported == [] && fresh(context) && !context.ended
    {
      this.digest, trace, reported := digest, [], [];
      context := new OperationContext();
    }

    method PreviewTarget(target: string, data: seq<bv8>, mode: Mode) returns (reply: PreviewReply)
      modifies this`trace
      ensures trace == old(trace) + [Preview(target, data, mode, reply)]
    {
      reply := *;
      trace := trace + [Preview(target, data, mode, reply)];
    }

    method ApplyTarget(target: string, data: seq<bv8>, mode: Mode) returns (reply: ApplyReply)
      modifies this`trace
      ensures trace == old(trace) + [Apply(target, data, mode, reply)]
    {
      reply := *;
      trace := trace + [Apply(target, data, mode, reply)];
    }

    /** Appending to the result and calling onTarget. */
    method Report(results: seq<TargetResult>, entry: TargetResult) returns (more: seq<TargetResult>)
      modifies this`reported
      ensures more == results + [entry] && reported == old(reported) + [entry]
    {
      reported := reported + [entry];
      more := results + [entry];
    }

    /** Every target's preview must be what it was when the plan was prepared. */
    method PreviewAgain(plan: PreparedConfiguration) returns (error: Option<Error>)
      requires trace == [] && |plan.targets| == |plan.facts|
      modifies this`trace, context
      ensures |trace| <= |plan.targets| && Previews(trace, |trace|, plan.targets, plan.data[..], plan.mode)
      ensures error.None? ==> |trace| == |plan.targets| && Reverified(trace, |trace|, plan.facts, plan.mode)
      ensures error.Some? ==>
        (error.value.ContextEnded? && context.ended) ||
        (error.value.AssessmentChanged? && PreviewFailedLast(trace, plan))
    {
      for i := 0 to |plan.targets|
        invariant |trace| == i && Previews(trace, i, plan.targets, plan.data[..], plan.mode) &&
          Reverified(trace, i, plan.facts, plan.mode)
      {
        var done := context.Ended();
        if done { return Some(Error.ContextEnded); }
        var reply := PreviewTarget(plan.targets[i], plan.data[..], plan.mode);
        if !GoodPreview(reply, plan.mode) || reply.fingerprint != plan.facts[i].fingerprint {
          return Some(AssessmentChanged);
        }
      }
      return None;
    }

    /** Everything that is checked before the first target is changed. */
    method Recheck(plan: PreparedConfiguration, nodes: NodeReading, expired: bool, capable: bool)
      returns (error: Option<Error>)
      requires trace == []
      modifies this`trace, context
      ensures |trace| <= |plan.targets| && Previews(trace, |trace|, plan.targets, plan.data[..], plan.mode)
      ensures error.None? ==>
        |trace| == |plan.targets| == |plan.facts| && Reverified(trace, |trace|, plan.facts, plan.mode)
      ensures error.Some? ==>
        Explained(error.value, trace, plan, plan.data[..], digest, nodes, expired, capable, context.ended)
      ensures error.None? ==>
        !expired && digest(plan.data[..]) == plan.payloadDigest && SameNodes(nodes, plan.targets, plan.facts)
    {
      if expired { return Some(AssessmentChanged); }
      if !capable { return Some(CapabilityUnavailable); }
      if digest(plan.data[..]) != plan.payloadDigest { return Some(AssessmentChanged); }
      var same := StillSameNodes(nodes, plan.targets, plan.facts);
      if !same { return Some(AssessmentChanged); }
      error := PreviewAgain(plan);
    }

    /** The remaining targets were not attempted. */
    method ReportNotAttempted(results: seq<TargetResult>, plan: PreparedConfiguration, ghost calls: seq<Call>)
      returns (all: seq<TargetResult>)
      requires Ledger(calls, plan.targets, results, plan.mode) && reported == results && |calls| <= |results|
      modifies this`reported
      ensures Ledger(calls, plan.targets, all, plan.mode) && |all| == |plan.targets| && reported == all &&
        results <= all
    {
      all := results;
      for i := |results| to |plan.targets|
        invariant |all| == i && Ledger(calls, plan.targets, all, plan.mode) && reported == all && results <= all
      {
        all := Report(all, TargetResult(plan.targets[i], NotAttempted));
      }
    }

    /** The sequential apply. */
    method ApplyAll(plan: PreparedConfiguration)
      returns (results: seq<TargetResult>, error: Option<Error>, ghost calls: seq<Call>)
      requires reported == []
      modifies this, context
      ensures trace == old(trace) + calls && Applies(calls, plan.targets, plan.data[..], plan.mode)
      ensures Ledger(calls, plan.targets, results, plan.mode) && |results| == |plan.targets| && reported == results
      ensures error.None? <==> AllConfirmed(results)
      ensures error.Some? ==>
        (error.value.ContextEnded? && context.ended) ||
        (error.value.ApplyUnconfirmed? && calls != [] && calls[|calls| - 1].Apply? &&
          !GoodApply(calls[|calls| - 1].applied, plan.mode))
    {
      results, calls := [], [];
      for i := 0 to |plan.targets|
        invariant trace == old(trace) + calls && |calls| == i && |results| == i && reported == results
        invariant Applies(calls, plan.targets, plan.data[..], plan.mode)
        invariant forall j :: 0 <= j < i ==> calls[j].Apply? && GoodApply(calls[j].applied, plan.mode)
        invariant Ledger(calls, plan.targets, results, plan.mode)
      {
        var done := context.Ended();
        if done {
          results := ReportNotAttempted(results, plan, calls);
          assert results[i].outcome == NotAttempted;
          return results, Some(Error.ContextEnded), calls;
        }
        var reply := ApplyTarget(plan.targets[i], plan.data[..], plan.mode);
        LedgerSnoc(calls, plan.targets, results, plan.mode, Apply(plan.targets[i], plan.data[..], plan.mode, reply));
        calls := calls + [Apply(plan.targets[i], plan.data[..], plan.mode, reply)];
        if !GoodApply(reply, plan.mode) {
          results := Report(results, TargetResult(plan.targets[i], Unconfirmed));
          assert results[i].outcome == Unconfirmed;
          results := ReportNotAttempted(results, plan, calls);
          return results, Some(ApplyUnconfirmed), calls;
        }
        results := Report(results, TargetResult(plan.targets[i], if plan.mode.Staging? then Staged else Accepted));
      }
      return results, None, calls;
    }

    /** Applying after every preview has been verified again. */
    method ApplyVerified(plan: PreparedConfiguration) returns (results: seq<TargetResult>, error: Option<Error>)
      requires reported == [] && |trace| == |plan.targets| == |plan.facts|
      requires Previews(trace, |trace|, plan.targets, plan.data[..], plan.mode)
      requires Reverified(trace, |trace|, plan.facts, plan.mode)
      modifies this, context
      ensures SafeRun(trace, plan.targets, plan.facts, plan.data[..], plan.mode)
      ensures reported == results && |results| == |plan.targets| <= |trace|
      ensures Ledger(trace[|plan.targets|..], plan.targets, results, plan.mode)
      ensures error.None? <==> AllConfirmed(results)
      ensures error.Some? ==>
        (error.value.ContextEnded? && context.ended) ||
        (error.value.ApplyUnconfirmed? && |trace| > |plan.targets| && trace[|trace| - 1].Apply? &&
          !GoodApply(trace[|trace| - 1].applied, plan.mode))
    {
      ghost var previews := trace;
      ghost var calls;
      results, error, calls := ApplyAll(plan);
      assert trace[|plan.targets|..] == calls;
      ApplyIsSafe(previews, calls, plan.targets, plan.facts, plan.data[..], plan.mode);
    }

    /** Recheck everything, then apply. */
    method Run(plan: PreparedConfiguration, nodes: NodeReading, expired: bool, capable: bool)
      returns (results: seq<TargetResult>, error: Option<Error>)
      requires trace == [] && reported == []
      modifies this, context
      ensures SafeRun(trace, plan.targets, plan.facts, plan.data[..], plan.mode)
      ensures |trace| > |plan.targets| ==>
        !expired && SameNodes(nodes, plan.targets, plan.facts) && digest(plan.data[..]) == plan.payloadDigest
      ensures reported == results && (results == [] ==> |trace| <= |plan.targets|)
      ensures results != [] ==>
        |results| == |plan.targets| <= |trace| && Ledger(trace[|plan.targets|..], plan.targets, results, plan.mode)
      ensures error.None? <==> results != [] && AllConfirmed(results)
      ensures error.Some? ==>
        Explained(error.value, trace, plan, plan.data[..], digest, nodes, expired, capable, context.ended)
    {
      results := [];
      error := Recheck(plan, nodes, expired, capable);
      if error.Some? { return; }
      results, error := ApplyVerified(plan);
    }
  }

  lemma ApplyIsSafe(
    previews: seq<Call>, calls: seq<Call>, targets: seq<string>, facts: seq<TargetFact>, data: seq<bv8>, mode: Mode)
    requires |previews| == |targets| == |facts|
    requires Previews(previews, |previews|, targets, data, mode) && Reverified(previews, |previews|, facts, mode)
    requires Applies(calls, targets, data, mode)
    ensures SafeRun(previews + calls, targets, facts, data, mode)
  {
    var t := previews + calls;
    assert t[..|targets|] == previews && t[|targets|..] == calls;
  }

  lemma LedgerSnoc(calls: seq<Call>, targets: seq<string>, results: seq<TargetResult>, mode: Mode, call: Call)
    requires Ledger(calls, targets, results, mode) && |results| == |calls| < |targets|
    ensures Ledger(calls + [call], targets,
      results + [TargetResult(targets[|calls|], OutcomeAt(calls + [call], |calls|, mode))], mode)
    ensures OutcomeAt(calls + [call], |calls|, mode) == OutcomeAt([call], 0, mode)
  {
  }

  /** ExecuteConfiguration. Whatever happens after admission, the lease is released exactly once
      and the payload is cleared. */
  method ExecuteConfiguration(
    session: Session, plan: PreparedConfiguration, confirmation: A.Confirmation, backend: ConfigurationBackend,
    nodes: NodeReading, expired: bool, capable: bool)
    returns (results: seq<TargetResult>, error: Option<Error>, ghost lease: Lease?)
    requires backend.trace == [] && backend.reported == []
    modifies session`mutationBusy, plan.state`consumed, session.registry, backend, backend.context, plan.data
    ensures var refusal :=
      old(A.Refusal(session.State(), session.id, plan.state.State(), confirmation, session.registry.State()));
      if refusal.Some?
      then error == Some(NotAdmitted(refusal.value)) && lease == null && backend.trace == [] && results == [] &&
           session.registry.State() == old(session.registry.State()) && plan.data[..] == old(plan.data[..])
      else lease != null && fresh(lease) && lease.releases == 1 && plan.state.consumed &&
           session.registry.State() ==
             A.Released(A.Acquired(old(session.registry.State()), session.clusterUID), session.clusterUID) &&
           forall i :: 0 <= i < plan.data.Length ==> plan.data[i] == 0
    ensures session.State() == old(session.State())
    ensures SafeRun(backend.trace, plan.targets, plan.facts, old(plan.data[..]), plan.mode)
    ensures |backend.trace| > |plan.targets| ==>
      !expired && SameNodes(nodes, plan.targets, plan.facts) && backend.digest(old(plan.data[..])) == plan.payloadDigest
    ensures backend.reported == results && (results == [] ==> |backend.trace| <= |plan.targets|)
    ensures results != [] ==>
      |results| == |plan.targets| <= |backend.trace| &&
      Ledger(backend.trace[|plan.targets|..], plan.targets, results, plan.mode)
    ensures error.None? <==>
      results != [] && forall i :: 0 <= i < |results| ==> results[i].outcome in {Accepted, Staged}
    ensures error.Some? && !error.value.NotAdmitted? ==>
      Explained(error.value, backend.trace, plan, old(plan.data[..]), backend.digest, nodes, expired, capable,
        backend.context.ended)
  {
    results := [];
    var refused, held := session.Admit(plan.state, confirmation);
    lease := held;
    if refused.Some? { return [], Some(NotAdmitted(refused.value)), lease; }
    results, error := backend.Run(plan, nodes, expired, capable);
    Clear(plan.data);
    held.Release();
  }

  /** DiscardConfiguration, with the payload: both go, or the plan is not this session's to discard
      (any more) and nothing changes. */
  method DiscardConfiguration(session: Session, plan: PreparedConfiguration)
    modifies plan.state`request, plan.data
    ensures if old(plan.state.session == session.id && !plan.state.consumed && plan.state.request.Configuration?)
      then plan.state.State() == old(plan.state.State()).(request := A.NoRequest) &&
        forall i :: 0 <= i < plan.data.Length ==> plan.data[i] == 0
      else plan.state.State() == old(plan.state.State()) && plan.data[..] == old(plan.data[..])
  {
    if plan.state.session != session.id || plan.state.consumed || !plan.state.request.Configuration? { return; }
    Clear(plan.data);
    session.DiscardConfiguration(plan.state);
  }

  // ---- What the results mean --------------------------------------------------------------------

  function HasOutcome(o: Outcome): TargetResult -> bool { (r: TargetResult) => r.outcome == o }

  /** The results of an apply that began are a confirmed prefix, at most one unconfirmed target,
      and then targets that were not attempted; Apply was called exactly for the first two. */
  lemma ResultsInOrder(calls: seq<Call>, targets: seq<string>, results: seq<TargetResult>, data: seq<bv8>, mode: Mode)
    requires Applies(calls, targets, data, mode) && Ledger(calls, targets, results, mode) && |results| == |targets|
    ensures Map((r: TargetResult) => r.target, results) == targets
    ensures var confirmed := if mode.Staging? then Staged else Accepted; var last := |calls| - 1;
      && (forall i :: 0 <= i < last ==> results[i].outcome == confirmed)
      && (last >= 0 ==> results[last].outcome in {confirmed, Unconfirmed})
      && (forall i :: last < i < |results| ==> results[i].outcome == NotAttempted)
    ensures Count(HasOutcome(Unconfirmed), results) <= 1
  {
    AtMostOne(HasOutcome(Unconfirmed), results, |calls| - 1);
  }

  /** Targets that pass the check name different nodes, so no node is changed twice in a run. */
  lemma NoTargetTwice(nodes: NodeReading, targets: seq<string>, facts: seq<TargetFact>)
    requires SameNodes(nodes, targets, facts)
    ensures forall i, j ::
      0 <= i < j < |targets| ==> Resolve(nodes.value, targets[i]) != Resolve(nodes.value, targets[j])
  {
    ResolvedNodesFrom(nodes.value, targets);
    forall i, j | 0 <= i < j < |targets| ensures Resolve(nodes.value, targets[i]) != Resolve(nodes.value, targets[j]) {
      assert targets[i] in targets && targets[j] in targets;
      CanonicalTarget(nodes.value, targets, i);
      CanonicalTarget(nodes.value, targets, j);
    }
  }

  lemma CanonicalTarget(nodes: seq<Node>, targets: seq<string>, i: nat)
    requires i < |targets| && Targets(ResolvedNodes(nodes, targets)) == targets
    ensures |ResolvedNodes(nodes, targets)| == |targets|
    ensures Resolve(nodes, targets[i]) == Some(ResolvedNodes(nodes, targets)[i])
    ensures Target(Resolve(nodes, targets[i]).value) == targets[i]
  {
    var resolved := ResolvedNodes(nodes, targets);
    ResolvedNodesFrom(nodes, targets);
    assert resolved[i] in resolved && Target(resolved[i]) == targets[i];
    var identity :| identity in targets && Resolve(nodes, identity) == Some(resolved[i]);
    ResolveIdempotent(nodes, identity);
  }

  lemma {:induction false} AtMostOne<T>(p: T -> bool, s: seq<T>, at: int)
    requires forall i :: 0 <= i < |s| && p(s[i]) ==> i == at
    ensures Count(p, s) <= 1
    ensures at >= |s| || at < 0 ==> Count(p, s) == 0
  {
    if s == [] {
    } else {
      AtMostOne(p, s[..|s| - 1], at);
    }
  }

  // ---- Preparing -----------------------------------------------------------------------------------

  /** Facts of the targets whose preview succeeded; anything else blocks the plan. */
  method PreviewTargets(resolved: seq<Node>, data: seq<bv8>, mode: Mode, backend: ConfigurationBackend)
    returns (facts: seq<TargetFact>, blocked: bool)
    requires backend.trace == []
    modifies backend
    ensures Previews(backend.trace, |backend.trace|, Targets(resolved), data, mode) && |backend.trace| == |resolved|
    ensures !blocked ==> Map((f: TargetFact) => f.identity, facts) == Map(IdentityOf(), resolved)
    ensures !blocked ==> Reverified(backend.trace, |resolved|, facts, mode)
    ensures blocked <==>
      exists i ::
        0 <= i < |resolved| &&
        var reply := backend.trace[i].previewed;
        reply.PreviewFailed? || reply.mode != if mode.Auto? then NoReboot else mode
    ensures !blocked ==> |facts| == |resolved| && forall i :: 0 <= i < |facts| ==>
      var n, known := resolved[i], facts[i].identity;
      && known.id == n.id && known.name == n.name && known.role == n.role
      && known.target == (if n.name != "" then n.name else if n.addresses != [] then n.addresses[0] else "")
      && facts[i].fingerprint == backend.trace[i].previewed.fingerprint
  {
    facts, blocked := [], false;
    for i := 0 to |resolved|
      invariant |backend.trace| == i && Previews(backend.trace, i, Targets(resolved), data, mode)
      invariant blocked <==> exists j :: 0 <= j < i && !GoodPreview(backend.trace[j].previewed, mode)
      invariant !blocked ==> |facts| == i && Reverified(backend.trace, i, facts, mode)
      invariant !blocked ==> forall j :: 0 <= j < i ==> facts[j].identity == IdentityOf()(resolved[j])
    {
      var reply := backend.PreviewTarget(Target(resolved[i]), data, mode);
      assert backend.trace[i].previewed == reply;
      if !GoodPreview(reply, mode) {
        blocked := true;
        continue;
      }
      facts := facts + [TargetFact(IdentityOf()(resolved[i]), reply.fingerprint)];
    }
  }

  /** If the nodes do not change between preparing and executing, they pass the identity check. */
  lemma UnchangedNodesPass(nodes: seq<Node>, requested: seq<string>, facts: seq<TargetFact>)
    requires AllResolve(nodes, requested) && requested != []
    requires Map((f: TargetFact) => f.identity, facts) == Map(IdentityOf(), ResolvedNodes(nodes, requested))
    ensures SameNodes(Some(nodes), Targets(ResolvedNodes(nodes, requested)), facts)
  {
    var resolved := ResolvedNodes(nodes, requested);
    assert requested[0] in requested;
    NoNodeLost(nodes, requested, requested[0]);
    ResolvedAgain(nodes, requested);
    ResolvedNodesFrom(nodes, requested);
    forall target | target in Targets(resolved)
      ensures Resolve(nodes, target).Some? && KnownRole(Resolve(nodes, target).value.role)
    {
      var k :| 0 <= k < |resolved| && Targets(resolved)[k] == target;
      assert resolved[k] in resolved;
      var identity :| identity in requested && Resolve(nodes, identity) == Some(resolved[k]);
      ResolveIdempotent(nodes, identity);
    }
  }

  // ---- Over the fields ---------------------------------------------------------------------------

  /** Executing needs the same machines: by ID, name, canonical target and role, and all different. */
  lemma SameNodesMean(nodes: NodeReading, targets: seq<string>, facts: seq<TargetFact>)
    ensures SameNodes(nodes, targets, facts) <==>
      && nodes.Some? && targets != [] && |facts| == |targets|
      && (forall i, j :: 0 <= i < j < |targets| ==> targets[i] != targets[j])
      && forall i :: 0 <= i < |targets| ==>
           Resolve(nodes.value, targets[i]).Some? &&
           var n, known := Resolve(nodes.value, targets[i]).value, facts[i].identity;
           && n.id == known.id && n.name == known.name && n.role == known.role && n.role in {ControlRole, WorkerRole}
           && known.target == targets[i] ==
              if n.name != "" then n.name else if n.addresses != [] then n.addresses[0] else ""
  {
    if SameNodes(nodes, targets, facts) {
      SameNodesResolve(nodes.value, targets, facts);
    } else if
      && nodes.Some? && targets != [] && |facts| == |targets|
      && (forall i, j :: 0 <= i < j < |targets| ==> targets[i] != targets[j])
      && forall i :: 0 <= i < |targets| ==> SameNode(nodes.value, targets[i], facts[i].identity)
    {
      ResolvedSame(nodes.value, targets, facts);
    }
  }

  /** The target is the canonical one of a node of known role with this identity. */
  ghost predicate SameNode(nodes: seq<Node>, target: string, known: Identity) {
    && Resolve(nodes, target).Some? && KnownRole(Resolve(nodes, target).value.role) && known.target == target
    && IdentityOf()(Resolve(nodes, target).value) == known
  }

  lemma SameNodesResolve(nodes: seq<Node>, targets: seq<string>, facts: seq<TargetFact>)
    requires SameNodes(Some(nodes), targets, facts)
    ensures |facts| == |targets| && Distinct(targets)
    ensures forall i :: 0 <= i < |targets| ==> SameNode(nodes, targets[i], facts[i].identity)
  {
    var resolved := ResolvedNodes(nodes, targets);
    ResolvedNodesFrom(nodes, targets);
    assert |Map(IdentityOf(), resolved)| == |Map((f: TargetFact) => f.identity, facts)|;
    forall i | 0 <= i < |targets| ensures SameNode(nodes, targets[i], facts[i].identity) {
      CanonicalTarget(nodes, targets, i);
      assert Map(IdentityOf(), resolved)[i] == Map((f: TargetFact) => f.identity, facts)[i];
      assert targets[i] in targets;
    }
  }

  lemma ResolvedSame(nodes: seq<Node>, targets: seq<string>, facts: seq<TargetFact>)
    requires targets != [] && |facts| == |targets| && Distinct(targets)
    requires forall i :: 0 <= i < |targets| ==> SameNode(nodes, targets[i], facts[i].identity)
    ensures SameNodes(Some(nodes), targets, facts)
  {
    var resolved := seq(|targets|, i requires 0 <= i < |targets| => Resolve(nodes, targets[i]).value);
    assert Targets(resolved) == targets;
    CanonicalAgain(nodes, resolved);
    assert Map(IdentityOf(), resolved) == Map((f: TargetFact) => f.identity, facts);
  }

  /** Before anything is changed, every target answered the preview of this payload as when the plan
      was prepared, and in the mode that was asked for: a request without a reboot is what an automatic
      one must come to. Then this payload is applied in this mode, and as long as the answers are so. */
  lemma AppliedMeans(t: seq<Call>, targets: seq<string>, facts: seq<TargetFact>, data: seq<bv8>, mode: Mode)
    requires SafeRun(t, targets, facts, data, mode) && |t| > |targets|
    ensures |facts| >= |targets| && |t| <= 2 * |targets|
    ensures var answer := if mode.Auto? then NoReboot else mode;
      && (forall i :: 0 <= i < |targets| ==>
           t[i] == Preview(targets[i], data, mode, Previewed(answer, facts[i].fingerprint)))
      && (forall k :: |targets| <= k < |t| ==>
           t[k].Apply? && t[k].target == targets[k - |targets|] && t[k].data == data && t[k].requested == mode)
      && (forall k :: |targets| <= k < |t| - 1 ==> t[k].applied == AppliedAs(answer))
  {
  }

  /** What a target came to is what the call for it answered. */
  lemma OutcomesMean(calls: seq<Call>, targets: seq<string>, results: seq<TargetResult>, data: seq<bv8>, mode: Mode)
    requires Applies(calls, targets, data, mode) && Ledger(calls, targets, results, mode) && |results| == |targets|
    ensures var answer := if mode.Auto? then NoReboot else mode;
      forall i :: 0 <= i < |results| ==>
        && results[i].target == targets[i]
        && (results[i].outcome == NotAttempted <==> i >= |calls|)
        && (results[i].outcome == Unconfirmed <==> i < |calls| && calls[i].applied != AppliedAs(answer))
        && (results[i].outcome == Staged <==>
             mode == Staging && i < |calls| && calls[i].applied == AppliedAs(Staging))
        && (results[i].outcome == Accepted <==>
             mode != Staging && i < |calls| && calls[i].applied == AppliedAs(answer))
  {
  }
}
