/** Quorum arithmetic and the membership, reset and ordinary gates over it
    (internal/application/action_policy.go). */
module EtcdQuorum {
  import opened Roles
  import opened Sequences
  import opened NodeTargets
  import Text

  /** Client and peer URLs are given by the host names they parse to. */
  datatype Member = Member(
    hostname: string, memberID: nat, isLearner: bool, isLeader: bool, statusKnown: bool, hasErrors: bool,
    hasAlarms: bool,
    clientHosts: seq<string>, peerHosts: seq<string>)

  datatype EtcdFacts = EtcdFacts(available: bool, members: seq<Member>)

  datatype Quorum =
    | QuorumUnavailable
    | MembershipUnknown
    | Quorum(voters: int, remaining: int, confirmedRemaining: int, floor: int)

  // ---- Members ---------------------------------------------------------------------------

  predicate Names(m: Member, target: string) {
    target != "" && (m.hostname == target || (m.memberID != 0 && Text.Decimal(m.memberID) == target) ||
                     target in m.clientHosts || target in m.peerHosts)
  }

  /** memberMatchesAnyTarget. */
  predicate AtRisk(m: Member, targets: seq<string>) {
    exists i :: 0 <= i < |targets| && Names(m, targets[i])
  }

  predicate Healthy(m: Member) { m.statusKnown && !m.hasErrors }

  predicate Voter(m: Member) { !m.isLearner }

  /** A voter that no target touches and that is known to be healthy. */
  function Survivor(targets: seq<string>): Member -> bool {
    m => Voter(m) && !AtRisk(m, targets) && Healthy(m)
  }

  /** A voter that no target touches and that is not known to be unhealthy. */
  function PossibleSurvivor(targets: seq<string>): Member -> bool {
    m => Voter(m) && !AtRisk(m, targets) && !(m.statusKnown && m.hasErrors)
  }

  function HealthyVoter(): Member -> bool { m => Voter(m) && Healthy(m) }

  function IsVoter(): Member -> bool { m => Voter(m) }

  /** What assessEtcdQuorumFacts reports, by counting the voters that survive. */
  function QuorumOf(etcd: EtcdFacts, targets: seq<string>): Quorum {
    var voters := Count(IsVoter(), etcd.members);
    if !etcd.available then QuorumUnavailable
    else if voters == 0 then MembershipUnknown
    else Quorum(voters, Count(Survivor(targets), etcd.members), Count(PossibleSurvivor(targets), etcd.members),
      voters / 2 + 1)
  }

  predicate BelowQuorum(q: Quorum) { q.Quorum? && q.remaining < q.floor }

  predicate CertainlyBelowQuorum(q: Quorum) { q.Quorum? && q.confirmedRemaining < q.floor }

  method MatchesAnyTarget(m: Member, targets: seq<string>) returns (matches: bool)
    ensures matches <==> AtRisk(m, targets)
  {
    for i := 0 to |targets|
      invariant forall j :: 0 <= j < i ==> !Names(m, targets[j])
    {
      if Names(m, targets[i]) { return true; }
    }
    return false;
  }

  lemma CountSnoc<T>(p: T -> bool, s: seq<T>, i: nat)
    requires i < |s|
    ensures Count(p, s[..i + 1]) == Count(p, s[..i]) + if p(s[i]) then 1 else 0
  {
    assert s[..i + 1][..i] == s[..i];
  }

  /** assessEtcdQuorumFacts: what is lost is counted down from the voters. */
  method AssessEtcdQuorum(etcd: EtcdFacts, targets: seq<string>) returns (q: Quorum)
    ensures q == QuorumOf(etcd, targets)
  {
    if !etcd.available { return QuorumUnavailable; }
    var voters := 0;
    for i := 0 to |etcd.members|
      invariant voters == Count(IsVoter(), etcd.members[..i])
    {
      CountSnoc(IsVoter(), etcd.members, i);
      if !etcd.members[i].isLearner { voters := voters + 1; }
    }
    assert etcd.members[..|etcd.members|] == etcd.members;
    if voters == 0 { return MembershipUnknown; }
    var atRisk, unhealthy, unknown := 0, 0, 0;
    for i := 0 to |etcd.members|
      invariant Count(IsVoter(), etcd.members[..i]) ==
        Count(Survivor(targets), etcd.members[..i]) + atRisk + unhealthy + unknown
      invariant Count(IsVoter(), etcd.members[..i]) ==
        Count(PossibleSurvivor(targets), etcd.members[..i]) + atRisk + unhealthy
    {
      var member := etcd.members[i];
      CountSnoc(IsVoter(), etcd.members, i);
      CountSnoc(Survivor(targets), etcd.members, i);
      CountSnoc(PossibleSurvivor(targets), etcd.members, i);
      if member.isLearner { continue; }
      var matches := MatchesAnyTarget(member, targets);
      if matches {
        atRisk := atRisk + 1;
        continue;
      }
      if !member.statusKnown {
        unknown := unknown + 1;
      } else if member.hasErrors {
        unhealthy := unhealthy + 1;
      }
    }
    return Quorum(voters, voters - atRisk - unhealthy - unknown, voters - atRisk - unhealthy, voters / 2 + 1);
  }

  // ---- Order and monotonicity ----------------------------------------------------------------

  lemma QuorumOrdered(etcd: EtcdFacts, targets: seq<string>)
    requires QuorumOf(etcd, targets).Quorum?
    ensures var q := QuorumOf(etcd, targets);
      0 <= q.remaining <= q.confirmedRemaining <= q.voters && q.floor <= q.voters && 2 * q.floor > q.voters
  {
    CountMonotone(Survivor(targets), PossibleSurvivor(targets), etcd.members);
    CountMonotone(PossibleSurvivor(targets), IsVoter(), etcd.members);
  }

  /** Adding targets never raises what remains. */
  lemma QuorumMonotone(etcd: EtcdFacts, fewer: seq<string>, more: seq<string>)
    requires forall t :: t in fewer ==> t in more
    requires QuorumOf(etcd, fewer).Quorum?
    ensures var q, q' := QuorumOf(etcd, fewer), QuorumOf(etcd, more);
      q'.Quorum? && q'.voters == q.voters && q'.remaining <= q.remaining &&
      q'.confirmedRemaining <= q.confirmedRemaining
  {
    forall m | AtRisk(m, fewer) ensures AtRisk(m, more) {
      var i :| 0 <= i < |fewer| && Names(m, fewer[i]);
      assert fewer[i] in more;
      var j :| 0 <= j < |more| && more[j] == fewer[i];
      assert Names(m, more[j]);
    }
    CountMonotone(Survivor(more), Survivor(fewer), etcd.members);
    CountMonotone(PossibleSurvivor(more), PossibleSurvivor(fewer), etcd.members);
  }

  // ---- Gates on node actions ------------------------------------------------------------------

  /** The node a target names, as the gates look it up: the first with that canonical target. */
  ghost predicate NamesControlPlane(nodes: seq<Node>, target: string) {
    exists i :: 0 <= i < |nodes| && Target(nodes[i]) == target && nodes[i].role.ControlRole? &&
      forall j :: 0 <= j < i ==> Target(nodes[j]) != target
  }

  ghost predicate IncludesControlPlane(nodes: seq<Node>, targets: seq<string>) {
    exists k :: 0 <= k < |targets| && NamesControlPlane(nodes, targets[k])
  }

  /** targetsIncludeControlPlane. */
  method TargetsIncludeControlPlane(nodes: seq<Node>, targets: seq<string>) returns (included: bool)
    ensures included <==> IncludesControlPlane(nodes, targets)
  {
    for k := 0 to |targets|
      invariant forall m :: 0 <= m < k ==> !NamesControlPlane(nodes, targets[m])
    {
      var i := 0;
      while i < |nodes| && Target(nodes[i]) != targets[k]
        invariant i <= |nodes| && forall j :: 0 <= j < i ==> Target(nodes[j]) != targets[k]
      {
        i := i + 1;
      }
      if i < |nodes| && nodes[i].role == ControlRole {
        assert NamesControlPlane(nodes, targets[k]);
        return true;
      }
    }
    return false;
  }

  datatype Gate = Allowed | Refused(reason: Refusal)

  datatype Refusal =
    | EtcdUnknown | NotAMember | StillHealthy | Unidentified | ImpactUnknown
    | WouldDrop(left: int, voters: int, floor: int)

  /** etcdQuorumBlockReasonFacts, the ordinary gate: only a certain loss is refused. */
  function OrdinaryGate(etcd: EtcdFacts, targets: seq<string>): Gate {
    var q := QuorumOf(etcd, targets);
    if CertainlyBelowQuorum(q) then Refused(WouldDrop(q.confirmedRemaining, q.voters, q.floor)) else Allowed
  }

  /** resetQuorumBlockReasonFacts: an unknown impact and a possible loss are refused too. */
  ghost function ResetGate(nodes: seq<Node>, etcd: EtcdFacts, targets: seq<string>): Gate {
    var q := QuorumOf(etcd, targets);
    if !IncludesControlPlane(nodes, targets) then Allowed
    else if q.QuorumUnavailable? then Refused(EtcdUnknown)
    else if q.MembershipUnknown? then Refused(ImpactUnknown)
    else if BelowQuorum(q) then Refused(WouldDrop(q.remaining, q.voters, q.floor))
    else Allowed
  }

  /** What the ordinary gate refuses for control-plane targets, the reset gate refuses. */
  lemma ResetGateStricter(nodes: seq<Node>, etcd: EtcdFacts, targets: seq<string>)
    requires IncludesControlPlane(nodes, targets) && OrdinaryGate(etcd, targets).Refused?
    ensures ResetGate(nodes, etcd, targets).Refused?
  {
    QuorumOrdered(etcd, targets);
  }

  /** And either gate that refuses some targets refuses every larger set of them. */
  lemma GatesMonotone(nodes: seq<Node>, etcd: EtcdFacts, fewer: seq<string>, more: seq<string>)
    requires forall t :: t in fewer ==> t in more
    ensures OrdinaryGate(etcd, fewer).Refused? ==> OrdinaryGate(etcd, more).Refused?
    ensures ResetGate(nodes, etcd, fewer).Refused? ==> ResetGate(nodes, etcd, more).Refused?
  {
    if QuorumOf(etcd, fewer).Quorum? { QuorumMonotone(etcd, fewer, more); }
    if IncludesControlPlane(nodes, fewer) {
      var k :| 0 <= k < |fewer| && NamesControlPlane(nodes, fewer[k]);
      assert fewer[k] in more;
      var j :| 0 <= j < |more| && more[j] == fewer[k];
      assert NamesControlPlane(nodes, more[j]);
    }
  }

  // ---- Over the fields -------------------------------------------------------------------------------

  /** One of the targets is the member's hostname, its ID in decimal, or a host of its URLs. */
  predicate Touched(m: Member, targets: seq<string>) {
    exists t :: t in targets && t != "" &&
      (t == m.hostname || (m.memberID > 0 && t == Text.Decimal(m.memberID)) || t in m.clientHosts || t in m.peerHosts)
  }

  function Voting(): Member -> bool { (m: Member) => !m.isLearner }

  function SoundVoting(targets: seq<string>): Member -> bool {
    (m: Member) => !m.isLearner && m.statusKnown && !m.hasErrors && !Touched(m, targets)
  }

  function PossiblySoundVoting(targets: seq<string>): Member -> bool {
    (m: Member) => !m.isLearner && (!m.statusKnown || !m.hasErrors) && !Touched(m, targets)
  }

  lemma TouchedMeans(m: Member, targets: seq<string>)
    ensures AtRisk(m, targets) <==> Touched(m, targets)
  {
    if AtRisk(m, targets) {
      var i :| 0 <= i < |targets| && Names(m, targets[i]);
      assert targets[i] in targets;
    }
  }

  /** What an assessment reports. */
  lemma QuorumMeans(etcd: EtcdFacts, targets: seq<string>)
    ensures var q, voters := QuorumOf(etcd, targets), Count(Voting(), etcd.members);
      && (q == QuorumUnavailable <==> !etcd.available)
      && (etcd.available && voters == 0 ==> q == MembershipUnknown)
      && (etcd.available && voters > 0 ==>
            q == Quorum(voters, Count(SoundVoting(targets), etcd.members),
              Count(PossiblySoundVoting(targets), etcd.members), voters / 2 + 1))
  {
    forall m | m in etcd.members ensures AtRisk(m, targets) <==> Touched(m, targets) { TouchedMeans(m, targets); }
    CountSame(IsVoter(), Voting(), etcd.members);
    CountSame(Survivor(targets), SoundVoting(targets), etcd.members);
    CountSame(PossibleSurvivor(targets), PossiblySoundVoting(targets), etcd.members);
  }

  /** A reboot, shutdown, rollback or upgrade is refused exactly when at most half of the voters can
      remain; a reset of a control-plane node when no more than half are known to remain, or nothing is
      known about the voters. */
  lemma NodeGatesMean(nodes: seq<Node>, etcd: EtcdFacts, targets: seq<string>)
    ensures var voters, left := Count(Voting(), etcd.members), Count(PossiblySoundVoting(targets), etcd.members);
      OrdinaryGate(etcd, targets) ==
      if etcd.available && voters > 0 && 2 * left <= voters then Refused(WouldDrop(left, voters, voters / 2 + 1))
      else Allowed
    ensures var voters, left := Count(Voting(), etcd.members), Count(SoundVoting(targets), etcd.members);
      ResetGate(nodes, etcd, targets) ==
      if !IncludesControlPlane(nodes, targets) then Allowed
      else if !etcd.available then Refused(EtcdUnknown)
      else if voters == 0 then Refused(ImpactUnknown)
      else if 2 * left <= voters then Refused(WouldDrop(left, voters, voters / 2 + 1))
      else Allowed
  {
    QuorumMeans(etcd, targets);
    CountMonotone(SoundVoting(targets), Voting(), etcd.members);
  }
}
