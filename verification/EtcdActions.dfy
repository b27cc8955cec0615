/** Preparing etcd maintenance (internal/application/etcd_actions.go): the facts an action rests on,
    and the node that a safety snapshot is taken from. */
module EtcdActions {
  import opened Roles
  import opened Sequences
  import opened NodeTargets
  import opened EtcdQuorum
  import opened EtcdMembership
  import Text

  datatype Request = Request(kind: Kind, node: string, memberID: nat, memberHostname: string, snapshotPath: string)

  datatype Warning =
    | NoWarning | ImpactUnclear(quorum: Quorum) | NoFaultTolerance(left: int, voters: int, floor: int)
    | NoHealthyFollower

  datatype MemberName = MemberName(memberID: nat, hostname: string)

  /** etcdActionFacts; sameEtcdActionFacts is equality of these. */
  datatype Facts = Facts(
    nodeID: string, nodeName: string, nodeTarget: string, nodeRole: NodeRole, member: Option<MemberName>,
    snapshotNode: string, rpcNode: string, warning: Warning, blocked: Option<Refusal>, quorum: Option<Quorum>)

  /** What listing the etcd members answered. */
  datatype Listing = ListFailed | Listed(members: seq<Member>)

  /** One reading of the cluster; a reading fails when the nodes cannot be read or the context ends. */
  datatype Observation = Unobserved | Observed(nodes: seq<Node>, listing: Listing)

  predicate Destructive(kind: Kind) { kind.RemoveMember? || kind.LeaveCluster? }

  predicate ValidatesMember(r: Request) {
    Destructive(r.kind) || r.kind.ForfeitLeadership? ||
    (r.kind.Snapshot? && (r.memberID != 0 || r.memberHostname != ""))
  }

  // ---- Warnings ------------------------------------------------------------------------------

  /** etcdMembershipWarningFacts. */
  ghost function MembershipWarning(etcd: EtcdFacts, memberID: nat, hostname: string): Warning {
    if !etcd.available then NoWarning
    else
      match ResolveMember(etcd.members, memberID, hostname)
      case None => NoWarning
      case Some(m) =>
        if m.isLearner || MembershipTarget(m) == "" then NoWarning
        else
          var q := QuorumOf(etcd, [MembershipTarget(m)]);
          if !q.Quorum? then ImpactUnclear(q)
          else if q.remaining <= q.floor then NoFaultTolerance(q.remaining, q.voters, q.floor)
          else NoWarning
  }

  method WarnOfMembership(etcd: EtcdFacts, memberID: nat, hostname: string) returns (warning: Warning)
    ensures warning == MembershipWarning(etcd, memberID, hostname)
  {
    if !etcd.available { return NoWarning; }
    var member := ResolveEtcdMember(etcd.members, memberID, hostname);
    if member.None? || member.value.isLearner || MembershipTarget(member.value) == "" { return NoWarning; }
    var q := AssessEtcdQuorum(etcd, [MembershipTarget(member.value)]);
    if !q.Quorum? { return ImpactUnclear(q); }
    if q.remaining <= q.floor { return NoFaultTolerance(q.remaining, q.voters, q.floor); }
    return NoWarning;
  }

  predicate Leads(m: Member, hostname: string) { m.hostname == hostname && m.statusKnown && m.isLeader }

  predicate CanFollow(m: Member, hostname: string) { Voter(m) && m.hostname != hostname && Healthy(m) }

  /** etcdLeadershipWarningFacts. */
  function LeadershipWarning(members: seq<Member>, hostname: string): Warning {
    if (exists m :: m in members && Leads(m, hostname)) && (forall m :: m in members ==> !CanFollow(m, hostname))
    then NoHealthyFollower else NoWarning
  }

  method WarnOfLeadership(members: seq<Member>, hostname: string) returns (warning: Warning)
    ensures warning == LeadershipWarning(members, hostname)
    ensures warning in {NoWarning, NoHealthyFollower}
    ensures warning == NoHealthyFollower <==>
      && (exists m :: m in members && m.hostname == hostname && m.statusKnown && m.isLeader)
      && (forall m :: m in members && m.hostname != hostname ==> m.isLearner || !m.statusKnown || m.hasErrors)
  {
    assert forall m :: Leads(m, hostname) <==> m.hostname == hostname && m.statusKnown && m.isLeader;
    assert forall m :: CanFollow(m, hostname) <==>
      !m.isLearner && m.hostname != hostname && m.statusKnown && !m.hasErrors;
    var leads := false;
    for i := 0 to |members|
      invariant leads <==> exists m :: m in members[..i] && Leads(m, hostname)
    {
      assert members[..i + 1] == members[..i] + [members[i]];
      if Leads(members[i], hostname) {
        leads := true;
      }
    }
    assert members[..|members|] == members;
    if !leads { return NoWarning; }
    for i := 0 to |members|
      invariant forall j :: 0 <= j < i ==> !CanFollow(members[j], hostname)
    {
      if CanFollow(members[i], hostname) {
        assert members[i] in members;
        return NoWarning;
      }
    }
    return NoHealthyFollower;
  }

  /** An unwarned, allowed change of a voter keeps a majority even if one more healthy voter is
      lost afterwards. */
  lemma UnwarnedToleratesOneLoss(etcd: EtcdFacts, kind: Kind, memberID: nat, hostname: string, i: nat)
    requires MembershipGate(etcd, kind, memberID, hostname).Allowed? && OnlyMember(etcd.members, memberID, hostname, i)
    requires Voter(etcd.members[i]) && MembershipWarning(etcd, memberID, hostname) == NoWarning
    ensures 2 * (Count(HealthyVoter(), Without(etcd.members, i)) - 1) > Count(IsVoter(), etcd.members)
  {
    ResolvedAt(etcd.members, memberID, hostname, i);
    SurvivorsRemain(etcd, etcd.members[i], i);
  }

  lemma SurvivorsRemain(etcd: EtcdFacts, m: Member, i: nat)
    requires i < |etcd.members| && etcd.members[i] == m && MembershipTarget(m) != ""
    ensures Count(Survivor([MembershipTarget(m)]), etcd.members) <= Count(HealthyVoter(), Without(etcd.members, i))
  {
    var targets := [MembershipTarget(m)];
    BlankIsNotEmptyTarget(m);
    assert Names(m, targets[0]);
    assert AtRisk(m, targets);
    WithoutCounts(etcd.members, i, Survivor(targets));
    CountMonotone(Survivor(targets), HealthyVoter(), Without(etcd.members, i));
  }

  // ---- The snapshot source ----------------------------------------------------------------------

  function FirstWhere<T>(p: T -> bool, s: seq<T>): (r: Option<T>)
    ensures r.None? <==> forall x :: x in s ==> !p(x)
    ensures r.Some? ==>
      p(r.value) && exists i :: 0 <= i < |s| && s[i] == r.value && p(s[i]) && forall j :: 0 <= j < i ==> !p(s[j])
  {
    if s == [] then None
    else if p(s[0]) then Some(s[0])
    else
      assert forall x :: x in s ==> x == s[0] || x in s[1..];
      FirstWhere(p, s[1..])
  }

  lemma {:induction false} FirstAt<T>(p: T -> bool, s: seq<T>, i: nat)
    requires i < |s| && p(s[i]) && forall j :: 0 <= j < i ==> !p(s[j])
    ensures FirstWhere(p, s) == Some(s[i])
  {
  }

  /** A voter known to be healthy, with a hostname, that is not the member being changed. */
  function HealthyOther(memberID: nat, hostname: string): Member -> bool {
    m => Voter(m) && m.hostname != "" && !Identified(m, memberID, hostname) && Healthy(m)
  }

  ghost predicate ControlNode(nodes: seq<Node>, identity: string) {
    Resolve(nodes, identity).Some? && Resolve(nodes, identity).value.role.ControlRole?
  }

  ghost function RoutableOther(nodes: seq<Node>, memberID: nat, hostname: string): Member -> bool {
    m => HealthyOther(memberID, hostname)(m) && ControlNode(nodes, m.hostname)
  }

  function Discoverable(): Node -> bool { (n: Node) => n.role.ControlRole? && Target(n) != "" }

  /** controlPlaneHostnames. */
  function ControlPlaneHostnames(nodes: seq<Node>): seq<string> {
    Map(Target, Filter(Discoverable(), nodes))
  }

  function OtherThan(exclude: string): string -> bool { (h: string) => h != exclude }

  /** firstOtherControlPlaneHostname; the empty string when there is none. */
  function FirstOtherHostname(nodes: seq<Node>, exclude: string): string {
    match FirstWhere(OtherThan(exclude), ControlPlaneHostnames(nodes))
    case Some(h) => h
    case None => ""
  }

  /** Where the safety snapshot comes from. */
  ghost function Source(nodes: seq<Node>, members: seq<Member>, memberID: nat, hostname: string): Option<Node> {
    match FirstWhere(RoutableOther(nodes, memberID, hostname), members)
    case Some(m) => Resolve(nodes, m.hostname)
    case None =>
      var fallback :=
        if FirstWhere(HealthyOther(memberID, hostname), members).None? && ControlNode(nodes, hostname)
        then hostname else FirstOtherHostname(nodes, hostname);
      if ControlNode(nodes, fallback) then Resolve(nodes, fallback) else None
  }

  /** etcdSnapshotNodeForFacts, for members that are available. */
  method SnapshotNodeForFacts(members: seq<Member>, memberID: nat, hostname: string) returns (node: string)
    ensures node ==
      match FirstWhere(HealthyOther(memberID, hostname), members) case Some(m) => m.hostname case None => hostname
  {
    for i := 0 to |members|
      invariant forall j :: 0 <= j < i ==> !HealthyOther(memberID, hostname)(members[j])
    {
      if members[i].isLearner || members[i].hostname == "" || Identified(members[i], memberID, hostname) { continue; }
      if Healthy(members[i]) {
        FirstAt(HealthyOther(memberID, hostname), members, i);
        return members[i].hostname;
      }
    }
    return hostname;
  }

  method ResolveControlNode(nodes: seq<Node>, identity: string) returns (found: Option<Node>)
    ensures found == if ControlNode(nodes, identity) then Resolve(nodes, identity) else None
  {
    found := ResolveNodeTarget(nodes, identity);
    if found.Some? && found.value.role != ControlRole { found := None; }
  }

  method OtherControlPlaneHostname(nodes: seq<Node>, exclude: string) returns (hostname: string)
    ensures hostname == FirstOtherHostname(nodes, exclude)
  {
    var hostnames := ControlPlaneHostnames(nodes);
    for i := 0 to |hostnames|
      invariant forall j :: 0 <= j < i ==> hostnames[j] == exclude
    {
      if hostnames[i] != exclude {
        FirstAt(OtherThan(exclude), hostnames, i);
        return hostnames[i];
      }
    }
    return "";
  }

  lemma RoutableMeans(nodes: seq<Node>, m: Member, memberID: nat, hostname: string)
    ensures RoutableOther(nodes, memberID, hostname)(m) <==>
      && !m.isLearner && m.hostname != "" && m.statusKnown && !m.hasErrors
      && !Identified(m, memberID, hostname) && ControlNode(nodes, m.hostname)
  {
    assert HealthyOther(memberID, hostname)(m) <==>
      Voter(m) && m.hostname != "" && !Identified(m, memberID, hostname) && Healthy(m);
  }

  /** The second phase: the first other healthy voter that is a discoverable control-plane node. */
  method FirstRoutable(nodes: seq<Node>, members: seq<Member>, memberID: nat, hostname: string)
    returns (source: Option<Node>)
    ensures var first := FirstWhere(RoutableOther(nodes, memberID, hostname), members);
      source == if first.Some? then Resolve(nodes, first.value.hostname) else None
  {
    for i := 0 to |members|
      invariant forall j :: 0 <= j < i ==> !RoutableOther(nodes, memberID, hostname)(members[j])
    {
      var candidate := members[i];
      RoutableMeans(nodes, candidate, memberID, hostname);
      if candidate.isLearner || candidate.hostname == "" || Identified(candidate, memberID, hostname) ||
         !Healthy(candidate)
      {
        continue;
      }
      source := ResolveControlNode(nodes, candidate.hostname);
      if source.Some? {
        FirstAt(RoutableOther(nodes, memberID, hostname), members, i);
        return;
      }
    }
    return None;
  }

  /** The selection in two phases: the preferred voter if it is a discoverable control-plane
      node, then any healthy voter that is, then any other control-plane node. */
  method SelectSource(nodes: seq<Node>, members: seq<Member>, memberID: nat, hostname: string)
    returns (source: Option<Node>)
    ensures source == Source(nodes, members, memberID, hostname)
  {
    var preferred := SnapshotNodeForFacts(members, memberID, hostname);
    source := ResolveControlNode(nodes, preferred);
    if source.Some? {
      PreferredIsSource(nodes, members, memberID, hostname);
      return;
    }
    source := FirstRoutable(nodes, members, memberID, hostname);
    if source.Some? { return; }
    var fallback := OtherControlPlaneHostname(nodes, hostname);
    source := ResolveControlNode(nodes, fallback);
  }

  /** If the preferred hostname is discoverable, it is what a single search would have found. */
  lemma PreferredIsSource(nodes: seq<Node>, members: seq<Member>, memberID: nat, hostname: string)
    requires var first := FirstWhere(HealthyOther(memberID, hostname), members);
      ControlNode(nodes, if first.Some? then first.value.hostname else hostname)
    ensures var first := FirstWhere(HealthyOther(memberID, hostname), members);
      Source(nodes, members, memberID, hostname) ==
        Resolve(nodes, if first.Some? then first.value.hostname else hostname)
  {
  }

  /** Whenever a healthy other voter is a discoverable control-plane node, the first such voter
      gives the snapshot. */
  lemma FirstRoutableVoterIsSource(nodes: seq<Node>, members: seq<Member>, memberID: nat, hostname: string, i: nat)
    requires i < |members| && RoutableOther(nodes, memberID, hostname)(members[i])
    requires forall j :: 0 <= j < i ==> !RoutableOther(nodes, memberID, hostname)(members[j])
    ensures Source(nodes, members, memberID, hostname) == Resolve(nodes, members[i].hostname)
  {
    FirstAt(RoutableOther(nodes, memberID, hostname), members, i);
  }

  /** A healthy voter with a hostname, unless whatever is given, an ID or a hostname, is its own. */
  predicate OtherHealthyVoter(m: Member, memberID: nat, hostname: string) {
    && !m.isLearner && m.statusKnown && !m.hasErrors && m.hostname != ""
    && ((memberID == 0 && hostname == "") || (memberID > 0 && m.memberID != memberID) ||
        (hostname != "" && m.hostname != hostname))
  }

  ghost predicate NoOtherVoter(members: seq<Member>, memberID: nat, hostname: string) {
    forall m :: m in members ==> !OtherHealthyVoter(m, memberID, hostname)
  }

  /** Without a discoverable healthy voter, the member's own hostname gives the snapshot if no other
      voter is known to be healthy, and otherwise the first control-plane node of the list that goes by
      another name; there is no third try. */
  lemma SourceWithoutVoter(nodes: seq<Node>, members: seq<Member>, memberID: nat, hostname: string)
    requires forall m :: m in members && OtherHealthyVoter(m, memberID, hostname) ==> !ControlNode(nodes, m.hostname)
    ensures NoOtherVoter(members, memberID, hostname) && ControlNode(nodes, hostname) ==>
      Source(nodes, members, memberID, hostname) == Resolve(nodes, hostname)
    ensures !(NoOtherVoter(members, memberID, hostname) && ControlNode(nodes, hostname)) ==>
      forall i :: 0 <= i < |nodes| && FirstOtherNode(nodes, hostname, i) ==>
        Source(nodes, members, memberID, hostname) ==
          if ControlNode(nodes, Target(nodes[i])) then Resolve(nodes, Target(nodes[i])) else None
    ensures !ControlNode(nodes, hostname) && (forall n :: n in nodes ==> !OtherControlNode(n, hostname)) ==>
      Source(nodes, members, memberID, hostname) == None
  {
    forall m | m in members
      ensures !RoutableOther(nodes, memberID, hostname)(m)
      ensures HealthyOther(memberID, hostname)(m) <==> OtherHealthyVoter(m, memberID, hostname)
    {
      RoutableMeans(nodes, m, memberID, hostname);
      assert HealthyOther(memberID, hostname)(m) <==>
        Voter(m) && m.hostname != "" && !Identified(m, memberID, hostname) && Healthy(m);
    }
    forall i | 0 <= i < |nodes| && FirstOtherNode(nodes, hostname, i)
      ensures FirstOtherHostname(nodes, hostname) == Target(nodes[i])
    {
      FirstOther(nodes, hostname, i);
    }
    if forall n :: n in nodes ==> !OtherControlNode(n, hostname) { NoOther(nodes, hostname); }
  }

  predicate OtherControlNode(n: Node, hostname: string) {
    n.role == ControlRole && Target(n) != "" && Target(n) != hostname
  }

  ghost predicate FirstOtherNode(nodes: seq<Node>, hostname: string, i: nat) {
    i < |nodes| && OtherControlNode(nodes[i], hostname) &&
    forall j :: 0 <= j < i ==> !OtherControlNode(nodes[j], hostname)
  }

  lemma FirstOther(nodes: seq<Node>, hostname: string, i: nat)
    requires FirstOtherNode(nodes, hostname, i)
    ensures FirstOtherHostname(nodes, hostname) == Target(nodes[i])
  {
    FilterAt(Discoverable(), nodes, i);
    FilterMembers(Discoverable(), nodes[..i]);
    var hostnames, k := ControlPlaneHostnames(nodes), Count(Discoverable(), nodes[..i]);
    forall j | 0 <= j < k ensures hostnames[j] == hostname {
      var n := Filter(Discoverable(), nodes)[j];
      assert n == Filter(Discoverable(), nodes[..i])[j];
      assert n in nodes[..i];
    }
    FirstAt(OtherThan(hostname), hostnames, k);
  }

  lemma NoOther(nodes: seq<Node>, hostname: string)
    requires forall n :: n in nodes ==> !OtherControlNode(n, hostname)
    ensures FirstOtherHostname(nodes, hostname) == ""
  {
    FilterMembers(Discoverable(), nodes);
    forall h | h in ControlPlaneHostnames(nodes) ensures h == hostname {
      var k :| 0 <= k < |ControlPlaneHostnames(nodes)| && ControlPlaneHostnames(nodes)[k] == h;
      assert Filter(Discoverable(), nodes)[k] in nodes;
    }
  }

  /** A change that the gate allows never falls back to the changed member's own hostname for its
      safety snapshot, as long as the surviving voters have hostnames. */
  lemma AllowedHasOtherVoter(etcd: EtcdFacts, kind: Kind, memberID: nat, hostname: string, m: Member)
    requires MembershipGate(etcd, kind, memberID, hostname).Allowed?
    requires ResolveMember(etcd.members, memberID, hostname) == Some(m) && m.hostname != ""
    requires forall x :: x in etcd.members && Voter(x) && Healthy(x) ==> x.hostname != ""
    requires MembershipTarget(m) == m.hostname
    ensures FirstWhere(HealthyOther(memberID, m.hostname), etcd.members).Some?
  {
    var p := Survivor([m.hostname]);
    FilterMembers(p, etcd.members);
    var left := Filter(p, etcd.members);
    assert left[0] in left;
    var x := left[0];
    assert x in etcd.members && p(x);
    assert [m.hostname][0] == m.hostname;
    assert !Names(x, m.hostname);
    assert HealthyOther(memberID, m.hostname)(x);
  }

  // ---- Facts ---------------------------------------------------------------------------------------

  function NodeFacts(n: Node): Facts {
    Facts(n.id, n.name, Target(n), n.role, None, "", Target(n), NoWarning, None, None)
  }

  /** The checks between the resolved member and the node the action was requested for. */
  ghost predicate Eligible(nodes: seq<Node>, node: Node, r: Request, m: Member) {
    m.hostname != "" &&
    if r.kind.RemoveMember? then
      (Resolve(nodes, r.node).None? ==> r.node == m.hostname) &&
      (Resolve(nodes, r.node).Some? ==> ControlNode(nodes, r.node))
    else ControlNode(nodes, m.hostname) && Target(Resolve(nodes, m.hostname).value) == Target(node)
  }

  function GateBlock(g: Gate): Option<Refusal> { if g.Refused? then Some(g.reason) else None }

  /** The member that an observation names for a request, or None when it names none that fits. */
  ghost function MemberOf(nodes: seq<Node>, listing: Listing, node: Node, r: Request): Option<Member> {
    if ControlPlaneHostnames(nodes) == [] || listing.ListFailed? then None
    else
      match ResolveMember(listing.members, r.memberID, r.memberHostname)
      case None => None
      case Some(m) => if Eligible(nodes, node, r, m) then Some(m) else None
  }

  /** What is reported about a member that fits. */
  ghost function MemberFacts(nodes: seq<Node>, members: seq<Member>, node: Node, r: Request, m: Member): Option<Facts> {
    var etcd, named := EtcdFacts(true, members), NodeFacts(node).(member := Some(MemberName(m.memberID, m.hostname)));
    if r.kind.Snapshot? then Some(named)
    else
      var judged := named.(quorum := Some(QuorumOf(etcd, [m.hostname])));
      if r.kind.ForfeitLeadership? then Some(judged.(warning := LeadershipWarning(members, m.hostname)))
      else
        match Source(nodes, members, r.memberID, m.hostname)
        case None => None
        case Some(source) => Some(judged.(
          blocked := GateBlock(MembershipGate(etcd, r.kind, r.memberID, r.memberHostname)),
          warning := MembershipWarning(etcd, r.memberID, r.memberHostname),
          snapshotNode := Target(source),
          rpcNode := if r.kind.LeaveCluster? && ControlNode(nodes, m.hostname)
                     then Target(Resolve(nodes, m.hostname).value) else Target(source)))
  }

  /** readEtcdActionFacts: what it reports of an observation, or None when it refuses to report. */
  ghost function FactsOf(nodes: seq<Node>, listing: Listing, node: Node, r: Request): Option<Facts> {
    if !ValidatesMember(r) then Some(NodeFacts(node))
    else
      match MemberOf(nodes, listing, node, r)
      case None => None
      case Some(m) => MemberFacts(nodes, listing.members, node, r, m)
  }

  /** The member, and its hostname or canonical target. */
  method ReadMember(nodes: seq<Node>, listing: Listing, node: Node, r: Request)
    returns (member: Option<Member>, memberHostname: string)
    ensures member == MemberOf(nodes, listing, node, r)
    ensures member.Some? && ControlNode(nodes, member.value.hostname) ==>
      memberHostname == Target(Resolve(nodes, member.value.hostname).value)
  {
    memberHostname := "";
    if |ControlPlaneHostnames(nodes)| == 0 || listing.ListFailed? { return None, ""; }
    member := ResolveEtcdMember(listing.members, r.memberID, r.memberHostname);
    if member.None? || member.value.hostname == "" { return None, ""; }
    var m := member.value;
    var memberNode := ResolveNodeTarget(nodes, m.hostname);
    var selectedNode := ResolveNodeTarget(nodes, r.node);
    if r.kind.RemoveMember? {
      if selectedNode.None? && r.node != m.hostname { return None, ""; }
      if selectedNode.Some? && selectedNode.value.role != ControlRole { return None, ""; }
    } else if memberNode.None? || memberNode.value.role != ControlRole || Target(memberNode.value) != Target(node) {
      return None, "";
    }
    memberHostname := if memberNode.Some? then Target(memberNode.value) else m.hostname;
  }

  /** The last part: where the safety snapshot and the change itself go. */
  method ReadGateway(nodes: seq<Node>, members: seq<Member>, r: Request, m: Member, memberHostname: string,
      judged: Facts)
    returns (facts: Option<Facts>)
    requires Destructive(r.kind)
    requires r.kind.LeaveCluster? ==>
      ControlNode(nodes, m.hostname) && memberHostname == Target(Resolve(nodes, m.hostname).value)
    ensures var source := Source(nodes, members, r.memberID, m.hostname);
      facts ==
      if source.None? then None
      else Some(judged.(
        snapshotNode := Target(source.value),
        rpcNode := if r.kind.LeaveCluster? then memberHostname else Target(source.value)))
  {
    var f := judged;
    if r.kind.LeaveCluster? { f := f.(rpcNode := memberHostname); }
    var source := SelectSource(nodes, members, r.memberID, m.hostname);
    if source.None? { return None; }
    f := f.(snapshotNode := Target(source.value));
    if r.kind.RemoveMember? { f := f.(rpcNode := f.snapshotNode); }
    SourceResolves(nodes, members, r.memberID, m.hostname);
    if r.kind.LeaveCluster? { ResolveIdempotent(nodes, m.hostname); }
    var gateway := ResolveNodeTarget(nodes, f.rpcNode);
    if gateway.None? || gateway.value.role != ControlRole {
      // Whatever was resolved once resolves again by its canonical target.
      assert false;
    }
    if Target(gateway.value) == "" {
      assert false;
    }
    return Some(f.(rpcNode := Target(gateway.value)));
  }

  method ReadEtcdActionFacts(nodes: seq<Node>, listing: Listing, node: Node, r: Request) returns (facts: Option<Facts>)
    ensures facts == FactsOf(nodes, listing, node, r)
  {
    var f := NodeFacts(node);
    if !ValidatesMember(r) { return Some(f); }
    var member, memberHostname := ReadMember(nodes, listing, node, r);
    if member.None? { return None; }
    var etcd, m := EtcdFacts(true, listing.members), member.value;
    f := f.(member := Some(MemberName(m.memberID, m.hostname)));
    if r.kind.Snapshot? { return Some(f); }
    var quorum := AssessEtcdQuorum(etcd, [m.hostname]);
    if r.kind.ForfeitLeadership? {
      var leadership := WarnOfLeadership(listing.members, m.hostname);
      return Some(f.(quorum := Some(quorum), warning := leadership));
    }
    var gate := CheckMembership(etcd, r.kind, r.memberID, r.memberHostname);
    var warning := WarnOfMembership(etcd, r.memberID, r.memberHostname);
    f := f.(quorum := Some(quorum), blocked := GateBlock(gate), warning := warning);
    facts := ReadGateway(nodes, listing.members, r, m, memberHostname, f);
  }

  lemma SourceResolves(nodes: seq<Node>, members: seq<Member>, memberID: nat, hostname: string)
    ensures var s := Source(nodes, members, memberID, hostname);
      s.Some? ==> s.value.role.ControlRole? && Target(s.value) != "" && Resolve(nodes, Target(s.value)) == s
  {
    var first := FirstWhere(RoutableOther(nodes, memberID, hostname), members);
    if first.Some? {
      assert ControlNode(nodes, first.value.hostname);
      ResolveIdempotent(nodes, first.value.hostname);
    }
    if ControlNode(nodes, hostname) { ResolveIdempotent(nodes, hostname); }
    var other := FirstOtherHostname(nodes, hostname);
    if ControlNode(nodes, other) { ResolveIdempotent(nodes, other); }
  }

  /** A leave is sent to the member's own node, a removal to the node that gave the snapshot; both
      are discoverable control-plane nodes when the facts are read. */
  lemma WhereCallsGo(nodes: seq<Node>, listing: Listing, node: Node, r: Request)
    requires Destructive(r.kind) && FactsOf(nodes, listing, node, r).Some?
    ensures var f := FactsOf(nodes, listing, node, r).value;
      f.member.Some? && ControlNode(nodes, f.rpcNode) && ControlNode(nodes, f.snapshotNode) &&
      (r.kind.LeaveCluster? ==>
        Resolve(nodes, f.rpcNode) == Resolve(nodes, f.member.value.hostname) && f.rpcNode == f.nodeTarget) &&
      (r.kind.RemoveMember? ==> f.rpcNode == f.snapshotNode)
  {
    var m := ResolveMember(listing.members, r.memberID, r.memberHostname).value;
    SourceResolves(nodes, listing.members, r.memberID, m.hostname);
    if r.kind.LeaveCluster? { ResolveIdempotent(nodes, m.hostname); }
  }

  // ---- Preparing -----------------------------------------------------------------------------------

  /** The node an action is about. A member that is to be removed may be gone from discovery. */
  ghost function ActionNode(nodes: seq<Node>, r: Request): Option<Node> {
    match Resolve(nodes, r.node)
    case Some(n) => if n.role.ControlRole? then Some(n) else None
    case None => if r.kind.RemoveMember? then Some(Node("", r.node, [], ControlRole, "")) else None
  }

  method SelectActionNode(nodes: seq<Node>, r: Request) returns (node: Option<Node>)
    ensures node == ActionNode(nodes, r)
  {
    node := ResolveNodeTarget(nodes, r.node);
    if node.None? && r.kind.RemoveMember? {
      return Some(Node("", r.node, [], ControlRole, ""));
    }
    if node.None? || node.value.role != ControlRole { return None; }
  }

  function Canonical(r: Request, node: Node, f: Facts): Request {
    var named := r.(node := Target(node));
    match f.member
    case Some(m) => named.(memberID := m.memberID, memberHostname := m.hostname)
    case None => named
  }

  /** What executing reads of an observation, which must equal what preparing read. */
  ghost function CurrentFacts(o: Observation, r: Request): Option<Facts> {
    if o.Unobserved? then None
    else
      match ActionNode(o.nodes, r)
      case None => None
      case Some(node) => FactsOf(o.nodes, o.listing, node, r)
  }

  method ReadCurrentFacts(o: Observation, r: Request) returns (facts: Option<Facts>)
    ensures facts == CurrentFacts(o, r)
  {
    if o.Unobserved? { return None; }
    var node := SelectActionNode(o.nodes, r);
    if node.None? { return None; }
    facts := ReadEtcdActionFacts(o.nodes, o.listing, node.value, r);
  }

  /** The request an observation was prepared for, in canonical form, with the facts to recheck. */
  datatype Prepared = Prepared(request: Request, facts: Facts)

  ghost function Prepares(o: Observation, r: Request): Option<Prepared> {
    if o.Unobserved? then None
    else
      match ActionNode(o.nodes, r)
      case None => None
      case Some(node) =>
        match FactsOf(o.nodes, o.listing, node, r.(node := Target(node)))
        case None => None
        case Some(f) => Some(Prepared(Canonical(r, node, f), f))
  }

  method PrepareEtcdAction(o: Observation, r: Request) returns (prepared: Option<Prepared>)
    ensures prepared == Prepares(o, r)
  {
    if o.Unobserved? { return None; }
    var node := SelectActionNode(o.nodes, r);
    if node.None? { return None; }
    var facts := ReadEtcdActionFacts(o.nodes, o.listing, node.value, r.(node := Target(node.value)));
    if facts.None? { return None; }
    return Some(Prepared(Canonical(r, node.value, facts.value), facts.value));
  }

  /** If the cluster does not change, executing reads exactly the facts that were prepared, although
      it starts from the canonical names instead of those the operator used. */
  lemma PreparedIsReread(o: Observation, r: Request)
    requires Prepares(o, r).Some?
    ensures var p := Prepares(o, r).value; CurrentFacts(o, p.request) == Some(p.facts)
  {
    var p := Prepares(o, r).value;
    var node := ActionNode(o.nodes, r).value;
    if Resolve(o.nodes, r.node).Some? { ResolveIdempotent(o.nodes, r.node); }
    assert ActionNode(o.nodes, p.request) == Some(node);
    if ValidatesMember(r) {
      SameMemberByCanonicalName(o, node, r.(node := Target(node)), p.facts);
    }
  }

  lemma SameMemberByCanonicalName(o: Observation, node: Node, r: Request, f: Facts)
    requires o.Observed? && FactsOf(o.nodes, o.listing, node, r) == Some(f) && ValidatesMember(r)
    ensures f.member.Some?
    ensures var r' := r.(memberID := f.member.value.memberID, memberHostname := f.member.value.hostname);
      FactsOf(o.nodes, o.listing, node, r') == Some(f)
  {
    var members := o.listing.members;
    var m := MemberOf(o.nodes, o.listing, node, r).value;
    var i :| 0 <= i && OnlyMember(members, r.memberID, r.memberHostname, i);
    SameMember(members, r.memberID, r.memberHostname, i);
    SameMemberFacts(o.nodes, members, node, r, i);
  }

  lemma SameMemberFacts(nodes: seq<Node>, members: seq<Member>, node: Node, r: Request, i: nat)
    requires OnlyMember(members, r.memberID, r.memberHostname, i) && members[i].hostname != ""
    ensures var m := members[i];
      MemberFacts(nodes, members, node, r.(memberID := m.memberID, memberHostname := m.hostname), m) ==
      MemberFacts(nodes, members, node, r, m)
  {
    var m := members[i];
    SameMember(members, r.memberID, r.memberHostname, i);
    SameJudgement(EtcdFacts(true, members), r.kind, r.memberID, r.memberHostname, m.memberID, m.hostname);
    SameSource(nodes, members, r.memberID, r.memberHostname, i);
  }

  lemma SameMember(members: seq<Member>, memberID: nat, hostname: string, i: nat)
    requires OnlyMember(members, memberID, hostname, i) && members[i].hostname != ""
    ensures ResolveMember(members, memberID, hostname) == Some(members[i])
    ensures ResolveMember(members, members[i].memberID, members[i].hostname) == Some(members[i])
  {
    ResolvedAt(members, memberID, hostname, i);
    assert OnlyMember(members, members[i].memberID, members[i].hostname, i);
    ResolvedAt(members, members[i].memberID, members[i].hostname, i);
  }

  /** The gate and its warning look at the resolved member only. */
  lemma SameJudgement(etcd: EtcdFacts, kind: Kind, id1: nat, host1: string, id2: nat, host2: string)
    requires ResolveMember(etcd.members, id1, host1) == ResolveMember(etcd.members, id2, host2)
    ensures MembershipGate(etcd, kind, id1, host1) == MembershipGate(etcd, kind, id2, host2)
    ensures MembershipWarning(etcd, id1, host1) == MembershipWarning(etcd, id2, host2)
  {
  }

  /** Excluding a member by its full name excludes what excluding it by the given name does. */
  lemma SameSource(nodes: seq<Node>, members: seq<Member>, memberID: nat, hostname: string, i: nat)
    requires OnlyMember(members, memberID, hostname, i) && members[i].hostname != ""
    ensures Source(nodes, members, memberID, members[i].hostname) ==
      Source(nodes, members, members[i].memberID, members[i].hostname)
  {
    var m := members[i];
    forall x | x in members ensures Identified(x, memberID, m.hostname) == Identified(x, m.memberID, m.hostname) {
      var j :| 0 <= j < |members| && members[j] == x;
      assert j != i ==> !Identified(x, memberID, hostname);
    }
    SameFirst(HealthyOther(memberID, m.hostname), HealthyOther(m.memberID, m.hostname), members);
    SameFirst(RoutableOther(nodes, memberID, m.hostname), RoutableOther(nodes, m.memberID, m.hostname), members);
  }

  lemma {:induction false} SameFirst<T>(p: T -> bool, q: T -> bool, s: seq<T>)
    requires forall x :: x in s ==> p(x) == q(x)
    ensures FirstWhere(p, s) == FirstWhere(q, s)
  {
  }

  // ---- Over the fields --------------------------------------------------------------------------------

  /** The facts name the node by its ID, name, canonical target and role: a control-plane node that the
      request resolves to, or, for a removal only, one that is gone from discovery. */
  lemma FactsNameNode(o: Observation, r: Request, f: Facts)
    requires CurrentFacts(o, r) == Some(f)
    ensures o.Observed? && f.nodeRole == ControlRole
    ensures Resolve(o.nodes, r.node).Some? ==>
      var n := Resolve(o.nodes, r.node).value;
      && n.role == ControlRole && f.nodeID == n.id && f.nodeName == n.name
      && f.nodeTarget == (if n.name != "" then n.name else if n.addresses != [] then n.addresses[0] else "")
    ensures Resolve(o.nodes, r.node).None? ==> r.kind == RemoveMember && f.nodeID == "" && f.nodeName == r.node
  {
  }

  /** And the member by the ID and the hostname that the listing has for the only member that agrees
      with the request. */
  lemma FactsNameMember(o: Observation, r: Request, f: Facts) returns (i: nat)
    requires CurrentFacts(o, r) == Some(f) && ValidatesMember(r)
    ensures o.Observed? && o.listing.Listed? && i < |o.listing.members|
    ensures r.memberID != 0 || r.memberHostname != ""
    ensures forall j :: 0 <= j < |o.listing.members| ==>
      (j == i <==> r.memberID in {0, o.listing.members[j].memberID} &&
                   r.memberHostname in {"", o.listing.members[j].hostname})
    ensures var m := o.listing.members[i];
      m.hostname != "" && f.member == Some(MemberName(m.memberID, m.hostname))
  {
    var members, node := o.listing.members, ActionNode(o.nodes, r).value;
    assert MemberOf(o.nodes, o.listing, node, r).Some?;
    i :| 0 <= i && OnlyMember(members, r.memberID, r.memberHostname, i);
    ResolvedAt(members, r.memberID, r.memberHostname, i);
  }

  /** The member with the given ID and hostname, or with the one that is given. */
  ghost predicate OnlyOne(members: seq<Member>, memberID: nat, hostname: string, i: nat) {
    i < |members| && (memberID > 0 || hostname != "") &&
    forall j :: 0 <= j < |members| ==>
      (j == i <==> memberID in {0, members[j].memberID} && hostname in {"", members[j].hostname})
  }

  function NameOf(m: Member): string {
    if Text.TrimSpace(m.hostname) != "" then m.hostname else if m.memberID > 0 then Text.Decimal(m.memberID) else ""
  }

  /** The change of a voter is warned about when no other voter may fail after it. */
  lemma WarningMeans(etcd: EtcdFacts, memberID: nat, hostname: string, i: nat)
    requires etcd.available && OnlyOne(etcd.members, memberID, hostname, i)
    ensures var m, voters := etcd.members[i], Count(Voting(), etcd.members);
      var left := Count(SoundVoting([NameOf(m)]), etcd.members);
      MembershipWarning(etcd, memberID, hostname) ==
      if m.isLearner || NameOf(m) == "" || left > voters / 2 + 1 then NoWarning
      else NoFaultTolerance(left, voters, voters / 2 + 1)
  {
    assert OnlyMember(etcd.members, memberID, hostname, i);
    ResolvedAt(etcd.members, memberID, hostname, i);
    QuorumMeans(etcd, [NameOf(etcd.members[i])]);
    FilterMembers(Voting(), etcd.members);
    assert etcd.members[i] in etcd.members;
  }

  /** What the facts of a removal or a leave say about the member. */
  lemma FactsOfChange(o: Observation, r: Request, f: Facts) returns (i: nat)
    requires Destructive(r.kind) && CurrentFacts(o, r) == Some(f)
    ensures o.Observed? && o.listing.Listed? && OnlyOne(o.listing.members, r.memberID, r.memberHostname, i)
    ensures var m := o.listing.members[i];
      f.member == Some(MemberName(m.memberID, m.hostname)) && ChangeJudged(o.listing.members, m, r.kind, f)
    ensures var source := Source(o.nodes, o.listing.members, r.memberID, o.listing.members[i].hostname);
      source.Some? && f.snapshotNode == Target(source.value)
    ensures f.rpcNode == if r.kind == RemoveMember then f.snapshotNode else f.nodeTarget
  {
    i := FactsNameMember(o, r, f);
    var members := o.listing.members;
    assert OnlyMember(members, r.memberID, r.memberHostname, i);
    ResolvedAt(members, r.memberID, r.memberHostname, i);
    ChangeIsJudged(members, r, f, i);
    if r.kind == LeaveCluster { WhereCallsGo(o.nodes, o.listing, ActionNode(o.nodes, r).value, r); }
  }

  /** Blocked unless a majority of the voters is known to be healthy and not to share the member's name,
      and, for a removal, unless the member is not known to be healthy; warned about as above. */
  ghost predicate ChangeJudged(members: seq<Member>, m: Member, kind: Kind, f: Facts) {
    var voters, left := Count(Voting(), members), Count(SoundVoting([NameOf(m)]), members);
    && f.quorum == Some(QuorumOf(EtcdFacts(true, members), [m.hostname]))
    && (f.warning == NoWarning <==> m.isLearner || NameOf(m) == "" || left > voters / 2 + 1)
    && (f.blocked.None? <==>
          (kind == LeaveCluster || !m.statusKnown || m.hasErrors) && NameOf(m) != "" && 2 * left > voters)
  }

  lemma ChangeIsJudged(members: seq<Member>, r: Request, f: Facts, i: nat)
    requires OnlyOne(members, r.memberID, r.memberHostname, i) && r.kind in {RemoveMember, LeaveCluster}
    requires var etcd := EtcdFacts(true, members);
      && f.quorum == Some(QuorumOf(etcd, [members[i].hostname]))
      && f.blocked == GateBlock(MembershipGate(etcd, r.kind, r.memberID, r.memberHostname))
      && f.warning == MembershipWarning(etcd, r.memberID, r.memberHostname)
    ensures ChangeJudged(members, members[i], r.kind, f)
  {
    MemberGate(EtcdFacts(true, members), r.kind, r.memberID, r.memberHostname, i);
    WarningMeans(EtcdFacts(true, members), r.memberID, r.memberHostname, i);
    CountMonotone(SoundVoting([NameOf(members[i])]), Voting(), members);
  }

  /** Every other action is sent to the requested node and is never blocked. */
  lemma FactsOfOthers(o: Observation, r: Request, f: Facts)
    requires CurrentFacts(o, r) == Some(f) && r.kind !in {RemoveMember, LeaveCluster}
    ensures f.blocked == None && f.rpcNode == f.nodeTarget && f.snapshotNode == ""
    ensures f.member.Some? <==>
      r.kind == ForfeitLeadership || (r.kind == Snapshot && (r.memberID > 0 || r.memberHostname != ""))
    ensures r.kind != ForfeitLeadership ==> f.warning == NoWarning && f.quorum == None
    ensures r.kind == ForfeitLeadership ==>
      && o.listing.Listed? && f.warning == LeadershipWarning(o.listing.members, f.member.value.hostname)
      && f.quorum == Some(QuorumOf(EtcdFacts(true, o.listing.members), [f.member.value.hostname]))
  {
  }

  /** When the facts can be read: the requested node is a control-plane node, or gone from discovery and
      its member to be removed; the member, if one is given or needed, is in the listing exactly once and
      belongs to this node; and a change has a node for its safety snapshot. */
  lemma FactsRead(o: Observation, r: Request)
    ensures CurrentFacts(o, r).Some? <==>
      && o.Observed?
      && (if Resolve(o.nodes, r.node).Some? then Resolve(o.nodes, r.node).value.role == ControlRole
          else r.kind == RemoveMember)
      && (r.kind in {RemoveMember, LeaveCluster, ForfeitLeadership} ||
          (r.kind == Snapshot && (r.memberID > 0 || r.memberHostname != "")) ==>
            o.listing.Listed? && (exists n :: n in o.nodes && n.role == ControlRole && Target(n) != "") &&
            exists i :: 0 <= i && OnlyOne(o.listing.members, r.memberID, r.memberHostname, i) &&
              Belongs(o, r, o.listing.members[i]))
  {
    if o.Observed? && o.listing.Listed? && ActionNode(o.nodes, r).Some? && ValidatesMember(r) {
      MemberRead(o, r);
    }
  }

  /** The member has a hostname; unless it is removed, this is the hostname of the requested node. */
  ghost predicate Belongs(o: Observation, r: Request, m: Member)
    requires o.Observed? && o.listing.Listed?
  {
    && m.hostname != ""
    && (if r.kind == RemoveMember then Resolve(o.nodes, r.node).Some? || r.node == m.hostname
        else
          Resolve(o.nodes, m.hostname).Some? && Resolve(o.nodes, m.hostname).value.role == ControlRole &&
          Resolve(o.nodes, r.node).Some? &&
          Target(Resolve(o.nodes, m.hostname).value) == Target(Resolve(o.nodes, r.node).value))
    && (r.kind in {RemoveMember, LeaveCluster} ==>
          Source(o.nodes, o.listing.members, r.memberID, m.hostname).Some?)
  }

  lemma SomeControlPlane(nodes: seq<Node>)
    ensures ControlPlaneHostnames(nodes) != [] <==> exists n :: n in nodes && n.role == ControlRole && Target(n) != ""
  {
    var found := Filter(Discoverable(), nodes);
    FilterMembers(Discoverable(), nodes);
    assert |ControlPlaneHostnames(nodes)| == |found|;
    if found != [] { assert found[0] in nodes; }
  }

  lemma MemberRead(o: Observation, r: Request)
    requires o.Observed? && o.listing.Listed? && ActionNode(o.nodes, r).Some? && ValidatesMember(r)
    ensures CurrentFacts(o, r).Some? <==>
      && (exists n :: n in o.nodes && n.role == ControlRole && Target(n) != "")
      && exists i :: 0 <= i && OnlyOne(o.listing.members, r.memberID, r.memberHostname, i) &&
           Belongs(o, r, o.listing.members[i])
  {
    MemberFits(o.nodes, o.listing, ActionNode(o.nodes, r).value, r);
    SomeControlPlane(o.nodes);
  }

  lemma MemberFits(nodes: seq<Node>, listing: Listing, node: Node, r: Request)
    requires listing.Listed?
    ensures var members := listing.members;
      MemberOf(nodes, listing, node, r).Some? <==>
        ControlPlaneHostnames(nodes) != [] &&
        exists i ::
          0 <= i && OnlyOne(members, r.memberID, r.memberHostname, i) && Eligible(nodes, node, r, members[i])
    ensures forall i :: 0 <= i && OnlyOne(listing.members, r.memberID, r.memberHostname, i) ==>
      MemberOf(nodes, listing, node, r) in {None, Some(listing.members[i])}
  {
    var members := listing.members;
    if i :| 0 <= i && OnlyOne(members, r.memberID, r.memberHostname, i) {
      assert OnlyMember(members, r.memberID, r.memberHostname, i);
      ResolvedAt(members, r.memberID, r.memberHostname, i);
    } else {
      assert forall i :: 0 <= i && OnlyMember(members, r.memberID, r.memberHostname, i) ==>
        OnlyOne(members, r.memberID, r.memberHostname, i);
    }
  }
}
