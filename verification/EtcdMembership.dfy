/** The gate on etcd membership changes and what it guarantees
    (internal/application/action_policy.go). */
module EtcdMembership {
  import opened Sequences
  import opened EtcdQuorum
  import Text

  datatype Kind = Snapshot | Defragment | DisarmAlarms | RemoveMember | LeaveCluster | ForfeitLeadership

  // ---- Identity of a member -----------------------------------------------------------------

  /** memberMatchesMember: every identity part that is given must agree, and one must be. */
  predicate Identified(m: Member, memberID: nat, hostname: string) {
    (memberID != 0 || hostname != "") && (memberID == 0 || m.memberID == memberID) &&
    (hostname == "" || m.hostname == hostname)
  }

  ghost predicate OnlyMember(members: seq<Member>, memberID: nat, hostname: string, i: nat) {
    i < |members| && Identified(members[i], memberID, hostname) &&
    forall j :: 0 <= j < |members| && j != i ==> !Identified(members[j], memberID, hostname)
  }

  ghost function ResolveMember(members: seq<Member>, memberID: nat, hostname: string): Option<Member> {
    if i :| 0 <= i && OnlyMember(members, memberID, hostname, i) then Some(members[i]) else None
  }

  /** resolveEtcdMember. */
  method ResolveEtcdMember(members: seq<Member>, memberID: nat, hostname: string) returns (found: Option<Member>)
    ensures found == ResolveMember(members, memberID, hostname)
  {
    if memberID == 0 && hostname == "" { return None; }
    found := None;
    var count := 0;
    ghost var at := -1;
    for i := 0 to |members|
      invariant count == 0 ==> forall j :: 0 <= j < i ==> !Identified(members[j], memberID, hostname)
      invariant count >= 0 &&
        (count > 0 ==> 0 <= at < i && Identified(members[at], memberID, hostname) && found == Some(members[at]))
      invariant count == 1 ==> forall j :: 0 <= j < i && j != at ==> !Identified(members[j], memberID, hostname)
      invariant count > 1 ==>
        exists j, k ::
          0 <= j < k < i && Identified(members[j], memberID, hostname) && Identified(members[k], memberID, hostname)
    {
      if Identified(members[i], memberID, hostname) {
        found := Some(members[i]);
        count := count + 1;
        at := i;
      }
    }
    if count != 1 { return None; }
    assert OnlyMember(members, memberID, hostname, at);
  }

  /** membershipTargetForMember. */
  function MembershipTarget(m: Member): string {
    if !Text.Blank(m.hostname) then m.hostname else if m.memberID != 0 then Text.Decimal(m.memberID) else ""
  }

  // ---- The gate --------------------------------------------------------------------------------

  /** etcdMembershipBlockReasonFacts. */
  ghost function MembershipGate(etcd: EtcdFacts, kind: Kind, memberID: nat, hostname: string): Gate {
    if !etcd.available then Refused(EtcdUnknown)
    else
      match ResolveMember(etcd.members, memberID, hostname)
      case None => Refused(NotAMember)
      case Some(m) =>
        if kind.RemoveMember? && Healthy(m) then Refused(StillHealthy)
        else if MembershipTarget(m) == "" then Refused(Unidentified)
        else
          var q := QuorumOf(etcd, [MembershipTarget(m)]);
          if !q.Quorum? then Refused(ImpactUnknown)
          else if BelowQuorum(q) then Refused(WouldDrop(q.remaining, q.voters, q.floor))
          else Allowed
  }

  method CheckMembership(etcd: EtcdFacts, kind: Kind, memberID: nat, hostname: string) returns (gate: Gate)
    ensures gate == MembershipGate(etcd, kind, memberID, hostname)
  {
    if !etcd.available { return Refused(EtcdUnknown); }
    var member := ResolveEtcdMember(etcd.members, memberID, hostname);
    if member.None? { return Refused(NotAMember); }
    if kind.RemoveMember? && Healthy(member.value) { return Refused(StillHealthy); }
    var target := MembershipTarget(member.value);
    if target == "" { return Refused(Unidentified); }
    var q := AssessEtcdQuorum(etcd, [target]);
    if !q.Quorum? { return Refused(ImpactUnknown); }
    if BelowQuorum(q) { return Refused(WouldDrop(q.remaining, q.voters, q.floor)); }
    return Allowed;
  }

  // ---- What an allowed change leaves behind ------------------------------------------------------

  function Without(members: seq<Member>, i: nat): seq<Member>
    requires i < |members|
  {
    members[..i] + members[i + 1..]
  }

  ghost predicate HealthyMajority(members: seq<Member>) {
    2 * Count(HealthyVoter(), members) > Count(IsVoter(), members)
  }

  lemma BlankIsNotEmptyTarget(m: Member)
    requires MembershipTarget(m) != ""
    ensures Names(m, MembershipTarget(m))
  {
  }

  lemma WithoutCounts(members: seq<Member>, i: nat, p: Member -> bool)
    requires i < |members|
    ensures Count(p, members) == Count(p, Without(members, i)) + if p(members[i]) then 1 else 0
  {
    assert members == members[..i] + [members[i]] + members[i + 1..];
    CountAround(p, members[..i], members[i], members[i + 1..]);
  }

  /** An allowed change leaves known-healthy voters that are a majority of the old membership
      and of the new one; if a voter goes, there were at least three. */
  lemma AllowedKeepsMajority(etcd: EtcdFacts, kind: Kind, memberID: nat, hostname: string, i: nat)
    requires MembershipGate(etcd, kind, memberID, hostname).Allowed? && OnlyMember(etcd.members, memberID, hostname, i)
    ensures HealthyMajority(Without(etcd.members, i))
    ensures 2 * Count(HealthyVoter(), Without(etcd.members, i)) > Count(IsVoter(), etcd.members)
    ensures Voter(etcd.members[i]) ==>
      Count(IsVoter(), etcd.members) >= 3 &&
      Count(IsVoter(), Without(etcd.members, i)) == Count(IsVoter(), etcd.members) - 1
  {
    var m := etcd.members[i];
    ResolvedAt(etcd.members, memberID, hostname, i);
    var targets := [MembershipTarget(m)];
    BlankIsNotEmptyTarget(m);
    assert Names(m, targets[0]);
    assert AtRisk(m, targets);
    WithoutCounts(etcd.members, i, Survivor(targets));
    WithoutCounts(etcd.members, i, IsVoter());
    CountMonotone(Survivor(targets), HealthyVoter(), Without(etcd.members, i));
    CountMonotone(HealthyVoter(), IsVoter(), Without(etcd.members, i));
  }

  lemma ResolvedAt(members: seq<Member>, memberID: nat, hostname: string, i: nat)
    requires OnlyMember(members, memberID, hostname, i)
    ensures ResolveMember(members, memberID, hostname) == Some(members[i])
  {
  }

  // ---- Runs of changes -----------------------------------------------------------------------------

  datatype Change = Change(kind: Kind, memberID: nat, hostname: string)

  /** One change under the gate, with facts read just before it; a refused one does nothing. */
  ghost function Apply(members: seq<Member>, c: Change): seq<Member> {
    if i :| 0 <= i && OnlyMember(members, c.memberID, c.hostname, i) &&
            MembershipGate(EtcdFacts(true, members), c.kind, c.memberID, c.hostname).Allowed?
    then Without(members, i) else members
  }

  /** A change under the gate, or a fresh observation of the same membership: members may have
      become healthy, unhealthy or unreachable in any way. */
  datatype Event = Gated(change: Change) | Refreshed(members: seq<Member>)

  predicate SameMembership(a: seq<Member>, b: seq<Member>) {
    |a| == |b| && forall i :: 0 <= i < |a| ==>
      b[i] == a[i].(isLeader := b[i].isLeader, statusKnown := b[i].statusKnown, hasErrors := b[i].hasErrors,
        hasAlarms := b[i].hasAlarms)
  }

  ghost function After(members: seq<Member>, e: Event): seq<Member> {
    match e
    case Gated(c) => Apply(members, c)
    case Refreshed(now) => if SameMembership(members, now) then now else members
  }

  ghost function RunOf(members: seq<Member>, events: seq<Event>): seq<Member> {
    if events == [] then members else After(RunOf(members, events[..|events| - 1]), events[|events| - 1])
  }

  lemma {:induction false} SameVoters(a: seq<Member>, b: seq<Member>)
    requires SameMembership(a, b)
    ensures Count(IsVoter(), a) == Count(IsVoter(), b)
  {
    if a == [] {
    } else {
      SameVoters(a[..|a| - 1], b[..|b| - 1]);
    }
  }

  /** Whatever an event does, a gated change that is let through leaves a healthy majority, one that
      is refused changes nothing, and the last two voters stay. */
  lemma EventKeeps(members: seq<Member>, e: Event)
    ensures e.Gated? && (HealthyMajority(members) || After(members, e) != members) ==>
      HealthyMajority(After(members, e))
    ensures Count(IsVoter(), members) >= 2 ==> Count(IsVoter(), After(members, e)) >= 2
  {
    if e.Refreshed? {
      if SameMembership(members, e.members) { SameVoters(members, e.members); }
    } else {
      var c := e.change;
      if i :| 0 <= i && OnlyMember(members, c.memberID, c.hostname, i) &&
              MembershipGate(EtcdFacts(true, members), c.kind, c.memberID, c.hostname).Allowed?
      {
        assert Apply(members, c) == Without(members, i);
        AllowedKeepsMajority(EtcdFacts(true, members), c.kind, c.memberID, c.hostname, i);
        WithoutCounts(members, i, IsVoter());
      }
    }
  }

  /** Over any run, gated changes never take the healthy majority: it is there at the end if it was
      there at the start and every observation in between found it. And no run of changes, whatever
      fails in between, removes the last two voters. */
  lemma {:induction false} MajorityPersists(members: seq<Member>, events: seq<Event>)
    ensures HealthyMajority(members) &&
      (forall k :: 0 <= k < |events| && events[k].Refreshed? ==> HealthyMajority(events[k].members))
      ==> HealthyMajority(RunOf(members, events))
    ensures Count(IsVoter(), members) >= 2 ==> Count(IsVoter(), RunOf(members, events)) >= 2
  {
    if events == [] {
    } else {
      MajorityPersists(members, events[..|events| - 1]);
      EventKeeps(RunOf(members, events[..|events| - 1]), events[|events| - 1]);
    }
  }

  /** Two changes allowed from one membership leave a common healthy voter, so neither pair of
      survivors can have forgotten what the other committed. */
  lemma SurvivorsMeet(etcd: EtcdFacts, a: Change, b: Change, x: Member, y: Member)
    requires MembershipGate(etcd, a.kind, a.memberID, a.hostname).Allowed? &&
      ResolveMember(etcd.members, a.memberID, a.hostname) == Some(x)
    requires MembershipGate(etcd, b.kind, b.memberID, b.hostname).Allowed? &&
      ResolveMember(etcd.members, b.memberID, b.hostname) == Some(y)
    ensures exists m :: m in etcd.members && Survivor([MembershipTarget(x)])(m) && Survivor([MembershipTarget(y)])(m)
  {
    MajoritiesMeet(Survivor([MembershipTarget(x)]), Survivor([MembershipTarget(y)]), IsVoter(), etcd.members);
  }

  // ---- Learners -------------------------------------------------------------------------------------

  /** docs/src/content/docs/security.md says that removing a learner is never quorum-blocked.
      The gate counts the voters all the same: the change of a learner is let through exactly
      when healthy voters that do not share its name are a majority. */
  lemma LearnerGate(etcd: EtcdFacts, kind: Kind, memberID: nat, hostname: string, i: nat)
    requires etcd.available && OnlyMember(etcd.members, memberID, hostname, i) && etcd.members[i].isLearner
    requires MembershipTarget(etcd.members[i]) != "" && !(kind.RemoveMember? && Healthy(etcd.members[i]))
    ensures MembershipGate(etcd, kind, memberID, hostname).Allowed? <==>
      2 * Count(Survivor([MembershipTarget(etcd.members[i])]), etcd.members) > Count(IsVoter(), etcd.members)
  {
    ResolvedAt(etcd.members, memberID, hostname, i);
    CountMonotone(Survivor([MembershipTarget(etcd.members[i])]), IsVoter(), etcd.members);
  }

  lemma CountThree(p: Member -> bool, x: Member, y: Member, z: Member)
    ensures Count(p, [x, y, z]) == (if p(x) then 1 else 0) + (if p(y) then 1 else 0) + (if p(z) then 1 else 0)
  {
    assert [x, y, z] == [x, y] + [z] && [x, y] == [x] + [y] && [x] == [] + [x];
    CountAround(p, [x, y], z, []);
    CountAround(p, [x], y, []);
    CountAround(p, [], x, []);
    assert [x, y] + [] == [x, y] && [x] + [] == [x] && [] + [x] + [] == [x];
  }

  /** With one of two voters down, the leave of a learner is refused for quorum. */
  lemma LearnerBlocked()
    ensures exists etcd: EtcdFacts, memberID: nat, hostname: string, i: nat ::
      etcd.available && OnlyMember(etcd.members, memberID, hostname, i) && etcd.members[i].isLearner &&
      MembershipGate(etcd, LeaveCluster, memberID, hostname) == Refused(WouldDrop(1, 2, 2))
  {
    var up := Member("a", 1, false, true, true, false, false, [], []);
    var lost := Member("b", 2, false, false, false, false, false, [], []);
    var learner := Member("c", 3, true, false, true, false, false, [], []);
    var etcd := EtcdFacts(true, [up, lost, learner]);
    assert OnlyMember(etcd.members, 3, "c", 2);
    ResolvedAt(etcd.members, 3, "c", 2);
    assert Text.TrimSpace("c") == "c" && Text.Decimal(1) == "1" && Text.Decimal(2) == "2" && Text.Decimal(3) == "3";
    assert ["c"][0] == "c";
    assert !AtRisk(up, ["c"]) && !AtRisk(lost, ["c"]);
    CountThree(Survivor(["c"]), up, lost, learner);
    CountThree(IsVoter(), up, lost, learner);
    assert QuorumOf(etcd, ["c"]).remaining == 1 && QuorumOf(etcd, ["c"]).voters == 2;
    assert MembershipGate(etcd, LeaveCluster, 3, "c") == Refused(WouldDrop(1, 2, 2));
  }

  // ---- Over the fields --------------------------------------------------------------------------------

  /** The verdict on a member that the given identity, and nothing else, agrees with. A removal of a
      member known to be healthy is refused and points to leave; otherwise a member that can be named
      may go exactly when a majority of the voters is known to be healthy and not to share its name. */
  lemma MemberGate(etcd: EtcdFacts, kind: Kind, memberID: nat, hostname: string, i: nat)
    requires etcd.available && i < |etcd.members| && (memberID != 0 || hostname != "")
    requires forall j :: 0 <= j < |etcd.members| ==>
      (j == i <==> memberID in {0, etcd.members[j].memberID} && hostname in {"", etcd.members[j].hostname})
    ensures var m, gate := etcd.members[i], MembershipGate(etcd, kind, memberID, hostname);
      var target := if Text.TrimSpace(m.hostname) != "" then m.hostname else Text.Decimal(m.memberID);
      var voters, left := Count(Voting(), etcd.members), Count(SoundVoting([target]), etcd.members);
      gate ==
      if kind == RemoveMember && m.statusKnown && !m.hasErrors then Refused(StillHealthy)
      else if Text.TrimSpace(m.hostname) == "" && m.memberID == 0 then Refused(Unidentified)
      else if voters == 0 then Refused(ImpactUnknown)
      else if 2 * left > voters then Allowed
      else Refused(WouldDrop(left, voters, voters / 2 + 1))
  {
    assert OnlyMember(etcd.members, memberID, hostname, i);
    ResolvedAt(etcd.members, memberID, hostname, i);
    ResolvedGate(etcd, kind, memberID, hostname, etcd.members[i]);
  }

  lemma ResolvedGate(etcd: EtcdFacts, kind: Kind, memberID: nat, hostname: string, m: Member)
    requires etcd.available && ResolveMember(etcd.members, memberID, hostname) == Some(m)
    ensures var target := if Text.TrimSpace(m.hostname) != "" then m.hostname else Text.Decimal(m.memberID);
      var voters, left := Count(Voting(), etcd.members), Count(SoundVoting([target]), etcd.members);
      MembershipGate(etcd, kind, memberID, hostname) ==
      if kind == RemoveMember && m.statusKnown && !m.hasErrors then Refused(StillHealthy)
      else if Text.TrimSpace(m.hostname) == "" && m.memberID == 0 then Refused(Unidentified)
      else if voters == 0 then Refused(ImpactUnknown)
      else if 2 * left > voters then Allowed
      else Refused(WouldDrop(left, voters, voters / 2 + 1))
  {
    QuorumMeans(etcd, [MembershipTarget(m)]);
  }

  /** And without exactly one such member there is no verdict to reach. */
  lemma NoMemberGate(etcd: EtcdFacts, kind: Kind, memberID: nat, hostname: string)
    ensures !etcd.available ==> MembershipGate(etcd, kind, memberID, hostname) == Refused(EtcdUnknown)
    ensures etcd.available && memberID == 0 && hostname == "" ==>
      MembershipGate(etcd, kind, memberID, hostname) == Refused(NotAMember)
    ensures etcd.available ==>
      (exists m :: m in etcd.members && memberID in {0, m.memberID} && hostname in {"", m.hostname}) ||
      MembershipGate(etcd, kind, memberID, hostname) == Refused(NotAMember)
  {
  }

  lemma AmbiguousMemberGate(etcd: EtcdFacts, kind: Kind, memberID: nat, hostname: string, i: nat, j: nat)
    requires etcd.available && i < j < |etcd.members|
    requires memberID in {0, etcd.members[i].memberID} && hostname in {"", etcd.members[i].hostname}
    requires memberID in {0, etcd.members[j].memberID} && hostname in {"", etcd.members[j].hostname}
    ensures MembershipGate(etcd, kind, memberID, hostname) == Refused(NotAMember)
  {
    assert forall k :: 0 <= k ==> !OnlyMember(etcd.members, memberID, hostname, k);
  }
}
