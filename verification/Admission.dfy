/** Admission of guarded mutations: Session.admit, its release closure, the process-wide
    mutationRegistry, Close and DiscardConfiguration (internal/application/mutation.go,
    mutation_registry.go, session.go, configuration_apply.go), as atomic steps of any number
    of concurrent callers in one process.

    Admit is one step: it runs under the session's mutex, and its only shared access outside
    the session is one critical section of the registry. A release is two steps, the registry
    first and the busy flag second, and either may be attempted any number of times. */
module Admission {
  import opened Sequences
  import Text

  // ---- The registry --------------------------------------------------------------------

  datatype Registry = Registry(known: map<string, nat>, unknown: nat)

  function CountOf(r: Registry, scope: string): nat {
    if scope in r.known then r.known[scope] else 0
  }

  predicate Refuses(r: Registry, scope: string) {
    r.unknown > 0 || (scope == "" && |r.known| > 0) || (scope != "" && CountOf(r, scope) > 0)
  }

  /** The state after acquire granted the scope. */
  function Acquired(r: Registry, scope: string): Registry {
    if scope == "" then r.(unknown := r.unknown + 1)
    else r.(known := r.known[scope := CountOf(r, scope) + 1])
  }

  const UINT32_MAX: nat := 0xFFFF_FFFF

  /** The state after one release; the unknown counter is unsigned and would wrap at zero. */
  function Released(r: Registry, scope: string): Registry {
    if scope == "" then r.(unknown := if r.unknown == 0 then UINT32_MAX else r.unknown - 1)
    else if CountOf(r, scope) <= 1 then r.(known := r.known - {scope})
    else r.(known := r.known[scope := CountOf(r, scope) - 1])
  }

  // ---- Sessions, plans and leases --------------------------------------------------------

  type SessionID = nat
  type PlanID = nat

  datatype Session = Session(closed: bool, lifetimeEnded: bool, writesEnabled: bool, busy: bool, clusterUID: string)

  /** Which request a prepared plan carries. A discarded configuration carries none. */
  datatype Request = NoRequest | WipeDevice(device: string) | Configuration | OtherRequest

  datatype Plan = Plan(session: SessionID, consumed: bool, request: Request, blocked: string, requiredToken: string)

  datatype Confirmation = Confirmation(approved: bool, token: string)

  /** One admitted plan. An operation that outlives its call has a worker; `at` is the position of
      this worker in its last four statements: store the result, release (in two halves), announce. */
  datatype Lease = Lease(
    session: SessionID, plan: PlanID, scope: string, registryHeld: bool, busyHeld: bool, at: nat, stored: bool,
    done: bool)

  datatype Error =
    | SessionClosed | WritesDisabled | InvalidPlan | PlanUsed | ActionBlocked | ConfirmationRequired | MutationBusy

  function NormalizeDeviceToken(device: string): string {
    Text.TrimPrefix(Text.TrimSpace(device), "/dev/")
  }

  /** ValidateDeviceWipeConfirmation(device, typed) == nil. */
  predicate DeviceConfirmed(device: string, typed: string) {
    NormalizeDeviceToken(device) != "" && NormalizeDeviceToken(typed) == NormalizeDeviceToken(device)
  }

  predicate Confirmed(p: Plan, c: Confirmation) {
    c.approved &&
    (p.requiredToken == "" ||
      if p.request.WipeDevice? then DeviceConfirmed(p.request.device, c.token) else c.token == p.requiredToken)
  }

  /** The checks of admit, in their order; None when the plan is admitted. */
  function Refusal(s: Session, sid: SessionID, p: Plan, c: Confirmation, r: Registry): Option<Error> {
    if s.closed || s.lifetimeEnded then Some(SessionClosed)
    else if !s.writesEnabled then Some(WritesDisabled)
    else if p.session != sid || p.request.NoRequest? then Some(InvalidPlan)
    else if p.consumed then Some(PlanUsed)
    else if p.blocked != "" then Some(ActionBlocked)
    else if !Confirmed(p, c) then Some(ConfirmationRequired)
    else if s.busy then Some(MutationBusy)
    else if Refuses(r, s.clusterUID) then Some(MutationBusy)
    else None
  }

  // ---- The process as a state machine ------------------------------------------------------

  datatype World = World(registry: Registry, sessions: seq<Session>, plans: seq<Plan>, leases: seq<Lease>)

  const INITIAL := World(Registry(map[], 0), [], [], [])

  datatype Action =
    | Open(writesEnabled: bool)
    | Prepare(plan: Plan)
    | LearnCluster(learner: SessionID, uid: string)
    | Admit(caller: SessionID, admitted: PlanID, confirmation: Confirmation)
    | ReleaseRegistry(holder: nat)
    | ClearBusy(holder: nat)
    | Work(worker: nat)
    | Close(closing: SessionID)
    | EndLifetime(closing: SessionID)
    | Discard(owner: SessionID, discarded: PlanID)

  predicate Admits(w: World, a: Action) {
    a.Admit? && a.caller < |w.sessions| && a.admitted < |w.plans| &&
    Refusal(w.sessions[a.caller], a.caller, w.plans[a.admitted], a.confirmation, w.registry).None?
  }

  function AdmitStep(w: World, sid: SessionID, pid: PlanID): World
    requires sid < |w.sessions| && pid < |w.plans|
  {
    var s := w.sessions[sid];
    w.(registry := Acquired(w.registry, s.clusterUID),
       sessions := w.sessions[sid := s.(busy := true)],
       plans := w.plans[pid := w.plans[pid].(consumed := true)],
       leases := w.leases + [Lease(sid, pid, s.clusterUID, true, true, 0, false, false)])
  }

  /** First half of the release closure; the second attempt finds it done. */
  function ReleaseStep(w: World, l: nat): World
    requires l < |w.leases|
  {
    var lease := w.leases[l];
    if lease.registryHeld then
      w.(registry := Released(w.registry, lease.scope), leases := w.leases[l := lease.(registryHeld := false)])
    else w
  }

  /** Second half; it follows the first. */
  function ClearStep(w: World, l: nat): World
    requires l < |w.leases|
  {
    var lease := w.leases[l];
    if !lease.registryHeld && lease.busyHeld && lease.session < |w.sessions| then
      w.(sessions := w.sessions[lease.session := w.sessions[lease.session].(busy := false)],
         leases := w.leases[l := lease.(busyHeld := false)])
    else w
  }

  /** The worker's next statement, whatever other callers of the release have done. */
  function WorkStep(w: World, l: nat): World
    requires l < |w.leases|
  {
    var at := w.leases[l].at;
    var w' := if at == 1 then ReleaseStep(w, l) else if at == 2 then ClearStep(w, l) else w;
    var lease :=
      w'.leases[l].(at := at + 1, stored := w.leases[l].stored || at == 0, done := w.leases[l].done || at == 3);
    w'.(leases := w'.leases[l := lease])
  }

  /** DiscardConfiguration drops the request of an unconsumed plan of this session. */
  function DiscardStep(w: World, sid: SessionID, pid: PlanID): World
    requires pid < |w.plans|
  {
    var p := w.plans[pid];
    if p.session == sid && !p.consumed && p.request.Configuration?
    then w.(plans := w.plans[pid := p.(request := NoRequest)])
    else w
  }

  /** A prepared plan starts unconsumed; PrepareKubernetesUpgrade may tell a session which
      cluster it serves, once, also while a mutation is active. */
  function Step(w: World, a: Action): World {
    match a
    case Open(writes) => w.(sessions := w.sessions + [Session(false, false, writes, false, "")])
    case Prepare(p) => w.(plans := w.plans + [p.(consumed := false)])
    case LearnCluster(sid, uid) =>
      if sid < |w.sessions| && w.sessions[sid].clusterUID == ""
      then w.(sessions := w.sessions[sid := w.sessions[sid].(clusterUID := uid)]) else w
    case Admit(sid, pid, c) => if Admits(w, a) then AdmitStep(w, sid, pid) else w
    case ReleaseRegistry(l) => if l < |w.leases| then ReleaseStep(w, l) else w
    case ClearBusy(l) => if l < |w.leases| then ClearStep(w, l) else w
    case Work(l) => if l < |w.leases| then WorkStep(w, l) else w
    case Close(sid) =>
      if sid < |w.sessions| then w.(sessions := w.sessions[sid := w.sessions[sid].(closed := true)]) else w
    case EndLifetime(sid) =>
      if sid < |w.sessions| then w.(sessions := w.sessions[sid := w.sessions[sid].(lifetimeEnded := true)]) else w
    case Discard(sid, pid) => if pid < |w.plans| then DiscardStep(w, sid, pid) else w
  }

  /** The state after a run of steps by any callers in any order. */
  function Run(actions: seq<Action>): World {
    if actions == [] then INITIAL else Step(Run(actions[..|actions| - 1]), actions[|actions| - 1])
  }

  // ---- The invariant ---------------------------------------------------------------------

  predicate Live(w: World, l: nat) { l < |w.leases| && w.leases[l].registryHeld }

  /** A known cluster has at most one live lease; a live lease of unknown scope is the only one. */
  ghost predicate Exclusive(w: World) {
    forall l, m :: 0 <= l < m && Live(w, l) && Live(w, m) ==>
      w.leases[l].scope != w.leases[m].scope && w.leases[l].scope != "" && w.leases[m].scope != ""
  }

  ghost predicate LiveScope(w: World, scope: string) {
    exists l :: 0 <= l && Live(w, l) && w.leases[l].scope == scope
  }

  /** The registry stores exactly the scopes of the live leases, each with count one. */
  ghost predicate Registered(w: World) {
    && (forall scope ::
         scope in w.registry.known ==> scope != "" && w.registry.known[scope] == 1 && LiveScope(w, scope))
    && (forall l :: 0 <= l && Live(w, l) && w.leases[l].scope != "" ==> w.leases[l].scope in w.registry.known)
    && w.registry.unknown == (if LiveScope(w, "") then 1 else 0)
  }

  predicate Outstanding(w: World, l: nat, sid: SessionID) {
    l < |w.leases| && w.leases[l].session == sid && w.leases[l].busyHeld
  }

  /** Every lease belongs to a session, which is busy while the lease is outstanding. */
  ghost predicate Owned(w: World) {
    forall l :: 0 <= l < |w.leases| ==>
      && w.leases[l].session < |w.sessions|
      && (w.leases[l].busyHeld ==> w.sessions[w.leases[l].session].busy)
  }

  predicate IsBusy(w: World, sid: SessionID) { sid < |w.sessions| && w.sessions[sid].busy }

  ghost predicate Claimed(w: World) {
    forall sid :: 0 <= sid && IsBusy(w, sid) ==> exists l :: 0 <= l && Outstanding(w, l, sid)
  }

  ghost predicate Single(w: World) {
    forall l, m, sid :: 0 <= l < m && Outstanding(w, l, sid) ==> !Outstanding(w, m, sid)
  }

  /** A session is busy exactly while one lease of it is not fully released. */
  ghost predicate Flagged(w: World) { Owned(w) && Claimed(w) && Single(w) }

  predicate WellOrdered(lease: Lease) {
    && (lease.registryHeld ==> lease.busyHeld)
    && (lease.at >= 1 ==> lease.stored) && (lease.at >= 2 ==> !lease.registryHeld)
    && (lease.at >= 3 ==> !lease.busyHeld) && (lease.done ==> lease.at >= 4)
  }

  ghost predicate Ordered(w: World) {
    && (forall l :: 0 <= l < |w.leases| ==> WellOrdered(w.leases[l]))
    && (forall l :: 0 <= l < |w.leases| ==> w.leases[l].plan < |w.plans| && w.plans[w.leases[l].plan].consumed)
  }

  ghost predicate Inv(w: World) {
    Exclusive(w) && Registered(w) && Flagged(w) && Ordered(w)
  }

  // ---- Every step keeps it -----------------------------------------------------------------

  /** Whatever is live when a scope is granted is known and different, and so is the grant. */
  lemma GrantApart(w: World, scope: string, l: nat)
    requires Registered(w) && !Refuses(w.registry, scope) && Live(w, l)
    ensures w.leases[l].scope != scope && w.leases[l].scope != "" && scope != ""
  {
    assert LiveScope(w, w.leases[l].scope);
  }

  lemma AdmitExclusive(w: World, w': World, lease: Lease)
    requires Exclusive(w) && Registered(w) && !Refuses(w.registry, lease.scope)
    requires w'.leases == w.leases + [lease]
    ensures Exclusive(w')
  {
    forall l, m | 0 <= l < m && Live(w', l) && Live(w', m)
      ensures w'.leases[l].scope != w'.leases[m].scope && w'.leases[l].scope != "" && w'.leases[m].scope != ""
    {
      assert Live(w, l);
      if m < |w.leases| { assert Live(w, m); } else { GrantApart(w, lease.scope, l); }
    }
  }

  lemma GrantScopes(w: World, w': World, lease: Lease)
    requires w'.leases == w.leases + [lease] && lease.registryHeld
    ensures forall s :: LiveScope(w', s) <==> LiveScope(w, s) || s == lease.scope
  {
    assert Live(w', |w.leases|);
    forall s | LiveScope(w, s) ensures LiveScope(w', s) {
      var l :| 0 <= l && Live(w, l) && w.leases[l].scope == s;
      assert Live(w', l);
    }
    forall s | LiveScope(w', s) && s != lease.scope ensures LiveScope(w, s) {
      var l :| 0 <= l && Live(w', l) && w'.leases[l].scope == s;
      assert Live(w, l);
    }
  }

  lemma AdmitRegistered(w: World, w': World, lease: Lease)
    requires Registered(w) && !Refuses(w.registry, lease.scope) && lease.registryHeld
    requires w'.leases == w.leases + [lease] && w'.registry == Acquired(w.registry, lease.scope)
    ensures Registered(w')
  {
    GrantScopes(w, w', lease);
    forall l | 0 <= l && Live(w', l) && w'.leases[l].scope != "" ensures w'.leases[l].scope in w'.registry.known {
      if l < |w.leases| { assert Live(w, l); }
    }
  }

  lemma AdmitFlagged(w: World, w': World, lease: Lease)
    requires Flagged(w) && lease.session < |w.sessions| && !w.sessions[lease.session].busy && lease.busyHeld
    requires w'.leases == w.leases + [lease]
    requires w'.sessions == w.sessions[lease.session := w.sessions[lease.session].(busy := true)]
    ensures Flagged(w')
  {
    var n := |w.leases|;
    forall sid | 0 <= sid && IsBusy(w', sid) ensures exists l :: 0 <= l && Outstanding(w', l, sid) {
      if sid == lease.session {
        assert Outstanding(w', n, sid);
      } else {
        assert IsBusy(w, sid);
        var l :| 0 <= l && Outstanding(w, l, sid);
        assert Outstanding(w', l, sid);
      }
    }
    forall l, m, sid | 0 <= l < m && Outstanding(w', l, sid) ensures !Outstanding(w', m, sid) {
      assert l < n ==> Outstanding(w, l, sid);
      assert m < n ==> !Outstanding(w, m, sid);
    }
  }

  lemma ScopeReleased(w: World, l: nat, s: string)
    requires Exclusive(w) && Live(w, l)
    ensures LiveScope(ReleaseStep(w, l), s) <==> LiveScope(w, s) && s != w.leases[l].scope
  {
    var w' := ReleaseStep(w, l);
    if LiveScope(w', s) {
      var m :| 0 <= m && Live(w', m) && w'.leases[m].scope == s;
      assert Live(w, m) && m != l;
      assert m < l ==> w.leases[m].scope != w.leases[l].scope;
      assert l < m ==> w.leases[l].scope != w.leases[m].scope;
    }
    if LiveScope(w, s) && s != w.leases[l].scope {
      var m :| 0 <= m && Live(w, m) && w.leases[m].scope == s;
      assert Live(w', m);
    }
  }

  lemma ReleaseScopes(w: World, l: nat)
    requires Exclusive(w) && Live(w, l)
    ensures forall s :: LiveScope(ReleaseStep(w, l), s) <==> LiveScope(w, s) && s != w.leases[l].scope
  {
    forall s ensures LiveScope(ReleaseStep(w, l), s) <==> LiveScope(w, s) && s != w.leases[l].scope {
      ScopeReleased(w, l, s);
    }
  }

  lemma ReleaseExclusive(w: World, l: nat)
    requires Exclusive(w) && Live(w, l)
    ensures Exclusive(ReleaseStep(w, l))
  {
    var w' := ReleaseStep(w, l);
    assert forall m :: 0 <= m && Live(w', m) ==> Live(w, m) && w'.leases[m].scope == w.leases[m].scope;
  }

  lemma ReleaseRegistered(w: World, l: nat)
    requires Exclusive(w) && Registered(w) && Live(w, l)
    ensures Registered(ReleaseStep(w, l))
  {
    var w', scope := ReleaseStep(w, l), w.leases[l].scope;
    ReleaseScopes(w, l);
    assert LiveScope(w, scope);
    forall m | 0 <= m && Live(w', m) && w'.leases[m].scope != "" ensures w'.leases[m].scope in w'.registry.known {
      assert LiveScope(w', w'.leases[m].scope);
    }
  }

  /** Leases stay outstanding, for sessions that stay as busy or are cleared. */
  lemma ClaimedStays(w: World, w': World)
    requires Claimed(w) && forall sid :: 0 <= sid && IsBusy(w', sid) ==> IsBusy(w, sid)
    requires forall l, sid :: 0 <= l && Outstanding(w, l, sid) && IsBusy(w', sid) ==> Outstanding(w', l, sid)
    ensures Claimed(w')
  {
    forall sid | 0 <= sid && IsBusy(w', sid) ensures exists l :: 0 <= l && Outstanding(w', l, sid) {
      assert IsBusy(w, sid);
      var l :| 0 <= l && Outstanding(w, l, sid);
      assert Outstanding(w', l, sid);
    }
  }

  lemma SingleStays(w: World, w': World)
    requires Single(w) && forall l, sid :: 0 <= l && Outstanding(w', l, sid) ==> Outstanding(w, l, sid)
    ensures Single(w')
  {
  }

  lemma ReleaseFlagged(w: World, l: nat)
    requires Flagged(w) && l < |w.leases|
    ensures Flagged(ReleaseStep(w, l))
  {
    ClaimedStays(w, ReleaseStep(w, l));
    SingleStays(w, ReleaseStep(w, l));
  }

  lemma ReleaseKeeps(w: World, l: nat)
    requires Inv(w) && l < |w.leases|
    ensures Inv(ReleaseStep(w, l))
  {
    ReleaseFlagged(w, l);
    if Live(w, l) {
      ReleaseExclusive(w, l);
      ReleaseRegistered(w, l);
    }
  }

  /** The same leases are live for the same scopes. */
  ghost predicate SameHolders(w: World, w': World) {
    |w'.leases| == |w.leases| && forall l :: 0 <= l < |w.leases| ==>
      w'.leases[l].registryHeld == w.leases[l].registryHeld && w'.leases[l].scope == w.leases[l].scope
  }

  lemma SameScope(w: World, w': World, s: string)
    requires SameHolders(w, w') && LiveScope(w, s)
    ensures LiveScope(w', s)
  {
    var l :| 0 <= l && Live(w, l) && w.leases[l].scope == s;
    assert Live(w', l);
  }

  lemma SameScopes(w: World, w': World)
    requires SameHolders(w, w')
    ensures forall s :: LiveScope(w', s) <==> LiveScope(w, s)
  {
    forall s | LiveScope(w, s) ensures LiveScope(w', s) { SameScope(w, w', s); }
    forall s | LiveScope(w', s) ensures LiveScope(w, s) { SameScope(w', w, s); }
  }

  lemma SameLive(w: World, w': World)
    requires Exclusive(w) && Registered(w) && w'.registry == w.registry && SameHolders(w, w')
    ensures Exclusive(w') && Registered(w')
  {
    SameScopes(w, w');
    assert forall l :: 0 <= l && Live(w', l) ==> Live(w, l) && w'.leases[l].scope == w.leases[l].scope;
  }

  lemma ClearFlagged(w: World, l: nat)
    requires Flagged(w) && l < |w.leases|
    ensures Flagged(ClearStep(w, l))
  {
    var w', sid := ClearStep(w, l), w.leases[l].session;
    if !w.leases[l].registryHeld && w.leases[l].busyHeld {
      assert Outstanding(w, l, sid);
      forall m: nat | m < |w.leases| && m != l && w.leases[m].busyHeld ensures w.leases[m].session != sid {
        assert Outstanding(w, m, w.leases[m].session);
      }
      ClaimedStays(w, w');
      SingleStays(w, w');
    }
  }

  lemma ClearKeeps(w: World, l: nat)
    requires Inv(w) && l < |w.leases|
    ensures Inv(ClearStep(w, l))
  {
    SameLive(w, ClearStep(w, l));
    ClearFlagged(w, l);
  }

  /** Steps that touch neither the registry nor any busy flag nor any lease's release. */
  ghost predicate Quiet(w: World, w': World) {
    && w'.registry == w.registry && |w'.leases| == |w.leases|
    && (forall l :: 0 <= l < |w.leases| ==> WellOrdered(w'.leases[l]))
    && (forall l :: 0 <= l < |w.leases| ==>
          w'.leases[l].(at := w.leases[l].at, stored := w.leases[l].stored, done := w.leases[l].done) == w.leases[l])
    && |w'.sessions| >= |w.sessions|
    && (forall sid :: 0 <= sid < |w.sessions| ==> w'.sessions[sid].busy == w.sessions[sid].busy)
    && (forall sid :: |w.sessions| <= sid < |w'.sessions| ==> !w'.sessions[sid].busy)
    && |w'.plans| >= |w.plans|
    && (forall pid :: 0 <= pid < |w.plans| && w.plans[pid].consumed ==> w'.plans[pid].consumed)
  }

  predicate Quieting(a: Action) { !a.Admit? && !a.ReleaseRegistry? && !a.ClearBusy? && !a.Work? }

  lemma QuietStep(w: World, a: Action)
    requires Ordered(w) && Quieting(a)
    ensures Quiet(w, Step(w, a))
  {
  }

  lemma QuietFlagged(w: World, w': World)
    requires Flagged(w) && Quiet(w, w')
    ensures Flagged(w')
  {
    ClaimedStays(w, w');
    SingleStays(w, w');
  }

  lemma QuietKeeps(w: World, w': World)
    requires Inv(w) && Quiet(w, w')
    ensures Inv(w')
  {
    SameLive(w, w');
    QuietFlagged(w, w');
  }

  lemma AdmitOrdered(w: World, a: Action)
    requires Ordered(w) && Admits(w, a)
    ensures Ordered(AdmitStep(w, a.caller, a.admitted))
  {
  }

  lemma AdmitKeeps(w: World, a: Action)
    requires Inv(w) && Admits(w, a)
    ensures Inv(AdmitStep(w, a.caller, a.admitted))
  {
    var scope := w.sessions[a.caller].clusterUID;
    AdmitParts(w, AdmitStep(w, a.caller, a.admitted), Lease(a.caller, a.admitted, scope, true, true, 0, false, false));
    AdmitOrdered(w, a);
  }

  lemma AdmitParts(w: World, w': World, lease: Lease)
    requires Inv(w) && !Refuses(w.registry, lease.scope) && lease.registryHeld && lease.busyHeld
    requires lease.session < |w.sessions| && !w.sessions[lease.session].busy
    requires w'.leases == w.leases + [lease] && w'.registry == Acquired(w.registry, lease.scope)
    requires w'.sessions == w.sessions[lease.session := w.sessions[lease.session].(busy := true)]
    ensures Exclusive(w') && Registered(w') && Flagged(w')
  {
    AdmitExclusive(w, w', lease);
    AdmitRegistered(w, w', lease);
    AdmitFlagged(w, w', lease);
  }

  /** The worker moves on: a release step of its own, then only its position. */
  lemma WorkKeeps(w: World, l: nat)
    requires Inv(w) && l < |w.leases|
    ensures Inv(WorkStep(w, l))
  {
    var at := w.leases[l].at;
    if at == 1 {
      ReleaseKeeps(w, l);
      MoveOn(ReleaseStep(w, l), WorkStep(w, l), l);
    } else if at == 2 {
      ClearKeeps(w, l);
      assert !w.leases[l].registryHeld && w.leases[l].session < |w.sessions|;
      MoveOn(ClearStep(w, l), WorkStep(w, l), l);
    } else {
      MoveOn(w, WorkStep(w, l), l);
    }
  }

  lemma MoveOn(w: World, w': World, l: nat)
    requires Inv(w) && l < |w.leases| && |w'.leases| == |w.leases| && WellOrdered(w'.leases[l])
    requires var lease, moved := w.leases[l], w'.leases[l];
      w' == w.(leases := w.leases[l := lease.(at := moved.at, stored := moved.stored, done := moved.done)])
    ensures Inv(w')
  {
    QuietKeeps(w, w');
  }

  lemma StepKeeps(w: World, a: Action)
    requires Inv(w)
    ensures Inv(Step(w, a))
  {
    match a
    case Admit(_, _, _) => if Admits(w, a) { AdmitKeeps(w, a); }
    case ReleaseRegistry(l) => if l < |w.leases| { ReleaseKeeps(w, l); }
    case ClearBusy(l) => if l < |w.leases| { ClearKeeps(w, l); }
    case Work(l) => if l < |w.leases| { WorkKeeps(w, l); }
    case _ => QuietActionKeeps(w, a);
  }

  lemma QuietActionKeeps(w: World, a: Action)
    requires Inv(w) && Quieting(a)
    ensures Inv(Step(w, a))
  {
    QuietStep(w, a);
    QuietKeeps(w, Step(w, a));
  }

  /** Under every interleaving, the registry and the busy flags describe the leases. */
  lemma {:induction false} RunKeeps(actions: seq<Action>)
    ensures Inv(Run(actions))
  {
    if actions == [] {
    } else {
      RunKeeps(actions[..|actions| - 1]);
      StepKeeps(Run(actions[..|actions| - 1]), actions[|actions| - 1]);
    }
  }

  // ---- What this means for the callers -------------------------------------------------------

  ghost function LiveCount(w: World, scope: string): nat {
    |set l | 0 <= l < |w.leases| && Live(w, l) && w.leases[l].scope == scope|
  }

  lemma CountOfLive(w: World, scope: string)
    requires Exclusive(w)
    ensures LiveCount(w, scope) == (if LiveScope(w, scope) then 1 else 0)
  {
    var live := set l | 0 <= l < |w.leases| && Live(w, l) && w.leases[l].scope == scope;
    if l :| 0 <= l && Live(w, l) && w.leases[l].scope == scope {
      assert LiveScope(w, scope);
      assert forall m :: m in live ==> m == l;
      assert live == {l};
    } else {
      assert live == {};
    }
  }

  /** The registry's counters are the numbers of live leases, and no counter exceeds one. */
  lemma CountersAreLeases(actions: seq<Action>, scope: string)
    ensures var w := Run(actions);
      && LiveCount(w, scope) == (if scope == "" then w.registry.unknown else CountOf(w.registry, scope))
      && LiveCount(w, scope) <= 1
      && (w.registry.unknown == 1 ==> w.registry.known == map[])
  {
    RunKeeps(actions);
    var w := Run(actions);
    CountOfLive(w, scope);
    if scope != "" {
      KnownLive(w, scope);
    }
    if w.registry.unknown == 1 {
      UnknownAlone(w);
    }
  }

  lemma KnownLive(w: World, scope: string)
    requires Registered(w) && scope != ""
    ensures scope in w.registry.known <==> LiveScope(w, scope)
  {
    if l :| 0 <= l && Live(w, l) && w.leases[l].scope == scope {
      assert scope in w.registry.known;
    }
  }

  lemma UnknownAlone(w: World)
    requires Inv(w) && LiveScope(w, "")
    ensures w.registry.known == map[]
  {
    var u :| 0 <= u && Live(w, u) && w.leases[u].scope == "";
    assert forall l :: 0 <= l && Live(w, l) ==> l == u;
    assert forall scope :: LiveScope(w, scope) ==> scope == "";
    assert w.registry.known.Keys == {};
  }

  /** A repeated release, of either half, changes nothing. */
  lemma LateReleaseHarmless(w: World, l: nat)
    requires Inv(w) && l < |w.leases| && !w.leases[l].busyHeld
    ensures Step(w, ReleaseRegistry(l)) == w && Step(w, ClearBusy(l)) == w
  {
    assert WellOrdered(w.leases[l]);
  }

  /** And a release that does clear a busy flag clears it for its own lease: no other lease of
      the session is outstanding, before or after. */
  lemma ClearsOnlyItsOwn(actions: seq<Action>, l: nat, m: nat)
    requires l < |Run(actions).leases| && m < |Run(actions).leases| && l != m
    requires Step(Run(actions), ClearBusy(l)) != Run(actions)
    requires Run(actions).leases[l].session == Run(actions).leases[m].session
    ensures !Run(actions).leases[m].busyHeld && !Step(Run(actions), ClearBusy(l)).leases[m].busyHeld
  {
    RunKeeps(actions);
    var w := Run(actions);
    var sid := w.leases[l].session;
    assert Outstanding(w, l, sid);
    assert l < m ==> !Outstanding(w, m, sid);
    assert m < l ==> Outstanding(w, m, sid) ==> !Outstanding(w, l, sid);
  }

  /** Admitting a plan and releasing it, in its two steps, restores the registry and the
      session; only the plan stays consumed. */
  lemma AdmitThenRelease(w: World, a: Action)
    requires Inv(w) && Admits(w, a)
    ensures var l := |w.leases|;
      var w' := Step(Step(Step(w, a), ReleaseRegistry(l)), ClearBusy(l));
      w'.registry == w.registry && w'.sessions == w.sessions &&
      w'.plans == w.plans[a.admitted := w.plans[a.admitted].(consumed := true)] && w'.leases[..l] == w.leases
  {
    var l, s := |w.leases|, w.sessions[a.caller];
    var w1 := AdmitStep(w, a.caller, a.admitted);
    GrantUndone(w, s.clusterUID);
    var w2 := ReleaseStep(w1, l);
    assert w2.registry == w.registry && w2.sessions == w1.sessions;
    var w3 := ClearStep(w2, l);
    assert w3.sessions == w.sessions;
  }

  lemma GrantUndone(w: World, scope: string)
    requires Inv(w) && !Refuses(w.registry, scope)
    ensures Released(Acquired(w.registry, scope), scope) == w.registry
  {
    if scope != "" {
      assert scope !in w.registry.known;
      assert w.registry.known[scope := 1] - {scope} == w.registry.known;
    }
  }

  // ---- Over whole runs --------------------------------------------------------------------------

  /** Sessions stay closed, plans stay consumed and dropped requests stay dropped. */
  ghost predicate Later(w: World, w': World) {
    && |w'.sessions| >= |w.sessions| && |w'.plans| >= |w.plans|
    && (forall sid :: 0 <= sid < |w.sessions| && w.sessions[sid].closed ==> w'.sessions[sid].closed)
    && (forall pid :: 0 <= pid < |w.plans| && w.plans[pid].consumed ==> w'.plans[pid].consumed)
    && (forall pid :: 0 <= pid < |w.plans| && w.plans[pid].request.NoRequest? ==> w'.plans[pid].request.NoRequest?)
  }

  lemma StepLater(w: World, a: Action)
    ensures Later(w, Step(w, a))
  {
  }

  /** What rules a plan out, or a session, rules it out for the rest of every run. */
  lemma {:induction false} RuledOutForever(actions: seq<Action>, more: seq<Action>)
    ensures Later(Run(actions), Run(actions + more))
  {
    if more == [] {
      assert actions + more == actions;
    } else {
      var some, last := more[..|more| - 1], more[|more| - 1];
      RuledOutForever(actions, some);
      RunSnoc(actions, some, last);
      assert more == some + [last];
      StepLater(Run(actions + some), last);
    }
  }

  lemma RunSnoc(actions: seq<Action>, some: seq<Action>, last: Action)
    ensures Run(actions + (some + [last])) == Step(Run(actions + some), last)
  {
    var whole := actions + (some + [last]);
    assert whole[..|whole| - 1] == actions + some;
  }

  /** Whether step i of the run admits plan pid. */
  predicate AdmitsAt(actions: seq<Action>, i: nat, pid: PlanID) {
    i < |actions| && Admits(Run(actions[..i]), actions[i]) && actions[i].admitted == pid
  }

  lemma PrefixRun(actions: seq<Action>, i: nat, j: nat)
    requires i < j <= |actions|
    ensures Run(actions[..i + 1]) == Step(Run(actions[..i]), actions[i])
    ensures actions[..j] == actions[..i + 1] + actions[i + 1..j]
  {
    assert actions[..i + 1][..i] == actions[..i];
  }

  /** No plan is admitted twice. */
  lemma AdmittedOnce(actions: seq<Action>, i: nat, j: nat, pid: PlanID)
    requires i < j && AdmitsAt(actions, i, pid)
    ensures !AdmitsAt(actions, j, pid)
  {
    if j < |actions| {
      PrefixRun(actions, i, j);
      RuledOutForever(actions[..i + 1], actions[i + 1..j]);
    }
  }

  /** A configuration that was discarded is never admitted afterwards. */
  lemma DiscardedNeverAdmitted(actions: seq<Action>, i: nat, j: nat, sid: SessionID, pid: PlanID)
    requires i < j && i < |actions| && actions[i] == Discard(sid, pid)
    requires Step(Run(actions[..i]), actions[i]) != Run(actions[..i])
    ensures !AdmitsAt(actions, j, pid)
  {
    if j < |actions| {
      PrefixRun(actions, i, j);
      RuledOutForever(actions[..i + 1], actions[i + 1..j]);
    }
  }

  /** Nothing is admitted to a session after Close. */
  lemma ClosedAdmitsNothing(actions: seq<Action>, i: nat, j: nat, sid: SessionID)
    requires i < j < |actions| && actions[i] == Close(sid) && sid < |Run(actions[..i]).sessions|
    requires actions[j].Admit? && actions[j].caller == sid
    ensures !Admits(Run(actions[..j]), actions[j])
  {
    PrefixRun(actions, i, j);
    RuledOutForever(actions[..i + 1], actions[i + 1..j]);
  }

  /** A retained stream announces completion only after its result is stored and its lease is
      fully released: whoever has waited for it finds the session free, unless a later lease
      was granted. */
  lemma AnnouncedIsReleased(actions: seq<Action>, l: nat)
    requires l < |Run(actions).leases| && Run(actions).leases[l].done
    ensures var w := Run(actions);
      w.leases[l].stored && !w.leases[l].registryHeld && !w.leases[l].busyHeld &&
      (w.leases[l].session < |w.sessions| && w.sessions[w.leases[l].session].busy ==>
         exists m :: 0 <= m && m != l && Outstanding(w, m, w.leases[l].session))
  {
    RunKeeps(actions);
    var w := Run(actions);
    assert WellOrdered(w.leases[l]);
    assert w.leases[l].session < |w.sessions|;
    assert IsBusy(w, w.leases[l].session) ==> exists m :: 0 <= m && Outstanding(w, m, w.leases[l].session);
  }

  // ---- Over the fields --------------------------------------------------------------------------------

  /** What the operator typed is what the plan asks for: its token, or for a device wipe the device,
      up to white space around it and a leading "/dev/". */
  predicate TypedRight(p: Plan, c: Confirmation) {
    && (p.requiredToken != "" && !p.request.WipeDevice? ==> c.token == p.requiredToken)
    && (p.requiredToken != "" && p.request.WipeDevice? ==>
          var named := Text.TrimPrefix(Text.TrimSpace(p.request.device), "/dev/");
          named != "" && Text.TrimPrefix(Text.TrimSpace(c.token), "/dev/") == named)
  }

  /** Nothing holds the scope, and nothing of unknown scope, or for an unknown scope nothing at all. */
  predicate Free(r: Registry, scope: string) {
    r.unknown == 0 && if scope == "" then r.known == map[] else scope !in r.known || r.known[scope] == 0
  }

  /** The answer to an admission: the first thing that is wrong. */
  lemma RefusalMeans(s: Session, sid: SessionID, p: Plan, c: Confirmation, r: Registry)
    ensures Refusal(s, sid, p, c, r) ==
      if s.closed || s.lifetimeEnded then Some(SessionClosed)
      else if !s.writesEnabled then Some(WritesDisabled)
      else if p.session != sid || p.request == NoRequest then Some(InvalidPlan)
      else if p.consumed then Some(PlanUsed)
      else if p.blocked != "" then Some(ActionBlocked)
      else if !c.approved || !TypedRight(p, c) then Some(ConfirmationRequired)
      else if s.busy || !Free(r, s.clusterUID) then Some(MutationBusy)
      else None
  {
  }

  /** In every run, a step admits a plan exactly when an open session with writes enabled that is not
      busy was given its own unused, unblocked plan with the confirmation it asks for, while no live
      lease stands in the way. */
  lemma AdmitsMeans(actions: seq<Action>, a: Action)
    requires a.Admit?
    ensures var w := Run(actions);
      Admits(w, a) <==>
        a.caller < |w.sessions| && a.admitted < |w.plans| &&
        var s, p := w.sessions[a.caller], w.plans[a.admitted];
        && !s.closed && !s.lifetimeEnded && s.writesEnabled && !s.busy
        && p.session == a.caller && p.request != NoRequest && !p.consumed && p.blocked == ""
        && a.confirmation.approved && TypedRight(p, a.confirmation)
        && !LiveScope(w, "")
        && (if s.clusterUID == "" then forall l :: 0 <= l ==> !Live(w, l) else !LiveScope(w, s.clusterUID))
  {
    RunKeeps(actions);
    var w := Run(actions);
    if a.caller < |w.sessions| && a.admitted < |w.plans| {
      RefusalMeans(w.sessions[a.caller], a.caller, w.plans[a.admitted], a.confirmation, w.registry);
      FreeMeans(w, w.sessions[a.caller].clusterUID);
    }
  }

  lemma FreeMeans(w: World, scope: string)
    requires Registered(w)
    ensures Free(w.registry, scope) <==>
      !LiveScope(w, "") && (if scope == "" then forall l :: 0 <= l ==> !Live(w, l) else !LiveScope(w, scope))
  {
    forall l | 0 <= l && Live(w, l) ensures LiveScope(w, w.leases[l].scope) {}
    if scope == "" {
      if w.registry.known == map[] && !LiveScope(w, "") {
        assert forall l :: 0 <= l ==> !Live(w, l);
      }
      if forall l :: 0 <= l ==> !Live(w, l) {
        assert w.registry.known.Keys == {};
      }
    } else {
      KnownLive(w, scope);
    }
  }

  /** What the steps of a run do to a session: it is closed or ends, learns its cluster once, and never
      changes whether it may write. */
  lemma SessionSteps(w: World, a: Action, sid: SessionID)
    requires sid < |w.sessions|
    ensures sid < |Step(w, a).sessions|
    ensures var s, s' := w.sessions[sid], Step(w, a).sessions[sid];
      && s'.writesEnabled == s.writesEnabled && (s'.closed <==> s.closed || a == Close(sid))
      && (s'.lifetimeEnded <==> s.lifetimeEnded || a == EndLifetime(sid))
      && s'.clusterUID == if a.LearnCluster? && a.learner == sid && s.clusterUID == "" then a.uid else s.clusterUID
  {
  }

  /** And to a plan: being admitted consumes it, and its owner may discard an unused configuration. */
  lemma PlanSteps(w: World, a: Action, pid: PlanID)
    requires pid < |w.plans|
    ensures pid < |Step(w, a).plans|
    ensures var p, p' := w.plans[pid], Step(w, a).plans[pid];
      && p'.session == p.session && p'.blocked == p.blocked && p'.requiredToken == p.requiredToken
      && (p'.consumed <==> p.consumed || (Admits(w, a) && a.admitted == pid))
      && p'.request ==
         if a == Discard(p.session, pid) && !p.consumed && p.request.Configuration? then NoRequest else p.request
  {
  }

  /** And to a lease: its worker stores the result, releases in two halves and announces, one step each;
      anybody may release it too, and nothing else touches it. */
  lemma LeaseSteps(w: World, a: Action, l: nat)
    requires l < |w.leases| && w.leases[l].session < |w.sessions|
    ensures l < |Step(w, a).leases|
    ensures var x, x', works := w.leases[l], Step(w, a).leases[l], a == Work(l);
      && x'.session == x.session && x'.plan == x.plan && x'.scope == x.scope
      && x'.at == (if works then x.at + 1 else x.at)
      && (x'.stored <==> x.stored || (works && x.at == 0)) && (x'.done <==> x.done || (works && x.at == 3))
      && (x'.registryHeld <==> x.registryHeld && a != ReleaseRegistry(l) && !(works && x.at == 1))
      && (x'.busyHeld <==> x.busyHeld && (x.registryHeld || (a != ClearBusy(l) && !(works && x.at == 2))))
  {
    if a.Work? && a.worker < |w.leases| {
      assert WorkStep(w, a.worker).leases[l] == if a.worker == l then WorkStep(w, l).leases[l] else w.leases[l];
    }
  }
}
