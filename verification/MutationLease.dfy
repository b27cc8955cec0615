/** The objects behind Admission's steps: the process registry, a session, a prepared plan and
    the release closure that admit returns. Each method is proved to take exactly the step
    that the state machine of module Admission takes. */
module MutationLease {
  import opened Sequences
  import A = Admission
  import Text

  /** mutationRegistry. */
  class MutationRegistry {
    var known: map<string, nat>
    var unknown: nat

    function State(): A.Registry
      reads this
    {
      A.Registry(known, unknown)
    }

    constructor ()
      ensures State() == A.INITIAL.registry
    {
      known, unknown := map[], 0;
    }

    method Acquire(scope: string) returns (ok: bool)
      modifies this
      ensures ok <==> !A.Refuses(old(State()), scope)
      ensures State() == if ok then A.Acquired(old(State()), scope) else old(State())
    {
      if unknown > 0 || (scope == "" && |known| > 0) || (scope != "" && scope in known && known[scope] > 0) {
        return false;
      }
      if scope == "" {
        unknown := unknown + 1;
      } else {
        known := known[scope := (if scope in known then known[scope] else 0) + 1];
      }
      return true;
    }

    /** The body of the closure that acquire returns. */
    method Release(scope: string)
      modifies this
      ensures State() == A.Released(old(State()), scope)
    {
      if scope == "" {
        unknown := if unknown == 0 then A.UINT32_MAX else unknown - 1;
      } else if scope !in known || known[scope] <= 1 {
        known := known - {scope};
      } else {
        known := known[scope := known[scope] - 1];
      }
    }
  }

  class PreparedState {
    const session: A.SessionID
    const blocked: string
    const requiredToken: string
    var consumed: bool
    var request: A.Request

    function State(): A.Plan
      reads this
    {
      A.Plan(session, consumed, request, blocked, requiredToken)
    }

    constructor (session: A.SessionID, request: A.Request, blocked: string, requiredToken: string)
      ensures State() == A.Plan(session, false, request, blocked, requiredToken)
    {
      this.session, this.request, this.blocked, this.requiredToken := session, request, blocked, requiredToken;
      consumed := false;
    }
  }

  class Session {
    const id: A.SessionID
    const registry: MutationRegistry
    const writesEnabled: bool
    var closed: bool
    var lifetimeEnded: bool
    var mutationBusy: bool
    var clusterUID: string

    function State(): A.Session
      reads this
    {
      A.Session(closed, lifetimeEnded, writesEnabled, mutationBusy, clusterUID)
    }

    constructor (id: A.SessionID, registry: MutationRegistry, writesEnabled: bool)
      ensures this.id == id && this.registry == registry && State() == A.Session(false, false, writesEnabled, false, "")
    {
      this.id, this.registry, this.writesEnabled := id, registry, writesEnabled;
      closed, lifetimeEnded, mutationBusy, clusterUID := false, false, false, "";
    }

    /** Session.admit. */
    method Admit(plan: PreparedState, confirmation: A.Confirmation) returns (error: Option<A.Error>, lease: Lease?)
      modifies this`mutationBusy, plan`consumed, registry
      ensures error == old(A.Refusal(State(), id, plan.State(), confirmation, registry.State()))
      ensures error.None? <==> old(
        && !closed && !lifetimeEnded && writesEnabled
        && plan.session == id && !plan.request.NoRequest? && !plan.consumed && plan.blocked == ""
        && confirmation.approved
        && (plan.requiredToken != "" && !plan.request.WipeDevice? ==> confirmation.token == plan.requiredToken)
        && (plan.requiredToken != "" && plan.request.WipeDevice? ==>
              var named := Text.TrimPrefix(Text.TrimSpace(plan.request.device), "/dev/");
              named != "" && Text.TrimPrefix(Text.TrimSpace(confirmation.token), "/dev/") == named)
        && !mutationBusy && registry.unknown == 0
        && (if clusterUID == "" then registry.known == map[]
            else clusterUID !in registry.known || registry.known[clusterUID] == 0))
      ensures error.Some? ==> lease == null && registry.State() == old(registry.State())
      ensures error.Some? ==> State() == old(State()) && plan.State() == old(plan.State())
      ensures error.None? ==> lease != null && fresh(lease) && lease.Holds(this, old(clusterUID))
      ensures error.None? ==> registry.State() == A.Acquired(old(registry.State()), old(clusterUID))
      ensures error.None? ==>
        State() == old(State()).(busy := true) && plan.State() == old(plan.State()).(consumed := true)
    {
      lease := null;
      if closed || lifetimeEnded { return Some(A.SessionClosed), null; }
      if !writesEnabled { return Some(A.WritesDisabled), null; }
      if plan.session != id || plan.request.NoRequest? { return Some(A.InvalidPlan), null; }
      if plan.consumed { return Some(A.PlanUsed), null; }
      if plan.blocked != "" { return Some(A.ActionBlocked), null; }
      var tokenMatches := confirmation.token == plan.requiredToken;
      if plan.request.WipeDevice? {
        tokenMatches := A.DeviceConfirmed(plan.request.device, confirmation.token);
      }
      if !confirmation.approved || (plan.requiredToken != "" && !tokenMatches) {
        return Some(A.ConfirmationRequired), null;
      }
      if mutationBusy { return Some(A.MutationBusy), null; }
      var granted := registry.Acquire(clusterUID);
      if !granted { return Some(A.MutationBusy), null; }
      plan.consumed := true;
      mutationBusy := true;
      lease := new Lease(this, clusterUID);
      return None, lease;
    }

    /** Session.Close, the part under the mutex. */
    method Close()
      modifies this`closed
      ensures State() == old(State()).(closed := true)
    {
      closed := true;
    }

    /** DiscardConfiguration. */
    method DiscardConfiguration(plan: PreparedState)
      modifies plan`request
      ensures plan.State() ==
        if plan.session == id && !plan.consumed && old(plan.request).Configuration?
        then old(plan.State()).(request := A.NoRequest) else old(plan.State())
    {
      if plan.session != id || plan.consumed || !plan.request.Configuration? { return; }
      plan.request := A.NoRequest;
    }
  }

  /** The release closure with its two stages and their once guards. */
  class Lease {
    const session: Session
    const scope: string
    var registryHeld: bool
    var busyHeld: bool
    /** How often this lease has really been released. */
    ghost var releases: nat

    ghost predicate Holds(s: Session, uid: string)
      reads this
    {
      session == s && scope == uid && registryHeld && busyHeld && Unreleased()
    }

    ghost predicate Unreleased()
      reads this
    {
      releases == 0
    }

    constructor (session: Session, scope: string)
      ensures Holds(session, scope)
    {
      this.session, this.scope := session, scope;
      registryHeld, busyHeld, releases := true, true, 0;
    }

    /** Registry first, busy flag second; later calls do nothing. */
    method Release()
      requires registryHeld <==> busyHeld
      modifies this, session`mutationBusy, session.registry
      ensures !registryHeld && !busyHeld
      ensures releases == old(releases) + if old(busyHeld) then 1 else 0
      ensures session.registry.State() ==
        if old(registryHeld) then A.Released(old(session.registry.State()), scope) else old(session.registry.State())
      ensures session.State() == if old(busyHeld) then old(session.State()).(busy := false) else old(session.State())
    {
      if !busyHeld { return; }
      session.registry.Release(scope);
      registryHeld := false;
      session.mutationBusy := false;
      busyHeld := false;
      releases := releases + 1;
    }
  }
}
