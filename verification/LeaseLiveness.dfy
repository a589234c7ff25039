/** src/broker/worker-lease-liveness.ts: who is alive, and which leases that keeps. */
module LeaseLiveness {
  import opened Finite
  import opened CoordinationTypes

  function ControllerLiveness(lease: Lease, observations: map<ControllerId, Liveness>): Option<Liveness> {
    if lease.controller.Some? && lease.controller.value.controllerId in observations
    then Some(observations[lease.controller.value.controllerId])
    else None
  }

  predicate IsSession(observed: Option<Liveness>) { observed.Some? && observed.value.session.Some? }

  /** A client call never overrides what the broker observed about a session it manages. */
  function HeartbeatObservation(controller: Controller, observed: Option<Liveness>, now: Time): (entry: Liveness)
    ensures IsSession(observed) ==> entry == observed.value
    ensures !IsSession(observed) ==> entry.session.None? && entry.state.Connected?
  {
    if IsSession(observed) then observed.value else Liveness(controller, Connected, now, None)
  }

  predicate IsControlled(lease: Lease) {
    (lease.state.Active? || lease.state.Contested?) && lease.controller.Some?
  }

  predicate PastGrace(observed: Option<Liveness>, now: Time, grace: nat) {
    observed.Some? && observed.value.state.Disconnected? && now >= observed.value.observedAt + grace
  }

  predicate LeaseHasExpired(lease: Lease, observed: Option<Liveness>, now: Time, grace: nat) {
    IsControlled(lease) &&
    if IsSession(observed) then PastGrace(observed, now, grace)
    else now >= lease.expiresAt || PastGrace(observed, now, grace)
  }

  /** The first half of the read projection: the deadline a managed session's lease shows. */
  function WithHorizon(subject: Subject, observed: Option<Liveness>, now: Time, duration: nat, grace: nat): Subject {
    if IsControlled(subject.lease) && IsSession(observed)
    then subject.(lease := subject.lease.(expiresAt :=
      if observed.value.state.Connected? then now + duration else observed.value.observedAt + grace))
    else subject
  }

  function ObservedLeaseCopy(subject: Subject, observed: Option<Liveness>, now: Time, duration: nat, grace: nat)
    : (copy: Subject)
    ensures copy.lease.version == subject.lease.version && copy.lease.controller == subject.lease.controller
    ensures copy == subject.(lease := copy.lease, updatedAt := copy.updatedAt)
  {
    var s := WithHorizon(subject, observed, now, duration, grace);
    if !LeaseHasExpired(s.lease, observed, now, grace) then s
    else s.(lease := s.lease.(state := Orphaned, tokenHash := None, orphanedAt := Some(now), contestedBy := None),
            updatedAt := now)
  }

  /** Whether the projection built a new record: the source compares object identity. */
  predicate IsCopied(lease: Lease, observed: Option<Liveness>, now: Time, grace: nat) {
    (IsControlled(lease) && IsSession(observed)) || LeaseHasExpired(lease, observed, now, grace)
  }
}
