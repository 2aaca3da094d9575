/** The router's end of a connection next to the control plane that hands out the leases: what a bind that was taken
    says about the lease it named. */
module SessionLease {

  import opened Basics
  import opened Frames
  import opened SessionAuth
  import M = SessionManager
  import P = ControlPlane
  import Requests
  import SessionStreams

  datatype State = State(plane: P.Audited, auth: Auth)

  /** asked says whether the session was given the router to ask. */
  datatype Event =
    | AtPlane(event: P.Event)
    | Bound(bind: Bind, number: U32, keyId: U16, asked: bool)
    | Stales

  /** What the router says of a binding. */
  predicate Validates(plane: P.Audited, b: Bind) {
    P.ValidBinding(plane.router, M.IdentityOf(b), b.binding.epoch, b.binding.token)
  }

  function Step(c: Config, s: State, e: Event): State {
    match e
    case AtPlane(event) => s.(plane := P.Audit(s.plane, event))
    case Bound(b, number, keyId, asked) =>
      var lease := if asked then Some(Validates(s.plane, b)) else None;
      s.(auth := BindSession(c, s.auth, b, number, keyId, lease).0)
    case Stales => s.(auth := MarkStale(s.auth))
  }

  function Run(c: Config, events: seq<Event>): State {
    if events == [] then State(P.Audited(P.EMPTY, map[], {}), NEW_AUTH)
    else Step(c, Run(c, events[..|events| - 1]), events[|events| - 1])
  }

  predicate AlwaysAsked(events: seq<Event>) {
    forall i :: 0 <= i < |events| && events[i].Bound? ==> events[i].asked
  }

  /** The lease a binding names was issued and acknowledged, by that node and in that epoch. */
  predicate Acknowledged(plane: P.Audited, b: Binding) {
    (P.Identity(b.node, b.runtime, b.endpoint), b.epoch, b.token) in plane.acked
  }

  lemma ValidIsAcknowledged(plane: P.Audited, b: Bind)
    requires P.LeasesOk(plane) && Validates(plane, b)
    ensures Acknowledged(plane, b.binding)
  {
    assert P.LeaseOk(plane, M.IdentityOf(b));
  }

  lemma {:induction false} PlaneStaysOk(c: Config, events: seq<Event>)
    ensures P.LeasesOk(Run(c, events).plane)
  {
    hide P.Audit, BindSession, MarkStale;
    if events != [] {
      PlaneStaysOk(c, events[..|events| - 1]);
      var s, e := Run(c, events[..|events| - 1]), events[|events| - 1];
      if e.AtPlane? { P.AuditKeepsLeases(s.plane, e.event); }
    }
  }

  lemma AcksStay(plane: P.Audited, e: P.Event, b: Binding)
    requires Acknowledged(plane, b)
    ensures Acknowledged(P.Audit(plane, e), b)
  {
  }

  /** In every run in which the router is asked, with any datagrams, invitations and sweeps in between: what a
      connection is bound to, or was last bound to, is a lease that this very node had acknowledged in that epoch. */
  lemma {:induction false} BoundMeansAcknowledged(c: Config, events: seq<Event>)
    requires AlwaysAsked(events)
    ensures Run(c, events).auth.state != Unbound ==>
              Acknowledged(Run(c, events).plane, Run(c, events).auth.bind.binding)
  {
    hide P.Audit, BindSession, P.ValidBinding, P.LeasesOk, Acknowledged;
    if events != [] {
      var before, e := events[..|events| - 1], events[|events| - 1];
      assert forall i :: 0 <= i < |before| ==> before[i] == events[i];
      BoundMeansAcknowledged(c, before);
      PlaneStaysOk(c, before);
      var s := Run(c, before);
      match e {
        case AtPlane(event) => if s.auth.state != Unbound { AcksStay(s.plane, event, s.auth.bind.binding); }
        case Bound(b, number, keyId, _) => TakenIsAcknowledged(c, s, b, number, keyId);
        case Stales =>
      }
    }
  }

  /** A bind the router does not validate is refused and changes nothing; one that is taken names an acknowledged
      lease. */
  lemma TakenIsAcknowledged(c: Config, s: State, b: Bind, number: U32, keyId: U16)
    requires P.LeasesOk(s.plane)
    ensures var (a, answer) := BindSession(c, s.auth, b, number, keyId, Some(Validates(s.plane, b)));
            && (!Validates(s.plane, b) ==> answer.Refused?)
            && (answer.Refused? ==> a == s.auth)
            && (answer.Done? ==> a.bind == b && a.state == Current && Acknowledged(s.plane, b.binding))
  {
    hide P.LeasesOk, P.ValidBinding, Acknowledged, KnownKey;
    TakenExactly(c, s.auth, b, number, keyId, Some(Validates(s.plane, b)));
    if Validates(s.plane, b) { ValidIsAcknowledged(s.plane, b); }
  }

  /** A request is admitted exactly if it is valid, the connection is current where a lease is required, its stream is
      new and the limit is not reached. */
  lemma AdmitsExactly(m: SessionStreams.Streams, rules: SessionStreams.Rules, c: Config, a: Auth, r: Requests.Request)
    ensures var (m', answer) := M.Admit(m, rules, c, a, r);
            && (answer.Done? <==>
                  && r.Valid() && (c.requireLease ==> a.state == Current) && r.stream !in m
                  && |SessionStreams.LiveStreams(m)| < rules.maxInflight)
            && (answer == Refused(401) <==> r.Valid() && c.requireLease && a.state != Current)
            && (answer.Refused? ==> m' == m)
            && (answer.Done? ==> m' == SessionStreams.Submit(m, rules, r).0)
  {
    hide SessionStreams.LiveStreams, Requests.Request.Valid;
  }

  /** So where a lease is required and the router is asked, every request that is admitted comes over a connection whose
      lease its node had acknowledged in that epoch. */
  lemma AdmittedMeansAcknowledged(c: Config, events: seq<Event>, m: SessionStreams.Streams, rules: SessionStreams.Rules,
                                  r: Requests.Request)
    requires AlwaysAsked(events) && c.requireLease && M.Admit(m, rules, c, Run(c, events).auth, r).1.Done?
    ensures Run(c, events).auth.state == Current
    ensures Acknowledged(Run(c, events).plane, Run(c, events).auth.bind.binding)
  {
    hide Run, Acknowledged, M.Admit;
    AdmitsExactly(m, rules, c, Run(c, events).auth, r);
    BoundMeansAcknowledged(c, events);
  }
}
