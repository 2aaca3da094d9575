/** The lease handshake between one client per identity and the issuer that serves the control port, over a
    network that loses, duplicates and reorders datagrams. A datagram once sent stays deliverable for ever, so
    a run may deliver it late, again, or never. */
module Lease {

  import opened Basics
  import opened ControlPlane

  // ---- The client --------------------------------------------------------------------------------------------

  /** Where a client stands inside a call: the datagram it sends next, or the window it waits in. */
  datatype Phase =
    | Idle
    | HelloDue(attempt: nat)
    | AwaitInvite(attempt: nat)
    | AckDue(attempt: nat)
    | ProbeDue(attempt: nat)
    | AwaitProbe(attempt: nat)

  datatype Client = Client(
    id: Identity,
    epoch: nat,
    nextSeq: nat,
    token: nat,
    active: bool,
    open: bool,
    phase: Phase,
    trunkPort: U16,
    maxAttempts: nat,
    probes: bool)

  datatype Input =
    | Request(opens: bool)
    | Acknowledge
    | Renew(now: nat, opens: bool)
    | Send(ok: bool)
    | Arrive(d: Datagram)
    | Quiet
    | Beat(ok: bool)

  function Make(c: Client, kind: U8, token: nat): Datagram {
    Datagram(kind, 1, c.id, c.nextSeq, c.epoch, AVAILABLE, HEALTHY, 0, 0, 0, 0, c.trunkPort, token)
  }

  predicate IsOffer(c: Client, d: Datagram) {
    d.kind == INVITE && d.id == c.id && d.epoch == c.epoch && d.leaseToken != 0
  }

  function Begin(c: Client, opens: bool): Client {
    if c.trunkPort == 0 || !(c.open || opens) then c
    else c.(open := true, token := 0, active := false, phase := HelloDue(0))
  }

  function Transmit(c: Client, kind: U8, token: nat, ok: bool, next: Client): (Client, Option<Datagram>) {
    if ok then (next.(nextSeq := c.nextSeq + 1), Some(Make(c, kind, token)))
    else (c.(nextSeq := c.nextSeq + 1, phase := Idle), None)
  }

  function ClientSend(c: Client, ok: bool): (Client, Option<Datagram>) {
    match c.phase
    case HelloDue(k) => Transmit(c, NODE_HELLO, 0, ok, c.(phase := AwaitInvite(k)))
    case AckDue(k) =>
      Transmit(c, LEASE_ACK, c.token, ok,
               if c.probes then c.(phase := ProbeDue(k)) else c.(active := true, phase := Idle))
    case ProbeDue(k) => Transmit(c, NODE_HELLO, 0, ok, c.(phase := AwaitProbe(k)))
    case _ => (c, None)
  }

  function ClientArrive(c: Client, d: Datagram): Client {
    if !IsOffer(c, d) then c
    else match c.phase
         case AwaitInvite(_) => c.(token := d.leaseToken, phase := Idle)
         case AwaitProbe(k) =>
           if d.leaseToken != c.token then c.(token := 0, phase := Idle)
           else if k + 1 < c.maxAttempts then c.(phase := AckDue(k + 1))
           else c.(phase := Idle)
         case _ => c
  }

  function ClientQuiet(c: Client): Client {
    match c.phase
    case AwaitInvite(k) => if k + 1 < c.maxAttempts then c.(phase := HelloDue(k + 1)) else c.(phase := Idle)
    case AwaitProbe(_) => c.(active := true, phase := Idle)
    case _ => c
  }

  function ClientStep(c: Client, i: Input): (Client, Option<Datagram>) {
    match i
    case Request(opens) => (if c.phase == Idle then Begin(c, opens) else c, None)
    case Acknowledge => (if c.phase == Idle && c.token != 0 then c.(phase := AckDue(0)) else c, None)
    case Renew(now, opens) =>
      (if c.phase == Idle then Begin(c.(epoch := if now > c.epoch then now else c.epoch + 1), opens) else c, None)
    case Send(ok) => ClientSend(c, ok)
    case Arrive(d) => (ClientArrive(c, d), None)
    case Quiet => (ClientQuiet(c), None)
    case Beat(ok) =>
      if c.phase == Idle && c.active && c.open then Transmit(c, HEARTBEAT, 0, ok, c) else (c, None)
  }

  // ---- The issuer --------------------------------------------------------------------------------------------

  /** One turn of the issuer's loop: the datagram is ingested, and a hello is answered with a lease. Every hello
      uses up a token, whether or not it is issued. */
  function Serve(r: Router, counter: nat, d: Datagram, now: nat): (Router, nat, Option<Datagram>) {
    var r1 := Ingest(r, d, now).0;
    if d.kind != NODE_HELLO then (r1, counter, None)
    else
      var (r2, fresh1) := IssueInvite(r1, d.id, counter + 1);
      if fresh1.Some? then (r2, counter + 1, fresh1)
      else
        var (r3, again) := ReissueInvite(r1, d.id, d.epoch);
        (r3, counter + 1, again)
  }

  // ---- The system --------------------------------------------------------------------------------------------

  datatype System = System(
    router: Router,
    counter: nat,
    clients: map<Identity, Client>,
    toIssuer: set<Datagram>,
    toClients: set<Datagram>)

  datatype Step =
    | ClientActs(id: Identity, input: Input)
    | Deliver(d: Datagram, now: nat)

  predicate Enabled(s: System, step: Step) {
    match step
    case ClientActs(id, input) => id in s.clients && (input.Arrive? ==> input.d in s.toClients)
    case Deliver(d, _) => d in s.toIssuer
  }

  function Just(o: Option<Datagram>): set<Datagram> {
    if o.Some? then {o.value} else {}
  }

  function Take(s: System, step: Step): System
    requires Enabled(s, step)
  {
    match step
    case ClientActs(id, input) =>
      var (c, out) := ClientStep(s.clients[id], input);
      s.(clients := s.clients[id := c], toIssuer := s.toIssuer + Just(out))
    case Deliver(d, now) =>
      var (r, counter, out) := Serve(s.router, s.counter, d, now);
      s.(router := r, counter := counter, toClients := s.toClients + Just(out))
  }

  /** A client as its constructor leaves it. */
  predicate NewClient(id: Identity, c: Client) {
    c.id == id && id.node != 0 && c.maxAttempts > 0 && c.token == 0 && !c.active && !c.open && c.phase == Idle
  }

  predicate Start(s: System) {
    && s.router == EMPTY && s.toIssuer == {} && s.toClients == {}
    && forall id :: id in s.clients ==> NewClient(id, s.clients[id])
  }

  ghost predicate Run(s: System, steps: seq<Step>, t: System)
    decreases |steps|
  {
    if steps == [] then t == s
    else Enabled(s, steps[0]) && Run(Take(s, steps[0]), steps[1..], t)
  }

  // ---- The invariant -----------------------------------------------------------------------------------------

  /** The issuer has sent an invitation with this token to this identity in this epoch. */
  ghost predicate Offered(s: System, id: Identity, epoch: nat, token: nat) {
    exists d :: d in s.toClients && d.id == id && d.epoch == epoch && d.leaseToken == token
  }

  ghost predicate Acknowledged(s: System, id: Identity, epoch: nat, token: nat) {
    exists d :: d in s.toIssuer && d.kind == LEASE_ACK && d.id == id && d.epoch == epoch && d.leaseToken == token
  }

  /** What clients send: their own identity, numbers they will not use again, never an epoch ahead of theirs,
      and an acknowledgement only of a token offered in that epoch. */
  ghost predicate SentOk(s: System, d: Datagram) {
    && d.id in s.clients && d.id.node != 0
    && d.number < s.clients[d.id].nextSeq && d.epoch <= s.clients[d.id].epoch
    && (d.kind == NODE_HELLO || d.kind == LEASE_ACK || d.kind == HEARTBEAT)
    && d.flags == 1 && d.tcpPort > 0 && d.availability == AVAILABLE && d.health == HEALTHY
    && (d.kind == LEASE_ACK ==> Offered(s, d.id, d.epoch, d.leaseToken))
  }

  predicate OfferOk(s: System, d: Datagram) {
    && d.kind == INVITE && d.id in s.router.nodes && 0 < d.leaseToken <= s.counter
    && d.epoch <= s.router.nodes[d.id].epoch
    && (d.epoch == s.router.nodes[d.id].epoch ==> d.leaseToken == s.router.nodes[d.id].token)
  }

  predicate SameLease(d: Datagram, e: Datagram) {
    d.leaseToken == e.leaseToken <==> (d.id == e.id && d.epoch == e.epoch)
  }

  ghost predicate NodeOk(s: System, id: Identity) {
    && id in s.router.nodes && id in s.clients
    && var n := s.router.nodes[id];
       && (n.state == Invited || n.state == Active)
       && n.trunkReady && n.tcpPort > 0 && n.availability == AVAILABLE && n.health == HEALTHY
       && n.inbound < s.clients[id].nextSeq && n.epoch <= s.clients[id].epoch
       && n.token != 0 && Offered(s, id, n.epoch, n.token)
       && (n.state == Active ==> Acknowledged(s, id, n.epoch, n.token))
  }

  /** No acknowledgement is too old for the invited node that waits for it. */
  predicate AckStillCounts(s: System, d: Datagram) {
    d.kind == LEASE_ACK && d.id in s.router.nodes ==>
      var n := s.router.nodes[d.id];
      n.state == Invited && n.epoch == d.epoch ==> d.number > n.inbound
  }

  predicate ClientLocal(c: Client) {
    && c.maxAttempts > 0
    && (c.token != 0 || c.phase != Idle || c.active ==> c.open && c.trunkPort > 0)
    && (c.phase.AckDue? || c.phase.ProbeDue? || c.phase.AwaitProbe? || c.active ==> c.token != 0)
    && (c.phase.HelloDue? || c.phase.AwaitInvite? ==> c.token == 0)
  }

  ghost predicate ClientOk(s: System, id: Identity) {
    && id in s.clients && id.node != 0
    && var c := s.clients[id];
       && c.id == id && ClientLocal(c)
       && (c.token != 0 ==> Offered(s, id, c.epoch, c.token))
  }

  ghost predicate Inv(s: System) {
    && (forall d :: d in s.toIssuer ==> SentOk(s, d))
    && (forall d :: d in s.toClients ==> OfferOk(s, d))
    && (forall d, e :: d in s.toClients && e in s.toClients ==> SameLease(d, e))
    && (forall id :: id in s.router.nodes ==> NodeOk(s, id))
    && (forall d :: d in s.toIssuer ==> AckStillCounts(s, d))
    && (forall id :: id in s.clients ==> ClientOk(s, id))
  }

  // ---- Client steps keep it ----------------------------------------------------------------------------------

  /** An invitation that reaches a client while it probes carries the lease the client acknowledged. */
  predicate ProbeAgrees(c: Client, input: Input) {
    input.Arrive? && IsOffer(c, input.d) && c.phase.AwaitProbe? ==> input.d.leaseToken == c.token
  }

  /** The client's error branch for a lease that changed under an invited identity is never taken. */
  lemma LeaseNeverChangesUnderAProbe(s: System, id: Identity, input: Input)
    requires Inv(s) && Enabled(s, ClientActs(id, input))
    ensures ProbeAgrees(s.clients[id], input)
  {
    var c := s.clients[id];
    assert ClientOk(s, id);
    if input.Arrive? && IsOffer(c, input.d) && c.phase.AwaitProbe? {
      var d :| d in s.toClients && d.id == id && d.epoch == c.epoch && d.leaseToken == c.token;
      assert SameLease(input.d, d);
    }
  }

  /** A client holds no token but the last one it was offered in its present epoch. */
  lemma ClientMoves(c: Client, input: Input)
    requires ClientLocal(c) && ProbeAgrees(c, input)
    ensures var c' := ClientStep(c, input).0;
            && ClientLocal(c') && c'.id == c.id && c.nextSeq <= c'.nextSeq && c.epoch <= c'.epoch
            && (c'.token == 0 || (c'.epoch == c.epoch &&
                 (c'.token == c.token || (input.Arrive? && IsOffer(c, input.d) && c'.token == input.d.leaseToken))))
  {
  }

  lemma ClientSends(c: Client, input: Input)
    requires ClientLocal(c) && ClientStep(c, input).1.Some?
    ensures var (c', out) := ClientStep(c, input);
            && (out.value.kind == NODE_HELLO || out.value.kind == LEASE_ACK || out.value.kind == HEARTBEAT)
            && out.value == Make(c, out.value.kind, out.value.leaseToken)
            && c'.nextSeq == c.nextSeq + 1 && c'.epoch == c.epoch && c.trunkPort > 0
            && (out.value.kind == LEASE_ACK ==> out.value.leaseToken == c.token && c.token != 0)
  {
  }

  lemma ClientStaysOk(s: System, id: Identity, input: Input, other: Identity)
    requires Inv(s) && Enabled(s, ClientActs(id, input)) && other in s.clients
    ensures ClientOk(Take(s, ClientActs(id, input)), other)
  {
    var t := Take(s, ClientActs(id, input));
    assert ClientOk(s, other) && ClientOk(s, id);
    LeaseNeverChangesUnderAProbe(s, id, input);
    ClientMoves(s.clients[id], input);
    assert t.toClients == s.toClients;
    if other == id && t.clients[id].token != 0 && t.clients[id].token != s.clients[id].token {
      assert input.d in t.toClients;
    }
  }

  lemma SentStaysOk(s: System, id: Identity, input: Input, d: Datagram)
    requires Inv(s) && Enabled(s, ClientActs(id, input)) && d in Take(s, ClientActs(id, input)).toIssuer
    ensures SentOk(Take(s, ClientActs(id, input)), d) && AckStillCounts(Take(s, ClientActs(id, input)), d)
  {
    var t := Take(s, ClientActs(id, input));
    assert ClientOk(s, id);
    LeaseNeverChangesUnderAProbe(s, id, input);
    ClientMoves(s.clients[id], input);
    assert t.toClients == s.toClients;
    if d in s.toIssuer {
      assert SentOk(s, d) && AckStillCounts(s, d);
    } else {
      ClientSends(s.clients[id], input);
      if d.id in s.router.nodes { assert NodeOk(s, d.id); }
    }
  }

  lemma ClientActsKeepsInv(s: System, id: Identity, input: Input)
    requires Inv(s) && Enabled(s, ClientActs(id, input))
    ensures Inv(Take(s, ClientActs(id, input)))
  {
    var t := Take(s, ClientActs(id, input));
    forall d | d in t.toIssuer ensures SentOk(t, d) && AckStillCounts(t, d) { SentStaysOk(s, id, input, d); }
    forall d | d in t.toClients ensures OfferOk(t, d) { assert OfferOk(s, d); }
    forall other | other in t.clients ensures ClientOk(t, other) { ClientStaysOk(s, id, input, other); }
    forall other | other in t.router.nodes ensures NodeOk(t, other) {
      assert NodeOk(s, other) && ClientOk(s, id);
      LeaseNeverChangesUnderAProbe(s, id, input);
      ClientMoves(s.clients[id], input);
      var n := s.router.nodes[other];
      if n.state == Active {
        var d :| d in s.toIssuer && d.kind == LEASE_ACK && d.id == other && d.epoch == n.epoch &&
                 d.leaseToken == n.token;
        assert d in t.toIssuer;
      }
    }
  }

  // ---- Issuer steps keep it ----------------------------------------------------------------------------------

  /** In a reachable system a delivery does one of five things to the node it is about. */
  datatype Verdict = Ignored | Leased | Reminded | Activated | Refreshed

  ghost predicate Did(r: Router, counter: nat, d: Datagram, now: nat, v: Verdict) {
    var (r', counter', out) := Serve(r, counter, d, now);
    && counter <= counter' <= counter + 1
    && match v
       case Ignored => r'.nodes == r.nodes && out == None
       case Leased =>
         && d.kind == NODE_HELLO && (d.id in r.nodes ==> r.nodes[d.id].epoch < d.epoch)
         && d.id in r'.nodes && r'.nodes == r.nodes[d.id := r'.nodes[d.id]] && counter' == counter + 1
         && var n := r'.nodes[d.id];
            && n.state == Invited && n.epoch == d.epoch && n.inbound == d.number && n.token == counter + 1
            && n.trunkReady && n.tcpPort == d.tcpPort && n.availability == d.availability && n.health == d.health
            && out.Some? && out.value.kind == INVITE && out.value.id == d.id && out.value.epoch == d.epoch
            && out.value.leaseToken == counter + 1
       case Reminded =>
         && d.kind == NODE_HELLO && d.id in r.nodes && r.nodes[d.id].state == Invited && r.nodes[d.id].epoch == d.epoch
         && r'.nodes == r.nodes[d.id := r.nodes[d.id].(outbound := r.nodes[d.id].outbound + 1)]
         && out.Some? && out.value.kind == INVITE && out.value.id == d.id && out.value.epoch == d.epoch
         && out.value.leaseToken == r.nodes[d.id].token
       case Activated =>
         && d.kind == LEASE_ACK && d.id in r.nodes && r.nodes[d.id].state == Invited && r.nodes[d.id].epoch == d.epoch
         && d.leaseToken == r.nodes[d.id].token && out == None
         && r'.nodes ==
            r.nodes[d.id := r.nodes[d.id].(state := Active, tcpPort := d.tcpPort, inbound := d.number, lastSeen := now)]
       case Refreshed =>
         && d.kind == HEARTBEAT && d.id in r.nodes && r.nodes[d.id].state == Active && r.nodes[d.id].epoch == d.epoch
         && out == None
         && r'.nodes == r.nodes[d.id := r.nodes[d.id].(inbound := d.number, lastSeen := now,
                                                       loadPct := d.loadPct, queueDepth := d.queueDepth)]
  }

  predicate Waits(r: Router, d: Datagram) {
    d.id in r.nodes && r.nodes[d.id].state == Invited && r.nodes[d.id].epoch == d.epoch
  }

  lemma HelloDoes(s: System, d: Datagram, now: nat) returns (v: Verdict)
    requires Inv(s) && d in s.toIssuer && d.kind == NODE_HELLO
    ensures Did(s.router, s.counter, d, now, v)
  {
    assert SentOk(s, d);
    var r := s.router;
    if d.id !in r.nodes {
      v := Leased;
    } else {
      assert NodeOk(s, d.id);
      v := if d.epoch > r.nodes[d.id].epoch then Leased else if Waits(r, d) then Reminded else Ignored;
    }
  }

  lemma AckDoes(s: System, d: Datagram, now: nat) returns (v: Verdict)
    requires Inv(s) && d in s.toIssuer && d.kind == LEASE_ACK
    ensures Did(s.router, s.counter, d, now, v)
    ensures v == if Waits(s.router, d) then Activated else Ignored
  {
    assert SentOk(s, d) && AckStillCounts(s, d);
    v := if Waits(s.router, d) then Activated else Ignored;
    var i :| i in s.toClients && i.id == d.id && i.epoch == d.epoch && i.leaseToken == d.leaseToken;
    assert OfferOk(s, i);
    assert NodeOk(s, d.id);
  }

  lemma BeatDoes(s: System, d: Datagram, now: nat) returns (v: Verdict)
    requires Inv(s) && d in s.toIssuer && d.kind == HEARTBEAT
    ensures Did(s.router, s.counter, d, now, v)
  {
    assert SentOk(s, d);
    var r := s.router;
    if d.id !in r.nodes {
      v := Ignored;
    } else {
      assert NodeOk(s, d.id);
      var n := r.nodes[d.id];
      v := if d.epoch == n.epoch && d.number > n.inbound && n.state == Active then Refreshed else Ignored;
    }
  }

  lemma DeliverDoes(s: System, d: Datagram, now: nat) returns (v: Verdict)
    requires Inv(s) && d in s.toIssuer
    ensures Did(s.router, s.counter, d, now, v)
  {
    assert SentOk(s, d);
    if d.kind == NODE_HELLO { v := HelloDoes(s, d, now); }
    else if d.kind == LEASE_ACK { v := AckDoes(s, d, now); }
    else { v := BeatDoes(s, d, now); }
  }

  lemma OffersStayOk(s: System, d: Datagram, now: nat)
    requires Inv(s) && d in s.toIssuer
    ensures var t := Take(s, Deliver(d, now));
            && (forall i :: i in t.toClients ==> OfferOk(t, i))
            && (forall i, j :: i in t.toClients && j in t.toClients ==> SameLease(i, j))
  {
    var t := Take(s, Deliver(d, now));
    var v := DeliverDoes(s, d, now);
    forall i | i in t.toClients ensures OfferOk(t, i) {
      if i in s.toClients { assert OfferOk(s, i); }
      if d.id in s.router.nodes { assert NodeOk(s, d.id); }
    }
    forall i, j | i in t.toClients && j in t.toClients ensures SameLease(i, j) {
      if i in s.toClients && j in s.toClients {
        assert SameLease(i, j);
      } else if i !in s.toClients && j !in s.toClients {
      } else {
        var (old0, new0) := if i in s.toClients then (i, j) else (j, i);
        NewOfferFits(s, d, now, v, old0, new0);
      }
    }
  }

  lemma NewOfferFits(s: System, d: Datagram, now: nat, v: Verdict, old0: Datagram, new0: Datagram)
    requires Inv(s) && d in s.toIssuer && Did(s.router, s.counter, d, now, v)
    requires old0 in s.toClients && Serve(s.router, s.counter, d, now).2 == Some(new0)
    ensures SameLease(old0, new0)
  {
    assert OfferOk(s, old0);
    if v == Reminded {
      assert NodeOk(s, d.id);
      var i :| i in s.toClients && i.id == d.id && i.epoch == d.epoch && i.leaseToken == s.router.nodes[d.id].token;
      assert SameLease(old0, i);
    }
  }

  lemma OtherNodesStayOk(s: System, d: Datagram, now: nat, id: Identity)
    requires Inv(s) && d in s.toIssuer && id in Take(s, Deliver(d, now)).router.nodes && id != d.id
    ensures NodeOk(Take(s, Deliver(d, now)), id)
  {
    var t := Take(s, Deliver(d, now));
    var v := DeliverDoes(s, d, now);
    assert NodeOk(s, id);
    var n := s.router.nodes[id];
    assert t.router.nodes[id] == n;
    var i :| i in s.toClients && i.id == id && i.epoch == n.epoch && i.leaseToken == n.token;
    assert i in t.toClients;
  }

  lemma NodeStaysOk(s: System, d: Datagram, now: nat)
    requires Inv(s) && d in s.toIssuer && d.id in Take(s, Deliver(d, now)).router.nodes
    ensures NodeOk(Take(s, Deliver(d, now)), d.id)
  {
    var t := Take(s, Deliver(d, now));
    var v := DeliverDoes(s, d, now);
    assert SentOk(s, d);
    if v == Leased {
      assert Serve(s.router, s.counter, d, now).2.value in t.toClients;
    } else {
      assert NodeOk(s, d.id);
      var n := s.router.nodes[d.id];
      var i :| i in s.toClients && i.id == d.id && i.epoch == n.epoch && i.leaseToken == n.token;
      assert i in t.toClients;
    }
  }

  lemma AcksStillCount(s: System, d: Datagram, now: nat, ack: Datagram)
    requires Inv(s) && d in s.toIssuer && ack in s.toIssuer
    ensures SentOk(Take(s, Deliver(d, now)), ack) && AckStillCounts(Take(s, Deliver(d, now)), ack)
  {
    var t := Take(s, Deliver(d, now));
    var v := DeliverDoes(s, d, now);
    assert SentOk(s, ack) && AckStillCounts(s, ack);
    if ack.kind == LEASE_ACK {
      var i :| i in s.toClients && i.id == ack.id && i.epoch == ack.epoch && i.leaseToken == ack.leaseToken;
      assert i in t.toClients;
      assert OfferOk(s, i);
    }
  }

  lemma DeliverKeepsInv(s: System, d: Datagram, now: nat)
    requires Inv(s) && d in s.toIssuer
    ensures Inv(Take(s, Deliver(d, now)))
  {
    var t := Take(s, Deliver(d, now));
    OffersStayOk(s, d, now);
    forall ack | ack in t.toIssuer ensures SentOk(t, ack) && AckStillCounts(t, ack) { AcksStillCount(s, d, now, ack); }
    forall id | id in t.router.nodes ensures NodeOk(t, id) {
      if id == d.id { NodeStaysOk(s, d, now); } else { OtherNodesStayOk(s, d, now, id); }
    }
    forall id | id in t.clients ensures ClientOk(t, id) {
      assert ClientOk(s, id);
      var c := s.clients[id];
      if c.token != 0 {
        var i :| i in s.toClients && i.id == id && i.epoch == c.epoch && i.leaseToken == c.token;
        assert i in t.toClients;
      }
    }
  }

  lemma StepKeepsInv(s: System, step: Step)
    requires Inv(s) && Enabled(s, step)
    ensures Inv(Take(s, step))
  {
    match step {
      case ClientActs(id, input) => ClientActsKeepsInv(s, id, input);
      case Deliver(d, now) => DeliverKeepsInv(s, d, now);
    }
  }

  lemma {:induction false} RunKeepsInv(s: System, steps: seq<Step>, t: System)
    requires Inv(s) && Run(s, steps, t)
    ensures Inv(t)
    decreases |steps|
  {
    if steps != [] {
      StepKeepsInv(s, steps[0]);
      RunKeepsInv(Take(s, steps[0]), steps[1..], t);
    }
  }

  // ---- What holds in every run -------------------------------------------------------------------------------

  ghost predicate Reachable(t: System) {
    exists s, steps :: Start(s) && Run(s, steps, t)
  }

  lemma ReachableInv(t: System)
    requires Reachable(t)
    ensures Inv(t)
  {
    var s, steps :| Start(s) && Run(s, steps, t);
    RunKeepsInv(s, steps, t);
  }

  /** All invitations for one identity and epoch carry one token, and two different such pairs never share one. */
  lemma OneLeasePerEpoch(s: System, d: Datagram, e: Datagram)
    requires Reachable(s) && d in s.toClients && e in s.toClients
    ensures d.leaseToken == e.leaseToken <==> (d.id == e.id && d.epoch == e.epoch)
  {
    ReachableInv(s);
    assert SameLease(d, e);
  }

  /** A binding that validates was acknowledged by that identity's own client in that epoch, and offered to it
      by this issuer; and while the client is still in that epoch and holds a lease, it is this one. */
  lemma ValidBindingIsTheClients(s: System, id: Identity, epoch: nat, token: nat)
    requires Reachable(s) && ValidBinding(s.router, id, epoch, token)
    ensures Acknowledged(s, id, epoch, token) && Offered(s, id, epoch, token)
    ensures id in s.clients && epoch <= s.clients[id].epoch
    ensures s.clients[id].epoch == epoch && s.clients[id].token != 0 ==> s.clients[id].token == token
  {
    ReachableInv(s);
    assert NodeOk(s, id);
    if s.clients[id].token != 0 { ClientAgreesWithRouter(s, id); }
  }

  /** A lease a client holds is the one the router holds for it, in the same epoch; so what the client presents on a
      new connection validates exactly when the node is active. */
  lemma ClientAgreesWithRouter(s: System, id: Identity)
    requires Inv(s) && id in s.clients && s.clients[id].token != 0
    ensures id in s.router.nodes && s.router.nodes[id].epoch == s.clients[id].epoch
    ensures s.router.nodes[id].token == s.clients[id].token
    ensures ValidBinding(s.router, id, s.clients[id].epoch, s.clients[id].token) <==> s.router.nodes[id].state == Active
  {
    var c := s.clients[id];
    assert ClientOk(s, id);
    var i :| i in s.toClients && i.id == id && i.epoch == c.epoch && i.leaseToken == c.token;
    assert OfferOk(s, i) && NodeOk(s, id);
  }

  /** However late an acknowledgement arrives and whatever overtook it: if the node still waits in that epoch,
      it becomes active, and from then on the acknowledged binding validates. */
  lemma AckActivates(s: System, d: Datagram, now: nat)
    requires Reachable(s) && d in s.toIssuer && d.kind == LEASE_ACK && Waits(s.router, d)
    ensures ValidBinding(Take(s, Deliver(d, now)).router, d.id, d.epoch, d.leaseToken)
  {
    ReachableInv(s);
    var v := AckDoes(s, d, now);
    assert NodeOk(s, d.id) && SentOk(s, d);
  }

  lemma LeaseLastsAStep(s: System, step: Step, id: Identity, epoch: nat, token: nat)
    requires Inv(s) && Enabled(s, step) && ValidBinding(s.router, id, epoch, token)
    ensures var r := Take(s, step).router;
            id in r.nodes && (ValidBinding(r, id, epoch, token) || epoch < r.nodes[id].epoch)
  {
    if step.Deliver? {
      var v := DeliverDoes(s, step.d, step.now);
      assert SentOk(s, step.d) && NodeOk(s, id);
    }
  }

  lemma EpochRises(s: System, step: Step, id: Identity)
    requires Enabled(s, step) && id in s.router.nodes
    ensures id in Take(s, step).router.nodes && s.router.nodes[id].epoch <= Take(s, step).router.nodes[id].epoch
  {
    if step.Deliver? { EpochNeverFalls(s.router, Receive(step.d, step.now), id); }
  }

  lemma {:induction false} EpochRisesAlong(s: System, steps: seq<Step>, t: System, id: Identity)
    requires Run(s, steps, t) && id in s.router.nodes
    ensures id in t.router.nodes && s.router.nodes[id].epoch <= t.router.nodes[id].epoch
    decreases |steps|
  {
    if steps != [] {
      EpochRises(s, steps[0], id);
      EpochRisesAlong(Take(s, steps[0]), steps[1..], t, id);
    }
  }

  /** A validated binding goes on validating through any later loss, repetition or reordering, until the
      node's own client announces a higher epoch. */
  lemma {:induction false} LeaseLasts(s: System, steps: seq<Step>, t: System, id: Identity, epoch: nat, token: nat)
    requires Inv(s) && Run(s, steps, t) && ValidBinding(s.router, id, epoch, token)
    ensures id in t.router.nodes
    ensures ValidBinding(t.router, id, epoch, token) <==> t.router.nodes[id].epoch == epoch
    decreases |steps|
  {
    if steps != [] {
      var u := Take(s, steps[0]);
      StepKeepsInv(s, steps[0]);
      LeaseLastsAStep(s, steps[0], id, epoch, token);
      if ValidBinding(u.router, id, epoch, token) {
        LeaseLasts(u, steps[1..], t, id, epoch, token);
      } else {
        EpochRisesAlong(u, steps[1..], t, id);
      }
    }
  }

  predicate DeliversAck(step: Step, id: Identity, epoch: nat, token: nat) {
    step.Deliver? && step.d.kind == LEASE_ACK && step.d.id == id && step.d.epoch == epoch && step.d.leaseToken == token
  }

  /** Nothing but the delivery of its acknowledgement makes a binding validate. */
  lemma OnlyAcksValidate(s: System, step: Step, id: Identity, epoch: nat, token: nat)
    requires Inv(s) && Enabled(s, step)
    requires !ValidBinding(s.router, id, epoch, token) && ValidBinding(Take(s, step).router, id, epoch, token)
    ensures DeliversAck(step, id, epoch, token)
  {
    if step.Deliver? {
      var v := DeliverDoes(s, step.d, step.now);
      if id in s.router.nodes { assert NodeOk(s, id); }
    }
  }

  lemma {:induction false} ValidatedByAck(s: System, steps: seq<Step>, t: System, id: Identity, epoch: nat, token: nat)
    requires Inv(s) && Run(s, steps, t)
    requires !ValidBinding(s.router, id, epoch, token) && ValidBinding(t.router, id, epoch, token)
    ensures exists i :: 0 <= i < |steps| && DeliversAck(steps[i], id, epoch, token)
    decreases |steps|
  {
    hide Inv, ValidBinding, Take, DeliversAck;
    if steps != [] {
      var u := Take(s, steps[0]);
      if ValidBinding(u.router, id, epoch, token) {
        OnlyAcksValidate(s, steps[0], id, epoch, token);
      } else {
        StepKeepsInv(s, steps[0]);
        ValidatedByAck(u, steps[1..], t, id, epoch, token);
        var i :| 0 <= i < |steps[1..]| && DeliversAck(steps[1..][i], id, epoch, token);
        assert steps[i + 1] == steps[1..][i];
      }
    }
  }

  /** A delivered acknowledgement leaves its binding validating, unless the node has gone on to a higher epoch. */
  lemma DeliveredAckValidates(s: System, step: Step, id: Identity, epoch: nat, token: nat)
    requires Inv(s) && Enabled(s, step) && DeliversAck(step, id, epoch, token)
    ensures var r := Take(s, step).router;
            id in r.nodes && (ValidBinding(r, id, epoch, token) || epoch < r.nodes[id].epoch)
  {
    var v := AckDoes(s, step.d, step.now);
    assert SentOk(s, step.d);
    var i :| i in s.toClients && i.id == id && i.epoch == epoch && i.leaseToken == token;
    assert OfferOk(s, i) && NodeOk(s, id);
  }

  lemma {:induction false} DeliveredAckLasts(s: System, steps: seq<Step>, t: System, i: nat, id: Identity, epoch: nat,
                                             token: nat)
    requires Inv(s) && Run(s, steps, t) && i < |steps| && DeliversAck(steps[i], id, epoch, token)
    ensures id in t.router.nodes
    ensures ValidBinding(t.router, id, epoch, token) <==> t.router.nodes[id].epoch == epoch
    decreases |steps|
  {
    hide Inv, Take, DeliversAck;
    var u := Take(s, steps[0]);
    StepKeepsInv(s, steps[0]);
    if i > 0 {
      DeliveredAckLasts(u, steps[1..], t, i - 1, id, epoch, token);
    } else {
      DeliveredAckValidates(s, steps[0], id, epoch, token);
      if ValidBinding(u.router, id, epoch, token) {
        LeaseLasts(u, steps[1..], t, id, epoch, token);
      } else {
        EpochRisesAlong(u, steps[1..], t, id);
      }
    }
  }

  /** So, over every run: what a client that holds a lease presents on a new connection validates exactly when one
      of its acknowledgements of that lease was delivered. That the client counts itself active plays no part. */
  lemma HeldLeaseValidatesExactly(s: System, steps: seq<Step>, t: System, id: Identity)
    requires Start(s) && Run(s, steps, t) && id in t.clients && t.clients[id].token != 0
    ensures var c := t.clients[id];
            ValidBinding(t.router, id, c.epoch, c.token) <==>
            exists i :: 0 <= i < |steps| && DeliversAck(steps[i], id, c.epoch, c.token)
  {
    hide DeliversAck;
    var c := t.clients[id];
    RunKeepsInv(s, steps, t);
    ClientAgreesWithRouter(t, id);
    if ValidBinding(t.router, id, c.epoch, c.token) { ValidatedByAck(s, steps, t, id, c.epoch, c.token); }
    if i :| 0 <= i < |steps| && DeliversAck(steps[i], id, c.epoch, c.token) {
      DeliveredAckLasts(s, steps, t, i, id, c.epoch, c.token);
    }
  }

  lemma {:induction false} RunAppend(s: System, steps: seq<Step>, t: System, step: Step)
    requires Run(s, steps, t) && Enabled(t, step)
    ensures Run(s, steps + [step], Take(t, step))
    decreases |steps|
  {
    if steps == [] {
      assert [step][1..] == [];
    } else {
      assert (steps + [step])[1..] == steps[1..] + [step];
      RunAppend(Take(s, steps[0]), steps[1..], t, step);
    }
  }

  lemma GoClient(s: System, steps: seq<Step>, t: System, id: Identity, input: Input, c: Client, out: set<Datagram>)
    returns (steps': seq<Step>, t': System)
    requires Run(s, steps, t) && Enabled(t, ClientActs(id, input))
    requires ClientStep(t.clients[id], input).0 == c && Just(ClientStep(t.clients[id], input).1) == out
    ensures Run(s, steps', t')
    ensures id in t'.clients && t'.clients[id] == c && t'.router == t.router && t'.counter == t.counter
    ensures t'.toIssuer == t.toIssuer + out && t'.toClients == t.toClients
  {
    steps', t' := steps + [ClientActs(id, input)], Take(t, ClientActs(id, input));
    RunAppend(s, steps, t, ClientActs(id, input));
  }

  /** Before the first node is known, a delivered hello is answered with an invitation. */
  lemma GoHello(s: System, steps: seq<Step>, t: System, hello: Datagram, now: nat)
    returns (steps': seq<Step>, t': System, offer: Datagram)
    requires Run(s, steps, t) && hello in t.toIssuer && hello.kind == NODE_HELLO && hello.id.node != 0
    requires t.router == EMPTY
    ensures Run(s, steps', t') && t'.clients == t.clients
    ensures hello.id in t'.router.nodes && t'.router.nodes[hello.id].state == Invited
    ensures offer in t'.toClients && offer.kind == INVITE && offer.id == hello.id && offer.epoch == hello.epoch
    ensures offer.leaseToken == t.counter + 1
  {
    steps', t' := steps + [Deliver(hello, now)], Take(t, Deliver(hello, now));
    RunAppend(s, steps, t, Deliver(hello, now));
    offer := Serve(t.router, t.counter, hello, now).2.value;
  }

  lemma OfferReaches(s: System, id: Identity) returns (steps: seq<Step>, t: System)
    requires Start(s) && id in s.clients && s.clients[id].trunkPort > 0
    ensures Run(s, steps, t)
    ensures id in t.clients && t.clients[id] ==
            s.clients[id].(open := true, token := s.counter + 1, nextSeq := s.clients[id].nextSeq + 1)
    ensures id in t.router.nodes && t.router.nodes[id].state == Invited
  {
    var c := s.clients[id];
    assert NewClient(id, c);
    var hello := Make(c, NODE_HELLO, 0);
    var c1 := c.(open := true, phase := HelloDue(0));
    var c2 := c1.(nextSeq := c.nextSeq + 1, phase := AwaitInvite(0));
    steps, t := GoClient(s, [], s, id, Request(true), c1, {});
    steps, t := GoClient(s, steps, t, id, Send(true), c2, {hello});
    var offer;
    steps, t, offer := GoHello(s, steps, t, hello, 0);
    steps, t := GoClient(s, steps, t, id, Arrive(offer), c2.(token := offer.leaseToken, phase := Idle), {});
  }

  /** What the client takes for a confirmed lease need not be one: silence after the probe may mean that both
      the acknowledgement and the probe were lost. So from any start a client that probes can become active
      while the router still waits for it, and then its binding does not validate. */
  lemma ActiveWithoutALease(s: System, id: Identity) returns (steps: seq<Step>, t: System)
    requires Start(s) && id in s.clients && s.clients[id].trunkPort > 0 && s.clients[id].probes
    ensures Run(s, steps, t)
    ensures id in t.clients && t.clients[id].active && t.clients[id].token != 0
    ensures !ValidBinding(t.router, id, t.clients[id].epoch, t.clients[id].token)
  {
    steps, t := OfferReaches(s, id);
    var c := t.clients[id];
    assert NewClient(id, s.clients[id]);
    steps, t := GoClient(s, steps, t, id, Acknowledge, c.(phase := AckDue(0)), {});
    steps, t := AckIsLost(s, steps, t, id);
  }

  lemma AckIsLost(s: System, steps: seq<Step>, t: System, id: Identity) returns (steps': seq<Step>, t': System)
    requires Run(s, steps, t) && id in t.clients && t.clients[id].phase == AckDue(0) && t.clients[id].probes
    ensures Run(s, steps', t') && t'.router == t.router && id in t'.clients
    ensures t'.clients[id] == t.clients[id].(nextSeq := t.clients[id].nextSeq + 2, active := true, phase := Idle)
  {
    var c := t.clients[id];
    var c1 := c.(nextSeq := c.nextSeq + 1, phase := ProbeDue(0));
    var c2 := c.(nextSeq := c.nextSeq + 2, phase := AwaitProbe(0));
    steps', t' := GoClient(s, steps, t, id, Send(true), c1, {Make(c, LEASE_ACK, c.token)});
    steps', t' := GoClient(s, steps', t', id, Send(true), c2, {Make(c1, NODE_HELLO, 0)});
    steps', t' := GoClient(s, steps', t', id, Quiet, c2.(active := true, phase := Idle), {});
  }

  // ---- In place ----------------------------------------------------------------------------------------------

  /** What the network does during one attempt: whether each send succeeds, and what is heard in the window. */
  datatype Window = Window(ackSent: bool, helloSent: bool, heard: seq<Datagram>)

  function FirstOffer(c: Client, heard: seq<Datagram>): (o: Option<Datagram>)
    ensures o.Some? ==> IsOffer(c, o.value)
  {
    if heard == [] then None
    else if IsOffer(c, heard[0]) then Some(heard[0])
    else FirstOffer(c, heard[1..])
  }

  lemma {:induction false} SameOffers(c: Client, d: Client, heard: seq<Datagram>)
    requires c.id == d.id && c.epoch == d.epoch
    ensures FirstOffer(c, heard) == FirstOffer(d, heard)
    decreases |heard|
  {
    if heard != [] { SameOffers(c, d, heard[1..]); }
  }

  predicate Waiting(p: Phase) {
    p.AwaitInvite? || p.AwaitProbe?
  }

  function NextInput(c: Client, w: Window): Input {
    if c.phase.AckDue? then Send(w.ackSent)
    else if !Waiting(c.phase) then Send(w.helloSent)
    else match FirstOffer(c, w.heard)
         case Some(d) => Arrive(d)
         case None => Quiet
  }

  function Rank(p: Phase): nat {
    if p == Idle then 0 else if Waiting(p) then 1 else if p.AckDue? then 3 else 2
  }

  function Logged(log: seq<Datagram>, out: Option<Datagram>): seq<Datagram> {
    if out.Some? then log + [out.value] else log
  }

  /** The path of a client through one call, with what it adds to the log of sent datagrams, when the network
      behaves as the windows say. */
  function Drive(c: Client, log: seq<Datagram>, windows: seq<Window>): (Client, seq<Datagram>)
    decreases |windows|, Rank(c.phase)
  {
    if c.phase == Idle || windows == [] then (c, log)
    else
      var (c1, out) := ClientStep(c, NextInput(c, windows[0]));
      Drive(c1, Logged(log, out), if Waiting(c.phase) then windows[1..] else windows)
  }

  lemma DriveOn(c: Client, log: seq<Datagram>, windows: seq<Window>)
    requires Waiting(c.phase) && windows != []
    ensures Drive(c, log, windows) == Drive(ClientStep(c, NextInput(c, windows[0])).0, log, windows[1..])
  {
  }

  /** One turn of the invitation loop. */
  lemma InviteTurn(c: Client, k: nat, log: seq<Datagram>, windows: seq<Window>)
    requires c.phase == HelloDue(k) && windows != []
    ensures var w := windows[0];
            var idle := c.(nextSeq := c.nextSeq + 1, phase := Idle);
            var log1 := log + [Make(c, NODE_HELLO, 0)];
            Drive(c, log, windows) ==
            if !w.helloSent then (idle, log)
            else match FirstOffer(c, w.heard)
                 case Some(d) => (idle.(token := d.leaseToken), log1)
                 case None =>
                   Drive(if k + 1 < c.maxAttempts then idle.(phase := HelloDue(k + 1)) else idle, log1, windows[1..])
  {
    var waiting := c.(nextSeq := c.nextSeq + 1, phase := AwaitInvite(k));
    SameOffers(c, waiting, windows[0].heard);
    if windows[0].helloSent {
      var log1 := log + [Make(c, NODE_HELLO, 0)];
      assert Drive(c, log, windows) == Drive(waiting, log1, windows);
      DriveOn(waiting, log1, windows);
    }
  }

  /** One turn of the acknowledgement loop. */
  lemma AckTurn(c: Client, k: nat, log: seq<Datagram>, windows: seq<Window>)
    requires c.phase == AckDue(k) && windows != []
    ensures var w := windows[0];
            var once := c.(nextSeq := c.nextSeq + 1, phase := Idle);
            var twice := c.(nextSeq := c.nextSeq + 2, phase := Idle);
            var log1 := log + [Make(c, LEASE_ACK, c.token)];
            var log2 := log1 + [Make(once, NODE_HELLO, 0)];
            Drive(c, log, windows) ==
            if !w.ackSent then (once, log)
            else if !c.probes then (once.(active := true), log1)
            else if !w.helloSent then (twice, log1)
            else match FirstOffer(c, w.heard)
                 case None => (twice.(active := true), log2)
                 case Some(d) =>
                   if d.leaseToken != c.token then (twice.(token := 0), log2)
                   else Drive(if k + 1 < c.maxAttempts then twice.(phase := AckDue(k + 1)) else twice, log2,
                              windows[1..])
  {
    var w := windows[0];
    var probing := c.(nextSeq := c.nextSeq + 1, phase := ProbeDue(k));
    var log1 := log + [Make(c, LEASE_ACK, c.token)];
    if w.ackSent && c.probes {
      assert Drive(c, log, windows) == Drive(probing, log1, windows);
      var waiting := c.(nextSeq := c.nextSeq + 2, phase := AwaitProbe(k));
      SameOffers(c, waiting, w.heard);
      if w.helloSent {
        var log2 := log1 + [Make(probing, NODE_HELLO, 0)];
        assert Drive(probing, log1, windows) == Drive(waiting, log2, windows);
        DriveOn(waiting, log2, windows);
      } else {
        assert Drive(c.(nextSeq := c.nextSeq + 2, phase := Idle), log1, windows) == Drive(probing, log1, windows);
      }
    }
  }

  /** A request for an invitation and, when one came, its acknowledgement. */
  function DriveBoth(c: Client, log: seq<Datagram>, inviteWindows: seq<Window>, ackWindows: seq<Window>):
    (Client, seq<Datagram>)
  {
    var (c1, log1) := Drive(c, log, inviteWindows);
    if c.phase != Idle && c1.token != 0 then Drive(c1.(phase := AckDue(0)), log1, ackWindows) else (c1, log1)
  }

  lemma {:induction false} DriveKeepsEpoch(c: Client, log: seq<Datagram>, windows: seq<Window>)
    ensures Drive(c, log, windows).0.epoch == c.epoch
    decreases |windows|, Rank(c.phase)
  {
    if c.phase != Idle && windows != [] {
      var (c1, out) := ClientStep(c, NextInput(c, windows[0]));
      DriveKeepsEpoch(c1, Logged(log, out), if Waiting(c.phase) then windows[1..] else windows);
    }
  }

  class LeaseClient {
    const id: Identity
    const trunkPort: U16
    const maxAttempts: nat
    const probes: bool
    var epoch: nat
    var nextSeq: nat
    var token: nat
    var active: bool
    var open: bool
    var sent: seq<Datagram>

    ghost function Value(): (c: Client)
      reads this
    {
      Client(id, epoch, nextSeq, token, active, open, Idle, trunkPort, maxAttempts, probes)
    }

    constructor (id: Identity, epoch: nat, trunkPort: U16, maxAttempts: nat, probes: bool, randomNode: nat,
                 randomRuntime: nat, clock: nat)
      requires randomNode != 0 && randomRuntime != 0 && clock != 0
      ensures NewClient(this.id, Value()) && sent == []
      ensures this.id == Identity(if id.node == 0 then randomNode else id.node,
                                  if id.runtime == 0 then randomRuntime else id.runtime, id.endpoint)
      ensures this.epoch == (if epoch == 0 then clock else epoch)
      ensures this.maxAttempts == (if maxAttempts == 0 then 1 else maxAttempts)
      ensures this.trunkPort == trunkPort && this.probes == probes && nextSeq == 1
    {
      this.id := Identity(if id.node == 0 then randomNode else id.node,
                          if id.runtime == 0 then randomRuntime else id.runtime, id.endpoint);
      this.epoch := if epoch == 0 then clock else epoch;
      this.trunkPort, this.probes := trunkPort, probes;
      this.maxAttempts := if maxAttempts == 0 then 1 else maxAttempts;
      this.nextSeq, this.token, this.active, this.open, this.sent := 1, 0, false, false, [];
    }

    method SendNow(kind: U8, leaseToken: nat, ok: bool)
      modifies this`nextSeq, this`sent
      ensures Value() == old(Value()).(nextSeq := old(nextSeq) + 1)
      ensures sent == if ok then old(sent) + [Make(old(Value()), kind, leaseToken)] else old(sent)
    {
      var d := Datagram(kind, 1, id, nextSeq, epoch, AVAILABLE, HEALTHY, 0, 0, 0, 0, trunkPort, leaseToken);
      nextSeq := nextSeq + 1;
      if ok {
        sent := sent + [d];
      }
    }

    method WaitInvite(heard: seq<Datagram>) returns (invite: Option<Datagram>)
      ensures invite == FirstOffer(Value(), heard)
      ensures invite.Some? ==> IsOffer(Value(), invite.value)
    {
      var rest := heard;
      while rest != []
        invariant FirstOffer(Value(), rest) == FirstOffer(Value(), heard)
        decreases |rest|
      {
        var d := rest[0];
        if d.kind == INVITE && d.id == id && d.epoch == epoch && d.leaseToken != 0 {
          return Some(d);
        }
        rest := rest[1..];
      }
      return None;
    }

    /** A hello, and the window it opens: the step both loops share. */
    method HelloAndWait(w: Window) returns (invite: Option<Datagram>)
      modifies this`nextSeq, this`sent
      ensures Value() == old(Value()).(nextSeq := old(nextSeq) + 1)
      ensures sent == if w.helloSent then old(sent) + [Make(old(Value()), NODE_HELLO, 0)] else old(sent)
      ensures w.helloSent ==> invite == FirstOffer(Value(), w.heard)
    {
      SendNow(NODE_HELLO, 0, w.helloSent);
      invite := None;
      if w.helloSent {
        invite := WaitInvite(w.heard);
      }
    }

    /** The whole call is one path of the client above: the one its send outcomes and windows determine. */
    method RequestInvite(opens: bool, windows: seq<Window>) returns (ok: bool)
      requires maxAttempts > 0 && |windows| >= maxAttempts
      modifies this
      ensures (Value(), sent) == Drive(Begin(old(Value()), opens), old(sent), windows)
      ensures ok == (trunkPort != 0 && (old(open) || opens) && token != 0)
    {
      hide ClientStep;
      if trunkPort == 0 || !(open || opens) {
        return false;
      }
      ghost var start := Begin(Value(), opens);
      ghost var total := Drive(start, sent, windows);
      open := true;
      token := 0;
      active := false;
      assert Value().(phase := HelloDue(0)) == start;
      var attempt := 0;
      ghost var rest := windows;
      while attempt < maxAttempts
        invariant attempt <= maxAttempts && token == 0
        invariant attempt < maxAttempts ==> total == Drive(Value().(phase := HelloDue(attempt)), sent, rest)
        invariant |rest| == |windows| - attempt && rest == windows[attempt..]
        invariant attempt == maxAttempts ==> total == (Value(), sent)
      {
        var w := windows[attempt];
        ghost var c := Value().(phase := HelloDue(attempt));
        InviteTurn(c, attempt, sent, rest);
        var invite := HelloAndWait(w);
        if !w.helloSent {
          return false;
        }
        SameOffers(c, Value(), w.heard);
        if invite.Some? {
          token := invite.value.leaseToken;
          return true;
        }
        attempt, rest := attempt + 1, rest[1..];
      }
      ok := false;
    }

    method AckLease(windows: seq<Window>) returns (ok: bool)
      requires maxAttempts > 0 && |windows| >= maxAttempts
      modifies this
      ensures (Value(), sent) ==
              Drive(if old(token) == 0 then old(Value()) else old(Value()).(phase := AckDue(0)), old(sent), windows)
      ensures ok ==> active && token == old(token) != 0
    {
      hide ClientStep;
      if token == 0 {
        return false;
      }
      ghost var total := Drive(Value().(phase := AckDue(0)), sent, windows);
      var attempt := 0;
      ghost var rest := windows;
      while attempt < maxAttempts
        invariant attempt <= maxAttempts && token == old(token)
        invariant attempt < maxAttempts ==> total == Drive(Value().(phase := AckDue(attempt)), sent, rest)
        invariant |rest| == |windows| - attempt && rest == windows[attempt..]
        invariant attempt == maxAttempts ==> total == (Value(), sent)
      {
        var w := windows[attempt];
        ghost var c := Value().(phase := AckDue(attempt));
        AckTurn(c, attempt, sent, rest);
        SendNow(LEASE_ACK, token, w.ackSent);
        if !w.ackSent {
          return false;
        }
        if !probes {
          active := true;
          return true;
        }
        var invite := HelloAndWait(w);
        if !w.helloSent {
          return false;
        }
        SameOffers(c, Value(), w.heard);
        if invite.None? {
          active := true;
          return true;
        }
        if invite.value.leaseToken != token {
          token := 0;
          return false;
        }
        attempt, rest := attempt + 1, rest[1..];
      }
      ok := false;
    }

    method Acquire(opens: bool, inviteWindows: seq<Window>, ackWindows: seq<Window>) returns (ok: bool)
      requires maxAttempts > 0 && |inviteWindows| >= maxAttempts && |ackWindows| >= maxAttempts
      modifies this
      ensures (Value(), sent) == DriveBoth(Begin(old(Value()), opens), old(sent), inviteWindows, ackWindows)
      ensures ok ==> active && token != 0
    {
      ok := RequestInvite(opens, inviteWindows);
      if ok {
        ok := AckLease(ackWindows);
      }
    }

    method Renew(now: nat, opens: bool, inviteWindows: seq<Window>, ackWindows: seq<Window>) returns (ok: bool)
      requires maxAttempts > 0 && |inviteWindows| >= maxAttempts && |ackWindows| >= maxAttempts
      modifies this
      ensures (Value(), sent) ==
              DriveBoth(ClientStep(old(Value()), Input.Renew(now, opens)).0, old(sent), inviteWindows, ackWindows)
      ensures epoch > old(epoch) && (ok ==> active && token != 0)
    {
      epoch := if now > epoch then now else epoch + 1;
      ghost var c := Begin(Value(), opens);
      DriveKeepsEpoch(c, sent, inviteWindows);
      ok := RequestInvite(opens, inviteWindows);
      if ok {
        DriveKeepsEpoch(Value().(phase := AckDue(0)), sent, ackWindows);
        ok := AckLease(ackWindows);
      }
    }

    method SendHeartbeat(delivered: bool) returns (ok: bool)
      modifies this
      ensures var (c, out) := ClientStep(old(Value()), Beat(delivered));
              Value() == c && sent == Logged(old(sent), out)
      ensures ok == (old(active) && old(open) && delivered)
    {
      if !active || !open {
        return false;
      }
      SendNow(HEARTBEAT, 0, delivered);
      ok := delivered;
    }

  }

  class LeaseIssuer {
    const router: ControlPlaneRouter
    var leaseCounter: nat

    constructor (router: ControlPlaneRouter, base: nat)
      ensures this.router == router && leaseCounter == base
    {
      this.router, leaseCounter := router, base;
    }

    method NextLeaseToken() returns (token: nat)
      modifies this
      ensures token == leaseCounter == old(leaseCounter) + 1
    {
      leaseCounter := leaseCounter + 1;
      token := leaseCounter;
    }

    /** The loop body: exactly the issuer of the protocol. */
    method ServeOne(d: Datagram, now: nat) returns (invite: Option<Datagram>)
      modifies this, router
      ensures (router.Value(), leaseCounter, invite) == Serve(old(router.Value()), old(leaseCounter), d, now)
    {
      var ingested := router.IngestDatagram(d, now);
      invite := None;
      if d.kind == NODE_HELLO {
        var token := NextLeaseToken();
        invite := router.Invite(d.id, token);
        if invite.None? {
          invite := router.InviteAgain(d.id, d.epoch);
        }
      }
    }

    /** The loop itself, over the datagrams that arrive while it runs. */
    method ServeLoop(arrivals: seq<(Datagram, nat)>) returns (invites: seq<Datagram>)
      modifies this, router
      ensures (router.Value(), leaseCounter, invites) ==
              ServeAll(old(router.Value()), old(leaseCounter), [], arrivals)
    {
      hide Serve;
      invites := [];
      var rest := arrivals;
      while rest != []
        invariant ServeAll(router.Value(), leaseCounter, invites, rest) ==
                  ServeAll(old(router.Value()), old(leaseCounter), [], arrivals)
        decreases |rest|
      {
        var invite := ServeOne(rest[0].0, rest[0].1);
        if invite.Some? {
          invites := invites + [invite.value];
        }
        rest := rest[1..];
      }
    }
  }

  /** The issuer over a sequence of arrivals. */
  function ServeAll(r: Router, counter: nat, invites: seq<Datagram>, arrivals: seq<(Datagram, nat)>):
    (Router, nat, seq<Datagram>)
    decreases |arrivals|
  {
    if arrivals == [] then (r, counter, invites)
    else
      var (r', counter', invite) := Serve(r, counter, arrivals[0].0, arrivals[0].1);
      ServeAll(r', counter', Logged(invites, invite), arrivals[1..])
  }
}
