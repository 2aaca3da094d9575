/** What a lease client and the issuer do call by call, and that the exchange succeeds: from every state the system
    can be in, a client that renews gets a lease that validates. */
module LeaseExchange {

  import opened Basics
  import opened ControlPlane
  import opened Lease

  // ---- The client --------------------------------------------------------------------------------------------

  /** A client that is idle, knows its trunk and can open its socket starts over: no lease, not active, and a hello is
      due. In any other case a request changes nothing. */
  lemma RequestsExactly(c: Client, opens: bool)
    ensures var c' := ClientStep(c, Request(opens)).0;
            if c.phase == Idle && c.trunkPort != 0 && (c.open || opens) then
              c' == c.(open := true, token := 0, active := false, phase := HelloDue(0))
            else c' == c
  {
  }

  /** A renewal by an idle client goes to a higher epoch, the present time if that is higher and the next one otherwise,
      and then is a request; while a call is in progress it is nothing. */
  lemma RenewsExactly(c: Client, now: nat, opens: bool)
    ensures var c', epoch := ClientStep(c, Renew(now, opens)).0, if now > c.epoch then now else c.epoch + 1;
            && (c.phase != Idle ==> c' == c)
            && (c.phase == Idle ==> c'.epoch == epoch > c.epoch && c'.epoch >= now
                                    && c' == ClientStep(c.(epoch := epoch), Request(opens)).0)
  {
  }

  /** A heartbeat goes out exactly from an idle, active, open client, with its identity, its epoch and its next
      number. */
  lemma BeatsExactly(c: Client, ok: bool)
    ensures var out := ClientStep(c, Beat(ok)).1;
            && (out.Some? <==> ok && c.phase == Idle && c.active && c.open)
            && (out.Some? ==> && out.value.kind == HEARTBEAT && out.value.id == c.id && out.value.epoch == c.epoch
                              && out.value.number == c.nextSeq && out.value.tcpPort == c.trunkPort
                              && out.value.availability == AVAILABLE && out.value.health == HEALTHY)
  {
  }

  /** A client that waits for an invitation takes exactly one for its identity and epoch with a token; that token is
      then its lease. */
  lemma TakesExactly(c: Client, d: Datagram)
    requires c.phase.AwaitInvite?
    ensures var c', mine := ClientStep(c, Arrive(d)).0,
                            d.kind == INVITE && d.id == c.id && d.epoch == c.epoch && d.leaseToken != 0;
            c' == if mine then c.(token := d.leaseToken, phase := Idle) else c
  {
  }

  /** The state after a list of inputs, and what was sent on the way. */
  function After(c: Client, inputs: seq<Input>): Client {
    if inputs == [] then c else ClientStep(After(c, inputs[..|inputs| - 1]), inputs[|inputs| - 1]).0
  }

  function Sent(c: Client, inputs: seq<Input>): seq<Datagram> {
    if inputs == [] then []
    else
      var out := ClientStep(After(c, inputs[..|inputs| - 1]), inputs[|inputs| - 1]).1;
      Sent(c, inputs[..|inputs| - 1]) + if out.Some? then [out.value] else []
  }

  lemma SendsNext(c: Client, input: Input)
    ensures var (c', out) := ClientStep(c, input);
            && c.nextSeq <= c'.nextSeq && c.epoch <= c'.epoch && c'.id == c.id
            && (out.Some? ==> && out.value.number == c.nextSeq < c'.nextSeq && out.value.epoch == c.epoch == c'.epoch
                              && out.value.id == c.id)
  {
  }

  lemma {:induction false} NumbersRiseTo(c: Client, inputs: seq<Input>)
    ensures After(c, inputs).id == c.id && c.nextSeq <= After(c, inputs).nextSeq
    ensures forall d :: d in Sent(c, inputs) ==>
              d.number < After(c, inputs).nextSeq && d.epoch <= After(c, inputs).epoch && d.id == c.id
  {
    hide ClientStep;
    if inputs != [] {
      var before := inputs[..|inputs| - 1];
      NumbersRiseTo(c, before);
      SendsNext(After(c, before), inputs[|inputs| - 1]);
    }
  }

  /** Whatever a client goes through, the datagrams it sends bear its identity, their numbers strictly rise and their
      epochs never fall: the router never has to take one for a copy of another. */
  lemma {:induction false} NumbersRise(c: Client, inputs: seq<Input>, i: nat, j: nat)
    requires i < j < |Sent(c, inputs)|
    ensures var d, e := Sent(c, inputs)[i], Sent(c, inputs)[j];
            d.number < e.number && d.epoch <= e.epoch && d.id == e.id == c.id
  {
    hide ClientStep;
    var before := inputs[..|inputs| - 1];
    NumbersRiseTo(c, before);
    SendsNext(After(c, before), inputs[|inputs| - 1]);
    if j < |Sent(c, before)| {
      NumbersRise(c, before, i, j);
    } else {
      assert Sent(c, inputs)[i] == Sent(c, before)[i] && Sent(c, before)[i] in Sent(c, before);
    }
  }

  // ---- The issuer --------------------------------------------------------------------------------------------

  /** Every hello uses up a token and nothing else does; only a hello is answered, with an invitation in the name and
      the epoch of its node. */
  lemma ServesExactly(r: Router, counter: nat, d: Datagram, now: nat)
    ensures var (r', counter', out) := Serve(r, counter, d, now);
            && counter' == counter + (if d.kind == NODE_HELLO then 1 else 0)
            && (out.Some? ==> d.kind == NODE_HELLO && out.value.kind == INVITE && out.value.id == d.id)
            && (d.kind != NODE_HELLO ==> r' == Ingest(r, d, now).0)
  {
    hide Ingest;
  }

  // ---- The exchange succeeds ---------------------------------------------------------------------------------

  lemma NewHelloIsLeased(s: System, d: Datagram, now: nat)
    requires Inv(s) && d in s.toIssuer && d.kind == NODE_HELLO
    requires d.id in s.router.nodes ==> s.router.nodes[d.id].epoch < d.epoch
    ensures Did(s.router, s.counter, d, now, Leased)
  {
    assert SentOk(s, d);
    if d.id in s.router.nodes { assert NodeOk(s, d.id); }
  }

  /** A hello of an epoch the router has not seen of that node is answered with a new lease. */
  lemma HelloIsAnswered(s: System, steps: seq<Step>, t: System, hello: Datagram, now: nat)
    returns (steps': seq<Step>, t': System, offer: Datagram)
    requires Inv(t) && Run(s, steps, t) && hello in t.toIssuer && hello.kind == NODE_HELLO
    requires hello.id in t.router.nodes ==> t.router.nodes[hello.id].epoch < hello.epoch
    ensures Run(s, steps', t') && t'.clients == t.clients && t'.toIssuer == t.toIssuer && Inv(t')
    ensures Waits(t'.router, hello)
    ensures offer in t'.toClients && offer.kind == INVITE && offer.id == hello.id && offer.epoch == hello.epoch
    ensures offer.leaseToken == t.counter + 1
  {
    hide Serve;
    steps', t' := steps + [Deliver(hello, now)], Take(t, Deliver(hello, now));
    RunAppend(s, steps, t, Deliver(hello, now));
    DeliverKeepsInv(t, hello, now);
    NewHelloIsLeased(t, hello, now);
    offer := Serve(t.router, t.counter, hello, now).2.value;
  }

  lemma AckIsHeard(s: System, steps: seq<Step>, t: System, ack: Datagram, now: nat)
    returns (steps': seq<Step>, t': System)
    requires Inv(t) && Run(s, steps, t) && ack in t.toIssuer && ack.kind == LEASE_ACK && Waits(t.router, ack)
    ensures Run(s, steps', t') && t'.clients == t.clients
    ensures ValidBinding(t'.router, ack.id, ack.epoch, ack.leaseToken)
  {
    hide Serve;
    steps', t' := steps + [Deliver(ack, now)], Take(t, Deliver(ack, now));
    RunAppend(s, steps, t, Deliver(ack, now));
    var v := AckDoes(t, ack, now);
    assert NodeOk(t, ack.id) && SentOk(t, ack);
  }

  /** The client as it waits for the invitation to its new epoch. */
  function Renewing(c: Client, now: nat): Client {
    c.(epoch := if now > c.epoch then now else c.epoch + 1, open := true, token := 0, active := false,
       nextSeq := c.nextSeq + 1, phase := AwaitInvite(0))
  }

  lemma RenewalSaysHello(s: System, id: Identity, now: nat) returns (steps: seq<Step>, t: System, hello: Datagram)
    requires id in s.clients && s.clients[id].phase == Idle && s.clients[id].trunkPort > 0
    ensures Run(s, steps, t) && id in t.clients && t.clients[id] == Renewing(s.clients[id], now)
    ensures t.router == s.router && t.counter == s.counter
    ensures hello in t.toIssuer && hello.kind == NODE_HELLO && hello.id == s.clients[id].id
    ensures hello.epoch == t.clients[id].epoch > s.clients[id].epoch
  {
    var c := s.clients[id];
    var c1 := Renewing(c, now).(nextSeq := c.nextSeq, phase := HelloDue(0));
    hello := Make(c1, NODE_HELLO, 0);
    steps, t := GoClient(s, [], s, id, Renew(now, true), c1, {});
    steps, t := GoClient(s, steps, t, id, Send(true), Renewing(c, now), {hello});
  }

  /** The first half: the client says hello in a new epoch and is invited. */
  lemma RenewalIsInvited(s: System, id: Identity, now: nat) returns (steps: seq<Step>, t: System)
    requires Inv(s) && id in s.clients && s.clients[id].phase == Idle && s.clients[id].trunkPort > 0
    ensures Run(s, steps, t) && Inv(t) && id in t.clients
    ensures t.clients[id] == Renewing(s.clients[id], now).(token := s.counter + 1, phase := Idle)
    ensures id in t.router.nodes && t.router.nodes[id].state == Invited
    ensures t.router.nodes[id].epoch == t.clients[id].epoch
  {
    hide Inv, Run;
    var hello, offer;
    steps, t, hello := RenewalSaysHello(s, id, now);
    RunKeepsInv(s, steps, t);
    InvOfClient(s, id);
    if id in s.router.nodes { InvOfNode(s, id); }
    steps, t, offer := HelloIsAnswered(s, steps, t, hello, now);
    steps, t := GoClient(s, steps, t, id, Arrive(offer),
                         Renewing(s.clients[id], now).(token := offer.leaseToken, phase := Idle), {});
    RunKeepsInv(s, steps, t);
  }

  lemma InvOfClient(s: System, id: Identity)
    requires Inv(s) && id in s.clients
    ensures ClientOk(s, id)
  {
  }

  lemma InvOfNode(s: System, id: Identity)
    requires Inv(s) && id in s.router.nodes
    ensures id in s.clients && s.router.nodes[id].epoch <= s.clients[id].epoch
  {
    assert NodeOk(s, id);
  }

  /** The second half: the invited client acknowledges, probes if it does, and hears nothing against it. */
  lemma InvitationIsKept(s: System, steps: seq<Step>, t: System, id: Identity, now: nat)
    returns (steps': seq<Step>, t': System)
    requires Inv(s) && Run(s, steps, t) && Inv(t) && id in t.clients
    requires t.clients[id].phase == Idle && t.clients[id].token != 0 && id in t.router.nodes
    requires t.router.nodes[id].state == Invited && t.router.nodes[id].epoch == t.clients[id].epoch
    ensures Run(s, steps', t') && id in t'.clients
    ensures t'.clients[id] == t.clients[id].(active := true, nextSeq := t'.clients[id].nextSeq)
    ensures ValidBinding(t'.router, id, t.clients[id].epoch, t.clients[id].token)
  {
    hide Inv, ValidBinding, Run;
    assert t.clients[id].id == id by { InvOfClient(t, id); }
    var c := t.clients[id];
    var ack, c1 := Make(c, LEASE_ACK, c.token), c.(nextSeq := c.nextSeq + 1);
    steps', t' := GoClient(s, steps, t, id, Acknowledge, c.(phase := AckDue(0)), {});
    var c2 := if c.probes then c1.(phase := ProbeDue(0)) else c1.(active := true);
    steps', t' := GoClient(s, steps', t', id, Send(true), c2, {ack});
    RunKeepsInv(s, steps', t');
    steps', t' := AckIsHeard(s, steps', t', ack, now);
    if c.probes { steps', t' := ProbeIsSilent(s, steps', t', id, c1); }
  }

  lemma ProbeIsSilent(s: System, steps: seq<Step>, t: System, id: Identity, c: Client)
    returns (steps': seq<Step>, t': System)
    requires Run(s, steps, t) && id in t.clients && t.clients[id] == c.(phase := ProbeDue(0)) && c.phase == Idle
    ensures Run(s, steps', t') && id in t'.clients && t'.router == t.router
    ensures t'.clients[id] == c.(active := true, nextSeq := c.nextSeq + 1)
  {
    hide Run;
    var c1 := c.(nextSeq := c.nextSeq + 1);
    steps', t' := GoClient(s, steps, t, id, Send(true), c1.(phase := AwaitProbe(0)), {Make(c, NODE_HELLO, 0)});
    steps', t' := GoClient(s, steps', t', id, Quiet, c1.(active := true), {});
  }

  /** From every state that clients, network and router can be in, whatever was lost before: an idle client that knows
      its trunk and renews ends up active with a lease of a higher epoch, and what it presents validates, if its
      hello, the invitation and its acknowledgement get through. */
  lemma RenewalSucceeds(s: System, id: Identity, now: nat) returns (steps: seq<Step>, t: System)
    requires Reachable(s) && id in s.clients && s.clients[id].phase == Idle && s.clients[id].trunkPort > 0
    ensures Run(s, steps, t) && id in t.clients
    ensures t.clients[id].active && t.clients[id].phase == Idle && t.clients[id].epoch > s.clients[id].epoch
    ensures t.clients[id].token == s.counter + 1
    ensures ValidBinding(t.router, id, t.clients[id].epoch, t.clients[id].token)
  {
    hide Inv, Reachable, Run, ClientStep, ValidBinding;
    ReachableInv(s);
    steps, t := RenewalIsInvited(s, id, now);
    steps, t := InvitationIsKept(s, steps, t, id, now);
  }
}
