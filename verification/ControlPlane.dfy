/** The control-plane router: one state machine per node, fed by control datagrams, and the invitations it
    hands out. Epochs, sequence numbers and tokens are 64-bit counters that do not wrap. */
module ControlPlane {

  import opened Basics

  datatype Identity = Identity(node: nat, runtime: nat, endpoint: U32)

  const NODE_HELLO := 1
  const HEARTBEAT := 2
  const STATUS := 3
  const INVITE := 4
  const LEASE_ACK := 5
  const PING := 6
  const PONG := 7

  const UNAVAILABLE := 1
  const AVAILABLE := 2
  const AVAILABILITY_DEGRADED := 3

  const HEALTHY := 1
  const HEALTH_DEGRADED := 2
  const UNHEALTHY := 3

  datatype Datagram = Datagram(
    kind: U8,
    flags: U8,
    id: Identity,
    number: nat,
    epoch: nat,
    availability: U8,
    health: U8,
    loadPct: U8,
    queueDepth: U32,
    revision: U32,
    digest: nat,
    tcpPort: U16,
    leaseToken: nat)
  {
    predicate TrunkReady() {
      flags % 2 != 0
    }
  }

  datatype Lifecycle = Unknown | Seen | Invited | Active | Degraded | Cooling | Offline

  datatype Node = Node(
    state: Lifecycle,
    epoch: nat,
    inbound: nat,
    outbound: nat,
    token: nat,
    availability: U8,
    health: U8,
    loadPct: U8,
    queueDepth: U32,
    revision: U32,
    digest: nat,
    tcpPort: U16,
    trunkReady: bool,
    lastSeen: nat)
  {
    predicate Routable() {
      && (state == Active || state == Degraded)
      && (availability == AVAILABLE || availability == AVAILABILITY_DEGRADED)
      && (health == HEALTHY || health == HEALTH_DEGRADED)
      && trunkReady && tcpPort > 0 && token != 0
    }
  }

  datatype Router = Router(nodes: map<Identity, Node>, cache: map<Identity, (U32, nat)>)

  const EMPTY := Router(map[], map[])

  // ---- The operations on values ------------------------------------------------------------------------------

  function Invitation(id: Identity, node: Node): Datagram {
    Datagram(INVITE, 0, id, node.outbound + 1, node.epoch, 0, 0, 0, 0, 0, 0, 0, node.token)
  }

  function IssueInvite(r: Router, id: Identity, token: nat): (Router, Option<Datagram>) {
    if id.node == 0 || token == 0 || id !in r.nodes || r.nodes[id].state != Seen then (r, None)
    else
      var node := r.nodes[id].(state := Invited, token := token);
      (r.(nodes := r.nodes[id := node.(outbound := node.outbound + 1)]), Some(Invitation(id, node)))
  }

  function ReissueInvite(r: Router, id: Identity, epoch: nat): (Router, Option<Datagram>) {
    if id !in r.nodes || r.nodes[id].state != Invited || r.nodes[id].token == 0 || r.nodes[id].epoch != epoch
    then (r, None)
    else
      var node := r.nodes[id];
      (r.(nodes := r.nodes[id := node.(outbound := node.outbound + 1)]), Some(Invitation(id, node)))
  }

  function NewNode(d: Datagram, now: nat): Node {
    Node(Seen, d.epoch, d.number, 0, 0, d.availability, d.health, d.loadPct, d.queueDepth, d.revision, d.digest,
         d.tcpPort, d.TrunkReady(), now)
  }

  function Committed(n: Node, d: Datagram, now: nat): Node {
    n.(inbound := d.number, lastSeen := now)
  }

  function OnHello(n: Node, d: Datagram, now: nat): Option<Node> {
    if d.epoch == n.epoch && (n.state == Invited || n.state == Active || n.state == Degraded) then None
    else
      var reset := if d.epoch > n.epoch then n.(epoch := d.epoch, token := 0) else n;
      Some(Committed(
        reset.(state := Seen, tcpPort := d.tcpPort, trunkReady := d.TrunkReady(), revision := d.revision,
               digest := d.digest, availability := d.availability, health := d.health), d, now))
  }

  function OnLeaseAck(n: Node, d: Datagram, now: nat): Option<Node> {
    if n.state != Invited || n.token == 0 || d.leaseToken != n.token || !d.TrunkReady() || d.tcpPort == 0 then None
    else
      var worse := d.health == HEALTH_DEGRADED || d.availability == AVAILABILITY_DEGRADED;
      Some(Committed(
        n.(state := if worse then Degraded else Active, tcpPort := d.tcpPort, trunkReady := true,
           availability := d.availability, health := d.health), d, now))
  }

  /** The state a heartbeat or status leaves a node in, from the telemetry it carried. */
  function Settle(n: Node): Node {
    if n.availability == UNAVAILABLE || n.health == UNHEALTHY then n.(state := Cooling)
    else if n.health == HEALTH_DEGRADED || n.availability == AVAILABILITY_DEGRADED then n.(state := Degraded)
    else if n.token != 0 && n.trunkReady && n.tcpPort > 0 then n.(state := Active)
    else n
  }

  predicate TakesTelemetry(n: Node) {
    n.state == Active || n.state == Degraded || n.state == Cooling
  }

  function OnHeartbeat(n: Node, d: Datagram, now: nat): Option<Node> {
    if !TakesTelemetry(n) then None
    else Some(Committed(Settle(
      n.(loadPct := d.loadPct, queueDepth := d.queueDepth, availability := d.availability, health := d.health)),
      d, now))
  }

  function OnStatus(n: Node, d: Datagram, now: nat): Option<Node> {
    if !TakesTelemetry(n) then None
    else Some(Committed(Settle(
      n.(loadPct := d.loadPct, queueDepth := d.queueDepth, availability := d.availability, health := d.health,
         tcpPort := d.tcpPort, trunkReady := d.TrunkReady(), revision := d.revision, digest := d.digest)), d, now))
  }

  function OnPong(n: Node, d: Datagram, now: nat): Option<Node> {
    if n.state == Unknown then None else Some(Committed(n, d, now))
  }

  function Dispatch(n: Node, d: Datagram, now: nat): Option<Node> {
    if d.kind == NODE_HELLO then OnHello(n, d, now)
    else if d.kind == LEASE_ACK then OnLeaseAck(n, d, now)
    else if d.kind == HEARTBEAT then OnHeartbeat(n, d, now)
    else if d.kind == STATUS then OnStatus(n, d, now)
    else if d.kind == PONG then OnPong(n, d, now)
    else None
  }

  /** A higher-epoch hello and a status with another capability revision or digest drop the cached
      capabilities. */
  predicate DropsCache(n: Node, d: Datagram) {
    (d.kind == NODE_HELLO && d.epoch > n.epoch) ||
    (d.kind == STATUS && (n.revision != d.revision || n.digest != d.digest))
  }

  predicate Duplicate(n: Node, d: Datagram) {
    d.epoch == n.epoch && d.number <= n.inbound
  }

  function Ingest(r: Router, d: Datagram, now: nat): (Router, bool) {
    if d.id.node == 0 || d.kind == INVITE || d.kind == PING then (r, false)
    else if d.id !in r.nodes then
      if d.kind != NODE_HELLO then (r, false)
      else (r.(nodes := r.nodes[d.id := NewNode(d, now)]), true)
    else
      var n := r.nodes[d.id];
      if d.epoch < n.epoch then (r, false)
      else if d.epoch > n.epoch && d.kind != NODE_HELLO then (r, false)
      else if Duplicate(n, d) then (r, true)
      else match Dispatch(n, d, now)
           case None => (r, false)
           case Some(n') =>
             (Router(r.nodes[d.id := n'], if DropsCache(n, d) then r.cache - {d.id} else r.cache), true)
  }

  function SweepNode(n: Node, now: nat, stale: nat, offline: nat): Node {
    if now < n.lastSeen then n
    else if now - n.lastSeen > offline then
      if n.state != Offline then n.(state := Offline, token := 0) else n
    else if now - n.lastSeen > stale && (n.state == Active || n.state == Degraded) then n.(state := Cooling)
    else n
  }

  function Sweep(r: Router, now: nat, stale: nat, offline: nat): Router {
    r.(nodes := map id | id in r.nodes :: SweepNode(r.nodes[id], now, stale, offline))
  }

  predicate ValidBinding(r: Router, id: Identity, epoch: nat, token: nat) {
    && id in r.nodes
    && var n := r.nodes[id];
       && (n.state == Active || n.state == Degraded)
       && n.epoch == epoch && n.token == token && token != 0 && n.trunkReady && n.tcpPort > 0
  }

  // ---- Runs --------------------------------------------------------------------------------------------------

  datatype Event =
    | Receive(d: Datagram, now: nat)
    | Issue(id: Identity, token: nat)
    | Reissue(id: Identity, epoch: nat)
    | SweepStale(now: nat, stale: nat, offline: nat)
    | SetCached(id: Identity, revision: U32, digest: nat)
    | DropCached(id: Identity)

  function Apply(r: Router, e: Event): Router {
    match e
    case Receive(d, now) => Ingest(r, d, now).0
    case Issue(id, token) => IssueInvite(r, id, token).0
    case Reissue(id, epoch) => ReissueInvite(r, id, epoch).0
    case SweepStale(now, stale, offline) => Sweep(r, now, stale, offline)
    case SetCached(id, revision, digest) => r.(cache := r.cache[id := (revision, digest)])
    case DropCached(id) => r.(cache := r.cache - {id})
  }

  function Final(r: Router, events: seq<Event>): Router
    decreases |events|
  {
    if events == [] then r else Final(Apply(r, events[0]), events[1..])
  }

  // ---- What one datagram can do ------------------------------------------------------------------------------

  /** Lexicographically later: the order of epochs, and of sequence numbers within one. */
  predicate Later(epoch: nat, number: nat, n: Node) {
    epoch > n.epoch || (epoch == n.epoch && number > n.inbound)
  }

  predicate Commits(r: Router, d: Datagram, now: nat) {
    Ingest(r, d, now).1 && (d.id in r.nodes ==> !Duplicate(r.nodes[d.id], d))
  }

  /** A refused datagram and a duplicate change nothing. A committed one is later than all the node has
      committed before, becomes its latest, and touches no other node. */
  lemma IngestIsTransactional(r: Router, d: Datagram, now: nat)
    ensures !Commits(r, d, now) ==> Ingest(r, d, now).0 == r
    ensures Commits(r, d, now) ==>
              var r' := Ingest(r, d, now).0;
              && (d.id in r.nodes ==> Later(d.epoch, d.number, r.nodes[d.id]))
              && d.id in r'.nodes && r'.nodes[d.id].epoch == d.epoch && r'.nodes[d.id].inbound == d.number
              && r'.nodes - {d.id} == r.nodes - {d.id}
  {
  }

  /** d arrived once and was committed; every copy of it is now too old. */
  predicate Spent(r: Router, d: Datagram) {
    d.id in r.nodes && !Later(d.epoch, d.number, r.nodes[d.id])
  }

  lemma CopyChangesNothing(r: Router, d: Datagram, now: nat)
    requires Spent(r, d)
    ensures Ingest(r, d, now).0 == r
  {
  }

  lemma StaysSpent(r: Router, d: Datagram, e: Event)
    requires Spent(r, d)
    ensures Spent(Apply(r, e), d)
  {
    if e.Receive? {
      IngestIsTransactional(r, e.d, e.now);
      if Commits(r, e.d, e.now) && e.d.id != d.id {
        assert d.id in r.nodes - {e.d.id};
        assert (Apply(r, e).nodes - {e.d.id})[d.id] == (r.nodes - {e.d.id})[d.id];
      }
    }
  }

  /** padded is events with extra arrivals of datagrams that were committed earlier in it, each copy at any
      later time and as often as the network likes. */
  ghost predicate AddsCopies(r: Router, events: seq<Event>, padded: seq<Event>, committed: set<Datagram>)
    decreases |padded|
  {
    if padded == [] then events == []
    else
      || (padded[0].Receive? && padded[0].d in committed && AddsCopies(r, events, padded[1..], committed))
      || (events != [] && padded[0] == events[0] &&
          AddsCopies(Apply(r, events[0]), events[1..], padded[1..], AfterCommit(r, events[0], committed)))
  }

  ghost function AfterCommit(r: Router, e: Event, committed: set<Datagram>): set<Datagram> {
    if e.Receive? && Commits(r, e.d, e.now) then committed + {e.d} else committed
  }

  /** Delayed duplicates of committed datagrams never change what the router ends up with. */
  lemma {:induction false} CopiesAreHarmless(r: Router, events: seq<Event>, padded: seq<Event>,
                                             committed: set<Datagram>)
    requires AddsCopies(r, events, padded, committed)
    requires forall d :: d in committed ==> Spent(r, d)
    ensures Final(r, padded) == Final(r, events)
    decreases |padded|
  {
    if padded != [] {
      var e := padded[0];
      if e.Receive? && e.d in committed && AddsCopies(r, events, padded[1..], committed) {
        CopyChangesNothing(r, e.d, e.now);
        CopiesAreHarmless(r, events, padded[1..], committed);
      } else {
        var committed' := AfterCommit(r, e, committed);
        forall d | d in committed' ensures Spent(Apply(r, e), d) {
          if d in committed { StaysSpent(r, d, e); } else { IngestIsTransactional(r, d, e.now); }
        }
        CopiesAreHarmless(Apply(r, e), events[1..], padded[1..], committed');
      }
    }
  }

  // ---- Leases ------------------------------------------------------------------------------------------------

  /** The router together with its history: per node the latest issued invitation (token and epoch), and every
      lease acknowledgement (node, epoch, token) ever committed. */
  datatype Audited = Audited(router: Router, issued: map<Identity, (nat, nat)>, acked: set<(Identity, nat, nat)>)

  function Audit(a: Audited, e: Event): Audited {
    var r, r' := a.router, Apply(a.router, e);
    var issued :=
      if e.Issue? && IssueInvite(r, e.id, e.token).1.Some? then a.issued[e.id := (e.token, r.nodes[e.id].epoch)]
      else a.issued;
    var acked :=
      if e.Receive? && e.d.kind == LEASE_ACK && Commits(r, e.d, e.now) then
        a.acked + {(e.d.id, e.d.epoch, e.d.leaseToken)}
      else a.acked;
    Audited(r', issued, acked)
  }

  function AuditAll(events: seq<Event>): Audited {
    if events == [] then Audited(EMPTY, map[], {})
    else Audit(AuditAll(events[..|events| - 1]), events[|events| - 1])
  }

  /** A node that holds a lease holds the latest one issued to it, issued in its current epoch; past INVITED it
      has acknowledged that lease in that epoch. */
  predicate LeaseOk(a: Audited, id: Identity)
    requires id in a.router.nodes
  {
    var n := a.router.nodes[id];
    && (n.state == Invited || TakesTelemetry(n) ==>
          n.token != 0 && id in a.issued && a.issued[id] == (n.token, n.epoch))
    && (TakesTelemetry(n) ==> (id, n.epoch, n.token) in a.acked)
  }

  ghost predicate LeasesOk(a: Audited) {
    forall id :: id in a.router.nodes ==> LeaseOk(a, id)
  }

  lemma AuditKeepsLeases(a: Audited, e: Event)
    requires LeasesOk(a)
    ensures LeasesOk(Audit(a, e))
  {
    var a' := Audit(a, e);
    forall id | id in a'.router.nodes ensures LeaseOk(a', id) {
      if id in a.router.nodes { assert LeaseOk(a, id); }
    }
  }

  /** In every run of the router: whenever a node is INVITED, ACTIVE, DEGRADED or COOLING its token is nonzero
      and the latest one issued to it, in its present epoch, and in the last three states the node's
      acknowledgement of it was committed in that epoch. */
  lemma {:induction false} LeasesAreIssuedAndAcknowledged(events: seq<Event>)
    ensures LeasesOk(AuditAll(events))
  {
    if events != [] {
      LeasesAreIssuedAndAcknowledged(events[..|events| - 1]);
      AuditKeepsLeases(AuditAll(events[..|events| - 1]), events[|events| - 1]);
    }
  }

  /** So a binding that validates is the latest lease of the node and was acknowledged in its epoch. */
  lemma ValidBindingWasAcknowledged(events: seq<Event>, id: Identity, epoch: nat, token: nat)
    requires ValidBinding(AuditAll(events).router, id, epoch, token)
    ensures (id, epoch, token) in AuditAll(events).acked
    ensures id in AuditAll(events).issued && AuditAll(events).issued[id] == (token, epoch)
  {
    LeasesAreIssuedAndAcknowledged(events);
    assert LeaseOk(AuditAll(events), id);
  }

  lemma EpochNeverFalls(r: Router, e: Event, id: Identity)
    requires id in r.nodes
    ensures id in Apply(r, e).nodes && r.nodes[id].epoch <= Apply(r, e).nodes[id].epoch
  {
  }

  /** Once a node has announced a higher epoch, no binding of an earlier one validates again, whatever
      happens later. */
  lemma {:induction false} OldEpochsStayInvalid(r: Router, events: seq<Event>, id: Identity, epoch: nat, token: nat)
    requires id in r.nodes && epoch < r.nodes[id].epoch
    ensures !ValidBinding(Final(r, events), id, epoch, token)
    decreases |events|
  {
    if events != [] {
      EpochNeverFalls(r, events[0], id);
      OldEpochsStayInvalid(Apply(r, events[0]), events[1..], id, epoch, token);
    }
  }

  function Telemetry(id: Identity, epoch: nat, number: nat, availability: U8): Datagram {
    Datagram(HEARTBEAT, 0, id, number, epoch, availability, HEALTHY, 0, 0, 0, 0, 0, 0)
  }

  /** A binding that validates can stop and start validating again, epoch and token unchanged: two heartbeats of its
      node are enough, and the router then takes a repeated bind. */
  lemma SameLeaseValidatesAgain(r: Router, id: Identity, epoch: nat, token: nat, now: nat)
    requires ValidBinding(r, id, epoch, token) && id.node != 0
    ensures var number := r.nodes[id].inbound;
            var down := Ingest(r, Telemetry(id, epoch, number + 1, UNAVAILABLE), now);
            var up := Ingest(down.0, Telemetry(id, epoch, number + 2, AVAILABLE), now);
            && down.1 && !ValidBinding(down.0, id, epoch, token)
            && up.1 && ValidBinding(up.0, id, epoch, token)
  {
  }

  /** Only a SEEN node is issued a lease. Within an epoch no event makes an INVITED, ACTIVE or DEGRADED node SEEN
      again, and its token changes only by going OFFLINE: a second lease in one epoch needs COOLING or OFFLINE
      first. */
  lemma SecondLeaseNeedsCooling(r: Router, e: Event, id: Identity)
    requires id in r.nodes
    requires r.nodes[id].state == Invited || r.nodes[id].state == Active || r.nodes[id].state == Degraded
    requires id in Apply(r, e).nodes && Apply(r, e).nodes[id].epoch == r.nodes[id].epoch
    ensures Apply(r, e).nodes[id].state != Seen
    ensures Apply(r, e).nodes[id].token != r.nodes[id].token ==> Apply(r, e).nodes[id].state == Offline
  {
  }

  // ---- What each datagram and call does ----------------------------------------------------------------------

  /** In which states a node takes which datagram of its own epoch. */
  predicate Admits(n: Node, d: Datagram) {
    match n.state
    case Unknown => d.kind == NODE_HELLO
    case Seen => d.kind == NODE_HELLO || d.kind == PONG
    case Invited => d.kind == PONG || (d.kind == LEASE_ACK && AcceptsOffer(n, d))
    case Active => d.kind == HEARTBEAT || d.kind == STATUS || d.kind == PONG
    case Degraded => d.kind == HEARTBEAT || d.kind == STATUS || d.kind == PONG
    case Cooling => d.kind == NODE_HELLO || d.kind == HEARTBEAT || d.kind == STATUS || d.kind == PONG
    case Offline => d.kind == NODE_HELLO || d.kind == PONG
  }

  /** The acknowledgement names the token offered and brings a trunk. */
  predicate AcceptsOffer(n: Node, d: Datagram) {
    d.leaseToken == n.token != 0 && d.TrunkReady() && d.tcpPort > 0
  }

  /** A datagram is committed exactly if it names a node and is the first hello of an unknown one, a hello of a higher
      epoch, or newer in the present epoch and admitted by the node's state. */
  lemma CommitsExactly(r: Router, d: Datagram, now: nat)
    ensures Commits(r, d, now) <==>
            && d.id.node != 0
            && if d.id !in r.nodes then d.kind == NODE_HELLO
               else var n := r.nodes[d.id];
                    || (d.kind == NODE_HELLO && d.epoch > n.epoch)
                    || (d.epoch == n.epoch && d.number > n.inbound && Admits(n, d))
  {
  }

  /** A hello announces a node afresh: it is SEEN, with what the hello says of it, and keeps a lease token only within
      its epoch; no binding of it validates. */
  lemma HelloAnnounces(r: Router, d: Datagram, now: nat, token: nat)
    requires d.kind == NODE_HELLO && Commits(r, d, now)
    ensures var n' := Ingest(r, d, now).0.nodes[d.id];
            && n'.state == Seen && n'.epoch == d.epoch && n'.inbound == d.number && n'.lastSeen == now
            && n'.tcpPort == d.tcpPort && n'.trunkReady == d.TrunkReady() && n'.revision == d.revision
            && n'.digest == d.digest && n'.availability == d.availability && n'.health == d.health
            && n'.token == (if d.id in r.nodes && r.nodes[d.id].epoch == d.epoch then r.nodes[d.id].token else 0)
            && !ValidBinding(Ingest(r, d, now).0, d.id, d.epoch, token)
  {
  }

  /** A pong only shows that the node is there. */
  lemma PongOnlyShowsLife(r: Router, d: Datagram, now: nat)
    requires d.kind == PONG && Commits(r, d, now)
    ensures d.id in r.nodes
    ensures Ingest(r, d, now).0 ==
            r.(nodes := r.nodes[d.id := r.nodes[d.id].(inbound := d.number, lastSeen := now)])
  {
  }

  /** Cached capabilities are dropped exactly when a known node starts a new epoch, or a status reports other ones. */
  lemma CacheDropsExactly(r: Router, d: Datagram, now: nat)
    ensures var outdated := && Commits(r, d, now) && d.id in r.nodes
                            && var n := r.nodes[d.id];
                               || d.epoch > n.epoch
                               || (d.kind == STATUS && (d.revision != n.revision || d.digest != n.digest));
            Ingest(r, d, now).0.cache == if outdated then r.cache - {d.id} else r.cache
  {
  }

  /** A lease is offered exactly to a node that is SEEN, which it invites; the offer carries its epoch and the token. */
  lemma InviteExactly(r: Router, id: Identity, token: nat)
    ensures var (r', offer) := IssueInvite(r, id, token);
            && (offer.Some? <==> id.node != 0 && token != 0 && id in r.nodes && r.nodes[id].state == Seen)
            && (offer.None? ==> r' == r)
            && (offer.Some? ==> Offers(r, r', id, token, offer.value) && r'.nodes[id].state == Invited)
  {
  }

  /** And it is offered again, unchanged, exactly while the node is invited in that epoch. */
  lemma ReinviteExactly(r: Router, id: Identity, epoch: nat)
    ensures var (r', offer) := ReissueInvite(r, id, epoch);
            && (offer.Some? <==>
                  id in r.nodes && r.nodes[id].state == Invited && r.nodes[id].token != 0 && r.nodes[id].epoch == epoch)
            && (offer.None? ==> r' == r)
            && (offer.Some? ==> Offers(r, r', id, r.nodes[id].token, offer.value) && r'.nodes[id].state == Invited)
  {
  }

  /** The offer is the next datagram to the node; besides state and token nothing else changes. */
  predicate Offers(r: Router, r': Router, id: Identity, token: nat, offer: Datagram)
    requires id in r.nodes
  {
    var n := r.nodes[id];
    && offer.kind == INVITE && offer.id == id && offer.epoch == n.epoch && offer.leaseToken == token
    && offer.number == n.outbound + 1
    && id in r'.nodes && r' == r.(nodes := r.nodes[id := r'.nodes[id]])
    && r'.nodes[id] == n.(state := r'.nodes[id].state, token := token, outbound := offer.number)
  }

  /** New work is routed to exactly the nodes whose lease validates and that last reported to be available and not
      unhealthy. */
  lemma RoutableExactly(r: Router, id: Identity)
    requires id in r.nodes
    ensures var n := r.nodes[id];
            n.Routable() <==>
              && ValidBinding(r, id, n.epoch, n.token)
              && n.availability in {AVAILABLE, AVAILABILITY_DEGRADED} && n.health in {HEALTHY, HEALTH_DEGRADED}
  {
  }

  // ---- Telemetry and silence ---------------------------------------------------------------------------------

  predicate IsTelemetry(d: Datagram) { d.kind == HEARTBEAT || d.kind == STATUS }

  predicate ReportsBad(d: Datagram) { d.availability == UNAVAILABLE || d.health == UNHEALTHY }

  predicate ReportsDegraded(d: Datagram) { d.availability == AVAILABILITY_DEGRADED || d.health == HEALTH_DEGRADED }

  /** A heartbeat or status decides whether the lease of its node validates: it does exactly if the datagram reports
      neither unavailable nor unhealthy and the trunk is there; a bad report cools the node, one that is only degraded
      degrades it, and it is active only on a clean one. */
  lemma TelemetryDecides(r: Router, d: Datagram, now: nat, token: nat)
    requires d.id in r.nodes && IsTelemetry(d) && Commits(r, d, now)
    ensures var n, r' := r.nodes[d.id], Ingest(r, d, now).0;
            var n' := r'.nodes[d.id];
            && TakesTelemetry(n)
            && (ValidBinding(r', d.id, d.epoch, token) <==>
                  !ReportsBad(d) && token == n.token != 0 && n'.trunkReady && n'.tcpPort > 0)
            && (n'.state == Cooling <== ReportsBad(d))
            && (n'.state == Degraded <== !ReportsBad(d) && ReportsDegraded(d))
            && (n'.state == Active ==> !ReportsBad(d) && !ReportsDegraded(d))
            && (!ReportsBad(d) && !ReportsDegraded(d) ==>
                  n'.state == if n.token != 0 && n'.trunkReady && n'.tcpPort > 0 then Active else n.state)
            && n'.availability == d.availability && n'.health == d.health && n'.token == n.token
            && n'.loadPct == d.loadPct && n'.queueDepth == d.queueDepth && n'.lastSeen == now
            && n'.trunkReady == (if d.kind == STATUS then d.TrunkReady() else n.trunkReady)
            && n'.tcpPort == (if d.kind == STATUS then d.tcpPort else n.tcpPort)
            && n'.revision == (if d.kind == STATUS then d.revision else n.revision)
            && n'.digest == (if d.kind == STATUS then d.digest else n.digest)
  {
  }

  /** An acknowledgement is committed exactly for the lease offered to an invited node, with a trunk, and makes that
      lease, and no other, validate; the node is then degraded exactly if the acknowledgement reports so. */
  lemma LeaseAckDecides(r: Router, d: Datagram, now: nat, token: nat)
    requires d.id in r.nodes && d.id.node != 0 && d.kind == LEASE_ACK
    requires d.epoch == r.nodes[d.id].epoch && d.number > r.nodes[d.id].inbound
    ensures var n, r' := r.nodes[d.id], Ingest(r, d, now).0;
            && (Commits(r, d, now) <==>
                  n.state == Invited && n.token == d.leaseToken != 0 && d.TrunkReady() && d.tcpPort > 0)
            && (Commits(r, d, now) ==>
                  && (ValidBinding(r', d.id, d.epoch, token) <==> token == d.leaseToken)
                  && (r'.nodes[d.id].state == Degraded <==> ReportsDegraded(d))
                  && r'.nodes[d.id].availability == d.availability && r'.nodes[d.id].health == d.health)
  {
  }

  /** What can bring a node back into service: committed telemetry that is not bad, or an acknowledged lease. */
  predicate BringsBack(r: Router, e: Event, id: Identity) {
    && e.Receive? && e.d.id == id && Commits(r, e.d, e.now)
    && (e.d.kind == LEASE_ACK || (IsTelemetry(e.d) && !ReportsBad(e.d)))
  }

  predicate NeverBroughtBack(r: Router, events: seq<Event>, id: Identity)
    decreases |events|
  {
    events != [] ==> !BringsBack(r, events[0], id) && NeverBroughtBack(Apply(r, events[0]), events[1..], id)
  }

  predicate OutOfService(r: Router, id: Identity) {
    id in r.nodes && r.nodes[id].state != Active && r.nodes[id].state != Degraded
  }

  lemma StepStaysOut(r: Router, e: Event, id: Identity)
    requires OutOfService(r, id) && !BringsBack(r, e, id)
    ensures OutOfService(Apply(r, e), id)
  {
  }

  /** Out of service, a node stays so, and none of its bindings validates, until one of these two happens. */
  lemma {:induction false} StaysOutOfService(r: Router, events: seq<Event>, id: Identity, epoch: nat, token: nat)
    requires OutOfService(r, id) && NeverBroughtBack(r, events, id)
    ensures OutOfService(Final(r, events), id) && !ValidBinding(Final(r, events), id, epoch, token)
    decreases |events|
  {
    hide Apply, BringsBack;
    if events != [] {
      StepStaysOut(r, events[0], id);
      StaysOutOfService(Apply(r, events[0]), events[1..], id, epoch, token);
    }
  }

  /** So after a committed heartbeat or status that reports unavailable or unhealthy the node is cooling, and no binding
      of it validates, whatever happens, until it commits telemetry that reports neither or acknowledges a lease. */
  lemma BadTelemetryCools(r: Router, d: Datagram, now: nat, events: seq<Event>, epoch: nat, token: nat)
    requires d.id in r.nodes && IsTelemetry(d) && ReportsBad(d) && Commits(r, d, now)
    requires NeverBroughtBack(Ingest(r, d, now).0, events, d.id)
    ensures Ingest(r, d, now).0.nodes[d.id].state == Cooling
    ensures !ValidBinding(Final(Ingest(r, d, now).0, events), d.id, epoch, token)
  {
    hide ValidBinding, NeverBroughtBack, Final;
    TelemetryDecides(r, d, now, token);
    StaysOutOfService(Ingest(r, d, now).0, events, d.id, epoch, token);
  }

  /** A sweep takes exactly the nodes out of service that were silent for longer than one of the two limits, and those
      silent for longer than the second lose their lease. */
  lemma SweepTakesSilentNodes(r: Router, now: nat, stale: nat, offline: nat, id: Identity, epoch: nat, token: nat)
    requires id in r.nodes
    ensures var n, r' := r.nodes[id], Sweep(r, now, stale, offline);
            && (ValidBinding(r', id, epoch, token) <==>
                  ValidBinding(r, id, epoch, token) && now - n.lastSeen <= stale && now - n.lastSeen <= offline)
            && (now - n.lastSeen > offline ==>
                  r'.nodes[id].state == Offline && (n.state != Offline ==> r'.nodes[id].token == 0))
            && (now - n.lastSeen <= offline && r'.nodes[id] != n ==>
                  r'.nodes[id] == n.(state := Cooling) && (n.state == Active || n.state == Degraded))
  {
  }

  // ---- In place ----------------------------------------------------------------------------------------------

  function Score(n: Node): nat {
    n.loadPct * 10 + n.queueDepth * 50 +
    (if n.health == HEALTH_DEGRADED then 5000 else 0) +
    (if n.availability == AVAILABILITY_DEGRADED then 5000 else 0)
  }

  predicate NoMoreTrouble(n: Node, m: Node) {
    && n.loadPct <= m.loadPct && n.queueDepth <= m.queueDepth
    && (n.health == HEALTH_DEGRADED ==> m.health == HEALTH_DEGRADED)
    && (n.availability == AVAILABILITY_DEGRADED ==> m.availability == AVAILABILITY_DEGRADED)
  }

  /** Less load or a shorter queue, or not degraded where the other is, and in nothing else worse. */
  predicate LessTrouble(n: Node, m: Node) {
    NoMoreTrouble(n, m) && !NoMoreTrouble(m, n)
  }

  function Degradations(n: Node): nat {
    (if n.health == HEALTH_DEGRADED then 1 else 0) + if n.availability == AVAILABILITY_DEGRADED then 1 else 0
  }

  /** Each degraded report weighs as much as a hundred waiting tasks, and one of these as much as five percent of
      load; so the node that is less troubled has the lower score. */
  lemma LessTroubleScoresLower(n: Node, m: Node)
    ensures Score(n) == 10 * (n.loadPct + 5 * (n.queueDepth + 100 * Degradations(n)))
    ensures LessTrouble(n, m) ==> Score(n) < Score(m)
  {
  }

  const UINT64_MAX := 0xFFFF_FFFF_FFFF_FFFF

  /** The nodes a sweep moves to another state. */
  function Swept(r: Router, now: nat, stale: nat, offline: nat): set<Identity> {
    set id | id in r.nodes && SweepNode(r.nodes[id], now, stale, offline) != r.nodes[id]
  }

  class ControlPlaneRouter {
    var nodes: map<Identity, Node>
    var cache: map<Identity, (U32, nat)>

    ghost function Value(): Router
      reads this
    {
      Router(nodes, cache)
    }

    constructor ()
      ensures Value() == EMPTY
    {
      nodes, cache := map[], map[];
    }

    method Invite(id: Identity, leaseToken: nat) returns (invite: Option<Datagram>)
      modifies this
      ensures (Value(), invite) == IssueInvite(old(Value()), id, leaseToken)
    {
      if id.node == 0 || leaseToken == 0 {
        return None;
      }
      if id !in nodes {
        return None;
      }
      var node := nodes[id];
      if node.state != Seen {
        return None;
      }
      node := node.(state := Invited, token := leaseToken);
      invite := Some(Invitation(id, node));
      node := node.(outbound := node.outbound + 1);
      nodes := nodes[id := node];
    }

    method InviteAgain(id: Identity, epoch: nat) returns (invite: Option<Datagram>)
      modifies this
      ensures (Value(), invite) == ReissueInvite(old(Value()), id, epoch)
    {
      if id !in nodes {
        return None;
      }
      var node := nodes[id];
      if node.state != Invited || node.token == 0 || node.epoch != epoch {
        return None;
      }
      invite := Some(Invitation(id, node));
      node := node.(outbound := node.outbound + 1);
      nodes := nodes[id := node];
    }

    method IngestDatagram(d: Datagram, now: nat) returns (ok: bool)
      modifies this
      ensures (Value(), ok) == Ingest(old(Value()), d, now)
    {
      if d.id.node == 0 {
        return false;
      }
      if d.kind == INVITE || d.kind == PING {
        return false;
      }
      if d.id !in nodes {
        if d.kind != NODE_HELLO {
          return false;
        }
        nodes := nodes[d.id := NewNode(d, now)];
        return true;
      }
      var node := nodes[d.id];
      if d.epoch < node.epoch {
        return false;
      }
      if d.epoch > node.epoch {
        if d.kind != NODE_HELLO {
          return false;
        }
      } else if d.number <= node.inbound {
        return true;
      }
      if d.kind == NODE_HELLO {
        if d.epoch > node.epoch {
          cache := cache - {d.id};
          node := node.(epoch := d.epoch, state := Seen, token := 0);
        } else {
          if node.state == Invited || node.state == Active || node.state == Degraded {
            return false;
          }
          node := node.(state := Seen);
        }
        node := node.(tcpPort := d.tcpPort, trunkReady := d.TrunkReady(), revision := d.revision,
                      digest := d.digest, availability := d.availability, health := d.health);
      } else if d.kind == LEASE_ACK {
        if node.state != Invited || node.token == 0 || d.leaseToken != node.token {
          return false;
        }
        if !d.TrunkReady() || d.tcpPort == 0 {
          return false;
        }
        node := node.(tcpPort := d.tcpPort, trunkReady := true, availability := d.availability, health := d.health);
        if node.health == HEALTH_DEGRADED || node.availability == AVAILABILITY_DEGRADED {
          node := node.(state := Degraded);
        } else {
          node := node.(state := Active);
        }
      } else if d.kind == HEARTBEAT || d.kind == STATUS {
        if node.state != Active && node.state != Degraded && node.state != Cooling {
          return false;
        }
        node := node.(loadPct := d.loadPct, queueDepth := d.queueDepth, availability := d.availability,
                      health := d.health);
        if d.kind == STATUS {
          node := node.(tcpPort := d.tcpPort, trunkReady := d.TrunkReady());
          if node.revision != d.revision || node.digest != d.digest {
            cache := cache - {d.id};
            node := node.(revision := d.revision, digest := d.digest);
          }
        }
        if node.availability == UNAVAILABLE || node.health == UNHEALTHY {
          node := node.(state := Cooling);
        } else if node.health == HEALTH_DEGRADED || node.availability == AVAILABILITY_DEGRADED {
          node := node.(state := Degraded);
        } else if node.token != 0 && node.trunkReady && node.tcpPort > 0 {
          node := node.(state := Active);
        }
      } else if d.kind == PONG {
        if node.state == Unknown {
          return false;
        }
      } else {
        return false;
      }
      node := node.(inbound := d.number, lastSeen := now);
      nodes := nodes[d.id := node];
      return true;
    }

    method ValidateTcpSessionBinding(id: Identity, epoch: nat, leaseToken: nat) returns (ok: bool)
      ensures ok == ValidBinding(Value(), id, epoch, leaseToken)
    {
      if id !in nodes {
        return false;
      }
      var node := nodes[id];
      ok := (node.state == Active || node.state == Degraded) && node.epoch == epoch && node.token == leaseToken &&
            leaseToken != 0 && node.trunkReady && node.tcpPort > 0;
    }

    method SweepStaleNodes(now: nat, stale: nat, offline: nat) returns (count: nat)
      modifies this
      ensures Value() == Sweep(old(Value()), now, stale, offline)
      ensures count == |Swept(old(Value()), now, stale, offline)|
    {
      count := 0;
      var pending := nodes.Keys;
      ghost var was, moved: set<Identity> := nodes, {};
      while pending != {}
        invariant nodes.Keys == was.Keys && pending <= nodes.Keys && cache == old(cache)
        invariant forall id :: id in was && id in pending ==> nodes[id] == was[id]
        invariant forall id :: id in was && id !in pending ==> nodes[id] == SweepNode(was[id], now, stale, offline)
        invariant count == |moved|
        invariant forall id :: id in moved <==>
                    id in Swept(Router(was, cache), now, stale, offline) && id !in pending
        decreases pending
      {
        var id :| id in pending;
        pending := pending - {id};
        var node, counted := nodes[id], count;
        if now >= node.lastSeen {
          var elapsed := now - node.lastSeen;
          if elapsed > offline {
            if node.state != Offline {
              node := node.(state := Offline, token := 0);
              count := count + 1;
            }
          } else if elapsed > stale {
            if node.state == Active || node.state == Degraded {
              node := node.(state := Cooling);
              count := count + 1;
            }
          }
        }
        assert node == SweepNode(was[id], now, stale, offline);
        assert count == if node != was[id] then counted + 1 else counted;
        if count != counted {
          nodes, moved := nodes[id := node], moved + {id};
        }
      }
      assert moved == Swept(old(Value()), now, stale, offline);
    }

    /** The routable node of lowest score, if any node is routable. */
    method SelectBestCandidate() returns (best: Option<Identity>)
      ensures best == None <==> forall id :: id in nodes ==> !nodes[id].Routable()
      ensures best.Some? ==>
                && best.value in nodes && nodes[best.value].Routable()
                && forall id :: id in nodes && nodes[id].Routable() ==>
                     Score(nodes[best.value]) <= Score(nodes[id]) && !LessTrouble(nodes[id], nodes[best.value])
    {
      best := None;
      var lowest := UINT64_MAX;
      var pending := nodes.Keys;
      while pending != {}
        invariant pending <= nodes.Keys
        invariant best.None? ==>
                    lowest == UINT64_MAX && forall id :: id in nodes.Keys - pending ==> !nodes[id].Routable()
        invariant best.Some? ==>
                    && best.value in nodes && nodes[best.value].Routable() && lowest == Score(nodes[best.value])
                    && forall id :: id in nodes.Keys - pending && nodes[id].Routable() ==> lowest <= Score(nodes[id])
        decreases pending
      {
        var id :| id in pending;
        pending := pending - {id};
        var node := nodes[id];
        if node.Routable() {
          var score := node.loadPct * 10 + node.queueDepth * 50;
          if node.health == HEALTH_DEGRADED {
            score := score + 5000;
          }
          if node.availability == AVAILABILITY_DEGRADED {
            score := score + 5000;
          }
          if score < lowest {
            lowest := score;
            best := Some(id);
          }
        }
      }
      forall id | best.Some? && id in nodes && nodes[id].Routable()
        ensures !LessTrouble(nodes[id], nodes[best.value])
      {
        LessTroubleScoresLower(nodes[id], nodes[best.value]);
      }
    }
  }
}
