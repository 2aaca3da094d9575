/** The message ratchets of a group over a run: which messages share a generation, and with it keys and key stream. */
module GroupRatchets {

  import opened Basics
  import opened Wire
  import opened GroupSecurity
  import opened GroupProvider
  import opened GroupHistory
  import Sha256Standard

  /** A call of protect that finds its sender moves that sender's ratchet. */
  predicate Turns(p: Provider, op: Op, id: U64, e: Endpoint) {
    && op.ProtectMessage? && op.id == id && op.endpoint == e && id in p.groups
    && Finds(p.groups[id], e, op.mode, op.number)
  }

  predicate Finds(g: Group, e: Endpoint, mode: Mode, number: U64) {
    && g.life == Running && number != 0 && mode != NoMode && ActiveAt(g.members, e) < |g.members| && e in g.leaves
  }

  /** How often a sender's ratchet moved in the operations from i to j. */
  function TurnsBetween(ops: seq<Op>, i: nat, j: nat, id: U64, e: Endpoint): (n: nat)
    requires i <= j <= |ops|
    ensures n <= j - i
    decreases j
  {
    if i == j then 0
    else TurnsBetween(ops, i, j - 1, id, e) + if Turns(ApplyAll(ops[..j - 1]), ops[j - 1], id, e) then 1 else 0
  }

  function RatchetOf(g: Group, e: Endpoint): U32 {
    if e in g.ratchets then g.ratchets[e] else 0
  }

  const TWO_32 := 0x1_0000_0000

  /** Within an epoch one operation moves a ratchet by exactly one, modulo 2^32, if it turns it, and leaves it alone
      otherwise. */
  lemma ChangeTurns(g: Group, op: Op, e: Endpoint)
    requires GroupOk(g) && !op.UnprotectMessage? && Changed(g, op).Some?
    requires Changed(g, op).value.epoch == g.epoch && Changed(g, op).value.life == Running
    ensures var turned := op.ProtectMessage? && op.endpoint == e && Finds(g, e, op.mode, op.number);
            RatchetOf(Changed(g, op).value, e) == (RatchetOf(g, e) + if turned then 1 else 0) % TWO_32
  {
    hide Crypt, Tag, AuthInput, MessageKeyOf, BindingValid, Derive, NextTranscript, GroupOk, Sha256Standard.Sha256,
      EndpointBytes;
  }

  lemma StepTurns(p: Provider, op: Op, id: U64, e: Endpoint)
    requires id in p.groups && GroupOk(p.groups[id])
    requires id in Apply(p, op).groups && Apply(p, op).groups[id].epoch == p.groups[id].epoch
    requires Apply(p, op).groups[id].life == Running
    ensures RatchetOf(Apply(p, op).groups[id], e) ==
            (RatchetOf(p.groups[id], e) + if Turns(p, op, id, e) then 1 else 0) % TWO_32
  {
    hide GroupOk, Changed, Unprotected, Create, InitialTranscript, Finds, RatchetOf;
    UnprotectLeavesGroups(p, op);
    if !op.UnprotectMessage? && !op.CreateGroup? && op.id == id {
      ProtectChanges(p.groups[id], op);
      if Changed(p.groups[id], op).Some? { ChangeTurns(p.groups[id], op, e); }
    }
  }

  lemma ProtectChanges(g: Group, op: Op)
    ensures op.ProtectMessage? ==> Changed(g, op).Some?
  {
    hide Protect;
  }

  /** Through an epoch a ratchet moves by one for each turn. */
  lemma {:induction false} RatchetCountsTurns(ops: seq<Op>, i: nat, j: nat, id: U64, e: Endpoint)
    requires i <= j <= |ops| && id in ApplyAll(ops[..i]).groups && id in ApplyAll(ops[..j]).groups
    requires ApplyAll(ops[..j]).groups[id].epoch == ApplyAll(ops[..i]).groups[id].epoch
    requires ApplyAll(ops[..j]).groups[id].life == Running
    ensures RatchetOf(ApplyAll(ops[..j]).groups[id], e) ==
            (RatchetOf(ApplyAll(ops[..i]).groups[id], e) + TurnsBetween(ops, i, j, id, e)) % TWO_32
    decreases j
  {
    hide GroupOk, Apply, SameEpoch, RatchetOf, Turns;
    if i < j {
      var before, op := ops[..j - 1], ops[j - 1];
      assert ops[..j][..j - 1] == before && ops[..j][j - 1] == op;
      GroupThere(ops, i, j - 1, id);
      GroupsStayOk(before, id);
      StepMovesOn(ApplyAll(before), op, id);
      RatchetCountsTurns(ops, i, j - 1, id, e);
      StepTurns(ApplyAll(before), op, id, e);
    }
  }

  /** A group stays where it is, and its epoch never falls. */
  lemma GroupThere(ops: seq<Op>, i: nat, k: nat, id: U64)
    requires i <= k <= |ops| && id in ApplyAll(ops[..i]).groups
    ensures id in ApplyAll(ops[..k]).groups
    ensures ApplyAll(ops[..i]).groups[id].epoch <= ApplyAll(ops[..k]).groups[id].epoch
  {
    hide ApplyAll, SameEpoch;
    assert ops[..k][..i] == ops[..i];
    EpochsPinDownGroups(ops[..k], i, id);
  }

  lemma SentTurns(ops: seq<Op>, i: nat)
    requires i < |ops| && Sent(ops, i).Some?
    ensures ops[i].ProtectMessage? && ops[i].id in ApplyAll(ops[..i]).groups
    ensures var p, op, m := ApplyAll(ops[..i]), ops[i], Sent(ops, i).value;
            && Turns(p, op, op.id, op.endpoint) && p.groups[op.id].life == Running
            && m.group == op.id && m.epoch == p.groups[op.id].epoch && m.sender == op.endpoint
            && m.generation == (RatchetOf(p.groups[op.id], op.endpoint) + 1) % TWO_32
  {
    hide ApplyAll, Crypt, Tag, AuthInput, MessageKeyOf, BindingValid;
  }

  lemma Wraps(a: nat, n: nat)
    ensures (((a + n) % TWO_32 + 1) % TWO_32 == (a + 1) % TWO_32) <==> n % TWO_32 == 0
  {
    var r, s := (a + n) % TWO_32, (a + 1) % TWO_32;
    var k := n / TWO_32;
    assert n == TWO_32 * k + n % TWO_32 && a + n == TWO_32 * ((a + n) / TWO_32) + r;
    assert a + 1 == TWO_32 * ((a + 1) / TWO_32) + s;
    var t := (r + 1) % TWO_32;
    assert r + 1 == TWO_32 * ((r + 1) / TWO_32) + t;
    var multiple := (r + 1) / TWO_32 + (a + n) / TWO_32 - (a + 1) / TWO_32 - k;
    assert n % TWO_32 == t - s + TWO_32 * multiple;
  }

  /** In every run: two messages of one sender in one epoch of a group have the same generation exactly if the number
      of turns from one to the other is a multiple of 2^32. */
  lemma GenerationsRepeatExactly(ops: seq<Op>, i: nat, j: nat)
    requires i < j < |ops| && Sent(ops, i).Some? && Sent(ops, j).Some?
    requires var m, m' := Sent(ops, i).value, Sent(ops, j).value;
             m'.group == m.group && m'.epoch == m.epoch && m'.sender == m.sender
    ensures var m, m' := Sent(ops, i).value, Sent(ops, j).value;
            var turns := TurnsBetween(ops, i, j, m.group, m.sender);
            && 0 < turns <= j - i
            && (m'.generation == m.generation <==> turns % TWO_32 == 0)
  {
    hide ApplyAll, Protect, RatchetOf, Turns, Sent;
    var m := Sent(ops, i).value;
    SentTurns(ops, i);
    SentTurns(ops, j);
    RatchetCountsTurns(ops, i, j, m.group, m.sender);
    Wraps(RatchetOf(ApplyAll(ops[..i]).groups[m.group], m.sender), TurnsBetween(ops, i, j, m.group, m.sender));
    FirstTurns(ops, i, j, m.group, m.sender);
  }

  lemma {:induction false} FirstTurns(ops: seq<Op>, i: nat, j: nat, id: U64, e: Endpoint)
    requires i < j <= |ops| && Turns(ApplyAll(ops[..i]), ops[i], id, e)
    ensures TurnsBetween(ops, i, j, id, e) > 0
    decreases j
  {
    hide ApplyAll, Turns;
    if i < j - 1 { FirstTurns(ops, i, j - 1, id, e); }
  }

  lemma InfoIsInjective(e: Endpoint, generation: U32, e': Endpoint, generation': U32)
    ensures SenderInfo(e, generation) == SenderInfo(e', generation') ==> e == e' && generation == generation'
  {
    Powers();
    EndpointSplits(e);
    EndpointSplits(e');
    hide Power256, Little, EndpointBytes;
    var info, info' := SenderInfo(e, generation), SenderInfo(e', generation');
    assert info[..20] == EndpointBytes(e) && info'[..20] == EndpointBytes(e');
    assert info[20..] == Little(generation, 4) && info'[20..] == Little(generation', 4);
    if info == info' { EndpointsApart(e, e'); }
    LittleRoundTrip(generation, 4);
    LittleRoundTrip(generation', 4);
  }

  /** So two messages protected in one epoch of a group have the same derivation input, for their key and for their key
      stream, exactly if one sender protected both and a multiple of 2^32 turns lies between them: never within 2^32 - 1
      calls of protect. */
  lemma StreamsRepeatExactly(ops: seq<Op>, i: nat, j: nat)
    requires i < j < |ops| && Sent(ops, i).Some? && Sent(ops, j).Some?
    requires Sent(ops, i).value.group == Sent(ops, j).value.group
    requires Sent(ops, i).value.epoch == Sent(ops, j).value.epoch
    ensures var m, m' := Sent(ops, i).value, Sent(ops, j).value;
            var turns := TurnsBetween(ops, i, j, m.group, m.sender);
            && (SenderInfo(m.sender, m.generation) == SenderInfo(m'.sender, m'.generation) <==>
                  m'.sender == m.sender && turns % TWO_32 == 0)
            && (m'.sender == m.sender ==> 0 < turns)
            && (turns < TWO_32 ==> SenderInfo(m.sender, m.generation) != SenderInfo(m'.sender, m'.generation))
  {
    hide Sent, SenderInfo;
    var m, m' := Sent(ops, i).value, Sent(ops, j).value;
    InfoIsInjective(m.sender, m.generation, m'.sender, m'.generation);
    if m'.sender == m.sender { GenerationsRepeatExactly(ops, i, j); }
  }
}
