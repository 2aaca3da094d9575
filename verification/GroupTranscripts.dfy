/** What the transcript and the state hash of a group say of its past: over any runs of two providers, equal hashes mean
    the same founding, the same changes in the same epochs, and the same roles given since. */
module GroupTranscripts {

  import opened Basics
  import opened Wire
  import opened GroupSecurity
  import opened GroupProvider
  import HashChain
  import Sha256Standard

  // ---- What is hashed ----------------------------------------------------------------------------------------

  datatype Founding = Founding(id: U64, kind: U8, suite: U16, endpoint: Endpoint, subject: U64)

  /** What the transcript tells of a change. */
  datatype Announced = Joined(endpoint: Endpoint, subject: U64, role: U8) | Left(endpoint: Endpoint)
                     | Rekeyed(endpoint: Endpoint)

  datatype Given = Given(endpoint: Endpoint, role: U8)

  /** The past of a group: how it began, each change that made a new epoch, and the roles given in the present one. */
  datatype History = History(founding: Founding, changes: seq<Announced>, roles: seq<Given>)

  function FoundingBytes(f: Founding): Bytes {
    Little(f.id, 8) + [f.kind] + Little(f.suite, 2) + EndpointBytes(f.endpoint) + Little(f.subject, 8)
  }

  function ChangeBytes(a: Announced, epoch: nat): Bytes {
    match a
    case Joined(e, subject, role) => [2] + Little(epoch, 8) + EndpointBytes(e) + Little(subject, 8) + [role]
    case Left(e) => [3] + Little(epoch, 8) + EndpointBytes(e)
    case Rekeyed(e) => [5] + Little(epoch, 8) + EndpointBytes(e)
  }

  function RoleBytes(g: Given, epoch: nat): Bytes {
    [4] + Little(epoch, 8) + EndpointBytes(g.endpoint) + [g.role]
  }

  /** The first change leads to epoch 2. */
  function TranscriptMessages(f: Founding, changes: seq<Announced>): (m: seq<Bytes>)
    ensures |m| == |changes| + 1
  {
    if changes == [] then [FoundingBytes(f)]
    else
      var n := |changes| - 1;
      TranscriptMessages(f, changes[..n]) + [ChangeBytes(changes[n], n + 2)]
  }

  function RoleMessages(roles: seq<Given>, epoch: nat): (m: seq<Bytes>)
    ensures |m| == |roles|
  {
    if roles == [] then []
    else RoleMessages(roles[..|roles| - 1], epoch) + [RoleBytes(roles[|roles| - 1], epoch)]
  }

  function AllMessages(h: History): seq<Bytes> {
    TranscriptMessages(h.founding, h.changes) + RoleMessages(h.roles, |h.changes| + 1)
  }

  // ---- The past of a group in a run --------------------------------------------------------------------------

  function Announce(op: Op): Announced
    requires NewEpoch(op)
  {
    match op
    case AddMember(_, m, _, _, _) => Joined(m.endpoint, m.subject, m.role)
    case RemoveMember(_, e, _) => Left(e)
    case RekeyGroup(_, e, _) => Rekeyed(e)
  }

  function Founds(op: Op): History
    requires op.CreateGroup?
  {
    History(Founding(op.id, op.kind, op.suite, op.coordinator.endpoint, op.coordinator.subject), [], [])
  }

  function After(h: History, op: Op): History {
    if NewEpoch(op) then h.(changes := h.changes + [Announce(op)], roles := [])
    else if op.UpdateMemberRole? then h.(roles := h.roles + [Given(op.endpoint, op.role)])
    else h
  }

  /** What happened to a group, told by the operations that succeeded. */
  function HistoryOf(ops: seq<Op>, id: U64): Option<History> {
    if ops == [] then None
    else
      var before, op := ops[..|ops| - 1], ops[|ops| - 1];
      var p, h := ApplyAll(before), HistoryOf(before, id);
      if op.UnprotectMessage? || op.id != id then h
      else if op.CreateGroup? then if Created(p, op).Some? then Some(Founds(op)) else h
      else if id in p.groups && Changed(p.groups[id], op).Some? && h.Some? then Some(After(h.value, op))
      else h
  }

  ghost predicate Tells(g: Group, h: History) {
    && g.epoch == |h.changes| + 1
    && g.transcript == HashChain.Chain([], TranscriptMessages(h.founding, h.changes))
    && g.stateHash == HashChain.Chain([], AllMessages(h))
  }

  lemma FoundedTells(p: Provider, op: Op)
    requires op.CreateGroup? && Created(p, op).Some?
    ensures Tells(Created(p, op).value, Founds(op))
  {
    hide Derive, Sha256Standard.Sha256, EndpointBytes, Little;
    var first := FoundingBytes(Founds(op).founding);
    HashChain.ChainAdds([], [], first);
    assert [] + [first] == [first] && HashChain.Chain([], []) + first == first;
    assert AllMessages(Founds(op)) == [first];
  }

  lemma NextIsLink(previous: Bytes, change: Change, epoch: nat)
    ensures var a := match change
                     case Adds(m) => Joined(m.endpoint, m.subject, m.role)
                     case Removes(e) => Left(e)
                     case Rekeys(e) => Rekeyed(e);
            NextTranscript(previous, change, epoch) == Sha256Standard.Sha256(previous + ChangeBytes(a, epoch))
  {
    hide Sha256Standard.Sha256, EndpointBytes, Little;
  }

  /** The changes that make a new epoch, as they appear in the group. */
  lemma NewEpochLinks(g: Group, op: Op)
    requires NewEpoch(op) && Changed(g, op).Some?
    ensures var g' := Changed(g, op).value;
            && g'.epoch == g.epoch + 1 && g'.stateHash == g'.transcript && g.life == g'.life == Running
            && g'.transcript == Sha256Standard.Sha256(g.transcript + ChangeBytes(Announce(op), g.epoch + 1))
  {
    hide Sha256Standard.Sha256, EndpointBytes, Little, Derive, NextTranscript;
    match op {
      case AddMember(_, m, _, _, _) => NextIsLink(g.transcript, Adds(m), g.epoch + 1);
      case RemoveMember(_, e, _) => NextIsLink(g.transcript, Removes(e), g.epoch + 1);
      case RekeyGroup(_, e, _) => NextIsLink(g.transcript, Rekeys(e), g.epoch + 1);
    }
  }

  lemma OthersLink(g: Group, op: Op)
    requires !NewEpoch(op) && !op.UnprotectMessage? && Changed(g, op).Some?
    ensures var g' := Changed(g, op).value;
            && g'.epoch == g.epoch && g'.transcript == g.transcript
            && g'.stateHash == if op.UpdateMemberRole? then
                 Sha256Standard.Sha256(g.stateHash + RoleBytes(Given(op.endpoint, op.role), g.epoch)) else g.stateHash
  {
    hide Sha256Standard.Sha256, EndpointBytes, Little, Crypt, Tag, AuthInput, MessageKeyOf, BindingValid;
    if op.UpdateMemberRole? {
      var e, role := op.endpoint, op.role;
      assert g.stateHash + [4] + Little(g.epoch, 8) + EndpointBytes(e) + [role] ==
             g.stateHash + RoleBytes(Given(e, role), g.epoch);
    }
  }

  lemma ChangeTells(g: Group, op: Op, h: History)
    requires Tells(g, h) && !op.UnprotectMessage? && Changed(g, op).Some?
    ensures Tells(Changed(g, op).value, After(h, op))
  {
    hide Changed, Sha256Standard.Sha256, HashChain.Chain, ChangeBytes, RoleBytes;
    var h', n := After(h, op), |h.changes|;
    if NewEpoch(op) {
      NewEpochLinks(g, op);
      assert h'.changes[..n] == h.changes && h'.changes[n] == Announce(op);
      HashChain.ChainAdds([], TranscriptMessages(h.founding, h.changes), ChangeBytes(Announce(op), n + 2));
      assert AllMessages(h') == TranscriptMessages(h'.founding, h'.changes);
    } else {
      OthersLink(g, op);
      if op.UpdateMemberRole? {
        var given := Given(op.endpoint, op.role);
        assert h'.roles[..|h.roles|] == h.roles;
        assert AllMessages(h') == AllMessages(h) + [RoleBytes(given, n + 1)];
        HashChain.ChainAdds([], AllMessages(h), RoleBytes(given, n + 1));
      }
    }
  }

  /** In every run the hashes of every group are those of its history. */
  lemma {:induction false} HashesTellHistory(ops: seq<Op>, id: U64)
    requires id in ApplyAll(ops).groups
    ensures HistoryOf(ops, id).Some? && Tells(ApplyAll(ops).groups[id], HistoryOf(ops, id).value)
  {
    hide Tells, Changed, Created, Unprotected, After, Founds;
    if ops != [] {
      var before, op := ops[..|ops| - 1], ops[|ops| - 1];
      var p := ApplyAll(before);
      if id in p.groups { HashesTellHistory(before, id); }
      UnprotectLeavesGroups(p, op);
      if !op.UnprotectMessage? && op.id == id {
        if op.CreateGroup? {
          if Created(p, op).Some? { FoundedTells(p, op); }
        } else if id in p.groups && Changed(p.groups[id], op).Some? {
          ChangeTells(p.groups[id], op, HistoryOf(before, id).value);
        }
      }
    }
  }
  // ---- Equal hashes, equal pasts -----------------------------------------------------------------------------

  /** A founding first, and then messages of the lengths of changes and roles. */
  predicate WellFormed(m: seq<Bytes>) {
    m != [] && |m[0]| == 39 && forall i :: 1 <= i < |m| ==> 29 <= |m[i]| <= 38
  }

  lemma MessageLengths(f: Founding, a: Announced, g: Given, epoch: nat)
    ensures |FoundingBytes(f)| == 39 && 29 <= |ChangeBytes(a, epoch)| <= 38 && |RoleBytes(g, epoch)| == 30
    ensures ChangeBytes(a, epoch)[0] in {2, 3, 5} && RoleBytes(g, epoch)[0] == 4
  {
    hide Little;
  }

  lemma {:induction false} TranscriptWellFormed(f: Founding, changes: seq<Announced>)
    ensures WellFormed(TranscriptMessages(f, changes))
    ensures forall i :: 0 <= i < |changes| ==>
              TranscriptMessages(f, changes)[i + 1] == ChangeBytes(changes[i], i + 2)
    ensures TranscriptMessages(f, changes)[0] == FoundingBytes(f)
  {
    hide FoundingBytes, ChangeBytes;
    if changes == [] {
      MessageLengths(f, Left(f.endpoint), Given(f.endpoint, 0), 0);
    } else {
      var n := |changes| - 1;
      TranscriptWellFormed(f, changes[..n]);
      MessageLengths(f, changes[n], Given(f.endpoint, 0), n + 2);
    }
  }

  lemma {:induction false} RolesWellFormed(roles: seq<Given>, epoch: nat)
    ensures forall i :: 0 <= i < |roles| ==> RoleMessages(roles, epoch)[i] == RoleBytes(roles[i], epoch)
  {
    hide RoleBytes;
    if roles != [] { RolesWellFormed(roles[..|roles| - 1], epoch); }
  }

  lemma AllWellFormed(h: History)
    ensures WellFormed(AllMessages(h))
  {
    hide RoleBytes, TranscriptMessages, RoleMessages;
    TranscriptWellFormed(h.founding, h.changes);
    RolesWellFormed(h.roles, |h.changes| + 1);
    var roles := RoleMessages(h.roles, |h.changes| + 1);
    forall i | 0 <= i < |h.roles| ensures |roles[i]| == 30 {
      MessageLengths(h.founding, Left(h.founding.endpoint), h.roles[i], |h.changes| + 1);
    }
  }

  /** Without collisions the digest of such a list, of whatever length, determines the list. */
  lemma {:induction false} ListsAgree(a: seq<Bytes>, b: seq<Bytes>)
    requires WellFormed(a) && WellFormed(b) && HashChain.Chain([], a) == HashChain.Chain([], b)
    requires HashChain.NoCollision(HashChain.Inputs([], a) + HashChain.Inputs([], b))
    ensures a == b
    decreases |a|
  {
    hide HashChain.Chain, HashChain.Inputs, HashChain.NoCollision, Sha256Standard.Sha256;
    var k, n := |a| - 1, |b| - 1;
    HashChain.SameLastInput([], a, b);
    HashChain.ChainLength([], a[..k]);
    HashChain.ChainLength([], b[..n]);
    HashChain.SameSplit(HashChain.Chain([], a[..k]), a[k], HashChain.Chain([], b[..n]), b[n]);
    if k > 0 {
      assert a[..k][0] == a[0] && b[..n][0] == b[0];
      ListsAgree(a[..k], b[..n]);
    }
    assert a == a[..k] + [a[k]] && b == b[..n] + [b[n]];
  }

  lemma FoundingsApart(f: Founding, f': Founding)
    requires FoundingBytes(f) == FoundingBytes(f')
    ensures f == f'
  {
    Powers();
    FoundingSplits(f);
    FoundingSplits(f');
    hide Power256, Little, EndpointBytes, FoundingBytes;
    EndpointsApart(f.endpoint, f'.endpoint);
    LittleRoundTrip(f.id, 8);
    LittleRoundTrip(f'.id, 8);
    LittleRoundTrip(f.suite, 2);
    LittleRoundTrip(f'.suite, 2);
    LittleRoundTrip(f.subject, 8);
    LittleRoundTrip(f'.subject, 8);
  }

  lemma FoundingSplits(f: Founding)
    ensures var b := FoundingBytes(f);
            && |b| == 39 && b[..8] == Little(f.id, 8) && b[8] == f.kind && b[9..11] == Little(f.suite, 2)
            && b[11..31] == EndpointBytes(f.endpoint) && b[31..] == Little(f.subject, 8)
  {
    hide Little;
  }

  lemma ChangeSplits(a: Announced, epoch: nat)
    ensures var b := ChangeBytes(a, epoch);
            && |b| == (if a.Joined? then 38 else 29) && b[9..29] == EndpointBytes(a.endpoint)
            && b[0] == (if a.Joined? then 2 else if a.Left? then 3 else 5)
            && (a.Joined? ==> b[29..37] == Little(a.subject, 8) && b[37] == a.role)
  {
    hide Little;
  }

  lemma ChangesApart(a: Announced, a': Announced, epoch: nat)
    requires ChangeBytes(a, epoch) == ChangeBytes(a', epoch)
    ensures a == a'
  {
    Powers();
    ChangeSplits(a, epoch);
    ChangeSplits(a', epoch);
    hide Power256, Little, EndpointBytes, ChangeBytes;
    EndpointsApart(a.endpoint, a'.endpoint);
    if a.Joined? {
      LittleRoundTrip(a.subject, 8);
      LittleRoundTrip(a'.subject, 8);
    }
  }

  lemma RolesApart(g: Given, g': Given, epoch: nat)
    requires RoleBytes(g, epoch) == RoleBytes(g', epoch)
    ensures g == g'
  {
    RoleSplits(g, epoch);
    RoleSplits(g', epoch);
    hide Little, EndpointBytes, RoleBytes;
    EndpointsApart(g.endpoint, g'.endpoint);
  }

  lemma RoleSplits(g: Given, epoch: nat)
    ensures var b := RoleBytes(g, epoch);
            |b| == 30 && b[9..29] == EndpointBytes(g.endpoint) && b[29] == g.role
  {
    hide Little;
  }

  lemma SameTranscriptMessages(f: Founding, changes: seq<Announced>, f': Founding, changes': seq<Announced>)
    requires TranscriptMessages(f, changes) == TranscriptMessages(f', changes')
    ensures f == f' && changes == changes'
  {
    hide TranscriptMessages, FoundingBytes, ChangeBytes;
    TranscriptWellFormed(f, changes);
    TranscriptWellFormed(f', changes');
    FoundingsApart(f, f');
    forall i | 0 <= i < |changes| ensures changes[i] == changes'[i] {
      assert TranscriptMessages(f, changes)[i + 1] == TranscriptMessages(f', changes')[i + 1];
      ChangesApart(changes[i], changes'[i], i + 2);
    }
  }

  /** In the whole list the roles begin where the first byte says so. */
  lemma RolesBegin(h: History, i: nat)
    requires i < |AllMessages(h)| && i > 0
    ensures AllMessages(h)[i] != [] && (AllMessages(h)[i][0] == 4 <==> i > |h.changes|)
  {
    hide RoleBytes, ChangeBytes, TranscriptMessages, RoleMessages;
    TranscriptWellFormed(h.founding, h.changes);
    RolesWellFormed(h.roles, |h.changes| + 1);
    var n := |h.changes|;
    if i > n {
      MessageLengths(h.founding, Left(h.founding.endpoint), h.roles[i - n - 1], n + 1);
    } else {
      MessageLengths(h.founding, h.changes[i - 1], Given(h.founding.endpoint, 0), i + 1);
    }
  }

  lemma SameMessagesSameHistory(h: History, h': History)
    requires AllMessages(h) == AllMessages(h')
    ensures h == h'
  {
    hide RoleBytes, TranscriptMessages, RoleMessages;
    var n, n' := |h.changes|, |h'.changes|;
    if n < n' { RolesBegin(h, n'); RolesBegin(h', n'); }
    if n' < n { RolesBegin(h, n); RolesBegin(h', n); }
    assert TranscriptMessages(h.founding, h.changes) == AllMessages(h)[..n + 1];
    assert TranscriptMessages(h'.founding, h'.changes) == AllMessages(h')[..n + 1];
    SameTranscriptMessages(h.founding, h.changes, h'.founding, h'.changes);
    assert RoleMessages(h.roles, n + 1) == AllMessages(h)[n + 1..];
    assert RoleMessages(h'.roles, n + 1) == AllMessages(h')[n + 1..];
    RolesWellFormed(h.roles, n + 1);
    RolesWellFormed(h'.roles, n + 1);
    forall i | 0 <= i < |h.roles| ensures h.roles[i] == h'.roles[i] { RolesApart(h.roles[i], h'.roles[i], n + 1); }
  }

  /** The strings that a history hashes. */
  function HashedBy(h: History): set<Bytes> {
    HashChain.Inputs([], TranscriptMessages(h.founding, h.changes)) + HashChain.Inputs([], AllMessages(h))
  }

  /** In any two runs, of one provider or of two, if no two of the strings hashed in the two histories share a digest:
      groups with the same transcript were founded alike, went through the same joins, removals and rekeys one for one,
      and are in the same epoch; and with the same state hash their members were also given the same roles since. */
  lemma EqualHashesEqualPasts(ops: seq<Op>, id: U64, ops': seq<Op>, id': U64)
    requires id in ApplyAll(ops).groups && id' in ApplyAll(ops').groups
    requires HistoryOf(ops, id).Some? && HistoryOf(ops', id').Some?
    requires HashChain.NoCollision(HashedBy(HistoryOf(ops, id).value) + HashedBy(HistoryOf(ops', id').value))
    ensures var g, g' := ApplyAll(ops).groups[id], ApplyAll(ops').groups[id'];
            var h, h' := HistoryOf(ops, id).value, HistoryOf(ops', id').value;
            && (g.transcript == g'.transcript ==>
                  h.founding == h'.founding && h.changes == h'.changes && g.epoch == g'.epoch)
            && (g.stateHash == g'.stateHash ==> h == h')
  {
    hide ApplyAll, HistoryOf, HashChain.Chain, HashChain.Inputs, HashChain.NoCollision, TranscriptMessages, AllMessages,
      WellFormed;
    HashesTellHistory(ops, id);
    HashesTellHistory(ops', id');
    var g, g' := ApplyAll(ops).groups[id], ApplyAll(ops').groups[id'];
    var h, h' := HistoryOf(ops, id).value, HistoryOf(ops', id').value;
    var all := HashedBy(h) + HashedBy(h');
    if g.transcript == g'.transcript {
      var a, b := TranscriptMessages(h.founding, h.changes), TranscriptMessages(h'.founding, h'.changes);
      TranscriptWellFormed(h.founding, h.changes);
      TranscriptWellFormed(h'.founding, h'.changes);
      HashChain.FewerCollisions(HashChain.Inputs([], a) + HashChain.Inputs([], b), all);
      ListsAgree(a, b);
      SameTranscriptMessages(h.founding, h.changes, h'.founding, h'.changes);
    }
    if g.stateHash == g'.stateHash {
      AllWellFormed(h);
      AllWellFormed(h');
      HashChain.FewerCollisions(HashChain.Inputs([], AllMessages(h)) + HashChain.Inputs([], AllMessages(h')), all);
      ListsAgree(AllMessages(h), AllMessages(h'));
      SameMessagesSameHistory(h, h');
    }
  }
}
