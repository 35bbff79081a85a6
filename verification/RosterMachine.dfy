/** Roster publication with racing publishers. A publish request reads the epoch, the creator's key
    and the live members in three statements and inserts in a fourth; every other handler, and every
    other publisher, runs in between. */
module RosterMachine {
  import opened Bytes
  import Encodings
  import opened Rooms
  import opened RoomRuns

  const SIG_LEN: nat := 64

  /** Ed25519 verification: key, signature, message. */
  type Verifier = (Key, seq<byte>, seq<byte>) -> bool

  datatype Stage = EpochRead | SignatureChecked | LiveMatched

  /** A publish request in flight, and the moment it began. */
  datatype Publishing = Publishing(epoch: int, ring: seq<Key>, sig: seq<byte>, stage: Stage, since: nat)

  /** The moments between which a request ran. */
  datatype Span = Span(first: nat, last: nat)

  /** `log` and `spans` are history: the member table after each step so far, and when the request
      that stored each epoch ran. No step reads them. */
  datatype State = State(roomId: seq<byte>, room: Room, pubs: map<nat, Publishing>, log: seq<Rows>, spans: map<int, Span>)

  datatype Step =
    | Begin(id: nat, epoch: int, ring: seq<Key>, sig: seq<byte>)
    | CheckSignature(id: nat)
    | MatchLive(id: nat)
    | Insert(id: nat)
    | Abort(id: nat)
    | Other(op: Op)

  ghost predicate WellShaped(ring: seq<Key>, sig: seq<byte>)
  {
    && 1 <= |ring| <= VOUCH_MAX_RING && StrictlySorted(ring) && |sig| == SIG_LEN
    && forall i | 0 <= i < |ring| :: |ring[i]| == PUBKEY_LEN
  }

  /** The checks `post_roster` makes on the request alone. */
  method CheckShape(ring: seq<Key>, sig: seq<byte>) returns (ok: bool)
    ensures ok <==> WellShaped(ring, sig)
    ensures ok <==> 1 <= |ring| <= 50 && |sig| == 64 && (forall i | 0 <= i < |ring| :: |ring[i]| == 32) &&
                    forall i | 0 < i < |ring| :: Less(ring[i - 1], ring[i])
  {
    if |ring| == 0 || |ring| > VOUCH_MAX_RING {
      return false;
    }
    for i := 0 to |ring|
      invariant forall j | 0 <= j < i :: |ring[j]| == PUBKEY_LEN
    {
      if |ring[i]| != PUBKEY_LEN {
        return false;
      }
    }
    for i := 1 to |ring|
      invariant forall j | 0 < j < i :: Less(ring[j - 1], ring[j])
    {
      if !Less(ring[i - 1], ring[i]) {
        return false;
      }
    }
    NeighboursSorted(ring);
    ok := |sig| == SIG_LEN;
  }

  function RosterBytes(roomId: seq<byte>, epoch: int, ring: seq<Key>): seq<byte>
  {
    Encodings.Encode(Encodings.RosterSnapshot(roomId, epoch, ring))
  }

  ghost predicate Enabled(verify: Verifier, s: State, step: Step)
  {
    match step
    case Begin(id, epoch, ring, sig) => id !in s.pubs && epoch == s.room.rosterEpoch + 1 && WellShaped(ring, sig)
    case CheckSignature(id) =>
      id in s.pubs && s.pubs[id].stage.EpochRead? &&
      exists box :: IsFirstUninvited(s.room.rows, box) &&
        verify(s.room.rows[box].sig, s.pubs[id].sig, RosterBytes(s.roomId, s.pubs[id].epoch, s.pubs[id].ring))
    case MatchLive(id) =>
      id in s.pubs && s.pubs[id].stage.SignatureChecked? && IsLiveRing(s.room.rows, s.pubs[id].ring)
    case Insert(id) => id in s.pubs && s.pubs[id].stage.LiveMatched?
    case Abort(id) => true
    case Other(op) => !op.Publish?
  }

  function Logged(s: State): State { s.(log := s.log + [s.room.rows]) }

  /** A step that is not enabled does nothing. */
  ghost function Next(verify: Verifier, s: State, step: Step): State
  {
    if !Enabled(verify, s, step) then s else
    match step
    case Begin(id, epoch, ring, sig) =>
      Logged(s.(pubs := s.pubs[id := Publishing(epoch, ring, sig, EpochRead, |s.log|)]))
    case CheckSignature(id) => Logged(s.(pubs := s.pubs[id := s.pubs[id].(stage := SignatureChecked)]))
    case MatchLive(id) => Logged(s.(pubs := s.pubs[id := s.pubs[id].(stage := LiveMatched)]))
    case Insert(id) =>
      var p := s.pubs[id];
      Logged(s.(room := Apply(s.room, Publish(p.epoch, Roster(p.ring, p.sig))), pubs := s.pubs - {id},
                spans := if CanInsertRoster(s.room, p.epoch) then s.spans[p.epoch := Span(p.since, |s.log|)]
                         else s.spans))
    case Abort(id) => Logged(s.(pubs := s.pubs - {id}))
    case Other(op) => Logged(s.(room := Apply(s.room, op)))
  }

  ghost function Exec(verify: Verifier, s: State, steps: seq<Step>): State
    decreases |steps|
  {
    if |steps| == 0 then s else Exec(verify, Next(verify, s, steps[0]), steps[1..])
  }

  function Start(roomId: seq<byte>, box: Key, sig: Key, wrapped: Sealed, date: int): State
  {
    var room := NewRoom(box, sig, wrapped, date);
    State(roomId, room, map[], [], map[])
  }

  /** At some moment of the span the ring was the live ring. */
  ghost predicate WasLive(log: seq<Rows>, first: nat, last: nat, ring: seq<Key>)
  {
    exists m: nat :: first <= m <= last && m < |log| && IsLiveRing(log[m], ring)
  }

  ghost predicate InFlightOk(verify: Verifier, s: State, creatorSig: Key, p: Publishing)
  {
    && WellShaped(p.ring, p.sig) && p.since < |s.log|
    && (!p.stage.EpochRead? ==> verify(creatorSig, p.sig, RosterBytes(s.roomId, p.epoch, p.ring)))
    && (p.stage.LiveMatched? ==> WasLive(s.log, p.since, |s.log| - 1, p.ring))
  }

  /** What a stored roster guarantees: its shape, the creator's signature over exactly this room,
      epoch and ring, and a moment within its own request at which it was the live ring. */
  ghost predicate StoredOk(verify: Verifier, s: State, creatorSig: Key, epoch: int)
  {
    && epoch in s.room.rosters && epoch in s.spans
    && var r, span := s.room.rosters[epoch], s.spans[epoch];
       && WellShaped(r.ring, r.creatorSig) && verify(creatorSig, r.creatorSig, RosterBytes(s.roomId, epoch, r.ring))
       && span.first <= span.last < |s.log| && WasLive(s.log, span.first, span.last, r.ring)
  }

  ghost predicate Inv(verify: Verifier, s: State, creator: Key)
  {
    && RoomInv(s.room, creator)
    && (forall id | id in s.pubs :: InFlightOk(verify, s, s.room.rows[creator].sig, s.pubs[id]))
    && (forall e | 1 <= e <= s.room.rosterEpoch :: StoredOk(verify, s, s.room.rows[creator].sig, e))
  }

  predicate Dated(step: Step, date: int) { step.Other? ==> NotBefore(step.op, date) }

  lemma WasLiveLater(log: seq<Rows>, log': seq<Rows>, first: nat, last: nat, last': nat, ring: seq<Key>)
    requires WasLive(log, first, last, ring) && log <= log' && last <= last'
    ensures WasLive(log', first, last', ring)
  {
    var m: nat :| first <= m <= last && m < |log| && IsLiveRing(log[m], ring);
    assert log'[m] == log[m];
  }

  lemma InFlightLater(verify: Verifier, s: State, t: State, sig: Key, p: Publishing)
    requires InFlightOk(verify, s, sig, p) && s.log <= t.log && t.roomId == s.roomId
    ensures InFlightOk(verify, t, sig, p)
  {
    hide IsLiveRing, WellShaped, RosterBytes;
    if p.stage.LiveMatched? {
      WasLiveLater(s.log, t.log, p.since, |s.log| - 1, |t.log| - 1, p.ring);
    }
  }

  lemma StoredLater(verify: Verifier, s: State, t: State, sig: Key, e: int)
    requires StoredOk(verify, s, sig, e) && s.log <= t.log && t.roomId == s.roomId
    requires e in t.spans && t.spans[e] == s.spans[e] && e in t.room.rosters && t.room.rosters[e] == s.room.rosters[e]
    ensures StoredOk(verify, t, sig, e)
  {
    hide IsLiveRing, WellShaped, RosterBytes;
    WasLiveLater(s.log, t.log, s.spans[e].first, s.spans[e].last, s.spans[e].last, s.room.rosters[e].ring);
  }

  /** The statement against the room that a step makes, if it makes one. */
  function Made(s: State, step: Step): Option<Op>
  {
    match step
    case Insert(id) =>
      if id in s.pubs then Some(Publish(s.pubs[id].epoch, Roster(s.pubs[id].ring, s.pubs[id].sig))) else None
    case Other(op) => Some(op)
    case _ => None
  }

  lemma NextRoom(verify: Verifier, s: State, step: Step)
    ensures var t := Next(verify, s, step);
            && (t.room == s.room || (Made(s, step).Some? && t.room == Apply(s.room, Made(s, step).value)))
            && t.roomId == s.roomId && (!step.Insert? ==> t.spans == s.spans) && s.log <= t.log
            && (step.Other? && Enabled(verify, s, step) ==> !step.op.Publish?)
            && (step.Other? && !Enabled(verify, s, step) ==> t == s)
  {
    hide Apply, IsLiveRing, WellShaped, RosterBytes, IsFirstUninvited;
  }

  /** The room half of a step. */
  lemma RoomStep(verify: Verifier, s: State, step: Step, creator: Key)
    requires RoomInv(s.room, creator) && Dated(step, s.room.rows[creator].joinedAt)
    ensures var t := Next(verify, s, step);
            && RoomInv(t.room, creator) && Evolves(s.room, t.room) && t.roomId == s.roomId
            && t.room.rows[creator].sig == s.room.rows[creator].sig
            && t.room.rows[creator].joinedAt == s.room.rows[creator].joinedAt
  {
    NextRoom(verify, s, step);
    hide Next;
    EvolvesReflexive(s.room);
    var made := Made(s, step);
    if made.Some? {
      ApplyEvolves(s.room, made.value);
      ApplyKeepsInv(s.room, made.value, creator);
      hide Apply, RoomInv, Evolves;
    }
  }

  lemma PubsStep(verify: Verifier, s: State, step: Step, creator: Key)
    requires Inv(verify, s, creator) && Dated(step, s.room.rows[creator].joinedAt)
    ensures var t := Next(verify, s, step);
            forall id | id in t.pubs :: InFlightOk(verify, t, s.room.rows[creator].sig, t.pubs[id])
  {
    var t := Next(verify, s, step);
    var sig := s.room.rows[creator].sig;
    if !Enabled(verify, s, step) { return; }
    if step.CheckSignature? {
      var box :| IsFirstUninvited(s.room.rows, box) &&
        verify(s.room.rows[box].sig, s.pubs[step.id].sig,
               RosterBytes(s.roomId, s.pubs[step.id].epoch, s.pubs[step.id].ring));
      CreatorIsFirstUninvited(s.room, creator, box);
    }
    hide WellShaped, RosterBytes, RoomInv, IsFirstUninvited, IsLiveRing;
    forall id | id in t.pubs ensures InFlightOk(verify, t, sig, t.pubs[id]) {
      if step.Begin? && id == step.id {
      } else {
        InFlightLater(verify, s, t, sig, s.pubs[id]);
        if step.MatchLive? && id == step.id {
          assert t.log[|s.log|] == s.room.rows;
        }
      }
    }
  }

  /** The step that stores a roster. */
  predicate Stores(s: State, step: Step)
  {
    && step.Insert? && step.id in s.pubs && s.pubs[step.id].stage.LiveMatched?
    && CanInsertRoster(s.room, s.pubs[step.id].epoch)
  }

  lemma NextRosters(verify: Verifier, s: State, step: Step)
    ensures var t := Next(verify, s, step);
            && s.log <= t.log && t.roomId == s.roomId
            && (!Stores(s, step) ==> t.room.rosters == s.room.rosters && t.room.rosterEpoch == s.room.rosterEpoch &&
                                     t.spans == s.spans)
            && (Stores(s, step) ==>
                 var p := s.pubs[step.id];
                 && t.room.rosterEpoch == p.epoch == s.room.rosterEpoch + 1 && |t.log| == |s.log| + 1
                 && t.room.rosters == s.room.rosters[p.epoch := Roster(p.ring, p.sig)]
                 && t.spans == s.spans[p.epoch := Span(p.since, |s.log|)])
  {
    hide WellShaped, RosterBytes, IsFirstUninvited, IsLiveRing, AddMember, GrantWrap, SoftRemoveBySig, SoftRemoveByBox,
      ApplyWraps, RekeyOutcome;
  }

  lemma StoredStep(verify: Verifier, s: State, step: Step, creator: Key)
    requires Inv(verify, s, creator)
    ensures var t := Next(verify, s, step);
            forall e | 1 <= e <= t.room.rosterEpoch :: StoredOk(verify, t, s.room.rows[creator].sig, e)
  {
    hide WellShaped, RosterBytes, IsFirstUninvited, IsLiveRing, Next, StoredOk, InFlightOk;
    var t := Next(verify, s, step);
    var sig := s.room.rows[creator].sig;
    NextRosters(verify, s, step);
    forall e | 1 <= e <= t.room.rosterEpoch ensures StoredOk(verify, t, sig, e) {
      if e <= s.room.rosterEpoch {
        StoredHere(verify, s, sig, e);
        StoredLater(verify, s, t, sig, e);
      } else {
        JustStored(verify, s, t, sig, s.pubs[step.id]);
      }
    }
  }

  lemma StoredHere(verify: Verifier, s: State, sig: Key, e: int)
    requires StoredOk(verify, s, sig, e)
    ensures e in s.room.rosters && e in s.spans
  {
  }

  lemma JustStored(verify: Verifier, s: State, t: State, sig: Key, p: Publishing)
    requires InFlightOk(verify, s, sig, p) && p.stage.LiveMatched? && s.log <= t.log && |t.log| == |s.log| + 1
    requires t.roomId == s.roomId && p.epoch in t.room.rosters && t.room.rosters[p.epoch] == Roster(p.ring, p.sig)
    requires p.epoch in t.spans && t.spans[p.epoch] == Span(p.since, |s.log|)
    ensures StoredOk(verify, t, sig, p.epoch)
  {
    hide WellShaped, RosterBytes, IsLiveRing;
    WasLiveLater(s.log, t.log, p.since, |s.log| - 1, |s.log|, p.ring);
  }

  lemma {:induction false} ExecKeepsInv(verify: Verifier, s: State, steps: seq<Step>, creator: Key)
    requires Inv(verify, s, creator)
    requires forall i | 0 <= i < |steps| :: Dated(steps[i], s.room.rows[creator].joinedAt)
    ensures var t := Exec(verify, s, steps);
            && Inv(verify, t, creator) && Evolves(s.room, t.room) && t.roomId == s.roomId
            && t.room.rows[creator].sig == s.room.rows[creator].sig
            && t.room.rows[creator].joinedAt == s.room.rows[creator].joinedAt
    decreases |steps|
  {
    hide InFlightOk, StoredOk, Enabled, RoomInv, RowsEvolve;
    if |steps| > 0 {
      var t := Next(verify, s, steps[0]);
      RoomStep(verify, s, steps[0], creator);
      PubsStep(verify, s, steps[0], creator);
      StoredStep(verify, s, steps[0], creator);
      ExecKeepsInv(verify, t, steps[1..], creator);
      EvolvesTransitive(s.room, t.room, Exec(verify, s, steps).room);
    } else {
      EvolvesReflexive(s.room);
    }
  }

  lemma StartInv(verify: Verifier, roomId: seq<byte>, box: Key, sig: Key, wrapped: Sealed, date: int)
    ensures Inv(verify, Start(roomId, box, sig, wrapped, date), box)
  {
  }

  /** The roster machine: in every run of a new room, whatever publishers race, the stored epochs
      are exactly 1 up to the room's roster epoch, vouching is enabled if and only if there is one,
      and every stored roster is strictly sorted, has 1 to 50 keys, is signed by the room's creator
      for its own room and epoch, and was the live ring at a moment within its own request. */
  lemma RosterMachineIsSound(verify: Verifier, roomId: seq<byte>, box: Key, sig: Key, wrapped: Sealed, date: int,
                             steps: seq<Step>)
    requires forall i | 0 <= i < |steps| :: Dated(steps[i], date)
    ensures var t := Exec(verify, Start(roomId, box, sig, wrapped, date), steps);
            && (forall e :: e in t.room.rosters <==> 1 <= e <= t.room.rosterEpoch)
            && (t.room.vouching <==> t.room.rosterEpoch >= 1)
            && (forall e | e in t.room.rosters :: StoredOk(verify, t, sig, e))
  {
    var s := Start(roomId, box, sig, wrapped, date);
    StartInv(verify, roomId, box, sig, wrapped, date);
    ExecKeepsInv(verify, s, steps, box);
    hide StoredOk;
  }

  /** No later step of any kind, a second publisher for the same epoch among them, changes a roster
      that is stored. */
  lemma StoredForGood(verify: Verifier, roomId: seq<byte>, box: Key, sig: Key, wrapped: Sealed, date: int,
                      before: seq<Step>, after: seq<Step>, epoch: int)
    requires forall i | 0 <= i < |before| :: Dated(before[i], date)
    requires forall i | 0 <= i < |after| :: Dated(after[i], date)
    requires epoch in Exec(verify, Start(roomId, box, sig, wrapped, date), before).room.rosters
    ensures var s := Exec(verify, Start(roomId, box, sig, wrapped, date), before);
            var t := Exec(verify, s, after);
            epoch in t.room.rosters && t.room.rosters[epoch] == s.room.rosters[epoch]
  {
    var start := Start(roomId, box, sig, wrapped, date);
    StartInv(verify, roomId, box, sig, wrapped, date);
    ExecKeepsInv(verify, start, before, box);
    ExecKeepsInv(verify, Exec(verify, start, before), after, box);
  }

  lemma FirstIsChecked(verify: Verifier, s0: State, box: Key, sig: Key, rosterSig: seq<byte>)
    requires s0.pubs == map[] && s0.room.rosterEpoch == 0 && IsFirstUninvited(s0.room.rows, box)
    requires s0.room.rows[box].sig == sig && WellShaped([sig], rosterSig)
    requires verify(sig, rosterSig, RosterBytes(s0.roomId, 1, [sig]))
    ensures var s2 := Next(verify, Next(verify, s0, Begin(0, 1, [sig], rosterSig)), CheckSignature(0));
            && s2.room == s0.room && s2.pubs.Keys == {0} && s2.pubs[0].stage == SignatureChecked
            && s2.pubs[0].epoch == 1 && s2.pubs[0].ring == [sig] && s2.pubs[0].sig == rosterSig
  {
    hide RosterBytes, WellShaped;
    var s1 := Next(verify, s0, Begin(0, 1, [sig], rosterSig));
    assert s1.pubs.Keys == {0} && s1.room == s0.room && s1.roomId == s0.roomId;
    assert IsFirstUninvited(s1.room.rows, box);
    hide IsFirstUninvited;
  }

  lemma FirstIsStored(verify: Verifier, s2: State, sig: Key, rosterSig: seq<byte>)
    requires s2.pubs.Keys == {0} && s2.pubs[0].stage == SignatureChecked && s2.room.rosterEpoch == 0
    requires s2.pubs[0].epoch == 1 && s2.pubs[0].ring == [sig] && s2.pubs[0].sig == rosterSig
    requires IsLiveRing(s2.room.rows, [sig])
    ensures var t := Next(verify, Next(verify, s2, MatchLive(0)), Insert(0));
            t.room.vouching && t.room.rosterEpoch == 1 && 1 in t.room.rosters &&
            t.room.rosters[1] == Roster([sig], rosterSig)
  {
    hide IsLiveRing, RosterBytes;
    var s3 := Next(verify, s2, MatchLive(0));
    assert s3.pubs.Keys == {0} && s3.pubs[0].stage == LiveMatched && s3.room == s2.room;
  }

  /** A first roster can be published: the creator of a new room signs a ring of one, and with no one
      in between the four steps store it and enable vouching. */
  lemma FirstRosterIsReachable(verify: Verifier, roomId: seq<byte>, box: Key, sig: Key, wrapped: Sealed, date: int,
                               rosterSig: seq<byte>)
    requires |sig| == PUBKEY_LEN && |rosterSig| == SIG_LEN && verify(sig, rosterSig, RosterBytes(roomId, 1, [sig]))
    ensures var t := Exec(verify, Start(roomId, box, sig, wrapped, date),
                          [Begin(0, 1, [sig], rosterSig), CheckSignature(0), MatchLive(0), Insert(0)]);
            t.room.vouching && t.room.rosterEpoch == 1 && 1 in t.room.rosters &&
            t.room.rosters[1] == Roster([sig], rosterSig)
  {
    hide Next, Exec, RosterBytes;
    var s0 := Start(roomId, box, sig, wrapped, date);
    assert IsFirstUninvited(s0.room.rows, box);
    assert ListsLive(s0.room.rows, [sig], [box]) by { LessIrreflexive(sig); }
    FirstIsChecked(verify, s0, box, sig, rosterSig);
    var s1 := Next(verify, s0, Begin(0, 1, [sig], rosterSig));
    FirstIsStored(verify, Next(verify, s1, CheckSignature(0)), sig, rosterSig);
    ExecFour(verify, s0, Begin(0, 1, [sig], rosterSig), CheckSignature(0), MatchLive(0), Insert(0));
  }

  lemma ExecFour(verify: Verifier, s: State, a: Step, b: Step, c: Step, d: Step)
    ensures Exec(verify, s, [a, b, c, d]) ==
            Next(verify, Next(verify, Next(verify, Next(verify, s, a), b), c), d)
  {
    hide Next;
    assert [a, b, c, d][1..] == [b, c, d] && [b, c, d][1..] == [c, d] && [c, d][1..] == [d];
    var s2 := Next(verify, Next(verify, s, a), b);
    assert Exec(verify, s2, [c, d]) == Exec(verify, Next(verify, s2, c), [d]);
    assert Exec(verify, Next(verify, s, a), [b, c, d]) == Exec(verify, s2, [c, d]);
  }

  /** A request goes past its first read exactly when it is for the epoch after the room's, then and there,
      with 1 to 50 keys in strict order, of 32 bytes, and a signature of 64. */
  lemma BeginsExactly(verify: Verifier, s: State, id: nat, epoch: int, ring: seq<Key>, sig: seq<byte>)
    requires id !in s.pubs
    ensures id in Next(verify, s, Begin(id, epoch, ring, sig)).pubs <==>
            && epoch == s.room.rosterEpoch + 1 && 1 <= |ring| <= 50 && |sig| == 64
            && (forall i | 0 <= i < |ring| :: |ring[i]| == 32) && forall i | 0 < i < |ring| :: Less(ring[i - 1], ring[i])
  {
    if forall i | 0 < i < |ring| :: Less(ring[i - 1], ring[i]) {
      NeighboursSorted(ring);
    }
    hide RosterBytes, IsLiveRing, IsFirstUninvited;
  }

  /** Of racing publishers the first to insert wins: an insert stores the request's ring and signature under its
      epoch exactly if that is still the one after the room's. Either way, and if it is aborted, the request is
      over. */
  lemma InsertEndsTheRequest(verify: Verifier, s: State, id: nat)
    requires id in s.pubs
    ensures var t, p := Next(verify, s, Insert(id)), s.pubs[id];
            p.stage.LiveMatched? ==>
              && t.pubs == s.pubs - {id} && t.room.rows == s.room.rows
              && (if p.epoch == s.room.rosterEpoch + 1
                  then t.room.rosterEpoch == p.epoch &&
                       t.room.rosters == s.room.rosters[p.epoch := Roster(p.ring, p.sig)]
                  else t.room == s.room)
    ensures Next(verify, s, Abort(id)).pubs == s.pubs - {id} && Next(verify, s, Abort(id)).room == s.room
  {
    hide RosterBytes, IsLiveRing, IsFirstUninvited, WellShaped;
  }

  // ---------- What the browser publishes ----------

  ghost predicate Ascending(s: seq<Key>) { forall i, j | 0 <= i < j < |s| :: !Less(s[j], s[i]) }

  predicate KeysFit(s: seq<Key>) { forall k | k in s :: |k| == PUBKEY_LEN }

  /** Where the comparison gives no number the library takes it for zero. */
  method SortsAfter(a: Key, b: Key) returns (after: bool)
    ensures |a| == PUBKEY_LEN && |b| == PUBKEY_LEN ==> (after <==> Less(b, a))
  {
    var order := ComparePubkeys(a, b);
    after := order.Some? && order.value > 0;
  }

  lemma StillNotBefore(sorted: seq<Key>, j: nat, k: Key, m: nat)
    requires Ascending(sorted) && m < j <= |sorted| && !Less(k, sorted[j - 1])
    ensures !Less(k, sorted[m])
  {
    if Less(k, sorted[m]) && m < j - 1 {
      LessTotal(sorted[m], sorted[j - 1]);
      if Less(sorted[m], sorted[j - 1]) {
        LessTransitive(k, sorted[m], sorted[j - 1]);
      }
    }
  }

  lemma InsertedAscending(sorted: seq<Key>, j: nat, k: Key)
    requires Ascending(sorted) && j <= |sorted| && (j > 0 ==> !Less(k, sorted[j - 1]))
    requires forall m | j <= m < |sorted| :: Less(k, sorted[m])
    ensures Ascending(sorted[..j] + [k] + sorted[j..])
  {
    var out := sorted[..j] + [k] + sorted[j..];
    forall x, y | 0 <= x < y < |out| ensures !Less(out[y], out[x]) {
      if y == j {
        StillNotBefore(sorted, j, k, x);
      } else if x == j && Less(out[y], k) {
        LessTransitive(k, out[y], k);
        LessIrreflexive(k);
      }
    }
  }

  /** One key into its place, from the end backwards. */
  method InsertKey(sorted: seq<Key>, k: Key) returns (out: seq<Key>)
    ensures forall x :: x in out <==> x in sorted || x == k
    ensures KeysFit(sorted + [k]) && Ascending(sorted) ==> Ascending(out)
  {
    var j := |sorted|;
    ghost var fit := KeysFit(sorted + [k]) && Ascending(sorted);
    assert forall m | 0 <= m < |sorted| :: sorted[m] in sorted + [k];
    assert k in sorted + [k];
    while j > 0
      invariant 0 <= j <= |sorted|
      invariant fit ==> forall m | j <= m < |sorted| :: Less(k, sorted[m])
    {
      var after := SortsAfter(sorted[j - 1], k);
      if !after {
        break;
      }
      j := j - 1;
    }
    out := sorted[..j] + [k] + sorted[j..];
    assert sorted == sorted[..j] + sorted[j..];
    if fit {
      InsertedAscending(sorted, j, k);
    }
    hide Ascending;
  }

  /** The library's sort under `comparePubkeys`. */
  method SortKeys(keys: seq<Key>) returns (sorted: seq<Key>)
    ensures forall k :: k in sorted <==> k in keys
    ensures KeysFit(keys) ==> Ascending(sorted)
  {
    sorted := [];
    for i := 0 to |keys|
      invariant forall k :: k in sorted <==> k in keys[..i]
      invariant KeysFit(keys) ==> Ascending(sorted)
    {
      assert forall k | k in sorted + [keys[i]] :: k in keys;
      sorted := InsertKey(sorted, keys[i]);
    }
  }

  /** `canonicalRing`: sorted, and neighbours that are equal dropped. */
  method CanonicalRing(pubkeys: seq<Key>) returns (ring: seq<Key>)
    ensures forall k :: k in ring <==> k in pubkeys
    ensures KeysFit(pubkeys) ==> StrictlySorted(ring)
  {
    var sorted := SortKeys(pubkeys);
    ring := [];
    for i := 0 to |sorted|
      invariant KeysFit(pubkeys) ==> forall j | 0 < j < |ring| :: Less(ring[j - 1], ring[j])
      invariant forall k :: k in ring <==> k in sorted[..i]
      invariant if i == 0 then ring == [] else |ring| > 0 && ring[|ring| - 1] == sorted[i - 1]
    {
      if |ring| == 0 || ring[|ring| - 1] != sorted[i] {
        if |ring| > 0 {
          LessTotal(sorted[i - 1], sorted[i]);
        }
        ring := ring + [sorted[i]];
      }
    }
    if KeysFit(pubkeys) {
      NeighboursSorted(ring);
    }
  }

  ghost predicate DistinctSigners(rows: Rows)
  {
    forall a, b | a in rows && b in rows && a != b && rows[a].Active() && rows[b].Active() &&
                  rows[a].Accepted() && rows[b].Accepted() :: rows[a].sig != rows[b].sig
  }

  /** One strictly ascending list for one set. */
  lemma {:induction false} SortedIsUnique(a: seq<Key>, b: seq<Key>)
    requires StrictlySorted(a) && StrictlySorted(b) && forall k :: k in a <==> k in b
    ensures a == b
  {
    assert |b| > 0 ==> b[0] in a;
    if |a| > 0 {
      assert a[0] in b;
      SameFirst(a, b);
      forall k ensures k in a[1..] <==> k in b[1..] {
        if k in a[1..] { NotFirst(a, k); assert k in b; assert k in b[1..]; }
        if k in b[1..] { NotFirst(b, k); assert k in a; assert k in a[1..]; }
      }
      SortedIsUnique(a[1..], b[1..]);
      assert a == [a[0]] + a[1..] && b == [b[0]] + b[1..];
    }
  }

  lemma SameFirst(a: seq<Key>, b: seq<Key>)
    requires StrictlySorted(a) && StrictlySorted(b) && |a| > 0 && |b| > 0 && a[0] in b && b[0] in a
    ensures a[0] == b[0]
  {
    if a[0] != b[0] {
      var i :| 0 <= i < |b| && b[i] == a[0];
      var j :| 0 <= j < |a| && a[j] == b[0];
      LessTransitive(a[0], b[0], a[0]);
      LessIrreflexive(a[0]);
    }
  }

  lemma NotFirst(a: seq<Key>, k: Key)
    requires StrictlySorted(a) && |a| > 0 && k in a[1..]
    ensures k != a[0] && k in a
  {
    var i :| 0 <= i < |a[1..]| && a[1..][i] == k;
    assert a[i + 1] == k && Less(a[0], a[i + 1]);
    LessIrreflexive(k);
  }

  /** The server's list keeps repeated signing keys and the browser's ring drops them, so the ring
      a browser builds from the live members matches the server's list exactly when no two accepted
      active rows share a signing key. */
  lemma CanonicalMatchesLive(rows: Rows, live: seq<Key>, ring: seq<Key>)
    requires IsLiveRing(rows, live) && StrictlySorted(ring) && forall k :: k in ring <==> k in live
    ensures ring == live <==> DistinctSigners(rows)
  {
    var boxes :| ListsLive(rows, live, boxes);
    if DistinctSigners(rows) {
      DistinctIsStrict(rows, live, boxes);
      SortedIsUnique(ring, live);
    } else {
      RepeatIsNotStrict(rows, live, boxes);
    }
  }

  /** And such a room is soon there: two members join under one signing key, both are granted, and from
      then on no ring in strict order, so none that can be published, is the server's list. */
  lemma SharedKeyBlocksTheRoster(box: Key, sig: Key, wrapped: Sealed, date: int, a: Key, b: Key, shared: Key,
                                 forA: Sealed, forB: Sealed)
    requires box != a && box != b && a != b
    ensures var ops := [Op.Join(a, shared, date), Op.Join(b, shared, date), Op.Grant(a, forA, box),
                        Op.Grant(b, forB, box)];
            var rows := Run(NewRoom(box, sig, wrapped, date), ops).rows;
            !DistinctSigners(rows) && forall ring | StrictlySorted(ring) :: !IsLiveRing(rows, ring)
  {
    var ops :=
      [Op.Join(a, shared, date), Op.Join(b, shared, date), Op.Grant(a, forA, box), Op.Grant(b, forB, box)];
    var room := NewRoom(box, sig, wrapped, date);
    var rows := Run(room, ops).rows;
    RunFour(room, ops[0], ops[1], ops[2], ops[3]);
    assert a in rows && b in rows && rows[a].Active() && rows[a].Accepted() && rows[b].Active() && rows[b].Accepted();
    assert rows[a].sig == shared == rows[b].sig;
    hide Run, IsLiveRing, StrictlySorted;
    forall ring | StrictlySorted(ring) ensures !IsLiveRing(rows, ring) {
      if IsLiveRing(rows, ring) {
        CanonicalMatchesLive(rows, ring, ring);
      }
    }
  }

  lemma RunFour(room: Room, a: Op, b: Op, c: Op, d: Op)
    ensures Run(room, [a, b, c, d]) == Apply(Apply(Apply(Apply(room, a), b), c), d)
  {
    hide Apply;
    assert [a, b, c, d] == [] + [a] + [b] + [c] + [d];
    RunOneMore(room, [] + [a] + [b] + [c], d);
    RunOneMore(room, [] + [a] + [b], c);
    RunOneMore(room, [] + [a], b);
    RunOneMore(room, [], a);
  }

  lemma DistinctIsStrict(rows: Rows, live: seq<Key>, boxes: seq<Key>)
    requires ListsLive(rows, live, boxes) && DistinctSigners(rows)
    ensures StrictlySorted(live)
  {
    forall i, j | 0 <= i < j < |live| ensures Less(live[i], live[j]) {
      assert boxes[i] in boxes && boxes[j] in boxes;
      LessTotal(live[i], live[j]);
    }
  }

  lemma RepeatIsNotStrict(rows: Rows, live: seq<Key>, boxes: seq<Key>)
    requires ListsLive(rows, live, boxes) && !DistinctSigners(rows)
    ensures !StrictlySorted(live)
  {
    var a, b :| a in rows && b in rows && a != b && rows[a].Active() && rows[b].Active() &&
                rows[a].Accepted() && rows[b].Accepted() && rows[a].sig == rows[b].sig;
    assert a in boxes && b in boxes;
    var i :| 0 <= i < |boxes| && boxes[i] == a;
    var j :| 0 <= j < |boxes| && boxes[j] == b;
    assert live[i] == rows[a].sig && live[j] == rows[b].sig;
    LessIrreflexive(live[i]);
  }
}
