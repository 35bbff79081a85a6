/** Room vouches: what the server stores, what a reader accepts, and why the second follows from the
    first however the room changes in between. */
module Vouches {
  import opened Bytes
  import Encodings
  import opened Rooms
  import opened RoomRuns
  import opened RosterMachine
  import opened RingSig

  datatype Vouch = Vouch(room: seq<byte>, epoch: int, creatorSig: seq<byte>, ring: seq<Key>,
                         keyImage: seq<byte>, c0: seq<byte>, s: seq<seq<byte>>)

  /** The primitives that cannot be seen into. Points and scalars are read the same way on both
      sides; the two sides have their own Ed25519 verifiers. */
  datatype Crypto = Crypto(
    suite: Suite,
    point: seq<byte> -> Point,
    scalar: seq<byte> -> Scalar,
    hashToPoint: seq<byte> -> Point,
    sha256: seq<byte> -> seq<byte>,
    sha512: seq<byte> -> seq<byte>,
    serverVerify: Verifier,
    browserVerify: Verifier)

  function MessageDigest(cr: Crypto, v: Vouch, thread: seq<byte>, body: seq<byte>): Message
  {
    cr.sha512(Encodings.Encode(Encodings.VouchText(v.room, thread, cr.sha256(body), v.epoch, v.ring, v.keyImage)))
  }

  function KeyImageBase(cr: Crypto, room: seq<byte>, thread: seq<byte>, member: Key): Point
  {
    cr.hashToPoint(Encodings.Encode(Encodings.VouchBase(room, thread, member)))
  }

  function StatementFor(cr: Crypto, v: Vouch, thread: seq<byte>, body: seq<byte>): (st: Statement)
    ensures |st.ring| == |st.bases| == |v.ring|
  {
    Statement(MessageDigest(cr, v, thread, body),
              seq(|v.ring|, i requires 0 <= i < |v.ring| => cr.point(v.ring[i])),
              seq(|v.ring|, i requires 0 <= i < |v.ring| => KeyImageBase(cr, v.room, thread, v.ring[i])))
  }

  function SignatureIn(cr: Crypto, v: Vouch): (sig: RingSignature)
    ensures |sig.s| == |v.s|
  {
    RingSignature(cr.point(v.keyImage), cr.scalar(v.c0), seq(|v.s|, i requires 0 <= i < |v.s| => cr.scalar(v.s[i])))
  }

  predicate RightLengths(v: Vouch)
  {
    && |v.room| == 16 && 0 < |v.ring| <= VOUCH_MAX_RING && |v.s| == |v.ring| && |v.keyImage| == 32 && |v.c0| == 32
    && (forall i | 0 <= i < |v.ring| :: |v.ring[i]| == PUBKEY_LEN) && (forall i | 0 <= i < |v.s| :: |v.s[i]| == 32)
  }

  ghost predicate ServerValidates(cr: Crypto, roomId: seq<byte>, meta: Room, stored: Room, v: Vouch,
                                  thread: seq<byte>, body: seq<byte>)
    requires cr.suite.q > 0
  {
    && RightLengths(v) && v.room == roomId && meta.vouching && v.epoch == meta.rosterEpoch
    && v.epoch in stored.rosters && stored.rosters[v.epoch] == Roster(v.ring, v.creatorSig)
    && StrictlySorted(v.ring) && ServerAccepts(cr.suite, StatementFor(cr, v, thread, body), SignatureIn(cr, v))
  }

  /** `validate_vouch`, with the two reads it makes of the room as two states of it. */
  method ValidateVouch(cr: Crypto, roomId: seq<byte>, meta: Room, stored: Room, v: Vouch,
                       thread: seq<byte>, body: seq<byte>) returns (ok: bool)
    requires cr.suite.q > 0
    ensures ok <==> ServerValidates(cr, roomId, meta, stored, v, thread, body)
    ensures ok ==> v.room == roomId && |v.room| == 16 && meta.vouching && v.epoch == meta.rosterEpoch
    ensures ok ==> v.epoch in stored.rosters && stored.rosters[v.epoch].ring == v.ring &&
                   stored.rosters[v.epoch].creatorSig == v.creatorSig
    ensures ok ==> 1 <= |v.ring| <= 50 && |v.s| == |v.ring| && |v.keyImage| == 32 && |v.c0| == 32 &&
                   StrictlySorted(v.ring) && KeysFit(v.ring) && forall i | 0 <= i < |v.s| :: |v.s[i]| == 32
  {
    if !RightLengths(v) || v.room != roomId {
      return false;
    }
    if !meta.vouching || v.epoch != meta.rosterEpoch {
      return false;
    }
    if v.epoch !in stored.rosters || stored.rosters[v.epoch] != Roster(v.ring, v.creatorSig) {
      return false;
    }
    ok := VerifyVouch(cr.suite, v.ring, StatementFor(cr, v, thread, body), SignatureIn(cr, v));
  }

  /** What `/roster` answers with. */
  datatype RosterResp = RosterResp(creatorSigPub: Key, epoch: int, members: seq<Key>, creatorSig: seq<byte>)

  function RosterRespOf(meta: Room, stored: Room, creatorSigPub: Key): RosterResp
    requires meta.rosterEpoch in stored.rosters
  {
    var r := stored.rosters[meta.rosterEpoch];
    RosterResp(creatorSigPub, meta.rosterEpoch, r.ring, r.creatorSig)
  }

  /** The roster endpoint, with its three reads: the room's epoch, the stored row, the creator. */
  ghost predicate Answers(meta: Room, stored: Room, members: Rows, resp: Option<RosterResp>)
  {
    if meta.vouching && meta.rosterEpoch >= 1 && meta.rosterEpoch in stored.rosters &&
       exists box :: IsFirstUninvited(members, box)
    then exists box :: IsFirstUninvited(members, box) &&
           resp == Some(RosterRespOf(meta, stored, members[box].sig))
    else resp == None
  }

  ghost predicate ReaderVerifies(cr: Crypto, resp: Option<RosterResp>, v: Vouch, thread: seq<byte>, body: seq<byte>)
    requires cr.suite.q > 0
  {
    && |v.room| == 16 && 0 < |v.ring| <= VOUCH_MAX_RING && KeysFit(v.ring) && StrictlySorted(v.ring)
    && resp.Some? && 1 <= v.epoch <= resp.value.epoch
    && cr.browserVerify(resp.value.creatorSigPub, v.creatorSig, RosterBytes(v.room, v.epoch, v.ring))
    && |v.keyImage| == 32 && |v.c0| == 32 && (forall i | 0 <= i < |v.s| :: |v.s[i]| == 32)
    && ReaderAccepts(cr.suite, StatementFor(cr, v, thread, body), SignatureIn(cr, v))
  }

  /** The reader's `verifyVouch`, in its order. A ring key that is not 32 bytes long may get past the
      comparison with its neighbour, but not past the point test, which takes no other length. */
  method ReaderVerifyVouch(cr: Crypto, resp: Option<RosterResp>, v: Vouch, thread: seq<byte>, body: seq<byte>)
    returns (ok: bool)
    requires cr.suite.q > 0
    ensures ok <==> ReaderVerifies(cr, resp, v, thread, body)
    ensures ok ==> |v.room| == 16 && 1 <= |v.ring| <= 50 && StrictlySorted(v.ring) && KeysFit(v.ring)
    ensures ok ==> resp.Some? && 1 <= v.epoch <= resp.value.epoch &&
                   cr.browserVerify(resp.value.creatorSigPub, v.creatorSig, RosterBytes(v.room, v.epoch, v.ring))
    ensures ok ==> |v.keyImage| == 32 && |v.c0| == 32 && |v.s| == |v.ring| && forall i | 0 <= i < |v.s| :: |v.s[i]| == 32
  {
    hide ReaderAccepts, StatementFor, SignatureIn, RosterBytes;
    if |v.room| != 16 || |v.ring| == 0 || |v.ring| > VOUCH_MAX_RING {
      return false;
    }
    var ascending := NeighboursAscend(v.ring);
    if !ascending {
      return false;
    }
    if resp.None? || v.epoch < 1 || v.epoch > resp.value.epoch {
      return false;
    }
    if !cr.browserVerify(resp.value.creatorSigPub, v.creatorSig, RosterBytes(v.room, v.epoch, v.ring)) {
      return false;
    }
    if |v.keyImage| != 32 || |v.c0| != 32 || !KeysFit(v.ring) || exists i | 0 <= i < |v.s| :: |v.s[i]| != 32 {
      return false;
    }
    ok := RingVerify(cr.suite, StatementFor(cr, v, thread, body), SignatureIn(cr, v));
  }

  /** The neighbour check. A comparison that gives no number is not one that fails. */
  method NeighboursAscend(ring: seq<Key>) returns (ok: bool)
    requires |ring| > 0
    ensures KeysFit(ring) ==> (ok <==> StrictlySorted(ring))
  {
    for i := 1 to |ring|
      invariant KeysFit(ring) ==> forall j | 0 < j < i :: Less(ring[j - 1], ring[j])
    {
      assert ring[i - 1] in ring && ring[i] in ring;
      var order := ComparePubkeys(ring[i - 1], ring[i]);
      if order.Some? && order.value >= 0 {
        return false;
      }
    }
    if KeysFit(ring) {
      NeighboursSorted(ring);
    }
    return true;
  }

  /** The one law about the two Ed25519 verifiers: what the server's takes, the browser's takes. */
  ghost predicate BrowserTakesWhatServerTakes(cr: Crypto)
  {
    forall k: Key, sig: seq<byte>, m: seq<byte> :: cr.serverVerify(k, sig, m) ==> cr.browserVerify(k, sig, m)
  }

  ghost predicate AllDated(steps: seq<Step>, date: int) { forall i | 0 <= i < |steps| :: Dated(steps[i], date) }

  /** The two ring walks agree: on a vouch the server takes, the reader's verifier differs only by
      the multiplications that may throw. */
  lemma WalksAgree(cr: Crypto, v: Vouch, thread: seq<byte>, body: seq<byte>)
    requires cr.suite.q > 0 && ServerAccepts(cr.suite, StatementFor(cr, v, thread, body), SignatureIn(cr, v))
    ensures ReaderAccepts(cr.suite, StatementFor(cr, v, thread, body), SignatureIn(cr, v)) <==>
            WalkRuns(cr.suite, StatementFor(cr, v, thread, body), SignatureIn(cr, v))
  {
  }

  /** A vouch the server has taken, against any later state of the room: the facts that outlive it. */
  lemma AcceptedVouch(cr: Crypto, meta: State, stored: State, creator: Key, v: Vouch, thread: seq<byte>, body: seq<byte>)
    requires cr.suite.q > 0 && Inv(cr.serverVerify, meta, creator) && Inv(cr.serverVerify, stored, creator)
    requires Evolves(meta.room, stored.room) && stored.roomId == meta.roomId
    requires stored.room.rows[creator].sig == meta.room.rows[creator].sig
    requires ServerValidates(cr, meta.roomId, meta.room, stored.room, v, thread, body)
    ensures 1 <= v.epoch <= stored.room.rosterEpoch
    ensures cr.serverVerify(meta.room.rows[creator].sig, v.creatorSig, RosterBytes(v.room, v.epoch, v.ring))
    ensures StoredOk(cr.serverVerify, stored, meta.room.rows[creator].sig, v.epoch)
    ensures stored.room.rosters[v.epoch].ring == v.ring
  {
    hide WasLive, ServerAccepts, InFlightOk;
    assert StoredOk(cr.serverVerify, stored, meta.room.rows[creator].sig, v.epoch);
    assert stored.room.rosters[v.epoch].creatorSig == v.creatorSig;
  }

  /** The roster endpoint on a room that has published: it answers, with the creator's key and an
      epoch no lower than any earlier one. */
  lemma AnswerOf(verify: Verifier, meta: State, stored: State, members: State, creator: Key, resp: Option<RosterResp>)
    requires Inv(verify, meta, creator) && Inv(verify, stored, creator) && Inv(verify, members, creator)
    requires Evolves(meta.room, stored.room) && meta.room.rosterEpoch >= 1
    requires Answers(meta.room, stored.room, members.room.rows, resp)
    ensures meta.room.rosterEpoch in stored.room.rosters
    ensures resp == Some(RosterRespOf(meta.room, stored.room, members.room.rows[creator].sig))
  {
    hide InFlightOk, StoredOk;
    CreatorIsFirstUninvited(members.room, creator, creator);
    assert meta.room.rosterEpoch in stored.room.rosters;
    var box :| IsFirstUninvited(members.room.rows, box) &&
               resp == Some(RosterRespOf(meta.room, stored.room, members.room.rows[box].sig));
    CreatorIsFirstUninvited(members.room, creator, box);
  }

  /** A room that this creator made, in any state of it. */
  ghost predicate IsRoom(verify: Verifier, s: State, creator: Key, roomId: seq<byte>, sig: Key, date: int)
  {
    && Inv(verify, s, creator) && s.roomId == roomId
    && s.room.rows[creator].sig == sig && s.room.rows[creator].joinedAt == date
  }

  lemma RunOfRoom(verify: Verifier, s: State, run: seq<Step>, creator: Key, roomId: seq<byte>, sig: Key, date: int)
    requires IsRoom(verify, s, creator, roomId, sig, date) && AllDated(run, date)
    ensures IsRoom(verify, Exec(verify, s, run), creator, roomId, sig, date)
    ensures Evolves(s.room, Exec(verify, s, run).room)
  {
    ExecKeepsInv(verify, s, run, creator);
    hide Exec, Evolves;
  }

  lemma NewIsRoom(verify: Verifier, roomId: seq<byte>, box: Key, sig: Key, wrapped: Sealed, date: int)
    ensures IsRoom(verify, Start(roomId, box, sig, wrapped, date), box, roomId, sig, date)
  {
    StartInv(verify, roomId, box, sig, wrapped, date);
    hide Inv;
  }

  /** Vouch durability over all runs. Take any run of a new room, racing publishers included, in
      which no join is dated before the room; let `validate_vouch` read the room twice during it and
      accept. Then after any further joins, grants, leaves, removals, rekeys and publications, a
      reader who fetches the roster, in three reads with more steps between them, accepts the vouch
      if and only if no multiplication in its ring walk throws. And the vouch's ring was the room's
      live ring at a moment within the request that published its epoch. */
  lemma VouchesAreDurable(cr: Crypto, roomId: seq<byte>, box: Key, sig: Key, wrapped: Sealed, date: int,
                          run1: seq<Step>, run2: seq<Step>, run3: seq<Step>, run4: seq<Step>, run5: seq<Step>,
                          v: Vouch, thread: seq<byte>, body: seq<byte>, resp: Option<RosterResp>)
    requires cr.suite.q > 0 && BrowserTakesWhatServerTakes(cr)
    requires AllDated(run1, date) && AllDated(run2, date) && AllDated(run3, date) && AllDated(run4, date)
    requires AllDated(run5, date)
    requires var s1 := Exec(cr.serverVerify, Start(roomId, box, sig, wrapped, date), run1);
             var s2 := Exec(cr.serverVerify, s1, run2);
             var s3 := Exec(cr.serverVerify, s2, run3);
             var s4 := Exec(cr.serverVerify, s3, run4);
             var s5 := Exec(cr.serverVerify, s4, run5);
             ServerValidates(cr, roomId, s1.room, s2.room, v, thread, body) &&
             Answers(s3.room, s4.room, s5.room.rows, resp)
    ensures ReaderVerifies(cr, resp, v, thread, body) <==>
            WalkRuns(cr.suite, StatementFor(cr, v, thread, body), SignatureIn(cr, v))
    ensures var s2 := Exec(cr.serverVerify, Exec(cr.serverVerify, Start(roomId, box, sig, wrapped, date), run1), run2);
            v.epoch in s2.spans && WasLive(s2.log, s2.spans[v.epoch].first, s2.spans[v.epoch].last, v.ring)
  {
    hide *;
    var verify := cr.serverVerify;
    var s0 := Start(roomId, box, sig, wrapped, date);
    NewIsRoom(verify, roomId, box, sig, wrapped, date);
    var s1 := Exec(verify, s0, run1);
    RunOfRoom(verify, s0, run1, box, roomId, sig, date);
    var s2 := Exec(verify, s1, run2);
    RunOfRoom(verify, s1, run2, box, roomId, sig, date);
    var s3 := Exec(verify, s2, run3);
    RunOfRoom(verify, s2, run3, box, roomId, sig, date);
    var s4 := Exec(verify, s3, run4);
    RunOfRoom(verify, s3, run4, box, roomId, sig, date);
    var s5 := Exec(verify, s4, run5);
    RunOfRoom(verify, s4, run5, box, roomId, sig, date);
    DurableFrom(cr, roomId, box, sig, date, s1, s2, s3, s4, s5, v, thread, body, resp);
  }

  /** The five moments the claim is about: the server's two reads and the reader's three. */
  lemma DurableFrom(cr: Crypto, roomId: seq<byte>, box: Key, sig: Key, date: int, s1: State, s2: State, s3: State,
                    s4: State, s5: State, v: Vouch, thread: seq<byte>, body: seq<byte>, resp: Option<RosterResp>)
    requires cr.suite.q > 0 && BrowserTakesWhatServerTakes(cr)
    requires IsRoom(cr.serverVerify, s1, box, roomId, sig, date) && IsRoom(cr.serverVerify, s2, box, roomId, sig, date)
    requires IsRoom(cr.serverVerify, s3, box, roomId, sig, date) && IsRoom(cr.serverVerify, s4, box, roomId, sig, date)
    requires IsRoom(cr.serverVerify, s5, box, roomId, sig, date)
    requires Evolves(s1.room, s2.room) && Evolves(s2.room, s3.room) && Evolves(s3.room, s4.room)
    requires ServerValidates(cr, roomId, s1.room, s2.room, v, thread, body)
    requires Answers(s3.room, s4.room, s5.room.rows, resp)
    ensures ReaderVerifies(cr, resp, v, thread, body) <==>
            WalkRuns(cr.suite, StatementFor(cr, v, thread, body), SignatureIn(cr, v))
    ensures v.epoch in s2.spans && WasLive(s2.log, s2.spans[v.epoch].first, s2.spans[v.epoch].last, v.ring)
  {
    hide Inv, ServerValidates, Answers, ReaderVerifies, Evolves, WalkRuns, StatementFor, SignatureIn;
    AcceptedVouch(cr, s1, s2, box, v, thread, body);
    EpochRises(s2.room, s3.room);
    AnswerOf(cr.serverVerify, s3, s4, s5, box, resp);
    hide WasLive;
    ReaderTakes(cr, roomId, s1.room, s2.room, resp, v, thread, body);
  }

  lemma EpochRises(a: Room, b: Room)
    requires Evolves(a, b)
    ensures a.rosterEpoch <= b.rosterEpoch
  {
  }

  lemma ReaderTakes(cr: Crypto, roomId: seq<byte>, meta: Room, stored: Room, resp: Option<RosterResp>,
                    v: Vouch, thread: seq<byte>, body: seq<byte>)
    requires cr.suite.q > 0 && BrowserTakesWhatServerTakes(cr)
    requires ServerValidates(cr, roomId, meta, stored, v, thread, body)
    requires resp.Some? && 1 <= v.epoch <= resp.value.epoch
    requires cr.serverVerify(resp.value.creatorSigPub, v.creatorSig, RosterBytes(v.room, v.epoch, v.ring))
    ensures ReaderVerifies(cr, resp, v, thread, body) <==>
            WalkRuns(cr.suite, StatementFor(cr, v, thread, body), SignatureIn(cr, v))
  {
    hide ServerAccepts, ReaderAccepts, WalkRuns, StatementFor, SignatureIn, RosterBytes;
    WalksAgree(cr, v, thread, body);
  }
}
