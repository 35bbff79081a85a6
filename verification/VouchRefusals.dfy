/** What no vouch passes: a roster that is not the last, a post it was not made for, a second identity in
    one thread. */
module VouchRefusals {
  import opened Bytes
  import Encodings
  import opened Rooms
  import opened RoomRuns
  import opened RosterMachine
  import opened RingSig
  import opened RingRefusals
  import opened Vouches
  import opened BuildVouch

  // ---------- Only the last roster ----------

  /** In every run of a new room, what the server accepts cites the last roster published when it first
      read the room: every vouch for an earlier epoch is refused, and so is every vouch whose ring has a
      key that roster lacks. */
  lemma AcceptedCitesTheLastRoster(cr: Crypto, roomId: seq<byte>, box: Key, sig: Key, wrapped: Sealed, date: int,
                                   run1: seq<Step>, run2: seq<Step>, v: Vouch, thread: seq<byte>, body: seq<byte>)
    requires cr.suite.q > 0 && AllDated(run1, date) && AllDated(run2, date)
    ensures var s1 := Exec(cr.serverVerify, Start(roomId, box, sig, wrapped, date), run1);
            var s2 := Exec(cr.serverVerify, s1, run2);
            && (ServerValidates(cr, roomId, s1.room, s2.room, v, thread, body) ==>
                  v.epoch in s1.room.rosters && s1.room.rosters[v.epoch].ring == v.ring)
            && (forall e | e in s1.room.rosters && v.epoch < e ::
                  !ServerValidates(cr, roomId, s1.room, s2.room, v, thread, body))
            && (forall e, k | e in s1.room.rosters && (forall later | later in s1.room.rosters :: later <= e) &&
                              k !in s1.room.rosters[e].ring && k in v.ring ::
                  !ServerValidates(cr, roomId, s1.room, s2.room, v, thread, body))
  {
    hide Exec, Start, Inv, AllDated, ServerAccepts, Evolves;
    var verify := cr.serverVerify;
    NewIsRoom(verify, roomId, box, sig, wrapped, date);
    var s1 := Exec(verify, Start(roomId, box, sig, wrapped, date), run1);
    RunOfRoom(verify, Start(roomId, box, sig, wrapped, date), run1, box, roomId, sig, date);
    RunOfRoom(verify, s1, run2, box, roomId, sig, date);
    RostersOf(verify, s1, box);
    RostersStay(s1.room, Exec(verify, s1, run2).room);
  }

  lemma RostersOf(verify: Verifier, s: State, creator: Key)
    requires Inv(verify, s, creator)
    ensures forall e :: e in s.room.rosters <==> 1 <= e <= s.room.rosterEpoch
    ensures s.room.vouching <==> s.room.rosterEpoch >= 1
  {
  }

  lemma RostersStay(a: Room, b: Room)
    requires Evolves(a, b)
    ensures forall e | e in a.rosters && e <= a.rosterEpoch :: e in b.rosters && b.rosters[e] == a.rosters[e]
  {
  }

  // ---------- Only the post it was made for ----------

  function TextFor(cr: Crypto, v: Vouch, thread: seq<byte>, body: seq<byte>): Encodings.Message
  {
    Encodings.VouchText(v.room, thread, cr.sha256(body), v.epoch, v.ring, v.keyImage)
  }

  /** Nothing the two posts' digests are made with collides. */
  ghost predicate DigestsApart(cr: Crypto, v: Vouch, thread1: seq<byte>, body1: seq<byte>, thread2: seq<byte>,
                               body2: seq<byte>)
    requires cr.suite.q > 0
  {
    var x, y := Encodings.Encode(TextFor(cr, v, thread1, body1)), Encodings.Encode(TextFor(cr, v, thread2, body2));
    && |cr.sha256(body1)| == 32 && |cr.sha256(body2)| == 32
    && (body1 != body2 ==> cr.sha256(body1) != cr.sha256(body2))
    && (x != y ==> Apart(cr.suite, cr.sha512(x), cr.sha512(y)))
  }

  lemma OtherPostOtherInput(cr: Crypto, v: Vouch, thread1: seq<byte>, body1: seq<byte>, thread2: seq<byte>,
                            body2: seq<byte>)
    requires cr.suite.q > 0 && DigestsApart(cr, v, thread1, body1, thread2, body2)
    requires |thread1| == 16 && |thread2| == 16 && (thread1 != thread2 || body1 != body2)
    requires |v.room| == 16 && Encodings.IsI32(v.epoch) && |v.keyImage| == 32 && 0 < |v.ring| <= VOUCH_MAX_RING
    requires KeysFit(v.ring)
    ensures Apart(cr.suite, MessageDigest(cr, v, thread1, body1), MessageDigest(cr, v, thread2, body2))
  {
    hide Apart, Encodings.Encode;
    var a, b := TextFor(cr, v, thread1, body1), TextFor(cr, v, thread2, body2);
    forall i | 0 <= i < |v.ring| ensures |v.ring[i]| == 32 { assert v.ring[i] in v.ring; }
    assert a != b && Encodings.WellFormed(a) && Encodings.WellFormed(b);
    if Encodings.Encode(a) == Encodings.Encode(b) {
      Encodings.EncodeInjective(a, b);
    }
  }

  /** A reader takes the vouch for this post, or the server does. */
  ghost predicate TakenFor(cr: Crypto, resp: Option<RosterResp>, roomId: seq<byte>, meta: Room, stored: Room, v: Vouch,
                           thread: seq<byte>, body: seq<byte>)
    requires cr.suite.q > 0
  {
    ReaderVerifies(cr, resp, v, thread, body) || ServerValidates(cr, roomId, meta, stored, v, thread, body)
  }

  lemma TakenComesBack(cr: Crypto, resp: Option<RosterResp>, roomId: seq<byte>, meta: Room, stored: Room, v: Vouch,
                       thread: seq<byte>, body: seq<byte>)
    requires cr.suite.q > 0 && TakenFor(cr, resp, roomId, meta, stored, v, thread, body)
    ensures |v.room| == 16 && |v.keyImage| == 32 && |v.s| == |v.ring|
    ensures 0 < |v.ring| <= VOUCH_MAX_RING && KeysFit(v.ring)
    ensures WalksComeBack(cr.suite, StatementFor(cr, v, thread, body), SignatureIn(cr, v), false)
  {
    hide WalksComeBack, RosterBytes, WalkRuns, Closes, MessageDigest;
    AcceptedComesBack(cr.suite, StatementFor(cr, v, thread, body), SignatureIn(cr, v));
  }

  /** A vouch is for one post: what a reader or the server takes it for in one thread with one body, neither a
      reader nor the server takes it for with another body or in another thread, whenever they look. */
  lemma VouchIsForOnePost(cr: Crypto, v: Vouch, thread1: seq<byte>, body1: seq<byte>, thread2: seq<byte>,
                          body2: seq<byte>, resp1: Option<RosterResp>, roomId1: seq<byte>, meta1: Room, stored1: Room,
                          resp2: Option<RosterResp>, roomId2: seq<byte>, meta2: Room, stored2: Room)
    requires cr.suite.q > 0 && DigestsApart(cr, v, thread1, body1, thread2, body2) && Encodings.IsI32(v.epoch)
    requires |thread1| == 16 && |thread2| == 16 && (thread1 != thread2 || body1 != body2)
    ensures !(TakenFor(cr, resp1, roomId1, meta1, stored1, v, thread1, body1) &&
              TakenFor(cr, resp2, roomId2, meta2, stored2, v, thread2, body2))
  {
    hide DigestsApart, Apart, WalksComeBack, MessageDigest, TakenFor, KeysFit;
    if TakenFor(cr, resp1, roomId1, meta1, stored1, v, thread1, body1) {
      TakenComesBack(cr, resp1, roomId1, meta1, stored1, v, thread1, body1);
      if TakenFor(cr, resp2, roomId2, meta2, stored2, v, thread2, body2) {
        TakenComesBack(cr, resp2, roomId2, meta2, stored2, v, thread2, body2);
        OtherPostOtherInput(cr, v, thread1, body1, thread2, body2);
        var sig := SignatureIn(cr, v);
        OneMessage(cr.suite, StatementFor(cr, v, thread1, body1), StatementFor(cr, v, thread2, body2), sig, sig, false);
      }
    }
  }

  // ---------- One identity a thread ----------

  /** The base a key image is made on belongs to one member in one thread of one room. */
  lemma BaseIsForOneMemberInOneThread(cr: Crypto, room: seq<byte>, thread: seq<byte>, member: Key,
                                      room': seq<byte>, thread': seq<byte>, member': Key)
    requires var x := Encodings.Encode(Encodings.VouchBase(room, thread, member));
             var y := Encodings.Encode(Encodings.VouchBase(room', thread', member'));
             x != y ==> cr.hashToPoint(x) != cr.hashToPoint(y)
    requires |room| == 16 && |room'| == 16 && |thread| == 16 && |thread'| == 16 && |member| == 32 && |member'| == 32
    ensures KeyImageBase(cr, room, thread, member) == KeyImageBase(cr, room', thread', member') <==>
            room == room' && thread == thread' && member == member'
  {
    if KeyImageBase(cr, room, thread, member) == KeyImageBase(cr, room', thread', member') {
      Encodings.EncodeInjective(Encodings.VouchBase(room, thread, member), Encodings.VouchBase(room', thread', member'));
    }
  }

  /** Two vouches of one member in one thread carry one key image, whatever the rosters, bodies and random
      scalars: that is what links them. */
  lemma OneImageAThread(cr: Crypto, wire: Wire, roomId: seq<byte>, thread: seq<byte>, resp1: RosterResp, ring1: seq<Key>,
                        body1: seq<byte>, m1: Member, st1: Statement, d1: Draw, v1: Vouch,
                        resp2: RosterResp, ring2: seq<Key>, body2: seq<byte>, m2: Member, st2: Statement, d2: Draw,
                        v2: Vouch)
    requires cr.suite.q > 0 && m1.sigPub == m2.sigPub && m1.x == m2.x
    requires SignsAt(cr, wire, roomId, resp1, ring1, thread, body1, m1, st1, d1, v1)
    requires SignsAt(cr, wire, roomId, resp2, ring2, thread, body2, m2, st2, d2, v2)
    ensures v1.keyImage == v2.keyImage == wire.encodePoint(KeyImageOf(cr, roomId, thread, m1))
  {
  }
}
