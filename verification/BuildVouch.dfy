/** The member's side of a vouch, and the proof that what an honest browser builds is what the server
    takes. */
module BuildVouch {
  import opened Bytes
  import opened Rooms
  import opened RoomRuns
  import opened RosterMachine
  import opened RingSig
  import opened RingTheorems
  import opened Vouches

  /** The wire forms of points and scalars: 32 bytes, read back as they were written. */
  datatype Wire = Wire(encodePoint: Point -> seq<byte>, encodeScalar: Scalar -> seq<byte>)
  {
    ghost predicate Valid(cr: Crypto) {
      && (forall p: Point | cr.suite.IsPoint(p) :: |encodePoint(p)| == 32 && cr.point(encodePoint(p)) == p)
      && (forall a: Scalar | cr.suite.IsScalar(a) :: |encodeScalar(a)| == 32 && cr.scalar(encodeScalar(a)) == a)
    }
  }

  /** A member's signing key, the scalar behind it, and the random scalars one signature draws. */
  datatype Member = Member(sigPub: Key, x: Scalar, alpha: Scalar, rnd: nat -> Scalar)
  {
    function Drawn(n: nat): (d: seq<Scalar>)
      ensures |d| == n && forall j | 0 <= j < n :: d[j] == rnd(j)
    {
      seq(n, j requires 0 <= j => rnd(j))
    }
  }

  datatype Building = Built(v: Vouch) | NotOnRoster | RosterNotSigned | Threw

  /** `findIndex`, or -1. */
  method FindIndex(ring: seq<Key>, key: Key) returns (at: int)
    ensures at == -1 ==> key !in ring
    ensures at != -1 ==> 0 <= at < |ring| && ring[at] == key
  {
    for i := 0 to |ring|
      invariant key !in ring[..i]
    {
      if ring[i] == key {
        return i;
      }
    }
    return -1;
  }

  /** The vouch before its ring signature is known: everything the digest is taken over. */
  function Unsigned(wire: Wire, roomId: seq<byte>, resp: RosterResp, ring: seq<Key>, keyImage: Point): Vouch
  {
    Vouch(roomId, resp.epoch, resp.creatorSig, ring, wire.encodePoint(keyImage), [], [])
  }

  function Finished(wire: Wire, v: Vouch, sig: RingSignature): Vouch
  {
    v.(c0 := wire.encodeScalar(sig.c0), s := seq(|sig.s|, i requires 0 <= i < |sig.s| => wire.encodeScalar(sig.s[i])))
  }

  /** The members a roster answer lists, in ring order. */
  ghost predicate RingOf(resp: RosterResp, ring: seq<Key>)
  {
    StrictlySorted(ring) && KeysFit(ring) && forall k :: k in ring <==> k in resp.members
  }

  function KeyImageOf(cr: Crypto, roomId: seq<byte>, thread: seq<byte>, m: Member): Point
    requires cr.suite.q > 0
  {
    cr.suite.Mul(m.x, KeyImageBase(cr, roomId, thread, m.sigPub))
  }

  /** A member's place on a ring, and the signing run it makes there. */
  ghost predicate SignsAt(cr: Crypto, wire: Wire, roomId: seq<byte>, resp: RosterResp, ring: seq<Key>, thread: seq<byte>,
                          body: seq<byte>, m: Member, st: Statement, d: Draw, v: Vouch)
    requires cr.suite.q > 0
  {
    && d.pi < |ring| && ring[d.pi] == m.sigPub && d.alpha == m.alpha && d.rnd == m.Drawn(|ring| - 1)
    && d.keyImage == KeyImageOf(cr, roomId, thread, m)
    && st == StatementFor(cr, Unsigned(wire, roomId, resp, ring, d.keyImage), thread, body) && d.Fits(st)
    && v == Finished(wire, Unsigned(wire, roomId, resp, ring, d.keyImage), SignatureOf(cr.suite, st, d, m.x))
  }

  /** The ring is not too large for a signature, and no multiplication made for one at this place throws. */
  ghost predicate CanSign(cr: Crypto, wire: Wire, roomId: seq<byte>, resp: RosterResp, ring: seq<Key>,
                          thread: seq<byte>, body: seq<byte>, m: Member, at: nat)
    requires cr.suite.q > 0 && at < |ring|
  {
    var keyImage := KeyImageOf(cr, roomId, thread, m);
    && |ring| <= VOUCH_MAX_RING && !cr.suite.mulThrows(m.x, KeyImageBase(cr, roomId, thread, m.sigPub))
    && SigningRuns(cr.suite, StatementFor(cr, Unsigned(wire, roomId, resp, ring, keyImage), thread, body),
                   Draw(at, keyImage, m.alpha, m.Drawn(|ring| - 1)))
  }

  ghost predicate RosterSigned(cr: Crypto, roomId: seq<byte>, resp: RosterResp, ring: seq<Key>)
  {
    cr.browserVerify(resp.creatorSigPub, resp.creatorSig, RosterBytes(roomId, resp.epoch, ring))
  }

  /** What a vouch says of the roster it was built on. */
  ghost predicate CitesRoster(roomId: seq<byte>, resp: RosterResp, v: Vouch)
  {
    && v.room == roomId && v.epoch == resp.epoch && v.creatorSig == resp.creatorSig
    && StrictlySorted(v.ring) && forall k :: k in v.ring <==> k in resp.members
  }

  /** One canonical ring for one answer, and one place in it for one key. */
  lemma OnePlace(resp: RosterResp, ring: seq<Key>, ring': seq<Key>, at: nat, at': nat)
    requires RingOf(resp, ring) && RingOf(resp, ring') && at < |ring| && at' < |ring'| && ring[at] == ring'[at']
    ensures ring == ring' && at == at'
  {
    SortedIsUnique(ring, ring');
    LessIrreflexive(ring[at]);
  }

  /** `buildVouch` on a fetched roster, whatever order and lengths its keys were served in. It refuses
      exactly those not on it; of the others, on the canonical ring and at the member's place in it, it
      refuses exactly an unsigned roster and builds exactly when the signature can be made. What is left
      throws, a roster with a key that is not 32 bytes long at the latest in a multiplication; the
      member's own key is 32 bytes long. */
  method Build(cr: Crypto, wire: Wire, roomId: seq<byte>, resp: RosterResp, thread: seq<byte>, body: seq<byte>, m: Member)
    returns (r: Building)
    requires cr.suite.q > 0 && |m.sigPub| == PUBKEY_LEN
    ensures r.NotOnRoster? <==> m.sigPub !in resp.members
    ensures r.Built? ==> KeysFit(resp.members) && CitesRoster(roomId, resp, r.v)
    ensures r.Built? ==> cr.browserVerify(resp.creatorSigPub, r.v.creatorSig, RosterBytes(r.v.room, r.v.epoch, r.v.ring))
    ensures r.RosterNotSigned? ==> m.sigPub in resp.members && exists ring ::
              && (forall k :: k in ring <==> k in resp.members)
              && !cr.browserVerify(resp.creatorSigPub, resp.creatorSig, RosterBytes(roomId, resp.epoch, ring))
    ensures r.Built? ==> exists ring, st, d ::
              && RingOf(resp, ring) && SignsAt(cr, wire, roomId, resp, ring, thread, body, m, st, d, r.v)
              && RosterSigned(cr, roomId, resp, ring)
    ensures forall ring, at: nat | RingOf(resp, ring) && at < |ring| && ring[at] == m.sigPub ::
              && (r.RosterNotSigned? <==> !RosterSigned(cr, roomId, resp, ring))
              && (r.Built? <==> RosterSigned(cr, roomId, resp, ring) &&
                                CanSign(cr, wire, roomId, resp, ring, thread, body, m, at))
  {
    var mine := CanonicalRing(resp.members);
    var place := FindIndex(mine, m.sigPub);
    hide SignatureOf, StatementFor, RosterBytes, SigningRuns, CanSign, SignsAt, StrictlySorted;
    assert KeysFit(mine) <==> KeysFit(resp.members);
    forall ring, at: nat | RingOf(resp, ring) && at < |ring| && ring[at] == m.sigPub
      ensures ring == mine && at == place
    {
      assert m.sigPub in ring && forall k | k in resp.members :: k in ring;
      OnePlace(resp, ring, mine, at, place);
    }
    if place < 0 {
      return NotOnRoster;
    }
    if !cr.browserVerify(resp.creatorSigPub, resp.creatorSig, RosterBytes(roomId, resp.epoch, mine)) {
      return RosterNotSigned;
    }
    r := BuildOn(cr, wire, roomId, resp, mine, thread, body, m, place);
  }

  /** What `buildVouch` does with the ring once the member has found itself in it. */
  method BuildOn(cr: Crypto, wire: Wire, roomId: seq<byte>, resp: RosterResp, ring: seq<Key>, thread: seq<byte>,
                 body: seq<byte>, m: Member, at: nat)
    returns (r: Building)
    requires cr.suite.q > 0 && at < |ring| && ring[at] == m.sigPub
    ensures r.Built? || r.Threw?
    ensures r.Built? <==> KeysFit(ring) && CanSign(cr, wire, roomId, resp, ring, thread, body, m, at)
    ensures r.Built? ==> exists st, d :: SignsAt(cr, wire, roomId, resp, ring, thread, body, m, st, d, r.v)
    ensures r.Built? ==> r.v.room == roomId && r.v.epoch == resp.epoch && r.v.creatorSig == resp.creatorSig &&
                         r.v.ring == ring
  {
    hide SigningRuns, SignatureOf, StatementFor, KeyImageBase, KeysFit;
    var base := KeyImageBase(cr, roomId, thread, m.sigPub);
    if cr.suite.mulThrows(m.x, base) || !KeysFit(ring) {
      return Building.Threw;
    }
    var keyImage := cr.suite.Mul(m.x, base);
    var v := Unsigned(wire, roomId, resp, ring, keyImage);
    var st := StatementFor(cr, v, thread, body);
    var signing := RingSign(cr.suite, st, at, m.x, keyImage, m.alpha, m.Drawn(|ring| - 1));
    if signing.Signed? {
      r := Built(Finished(wire, v, signing.sig));
      assert SignsAt(cr, wire, roomId, resp, ring, thread, body, m, st,
                     Draw(at, keyImage, m.alpha, m.Drawn(|ring| - 1)), r.v);
    } else {
      r := Building.Threw;
    }
  }

  /** Writing the signature out and reading it back gives the signature that was made, if its
      responses are scalars. */
  lemma ReadsBack(cr: Crypto, wire: Wire, v: Vouch, sig: RingSignature)
    requires wire.Valid(cr) && CanonicalScalars(cr.suite, sig) && cr.suite.IsPoint(sig.keyImage)
    requires v.keyImage == wire.encodePoint(sig.keyImage)
    ensures SignatureIn(cr, Finished(wire, v, sig)) == sig
    ensures |Finished(wire, v, sig).c0| == 32 && forall i | 0 <= i < |sig.s| :: |Finished(wire, v, sig).s[i]| == 32
  {
  }

  /** The digest does not cover the signature, so finishing a vouch leaves its statement alone. */
  lemma SameStatement(cr: Crypto, wire: Wire, v: Vouch, sig: RingSignature, thread: seq<byte>, body: seq<byte>)
    ensures StatementFor(cr, Finished(wire, v, sig), thread, body) == StatementFor(cr, v, thread, body)
  {
  }

  /** An honest vouch is valid: whatever a browser builds from the roster of a reachable room, in any
      thread, for any body, as any member of the ring, the server accepts while that roster is the
      current one, if and only if it accepts the points in it. The member's random responses are
      scalars because the browser draws them so. */
  lemma HonestVouchIsAccepted(cr: Crypto, wire: Wire, room: State, creator: Key, resp: Option<RosterResp>,
                              ring: seq<Key>, thread: seq<byte>, body: seq<byte>, m: Member, st: Statement, d: Draw,
                              v: Vouch)
    requires cr.suite.q > 0 && wire.Valid(cr) && Inv(cr.serverVerify, room, creator) && |room.roomId| == 16
    requires Answers(room.room, room.room, room.room.rows, resp) && resp.Some?
    requires RingOf(resp.value, ring) && SignsAt(cr, wire, room.roomId, resp.value, ring, thread, body, m, st, d, v)
    requires cr.point(m.sigPub) == cr.suite.Mul(m.x, cr.suite.G)
    requires forall j: nat :: cr.suite.IsScalar(m.rnd(j))
    ensures ServerValidates(cr, room.roomId, room.room, room.room, v, thread, body) <==>
            cr.suite.validPoint(d.keyImage) && forall i | 0 <= i < |v.ring| :: cr.suite.validPoint(cr.point(v.ring[i]))
  {
    CurrentRoster(cr, room, creator, resp);
    SortedIsUnique(ring, resp.value.members);
    hide Inv, Answers, IsFirstUninvited;
    var sig := SignatureOf(cr.suite, st, d, m.x);
    SignatureIsReadable(cr, wire, room.roomId, resp.value, ring, thread, body, m, st, d, v);
    Completeness(cr.suite, st, d, m.x);
    hide SignatureOf, Suite.Mul, ServerAccepts, StatementFor, SignatureIn;
    ValidPoints(cr, v, thread, body);
  }

  lemma CurrentRoster(cr: Crypto, room: State, creator: Key, resp: Option<RosterResp>)
    requires Inv(cr.serverVerify, room, creator) && Answers(room.room, room.room, room.room.rows, resp) && resp.Some?
    ensures var r := resp.value;
            && room.room.vouching && r.epoch == room.room.rosterEpoch && r.epoch in room.room.rosters
            && room.room.rosters[r.epoch] == Roster(r.members, r.creatorSig) && WellShaped(r.members, r.creatorSig)
  {
    assert StoredOk(cr.serverVerify, room, room.room.rows[creator].sig, room.room.rosterEpoch);
    hide InFlightOk, WasLive, RosterBytes, WellShaped, RoomInv, IsFirstUninvited;
  }

  lemma ValidPoints(cr: Crypto, v: Vouch, thread: seq<byte>, body: seq<byte>)
    ensures PointsValid(cr.suite, StatementFor(cr, v, thread, body), SignatureIn(cr, v)) <==>
            cr.suite.validPoint(cr.point(v.keyImage)) &&
            forall i | 0 <= i < |v.ring| :: cr.suite.validPoint(cr.point(v.ring[i]))
  {
    var st := StatementFor(cr, v, thread, body);
    assert forall i | 0 <= i < |v.ring| :: st.ring[i] == cr.point(v.ring[i]);
  }

  lemma SignatureIsReadable(cr: Crypto, wire: Wire, roomId: seq<byte>, resp: RosterResp, ring: seq<Key>,
                            thread: seq<byte>, body: seq<byte>, m: Member, st: Statement, d: Draw, v: Vouch)
    requires cr.suite.q > 0 && wire.Valid(cr) && SignsAt(cr, wire, roomId, resp, ring, thread, body, m, st, d, v)
    requires cr.point(m.sigPub) == cr.suite.Mul(m.x, cr.suite.G)
    requires forall j: nat :: cr.suite.IsScalar(m.rnd(j))
    ensures StatementFor(cr, v, thread, body) == st && SignatureIn(cr, v) == SignatureOf(cr.suite, st, d, m.x)
    ensures v.room == roomId && v.epoch == resp.epoch && v.ring == ring && v.creatorSig == resp.creatorSig
    ensures |v.keyImage| == 32 && |v.c0| == 32 && |v.s| == |v.ring| && forall i | 0 <= i < |v.s| :: |v.s[i]| == 32
    ensures OwnsKey(cr.suite, st, d, m.x) && cr.point(v.keyImage) == d.keyImage
  {
    var unsigned := Unsigned(wire, roomId, resp, ring, d.keyImage);
    var sig := SignatureOf(cr.suite, st, d, m.x);
    CanonicalWhenDrawnSo(cr.suite, st, d, m.x);
    ReadsBack(cr, wire, unsigned, sig);
    SameStatement(cr, wire, unsigned, sig, thread, body);
  }
}
