/** Where each field of a signed or hashed message lies in its bytes, and how its numbers are read back:
    what the two sides must agree on to check each other's signatures. */
module Layouts {
  import opened Bytes
  import opened Encodings

  function LeNumber(b: seq<byte>): int { if |b| == 0 then 0 else b[0] + 256 * LeNumber(b[1..]) }

  function BeNumber(b: seq<byte>): int { if |b| == 0 then 0 else 256 * BeNumber(b[..|b| - 1]) + b[|b| - 1] }

  /** Reading an unsigned number of that many values as two's complement. */
  function Signed(u: int, values: int): int { if 2 * u < values then u else u - values }

  lemma {:induction false} LeIsRead(n: nat, w: nat)
    requires n < Pow256(w)
    ensures LeNumber(Le(n, w)) == n
  {
    if w > 0 {
      LeIsRead(n / 256, w - 1);
      assert Le(n, w)[1..] == Le(n / 256, w - 1);
    }
  }

  lemma {:induction false} BeIsRead(n: nat, w: nat)
    requires n < Pow256(w)
    ensures BeNumber(Be(n, w)) == n
  {
    if w > 0 {
      BeIsRead(n / 256, w - 1);
      assert Be(n, w)[..w - 1] == Be(n / 256, w - 1);
    }
  }

  lemma NumbersAreRead(n: int)
    ensures IsI64(n) ==> Signed(LeNumber(Le(U64(n), 8)), 0x1_0000_0000_0000_0000) == n
    ensures IsI32(n) ==> Signed(LeNumber(Le(U32(n), 4)), 0x1_0000_0000) == n
    ensures IsI32(n) ==> Signed(BeNumber(Be(U32(n), 4)), 0x1_0000_0000) == n
    ensures 0 <= n < 0x1_0000 ==> LeNumber(Le(n, 2)) == n
    ensures 0 <= n < 0x1_0000_0000 ==> BeNumber(Be(n, 4)) == n
  {
    hide LeNumber, BeNumber, Le, Be;
    Widths();
    LeIsRead(U64(n), 8);
    LeIsRead(U32(n), 4);
    BeIsRead(U32(n), 4);
    if 0 <= n < 0x1_0000 { LeIsRead(n, 2); }
    if 0 <= n < 0x1_0000_0000 { BeIsRead(n, 4); }
  }

  /** A time, in eight bytes, low byte first. */
  predicate IsTime(b: seq<byte>, ts: int) { |b| == 8 && Signed(LeNumber(b), 0x1_0000_0000_0000_0000) == ts }

  predicate IsEpoch(b: seq<byte>, epoch: int) { |b| == 4 && Signed(LeNumber(b), 0x1_0000_0000) == epoch }

  predicate IsCount(b: seq<byte>, n: nat) { |b| == 2 && LeNumber(b) == n }

  /** The keys one after another, 32 bytes each. */
  ghost predicate AreKeys(b: seq<byte>, ring: seq<Key>)
  {
    |b| == 32 * |ring| && forall i | 0 <= i < |ring| :: b[32 * i..32 * i + 32] == ring[i]
  }

  /** Field by field, at the lengths the handlers enforce. */
  ghost predicate LaidOut(m: Message, b: seq<byte>)
  {
    match m
    case PostBody(thread, body) =>
      |b| >= 29 && b[..13] == Ascii("lethe-post-v1") && b[13..29] == thread && b[29..] == body
    case DeleteRequest(post, ts) =>
      |b| == 40 && b[..16] == Ascii("lethe-delete-v1\0") && b[16..32] == post && IsTime(b[32..], ts)
    case Provenance(thread, creator) =>
      |b| >= 46 && b[..14] == Ascii("lethe-room-v1\0") && b[14..|b| - 32] == thread && b[|b| - 32..] == creator
    case LeaveRequest(room, ts) =>
      |b| == 39 && b[..15] == Ascii("lethe-leave-v1\0") && b[15..31] == room && IsTime(b[31..], ts)
    case JoinProof(invite, box, ts) =>
      |b| >= 54 && b[..14] == Ascii("lethe-join-v1\0") && b[14..|b| - 40] == invite && b[|b| - 40..|b| - 8] == box &&
      IsTime(b[|b| - 8..], ts)
    case RemoveRequest(room, ts, target) =>
      |b| == 72 && b[..16] == Ascii("lethe-remove-v1\0") && b[16..32] == room && IsTime(b[32..40], ts) &&
      b[40..] == target
    case ListRequest(room, ts) =>
      |b| == 38 && b[..14] == Ascii("lethe-list-v1\0") && b[14..30] == room && IsTime(b[30..], ts)
    case RoomMessage(room, nonce, ciphertext) =>
      |b| >= 53 && b[..13] == Ascii("lethe-msg-v1\0") && b[13..29] == room && b[29..53] == nonce &&
      b[53..] == ciphertext
    case CreateRoom(box, sig, wrapped, ts) =>
      |b| >= 88 && b[..16] == Ascii("lethe-create-v1\0") && IsTime(b[16..24], ts) && b[24..56] == box &&
      b[56..88] == sig && b[88..] == wrapped
    case WrapRequest(room, forBox, wrapped, ts) =>
      |b| >= 70 && b[..14] == Ascii("lethe-wrap-v1\0") && IsTime(b[14..22], ts) && b[22..38] == room &&
      b[38..70] == forBox && b[70..] == wrapped
    case MembersRequest(room, ts) =>
      |b| == 41 && b[..17] == Ascii("lethe-members-v1\0") && b[17..33] == room && IsTime(b[33..], ts)
    case RosterSnapshot(room, epoch, ring) =>
      |b| >= 38 && b[..16] == Ascii("lethe-roster-v1\0") && b[16..32] == room && IsEpoch(b[32..36], epoch) &&
      IsCount(b[36..38], |ring|) && AreKeys(b[38..], ring)
    case VouchBase(room, thread, member) =>
      |b| == 82 && b[..18] == Ascii("lethe-vouch-ki-v1\0") && b[18..34] == room && b[34..50] == thread &&
      b[50..] == member
    case VouchText(room, thread, bodyHash, epoch, ring, keyImage) =>
      |b| >= 121 && b[..19] == Ascii("lethe-vouch-msg-v1\0") && b[19..35] == room && b[35..51] == thread &&
      b[51..83] == bodyHash && IsEpoch(b[83..87], epoch) && IsCount(b[87..89], |ring|) &&
      AreKeys(b[89..|b| - 32], ring) && b[|b| - 32..] == keyImage
    case VouchStep(h, l, r) =>
      |b| == 146 && b[..18] == Ascii("lethe-vouch-ch-v1\0") && b[18..82] == h && b[82..114] == l && b[114..] == r
    case Federated(p) =>
      |b| >= 18 && b[..18] == Ascii("lethe-fed-post-v1\0") && IsFedPost(b[18..], p)
    case FederatedRemoval(d) =>
      |b| >= 21 && b[..21] == Ascii("lethe-fed-removal-v1\0") && IsFedRemoval(b[21..], d)
  }

  // ---------- Fields with their lengths in front ----------

  /** A field at the head: its length in four bytes, high byte first, then its bytes. */
  predicate StartsWith(b: seq<byte>, field: seq<byte>)
  {
    |b| >= 4 + |field| && BeNumber(b[..4]) == |field| && b[4..4 + |field|] == field
  }

  /** These fields in order, and what is behind them. */
  ghost predicate Fields(b: seq<byte>, fields: seq<seq<byte>>, rest: seq<byte>)
    decreases |fields|
  {
    if |fields| == 0 then b == rest
    else StartsWith(b, fields[0]) && Fields(b[4 + |fields[0]|..], fields[1..], rest)
  }

  predicate IsDay(b: seq<byte>, day: int) { |b| == 4 && Signed(BeNumber(b), 0x1_0000_0000) == day }

  /** Nothing is one zero byte; something is a one and the field. */
  predicate IsOptional(b: seq<byte>, field: Option<seq<byte>>)
  {
    match field
    case None => b == [0]
    case Some(v) => |b| == 5 + |v| && b[0] == 1 && StartsWith(b[1..], v)
  }

  ghost predicate IsFedPost(b: seq<byte>, p: FedPost)
  {
    exists day, author, authorSig ::
      && Fields(b, [Ascii("lethe-fed-v1"), Ascii("v1"), p.board, p.thread, p.threadOrigin, p.title, p.origin, p.post,
                    p.body],
                day + (author + authorSig))
      && IsDay(day, p.date) && IsOptional(author, p.author) && IsOptional(authorSig, p.authorSig)
  }

  ghost predicate IsFedRemoval(b: seq<byte>, d: FedRemoval)
  {
    exists day ::
      Fields(b, [Ascii("lethe-fed-v1"), Ascii("v1"), d.origin, d.post, d.reason], day) && IsDay(day, d.date)
  }

  lemma FieldIsRead(field: seq<byte>, rest: seq<byte>)
    requires Short(field)
    ensures StartsWith(Field(field) + rest, field) && (Field(field) + rest)[4 + |field|..] == rest
  {
    hide Be, BeNumber;
    FieldThenRest(field, rest);
    NumbersAreRead(|field|);
    var b := Be(|field|, 4) + (field + rest);
    assert b[..4] == Be(|field|, 4) && b[4..4 + |field|] == field;
  }

  lemma OneField(field: seq<byte>, b: seq<byte>, fields: seq<seq<byte>>, rest: seq<byte>)
    requires Short(field) && Fields(b, fields, rest)
    ensures Fields(Field(field) + b, [field] + fields, rest)
  {
    FieldIsRead(field, b);
    hide Field, StartsWith;
    assert ([field] + fields)[1..] == fields;
  }

  lemma OptionalIsRead(field: Option<seq<byte>>)
    requires field.Some? ==> Short(field.value)
    ensures IsOptional(OptField(field), field)
  {
    hide Be, BeNumber;
    if field.Some? {
      FieldIsRead(field.value, []);
      hide StartsWith;
      assert Field(field.value) + [] == Field(field.value);
      assert OptField(field)[1..] == Field(field.value);
    }
  }

  lemma FedRemovalIsRead(d: FedRemoval)
    requires WellFormed(FederatedRemoval(d))
    ensures IsFedRemoval(FedRemovalBody(d), d)
  {
    hide Field, Be, Ascii, BeNumber, Fields, U32, Signed;
    var day := Be(U32(d.date), 4);
    NumbersAreRead(d.date);
    NoFields(day);
    OneField(d.reason, day, [], day);
    assert [d.reason] + [] == [d.reason];
    OneField(d.post, Field(d.reason) + day, [d.reason], day);
    assert [d.post] + [d.reason] == [d.post, d.reason];
    OneField(d.origin, Field(d.post) + (Field(d.reason) + day), [d.post, d.reason], day);
    assert [d.origin] + [d.post, d.reason] == [d.origin, d.post, d.reason];
    Versions(Field(d.origin) + (Field(d.post) + (Field(d.reason) + day)), [d.origin, d.post, d.reason], day);
    assert [Ascii("lethe-fed-v1"), Ascii("v1")] + [d.origin, d.post, d.reason] ==
           [Ascii("lethe-fed-v1"), Ascii("v1"), d.origin, d.post, d.reason];
  }

  lemma NoFields(b: seq<byte>)
    ensures Fields(b, [], b)
  {
  }

  lemma Versions(b: seq<byte>, fields: seq<seq<byte>>, rest: seq<byte>)
    requires Fields(b, fields, rest)
    ensures Fields(Field(Ascii(PROTOCOL_VERSION)) + (Field(Ascii(CONSTITUTION_VERSION)) + b),
                   [Ascii("lethe-fed-v1"), Ascii("v1")] + fields, rest)
  {
    hide Field, Ascii, Fields;
    OneField(Ascii(CONSTITUTION_VERSION), b, fields, rest);
    var later := [Ascii(CONSTITUTION_VERSION)] + fields;
    OneField(Ascii(PROTOCOL_VERSION), Field(Ascii(CONSTITUTION_VERSION)) + b, later, rest);
    assert [Ascii(PROTOCOL_VERSION)] + ([Ascii(CONSTITUTION_VERSION)] + fields) ==
           [Ascii("lethe-fed-v1"), Ascii("v1")] + fields;
  }

  lemma FedPostIsRead(p: FedPost)
    requires WellFormed(Federated(p))
    ensures IsFedPost(FedPostBody(p), p)
  {
    hide Field, Be, Ascii, BeNumber, Fields, U32, Signed, OptField;
    var day, author, authorSig := Be(U32(p.date), 4), OptField(p.author), OptField(p.authorSig);
    NumbersAreRead(p.date);
    OptionalIsRead(p.author);
    OptionalIsRead(p.authorSig);
    hide IsDay, IsOptional;
    var rest := day + (author + authorSig);
    var b := Field(p.threadOrigin) + (Field(p.title) + (Field(p.origin) + (Field(p.post) + (Field(p.body) + rest))));
    ContentFields(p, rest);
    OneField(p.thread, b, [p.threadOrigin, p.title, p.origin, p.post, p.body], rest);
    assert [p.thread] + [p.threadOrigin, p.title, p.origin, p.post, p.body] ==
           [p.thread, p.threadOrigin, p.title, p.origin, p.post, p.body];
    OneField(p.board, Field(p.thread) + b, [p.thread, p.threadOrigin, p.title, p.origin, p.post, p.body], rest);
    var fields := [p.board, p.thread, p.threadOrigin, p.title, p.origin, p.post, p.body];
    assert [p.board] + [p.thread, p.threadOrigin, p.title, p.origin, p.post, p.body] == fields;
    Versions(Field(p.board) + (Field(p.thread) + b), fields, rest);
    assert [Ascii("lethe-fed-v1"), Ascii("v1")] + fields ==
           [Ascii("lethe-fed-v1"), Ascii("v1"), p.board, p.thread, p.threadOrigin, p.title, p.origin, p.post, p.body];
  }

  lemma ContentFields(p: FedPost, rest: seq<byte>)
    requires WellFormed(Federated(p))
    ensures Fields(Field(p.threadOrigin) + (Field(p.title) + (Field(p.origin) + (Field(p.post) +
                                                                                 (Field(p.body) + rest)))),
                   [p.threadOrigin, p.title, p.origin, p.post, p.body], rest)
  {
    hide Field, Fields;
    NoFields(rest);
    OneField(p.body, rest, [], rest);
    assert [p.body] + [] == [p.body];
    OneField(p.post, Field(p.body) + rest, [p.body], rest);
    assert [p.post] + [p.body] == [p.post, p.body];
    OneField(p.origin, Field(p.post) + (Field(p.body) + rest), [p.post, p.body], rest);
    assert [p.origin] + [p.post, p.body] == [p.origin, p.post, p.body];
    OneField(p.title, Field(p.origin) + (Field(p.post) + (Field(p.body) + rest)), [p.origin, p.post, p.body], rest);
    assert [p.title] + [p.origin, p.post, p.body] == [p.title, p.origin, p.post, p.body];
    OneField(p.threadOrigin, Field(p.title) + (Field(p.origin) + (Field(p.post) + (Field(p.body) + rest))),
             [p.title, p.origin, p.post, p.body], rest);
    assert [p.threadOrigin] + [p.title, p.origin, p.post, p.body] ==
           [p.threadOrigin, p.title, p.origin, p.post, p.body];
  }

  // ---------- Every message ----------

  /** What follows `n` bytes of `b`, cut after its first part. */
  lemma Cut(b: seq<byte>, n: nat, x: seq<byte>, y: seq<byte>)
    requires n <= |b| && b[n..] == x + y
    ensures n + |x| + |y| == |b| && b[n..n + |x|] == x && b[n + |x|..] == y
  {
  }

  lemma {:induction false} KeysAreRead(ring: seq<Key>)
    requires forall i | 0 <= i < |ring| :: |ring[i]| == 32
    ensures AreKeys(Concat(ring), ring)
  {
    ConcatLength(ring);
    if |ring| > 0 {
      var n := |ring| - 1;
      KeysAreRead(ring[..n]);
      Cut(Concat(ring), 0, Concat(ring[..n]), ring[n]);
      forall i | 0 <= i < |ring| ensures Concat(ring)[32 * i..32 * i + 32] == ring[i] {
        if i < n { assert Concat(ring[..n])[32 * i..32 * i + 32] == ring[..n][i]; }
      }
    }
  }

  lemma TaggedFirst(m: Message)
    ensures var b, n := Encode(m), |Tag(m)|; n <= |b| && b[..n] == Ascii(Tag(m)) && b[n..] == Body(m)
  {
    hide Tag, Body, Ascii;
    Cut(Encode(m), 0, Ascii(Tag(m)), Body(m));
  }

  lemma AfterItsTag(m: Message, tag: string)
    requires Tag(m) == tag
    ensures var b := Encode(m); |tag| <= |b| && b[..|tag|] == Ascii(tag) && b[|tag|..] == Body(m)
  {
    hide Tag, Body, Encode, Ascii;
    TaggedFirst(m);
  }

  lemma EpochAndCountAreRead(epoch: int, n: nat)
    requires IsI32(epoch) && n <= 50
    ensures IsEpoch(Le(U32(epoch), 4), epoch) && IsCount(Le(n % 0x1_0000, 2), n)
  {
    hide Le, LeNumber, Signed, U32;
    NumbersAreRead(epoch);
    NumbersAreRead(n);
  }

  lemma RosterIsLaidOut(room: seq<byte>, epoch: int, ring: seq<Key>)
    requires WellFormed(RosterSnapshot(room, epoch, ring))
    ensures LaidOut(RosterSnapshot(room, epoch, ring), Encode(RosterSnapshot(room, epoch, ring)))
  {
    hide Encode, Ascii, Le, LeNumber, Concat, AreKeys, IsEpoch, IsCount;
    var m := RosterSnapshot(room, epoch, ring);
    var b := Encode(m);
    AfterItsTag(m, "lethe-roster-v1\0");
    EpochAndCountAreRead(epoch, |ring|);
    KeysAreRead(ring);
    var count := Le(|ring| % 0x1_0000, 2);
    Cut(b, 16, room, Le(U32(epoch), 4) + (count + Concat(ring)));
    Cut(b, 32, Le(U32(epoch), 4), count + Concat(ring));
    Cut(b, 36, count, Concat(ring));
  }

  lemma VouchTextIsLaidOut(m: Message)
    requires m.VouchText? && WellFormed(m)
    ensures LaidOut(m, Encode(m))
  {
    hide Encode, Ascii, Le, U32, LeNumber, Concat, AreKeys, IsEpoch, IsCount;
    var b := Encode(m);
    AfterItsTag(m, "lethe-vouch-msg-v1\0");
    EpochAndCountAreRead(m.epoch, |m.ring|);
    KeysAreRead(m.ring);
    var keys := Concat(m.ring) + m.keyImage;
    var counted := Le(|m.ring| % 0x1_0000, 2) + keys;
    var rest := Le(U32(m.epoch), 4) + counted;
    Cut(b, 19, m.room, m.thread + (m.bodyHash + rest));
    Cut(b, 35, m.thread, m.bodyHash + rest);
    Cut(b, 51, m.bodyHash, rest);
    Cut(b, 83, Le(U32(m.epoch), 4), counted);
    Cut(b, 87, Le(|m.ring| % 0x1_0000, 2), keys);
    Cut(b, 89, Concat(m.ring), m.keyImage);
    ConcatLength(m.ring);
  }

  predicate RoomAndTime(m: Message) { m.DeleteRequest? || m.LeaveRequest? || m.ListRequest? || m.MembersRequest? }

  lemma RoomAndTimeIsLaidOut(m: Message)
    requires RoomAndTime(m) && WellFormed(m)
    ensures LaidOut(m, Encode(m))
  {
    hide Encode, Ascii, Le, LeNumber, Signed, U64, IsTime;
    var b := Encode(m);
    var t := Le(U64(m.ts), 8);
    TaggedFirst(m);
    TimeIsRead(m.ts);
    match m
    case DeleteRequest(post, _) => Cut(b, 16, post, t);
    case LeaveRequest(room, _) => Cut(b, 15, room, t);
    case ListRequest(room, _) => Cut(b, 14, room, t);
    case MembersRequest(room, _) => Cut(b, 17, room, t);
  }

  lemma TimeIsRead(ts: int)
    requires IsI64(ts)
    ensures IsTime(Le(U64(ts), 8), ts)
  {
    hide Le, LeNumber, Signed, U64;
    NumbersAreRead(ts);
  }

  lemma JoinIsLaidOut(invite: seq<byte>, box: Key, ts: int)
    requires WellFormed(JoinProof(invite, box, ts))
    ensures LaidOut(JoinProof(invite, box, ts), Encode(JoinProof(invite, box, ts)))
  {
    hide Encode, Ascii, Le, U64, IsTime;
    var b := Encode(JoinProof(invite, box, ts));
    AfterItsTag(JoinProof(invite, box, ts), "lethe-join-v1\0");
    TimeIsRead(ts);
    Cut(b, 14, invite, box + Le(U64(ts), 8));
    Cut(b, 14 + |invite|, box, Le(U64(ts), 8));
  }

  lemma RemoveIsLaidOut(room: seq<byte>, ts: int, target: Key)
    requires WellFormed(RemoveRequest(room, ts, target))
    ensures LaidOut(RemoveRequest(room, ts, target), Encode(RemoveRequest(room, ts, target)))
  {
    hide Encode, Ascii, Le, U64, IsTime;
    var b := Encode(RemoveRequest(room, ts, target));
    AfterItsTag(RemoveRequest(room, ts, target), "lethe-remove-v1\0");
    TimeIsRead(ts);
    Cut(b, 16, room, Le(U64(ts), 8) + target);
    Cut(b, 32, Le(U64(ts), 8), target);
  }

  lemma CreateIsLaidOut(box: Key, sig: Key, wrapped: seq<byte>, ts: int)
    requires WellFormed(CreateRoom(box, sig, wrapped, ts))
    ensures LaidOut(CreateRoom(box, sig, wrapped, ts), Encode(CreateRoom(box, sig, wrapped, ts)))
  {
    hide Encode, Ascii, Le, U64, IsTime;
    var b := Encode(CreateRoom(box, sig, wrapped, ts));
    AfterItsTag(CreateRoom(box, sig, wrapped, ts), "lethe-create-v1\0");
    TimeIsRead(ts);
    Cut(b, 16, Le(U64(ts), 8), box + (sig + wrapped));
    Cut(b, 24, box, sig + wrapped);
    Cut(b, 56, sig, wrapped);
  }

  lemma WrapIsLaidOut(room: seq<byte>, forBox: Key, wrapped: seq<byte>, ts: int)
    requires WellFormed(WrapRequest(room, forBox, wrapped, ts))
    ensures LaidOut(WrapRequest(room, forBox, wrapped, ts), Encode(WrapRequest(room, forBox, wrapped, ts)))
  {
    hide Encode, Ascii, Le, U64, IsTime;
    var b := Encode(WrapRequest(room, forBox, wrapped, ts));
    AfterItsTag(WrapRequest(room, forBox, wrapped, ts), "lethe-wrap-v1\0");
    TimeIsRead(ts);
    Cut(b, 14, Le(U64(ts), 8), room + (forBox + wrapped));
    Cut(b, 22, room, forBox + wrapped);
    Cut(b, 38, forBox, wrapped);
  }

  lemma PlainIsLaidOut(m: Message)
    requires WellFormed(m) && (m.PostBody? || m.Provenance? || m.RoomMessage? || m.VouchBase? || m.VouchStep?)
    ensures LaidOut(m, Encode(m))
  {
    hide Encode, Ascii, Le;
    var b := Encode(m);
    TaggedFirst(m);
    match m
    case PostBody(thread, body) => Cut(b, 13, thread, body);
    case Provenance(thread, creator) => Cut(b, 14, thread, creator);
    case RoomMessage(room, nonce, ciphertext) =>
      Cut(b, 13, room, nonce + ciphertext);
      Cut(b, 29, nonce, ciphertext);
    case VouchBase(room, thread, member) =>
      Cut(b, 18, room, thread + member);
      Cut(b, 34, thread, member);
    case VouchStep(h, l, r) =>
      Cut(b, 18, h, l + r);
      Cut(b, 82, l, r);
  }

  lemma FederatedAreLaidOut(m: Message)
    requires WellFormed(m) && (m.Federated? || m.FederatedRemoval?)
    ensures LaidOut(m, Encode(m))
  {
    hide Encode, Ascii, FedPostBody, FedRemovalBody, IsFedPost, IsFedRemoval;
    TaggedFirst(m);
    match m
    case Federated(p) => FedPostIsRead(p);
    case FederatedRemoval(d) => FedRemovalIsRead(d);
  }

  /** Every message is laid out so, at the lengths the handlers enforce: each field where the other side
      looks for it, and each number read back from its bytes. */
  lemma AllAreLaidOut(m: Message)
    requires WellFormed(m)
    ensures LaidOut(m, Encode(m))
  {
    hide LaidOut, Encode, WellFormed;
    match m
    case JoinProof(invite, box, ts) => JoinIsLaidOut(invite, box, ts);
    case RemoveRequest(room, ts, target) => RemoveIsLaidOut(room, ts, target);
    case CreateRoom(box, sig, wrapped, ts) => CreateIsLaidOut(box, sig, wrapped, ts);
    case WrapRequest(room, forBox, wrapped, ts) => WrapIsLaidOut(room, forBox, wrapped, ts);
    case RosterSnapshot(room, epoch, ring) => RosterIsLaidOut(room, epoch, ring);
    case VouchText(_, _, _, _, _, _) => VouchTextIsLaidOut(m);
    case Federated(_) => FederatedAreLaidOut(m);
    case FederatedRemoval(_) => FederatedAreLaidOut(m);
    case DeleteRequest(_, _) => RoomAndTimeIsLaidOut(m);
    case LeaveRequest(_, _) => RoomAndTimeIsLaidOut(m);
    case ListRequest(_, _) => RoomAndTimeIsLaidOut(m);
    case MembersRequest(_, _) => RoomAndTimeIsLaidOut(m);
    case _ => PlainIsLaidOut(m);
  }
}
