/** The byte strings that are signed or hashed, and the proof that no two messages share one. */
module Encodings {
  import opened Bytes

  const TWO_32: int := 0x1_0000_0000
  const TWO_64: int := 0x1_0000_0000_0000_0000

  /** Little-endian bytes of `n` in `w` places. */
  function Le(n: nat, w: nat): (s: seq<byte>)
    ensures |s| == w
  {
    if w == 0 then [] else [n % 256] + Le(n / 256, w - 1)
  }

  /** Big-endian bytes of `n` in `w` places. */
  function Be(n: nat, w: nat): (s: seq<byte>)
    ensures |s| == w
  {
    if w == 0 then [] else Be(n / 256, w - 1) + [n % 256]
  }

  function Pow256(w: nat): (p: nat)
    ensures p > 0
  {
    if w == 0 then 1 else 256 * Pow256(w - 1)
  }

  lemma {:induction false} LeInjective(a: nat, b: nat, w: nat)
    requires a < Pow256(w) && b < Pow256(w) && Le(a, w) == Le(b, w)
    ensures a == b
  {
    if w > 0 {
      assert Le(a, w)[0] == Le(b, w)[0];
      assert Le(a, w)[1..] == Le(a / 256, w - 1) && Le(b, w)[1..] == Le(b / 256, w - 1);
      LeInjective(a / 256, b / 256, w - 1);
    }
  }

  lemma {:induction false} BeInjective(a: nat, b: nat, w: nat)
    requires a < Pow256(w) && b < Pow256(w) && Be(a, w) == Be(b, w)
    ensures a == b
  {
    if w > 0 {
      assert Be(a, w)[w - 1] == a % 256 && Be(b, w)[w - 1] == b % 256;
      assert Be(a, w)[..w - 1] == Be(a / 256, w - 1) && Be(b, w)[..w - 1] == Be(b / 256, w - 1);
      BeInjective(a / 256, b / 256, w - 1);
    }
  }

  predicate IsI32(n: int) { -0x8000_0000 <= n < 0x8000_0000 }
  predicate IsI64(n: int) { -0x8000_0000_0000_0000 <= n < 0x8000_0000_0000_0000 }

  /** Two's complement: the cast to the unsigned type of the same width. */
  function U32(n: int): (u: nat)
    ensures u < TWO_32
  {
    n % TWO_32
  }

  function U64(n: int): (u: nat)
    ensures u < TWO_64
  {
    n % TWO_64
  }

  lemma Widths()
    ensures Pow256(2) == 0x1_0000 && Pow256(4) == TWO_32 && Pow256(8) == TWO_64
  {
    assert Pow256(4) == 256 * 256 * Pow256(2);
    assert Pow256(6) == 256 * 256 * Pow256(4);
  }

  function Ascii(s: string): (b: seq<byte>)
    ensures |b| == |s|
  {
    seq(|s|, i requires 0 <= i < |s| => (s[i] as int) % 256)
  }

  function Concat(parts: seq<Key>): seq<byte>
  {
    if |parts| == 0 then [] else Concat(parts[..|parts| - 1]) + parts[|parts| - 1]
  }

  datatype FedPost = FedPost(board: seq<byte>, thread: seq<byte>, threadOrigin: seq<byte>, title: seq<byte>,
                             origin: seq<byte>, post: seq<byte>, body: seq<byte>, date: int,
                             author: Option<seq<byte>>, authorSig: Option<seq<byte>>)

  datatype FedRemoval = FedRemoval(origin: seq<byte>, post: seq<byte>, reason: seq<byte>, date: int)

  /** Everything in the system that is signed, or hashed under a domain tag. */
  datatype Message =
    | PostBody(thread: seq<byte>, body: seq<byte>)
    | DeleteRequest(post: seq<byte>, ts: int)
    | Provenance(thread: seq<byte>, creator: Key)
    | LeaveRequest(room: seq<byte>, ts: int)
    | JoinProof(invite: seq<byte>, box: Key, ts: int)
    | RemoveRequest(room: seq<byte>, ts: int, target: Key)
    | ListRequest(room: seq<byte>, ts: int)
    | RoomMessage(room: seq<byte>, nonce: seq<byte>, ciphertext: seq<byte>)
    | CreateRoom(box: Key, sig: Key, wrapped: seq<byte>, ts: int)
    | WrapRequest(room: seq<byte>, forBox: Key, wrapped: seq<byte>, ts: int)
    | MembersRequest(room: seq<byte>, ts: int)
    | RosterSnapshot(room: seq<byte>, epoch: int, ring: seq<Key>)
    | VouchBase(room: seq<byte>, thread: seq<byte>, member: Key)
    | VouchText(room: seq<byte>, thread: seq<byte>, bodyHash: seq<byte>, epoch: int, ring: seq<Key>, keyImage: seq<byte>)
    | VouchStep(m: seq<byte>, l: seq<byte>, r: seq<byte>)
    | Federated(p: FedPost)
    | FederatedRemoval(d: FedRemoval)

  function Tag(m: Message): (t: string)
    ensures |t| > 12 && t[..6] == "lethe-"
  {
    match m
    case PostBody(_, _) => "lethe-post-v1"
    case DeleteRequest(_, _) => "lethe-delete-v1\0"
    case Provenance(_, _) => "lethe-room-v1\0"
    case LeaveRequest(_, _) => "lethe-leave-v1\0"
    case JoinProof(_, _, _) => "lethe-join-v1\0"
    case RemoveRequest(_, _, _) => "lethe-remove-v1\0"
    case ListRequest(_, _) => "lethe-list-v1\0"
    case RoomMessage(_, _, _) => "lethe-msg-v1\0"
    case CreateRoom(_, _, _, _) => "lethe-create-v1\0"
    case WrapRequest(_, _, _, _) => "lethe-wrap-v1\0"
    case MembersRequest(_, _) => "lethe-members-v1\0"
    case RosterSnapshot(_, _, _) => "lethe-roster-v1\0"
    case VouchBase(_, _, _) => "lethe-vouch-ki-v1\0"
    case VouchText(_, _, _, _, _, _) => "lethe-vouch-msg-v1\0"
    case VouchStep(_, _, _) => "lethe-vouch-ch-v1\0"
    case Federated(_) => "lethe-fed-post-v1\0"
    case FederatedRemoval(_) => "lethe-fed-removal-v1\0"
  }

  const PROTOCOL_VERSION: string := "lethe-fed-v1"
  const CONSTITUTION_VERSION: string := "v1"

  /** A length-prefixed field of a federation payload. */
  function Field(b: seq<byte>): seq<byte> { Be(|b| % TWO_32, 4) + b }

  function OptField(b: Option<seq<byte>>): seq<byte>
  {
    match b case None => [0] case Some(v) => [1] + Field(v)
  }

  function FedPostBody(p: FedPost): seq<byte>
  {
    Field(Ascii(PROTOCOL_VERSION)) + (Field(Ascii(CONSTITUTION_VERSION)) + (Field(p.board) + (Field(p.thread) +
    (Field(p.threadOrigin) + (Field(p.title) + (Field(p.origin) + (Field(p.post) + (Field(p.body) +
    (Be(U32(p.date), 4) + (OptField(p.author) + OptField(p.authorSig)))))))))))
  }

  function FedRemovalBody(d: FedRemoval): seq<byte>
  {
    Field(Ascii(PROTOCOL_VERSION)) + (Field(Ascii(CONSTITUTION_VERSION)) + (Field(d.origin) + (Field(d.post) +
    (Field(d.reason) + Be(U32(d.date), 4)))))
  }

  function Body(m: Message): seq<byte>
  {
    match m
    case PostBody(thread, body) => thread + body
    case DeleteRequest(post, ts) => post + Le(U64(ts), 8)
    case Provenance(thread, creator) => thread + creator
    case LeaveRequest(room, ts) => room + Le(U64(ts), 8)
    case JoinProof(invite, box, ts) => invite + (box + Le(U64(ts), 8))
    case RemoveRequest(room, ts, target) => room + (Le(U64(ts), 8) + target)
    case ListRequest(room, ts) => room + Le(U64(ts), 8)
    case RoomMessage(room, nonce, ciphertext) => room + (nonce + ciphertext)
    case CreateRoom(box, sig, wrapped, ts) => Le(U64(ts), 8) + (box + (sig + wrapped))
    case WrapRequest(room, forBox, wrapped, ts) => Le(U64(ts), 8) + (room + (forBox + wrapped))
    case MembersRequest(room, ts) => room + Le(U64(ts), 8)
    case RosterSnapshot(room, epoch, ring) => room + (Le(U32(epoch), 4) + (Le(|ring| % 0x1_0000, 2) + Concat(ring)))
    case VouchBase(room, thread, member) => room + (thread + member)
    case VouchText(room, thread, bodyHash, epoch, ring, keyImage) =>
      room + (thread + (bodyHash + (Le(U32(epoch), 4) + (Le(|ring| % 0x1_0000, 2) + (Concat(ring) + keyImage)))))
    case VouchStep(h, l, r) => h + (l + r)
    case Federated(p) => FedPostBody(p)
    case FederatedRemoval(d) => FedRemovalBody(d)
  }

  function Encode(m: Message): seq<byte> { Ascii(Tag(m)) + Body(m) }

  predicate IsRing(ring: seq<Key>)
  {
    |ring| <= 50 && forall i | 0 <= i < |ring| :: |ring[i]| == 32
  }

  predicate Short(b: seq<byte>) { |b| < TWO_32 }

  /** The lengths the handlers enforce before they verify or store anything. */
  predicate WellFormed(m: Message)
  {
    match m
    case PostBody(thread, _) => |thread| == 16
    case DeleteRequest(post, ts) => |post| == 16 && IsI64(ts)
    case Provenance(_, creator) => |creator| == 32
    case LeaveRequest(room, ts) => |room| == 16 && IsI64(ts)
    case JoinProof(_, box, ts) => |box| == 32 && IsI64(ts)
    case RemoveRequest(room, ts, target) => |room| == 16 && |target| == 32 && IsI64(ts)
    case ListRequest(room, ts) => |room| == 16 && IsI64(ts)
    case RoomMessage(room, nonce, _) => |room| == 16 && |nonce| == 24
    case CreateRoom(box, sig, _, ts) => |box| == 32 && |sig| == 32 && IsI64(ts)
    case WrapRequest(room, forBox, _, ts) => |room| == 16 && |forBox| == 32 && IsI64(ts)
    case MembersRequest(room, ts) => |room| == 16 && IsI64(ts)
    case RosterSnapshot(room, epoch, ring) => |room| == 16 && IsI32(epoch) && IsRing(ring)
    case VouchBase(room, thread, member) => |room| == 16 && |thread| == 16 && |member| == 32
    case VouchText(room, thread, bodyHash, epoch, ring, keyImage) =>
      |room| == 16 && |thread| == 16 && |bodyHash| == 32 && IsI32(epoch) && IsRing(ring) && |keyImage| == 32
    case VouchStep(h, l, r) => |h| == 64 && |l| == 32 && |r| == 32
    case Federated(p) =>
      Short(p.board) && Short(p.thread) && Short(p.threadOrigin) && Short(p.title) && Short(p.origin) &&
      Short(p.post) && Short(p.body) && IsI32(p.date) &&
      (p.author.Some? ==> Short(p.author.value)) && (p.authorSig.Some? ==> Short(p.authorSig.value))
    case FederatedRemoval(d) => Short(d.origin) && Short(d.post) && Short(d.reason) && IsI32(d.date)
  }

  // ---------- The tags tell the kinds apart ----------

  function Kind(m: Message): nat
  {
    match m
    case PostBody(_, _) => 0 case DeleteRequest(_, _) => 1 case Provenance(_, _) => 2 case LeaveRequest(_, _) => 3
    case JoinProof(_, _, _) => 4 case RemoveRequest(_, _, _) => 5 case ListRequest(_, _) => 6
    case RoomMessage(_, _, _) => 7 case CreateRoom(_, _, _, _) => 8 case WrapRequest(_, _, _, _) => 9
    case MembersRequest(_, _) => 10 case RosterSnapshot(_, _, _) => 11 case VouchBase(_, _, _) => 12
    case VouchText(_, _, _, _, _, _) => 13 case VouchStep(_, _, _) => 14 case Federated(_) => 15
    case FederatedRemoval(_) => 16
  }

  /** The kind of a payload, read off five of its first thirteen bytes. */
  function Sniff(b: seq<byte>): nat
    requires |b| > 12
  {
    var c6, c7, c8, c10, c12 := b[6] as char, b[7] as char, b[8] as char, b[10] as char, b[12] as char;
    match c6
    case 'p' => 0
    case 'd' => 1
    case 'r' => if c7 == 'e' then 5 else if c8 == 'o' then 2 else 11
    case 'l' => if c7 == 'e' then 3 else 6
    case 'j' => 4
    case 'm' => if c7 == 's' then 7 else 10
    case 'c' => 8
    case 'w' => 9
    case 'v' => if c12 == 'k' then 12 else if c12 == 'm' then 13 else 14
    case _ => if c10 == 'p' then 15 else 16
  }

  lemma SniffTag(m: Message)
    ensures Sniff(Ascii(Tag(m))) == Kind(m)
  {
    var t, a := Tag(m), Ascii(Tag(m));
    assert a[6] as char == t[6] && a[7] as char == t[7] && a[8] as char == t[8] && a[10] as char == t[10] &&
           a[12] as char == t[12];
    hide Ascii;
  }

  lemma SniffFindsKind(m: Message)
    ensures Sniff(Encode(m)) == Kind(m)
  {
    hide Body, Tag, Ascii, Kind;
    SniffTag(m);
    var t := Ascii(Tag(m));
    assert forall i | 0 <= i < 13 :: Encode(m)[i] == t[i];
  }

  // ---------- The fields can be read back ----------

  lemma SplitHead(a: seq<byte>, x: seq<byte>, b: seq<byte>, y: seq<byte>)
    requires a + x == b + y && |a| == |b|
    ensures a == b && x == y
  {
    assert a == (a + x)[..|a|] && b == (b + y)[..|b|];
    assert x == (a + x)[|a|..] && y == (b + y)[|b|..];
  }

  lemma SplitTail(a: seq<byte>, x: seq<byte>, b: seq<byte>, y: seq<byte>)
    requires a + x == b + y && |x| == |y|
    ensures a == b && x == y
  {
    assert |a| == |b| by { assert |a + x| == |b + y|; }
    SplitHead(a, x, b, y);
  }

  lemma SameTs(a: int, b: int)
    requires IsI64(a) && IsI64(b) && Le(U64(a), 8) == Le(U64(b), 8)
    ensures a == b
  {
    Widths();
    LeInjective(U64(a), U64(b), 8);
  }

  lemma SameI32(a: int, b: int)
    requires IsI32(a) && IsI32(b) && (Le(U32(a), 4) == Le(U32(b), 4) || Be(U32(a), 4) == Be(U32(b), 4))
    ensures a == b
  {
    Widths();
    if Le(U32(a), 4) == Le(U32(b), 4) {
      LeInjective(U32(a), U32(b), 4);
    } else {
      BeInjective(U32(a), U32(b), 4);
    }
  }

  lemma {:induction false} ConcatLength(ring: seq<Key>)
    requires forall i | 0 <= i < |ring| :: |ring[i]| == 32
    ensures |Concat(ring)| == 32 * |ring|
  {
    if |ring| > 0 {
      ConcatLength(ring[..|ring| - 1]);
    }
  }

  lemma {:induction false} ConcatInjective(a: seq<Key>, b: seq<Key>)
    requires |a| == |b| && Concat(a) == Concat(b)
    requires forall i | 0 <= i < |a| :: |a[i]| == 32 && |b[i]| == 32
    ensures a == b
  {
    if |a| > 0 {
      SplitTail(Concat(a[..|a| - 1]), a[|a| - 1], Concat(b[..|b| - 1]), b[|b| - 1]);
      ConcatInjective(a[..|a| - 1], b[..|b| - 1]);
      assert a == a[..|a| - 1] + [a[|a| - 1]] && b == b[..|b| - 1] + [b[|b| - 1]];
    }
  }

  lemma SameCount(m: nat, n: nat)
    requires m < 0x1_0000 && n < 0x1_0000 && Le(m % 0x1_0000, 2) == Le(n % 0x1_0000, 2)
    ensures m == n
  {
    Widths();
    assert m % 0x1_0000 == m && n % 0x1_0000 == n;
    LeInjective(m, n, 2);
  }

  lemma SameRing(a: seq<Key>, x: seq<byte>, b: seq<Key>, y: seq<byte>)
    requires IsRing(a) && IsRing(b)
    requires Le(|a| % 0x1_0000, 2) + (Concat(a) + x) == Le(|b| % 0x1_0000, 2) + (Concat(b) + y)
    ensures a == b && x == y
  {
    SplitHead(Le(|a| % 0x1_0000, 2), Concat(a) + x, Le(|b| % 0x1_0000, 2), Concat(b) + y);
    assert |a| == |b| by {
      SameCount(|a|, |b|);
    }
    hide Le;
    ConcatLength(a);
    ConcatLength(b);
    SplitHead(Concat(a), x, Concat(b), y);
    ConcatInjective(a, b);
  }

  lemma SameField(a: seq<byte>, x: seq<byte>, b: seq<byte>, y: seq<byte>)
    requires Short(a) && Short(b) && Field(a) + x == Field(b) + y
    ensures a == b && x == y
  {
    hide Be, Field;
    FieldThenRest(a, x);
    FieldThenRest(b, y);
    SplitHead(Be(|a|, 4), a + x, Be(|b|, 4), b + y);
    Widths();
    BeInjective(|a|, |b|, 4);
    SplitHead(a, x, b, y);
  }

  lemma FieldThenRest(a: seq<byte>, x: seq<byte>)
    requires Short(a)
    ensures Field(a) + x == Be(|a|, 4) + (a + x)
  {
    hide Be;
    NoTruncation(|a|);
    Regroup(Be(|a|, 4), a, x);
  }

  lemma Regroup(a: seq<byte>, b: seq<byte>, c: seq<byte>)
    ensures (a + b) + c == a + (b + c)
  {
  }

  lemma NoTruncation(n: nat)
    requires n < TWO_32
    ensures n % TWO_32 == n
  {
  }

  lemma SameOptField(a: Option<seq<byte>>, x: seq<byte>, b: Option<seq<byte>>, y: seq<byte>)
    requires (a.Some? ==> Short(a.value)) && (b.Some? ==> Short(b.value)) && OptField(a) + x == OptField(b) + y
    ensures a == b && x == y
  {
    hide Field;
    var u := if a.Some? then Field(a.value) + x else x;
    var v := if b.Some? then Field(b.value) + y else y;
    var s, t := if a.Some? then 1 else 0, if b.Some? then 1 else 0;
    assert OptField(a) + x == [s] + u && OptField(b) + y == [t] + v;
    SplitHead([s], u, [t], v);
    assert [s][0] == [t][0];
    if a.Some? {
      SameField(a.value, x, b.value, y);
    }
  }

  lemma SameFedPost(p: FedPost, q: FedPost)
    requires WellFormed(Federated(p)) && WellFormed(Federated(q)) && FedPostBody(p) == FedPostBody(q)
    ensures p == q
  {
    hide Field, OptField, Be, Ascii;
    var a10, b10 := OptField(p.author) + OptField(p.authorSig), OptField(q.author) + OptField(q.authorSig);
    var a9, b9 := Be(U32(p.date), 4) + a10, Be(U32(q.date), 4) + b10;
    var a8, b8 := Field(p.body) + a9, Field(q.body) + b9;
    var a7, b7 := Field(p.post) + a8, Field(q.post) + b8;
    var a6, b6 := Field(p.origin) + a7, Field(q.origin) + b7;
    var a5, b5 := Field(p.title) + a6, Field(q.title) + b6;
    var a4, b4 := Field(p.threadOrigin) + a5, Field(q.threadOrigin) + b5;
    var a3, b3 := Field(p.thread) + a4, Field(q.thread) + b4;
    var a2, b2 := Field(p.board) + a3, Field(q.board) + b3;
    var a1, b1 := Field(Ascii(CONSTITUTION_VERSION)) + a2, Field(Ascii(CONSTITUTION_VERSION)) + b2;
    SplitHead(Field(Ascii(PROTOCOL_VERSION)), a1, Field(Ascii(PROTOCOL_VERSION)), b1);
    SplitHead(Field(Ascii(CONSTITUTION_VERSION)), a2, Field(Ascii(CONSTITUTION_VERSION)), b2);
    SameField(p.board, a3, q.board, b3);
    SameField(p.thread, a4, q.thread, b4);
    SameField(p.threadOrigin, a5, q.threadOrigin, b5);
    SameField(p.title, a6, q.title, b6);
    SameField(p.origin, a7, q.origin, b7);
    SameField(p.post, a8, q.post, b8);
    SameField(p.body, a9, q.body, b9);
    SplitHead(Be(U32(p.date), 4), a10, Be(U32(q.date), 4), b10);
    SameI32(p.date, q.date);
    SameOptField(p.author, OptField(p.authorSig), q.author, OptField(q.authorSig));
    assert OptField(p.authorSig) + [] == OptField(p.authorSig) && OptField(q.authorSig) + [] == OptField(q.authorSig);
    SameOptField(p.authorSig, [], q.authorSig, []);
  }

  lemma SameFedRemoval(p: FedRemoval, q: FedRemoval)
    requires WellFormed(FederatedRemoval(p)) && WellFormed(FederatedRemoval(q)) && FedRemovalBody(p) == FedRemovalBody(q)
    ensures p == q
  {
    hide Field, Be, Ascii;
    var a4, b4 := Field(p.reason) + Be(U32(p.date), 4), Field(q.reason) + Be(U32(q.date), 4);
    var a3, b3 := Field(p.post) + a4, Field(q.post) + b4;
    var a2, b2 := Field(p.origin) + a3, Field(q.origin) + b3;
    var a1, b1 := Field(Ascii(CONSTITUTION_VERSION)) + a2, Field(Ascii(CONSTITUTION_VERSION)) + b2;
    SplitHead(Field(Ascii(PROTOCOL_VERSION)), a1, Field(Ascii(PROTOCOL_VERSION)), b1);
    SplitHead(Field(Ascii(CONSTITUTION_VERSION)), a2, Field(Ascii(CONSTITUTION_VERSION)), b2);
    SameField(p.origin, a3, q.origin, b3);
    SameField(p.post, a4, q.post, b4);
    SameField(p.reason, Be(U32(p.date), 4), q.reason, Be(U32(q.date), 4));
    SameI32(p.date, q.date);
  }

  lemma SameRosterSnapshot(a: Message, b: Message)
    requires a.RosterSnapshot? && b.RosterSnapshot? && WellFormed(a) && WellFormed(b) && Body(a) == Body(b)
    ensures a == b
  {
    hide Le, Concat;
    var x, y := Le(|a.ring| % 0x1_0000, 2) + Concat(a.ring), Le(|b.ring| % 0x1_0000, 2) + Concat(b.ring);
    SplitHead(a.room, Le(U32(a.epoch), 4) + x, b.room, Le(U32(b.epoch), 4) + y);
    SplitHead(Le(U32(a.epoch), 4), x, Le(U32(b.epoch), 4), y);
    SameI32(a.epoch, b.epoch);
    assert Concat(a.ring) + [] == Concat(a.ring) && Concat(b.ring) + [] == Concat(b.ring);
    SameRing(a.ring, [], b.ring, []);
  }

  lemma SameVouchText(a: Message, b: Message)
    requires a.VouchText? && b.VouchText? && WellFormed(a) && WellFormed(b) && Body(a) == Body(b)
    ensures a == b
  {
    hide Le, Concat;
    var x := Le(|a.ring| % 0x1_0000, 2) + (Concat(a.ring) + a.keyImage);
    var y := Le(|b.ring| % 0x1_0000, 2) + (Concat(b.ring) + b.keyImage);
    var x1, y1 := Le(U32(a.epoch), 4) + x, Le(U32(b.epoch), 4) + y;
    SplitHead(a.room, a.thread + (a.bodyHash + x1), b.room, b.thread + (b.bodyHash + y1));
    SplitHead(a.thread, a.bodyHash + x1, b.thread, b.bodyHash + y1);
    SplitHead(a.bodyHash, x1, b.bodyHash, y1);
    SplitHead(Le(U32(a.epoch), 4), x, Le(U32(b.epoch), 4), y);
    SameI32(a.epoch, b.epoch);
    SameRing(a.ring, a.keyImage, b.ring, b.keyImage);
  }

  lemma SameIdAndTs(id: seq<byte>, ts: int, id': seq<byte>, ts': int)
    requires IsI64(ts) && IsI64(ts') && id + Le(U64(ts), 8) == id' + Le(U64(ts'), 8)
    ensures id == id' && ts == ts'
  {
    hide Le, U64;
    SplitTail(id, Le(U64(ts), 8), id', Le(U64(ts'), 8));
    SameTs(ts, ts');
  }

  predicate Timed(m: Message)
  {
    m.DeleteRequest? || m.LeaveRequest? || m.JoinProof? || m.RemoveRequest? || m.ListRequest? || m.CreateRoom? ||
    m.WrapRequest? || m.MembersRequest?
  }

  lemma SameTimed(a: Message, b: Message)
    requires WellFormed(a) && WellFormed(b) && Kind(a) == Kind(b) && Body(a) == Body(b) && Timed(a)
    ensures a == b
  {
    hide Le, Be, Concat, Field, OptField, FedPostBody, FedRemovalBody, U64;
    match a {
      case DeleteRequest(post, ts) => SameIdAndTs(post, ts, b.post, b.ts);
      case LeaveRequest(room, ts) => SameIdAndTs(room, ts, b.room, b.ts);
      case JoinProof(invite, box, ts) =>
        SplitTail(invite, box + Le(U64(ts), 8), b.invite, b.box + Le(U64(b.ts), 8));
        SameIdAndTs(box, ts, b.box, b.ts);
      case RemoveRequest(room, ts, target) =>
        SplitHead(room, Le(U64(ts), 8) + target, b.room, Le(U64(b.ts), 8) + b.target);
        SplitHead(Le(U64(ts), 8), target, Le(U64(b.ts), 8), b.target);
        SameTs(ts, b.ts);
      case ListRequest(room, ts) => SameIdAndTs(room, ts, b.room, b.ts);
      case CreateRoom(box, sig, wrapped, ts) =>
        SplitHead(Le(U64(ts), 8), box + (sig + wrapped), Le(U64(b.ts), 8), b.box + (b.sig + b.wrapped));
        SplitHead(box, sig + wrapped, b.box, b.sig + b.wrapped);
        SplitHead(sig, wrapped, b.sig, b.wrapped);
        SameTs(ts, b.ts);
      case WrapRequest(room, forBox, wrapped, ts) =>
        SplitHead(Le(U64(ts), 8), room + (forBox + wrapped), Le(U64(b.ts), 8), b.room + (b.forBox + b.wrapped));
        SplitHead(room, forBox + wrapped, b.room, b.forBox + b.wrapped);
        SplitHead(forBox, wrapped, b.forBox, b.wrapped);
        SameTs(ts, b.ts);
      case MembersRequest(room, ts) => SameIdAndTs(room, ts, b.room, b.ts);
      case _ =>
    }
  }

  lemma BodyInjective(a: Message, b: Message)
    requires WellFormed(a) && WellFormed(b) && Kind(a) == Kind(b) && Body(a) == Body(b)
    ensures a == b
  {
    hide Le, Be, Concat, Field, OptField, FedPostBody, FedRemovalBody, U32, U64;
    match a {
      case PostBody(thread, body) =>
        SplitHead(thread, body, b.thread, b.body);
      case Provenance(thread, creator) =>
        SplitTail(thread, creator, b.thread, b.creator);
      case RoomMessage(room, nonce, ciphertext) =>
        SplitHead(room, nonce + ciphertext, b.room, b.nonce + b.ciphertext);
        SplitHead(nonce, ciphertext, b.nonce, b.ciphertext);
      case RosterSnapshot(room, epoch, ring) =>
        SameRosterSnapshot(a, b);
      case VouchBase(room, thread, member) =>
        SplitHead(room, thread + member, b.room, b.thread + b.member);
        SplitHead(thread, member, b.thread, b.member);
      case VouchText(room, thread, bodyHash, epoch, ring, keyImage) =>
        SameVouchText(a, b);
      case VouchStep(h, l, r) =>
        SplitHead(h, l + r, b.m, b.l + b.r);
        SplitHead(l, r, b.l, b.r);
      case Federated(p) =>
        SameFedPost(p, b.p);
      case FederatedRemoval(d) =>
        SameFedRemoval(d, b.d);
      case _ =>
        SameTimed(a, b);
    }
  }

  lemma SameTag(a: Message, b: Message)
    requires Kind(a) == Kind(b)
    ensures Tag(a) == Tag(b)
  {
  }

  /** Injective and pairwise disjoint: at the lengths the handlers enforce, equal bytes mean the
      same kind of message with the same fields. So a signature or hash made for one of them is
      never one for another. */
  lemma EncodeInjective(a: Message, b: Message)
    requires WellFormed(a) && WellFormed(b) && Encode(a) == Encode(b)
    ensures a == b
  {
    SniffFindsKind(a);
    SniffFindsKind(b);
    SameTag(a, b);
    hide Tag, Body, Kind;
    SplitHead(Ascii(Tag(a)), Body(a), Ascii(Tag(b)), Body(b));
    BodyInjective(a, b);
  }

  // ---------- The encoders that grow a buffer ----------

  /** The growing buffer. `whole` is what the encoder is writing and `rest` what is still to come. */
  class Buffer {
    var bytes: seq<byte>

    constructor ()
      ensures bytes == []
    {
      bytes := [];
    }

    method Extend(b: seq<byte>, ghost rest: seq<byte>, ghost whole: seq<byte>)
      requires bytes + (b + rest) == whole
      modifies this
      ensures bytes == old(bytes) + b && bytes + rest == whole
    {
      assert bytes + (b + rest) == (bytes + b) + rest;
      bytes := bytes + b;
    }

    method WriteBytes(b: seq<byte>, ghost rest: seq<byte>, ghost whole: seq<byte>)
      requires bytes + (Field(b) + rest) == whole
      modifies this
      ensures bytes == old(bytes) + Field(b) && bytes + rest == whole
    {
      assert Field(b) + rest == Be(|b| % TWO_32, 4) + (b + rest);
      assert bytes + Field(b) == (bytes + Be(|b| % TWO_32, 4)) + b;
      Extend(Be(|b| % TWO_32, 4), b + rest, whole);
      Extend(b, rest, whole);
    }

    method WriteOptBytes(b: Option<seq<byte>>, ghost rest: seq<byte>, ghost whole: seq<byte>)
      requires bytes + (OptField(b) + rest) == whole
      modifies this
      ensures bytes == old(bytes) + OptField(b) && bytes + rest == whole
    {
      hide Field;
      match b {
        case None => Extend([0], rest, whole);
        case Some(v) =>
          assert OptField(b) + rest == [1] + (Field(v) + rest);
          assert bytes + OptField(b) == (bytes + [1]) + Field(v);
          Extend([1], Field(v) + rest, whole);
          WriteBytes(v, rest, whole);
      }
    }

    /** The loop over a ring: each key's bytes, one after another. */
    method ExtendAll(ring: seq<Key>, ghost rest: seq<byte>, ghost whole: seq<byte>)
      requires bytes + (Concat(ring) + rest) == whole
      modifies this
      ensures bytes == old(bytes) + Concat(ring) && bytes + rest == whole
    {
      for i := 0 to |ring|
        invariant bytes == old(bytes) + Concat(ring[..i])
      {
        bytes := bytes + ring[i];
        assert ring[..i + 1][..i] == ring[..i];
      }
      assert ring[..|ring|] == ring;
      assert old(bytes) + (Concat(ring) + rest) == (old(bytes) + Concat(ring)) + rest;
    }
  }

  method CanonicalRoster(room: seq<byte>, epoch: int, ring: seq<Key>) returns (out: seq<byte>)
    ensures out == Encode(RosterSnapshot(room, epoch, ring))
  {
    hide Le, Concat, Ascii, U32;
    ghost var whole := Encode(RosterSnapshot(room, epoch, ring));
    ghost var r2 := Le(|ring| % 0x1_0000, 2) + Concat(ring);
    ghost var r1 := Le(U32(epoch), 4) + r2;
    var buf := new Buffer();
    buf.Extend(Ascii("lethe-roster-v1\0"), room + r1, whole);
    buf.Extend(room, r1, whole);
    buf.Extend(Le(U32(epoch), 4), r2, whole);
    buf.Extend(Le(|ring| % 0x1_0000, 2), Concat(ring), whole);
    assert Concat(ring) + [] == Concat(ring);
    buf.ExtendAll(ring, [], whole);
    out := buf.bytes;
  }

  method VouchMessageInput(room: seq<byte>, thread: seq<byte>, bodyHash: seq<byte>, epoch: int, ring: seq<Key>,
                           keyImage: seq<byte>) returns (out: seq<byte>)
    ensures out == Encode(VouchText(room, thread, bodyHash, epoch, ring, keyImage))
  {
    hide Le, Concat, Ascii, U32;
    ghost var whole := Encode(VouchText(room, thread, bodyHash, epoch, ring, keyImage));
    ghost var r4 := Concat(ring) + keyImage;
    ghost var r3 := Le(|ring| % 0x1_0000, 2) + r4;
    ghost var r2 := Le(U32(epoch), 4) + r3;
    ghost var r1 := thread + (bodyHash + r2);
    var buf := new Buffer();
    buf.Extend(Ascii("lethe-vouch-msg-v1\0"), room + r1, whole);
    buf.Extend(room, r1, whole);
    buf.Extend(thread, bodyHash + r2, whole);
    buf.Extend(bodyHash, r2, whole);
    buf.Extend(Le(U32(epoch), 4), r3, whole);
    buf.Extend(Le(|ring| % 0x1_0000, 2), r4, whole);
    buf.ExtendAll(ring, keyImage, whole);
    assert keyImage + [] == keyImage;
    buf.Extend(keyImage, [], whole);
    out := buf.bytes;
  }

  method CanonicalPostPayload(p: FedPost) returns (out: seq<byte>)
    ensures out == Encode(Federated(p))
  {
    hide Be, Field, OptField, Ascii, U32;
    ghost var whole := Encode(Federated(p));
    ghost var r9 := OptField(p.author) + OptField(p.authorSig);
    ghost var r8 := Be(U32(p.date), 4) + r9;
    ghost var r7 := Field(p.body) + r8;
    ghost var r6 := Field(p.post) + r7;
    ghost var r5 := Field(p.origin) + r6;
    ghost var r4 := Field(p.title) + r5;
    ghost var r3 := Field(p.threadOrigin) + r4;
    ghost var r2 := Field(p.thread) + r3;
    ghost var r1 := Field(p.board) + r2;
    ghost var r0 := Field(Ascii(CONSTITUTION_VERSION)) + r1;
    var buf := new Buffer();
    buf.Extend(Ascii("lethe-fed-post-v1\0"), Field(Ascii(PROTOCOL_VERSION)) + r0, whole);
    buf.WriteBytes(Ascii(PROTOCOL_VERSION), r0, whole);
    buf.WriteBytes(Ascii(CONSTITUTION_VERSION), r1, whole);
    buf.WriteBytes(p.board, r2, whole);
    buf.WriteBytes(p.thread, r3, whole);
    buf.WriteBytes(p.threadOrigin, r4, whole);
    buf.WriteBytes(p.title, r5, whole);
    buf.WriteBytes(p.origin, r6, whole);
    buf.WriteBytes(p.post, r7, whole);
    buf.WriteBytes(p.body, r8, whole);
    buf.Extend(Be(U32(p.date), 4), r9, whole);
    buf.WriteOptBytes(p.author, OptField(p.authorSig), whole);
    assert OptField(p.authorSig) + [] == OptField(p.authorSig);
    buf.WriteOptBytes(p.authorSig, [], whole);
    out := buf.bytes;
  }

  method CanonicalRemovalPayload(d: FedRemoval) returns (out: seq<byte>)
    ensures out == Encode(FederatedRemoval(d))
  {
    hide Be, Field, Ascii, U32;
    ghost var whole := Encode(FederatedRemoval(d));
    ghost var r3 := Field(d.reason) + Be(U32(d.date), 4);
    ghost var r2 := Field(d.post) + r3;
    ghost var r1 := Field(d.origin) + r2;
    ghost var r0 := Field(Ascii(CONSTITUTION_VERSION)) + r1;
    var buf := new Buffer();
    buf.Extend(Ascii("lethe-fed-removal-v1\0"), Field(Ascii(PROTOCOL_VERSION)) + r0, whole);
    buf.WriteBytes(Ascii(PROTOCOL_VERSION), r0, whole);
    buf.WriteBytes(Ascii(CONSTITUTION_VERSION), r1, whole);
    buf.WriteBytes(d.origin, r2, whole);
    buf.WriteBytes(d.post, r3, whole);
    buf.WriteBytes(d.reason, Be(U32(d.date), 4), whole);
    assert Be(U32(d.date), 4) + [] == Be(U32(d.date), 4);
    buf.Extend(Be(U32(d.date), 4), [], whole);
    out := buf.bytes;
  }
}
