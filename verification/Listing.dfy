/** What a reader of a thread is shown of each post. */
module Listing {
  import opened Bytes
  import Encodings
  import opened Posts

  /** What the server knows besides its posts: the names it has for its peers, and which stored vouches
      it can read back. */
  datatype Serving = Serving(labels: map<Key, string>, readable: seq<byte> -> bool)

  datatype View = View(body: seq<byte>, createdAt: int, pubkey: Option<Key>, signerFirstSeq: Option<nat>,
                       originId: Option<Key>, originLabel: Option<string>, vouch: Option<seq<byte>>)

  datatype Listed = Listed(id: Id, seqNo: nat, view: View)

  function TombstoneBody(reason: seq<byte>): seq<byte> { Encodings.Ascii("[removed: ") + reason + Encodings.Ascii("]") }

  /** The numbers of a thread's posts that one key signed. An author's deletion takes a post's key away. */
  function SignedSeqs(posts: map<Id, Post>, thread: Id, key: Key): set<nat>
  {
    set id | id in posts && posts[id].thread == thread && posts[id].content.pubkey == Some(key) :: posts[id].seqNo
  }

  predicate SignedBy(posts: map<Id, Post>, id: Id, thread: Id, key: Key)
  {
    id in posts && posts[id].thread == thread && posts[id].content.pubkey == Some(key)
  }

  ghost predicate IsLeast(s: set<nat>, m: Option<nat>)
  {
    (m.None? <==> s == {}) && (m.Some? ==> m.value in s && forall x | x in s :: m.value <= x)
  }

  function OriginShown(self: Key, origin: Key): Option<Key> { if origin == self then None else Some(origin) }

  function LabelShown(self: Key, sv: Serving, origin: Key): Option<string>
  {
    if origin != self && origin in sv.labels then Some(sv.labels[origin]) else None
  }

  /** A removed post shows when it was made and where it came from, and nothing its author put in it. */
  function Tombstone(self: Key, sv: Serving, p: Post, reason: seq<byte>): View
  {
    View(TombstoneBody(reason), p.createdAt, None, None, OriginShown(self, p.origin),
         LabelShown(self, sv, p.origin), None)
  }

  /** What is left of a removed post: the reason, in the notice's words, and no key, number or vouch. */
  ghost predicate NothingOfTheAuthor(view: View, reason: seq<byte>)
  {
    && view.body == Encodings.Ascii("[removed: ") + reason + Encodings.Ascii("]")
    && view.pubkey.None? && view.signerFirstSeq.None? && view.vouch.None?
  }

  ghost predicate IsShown(self: Key, sv: Serving, db: Db, id: Id, view: View)
    requires id in db.posts
  {
    var p := db.posts[id];
    if id in db.removals then view == Tombstone(self, sv, p, db.removals[id].reason)
    else
      && view.body == p.content.body && view.createdAt == p.createdAt && view.pubkey == p.content.pubkey
      && (if view.pubkey.Some? then IsLeast(SignedSeqs(db.posts, p.thread, view.pubkey.value), view.signerFirstSeq)
          else view.signerFirstSeq == None)
      && view.originId == OriginShown(self, p.origin) && view.originLabel == LabelShown(self, sv, p.origin)
      && view.vouch == (if p.content.vouch.Some? && sv.readable(p.content.vouch.value) then p.content.vouch else None)
  }

  ghost predicate IsListing(self: Key, sv: Serving, db: Db, thread: Id, row: Listed)
  {
    && row.id in db.posts && db.posts[row.id].thread == thread && db.posts[row.id].seqNo == row.seqNo
    && IsShown(self, sv, db, row.id, row.view)
  }

  /** SELECT MIN(seq) FROM posts WHERE thread_id = thread AND pubkey = key */
  method SignerFirstSeq(store: PostStore, thread: Id, key: Key) returns (m: Option<nat>)
    ensures IsLeast(SignedSeqs(store.posts, thread, key), m)
    ensures forall id | SignedBy(store.posts, id, thread, key) :: m.Some? && m.value <= store.posts[id].seqNo
    ensures m.Some? ==> exists id :: SignedBy(store.posts, id, thread, key) && store.posts[id].seqNo == m.value
  {
    m := None;
    var signed := SignedSeqs(store.posts, thread, key);
    var todo := signed;
    while todo != {}
      invariant todo <= signed && IsLeast(signed - todo, m)
    {
      var n :| n in todo;
      assert signed - (todo - {n}) == (signed - todo) + {n};
      todo := todo - {n};
      m := if m.None? || n < m.value then Some(n) else m;
    }
    assert signed - {} == signed;
    assert forall id | SignedBy(store.posts, id, thread, key) :: store.posts[id].seqNo in signed;
  }

  /** One row of the listing, as `list_in_thread` builds it. */
  method Show(store: PostStore, sv: Serving, id: Id) returns (view: View)
    requires id in store.posts
    ensures IsShown(store.self, sv, store.Tables(), id, view)
    ensures id in store.removals ==> NothingOfTheAuthor(view, store.removals[id].reason)
    ensures id !in store.removals ==> view.body == store.posts[id].content.body
    ensures id !in store.removals ==> view.pubkey == store.posts[id].content.pubkey
    ensures id !in store.removals && view.pubkey.Some? ==>
              view.signerFirstSeq.Some? && view.signerFirstSeq.value <= store.posts[id].seqNo
    ensures view.pubkey.None? ==> view.signerFirstSeq.None?
    ensures view.vouch.Some? ==> view.vouch == store.posts[id].content.vouch && sv.readable(view.vouch.value)
    ensures id !in store.removals && view.vouch.None? && store.posts[id].content.vouch.Some? ==>
              !sv.readable(store.posts[id].content.vouch.value)
    ensures view.createdAt == store.posts[id].createdAt
    ensures store.posts[id].origin == store.self ==> view.originId.None? && view.originLabel.None?
    ensures store.posts[id].origin != store.self ==> view.originId == Some(store.posts[id].origin)
    ensures view.originLabel.Some? ==>
              view.originId.Some? && view.originId.value in sv.labels &&
              sv.labels[view.originId.value] == view.originLabel.value
    ensures view.originId.Some? && view.originId.value in sv.labels ==> view.originLabel.Some?
  {
    assert store.posts[id].content.pubkey.Some? ==>
             var key := store.posts[id].content.pubkey.value;
             store.posts[id].seqNo in SignedSeqs(store.posts, store.posts[id].thread, key);
    var p := store.posts[id];
    var removed := id in store.removals;
    var body := if removed then TombstoneBody(store.removals[id].reason) else p.content.body;
    var pubkey := if removed then None else p.content.pubkey;
    var first: Option<nat> := None;
    if pubkey.Some? {
      first := SignerFirstSeq(store, p.thread, pubkey.value);
    }
    var local := p.origin == store.self;
    var originId := if local then None else Some(p.origin);
    var peerLabel := if local || p.origin !in sv.labels then None else Some(sv.labels[p.origin]);
    var vouch :=
      if removed || p.content.vouch.None? || !sv.readable(p.content.vouch.value) then None else p.content.vouch;
    view := View(body, p.createdAt, pubkey, first, originId, peerLabel, vouch);
  }

  /** `list_in_thread`: because a thread's numbers have no gaps, a page after `since` is exactly the
      posts numbered from the next one on, as many as the limit and the thread allow, each shown
      with its content or its tombstone. */
  method ListInThread(store: PostStore, sv: Serving, thread: Id, since: int, limit: nat) returns (out: seq<Listed>)
    requires Inv(store.self, store.Tables())
    ensures thread !in store.threads ==> out == []
    ensures thread in store.threads ==>
              var left := Max(store.threads[thread].postCount - Max(since, 0), 0);
              |out| == if left < limit then left else limit
    ensures forall i | 0 <= i < |out| ::
              out[i].seqNo == Max(since, 0) + 1 + i && IsListing(store.self, sv, store.Tables(), thread, out[i])
  {
    hide IsShown, SeqsUnique, OriginsOk;
    out := [];
    if thread !in store.threads {
      return;
    }
    assert ThreadOk(store.Tables(), thread);
    var n := Max(since, 0);
    while |out| < limit && n < store.threads[thread].postCount
      invariant |out| <= limit && n == Max(since, 0) + |out| && (|out| > 0 ==> n <= store.threads[thread].postCount)
      invariant forall i | 0 <= i < |out| ::
                  out[i].seqNo == Max(since, 0) + 1 + i && IsListing(store.self, sv, store.Tables(), thread, out[i])
      decreases limit - |out|
    {
      n := n + 1;
      assert n in Seqs(store.posts, thread);
      var id :| id in store.posts && store.posts[id].thread == thread && store.posts[id].seqNo == n;
      var view := Show(store, sv, id);
      out := out + [Listed(id, n, view)];
    }
  }

  /** The number beside a signed post stands for its key: it is that of the first post the key signed in
      the thread, and two signed posts shown in one thread carry the same number exactly when one key
      signed both. */
  lemma FirstSeqStandsForKey(self: Key, sv: Serving, db: Db, thread: Id, a: Listed, b: Listed)
    requires Inv(self, db) && IsListing(self, sv, db, thread, a) && IsListing(self, sv, db, thread, b)
    requires a.view.pubkey.Some? && b.view.pubkey.Some?
    ensures a.view.signerFirstSeq.Some? && a.view.signerFirstSeq.value <= a.seqNo
    ensures a.view.signerFirstSeq == b.view.signerFirstSeq <==> a.view.pubkey == b.view.pubkey
  {
    var s, t := SignedSeqs(db.posts, thread, a.view.pubkey.value), SignedSeqs(db.posts, thread, b.view.pubkey.value);
    assert a.seqNo in s && b.seqNo in t;
    if a.view.signerFirstSeq == b.view.signerFirstSeq {
      var n := a.view.signerFirstSeq.value;
      var x :| x in db.posts && db.posts[x].thread == thread && db.posts[x].content.pubkey == a.view.pubkey &&
               db.posts[x].seqNo == n;
      var y :| y in db.posts && db.posts[y].thread == thread && db.posts[y].content.pubkey == b.view.pubkey &&
               db.posts[y].seqNo == n;
      assert x == y;
    }
  }
}
