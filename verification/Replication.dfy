/** Two servers: one where posts originate, and a peer that pulls its events. The origin answers with
    two queries, its own handlers running between them; the peer applies the answer one event at a
    time, posts before removals, with its own handlers running between those. */
module Replication {
  import opened Bytes
  import opened Paging
  import opened Listing
  import opened Posts

  datatype PostEvent = PostEvent(thread: Id, board: string, title: seq<byte>, threadOrigin: Key, postId: Id,
                                 body: seq<byte>, pubkey: Option<Key>, signature: Option<seq<byte>>, createdAt: int)

  datatype RemovalEvent = RemovalEvent(postId: Id, reason: seq<byte>, removedAt: int)

  datatype Pull =
    | Idle
    | PostsRead(posts: seq<PostEvent>, nextPost: Option<RowKey>)
    | Applying(posts: seq<PostEvent>, removals: seq<RemovalEvent>, nextPost: Option<RowKey>, nextRemoval: Option<RowKey>)

  /** What becomes of one post event. `Failed` is an error after the thread row was ensured. */
  datatype Verdict = Rejected | Failed(today: int) | Stored(localId: Id, today: int)

  /** The two servers' keys, and how long a body is once trimmed. */
  datatype Setting = Setting(origin: Key, peer: Key, trimmedChars: seq<byte> -> nat)
  {
    predicate Valid() { origin != peer && trimmedChars([]) == 0 }
  }

  const MIN_BODY_CHARS: nat := 3

  /** `minted` and `processed` are history: the ids the origin ever gave its own posts, and the posts
      whose removal event the peer has applied. */
  datatype World = World(a: Db, b: Db, minted: set<Id>, postCursor: Option<RowKey>, removalCursor: Option<RowKey>,
                         pull: Pull, processed: set<Id>)

  datatype Step =
    | AtOrigin(op: Op)
    | AtPeer(op: Op)
    | QueryPosts(page: seq<RowKey>)
    | QueryRemovals(page: seq<RowKey>)
    | ApplyPost(verdict: Verdict)
    | ApplyRemoval(ok: bool)
    | SaveCursors
    | Abort

  function PostKeys(self: Key, db: Db): set<RowKey>
  {
    set id | id in db.posts && db.posts[id].origin == self :: RowKey(db.posts[id].createdAt, id)
  }

  function RemovalKeys(self: Key, db: Db): set<RowKey>
  {
    set id | id in db.removals && db.removals[id].scope == Global && id in db.posts && db.posts[id].origin == self ::
      RowKey(db.removals[id].removedAt, id)
  }

  function EventFor(db: Db, id: Id): PostEvent
    requires id in db.posts && db.posts[id].thread in db.threads
  {
    var p := db.posts[id];
    var t := db.threads[p.thread];
    PostEvent(p.thread, t.board, t.title, t.origin, p.originId, p.content.body, p.content.pubkey, p.content.signature,
              p.createdAt)
  }

  ghost function EventsFor(db: Db, page: seq<RowKey>): (es: seq<PostEvent>)
    requires References(db) && forall k | k in page :: k.id in db.posts
    ensures |es| == |page|
    ensures forall i | 0 <= i < |page| :: es[i] == EventFor(db, page[i].id)
  {
    seq(|page|, i requires 0 <= i < |page| => assert page[i] in page; EventFor(db, page[i].id))
  }

  ghost function RemovalEventsFor(db: Db, page: seq<RowKey>): (es: seq<RemovalEvent>)
    requires forall k | k in page :: k.id in db.removals
    ensures |es| == |page|
    ensures forall i | 0 <= i < |page| ::
              page[i] in page &&
              es[i] == RemovalEvent(page[i].id, db.removals[page[i].id].reason, db.removals[page[i].id].removedAt)
  {
    seq(|page|, i requires 0 <= i < |page| =>
      assert page[i] in page; RemovalEvent(page[i].id, db.removals[page[i].id].reason, db.removals[page[i].id].removedAt))
  }

  /** `next_post_cursor`: the date and origin id of the last row. */
  function NextPostCursor(db: Db, page: seq<RowKey>): Option<RowKey>
    requires forall k | k in page :: k.id in db.posts
  {
    if |page| == 0 then None
    else assert page[|page| - 1] in page;
         Some(RowKey(db.posts[page[|page| - 1].id].createdAt, db.posts[page[|page| - 1].id].originId))
  }

  function NextRemovalCursor(page: seq<RowKey>): Option<RowKey>
  {
    if |page| == 0 then None else Some(page[|page| - 1])
  }

  predicate OfOrigin(st: Setting, op: Op)
  {
    match op
    case InsertFederated(_, _, _, _, origin, _) => origin == st.origin
    case RemoveByOrigin(origin, _, _, _) => origin == st.origin
    case _ => false
  }

  /** The query joins each post to its thread, which `References` says is there. */
  ghost predicate Enabled(st: Setting, w: World, step: Step)
  {
    match step
    case AtOrigin(op) => FromOthers(st.origin, op) && (op.Insert? ==> op.id !in w.minted)
    case AtPeer(op) => FromOthers(st.peer, op) && !OfOrigin(st, op)
    case QueryPosts(page) =>
      w.pull.Idle? && References(w.a) &&
      IsPage(Ascending, PostKeys(st.origin, w.a), w.postCursor, EVENTS_PAGE_LIMIT, page)
    case QueryRemovals(page) =>
      w.pull.PostsRead? && IsPage(Ascending, RemovalKeys(st.origin, w.a), w.removalCursor, EVENTS_PAGE_LIMIT, page)
    case ApplyPost(verdict) =>
      w.pull.Applying? && |w.pull.posts| > 0 &&
      (!verdict.Rejected? ==> st.trimmedChars(w.pull.posts[0].body) >= MIN_BODY_CHARS)
    case ApplyRemoval(_) => w.pull.Applying? && |w.pull.posts| == 0 && |w.pull.removals| > 0
    case SaveCursors => w.pull.Applying? && |w.pull.posts| == 0 && |w.pull.removals| == 0
    case Abort => true
  }

  /** `apply_post_event` past the moderation gate. */
  ghost function Ingest(st: Setting, b: Db, e: PostEvent, verdict: Verdict): Db
  {
    match verdict
    case Rejected => b
    case Failed(today) => Apply(st.peer, b, EnsureThread(e.thread, e.board, e.title, e.createdAt, e.threadOrigin, today))
    case Stored(localId, today) =>
      Apply(st.peer, Apply(st.peer, b, EnsureThread(e.thread, e.board, e.title, e.createdAt, e.threadOrigin, today)),
            InsertFederated(localId, e.thread, Content(e.body, [], e.pubkey, e.signature, None), e.createdAt,
                            st.origin, e.postId))
  }

  /** A step that is not enabled does nothing. */
  ghost function Next(st: Setting, w: World, step: Step): World
  {
    if !Enabled(st, w, step) then w else
    match step
    case AtOrigin(op) =>
      w.(a := Apply(st.origin, w.a, op), minted := if op.Insert? then w.minted + {op.id} else w.minted)
    case AtPeer(op) => w.(b := Apply(st.peer, w.b, op))
    case QueryPosts(page) => w.(pull := PostsRead(EventsFor(w.a, page), NextPostCursor(w.a, page)))
    case QueryRemovals(page) =>
      w.(pull := Applying(w.pull.posts, RemovalEventsFor(w.a, page), w.pull.nextPost, NextRemovalCursor(page)))
    case ApplyPost(verdict) =>
      w.(b := Ingest(st, w.b, w.pull.posts[0], verdict), pull := w.pull.(posts := w.pull.posts[1..]))
    case ApplyRemoval(ok) =>
      var r := w.pull.removals[0];
      var rest := w.pull.(removals := w.pull.removals[1..]);
      if ok then w.(b := Apply(st.peer, w.b, RemoveByOrigin(st.origin, r.postId, r.reason, r.removedAt)), pull := rest,
                    processed := w.processed + {r.postId})
      else w.(pull := rest)
    case SaveCursors =>
      w.(postCursor := if w.pull.nextPost.Some? then w.pull.nextPost else w.postCursor,
         removalCursor := if w.pull.nextRemoval.Some? then w.pull.nextRemoval else w.removalCursor, pull := Idle)
    case Abort => w.(pull := Idle)
  }

  ghost function Exec(st: Setting, w: World, steps: seq<Step>): World
    decreases |steps|
  {
    if |steps| == 0 then w else Exec(st, Next(st, w, steps[0]), steps[1..])
  }

  lemma {:induction false} ExecConcat(st: Setting, w: World, a: seq<Step>, b: seq<Step>)
    ensures Exec(st, w, a + b) == Exec(st, Exec(st, w, a), b)
    decreases |a|
  {
    hide Next;
    if |a| > 0 {
      assert (a + b)[1..] == a[1..] + b;
      ExecConcat(st, Next(st, w, a[0]), a[1..], b);
    } else {
      assert a + b == b;
    }
  }

  /** Before the first pull, with whatever backfill cursor the operator chose. */
  function Start(cursor: Option<RowKey>): World
  {
    World(EmptyDb(), EmptyDb(), {}, cursor, cursor, Idle, {})
  }

  // ---------- The invariant ----------

  /** The origin once had this post as its own and no longer has anything of it to show. */
  ghost predicate Wiped(st: Setting, a: Db, minted: set<Id>, id: Id)
  {
    id in minted && (id in a.posts && a.posts[id].origin == st.origin ==> a.posts[id].content.body == [])
  }

  /** At the origin a removal of an own post and its scrub are one transaction. */
  ghost predicate OriginOk(st: Setting, a: Db, minted: set<Id>)
  {
    Posts.Inv(st.origin, a) && OwnPostsMinted(st, a, minted) && OwnRemovalsScrubbed(st, a)
  }

  ghost predicate PeerOk(st: Setting, b: Db, processed: set<Id>)
  {
    && Posts.Inv(st.peer, b)
    && forall id | id in b.posts && b.posts[id].origin == st.origin && b.posts[id].originId in processed ::
         id in b.removals
  }

  ghost predicate PendingPostsOk(posts: seq<PostEvent>, processed: set<Id>)
  {
    forall i | 0 <= i < |posts| :: posts[i].postId in processed ==> posts[i].body == []
  }

  ghost predicate PendingRemovalsOk(st: Setting, w: World, removals: seq<RemovalEvent>)
  {
    forall i | 0 <= i < |removals| :: Wiped(st, w.a, w.minted, removals[i].postId)
  }

  ghost predicate Inv(st: Setting, w: World)
  {
    && OriginOk(st, w.a, w.minted) && PeerOk(st, w.b, w.processed)
    && (forall id | id in w.processed :: Wiped(st, w.a, w.minted, id))
    && (!w.pull.Idle? ==> PendingPostsOk(w.pull.posts, w.processed))
    && (w.pull.Applying? ==> PendingRemovalsOk(st, w, w.pull.removals))
  }

  /** No step of the origin brings a wiped post back: ids are never used twice. */
  lemma StaysWiped(st: Setting, a: Db, minted: set<Id>, op: Op, id: Id)
    requires Wiped(st, a, minted, id) && (op.Insert? ==> op.id !in minted) && FromOthers(st.origin, op)
    ensures Wiped(st, Apply(st.origin, a, op), minted, id)
  {
    hide Highest;
  }

  ghost predicate OwnPostsMinted(st: Setting, a: Db, minted: set<Id>)
  {
    forall id | id in a.posts && a.posts[id].origin == st.origin :: id in minted
  }

  ghost predicate OwnRemovalsScrubbed(st: Setting, a: Db)
  {
    forall id | id in a.removals && id in a.posts && a.posts[id].origin == st.origin :: a.posts[id].content.body == []
  }

  lemma MintedStep(st: Setting, a: Db, minted: set<Id>, op: Op)
    requires OwnPostsMinted(st, a, minted) && FromOthers(st.origin, op)
    ensures OwnPostsMinted(st, Apply(st.origin, a, op), if op.Insert? then minted + {op.id} else minted)
  {
    hide Highest;
  }

  lemma ScrubbedStep(st: Setting, a: Db, op: Op)
    requires References(a) && OwnRemovalsScrubbed(st, a) && FromOthers(st.origin, op)
    ensures OwnRemovalsScrubbed(st, Apply(st.origin, a, op))
  {
    hide Highest;
  }

  lemma OriginStep(st: Setting, a: Db, minted: set<Id>, op: Op)
    requires OriginOk(st, a, minted) && FromOthers(st.origin, op)
    ensures OriginOk(st, Apply(st.origin, a, op), if op.Insert? then minted + {op.id} else minted)
  {
    hide Apply, ThreadOk, SeqsUnique, OriginsOk, OwnPostsMinted, OwnRemovalsScrubbed;
    ApplyKeepsInv(st.origin, a, op);
    MintedStep(st, a, minted, op);
    ScrubbedStep(st, a, op);
  }

  lemma PeerStep(st: Setting, b: Db, processed: set<Id>, op: Op)
    requires st.Valid() && PeerOk(st, b, processed) && FromOthers(st.peer, op) && !OfOrigin(st, op)
    ensures PeerOk(st, Apply(st.peer, b, op), processed)
  {
    ApplyKeepsInv(st.peer, b, op);
    hide Highest, ThreadOk, SeqsUnique, OriginsOk;
  }

  /** Storing an event never shows a removed post again: its body is empty, so it is too short. */
  lemma IngestIsSafe(st: Setting, b: Db, processed: set<Id>, e: PostEvent, verdict: Verdict)
    requires st.Valid() && PeerOk(st, b, processed) && (e.postId in processed ==> e.body == [])
    requires !verdict.Rejected? ==> st.trimmedChars(e.body) >= MIN_BODY_CHARS
    ensures PeerOk(st, Ingest(st, b, e, verdict), processed)
  {
    if !verdict.Rejected? {
      assert e.postId !in processed;
      var ensured := EnsureThread(e.thread, e.board, e.title, e.createdAt, e.threadOrigin, verdict.today);
      PeerStep(st, b, processed, ensured);
      if verdict.Stored? {
        StoreIsSafe(st, Apply(st.peer, b, ensured), processed, verdict.localId, e);
      }
    }
    hide PeerOk, Apply;
  }

  lemma StoreIsSafe(st: Setting, b: Db, processed: set<Id>, localId: Id, e: PostEvent)
    requires st.Valid() && PeerOk(st, b, processed) && e.postId !in processed
    ensures var op := InsertFederated(localId, e.thread, Content(e.body, [], e.pubkey, e.signature, None), e.createdAt,
                                      st.origin, e.postId);
            PeerOk(st, Apply(st.peer, b, op), processed)
  {
    var op := InsertFederated(localId, e.thread, Content(e.body, [], e.pubkey, e.signature, None), e.createdAt,
                              st.origin, e.postId);
    ApplyKeepsInv(st.peer, b, op);
    hide Highest, ThreadOk, SeqsUnique, OriginsOk;
  }

  /** After a removal event every copy of its post carries a removal row: there is at most one copy. */
  lemma RemovalIsApplied(st: Setting, b: Db, processed: set<Id>, r: RemovalEvent)
    requires st.Valid() && PeerOk(st, b, processed)
    ensures var op := RemoveByOrigin(st.origin, r.postId, r.reason, r.removedAt);
            PeerOk(st, Apply(st.peer, b, op), processed + {r.postId})
  {
    hide Apply, Posts.Inv;
    var op := RemoveByOrigin(st.origin, r.postId, r.reason, r.removedAt);
    ApplyKeepsInv(st.peer, b, op);
    RemovalCovers(st.peer, b, op);
    forall id | id in b.posts && b.posts[id].origin == st.origin && b.posts[id].originId == r.postId
      ensures id in Apply(st.peer, b, op).removals
    {
      assert IsLocalCopy(b.posts, id, st.origin, r.postId);
    }
  }

  lemma QueriedRemovalsAreWiped(st: Setting, w: World, page: seq<RowKey>)
    requires Inv(st, w) && Enabled(st, w, QueryRemovals(page))
    ensures PendingRemovalsOk(st, w, RemovalEventsFor(w.a, page))
  {
    hide Posts.Inv;
    forall i | 0 <= i < |page| ensures Wiped(st, w.a, w.minted, page[i].id) {
      assert page[i] in page && page[i] in RemovalKeys(st.origin, w.a);
    }
  }

  lemma QueriedPostsAreOk(st: Setting, w: World, page: seq<RowKey>)
    requires Inv(st, w) && Enabled(st, w, QueryPosts(page))
    ensures PendingPostsOk(EventsFor(w.a, page), w.processed)
  {
    var es := EventsFor(w.a, page);
    forall i | 0 <= i < |es| ensures es[i].postId in w.processed ==> es[i].body == [] {
      assert page[i] in page && page[i] in PostKeys(st.origin, w.a);
      assert w.a.posts[page[i].id].originId == page[i].id;
    }
  }

  lemma NextKeepsInv(st: Setting, w: World, step: Step)
    requires st.Valid() && Inv(st, w)
    ensures Inv(st, Next(st, w, step)) && w.processed <= Next(st, w, step).processed
  {
    if !Enabled(st, w, step) { return; }
    hide Apply, OriginOk, PeerOk, Ingest, IsPage, References;
    match step
    case AtOrigin(op) =>
      OriginStep(st, w.a, w.minted, op);
      forall id | Wiped(st, w.a, w.minted, id) ensures Wiped(st, Apply(st.origin, w.a, op), w.minted, id) {
        StaysWiped(st, w.a, w.minted, op, id);
      }
    case AtPeer(op) => PeerStep(st, w.b, w.processed, op);
    case QueryPosts(page) => QueriedPostsAreOk(st, w, page);
    case QueryRemovals(page) => QueriedRemovalsAreWiped(st, w, page);
    case ApplyPost(verdict) => IngestIsSafe(st, w.b, w.processed, w.pull.posts[0], verdict);
    case ApplyRemoval(ok) => if ok { RemovalIsApplied(st, w.b, w.processed, w.pull.removals[0]); }
    case SaveCursors =>
    case Abort =>
  }

  lemma {:induction false} ExecKeepsInv(st: Setting, w: World, steps: seq<Step>)
    requires st.Valid() && Inv(st, w)
    ensures Inv(st, Exec(st, w, steps)) && w.processed <= Exec(st, w, steps).processed
    decreases |steps|
  {
    if |steps| > 0 {
      NextKeepsInv(st, w, steps[0]);
      hide Inv, Next;
      ExecKeepsInv(st, Next(st, w, steps[0]), steps[1..]);
    }
  }

  // ---------- What the origin answers ----------

  ghost predicate InOrder(page: seq<RowKey>)
  {
    forall i, j | 0 <= i < j < |page| :: page[i].date <= page[j].date && page[i] != page[j]
  }

  predicate Own(st: Setting, a: Db, id: Id) { id in a.posts && a.posts[id].origin == st.origin }

  /** A page of posts is of the origin's own, by the day they were made, at most two hundred, and a shorter
      page leaves out none dated after the cursor. */
  lemma PostsPageIs(st: Setting, w: World, page: seq<RowKey>)
    requires Enabled(st, w, QueryPosts(page))
    ensures |page| <= 200 && InOrder(page)
    ensures forall k | k in page :: Own(st, w.a, k.id) && k.date == w.a.posts[k.id].createdAt
    ensures |page| < 200 ==>
              forall id | Own(st, w.a, id) &&
                          (w.postCursor.Some? ==> w.a.posts[id].createdAt > w.postCursor.value.date) ::
                RowKey(w.a.posts[id].createdAt, id) in page
  {
    hide Less, References;
    forall id | Own(st, w.a, id) ensures RowKey(w.a.posts[id].createdAt, id) in PostKeys(st.origin, w.a) { }
    PageInOrder(page);
  }

  /** And a page of removals is of removals of its own posts, by the day of the removal. */
  lemma RemovalsPageIs(st: Setting, w: World, page: seq<RowKey>)
    requires Enabled(st, w, QueryRemovals(page))
    ensures |page| <= 200 && InOrder(page)
    ensures forall k | k in page ::
              Own(st, w.a, k.id) && k.id in w.a.removals && w.a.removals[k.id].removedAt == k.date &&
              w.a.removals[k.id].scope == Global
    ensures |page| < 200 ==>
              forall id | Own(st, w.a, id) && id in w.a.removals && w.a.removals[id].scope == Global &&
                          (w.removalCursor.Some? ==> w.a.removals[id].removedAt > w.removalCursor.value.date) ::
                RowKey(w.a.removals[id].removedAt, id) in page
  {
    hide Less;
    forall id | Own(st, w.a, id) && id in w.a.removals && w.a.removals[id].scope == Global
      ensures RowKey(w.a.removals[id].removedAt, id) in RemovalKeys(st.origin, w.a) { }
    PageInOrder(page);
  }

  lemma PageInOrder(page: seq<RowKey>)
    requires Sorted(Ascending, page)
    ensures InOrder(page)
  {
    forall i, j | 0 <= i < j < |page| ensures page[i].date <= page[j].date && page[i] != page[j] {
      BeforeIrreflexive(Ascending, page[i]);
      assert Before(Ascending, page[i], page[j]);
    }
  }

  // ---------- What a reader of the peer sees ----------

  /** Of the post, this server serves nothing but a tombstone, whatever names it has for its peers. */
  ghost predicate ShowsOnlyTombstones(st: Setting, self: Key, db: Db, id: Id)
  {
    forall local, sv, view | local in db.posts && db.posts[local].origin == st.origin && db.posts[local].originId == id &&
                             IsShown(self, sv, db, local, view) ::
      local in db.removals && NothingOfTheAuthor(view, db.removals[local].reason)
  }

  /** Deletion safety across two servers: once the peer has processed the removal event of a post, in
      every later state, whatever either server does, wherever the pages fall and however the
      origin's handlers run between its two queries, the peer shows nothing of it but a tombstone. */
  lemma DeletionIsSafe(st: Setting, cursor: Option<RowKey>, before: seq<Step>, after: seq<Step>, id: Id)
    requires st.Valid() && id in Exec(st, Start(cursor), before).processed
    ensures ShowsOnlyTombstones(st, st.peer, Exec(st, Exec(st, Start(cursor), before), after).b, id)
  {
    EmptyInv(st.origin);
    EmptyInv(st.peer);
    ExecKeepsInv(st, Start(cursor), before);
    ExecKeepsInv(st, Exec(st, Start(cursor), before), after);
    hide Exec, Start, Posts.Inv;
  }

  // ---------- Cursors ----------

  /** The origin orders its posts by its row ids and hands out cursors made of origin ids. On its own
      posts the two are the same, so the cursor is the key of the last row of the page. */
  lemma CursorIsOrderKey(st: Setting, db: Db, page: seq<RowKey>)
    requires Posts.Inv(st.origin, db) && |page| > 0 && forall k | k in page :: k in PostKeys(st.origin, db)
    ensures forall k | k in page :: k.id in db.posts
    ensures NextPostCursor(db, page) == Some(page[|page| - 1])
  {
    var last := page[|page| - 1];
    assert last in page && last in PostKeys(st.origin, db);
  }

  ghost predicate CursorsAdvance(st: Setting, w: World, key: RowKey)
  {
    && !After(Ascending, w.removalCursor, key)
    && (w.pull.Applying? && w.pull.nextRemoval.Some? ==> !After(Ascending, w.pull.nextRemoval, key))
  }

  lemma PassedStep(st: Setting, w: World, step: Step, key: RowKey)
    requires CursorsAdvance(st, w, key)
    ensures CursorsAdvance(st, Next(st, w, step), key)
    ensures step.QueryRemovals? && Enabled(st, w, step) ==> key !in step.page
  {
    hide Apply, Ingest, EventsFor, References;
    if step.QueryRemovals? && Enabled(st, w, step) && |step.page| > 0 {
      var last := step.page[|step.page| - 1];
      assert last in step.page && After(Ascending, w.removalCursor, last);
      if Before(Ascending, last, key) && w.removalCursor.Some? {
        BeforeTransitive(Ascending, w.removalCursor.value, last, key);
      }
    }
  }

  /** A removal is offered once. When its ingest fails the pull goes on and saves the cursor all the
      same; from then on no page of any later pull contains it, so the failed removal is never
      retried. The key is that of any row at or before the stored cursor. */
  lemma {:induction false} PassedIsNeverOffered(st: Setting, w: World, steps: seq<Step>, key: RowKey)
    requires !After(Ascending, w.removalCursor, key) && w.pull.Idle?
    ensures forall i | 0 <= i < |steps| && steps[i].QueryRemovals? && Enabled(st, Exec(st, w, steps[..i]), steps[i]) ::
              key !in steps[i].page
  {
    forall i | 0 <= i < |steps| && steps[i].QueryRemovals? && Enabled(st, Exec(st, w, steps[..i]), steps[i])
      ensures key !in steps[i].page
    {
      PassedExec(st, w, steps[..i], key);
      PassedStep(st, Exec(st, w, steps[..i]), steps[i], key);
    }
  }

  predicate Ends(step: Step) { step.SaveCursors? || step.Abort? }

  /** One pull at a time: until a pull saves its cursors or is broken off no other begins, and the stored
      cursors stay where they were when it began. */
  lemma {:induction false} OnePullAtATime(st: Setting, w: World, steps: seq<Step>)
    requires !w.pull.Idle? && forall i | 0 <= i < |steps| :: !Ends(steps[i])
    ensures var t := Exec(st, w, steps);
            && !t.pull.Idle? && t.postCursor == w.postCursor && t.removalCursor == w.removalCursor
            && forall page :: !Enabled(st, t, QueryPosts(page))
    decreases |steps|
  {
    if |steps| > 0 {
      assert !Ends(steps[0]);
      hide Apply, Ingest, EventsFor, IsPage, References, PostKeys, RemovalKeys;
      OnePullAtATime(st, Next(st, w, steps[0]), steps[1..]);
    }
  }

  /** No pull ever asks for a removal at or before the cursor the operator began with. */
  lemma NothingBeforeTheBackfill(st: Setting, cursor: RowKey, steps: seq<Step>, key: RowKey, i: nat)
    requires !Before(Ascending, cursor, key) && i < |steps| && steps[i].QueryRemovals?
    requires Enabled(st, Exec(st, Start(Some(cursor)), steps[..i]), steps[i])
    ensures key !in steps[i].page
  {
    hide Exec, Enabled, Before;
    PassedIsNeverOffered(st, Start(Some(cursor)), steps, key);
  }

  lemma {:induction false} PassedExec(st: Setting, w: World, steps: seq<Step>, key: RowKey)
    requires CursorsAdvance(st, w, key)
    ensures CursorsAdvance(st, Exec(st, w, steps), key)
    decreases |steps|
  {
    if |steps| > 0 {
      PassedStep(st, w, steps[0], key);
      hide Next, CursorsAdvance;
      PassedExec(st, Next(st, w, steps[0]), steps[1..], key);
    }
  }
}
