/** One server's threads, posts and removals: the statements that change them, and what every
    sequence of those statements keeps. */
module Posts {
  import opened Bytes

  type Id = seq<byte>

  datatype Thread = Thread(board: string, title: seq<byte>, createdAt: int, expiresAt: Option<int>,
                           lastPostAt: int, postCount: nat, origin: Key)

  /** Everything a writer supplies, and everything an author's deletion wipes. */
  datatype Content = Content(body: seq<byte>, powNonce: seq<byte>, pubkey: Option<Key>, signature: Option<seq<byte>>,
                             vouch: Option<seq<byte>>)

  datatype Post = Post(thread: Id, seqNo: nat, content: Content, createdAt: int, origin: Key, originId: Id)

  datatype Scope = Local | Global

  datatype Removal = Removal(reason: seq<byte>, scope: Scope, removedAt: int)

  datatype Db = Db(threads: map<Id, Thread>, posts: map<Id, Post>, removals: map<Id, Removal>)

  const SCRUBBED: Content := Content([], [], None, None, None)

  function EmptyDb(): Db { Db(map[], map[], map[]) }

  function Seqs(posts: map<Id, Post>, thread: Id): set<nat>
  {
    set id | id in posts && posts[id].thread == thread :: posts[id].seqNo
  }

  /** COALESCE(MAX(seq), 0) */
  ghost function Highest(s: set<nat>): (m: nat)
    ensures forall x | x in s :: x <= m
    ensures s == {} ==> m == 0
    ensures s != {} ==> m in s
  {
    if s == {} then 0
    else var x :| x in s;
         assert forall y | y in s :: y == x || y in s - {x};
         var m := Highest(s - {x}); if x > m || s == {x} then x else m
  }

  function Max(a: int, b: int): int { if a < b then b else a }

  /** INSERT with seq = MAX(seq) + 1, and the thread's counters, in one transaction. */
  ghost function AddPost(db: Db, id: Id, thread: Id, content: Content, date: int, origin: Key, originId: Id): Db
    requires thread in db.threads
  {
    var t := db.threads[thread];
    db.(posts := db.posts[id := Post(thread, Highest(Seqs(db.posts, thread)) + 1, content, date, origin, originId)],
        threads := db.threads[thread := t.(lastPostAt := Max(t.lastPostAt, date), postCount := t.postCount + 1)])
  }

  predicate OriginTaken(posts: map<Id, Post>, origin: Key, originId: Id)
  {
    exists id :: id in posts && posts[id].origin == origin && posts[id].originId == originId
  }

  /** The unique indexes and the foreign key an insert must satisfy. */
  predicate CanInsert(db: Db, id: Id, thread: Id, origin: Key, originId: Id)
  {
    thread in db.threads && id !in db.posts && !OriginTaken(db.posts, origin, originId)
  }

  datatype Op =
    | CreateThread(id: Id, board: string, title: seq<byte>, expiresAt: Option<int>, today: int)
    | Insert(id: Id, thread: Id, content: Content, today: int)
    | EnsureThread(id: Id, board: string, title: seq<byte>, createdAt: int, origin: Key, today: int)
    | InsertFederated(localId: Id, thread: Id, content: Content, createdAt: int, origin: Key, originId: Id)
    | AuthorDelete(id: Id, reason: seq<byte>, today: int)
    | RemoveByOrigin(origin: Key, originId: Id, reason: seq<byte>, removedAt: int)
    | ExpireThreads(today: int, retention: map<string, int>)

  predicate Expired(t: Thread, today: int, retention: map<string, int>)
  {
    (t.expiresAt.Some? && t.expiresAt.value <= today) ||
    (t.board in retention && t.createdAt < today - retention[t.board])
  }

  function ExpiredThreads(db: Db, today: int, retention: map<string, int>): set<Id>
  {
    set id | id in db.threads && Expired(db.threads[id], today, retention)
  }

  /** DELETE FROM threads, cascading to posts and from them to removals. */
  function Cascade(db: Db, gone: set<Id>): Db
  {
    var posts := map id | id in db.posts && db.posts[id].thread !in gone :: db.posts[id];
    Db(db.threads - gone, posts, map id | id in db.removals && id in posts :: db.removals[id])
  }

  predicate IsLocalCopy(posts: map<Id, Post>, id: Id, origin: Key, originId: Id)
  {
    id in posts && posts[id].origin == origin && posts[id].originId == originId
  }

  /** Every statement that fails a constraint leaves the tables as they were. */
  ghost function Apply(self: Key, db: Db, op: Op): Db
  {
    match op
    case CreateThread(id, board, title, expiresAt, today) =>
      if id in db.threads then db
      else db.(threads := db.threads[id := Thread(board, title, today, expiresAt, today, 0, self)])
    case Insert(id, thread, content, today) =>
      if CanInsert(db, id, thread, self, id) then AddPost(db, id, thread, content, today, self, id) else db
    case EnsureThread(id, board, title, createdAt, origin, today) =>
      if id in db.threads then db
      else db.(threads := db.threads[id := Thread(board, title, createdAt, None, today, 0, origin)])
    case InsertFederated(localId, thread, content, createdAt, origin, originId) =>
      if CanInsert(db, localId, thread, origin, originId)
      then AddPost(db, localId, thread, content, createdAt, origin, originId) else db
    case AuthorDelete(id, reason, today) =>
      if id in db.removals || id !in db.posts then db
      else db.(removals := db.removals[id := Removal(reason, Global, today)],
               posts := db.posts[id := db.posts[id].(content := SCRUBBED)])
    case RemoveByOrigin(origin, originId, reason, removedAt) =>
      if exists id :: IsLocalCopy(db.posts, id, origin, originId) && id !in db.removals
      then var id :| IsLocalCopy(db.posts, id, origin, originId) && id !in db.removals;
           db.(removals := db.removals[id := Removal(reason, Global, removedAt)])
      else db
    case ExpireThreads(today, retention) => Cascade(db, ExpiredThreads(db, today, retention))
  }

  ghost function Run(self: Key, db: Db, ops: seq<Op>): Db
    decreases |ops|
  {
    if |ops| == 0 then db else Run(self, Apply(self, db, ops[0]), ops[1..])
  }

  /** The pull worker drops events that claim this server as their origin, and a peer's removals are
      only of that peer's own posts. */
  predicate FromOthers(self: Key, op: Op)
  {
    match op
    case InsertFederated(_, _, _, _, origin, _) => origin != self
    case RemoveByOrigin(origin, _, _, _) => origin != self
    case _ => true
  }

  // ---------- The invariant ----------

  ghost predicate References(db: Db)
  {
    && (forall id | id in db.posts :: db.posts[id].thread in db.threads)
    && db.removals.Keys <= db.posts.Keys
  }

  /** The thread's posts are numbered 1 up to its post count, no number twice, none after its date. */
  ghost predicate ThreadOk(db: Db, thread: Id)
    requires thread in db.threads
  {
    && (forall n: nat :: n in Seqs(db.posts, thread) <==> 1 <= n <= db.threads[thread].postCount)
    && (forall id | id in db.posts && db.posts[id].thread == thread ::
          db.posts[id].createdAt <= db.threads[thread].lastPostAt)
  }

  ghost predicate SeqsUnique(db: Db)
  {
    forall a, b | a in db.posts && b in db.posts && db.posts[a].thread == db.posts[b].thread &&
                  db.posts[a].seqNo == db.posts[b].seqNo :: a == b
  }

  ghost predicate OriginsOk(self: Key, posts: map<Id, Post>)
  {
    && (forall a, b | a in posts && b in posts && posts[a].origin == posts[b].origin &&
                      posts[a].originId == posts[b].originId :: a == b)
    && (forall id | id in posts && posts[id].origin == self :: posts[id].originId == id)
  }

  ghost predicate Inv(self: Key, db: Db)
  {
    References(db) && (forall t | t in db.threads :: ThreadOk(db, t)) && SeqsUnique(db) && OriginsOk(self, db.posts)
  }

  /** With the numbers 1 to the count in use, the next is one more than the count. */
  lemma NextNumber(db: Db, thread: Id)
    requires thread in db.threads && ThreadOk(db, thread)
    ensures Highest(Seqs(db.posts, thread)) == db.threads[thread].postCount
  {
    var s, n := Seqs(db.posts, thread), db.threads[thread].postCount;
    if n > 0 {
      assert n in s;
    } else if s != {} {
      var x :| x in s;
    }
  }

  lemma AddedNumbers(posts: map<Id, Post>, id: Id, p: Post, thread: Id)
    requires id !in posts
    ensures Seqs(posts[id := p], thread) == Seqs(posts, thread) + if p.thread == thread then {p.seqNo} else {}
  {
    var after := posts[id := p];
    forall a | a in posts && posts[a].thread == thread ensures posts[a].seqNo in Seqs(after, thread) {
      assert after[a] == posts[a];
    }
    assert after[id] == p;
  }

  /** A post numbered one past the count, with the counters raised to match. */
  lemma AddedPostKeepsThreads(db: Db, db': Db, id: Id, p: Post, thread: Thread)
    requires References(db) && (forall t | t in db.threads :: ThreadOk(db, t)) && SeqsUnique(db)
    requires id !in db.posts && p.thread in db.threads && p.seqNo == db.threads[p.thread].postCount + 1
    requires thread.postCount == db.threads[p.thread].postCount + 1
    requires thread.lastPostAt == Max(db.threads[p.thread].lastPostAt, p.createdAt)
    requires db' == db.(posts := db.posts[id := p], threads := db.threads[p.thread := thread])
    ensures References(db') && (forall t | t in db'.threads :: ThreadOk(db', t)) && SeqsUnique(db')
  {
    forall t | t in db'.threads ensures ThreadOk(db', t) {
      hide Seqs, References, SeqsUnique;
      assert ThreadOk(db, t);
      AddedNumbers(db.posts, id, p, t);
    }
    hide Max;
    forall a | a in db.posts && db.posts[a].thread == p.thread ensures db.posts[a].seqNo != p.seqNo {
      assert ThreadOk(db, p.thread);
      assert db.posts[a].seqNo in Seqs(db.posts, p.thread);
    }
  }

  lemma AddPostKeepsInv(self: Key, db: Db, id: Id, thread: Id, content: Content, date: int, origin: Key, originId: Id)
    requires Inv(self, db) && CanInsert(db, id, thread, origin, originId) && (origin == self ==> originId == id)
    ensures Inv(self, AddPost(db, id, thread, content, date, origin, originId))
  {
    NextNumber(db, thread);
    hide Highest, ThreadOk, References, SeqsUnique, Seqs, OriginsOk;
    var db' := AddPost(db, id, thread, content, date, origin, originId);
    AddedPostKeepsThreads(db, db', id, db'.posts[id], db'.threads[thread]);
    AddedPostKeepsOrigins(self, db, id, db'.posts[id]);
  }

  lemma AddedPostKeepsOrigins(self: Key, db: Db, id: Id, p: Post)
    requires OriginsOk(self, db.posts) && id !in db.posts && !OriginTaken(db.posts, p.origin, p.originId)
    requires p.origin == self ==> p.originId == id
    ensures OriginsOk(self, db.posts[id := p])
  {
    forall a | a in db.posts && db.posts[a].origin == p.origin ensures db.posts[a].originId != p.originId {
      assert OriginTaken(db.posts, db.posts[a].origin, db.posts[a].originId);
    }
    hide OriginTaken;
  }

  lemma SameNumbers(a: Db, b: Db, thread: Id)
    requires thread in a.threads && thread in b.threads && ThreadOk(a, thread)
    requires a.threads[thread].postCount == b.threads[thread].postCount
    requires a.threads[thread].lastPostAt == b.threads[thread].lastPostAt
    requires forall id :: id in a.posts && a.posts[id].thread == thread <==> id in b.posts && b.posts[id].thread == thread
    requires forall id | id in a.posts && id in b.posts ::
               a.posts[id].seqNo == b.posts[id].seqNo && a.posts[id].createdAt == b.posts[id].createdAt
    ensures ThreadOk(b, thread)
  {
    assert Seqs(b.posts, thread) == Seqs(a.posts, thread);
  }

  lemma CascadeKeepsInv(self: Key, db: Db, gone: set<Id>)
    requires Inv(self, db)
    ensures Inv(self, Cascade(db, gone))
  {
    var db' := Cascade(db, gone);
    forall t | t in db'.threads ensures ThreadOk(db', t) {
      SameNumbers(db, db', t);
    }
  }

  lemma NewThreadKeepsInv(self: Key, db: Db, id: Id, t: Thread)
    requires Inv(self, db) && id !in db.threads && t.postCount == 0
    ensures Inv(self, db.(threads := db.threads[id := t]))
  {
    var db' := db.(threads := db.threads[id := t]);
    assert Seqs(db'.posts, id) == {};
    forall k | k in db'.threads ensures ThreadOk(db', k) {
      if k != id { SameNumbers(db, db', k); }
    }
  }

  lemma DeleteKeepsInv(self: Key, db: Db, id: Id, removal: Removal, content: Content)
    requires Inv(self, db) && id in db.posts
    ensures Inv(self, db.(removals := db.removals[id := removal],
                          posts := db.posts[id := db.posts[id].(content := content)]))
  {
    hide References, SeqsUnique, OriginsOk, Seqs;
    var db' := db.(removals := db.removals[id := removal], posts := db.posts[id := db.posts[id].(content := content)]);
    ScrubKeepsPlaces(self, db, db', id);
    forall k | k in db'.threads ensures ThreadOk(db', k) {
      SameNumbers(db, db', k);
    }
  }

  lemma ScrubKeepsPlaces(self: Key, db: Db, db': Db, id: Id)
    requires References(db) && SeqsUnique(db) && OriginsOk(self, db.posts) && id in db.posts && id in db'.posts
    requires db'.threads == db.threads && db'.removals.Keys == db.removals.Keys + {id}
    requires db'.posts == db.posts[id := db.posts[id].(content := db'.posts[id].content)]
    ensures References(db') && SeqsUnique(db') && OriginsOk(self, db'.posts)
  {
    assert db'.posts.Keys == db.posts.Keys;
    ScrubKeepsNumbers(db, db');
    ScrubKeepsOrigins(self, db.posts, db'.posts);
    hide SeqsUnique, OriginsOk;
  }

  lemma ScrubKeepsNumbers(db: Db, db': Db)
    requires SeqsUnique(db) && db'.posts.Keys == db.posts.Keys
    requires forall k | k in db.posts ::
               db'.posts[k].thread == db.posts[k].thread && db'.posts[k].seqNo == db.posts[k].seqNo
    ensures SeqsUnique(db')
  {
  }

  lemma ScrubKeepsOrigins(self: Key, posts: map<Id, Post>, posts': map<Id, Post>)
    requires OriginsOk(self, posts) && posts'.Keys == posts.Keys
    requires forall k | k in posts :: posts'[k].origin == posts[k].origin && posts'[k].originId == posts[k].originId
    ensures OriginsOk(self, posts')
  {
  }

  lemma ApplyKeepsInv(self: Key, db: Db, op: Op)
    requires Inv(self, db) && FromOthers(self, op)
    ensures Inv(self, Apply(self, db, op))
  {
    hide Inv, AddPost, Cascade, CanInsert;
    match op
    case CreateThread(id, board, title, expiresAt, today) =>
      if id !in db.threads { NewThreadKeepsInv(self, db, id, Thread(board, title, today, expiresAt, today, 0, self)); }
    case Insert(id, thread, content, today) =>
      if CanInsert(db, id, thread, self, id) { AddPostKeepsInv(self, db, id, thread, content, today, self, id); }
    case EnsureThread(id, board, title, createdAt, origin, today) =>
      if id !in db.threads { NewThreadKeepsInv(self, db, id, Thread(board, title, createdAt, None, today, 0, origin)); }
    case InsertFederated(localId, thread, content, createdAt, origin, originId) =>
      if CanInsert(db, localId, thread, origin, originId) {
        AddPostKeepsInv(self, db, localId, thread, content, createdAt, origin, originId);
      }
    case AuthorDelete(id, reason, today) =>
      if id !in db.removals && id in db.posts { DeleteKeepsInv(self, db, id, Removal(reason, Global, today), SCRUBBED); }
    case RemoveByOrigin(origin, originId, reason, removedAt) =>
      if exists id :: IsLocalCopy(db.posts, id, origin, originId) && id !in db.removals {
        var id :| IsLocalCopy(db.posts, id, origin, originId) && id !in db.removals &&
                  Apply(self, db, op) == db.(removals := db.removals[id := Removal(reason, Global, removedAt)]);
        DeleteKeepsInv(self, db, id, Removal(reason, Global, removedAt), db.posts[id].content);
        assert db.posts[id := db.posts[id]] == db.posts;
      }
    case ExpireThreads(today, retention) => CascadeKeepsInv(self, db, ExpiredThreads(db, today, retention));
  }

  ghost predicate AllFromOthers(self: Key, ops: seq<Op>) { forall i | 0 <= i < |ops| :: FromOthers(self, ops[i]) }

  /** The thread and origin invariant over every run of local posts, federated posts, repeated
      pulls, deletions, removals and expiry: each thread's posts are numbered exactly 1 up to its
      post count, its date bounds all of theirs, a remote post is stored at most once, and a post
      of this server has one id here and everywhere. */
  lemma {:induction false} RunKeepsInv(self: Key, db: Db, ops: seq<Op>)
    requires Inv(self, db) && AllFromOthers(self, ops)
    ensures Inv(self, Run(self, db, ops))
    decreases |ops|
  {
    if |ops| > 0 {
      ApplyKeepsInv(self, db, ops[0]);
      hide Inv, Apply;
      RunKeepsInv(self, Apply(self, db, ops[0]), ops[1..]);
    }
  }

  lemma EmptyInv(self: Key)
    ensures Inv(self, EmptyDb())
  {
  }

  // ---------- Over a thread's life ----------

  ghost predicate Survives(self: Key, db: Db, ops: seq<Op>, thread: Id)
    decreases |ops|
  {
    thread in db.threads && (|ops| > 0 ==> Survives(self, Apply(self, db, ops[0]), ops[1..], thread))
  }

  lemma StepIsMonotone(self: Key, db: Db, op: Op, thread: Id)
    requires thread in db.threads && thread in Apply(self, db, op).threads
    ensures var a, b := db.threads[thread], Apply(self, db, op).threads[thread];
            && a.lastPostAt <= b.lastPostAt && a.postCount <= b.postCount
            && b.createdAt == a.createdAt && b.origin == a.origin
  {
  }

  /** A post keeps its place: number, thread, date and origin never change while it exists, and its
      content changes at most once, to nothing. */
  ghost predicate PostKept(a: Post, b: Post)
  {
    b == a || b == a.(content := SCRUBBED)
  }

  /** While a thread exists, its date and its count never fall. */
  lemma {:induction false} ThreadNeverFalls(self: Key, db: Db, ops: seq<Op>, thread: Id)
    requires Survives(self, db, ops, thread)
    ensures thread in Run(self, db, ops).threads
    ensures var a, b := db.threads[thread], Run(self, db, ops).threads[thread];
            a.lastPostAt <= b.lastPostAt && a.postCount <= b.postCount
    decreases |ops|
  {
    if |ops| > 0 {
      StepIsMonotone(self, db, ops[0], thread);
      hide Apply;
      ThreadNeverFalls(self, Apply(self, db, ops[0]), ops[1..], thread);
    }
  }

  lemma StepKeepsPosts(self: Key, db: Db, op: Op, id: Id)
    requires References(db) && id in db.posts && db.posts[id].thread in Apply(self, db, op).threads
    ensures id in Apply(self, db, op).posts && PostKept(db.posts[id], Apply(self, db, op).posts[id])
  {
    hide Highest;
    if op.ExpireThreads? {
      assert db.posts[id].thread !in ExpiredThreads(db, op.today, op.retention);
    }
  }

  /** While its thread exists, a post keeps its number, date and origin in every run: `>>N` references
      stay stable, deletion included. */
  lemma {:induction false} NumbersAreStable(self: Key, db: Db, ops: seq<Op>, id: Id)
    requires Inv(self, db) && AllFromOthers(self, ops) && id in db.posts && Survives(self, db, ops, db.posts[id].thread)
    ensures id in Run(self, db, ops).posts && PostKept(db.posts[id], Run(self, db, ops).posts[id])
    decreases |ops|
  {
    if |ops| > 0 {
      ApplyKeepsInv(self, db, ops[0]);
      StepKeepsPosts(self, db, ops[0], id);
      hide Apply, Inv;
      NumbersAreStable(self, Apply(self, db, ops[0]), ops[1..], id);
    }
  }

  /** Pulling again is a no-op: once a remote post is stored, storing it again, under whatever new local
      id and with whatever content, changes nothing as long as its thread exists. */
  lemma DuplicatePullIsNoOp(self: Key, db: Db, ops: seq<Op>, id: Id, again: Op)
    requires Inv(self, db) && AllFromOthers(self, ops) && id in db.posts && Survives(self, db, ops, db.posts[id].thread)
    requires again.InsertFederated? && again.origin == db.posts[id].origin && again.originId == db.posts[id].originId
    ensures Apply(self, Run(self, db, ops), again) == Run(self, db, ops)
  {
    NumbersAreStable(self, db, ops, id);
    hide Inv, Survives, AllFromOthers, Run;
    var end := Run(self, db, ops);
    assert IsLocalCopy(end.posts, id, again.origin, again.originId);
    assert OriginTaken(end.posts, again.origin, again.originId) by {
      assert end.posts[id].origin == again.origin && end.posts[id].originId == again.originId;
    }
  }

  /** A removal by origin removes the one copy there is. */
  lemma RemovalIs(self: Key, db: Db, op: Op, id: Id)
    requires Inv(self, db) && op.RemoveByOrigin? && IsLocalCopy(db.posts, id, op.origin, op.originId)
    ensures Apply(self, db, op) ==
            if id in db.removals then db else db.(removals := db.removals[id := Removal(op.reason, Global, op.removedAt)])
    ensures forall other | IsLocalCopy(db.posts, other, op.origin, op.originId) :: other == id
  {
    OneCopy(self, db, id, op.origin, op.originId);
    hide Inv;
  }

  lemma RemovalOfNone(self: Key, db: Db, op: Op)
    requires op.RemoveByOrigin? && forall id | id in db.posts :: !IsLocalCopy(db.posts, id, op.origin, op.originId)
    ensures Apply(self, db, op) == db
  {
  }

  /** After a removal by origin every copy is removed, and nothing else has changed but removals. */
  lemma RemovalCovers(self: Key, db: Db, op: Op)
    requires Inv(self, db) && op.RemoveByOrigin?
    ensures var after := Apply(self, db, op);
            && after.posts == db.posts && db.removals.Keys <= after.removals.Keys
            && forall id | IsLocalCopy(db.posts, id, op.origin, op.originId) :: id in after.removals
  {
    if id :| id in db.posts && IsLocalCopy(db.posts, id, op.origin, op.originId) {
      RemovalIs(self, db, op, id);
    } else {
      RemovalOfNone(self, db, op);
    }
    hide Apply, Inv;
  }

  lemma OneCopy(self: Key, db: Db, id: Id, origin: Key, originId: Id)
    requires Inv(self, db) && IsLocalCopy(db.posts, id, origin, originId)
    ensures forall other | IsLocalCopy(db.posts, other, origin, originId) :: other == id
  {
  }

  // ---------- What the sweep does to a thread ----------

  /** Day by day, in the threads' own columns: a thread stays while it has neither an expiry day that is here
      nor a retention that has run out, which with `r` days it has on the first day after `r` have passed. */
  ghost predicate Swept(before: map<Id, Thread>, after: map<Id, Thread>, today: int, retention: map<string, int>)
  {
    && after.Keys <= before.Keys && (forall t | t in after :: after[t] == before[t])
    && (forall t | t in before && before[t].expiresAt.Some? && before[t].expiresAt.value <= today :: t !in after)
    && (forall t | t in before && before[t].board in retention ::
          before[t].createdAt + retention[before[t].board] + 1 <= today ==> t !in after)
    && (forall t | t in before && (before[t].expiresAt.None? || today + 1 <= before[t].expiresAt.value) ::
          before[t].board !in retention || today <= before[t].createdAt + retention[before[t].board] ==> t in after)
  }

  /** What hangs on the threads goes with them, and the rest is as it was. */
  ghost predicate Followed(before: Db, after: Db)
  {
    && after.posts.Keys <= before.posts.Keys && after.removals.Keys <= before.removals.Keys
    && (forall p | p in before.posts :: p in after.posts <==> before.posts[p].thread in after.threads)
    && (forall p | p in after.posts :: after.posts[p] == before.posts[p])
    && (forall p | p in before.removals :: p in after.removals <==> p in after.posts)
    && (forall p | p in after.removals :: after.removals[p] == before.removals[p])
  }

  lemma SweepIs(db: Db, today: int, retention: map<string, int>)
    requires References(db)
    ensures var after := Cascade(db, ExpiredThreads(db, today, retention)).threads;
            && Swept(db.threads, after, today, retention)
            && |ExpiredThreads(db, today, retention)| == |db.threads| - |after|
            && Followed(db, Cascade(db, ExpiredThreads(db, today, retention)))
            && forall t | t in after :: !Expired(after[t], today, retention)
  {
    var gone := ExpiredThreads(db, today, retention);
    assert gone <= db.threads.Keys && (db.threads - gone).Keys == db.threads.Keys - gone;
  }

  lemma SweepIsCascade(self: Key, db: Db, today: int, retention: map<string, int>)
    requires Inv(self, db)
    ensures References(db)
    ensures var after := Cascade(db, ExpiredThreads(db, today, retention));
            after == Apply(self, db, Op.ExpireThreads(today, retention)) && Inv(self, after)
  {
    CascadeKeepsInv(self, db, ExpiredThreads(db, today, retention));
    hide References, ThreadOk, SeqsUnique, OriginsOk, Cascade, ExpiredThreads;
  }

  /** The sweep is by age: if a thread goes, so does every thread of its board created no later that has no
      later expiry; and what goes on one day goes on every later one. */
  lemma SweepIsByAge(before: map<Id, Thread>, after: map<Id, Thread>, after': map<Id, Thread>, today: int, later: int,
                     retention: map<string, int>, young: Id, elder: Id)
    requires Swept(before, after, today, retention) && Swept(before, after', later, retention) && today <= later
    requires young in before && young !in after && elder in before && before[elder].board == before[young].board
    requires before[elder].createdAt <= before[young].createdAt
    requires before[young].expiresAt.Some? ==>
               before[elder].expiresAt.Some? && before[elder].expiresAt.value <= before[young].expiresAt.value
    ensures elder !in after && young !in after' && elder !in after'
  {
  }

  lemma AddPostIs(db: Db, id: Id, thread: Id, content: Content, date: int, origin: Key, originId: Id)
    requires thread in db.threads && ThreadOk(db, thread) && id !in db.posts
    ensures IsAdded(db, AddPost(db, id, thread, content, date, origin, originId), id,
                    Post(thread, db.threads[thread].postCount + 1, content, date, origin, originId))
  {
    NextNumber(db, thread);
  }

  // ---------- The tables as the server changes them ----------

  /** One post more, and its thread's counters with it. */
  ghost predicate IsAdded(before: Db, after: Db, id: Id, p: Post)
  {
    && id !in before.posts && p.thread in before.threads && p.seqNo == before.threads[p.thread].postCount + 1
    && after.posts == before.posts[id := p] && after.removals == before.removals
    && after.threads.Keys == before.threads.Keys
    && (forall t | t in before.threads && t != p.thread :: after.threads[t] == before.threads[t])
    && var a, b := before.threads[p.thread], after.threads[p.thread];
       && b == a.(lastPostAt := b.lastPostAt, postCount := p.seqNo)
       && b.lastPostAt >= a.lastPostAt && b.lastPostAt >= p.createdAt && b.lastPostAt in {a.lastPostAt, p.createdAt}
  }

  class PostStore {
    const self: Key
    var threads: map<Id, Thread>
    var posts: map<Id, Post>
    var removals: map<Id, Removal>

    function Tables(): Db
      reads this
    {
      Db(threads, posts, removals)
    }

    constructor (self: Key)
      ensures this.self == self && Tables() == EmptyDb()
    {
      this.self := self;
      threads, posts, removals := map[], map[], map[];
    }

    /** SELECT COALESCE(MAX(seq), 0) FROM posts WHERE thread_id = thread */
    method MaxSeq(thread: Id) returns (m: nat)
      ensures m == Highest(Seqs(posts, thread))
    {
      m := 0;
      var todo := posts.Keys;
      while todo != {}
        invariant todo <= posts.Keys
        invariant forall id | id in posts && id !in todo && posts[id].thread == thread :: posts[id].seqNo <= m
        invariant m == 0 || m in Seqs(posts, thread)
      {
        var id :| id in todo;
        todo := todo - {id};
        if posts[id].thread == thread && posts[id].seqNo > m {
          m := posts[id].seqNo;
        }
      }
    }

    method Store(id: Id, thread: Id, content: Content, date: int, origin: Key, originId: Id) returns (seqNo: nat)
      requires CanInsert(Tables(), id, thread, origin, originId)
      modifies this`threads, this`posts
      ensures Tables() == AddPost(old(Tables()), id, thread, content, date, origin, originId)
      ensures id in posts && posts[id].seqNo == seqNo
    {
      var highest := MaxSeq(thread);
      seqNo := highest + 1;
      posts := posts[id := Post(thread, seqNo, content, date, origin, originId)];
      var t := threads[thread];
      threads := threads[thread := t.(lastPostAt := Max(t.lastPostAt, date), postCount := t.postCount + 1)];
    }

    /** `insert`: a local post's origin id is its own id. */
    method InsertLocal(id: Id, thread: Id, content: Content, today: int) returns (r: Option<nat>)
      requires Inv(self, Tables())
      modifies this`threads, this`posts
      ensures Tables() == Apply(self, old(Tables()), Op.Insert(id, thread, content, today)) && Inv(self, Tables())
      ensures r.Some? <==> CanInsert(old(Tables()), id, thread, self, id)
      ensures r.Some? ==> thread in threads && r.value == threads[thread].postCount == old(threads)[thread].postCount + 1
      ensures r.Some? ==> IsAdded(old(Tables()), Tables(), id, Post(thread, r.value, content, today, self, id))
      ensures r.None? ==> Tables() == old(Tables())
    {
      hide IsAdded, Highest, Seqs;
      ApplyKeepsInv(self, Tables(), Op.Insert(id, thread, content, today));
      if !CanInsert(Tables(), id, thread, self, id) {
        return None;
      }
      NextNumber(Tables(), thread);
      AddPostIs(Tables(), id, thread, content, today, self, id);
      var seqNo := Store(id, thread, content, today, self, id);
      r := Some(seqNo);
    }

    /** `insert_federated`: a remote post that is already here is left alone. */
    method InsertRemote(localId: Id, thread: Id, content: Content, createdAt: int, origin: Key, originId: Id)
      returns (inserted: bool)
      requires Inv(self, Tables()) && origin != self
      modifies this`threads, this`posts
      ensures var op := Op.InsertFederated(localId, thread, content, createdAt, origin, originId);
              Tables() == Apply(self, old(Tables()), op) && Inv(self, Tables())
      ensures OriginTaken(old(posts), origin, originId) ==> !inserted && Tables() == old(Tables())
      ensures inserted <==> CanInsert(old(Tables()), localId, thread, origin, originId)
      ensures inserted ==> thread in old(threads) && var seqNo := old(threads)[thread].postCount + 1;
                IsAdded(old(Tables()), Tables(), localId, Post(thread, seqNo, content, createdAt, origin, originId))
      ensures !inserted ==> Tables() == old(Tables())
    {
      hide IsAdded, Highest, Seqs;
      ApplyKeepsInv(self, Tables(), Op.InsertFederated(localId, thread, content, createdAt, origin, originId));
      inserted := CanInsert(Tables(), localId, thread, origin, originId);
      if inserted {
        AddPostIs(Tables(), localId, thread, content, createdAt, origin, originId);
        var _ := Store(localId, thread, content, createdAt, origin, originId);
      }
    }

    /** `author_delete`: the tombstone and the scrub commit together or not at all. */
    method DeleteByAuthor(id: Id, reason: seq<byte>, today: int) returns (deleted: bool)
      requires Inv(self, Tables())
      modifies this`posts, this`removals
      ensures Tables() == Apply(self, old(Tables()), Op.AuthorDelete(id, reason, today)) && Inv(self, Tables())
      ensures deleted <==> id in old(posts) && id !in old(removals)
      ensures deleted ==> removals == old(removals)[id := Removal(reason, Global, today)]
      ensures deleted ==> posts == old(posts)[id := old(posts)[id].(content := Content([], [], None, None, None))]
      ensures !deleted ==> posts == old(posts) && removals == old(removals)
    {
      ApplyKeepsInv(self, Tables(), Op.AuthorDelete(id, reason, today));
      deleted := id in posts && id !in removals;
      if deleted {
        removals := removals[id := Removal(reason, Global, today)];
        posts := posts[id := posts[id].(content := SCRUBBED)];
      }
    }

    /** `local_id_for_origin`, then `post_removals::insert`: a second removal of one post is a no-op. */
    method RemoveCopy(origin: Key, originId: Id, reason: seq<byte>, removedAt: int) returns (inserted: bool)
      requires Inv(self, Tables()) && origin != self
      modifies this`removals
      ensures Tables() == Apply(self, old(Tables()), Op.RemoveByOrigin(origin, originId, reason, removedAt))
      ensures Inv(self, Tables())
      ensures forall id | IsLocalCopy(posts, id, origin, originId) :: id in removals
      ensures forall id | IsLocalCopy(posts, id, origin, originId) && id !in old(removals) ::
                inserted && removals == old(removals)[id := Removal(reason, Global, removedAt)]
      ensures inserted ==> exists id :: IsLocalCopy(posts, id, origin, originId) && id !in old(removals)
      ensures !inserted ==> removals == old(removals)
    {
      hide Apply, Inv;
      ghost var op := Op.RemoveByOrigin(origin, originId, reason, removedAt);
      ApplyKeepsInv(self, Tables(), op);
      inserted := false;
      if id :| id in posts && IsLocalCopy(posts, id, origin, originId) {
        RemovalIs(self, Tables(), op, id);
        if id !in removals {
          removals := removals[id := Removal(reason, Global, removedAt)];
          inserted := true;
        }
      } else {
        RemovalOfNone(self, Tables(), op);
      }
    }

    /** `create`: a thread of this server's own, dated today, with no posts yet. */
    method Create(id: Id, board: string, title: seq<byte>, expiresAt: Option<int>, today: int) returns (ok: bool)
      requires Inv(self, Tables())
      modifies this`threads
      ensures Tables() == Apply(self, old(Tables()), Op.CreateThread(id, board, title, expiresAt, today))
      ensures Inv(self, Tables()) && (ok <==> id !in old(threads)) && (!ok ==> threads == old(threads))
      ensures ok ==> threads == old(threads)[id := Thread(board, title, today, expiresAt, today, 0, self)]
    {
      ApplyKeepsInv(self, Tables(), Op.CreateThread(id, board, title, expiresAt, today));
      ok := id !in threads;
      if ok {
        threads := threads[id := Thread(board, title, today, expiresAt, today, 0, self)];
      }
    }

    method EnsureForFederation(id: Id, board: string, title: seq<byte>, createdAt: int, origin: Key, today: int)
      requires Inv(self, Tables())
      modifies this`threads
      ensures Tables() == Apply(self, old(Tables()), Op.EnsureThread(id, board, title, createdAt, origin, today))
      ensures Inv(self, Tables()) && id in threads && (id in old(threads) ==> threads == old(threads))
      ensures id !in old(threads) ==>
                threads == old(threads)[id := Thread(board, title, createdAt, None, today, 0, origin)]
    {
      ApplyKeepsInv(self, Tables(), Op.EnsureThread(id, board, title, createdAt, origin, today));
      if id !in threads {
        threads := threads[id := Thread(board, title, createdAt, None, today, 0, origin)];
      }
    }

    /** The retention sweep over threads, with the cascade the foreign keys make. */
    method DeleteExpired(today: int, retention: map<string, int>) returns (deleted: nat)
      requires Inv(self, Tables())
      modifies this
      ensures Tables() == Apply(self, old(Tables()), Op.ExpireThreads(today, retention)) && Inv(self, Tables())
      ensures deleted == |ExpiredThreads(old(Tables()), today, retention)|
      ensures Swept(old(threads), threads, today, retention) && deleted == |old(threads)| - |threads|
      ensures forall t | t in threads :: !Expired(threads[t], today, retention)
      ensures Followed(old(Tables()), Tables())
    {
      hide Apply, Inv, Swept, Followed, Cascade, ExpiredThreads, Expired, References;
      SweepIsCascade(self, Tables(), today, retention);
      SweepIs(Tables(), today, retention);
      var gone := ExpiredThreads(Tables(), today, retention);
      deleted := |gone|;
      DropThreads(gone);
    }

    method DropThreads(gone: set<Id>)
      modifies this
      ensures Tables() == Cascade(old(Tables()), gone)
    {
      threads := threads - gone;
      posts := map id | id in posts && posts[id].thread !in gone :: posts[id];
      removals := map id | id in removals && id in posts :: removals[id];
    }
  }
}
