/** A run of two servers that ends with a removal processed: what `DeletionIsSafe` speaks of happens. */
module RemovalRun {
  import opened Bytes
  import opened Listing
  import opened Paging
  import opened Posts
  import R = Replication

  /** One thread with one post, pulled by the peer, then deleted by its author on some other day. */
  datatype Scene = Scene(st: R.Setting, thread: Id, title: seq<byte>, id: Id, localId: Id, content: Content,
                         reason: seq<byte>, today: int, deletedOn: int)
  {
    predicate Valid() { st.Valid() && st.trimmedChars(content.body) >= R.MIN_BODY_CHARS }

    function Row(): RowKey { RowKey(today, id) }

    function RemovalRow(): RowKey { RowKey(deletedOn, id) }

    function RemovalEvent(): R.RemovalEvent { R.RemovalEvent(id, reason, deletedOn) }

    function AtOrigin(): Post { Post(thread, 1, content, today, st.origin, id) }

    /** A peer keeps neither the proof of work nor the vouch of what it pulls. */
    function Pulled(): Content { Content(content.body, [], content.pubkey, content.signature, None) }

    function AtPeer(): Post { Post(thread, 1, Pulled(), today, st.origin, id) }

    function OneThread(postCount: nat): Thread { Thread("b", title, today, None, today, postCount, st.origin) }

    function Publish(): seq<R.Step>
    {
      [R.AtOrigin(CreateThread(thread, "b", title, None, today)), R.AtOrigin(Op.Insert(id, thread, content, today))]
    }

    function Pull(): seq<R.Step>
    {
      [R.QueryPosts([Row()]), R.QueryRemovals([]), R.ApplyPost(R.Stored(localId, today)), R.SaveCursors]
    }

    function Remove(): seq<R.Step>
    {
      [R.AtOrigin(AuthorDelete(id, reason, deletedOn)), R.QueryPosts([]), R.QueryRemovals([RemovalRow()]),
       R.ApplyRemoval(true)]
    }

    function Steps(): seq<R.Step> { Publish() + (Pull() + Remove()) }

    /** The same, but the removal's ingest fails, and the pull goes on to save its cursors. */
    function FailingSteps(): seq<R.Step>
    {
      Publish() + (Pull() + (Remove()[..3] + [R.ApplyRemoval(false), R.SaveCursors]))
    }
  }

  lemma ExecCons(st: R.Setting, w: R.World, step: R.Step, rest: seq<R.Step>)
    ensures R.Exec(st, w, [step] + rest) == R.Exec(st, R.Next(st, w, step), rest)
  {
    hide R.Next;
    assert ([step] + rest)[1..] == rest;
  }

  lemma ExecTwo(st: R.Setting, w: R.World, a: R.Step, b: R.Step)
    ensures R.Exec(st, w, [a, b]) == R.Next(st, R.Next(st, w, a), b)
  {
    hide R.Next;
    assert [a, b] == [a] + ([b] + []);
    ExecCons(st, w, a, [b] + []);
    ExecCons(st, R.Next(st, w, a), b, []);
  }

  lemma ExecFour(st: R.Setting, w: R.World, a: R.Step, b: R.Step, c: R.Step, d: R.Step)
    ensures R.Exec(st, w, [a, b, c, d]) == R.Next(st, R.Next(st, R.Next(st, R.Next(st, w, a), b), c), d)
  {
    hide R.Next, R.Exec;
    assert [a, b, c, d] == [a, b] + [c, d];
    R.ExecConcat(st, w, [a, b], [c, d]);
    ExecTwo(st, w, a, b);
    ExecTwo(st, R.Exec(st, w, [a, b]), c, d);
  }

  function Published(sc: Scene): Db { Db(map[sc.thread := sc.OneThread(1)], map[sc.id := sc.AtOrigin()], map[]) }

  function PeerHas(sc: Scene): Db { Db(map[sc.thread := sc.OneThread(1)], map[sc.localId := sc.AtPeer()], map[]) }

  lemma FirstPost(self: Key, db: Db, id: Id, thread: Id, content: Content, date: int, origin: Key, originId: Id)
    requires db.posts == map[] && thread in db.threads && db.threads[thread].lastPostAt == date
    requires db.threads[thread].postCount == 0
    ensures CanInsert(db, id, thread, origin, originId)
    ensures AddPost(db, id, thread, content, date, origin, originId) ==
            Db(db.threads[thread := db.threads[thread].(postCount := 1)],
               map[id := Post(thread, 1, content, date, origin, originId)], db.removals)
  {
    assert Seqs(db.posts, thread) == {};
  }

  lemma Publishes(sc: Scene)
    requires sc.Valid()
    ensures R.Exec(sc.st, R.Start(None), sc.Publish()) == R.Start(None).(a := Published(sc), minted := {sc.id})
  {
    hide AddPost;
    var w := R.Start(None);
    ExecTwo(sc.st, w, sc.Publish()[0], sc.Publish()[1]);
    var db := EmptyDb().(threads := map[sc.thread := sc.OneThread(0)]);
    assert R.Next(sc.st, w, sc.Publish()[0]).a == db;
    FirstPost(sc.st.origin, db, sc.id, sc.thread, sc.content, sc.today, sc.st.origin, sc.id);
  }

  lemma OneRow(table: set<RowKey>, k: RowKey)
    requires table == {k}
    ensures IsPage(Ascending, table, None, EVENTS_PAGE_LIMIT, [k])
    ensures IsPage(Ascending, table, Some(k), EVENTS_PAGE_LIMIT, [])
  {
    BeforeIrreflexive(Ascending, k);
  }

  lemma NoRow(table: set<RowKey>, cursor: Option<RowKey>)
    requires table == {}
    ensures IsPage(Ascending, table, cursor, EVENTS_PAGE_LIMIT, [])
  {
  }

  lemma PostRow(sc: Scene, db: Db)
    requires db.posts.Keys == {sc.id} && db.posts[sc.id].origin == sc.st.origin && db.posts[sc.id].createdAt == sc.today
    ensures R.PostKeys(sc.st.origin, db) == {sc.Row()}
  {
    assert sc.Row() in R.PostKeys(sc.st.origin, db);
  }

  function Event(sc: Scene): R.PostEvent
  {
    R.PostEvent(sc.thread, "b", sc.title, sc.st.origin, sc.id, sc.content.body, sc.content.pubkey, sc.content.signature,
                sc.today)
  }

  lemma Queries(sc: Scene, w: R.World)
    requires w.a == Published(sc) && w.pull == R.Idle && w.postCursor == None && w.removalCursor == None
    ensures R.Next(sc.st, R.Next(sc.st, w, sc.Pull()[0]), sc.Pull()[1]) ==
            w.(pull := R.Applying([Event(sc)], [], Some(sc.Row()), None))
  {
    PostRow(sc, w.a);
    OneRow(R.PostKeys(sc.st.origin, w.a), sc.Row());
    NoRow(R.RemovalKeys(sc.st.origin, w.a), None);
    hide IsPage, R.PostKeys, R.RemovalKeys;
    assert R.EventsFor(w.a, [sc.Row()]) == [Event(sc)];
    assert R.RemovalEventsFor(w.a, []) == [];
  }

  lemma Stores(sc: Scene, w: R.World)
    requires sc.Valid() && w.b == EmptyDb() && w.pull == R.Applying([Event(sc)], [], Some(sc.Row()), None)
    ensures R.Next(sc.st, R.Next(sc.st, w, sc.Pull()[2]), sc.Pull()[3]) ==
            w.(b := PeerHas(sc), pull := R.Idle, postCursor := Some(sc.Row()))
  {
    hide AddPost;
    var db := EmptyDb().(threads := map[sc.thread := sc.OneThread(0)]);
    FirstPost(sc.st.peer, db, sc.localId, sc.thread, sc.Pulled(), sc.today, sc.st.origin, sc.id);
    assert R.Ingest(sc.st, w.b, Event(sc), R.Stored(sc.localId, sc.today)) == PeerHas(sc);
    hide R.Ingest;
  }

  lemma Deletes(sc: Scene, w: R.World)
    requires w.a == Published(sc) && w.pull == R.Idle && w.postCursor == Some(sc.Row()) && w.removalCursor == None
    ensures var t := R.Next(sc.st, R.Next(sc.st, R.Next(sc.st, w, sc.Remove()[0]), sc.Remove()[1]), sc.Remove()[2]);
            && t.pull == R.Applying([], [sc.RemovalEvent()], None, Some(sc.RemovalRow()))
            && t.b == w.b && t.processed == w.processed
  {
    var u := R.Next(sc.st, w, sc.Remove()[0]);
    assert u == w.(a := u.a) && u.a.posts.Keys == {sc.id};
    assert u.a.removals == map[sc.id := Removal(sc.reason, Global, sc.deletedOn)];
    PostRow(sc, u.a);
    OneRow(R.PostKeys(sc.st.origin, u.a), sc.Row());
    assert sc.RemovalRow() in R.RemovalKeys(sc.st.origin, u.a);
    assert R.RemovalKeys(sc.st.origin, u.a) == {sc.RemovalRow()};
    OneRow(R.RemovalKeys(sc.st.origin, u.a), sc.RemovalRow());
    hide IsPage, R.PostKeys, R.RemovalKeys;
    assert R.EventsFor(u.a, []) == [];
    assert R.RemovalEventsFor(u.a, [sc.RemovalRow()]) == [sc.RemovalEvent()];
  }

  lemma Applies(sc: Scene, w: R.World)
    requires w.b == PeerHas(sc) && w.processed == {}
    requires w.pull == R.Applying([], [sc.RemovalEvent()], None, Some(sc.RemovalRow()))
    ensures var t := R.Next(sc.st, w, sc.Remove()[3]);
            && t.processed == {sc.id}
            && t.b == PeerHas(sc).(removals := map[sc.localId := Removal(sc.reason, Global, sc.deletedOn)])
  {
    assert IsLocalCopy(w.b.posts, sc.localId, sc.st.origin, sc.id);
  }

  lemma UpToTheRemoval(sc: Scene)
    requires sc.Valid()
    ensures var w := R.Exec(sc.st, R.Exec(sc.st, R.Start(None), sc.Publish()), sc.Pull());
            && w.a == Published(sc) && w.b == PeerHas(sc) && w.pull == R.Idle && w.postCursor == Some(sc.Row())
            && w.removalCursor == None && w.processed == {}
  {
    hide R.Exec, R.Next;
    Publishes(sc);
    var w1 := R.Exec(sc.st, R.Start(None), sc.Publish());
    ExecFour(sc.st, w1, sc.Pull()[0], sc.Pull()[1], sc.Pull()[2], sc.Pull()[3]);
    Queries(sc, w1);
    Stores(sc, R.Next(sc.st, R.Next(sc.st, w1, sc.Pull()[0]), sc.Pull()[1]));
  }

  /** From two empty servers: the peer holds a copy of the post with its body, has processed its removal
      and, as `DeletionIsSafe` says it must, shows the tombstone instead, then and ever after. */
  lemma RemovalIsProcessed(sc: Scene, after: seq<R.Step>)
    requires sc.Valid()
    ensures var t := R.Exec(sc.st, R.Start(None), sc.Steps());
            && t.processed == {sc.id} && sc.localId in t.b.posts && t.b.posts[sc.localId].content.body == sc.content.body
            && R.ShowsOnlyTombstones(sc.st, sc.st.peer, R.Exec(sc.st, t, after).b, sc.id)
  {
    hide R.Exec, R.Next, Scene.Publish, Scene.Pull, Scene.Remove, R.ShowsOnlyTombstones;
    R.DeletionIsSafe(sc.st, None, sc.Steps(), after, sc.id) by { SceneEnds(sc); }
    SceneEnds(sc);
  }

  lemma SceneEnds(sc: Scene)
    requires sc.Valid()
    ensures var t := R.Exec(sc.st, R.Start(None), sc.Steps());
            t.processed == {sc.id} && sc.localId in t.b.posts && t.b.posts[sc.localId].content.body == sc.content.body
  {
    hide R.Exec, R.Next;
    UpToTheRemoval(sc);
    R.ExecConcat(sc.st, R.Start(None), sc.Publish(), sc.Pull() + sc.Remove());
    var w1 := R.Exec(sc.st, R.Start(None), sc.Publish());
    R.ExecConcat(sc.st, w1, sc.Pull(), sc.Remove());
    var w2 := R.Exec(sc.st, w1, sc.Pull());
    ExecFour(sc.st, w2, sc.Remove()[0], sc.Remove()[1], sc.Remove()[2], sc.Remove()[3]);
    Deletes(sc, w2);
    Applies(sc, R.Next(sc.st, R.Next(sc.st, R.Next(sc.st, w2, sc.Remove()[0]), sc.Remove()[1]), sc.Remove()[2]));
  }

  lemma FailsAndGoesOn(sc: Scene, w: R.World)
    requires w.b == PeerHas(sc) && w.processed == {}
    requires w.pull == R.Applying([], [sc.RemovalEvent()], None, Some(sc.RemovalRow()))
    ensures var t := R.Next(sc.st, R.Next(sc.st, w, R.ApplyRemoval(false)), R.SaveCursors);
            t.b == PeerHas(sc) && t.processed == {} && t.pull == R.Idle && t.removalCursor == Some(sc.RemovalRow())
  {
  }

  lemma FailingSceneEnds(sc: Scene)
    requires sc.Valid()
    ensures var t := R.Exec(sc.st, R.Start(None), sc.FailingSteps());
            t.b == PeerHas(sc) && t.processed == {} && t.pull == R.Idle && t.removalCursor == Some(sc.RemovalRow())
  {
    hide R.Exec, R.Next, Scene.Publish, Scene.Pull;
    var w := R.Start(None);
    var removes, ends := sc.Remove()[..3], [R.ApplyRemoval(false), R.SaveCursors];
    UpToTheRemoval(sc);
    R.ExecConcat(sc.st, w, sc.Publish(), sc.Pull() + (removes + ends));
    var w1 := R.Exec(sc.st, w, sc.Publish());
    R.ExecConcat(sc.st, w1, sc.Pull(), removes + ends);
    var w2 := R.Exec(sc.st, w1, sc.Pull());
    R.ExecConcat(sc.st, w2, removes, ends);
    Deletes(sc, w2);
    assert removes == [sc.Remove()[0], sc.Remove()[1]] + [sc.Remove()[2]];
    R.ExecConcat(sc.st, w2, [sc.Remove()[0], sc.Remove()[1]], [sc.Remove()[2]]);
    ExecTwo(sc.st, w2, sc.Remove()[0], sc.Remove()[1]);
    ExecCons(sc.st, R.Exec(sc.st, w2, [sc.Remove()[0], sc.Remove()[1]]), sc.Remove()[2], []);
    NothingMore(sc.st, R.Next(sc.st, R.Exec(sc.st, w2, [sc.Remove()[0], sc.Remove()[1]]), sc.Remove()[2]));
    assert [sc.Remove()[2]] + [] == [sc.Remove()[2]];
    var w3 := R.Exec(sc.st, w2, removes);
    FailsAndGoesOn(sc, w3);
    ExecTwo(sc.st, w3, R.ApplyRemoval(false), R.SaveCursors);
  }

  lemma NothingMore(st: R.Setting, w: R.World)
    ensures R.Exec(st, w, []) == w
  {
  }

  /** From two empty servers, a run in which the removal's ingest fails once: the peer goes on showing the
      body its author has deleted, whatever names it has for its peers, and no page of any later pull
      offers the removal again. */
  lemma FailedRemovalIsNotRetried(sc: Scene, sv: Serving, view: View, after: seq<R.Step>)
    requires sc.Valid()
    ensures var t := R.Exec(sc.st, R.Start(None), sc.FailingSteps());
            && sc.localId in t.b.posts
            && (IsShown(sc.st.peer, sv, t.b, sc.localId, view) ==> view.body == sc.content.body)
            && forall i | 0 <= i < |after| && after[i].QueryRemovals? &&
                          R.Enabled(sc.st, R.Exec(sc.st, t, after[..i]), after[i]) ::
                 sc.RemovalRow() !in after[i].page
  {
    FailingSceneEnds(sc);
    hide R.Exec, R.Enabled, Scene.FailingSteps;
    BeforeIrreflexive(Ascending, sc.RemovalRow());
    R.PassedIsNeverOffered(sc.st, R.Exec(sc.st, R.Start(None), sc.FailingSteps()), after, sc.RemovalRow());
  }
}
