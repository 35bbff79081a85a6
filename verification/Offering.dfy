/** An author's deletion on its way to the peer: from the deletion on, the peer is given the removal before any
    pull of it comes to the end of the removals. */
module Offering {
  import opened Bytes
  import P = Paging
  import opened Posts
  import opened Replication

  /** The post is no longer here as this server's own: a sweep took its thread. */
  ghost predicate Gone(st: Setting, a: Db, id: Id)
  {
    !(id in a.posts && a.posts[id].origin == st.origin)
  }

  ghost predicate Removed(st: Setting, a: Db, id: Id, reason: seq<byte>, date: int)
  {
    !Gone(st, a, id) && id in a.removals && a.removals[id] == Removal(reason, Global, date)
  }

  /** Whatever cursor a pull is about to save past the removal, the removal is still in its hands. */
  ghost predicate StillInHand(pull: Pull, id: Id, reason: seq<byte>, date: int)
  {
    pull.Applying? && pull.nextRemoval.Some? && !P.After(P.Ascending, pull.nextRemoval, P.RowKey(date, id)) ==>
      RemovalEvent(id, reason, date) in pull.removals
  }

  /** The row can be queried, lies ahead of the peer's cursor, and no pull is about to pass it. */
  ghost predicate Waiting(st: Setting, w: World, id: Id, reason: seq<byte>, date: int)
  {
    && Removed(st, w.a, id, reason, date) && id in w.minted
    && P.After(P.Ascending, w.removalCursor, P.RowKey(date, id)) && StillInHand(w.pull, id, reason, date)
  }

  /** The peer takes the removal up, and applies it or fails to. */
  ghost predicate TakenUp(st: Setting, w: World, step: Step, id: Id, reason: seq<byte>, date: int)
  {
    step.ApplyRemoval? && Enabled(st, w, step) && w.pull.removals[0] == RemovalEvent(id, reason, date)
  }

  ghost predicate WasTakenUp(st: Setting, w: World, steps: seq<Step>, id: Id, reason: seq<byte>, date: int)
    decreases |steps|
  {
    |steps| > 0 &&
    (TakenUp(st, w, steps[0], id, reason, date) ||
     WasTakenUp(st, Next(st, w, steps[0]), steps[1..], id, reason, date))
  }

  ghost predicate Awaits(st: Setting, w: World, id: Id, reason: seq<byte>, date: int)
  {
    (Gone(st, w.a, id) && id in w.minted) || Waiting(st, w, id, reason, date)
  }

  lemma AtOriginStays(st: Setting, a: Db, minted: set<Id>, op: Op, id: Id, reason: seq<byte>, date: int)
    requires id in minted && (op.Insert? ==> op.id !in minted) && FromOthers(st.origin, op)
    ensures Gone(st, a, id) ==> Gone(st, Apply(st.origin, a, op), id)
    ensures Removed(st, a, id, reason, date) ==>
              Gone(st, Apply(st.origin, a, op), id) || Removed(st, Apply(st.origin, a, op), id, reason, date)
  {
    hide Highest;
  }

  lemma IsARow(st: Setting, a: Db, id: Id, reason: seq<byte>, date: int)
    requires Removed(st, a, id, reason, date)
    ensures P.RowKey(date, id) in RemovalKeys(st.origin, a)
  {
  }

  /** A page whose last row is not before this one contains it. */
  lemma PageReaches(table: set<P.RowKey>, cursor: Option<P.RowKey>, page: seq<P.RowKey>, key: P.RowKey)
    requires P.IsPage(P.Ascending, table, cursor, P.EVENTS_PAGE_LIMIT, page)
    requires key in table && P.After(P.Ascending, cursor, key)
    ensures |page| == 0 || P.After(P.Ascending, Some(page[|page| - 1]), key) || key in page
    ensures |page| > 0
  {
    if |page| > 0 { assert page[|page| - 1] in page; }
  }

  lemma QueryHandsItOver(st: Setting, w: World, page: seq<P.RowKey>, id: Id, reason: seq<byte>, date: int)
    requires Waiting(st, w, id, reason, date) && Enabled(st, w, QueryRemovals(page))
    ensures StillInHand(Next(st, w, QueryRemovals(page)).pull, id, reason, date) && |page| > 0
  {
    IsARow(st, w.a, id, reason, date);
    PageReaches(RemovalKeys(st.origin, w.a), w.removalCursor, page, P.RowKey(date, id));
    if P.RowKey(date, id) in page {
      var i :| 0 <= i < |page| && page[i] == P.RowKey(date, id);
      assert page[i] in page && page[i] in RemovalKeys(st.origin, w.a);
      assert RemovalEventsFor(w.a, page)[i] == RemovalEvent(id, reason, date);
    }
    hide P.IsPage;
  }

  lemma AwaitsStep(st: Setting, w: World, step: Step, id: Id, reason: seq<byte>, date: int)
    requires Awaits(st, w, id, reason, date)
    ensures TakenUp(st, w, step, id, reason, date) || Awaits(st, Next(st, w, step), id, reason, date)
  {
    if !Enabled(st, w, step) { return; }
    hide Apply, Ingest, EventsFor, P.IsPage, References, RemovalKeys, P.Before;
    match step
    case AtOrigin(op) => hide Gone, Removed; AtOriginStays(st, w.a, w.minted, op, id, reason, date);
    case QueryRemovals(page) =>
      if Waiting(st, w, id, reason, date) { QueryHandsItOver(st, w, page, id, reason, date); }
    case ApplyRemoval(_) =>
      if w.pull.removals[0] != RemovalEvent(id, reason, date) {
        var event := RemovalEvent(id, reason, date);
        assert event in w.pull.removals ==> event in w.pull.removals[1..];
      }
    case _ =>
  }

  lemma {:induction false} AwaitsRun(st: Setting, w: World, steps: seq<Step>, id: Id, reason: seq<byte>, date: int)
    requires Awaits(st, w, id, reason, date)
    ensures WasTakenUp(st, w, steps, id, reason, date) || Awaits(st, Exec(st, w, steps), id, reason, date)
    decreases |steps|
  {
    if |steps| > 0 {
      AwaitsStep(st, w, steps[0], id, reason, date);
      hide Next, TakenUp, Awaits;
      if !TakenUp(st, w, steps[0], id, reason, date) {
        AwaitsRun(st, Next(st, w, steps[0]), steps[1..], id, reason, date);
      }
    }
  }

  /** An own post that is there and not removed, with no cursor of the peer's, stored or about to be, at or
      past a removal of it today: so it is whenever those cursors are dated before today. */
  ghost predicate CanReachThePeer(st: Setting, w: World, id: Id, today: int)
  {
    && !Gone(st, w.a, id) && id !in w.a.removals && P.After(P.Ascending, w.removalCursor, P.RowKey(today, id))
    && (w.pull.Applying? && w.pull.nextRemoval.Some? ==> P.After(P.Ascending, w.pull.nextRemoval, P.RowKey(today, id)))
  }

  lemma EarlierCursorsAreBehind(st: Setting, w: World, id: Id, today: int)
    requires !Gone(st, w.a, id) && id !in w.a.removals
    requires w.removalCursor.Some? ==> w.removalCursor.value.date < today
    requires w.pull.Applying? && w.pull.nextRemoval.Some? ==> w.pull.nextRemoval.value.date < today
    ensures CanReachThePeer(st, w, id, today)
  {
  }

  /** In every run of the two servers, however long the deletion comes after the post: from the deletion
      on, until the peer takes the removal up or a sweep takes the thread, the removal is a row of the
      origin's, dated the day of the deletion and ahead of the peer's cursor; and a pull whose removals
      come back empty has taken it up before. */
  lemma DeletionIsOffered(st: Setting, cursor: Option<P.RowKey>, before: seq<Step>, id: Id, reason: seq<byte>,
                          today: int, after: seq<Step>)
    requires st.Valid() && CanReachThePeer(st, Exec(st, Start(cursor), before), id, today)
    ensures var w := Next(st, Exec(st, Start(cursor), before), AtOrigin(AuthorDelete(id, reason, today)));
            var t := Exec(st, w, after);
            || WasTakenUp(st, w, after, id, reason, today)
            || Gone(st, t.a, id)
            || (&& id in t.a.removals && t.a.removals[id] == Removal(reason, Global, today)
                && P.RowKey(today, id) in RemovalKeys(st.origin, t.a)
                && P.After(P.Ascending, t.removalCursor, P.RowKey(today, id)) && !Enabled(st, t, QueryRemovals([])))
  {
    hide Exec, Start, Enabled;
    var w0 := Exec(st, Start(cursor), before);
    EmptyInv(st.origin);
    EmptyInv(st.peer);
    StartInv(st, cursor);
    ExecKeepsInv(st, Start(cursor), before);
    DeletionAwaits(st, w0, id, reason, today);
    var w := Next(st, w0, AtOrigin(AuthorDelete(id, reason, today)));
    AwaitsRun(st, w, after, id, reason, today);
    var t := Exec(st, w, after);
    if Waiting(st, t, id, reason, today) { WaitingIsARow(st, t, id, reason, today); }
    hide Next, Waiting, Replication.Inv, CanReachThePeer, WasTakenUp, Gone;
  }

  lemma StartInv(st: Setting, cursor: Option<P.RowKey>)
    requires st.Valid()
    ensures Replication.Inv(st, Start(cursor))
  {
    EmptyInv(st.origin);
    EmptyInv(st.peer);
  }

  lemma DeletionAwaits(st: Setting, w: World, id: Id, reason: seq<byte>, today: int)
    requires Replication.Inv(st, w) && CanReachThePeer(st, w, id, today)
    ensures Awaits(st, Next(st, w, AtOrigin(AuthorDelete(id, reason, today))), id, reason, today)
  {
    hide Posts.Inv, PeerOk, PendingPostsOk, PendingRemovalsOk, OwnRemovalsScrubbed, P.After;
  }

  lemma WaitingIsARow(st: Setting, t: World, id: Id, reason: seq<byte>, today: int)
    requires Waiting(st, t, id, reason, today)
    ensures id in t.a.removals && t.a.removals[id] == Removal(reason, Global, today)
    ensures P.RowKey(today, id) in RemovalKeys(st.origin, t.a)
    ensures P.After(P.Ascending, t.removalCursor, P.RowKey(today, id))
    ensures !Enabled(st, t, QueryRemovals([]))
  {
    IsARow(st, t.a, id, reason, today);
    if Enabled(st, t, QueryRemovals([])) { QueryHandsItOver(st, t, [], id, reason, today); }
  }
}
