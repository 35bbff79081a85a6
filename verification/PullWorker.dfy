/** The pull worker's handling of one answer, as the loops it is: every post event, then every removal
    event, then the cursors; and the proof that it is the `Replication` machine when nothing else runs
    in between. */
module PullWorker {
  import opened Bytes
  import opened Paging
  import opened Posts
  import R = Replication

  datatype Answer = Answer(posts: seq<R.PostEvent>, removals: seq<R.RemovalEvent>, nextPost: Option<RowKey>,
                           nextRemoval: Option<RowKey>)

  datatype Stats = Stats(accepted: nat, rejected: nat, removed: nat)

  /** The minimum-length rule comes before whatever else moderation decides. */
  function Ruled(st: R.Setting, e: R.PostEvent, v: R.Verdict): R.Verdict
  {
    if st.trimmedChars(e.body) < R.MIN_BODY_CHARS then R.Rejected else v
  }

  ghost function AfterPosts(st: R.Setting, b: Db, posts: seq<R.PostEvent>, verdicts: seq<R.Verdict>): Db
    requires |verdicts| == |posts|
  {
    if |posts| == 0 then b
    else var n := |posts| - 1;
         R.Ingest(st, AfterPosts(st, b, posts[..n], verdicts[..n]), posts[n], Ruled(st, posts[n], verdicts[n]))
  }

  ghost function AfterRemoval(st: R.Setting, b: Db, r: R.RemovalEvent, ok: bool): Db
  {
    if ok then Apply(st.peer, b, RemoveByOrigin(st.origin, r.postId, r.reason, r.removedAt)) else b
  }

  ghost function AfterRemovals(st: R.Setting, b: Db, removals: seq<R.RemovalEvent>, oks: seq<bool>): Db
    requires |oks| == |removals|
  {
    if |removals| == 0 then b
    else var n := |removals| - 1; AfterRemoval(st, AfterRemovals(st, b, removals[..n], oks[..n]), removals[n], oks[n])
  }

  class Worker {
    const store: PostStore
    var postCursor: Option<RowKey>
    var removalCursor: Option<RowKey>

    constructor (store: PostStore, cursor: Option<RowKey>)
      ensures this.store == store && postCursor == cursor && removalCursor == cursor
    {
      this.store := store;
      postCursor, removalCursor := cursor, cursor;
    }

    /** `apply_post_event`: true if and only if a row was added. */
    method ApplyPostEvent(st: R.Setting, e: R.PostEvent, verdict: R.Verdict) returns (accepted: bool)
      requires st.Valid() && store.self == st.peer && Posts.Inv(st.peer, store.Tables())
      modifies store
      ensures store.Tables() == R.Ingest(st, old(store.Tables()), e, Ruled(st, e, verdict))
      ensures Posts.Inv(st.peer, store.Tables())
      ensures accepted ==> OriginTaken(store.posts, st.origin, e.postId)
      ensures accepted ==> !OriginTaken(old(store.posts), st.origin, e.postId)
      ensures !accepted ==> store.posts == old(store.posts)
      ensures accepted ==>
                && verdict.Stored? && st.trimmedChars(e.body) >= 3 && verdict.localId !in old(store.posts)
                && e.thread in store.threads && var content := Content(e.body, [], e.pubkey, e.signature, None);
                   var p := Post(e.thread, store.threads[e.thread].postCount, content, e.createdAt, st.origin, e.postId);
                   store.posts == old(store.posts)[verdict.localId := p]
      ensures verdict.Stored? && st.trimmedChars(e.body) >= 3 && verdict.localId !in old(store.posts) ==>
                (accepted <==> !OriginTaken(old(store.posts), st.origin, e.postId))
      ensures verdict.Rejected? || st.trimmedChars(e.body) < 3 ==> store.Tables() == old(store.Tables())
      ensures store.removals == old(store.removals) && |store.posts| == |old(store.posts)| + if accepted then 1 else 0
    {
      if st.trimmedChars(e.body) < R.MIN_BODY_CHARS || verdict.Rejected? {
        return false;
      }
      store.EnsureForFederation(e.thread, e.board, e.title, e.createdAt, e.threadOrigin, verdict.today);
      if verdict.Failed? {
        return false;
      }
      var content := Content(e.body, [], e.pubkey, e.signature, None);
      accepted := store.InsertRemote(verdict.localId, e.thread, content, e.createdAt, st.origin, e.postId);
      if accepted {
        assert store.posts[verdict.localId].origin == st.origin && store.posts[verdict.localId].originId == e.postId;
      }
    }

    /** The part of `run_once` that follows a decoded answer. */
    method Run(st: R.Setting, answer: Answer, verdicts: seq<R.Verdict>, oks: seq<bool>) returns (stats: Stats)
      requires st.Valid() && store.self == st.peer && Posts.Inv(st.peer, store.Tables())
      requires |verdicts| == |answer.posts| && |oks| == |answer.removals|
      modifies this, store
      ensures var posted := AfterPosts(st, old(store.Tables()), answer.posts, verdicts);
              store.Tables() == AfterRemovals(st, posted, answer.removals, oks)
      ensures Posts.Inv(st.peer, store.Tables())
      ensures postCursor == (if answer.nextPost.Some? then answer.nextPost else old(postCursor))
      ensures removalCursor == (if answer.nextRemoval.Some? then answer.nextRemoval else old(removalCursor))
      ensures stats.accepted + stats.rejected == |answer.posts|
      ensures stats.accepted == |store.posts| - |old(store.posts)|
      ensures stats.removed == |store.removals| - |old(store.removals)|
    {
      hide Posts.Inv, AfterPosts, AfterRemovals;
      var accepted := ApplyPosts(st, answer.posts, verdicts);
      var removed := ApplyRemovals(st, answer.removals, oks);
      stats := Stats(accepted, |answer.posts| - accepted, removed);
      postCursor := if answer.nextPost.Some? then answer.nextPost else postCursor;
      removalCursor := if answer.nextRemoval.Some? then answer.nextRemoval else removalCursor;
    }

    method ApplyPosts(st: R.Setting, posts: seq<R.PostEvent>, verdicts: seq<R.Verdict>) returns (accepted: nat)
      requires st.Valid() && store.self == st.peer && Posts.Inv(st.peer, store.Tables()) && |verdicts| == |posts|
      modifies store
      ensures store.Tables() == AfterPosts(st, old(store.Tables()), posts, verdicts)
      ensures Posts.Inv(st.peer, store.Tables()) && store.removals == old(store.removals)
      ensures accepted <= |posts| && |store.posts| == |old(store.posts)| + accepted
    {
      hide Posts.Inv, Apply, R.Ingest, Ruled, OriginTaken;
      accepted := 0;
      for i := 0 to |posts|
        invariant store.Tables() == AfterPosts(st, old(store.Tables()), posts[..i], verdicts[..i])
        invariant Posts.Inv(st.peer, store.Tables()) && store.removals == old(store.removals)
        invariant accepted <= i && |store.posts| == |old(store.posts)| + accepted
      {
        var added := ApplyPostEvent(st, posts[i], verdicts[i]);
        if added {
          accepted := accepted + 1;
        }
        assert posts[..i + 1][..i] == posts[..i] && verdicts[..i + 1][..i] == verdicts[..i];
      }
      assert posts[..|posts|] == posts && verdicts[..|verdicts|] == verdicts;
    }

    method ApplyRemovals(st: R.Setting, removals: seq<R.RemovalEvent>, oks: seq<bool>) returns (removed: nat)
      requires st.Valid() && store.self == st.peer && Posts.Inv(st.peer, store.Tables()) && |oks| == |removals|
      modifies store
      ensures store.Tables() == AfterRemovals(st, old(store.Tables()), removals, oks)
      ensures Posts.Inv(st.peer, store.Tables())
      ensures |store.removals| == |old(store.removals)| + removed && store.posts == old(store.posts)
    {
      hide Posts.Inv, Apply, AfterRemoval, IsLocalCopy;
      removed := 0;
      for i := 0 to |removals|
        invariant store.Tables() == AfterRemovals(st, old(store.Tables()), removals[..i], oks[..i])
        invariant Posts.Inv(st.peer, store.Tables()) && store.posts == old(store.posts)
        invariant |store.removals| == |old(store.removals)| + removed
      {
        var applied := ApplyRemovalEvent(st, removals[i], oks[i]);
        if applied {
          removed := removed + 1;
        }
        assert removals[..i + 1][..i] == removals[..i] && oks[..i + 1][..i] == oks[..i];
      }
      assert removals[..|removals|] == removals && oks[..|oks|] == oks;
    }

    method ApplyRemovalEvent(st: R.Setting, r: R.RemovalEvent, ok: bool) returns (applied: bool)
      requires st.Valid() && store.self == st.peer && Posts.Inv(st.peer, store.Tables())
      modifies store
      ensures store.Tables() == AfterRemoval(st, old(store.Tables()), r, ok) && Posts.Inv(st.peer, store.Tables())
      ensures !applied ==> store.Tables() == old(store.Tables())
      ensures ok ==> forall id | IsLocalCopy(store.posts, id, st.origin, r.postId) :: id in store.removals
      ensures applied ==> exists id ::
                && IsLocalCopy(store.posts, id, st.origin, r.postId) && id !in old(store.removals)
                && store.removals == old(store.removals)[id := Removal(r.reason, Global, r.removedAt)]
      ensures store.posts == old(store.posts) && store.threads == old(store.threads)
      ensures |store.removals| == |old(store.removals)| + if applied then 1 else 0
    {
      if !ok {
        return false;
      }
      applied := store.RemoveCopy(st.origin, r.postId, r.reason, r.removedAt);
    }
  }

  // ---------- The loops are the machine ----------

  function PostSteps(st: R.Setting, posts: seq<R.PostEvent>, verdicts: seq<R.Verdict>): seq<R.Step>
    requires |verdicts| == |posts|
  {
    seq(|posts|, i requires 0 <= i < |posts| => R.ApplyPost(Ruled(st, posts[i], verdicts[i])))
  }

  function RemovalSteps(oks: seq<bool>): seq<R.Step>
  {
    seq(|oks|, i requires 0 <= i < |oks| => R.ApplyRemoval(oks[i]))
  }

  lemma {:induction false} ExecSnoc(st: R.Setting, w: R.World, steps: seq<R.Step>, last: R.Step)
    ensures R.Exec(st, w, steps + [last]) == R.Next(st, R.Exec(st, w, steps), last)
    decreases |steps|
  {
    hide R.Next;
    if |steps| > 0 {
      assert (steps + [last])[1..] == steps[1..] + [last];
      ExecSnoc(st, R.Next(st, w, steps[0]), steps[1..], last);
    } else {
      assert steps + [last] == [last] && [last][1..] == [];
    }
  }

  lemma {:induction false} PostsRun(st: R.Setting, w: R.World, posts: seq<R.PostEvent>, rest: seq<R.PostEvent>,
                                    verdicts: seq<R.Verdict>)
    requires w.pull.Applying? && w.pull.posts == posts + rest && |verdicts| == |posts|
    ensures R.Exec(st, w, PostSteps(st, posts, verdicts)) ==
            w.(b := AfterPosts(st, w.b, posts, verdicts), pull := w.pull.(posts := rest))
    decreases |posts|
  {
    if |posts| > 0 {
      var n := |posts| - 1;
      hide R.Ingest;
      assert posts + rest == posts[..n] + ([posts[n]] + rest);
      PostsRun(st, w, posts[..n], [posts[n]] + rest, verdicts[..n]);
      var last := R.ApplyPost(Ruled(st, posts[n], verdicts[n]));
      assert PostSteps(st, posts, verdicts) == PostSteps(st, posts[..n], verdicts[..n]) + [last];
      ExecSnoc(st, w, PostSteps(st, posts[..n], verdicts[..n]), last);
      assert ([posts[n]] + rest)[1..] == rest;
    } else {
      assert posts + rest == rest;
    }
  }

  ghost function Processed(removals: seq<R.RemovalEvent>, oks: seq<bool>): set<Id>
    requires |oks| == |removals|
  {
    set i | 0 <= i < |removals| && oks[i] :: removals[i].postId
  }

  lemma ProcessedSnoc(removals: seq<R.RemovalEvent>, oks: seq<bool>)
    requires |oks| == |removals| > 0
    ensures var n := |removals| - 1;
            Processed(removals, oks) == Processed(removals[..n], oks[..n]) + if oks[n] then {removals[n].postId} else {}
  {
    var n := |removals| - 1;
    forall i | 0 <= i < n && oks[i] ensures removals[i].postId in Processed(removals[..n], oks[..n]) {
      assert removals[..n][i] == removals[i] && oks[..n][i] == oks[i];
    }
  }

  lemma {:induction false} RemovalsRun(st: R.Setting, w: R.World, removals: seq<R.RemovalEvent>,
                                       rest: seq<R.RemovalEvent>, oks: seq<bool>)
    requires w.pull.Applying? && w.pull.posts == [] && w.pull.removals == removals + rest && |oks| == |removals|
    ensures R.Exec(st, w, RemovalSteps(oks)) ==
            w.(b := AfterRemovals(st, w.b, removals, oks), pull := w.pull.(removals := rest),
               processed := w.processed + Processed(removals, oks))
    decreases |removals|
  {
    if |removals| > 0 {
      var n := |removals| - 1;
      hide Apply;
      assert removals + rest == removals[..n] + ([removals[n]] + rest);
      RemovalsRun(st, w, removals[..n], [removals[n]] + rest, oks[..n]);
      var last := R.ApplyRemoval(oks[n]);
      assert RemovalSteps(oks) == RemovalSteps(oks[..n]) + [last];
      ExecSnoc(st, w, RemovalSteps(oks[..n]), last);
      assert ([removals[n]] + rest)[1..] == rest;
      ProcessedSnoc(removals, oks);
    } else {
      assert removals + rest == rest && Processed(removals, oks) == {};
      assert w.processed + {} == w.processed;
    }
  }

  /** What `Worker.Run` leaves is where the machine goes when an answer is applied without a break: the
      same tables, the same cursors, and exactly the removals that were applied counted as processed. */
  lemma LoopsAreTheMachine(st: R.Setting, w: R.World, answer: Answer, verdicts: seq<R.Verdict>, oks: seq<bool>)
    requires w.pull == R.Applying(answer.posts, answer.removals, answer.nextPost, answer.nextRemoval)
    requires |verdicts| == |answer.posts| && |oks| == |answer.removals|
    ensures var t := R.Exec(st, w, PostSteps(st, answer.posts, verdicts) + RemovalSteps(oks) + [R.SaveCursors]);
            && t.b == AfterRemovals(st, AfterPosts(st, w.b, answer.posts, verdicts), answer.removals, oks)
            && t.postCursor == (if answer.nextPost.Some? then answer.nextPost else w.postCursor)
            && t.removalCursor == (if answer.nextRemoval.Some? then answer.nextRemoval else w.removalCursor)
            && t.a == w.a && t.pull.Idle? && t.processed == w.processed + Processed(answer.removals, oks)
  {
    hide Apply, R.Ingest, AfterPosts, AfterRemovals, Processed, PostSteps, RemovalSteps;
    var first, second := PostSteps(st, answer.posts, verdicts), RemovalSteps(oks);
    assert answer.posts + [] == answer.posts && answer.removals + [] == answer.removals;
    ExecSnoc(st, w, first + second, R.SaveCursors);
    R.ExecConcat(st, w, first, second);
    PostsRun(st, w, answer.posts, [], verdicts);
    var u := R.Exec(st, w, first);
    RemovalsRun(st, u, answer.removals, [], oks);
    hide R.Exec;
  }
}
