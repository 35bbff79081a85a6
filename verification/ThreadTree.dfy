/** The nested rendering of a thread: the children map, the depth-first walk over it, and the proof
    that the cards on the page are the posts, each once, each below its parent. */
module ThreadTree {
  import opened Bytes
  import opened ThreadView

  /** The replies to `parent`, in thread order. */
  function Children(posts: seq<Post>, seqs: set<nat>, parent: nat): seq<nat>
  {
    if |posts| == 0 then []
    else var front, p := posts[..|posts| - 1], posts[|posts| - 1];
         Children(front, seqs, parent) + if ParentSeq(p, seqs) == Some(parent) then [p.seqNo] else []
  }

  function Get(childrenOf: map<nat, seq<nat>>, parent: nat): seq<nat>
  {
    if parent in childrenOf then childrenOf[parent] else []
  }

  /** The map holds every post's children. */
  ghost predicate IsTree(posts: seq<Post>, seqs: set<nat>, childrenOf: map<nat, seq<nat>>)
  {
    forall parent :: Get(childrenOf, parent) == Children(posts, seqs, parent)
  }

  method BuildTree(posts: seq<Post>) returns (childrenOf: map<nat, seq<nat>>)
    ensures IsTree(posts, Seqs(posts), childrenOf)
  {
    var seqs := Seqs(posts);
    childrenOf := map[];
    assert posts[..0] == [] && IsTree([], seqs, childrenOf);
    hide IsTree, Seqs;
    for i := 0 to |posts|
      invariant IsTree(posts[..i], seqs, childrenOf)
    {
      var p := posts[i];
      OneMorePost(posts, i, seqs, childrenOf);
      if p.seqNo != 1 {
        var ref := FirstRef(p.body);
        var parent := 1;
        if ref.Some? && Usable(ref.value, p, seqs) {
          parent := ref.value;
        }
        childrenOf := childrenOf[parent := Get(childrenOf, parent) + [p.seqNo]];
      }
    }
    assert posts[..|posts|] == posts;
  }

  lemma OneMorePost(posts: seq<Post>, i: nat, seqs: set<nat>, childrenOf: map<nat, seq<nat>>)
    requires i < |posts| && IsTree(posts[..i], seqs, childrenOf)
    ensures var up := ParentSeq(posts[i], seqs);
            IsTree(posts[..i + 1], seqs,
                   if up.None? then childrenOf
                   else childrenOf[up.value := Get(childrenOf, up.value) + [posts[i].seqNo]])
  {
    hide ParentSeq;
    assert posts[..i + 1][..i] == posts[..i];
    forall parent: nat ensures Children(posts[..i + 1], seqs, parent) ==
                          Children(posts[..i], seqs, parent) +
                          if ParentSeq(posts[i], seqs) == Some(parent) then [posts[i].seqNo] else []
    {
    }
  }

  lemma {:induction false} ChildrenAre(posts: seq<Post>, seqs: set<nat>, parent: nat, c: nat)
    ensures c in Children(posts, seqs, parent) <==>
            exists i :: 0 <= i < |posts| && posts[i].seqNo == c && ParentSeq(posts[i], seqs) == Some(parent)
  {
    if |posts| > 0 {
      var front := posts[..|posts| - 1];
      ChildrenAre(front, seqs, parent, c);
      if c in Children(front, seqs, parent) {
        var i :| 0 <= i < |front| && front[i].seqNo == c && ParentSeq(front[i], seqs) == Some(parent);
        assert posts[i] == front[i];
      }
      if i :| 0 <= i < |posts| && posts[i].seqNo == c && ParentSeq(posts[i], seqs) == Some(parent) && i < |front| {
        assert front[i] == posts[i];
      }
    }
  }

  /** A post is among the children of its parent, and of nothing else. */
  lemma ChildIffParent(posts: seq<Post>, parent: nat, c: nat)
    requires IsThread(posts)
    ensures c in Children(posts, Seqs(posts), parent) <==> ParentOf(posts, c) == Some(parent)
  {
    ChildrenAre(posts, Seqs(posts), parent, c);
    if c in Seqs(posts) {
      var i :| 0 <= i < |posts| && posts[i].seqNo == c;
      FindIs(posts, i);
    }
  }

  lemma ChildrenHaveParent(posts: seq<Post>, parent: nat)
    requires IsThread(posts)
    ensures Replies(posts, parent, Children(posts, Seqs(posts), parent))
  {
    forall c | c in Children(posts, Seqs(posts), parent) ensures ParentOf(posts, c) == Some(parent) {
      ChildIffParent(posts, parent, c);
    }
  }

  lemma {:induction false} ChildrenDistinct(posts: seq<Post>, seqs: set<nat>, parent: nat)
    requires DistinctSeqs(posts)
    ensures NoRepeats(Children(posts, seqs, parent))
  {
    if |posts| > 0 {
      var front := posts[..|posts| - 1];
      ChildrenDistinct(front, seqs, parent);
      var last := posts[|posts| - 1].seqNo;
      ChildrenAre(front, seqs, parent, last);
      forall i | 0 <= i < |front| ensures front[i].seqNo != last {
        assert front[i] == posts[i];
      }
    }
  }

  // ---------- The walk ----------

  datatype Card = Card(seqNo: nat, depth: nat)

  function Min(a: nat, b: nat): nat { if a < b then a else b }

  function Top(posts: seq<Post>): (m: nat)
    ensures forall s | s in Seqs(posts) :: s <= m
  {
    if |posts| == 0 then 0
    else
      SeqsOfPrefix(posts, |posts| - 1);
      assert posts[..|posts| - 1 + 1] == posts;
      var m, s := Top(posts[..|posts| - 1]), posts[|posts| - 1].seqNo;
      if m < s then s else m
  }

  /** Every one of these posts replies to `parent`. */
  ghost predicate Replies(posts: seq<Post>, parent: nat, cs: seq<nat>)
  {
    forall c | c in cs :: ParentOf(posts, c) == Some(parent)
  }

  function Emit(posts: seq<Post>, seqNo: nat, depth: nat): seq<Card>
    requires IsThread(posts) && seqNo in Seqs(posts)
    decreases Top(posts) + 1 - seqNo, 1, 0
  {
    ChildrenHaveParent(posts, seqNo);
    [Card(seqNo, depth)] + EmitAll(posts, seqNo, Children(posts, Seqs(posts), seqNo), Min(depth + 1, MAX_DEPTH))
  }

  function EmitAll(posts: seq<Post>, parent: nat, cs: seq<nat>, depth: nat): seq<Card>
    requires IsThread(posts) && Known(posts, parent) && Replies(posts, parent, cs)
    decreases Top(posts) + 1 - parent, 0, |cs|
  {
    if |cs| == 0 then []
    else
      var c := cs[|cs| - 1];
      ParentIsEarlier(posts, c);
      EmitAll(posts, parent, cs[..|cs| - 1], depth) + Emit(posts, c, depth)
  }

  function OpCard(posts: seq<Post>): seq<Card> { if 1 in Seqs(posts) then [Card(1, 0)] else [] }

  function Rendered(posts: seq<Post>): seq<Card>
    requires IsThread(posts)
  {
    ChildrenHaveParent(posts, 1);
    OpCard(posts) + EmitAll(posts, 1, Children(posts, Seqs(posts), 1), 0)
  }

  lemma Appended(a: seq<Card>, b: seq<Card>, c: seq<Card>)
    ensures a + b + c == a + (b + c)
  {
  }

  lemma NoRepliesNoCards(posts: seq<Post>, parent: nat, cs: seq<nat>, depth: nat)
    requires IsThread(posts) && Known(posts, parent)
    ensures cs[..0] == [] && Replies(posts, parent, cs[..0]) && EmitAll(posts, parent, cs[..0], depth) == []
  {
  }

  /** One more reply in the loop adds one more subtree. */
  lemma EmitOneMore(posts: seq<Post>, parent: nat, cs: seq<nat>, i: nat, depth: nat)
    requires IsThread(posts) && Known(posts, parent) && Replies(posts, parent, cs)
    requires i < |cs|
    ensures cs[i] in cs && parent < cs[i] && cs[i] in Seqs(posts)
    ensures Replies(posts, parent, cs[..i]) && Replies(posts, parent, cs[..i + 1])
    ensures EmitAll(posts, parent, cs[..i + 1], depth) ==
            EmitAll(posts, parent, cs[..i], depth) + Emit(posts, cs[i], depth)
  {
    hide Emit;
    ParentIsEarlier(posts, cs[i]);
    assert cs[..i + 1][..i] == cs[..i];
  }

  lemma EmitIsHeadAndReplies(posts: seq<Post>, seqNo: nat, depth: nat, cs: seq<nat>)
    requires IsThread(posts) && seqNo in Seqs(posts) && cs == Children(posts, Seqs(posts), seqNo)
    ensures Replies(posts, seqNo, cs)
    ensures Emit(posts, seqNo, depth) == [Card(seqNo, depth)] + EmitAll(posts, seqNo, cs, Min(depth + 1, MAX_DEPTH))
  {
    ChildrenHaveParent(posts, seqNo);
  }

  /** The page's post list, appended to card by card. */
  class PostList {
    var cards: seq<Card>

    constructor ()
      ensures cards == []
    {
      cards := [];
    }

    /** `renderSubtree`: a post's own card, then its replies', one level further in up to the limit. */
    method RenderSubtree(posts: seq<Post>, childrenOf: map<nat, seq<nat>>, seqNo: nat, depth: nat)
      requires IsThread(posts) && IsTree(posts, Seqs(posts), childrenOf)
      modifies this
      ensures cards == old(cards) + if seqNo in Seqs(posts) then Emit(posts, seqNo, depth) else []
      decreases Top(posts) + 1 - seqNo, 1
    {
      hide Emit, EmitAll, IsThread, Children, Seqs, ParentOf, Get, Replies;
      var post := Find(posts, seqNo);
      if post.None? {
        return;
      }
      var cs := Get(childrenOf, seqNo);
      EmitIsHeadAndReplies(posts, seqNo, depth, cs);
      cards := cards + [Card(seqNo, depth)];
      RenderReplies(posts, childrenOf, seqNo, cs, Min(depth + 1, MAX_DEPTH));
    }

    method RenderReplies(posts: seq<Post>, childrenOf: map<nat, seq<nat>>, parent: nat, cs: seq<nat>, depth: nat)
      requires IsThread(posts) && IsTree(posts, Seqs(posts), childrenOf)
      requires Known(posts, parent) && Replies(posts, parent, cs)
      modifies this
      ensures cards == old(cards) + EmitAll(posts, parent, cs, depth)
      decreases Top(posts) + 1 - parent, 0
    {
      NoRepliesNoCards(posts, parent, cs, depth);
      hide Emit, EmitAll, IsThread, Children, ParentOf, Get, Seqs, Replies, IsTree;
      for i := 0 to |cs|
        invariant Replies(posts, parent, cs[..i]) && cards == old(cards) + EmitAll(posts, parent, cs[..i], depth)
      {
        EmitOneMore(posts, parent, cs, i, depth);
        ghost var done := EmitAll(posts, parent, cs[..i], depth);
        RenderSubtree(posts, childrenOf, cs[i], depth);
        Appended(old(cards), done, Emit(posts, cs[i], depth));
      }
      assert cs[..|cs|] == cs;
    }

    /** `render`: the OP's card if it is there, then the subtree of each direct reply to it, at depth 0. */
    method Render(posts: seq<Post>)
      requires IsThread(posts)
      modifies this
      ensures cards == Rendered(posts)
    {
      cards := [];
      if |posts| == 0 {
        return;
      }
      var childrenOf := BuildTree(posts);
      ChildrenHaveParent(posts, 1);
      var opChildren := Get(childrenOf, 1);
      assert Rendered(posts) == OpCard(posts) + EmitAll(posts, 1, opChildren, 0);
      hide EmitAll, Children, ParentOf, Get, Rendered, Replies, IsTree;
      if Find(posts, 1).Some? {
        cards := [Card(1, 0)];
      }
      RenderReplies(posts, childrenOf, 1, opChildren, 0);
    }
  }

  // ---------- Every post once, below its parent ----------

  function CardSeqs(cards: seq<Card>): set<nat> { set i | 0 <= i < |cards| :: cards[i].seqNo }

  ghost predicate Once(cards: seq<Card>) { forall i, j | 0 <= i < j < |cards| :: cards[i].seqNo != cards[j].seqNo }

  /** Every card whose parent is not `parent` comes after its parent's card. */
  ghost predicate ParentsFirst(posts: seq<Post>, cards: seq<Card>, parent: Option<nat>)
  {
    forall i | 0 <= i < |cards| && ParentOf(posts, cards[i].seqNo) != parent :: ParentBefore(posts, cards, i)
  }

  ghost predicate ParentBefore(posts: seq<Post>, cards: seq<Card>, i: nat)
    requires i < |cards|
  {
    exists j :: 0 <= j < i && ParentOf(posts, cards[i].seqNo) == Some(cards[j].seqNo)
  }

  /** How many replies deep a post is below the OP. */
  ghost function Level(posts: seq<Post>, x: nat): nat
    requires IsThread(posts)
    decreases x
  {
    ParentIsEarlier(posts, x);
    var up := ParentOf(posts, x);
    if up.None? then 0 else 1 + Level(posts, up.value)
  }

  /** The depth a post is shown at: the OP and its replies at 0, then one more a level, up to the limit. */
  ghost function CardDepth(posts: seq<Post>, x: nat): nat
    requires IsThread(posts)
  {
    Min(if Level(posts, x) == 0 then 0 else Level(posts, x) - 1, MAX_DEPTH)
  }

  ghost predicate DepthsOk(posts: seq<Post>, cards: seq<Card>)
    requires IsThread(posts)
  {
    forall i | 0 <= i < |cards| :: cards[i].depth == CardDepth(posts, cards[i].seqNo)
  }

  /** At or below one of these posts. */
  ghost predicate Below(posts: seq<Post>, cs: seq<nat>, y: nat)
    requires IsThread(posts)
  {
    exists c :: c in cs && AtOrAbove(posts, c, y)
  }

  /** What is at or below a post is the post and what is at or below its replies. */
  lemma {:induction false} BelowSplits(posts: seq<Post>, s: nat, y: nat)
    requires IsThread(posts) && Known(posts, s)
    ensures AtOrAbove(posts, s, y) <==> y == s || Below(posts, Children(posts, Seqs(posts), s), y)
    decreases y
  {
    ParentIsEarlier(posts, y);
    var up := ParentOf(posts, y);
    if AtOrAbove(posts, s, y) && y != s {
      BelowSplits(posts, s, up.value);
      if up.value == s {
        ChildIffParent(posts, s, y);
        assert AtOrAbove(posts, y, y);
      } else {
        var c :| c in Children(posts, Seqs(posts), s) && AtOrAbove(posts, c, up.value);
        assert AtOrAbove(posts, c, y);
      }
    }
    if c :| c in Children(posts, Seqs(posts), s) && AtOrAbove(posts, c, y) {
      ChildIffParent(posts, s, c);
      ParentIsEarlier(posts, c);
      assert AtOrAbove(posts, s, c);
      AncestorTransitive(posts, s, c, y);
    }
  }

  /** Nothing is at or below two different replies to one post. */
  lemma {:induction false} SiblingsApart(posts: seq<Post>, parent: nat, a: nat, b: nat, y: nat)
    requires IsThread(posts) && ParentOf(posts, a) == Some(parent) && ParentOf(posts, b) == Some(parent)
    requires AtOrAbove(posts, a, y) && AtOrAbove(posts, b, y)
    ensures a == b
    decreases y
  {
    ParentIsEarlier(posts, a);
    ParentIsEarlier(posts, b);
    ParentIsEarlier(posts, y);
    if y == a && a != b {
      AncestorsAreEarlier(posts, b, parent);
    } else if y == b && a != b {
      AncestorsAreEarlier(posts, a, parent);
    } else if y != a && y != b {
      SiblingsApart(posts, parent, a, b, ParentOf(posts, y).value);
    }
  }

  /** The cards of one subtree. */
  ghost predicate Subtree(posts: seq<Post>, cards: seq<Card>, s: nat)
    requires IsThread(posts)
  {
    && (forall y :: y in CardSeqs(cards) <==> y in Seqs(posts) && AtOrAbove(posts, s, y))
    && Once(cards) && ParentsFirst(posts, cards, ParentOf(posts, s)) && DepthsOk(posts, cards)
  }

  /** The cards of the subtrees of several replies to one post. */
  ghost predicate Forest(posts: seq<Post>, cards: seq<Card>, parent: nat, cs: seq<nat>)
    requires IsThread(posts)
  {
    && (forall y :: y in CardSeqs(cards) <==> y in Seqs(posts) && Below(posts, cs, y))
    && Once(cards) && ParentsFirst(posts, cards, Some(parent)) && DepthsOk(posts, cards)
  }

  lemma CardSeqsConcat(a: seq<Card>, b: seq<Card>)
    ensures CardSeqs(a + b) == CardSeqs(a) + CardSeqs(b)
  {
    forall i | 0 <= i < |a| ensures a[i].seqNo in CardSeqs(a + b) { assert (a + b)[i] == a[i]; }
    forall i | 0 <= i < |b| ensures b[i].seqNo in CardSeqs(a + b) { assert (a + b)[|a| + i] == b[i]; }
  }

  lemma OnceConcat(a: seq<Card>, b: seq<Card>)
    requires Once(a) && Once(b) && CardSeqs(a) !! CardSeqs(b)
    ensures Once(a + b)
  {
    var ab := a + b;
    forall i, j | 0 <= i < j < |ab| ensures ab[i].seqNo != ab[j].seqNo {
      if i < |a| <= j {
        assert a[i].seqNo in CardSeqs(a) && b[j - |a|].seqNo in CardSeqs(b);
      }
    }
  }

  lemma ParentsFirstConcat(posts: seq<Post>, a: seq<Card>, b: seq<Card>, parent: Option<nat>)
    requires ParentsFirst(posts, a, parent) && ParentsFirst(posts, b, parent)
    ensures ParentsFirst(posts, a + b, parent)
  {
    var ab := a + b;
    forall i | 0 <= i < |ab| && ParentOf(posts, ab[i].seqNo) != parent ensures ParentBefore(posts, ab, i) {
      if i < |a| {
        assert ParentBefore(posts, a, i);
        var j :| 0 <= j < i && ParentOf(posts, a[i].seqNo) == Some(a[j].seqNo);
        assert ab[j] == a[j];
      } else {
        assert ParentBefore(posts, b, i - |a|);
        var j :| 0 <= j < i - |a| && ParentOf(posts, b[i - |a|].seqNo) == Some(b[j].seqNo);
        assert ab[|a| + j] == b[j];
      }
    }
  }

  lemma HeadFirst(posts: seq<Post>, head: Card, rest: seq<Card>)
    requires ParentsFirst(posts, rest, Some(head.seqNo))
    ensures ParentsFirst(posts, [head] + rest, ParentOf(posts, head.seqNo))
  {
    var all := [head] + rest;
    forall i | 0 <= i < |all| && ParentOf(posts, all[i].seqNo) != ParentOf(posts, head.seqNo)
      ensures ParentBefore(posts, all, i)
    {
      assert all[0] == head && all[i] == rest[i - 1];
      if ParentOf(posts, rest[i - 1].seqNo) != Some(head.seqNo) {
        assert ParentBefore(posts, rest, i - 1);
        var j :| 0 <= j < i - 1 && ParentOf(posts, rest[i - 1].seqNo) == Some(rest[j].seqNo);
        assert all[j + 1] == rest[j];
      }
    }
  }

  lemma HeadSeqs(posts: seq<Post>, s: nat, depth: nat, rest: seq<Card>)
    requires IsThread(posts) && s in Seqs(posts)
    requires forall y :: y in CardSeqs(rest) <==> y in Seqs(posts) && Below(posts, Children(posts, Seqs(posts), s), y)
    ensures CardSeqs([Card(s, depth)]) == {s} && s !in CardSeqs(rest)
    ensures forall y :: y in CardSeqs([Card(s, depth)] + rest) <==> y in Seqs(posts) && AtOrAbove(posts, s, y)
  {
    hide Children, IsThread, Seqs, ParentOf, AtOrAbove;
    var head := Card(s, depth);
    var all := [head] + rest;
    CardSeqsConcat([head], rest);
    assert CardSeqs([head]) == {s} by { assert [head][0].seqNo == s; }
    forall y ensures y in CardSeqs(all) <==> y in Seqs(posts) && AtOrAbove(posts, s, y) {
      BelowSplits(posts, s, y);
      assert y in CardSeqs(all) <==> y == s || y in CardSeqs(rest);
    }
    if s in CardSeqs(rest) {
      var c :| c in Children(posts, Seqs(posts), s) && AtOrAbove(posts, c, s);
      ChildIffParent(posts, s, c);
      ParentIsEarlier(posts, c);
      AncestorsAreEarlier(posts, c, s);
    }
  }

  /** A post's card in front of its replies' forest is its subtree. */
  lemma HeadAndForest(posts: seq<Post>, s: nat, depth: nat, rest: seq<Card>)
    requires IsThread(posts) && s in Seqs(posts) && Forest(posts, rest, s, Children(posts, Seqs(posts), s))
    requires depth == CardDepth(posts, s)
    ensures Subtree(posts, [Card(s, depth)] + rest, s)
  {
    hide Children, IsThread, Seqs, ParentOf, AtOrAbove, ParentsFirst, CardSeqs, Below;
    var head := Card(s, depth);
    HeadSeqs(posts, s, depth, rest);
    OnceConcat([head], rest);
    HeadFirst(posts, head, rest);
    hide Once;
  }

  /** One more sibling's subtree behind a forest is a forest. */
  lemma ForestAndSubtree(posts: seq<Post>, parent: nat, front: seq<Card>, cs: seq<nat>, c: nat, sub: seq<Card>)
    requires IsThread(posts) && Forest(posts, front, parent, cs) && Subtree(posts, sub, c) && c !in cs
    requires ParentOf(posts, c) == Some(parent) && Replies(posts, parent, cs)
    ensures Forest(posts, front + sub, parent, cs + [c])
  {
    hide IsThread, Seqs, ParentOf, AtOrAbove, Level;
    CardSeqsConcat(front, sub);
    forall y ensures Below(posts, cs + [c], y) <==> Below(posts, cs, y) || AtOrAbove(posts, c, y) {
      BelowOneMore(posts, cs, c, y);
    }
    forall y | y in CardSeqs(front) ensures y !in CardSeqs(sub) {
      if y in CardSeqs(sub) {
        var k :| k in cs && AtOrAbove(posts, k, y);
        SiblingsApart(posts, parent, k, c, y);
      }
    }
    hide CardSeqs, Below;
    OnceConcat(front, sub);
    ParentsFirstConcat(posts, front, sub, Some(parent));
    hide Once, ParentsFirst;
  }

  lemma BelowOneMore(posts: seq<Post>, cs: seq<nat>, c: nat, y: nat)
    requires IsThread(posts)
    ensures Below(posts, cs + [c], y) <==> Below(posts, cs, y) || AtOrAbove(posts, c, y)
  {
    hide IsThread, AtOrAbove;
    if k :| k in cs && AtOrAbove(posts, k, y) { assert k in cs + [c]; }
    assert c in cs + [c];
  }

  lemma {:induction false} EmitIsSubtree(posts: seq<Post>, s: nat, depth: nat)
    requires IsThread(posts) && s in Seqs(posts) && ParentOf(posts, s).Some?
    requires depth == Min(Level(posts, s) - 1, MAX_DEPTH)
    ensures Subtree(posts, Emit(posts, s, depth), s)
    decreases Top(posts) + 1 - s, 1, 0
  {
    hide Subtree, Forest, Emit, EmitAll, Children, Seqs, IsThread, Replies, NoRepeats;
    DistinctChildren(posts, s);
    var cs := Children(posts, Seqs(posts), s);
    EmitIsHeadAndReplies(posts, s, depth, cs);
    EmitAllIsForest(posts, s, cs, Min(depth + 1, MAX_DEPTH));
    HeadAndForest(posts, s, depth, EmitAll(posts, s, cs, Min(depth + 1, MAX_DEPTH)));
  }

  lemma DistinctChildren(posts: seq<Post>, s: nat)
    requires IsThread(posts)
    ensures NoRepeats(Children(posts, Seqs(posts), s))
  {
    ChildrenDistinct(posts, Seqs(posts), s);
  }

  lemma {:induction false} EmitAllIsForest(posts: seq<Post>, parent: nat, cs: seq<nat>, depth: nat)
    requires IsThread(posts) && Known(posts, parent) && Replies(posts, parent, cs)
    requires NoRepeats(cs) && depth == Min(Level(posts, parent), MAX_DEPTH)
    ensures Forest(posts, EmitAll(posts, parent, cs, depth), parent, cs)
    decreases Top(posts) + 1 - parent, 0, |cs|
  {
    hide Subtree, Forest, Emit, EmitAll, Children, Seqs, IsThread, ParentOf, Level;
    if |cs| == 0 {
      NoRepliesNoCards(posts, parent, cs, depth);
      EmptyForest(posts, parent);
    } else {
      var c, front := cs[|cs| - 1], cs[..|cs| - 1];
      assert cs == front + [c] && cs[..|cs| - 1 + 1] == cs;
      EmitOneMore(posts, parent, cs, |cs| - 1, depth);
      OneLevelDown(posts, parent, c);
      EmitAllIsForest(posts, parent, front, depth);
      EmitIsSubtree(posts, c, depth);
      assert c !in front;
      ForestAndSubtree(posts, parent, EmitAll(posts, parent, front, depth), front, c, Emit(posts, c, depth));
    }
  }

  lemma EmptyForest(posts: seq<Post>, parent: nat)
    requires IsThread(posts)
    ensures Forest(posts, [], parent, [])
  {
  }

  lemma OneLevelDown(posts: seq<Post>, parent: nat, c: nat)
    requires IsThread(posts) && ParentOf(posts, c) == Some(parent)
    ensures Level(posts, c) == Level(posts, parent) + 1
  {
  }

  lemma {:induction false} OpIsAboveAll(posts: seq<Post>, y: nat)
    requires IsThread(posts) && Known(posts, y)
    ensures AtOrAbove(posts, 1, y)
    decreases y
  {
    ParentIsEarlier(posts, y);
    if y != 1 {
      OpIsAboveAll(posts, ParentOf(posts, y).value);
    }
  }

  /** Nested rendering is a permutation: for every list of posts, the cards of the page are the posts,
      each exactly once, the OP first if it is there, every other after its parent if that is there, and
      each at the depth it has below the direct replies to the OP, but never more than two. The walk
      ends because replies come later. */
  lemma RenderingIsAPermutation(posts: seq<Post>)
    requires IsThread(posts)
    ensures var cards := Rendered(posts);
            && |cards| == |posts| && Once(cards) && CardSeqs(cards) == Seqs(posts)
            && (1 in Seqs(posts) ==> |cards| > 0 && cards[0] == Card(1, 0))
            && (forall i | 0 <= i < |cards| && ParentIsThere(posts, cards[i].seqNo) :: ParentBefore(posts, cards, i))
            && DepthsOk(posts, cards)
            && forall i | 0 <= i < |cards| ::
                 var level := Level(posts, cards[i].seqNo);
                 cards[i].depth == if level <= 1 then 0 else if level == 2 then 1 else 2
  {
    var cards := Rendered(posts);
    if 1 in Seqs(posts) {
      RenderedIsSubtree(posts);
    } else {
      RenderedIsForest(posts);
    }
    OnceCount(cards);
    SeqsCount(posts);
  }

  ghost predicate ParentIsThere(posts: seq<Post>, seqNo: nat)
  {
    ParentOf(posts, seqNo).Some? && ParentOf(posts, seqNo).value in Seqs(posts)
  }

  ghost predicate IsPage(posts: seq<Post>, cards: seq<Card>)
    requires IsThread(posts)
  {
    && Once(cards) && CardSeqs(cards) == Seqs(posts) && DepthsOk(posts, cards)
    && forall i | 0 <= i < |cards| && ParentIsThere(posts, cards[i].seqNo) :: ParentBefore(posts, cards, i)
  }

  lemma RenderedIsSubtree(posts: seq<Post>)
    requires IsThread(posts) && 1 in Seqs(posts)
    ensures |Rendered(posts)| > 0 && Rendered(posts)[0] == Card(1, 0) && IsPage(posts, Rendered(posts))
  {
    hide Forest, EmitAll;
    ChildrenHaveParent(posts, 1);
    DistinctChildren(posts, 1);
    ParentIsEarlier(posts, 1);
    var cs := Children(posts, Seqs(posts), 1);
    EmitAllIsForest(posts, 1, cs, 0);
    HeadAndForest(posts, 1, 0, EmitAll(posts, 1, cs, 0));
    hide Rendered, Children, ParentOf, AtOrAbove, Level, Seqs;
    forall y | y in Seqs(posts) ensures AtOrAbove(posts, 1, y) { OpIsAboveAll(posts, y); }
  }

  /** Without the OP there is no card above the direct replies to it. */
  lemma RenderedIsForest(posts: seq<Post>)
    requires IsThread(posts) && 1 !in Seqs(posts)
    ensures IsPage(posts, Rendered(posts))
  {
    hide EmitAll;
    ChildrenHaveParent(posts, 1);
    DistinctChildren(posts, 1);
    ParentIsEarlier(posts, 1);
    var cs := Children(posts, Seqs(posts), 1);
    EmitAllIsForest(posts, 1, cs, 0);
    assert Rendered(posts) == EmitAll(posts, 1, cs, 0);
    hide Rendered, Children, ParentOf, AtOrAbove, Level, Seqs, IsThread, Find;
    forall y | y in Seqs(posts) ensures Below(posts, cs, y) {
      OpIsAboveAll(posts, y);
      BelowSplits(posts, 1, y);
    }
  }

  lemma {:induction false} OnceCount(cards: seq<Card>)
    requires Once(cards)
    ensures |CardSeqs(cards)| == |cards|
  {
    if |cards| > 0 {
      var front := cards[..|cards| - 1];
      OnceCount(front);
      assert cards == front + [cards[|cards| - 1]];
      CardSeqsConcat(front, [cards[|cards| - 1]]);
      assert CardSeqs([cards[|cards| - 1]]) == {cards[|cards| - 1].seqNo} by {
        assert [cards[|cards| - 1]][0] == cards[|cards| - 1];
      }
    }
  }

  lemma {:induction false} SeqsCount(posts: seq<Post>)
    requires DistinctSeqs(posts)
    ensures |Seqs(posts)| == |posts|
  {
    if |posts| > 0 {
      SeqsCount(posts[..|posts| - 1]);
      SeqsOfPrefix(posts, |posts| - 1);
      assert posts[..|posts| - 1 + 1] == posts;
    }
  }

  // ---------- Siblings in thread order ----------

  /** One post comes before another in the thread. */
  ghost predicate Earlier(posts: seq<Post>, a: nat, b: nat)
  {
    exists i, j :: 0 <= i < j < |posts| && posts[i].seqNo == a && posts[j].seqNo == b
  }

  lemma EarlierIsOneWay(posts: seq<Post>, a: nat, b: nat)
    requires DistinctSeqs(posts) && Earlier(posts, a, b)
    ensures !Earlier(posts, b, a) && a != b
  {
  }

  /** Of two replies to one post no later one is in front. */
  ghost predicate SiblingsInOrder(posts: seq<Post>, cards: seq<Card>)
  {
    forall i, j | 0 <= i < j < |cards| && Siblings(posts, cards[i].seqNo, cards[j].seqNo) ::
      !Earlier(posts, cards[j].seqNo, cards[i].seqNo)
  }

  ghost predicate Siblings(posts: seq<Post>, a: nat, b: nat)
  {
    ParentOf(posts, a).Some? && ParentOf(posts, a) == ParentOf(posts, b)
  }

  ghost predicate InThreadOrder(posts: seq<Post>, cs: seq<nat>)
  {
    forall i, j | 0 <= i < j < |cs| :: !Earlier(posts, cs[j], cs[i])
  }

  lemma {:induction false} ChildrenInOrder(posts: seq<Post>, k: nat, seqs: set<nat>, parent: nat)
    requires DistinctSeqs(posts) && k <= |posts|
    ensures InThreadOrder(posts, Children(posts[..k], seqs, parent))
    decreases k
  {
    if k > 0 {
      var n := k - 1;
      assert posts[..k][..n] == posts[..n] && posts[..k][n] == posts[n];
      ChildrenInOrder(posts, n, seqs, parent);
      var front, last := Children(posts[..n], seqs, parent), posts[n].seqNo;
      forall c | c in front ensures !Earlier(posts, last, c) {
        ChildrenAre(posts[..n], seqs, parent, c);
        var i :| 0 <= i < n && posts[..n][i].seqNo == c;
        assert posts[i].seqNo == c;
        assert Earlier(posts, c, last);
        EarlierIsOneWay(posts, c, last);
      }
      hide Earlier, ParentSeq;
      OneMoreInOrder(posts, front, last);
    }
  }

  lemma OneMoreInOrder(posts: seq<Post>, front: seq<nat>, last: nat)
    requires InThreadOrder(posts, front) && forall c | c in front :: !Earlier(posts, last, c)
    ensures InThreadOrder(posts, front + [last])
  {
    hide Earlier;
  }

  /** Behind cards in order, more cards in order, none of which should be in front of the others. */
  lemma OrderConcat(posts: seq<Post>, a: seq<Card>, b: seq<Card>)
    requires SiblingsInOrder(posts, a) && SiblingsInOrder(posts, b)
    requires forall x, y | x in CardSeqs(a) && y in CardSeqs(b) && Siblings(posts, x, y) :: !Earlier(posts, y, x)
    ensures SiblingsInOrder(posts, a + b)
  {
    hide Earlier, Siblings;
    var ab := a + b;
    forall i, j | 0 <= i < j < |ab| && Siblings(posts, ab[i].seqNo, ab[j].seqNo)
      ensures !Earlier(posts, ab[j].seqNo, ab[i].seqNo)
    {
      if i < |a| <= j {
        assert a[i].seqNo in CardSeqs(a) && b[j - |a|].seqNo in CardSeqs(b);
      }
    }
  }

  /** A sibling of a post at or below another is that other, or at or below it too. */
  lemma SiblingOfBelow(posts: seq<Post>, c: nat, x: nat, y: nat)
    requires IsThread(posts) && AtOrAbove(posts, c, y) && Siblings(posts, x, y)
    ensures y == c || AtOrAbove(posts, c, x)
  {
    ParentIsEarlier(posts, y);
    ParentIsEarlier(posts, x);
  }

  lemma {:induction false} EmitInOrder(posts: seq<Post>, s: nat, depth: nat)
    requires IsThread(posts) && s in Seqs(posts) && ParentOf(posts, s).Some?
    requires depth == Min(Level(posts, s) - 1, MAX_DEPTH)
    ensures SiblingsInOrder(posts, Emit(posts, s, depth))
    decreases Top(posts) + 1 - s, 1, 0
  {
    hide Subtree, Forest, Emit, EmitAll, Children, Seqs, IsThread, Replies, NoRepeats, SiblingsInOrder, InThreadOrder;
    var cs := Children(posts, Seqs(posts), s);
    DistinctChildren(posts, s);
    AllInOrder(posts, s);
    EmitIsHeadAndReplies(posts, s, depth, cs);
    EmitAllInOrder(posts, s, cs, Min(depth + 1, MAX_DEPTH));
    EmitAllIsForest(posts, s, cs, Min(depth + 1, MAX_DEPTH));
    HeadInOrder(posts, s, depth, EmitAll(posts, s, cs, Min(depth + 1, MAX_DEPTH)));
  }

  lemma AllInOrder(posts: seq<Post>, s: nat)
    requires IsThread(posts)
    ensures InThreadOrder(posts, Children(posts, Seqs(posts), s))
  {
    assert posts[..|posts|] == posts;
    ChildrenInOrder(posts, |posts|, Seqs(posts), s);
  }

  /** Nothing below a post is a sibling of it. */
  lemma HeadInOrder(posts: seq<Post>, s: nat, depth: nat, rest: seq<Card>)
    requires IsThread(posts) && SiblingsInOrder(posts, rest) && Forest(posts, rest, s, Children(posts, Seqs(posts), s))
    ensures SiblingsInOrder(posts, [Card(s, depth)] + rest)
  {
    hide Children, IsThread, Seqs, ParentOf, AtOrAbove, ParentsFirst, Earlier, CardSeqs, Once, DepthsOk;
    forall y | y in CardSeqs(rest) ensures !Siblings(posts, s, y) {
      var c :| c in Children(posts, Seqs(posts), s) && AtOrAbove(posts, c, y);
      ChildIffParent(posts, s, c);
      NotItsSibling(posts, s, c, y);
    }
    hide Siblings;
    CardSeqsOfOne(Card(s, depth));
    NothingOutOfOrder(posts, Card(s, depth));
    OrderConcat(posts, [Card(s, depth)], rest);
  }

  lemma CardSeqsOfOne(c: Card)
    ensures CardSeqs([c]) == {c.seqNo}
  {
    assert [c][0] == c;
  }

  lemma NothingOutOfOrder(posts: seq<Post>, c: Card)
    ensures SiblingsInOrder(posts, [c])
  {
  }

  lemma NotItsSibling(posts: seq<Post>, s: nat, c: nat, y: nat)
    requires IsThread(posts) && ParentOf(posts, c) == Some(s) && AtOrAbove(posts, c, y)
    ensures !Siblings(posts, s, y)
  {
    ParentIsEarlier(posts, s);
    ParentIsEarlier(posts, c);
    ParentIsEarlier(posts, y);
    if y != c {
      AncestorsAreEarlier(posts, c, ParentOf(posts, y).value);
    }
  }

  lemma {:induction false} EmitAllInOrder(posts: seq<Post>, parent: nat, cs: seq<nat>, depth: nat)
    requires IsThread(posts) && Known(posts, parent) && Replies(posts, parent, cs)
    requires NoRepeats(cs) && InThreadOrder(posts, cs) && depth == Min(Level(posts, parent), MAX_DEPTH)
    ensures SiblingsInOrder(posts, EmitAll(posts, parent, cs, depth))
    decreases Top(posts) + 1 - parent, 0, |cs|
  {
    hide Subtree, Forest, Emit, EmitAll, Children, Seqs, IsThread, ParentOf, Level, SiblingsInOrder, Earlier;
    if |cs| == 0 {
      NoRepliesNoCards(posts, parent, cs, depth);
      NoCardsInOrder(posts);
    } else {
      var c, front := cs[|cs| - 1], cs[..|cs| - 1];
      assert cs == front + [c] && cs[..|cs| - 1 + 1] == cs;
      EmitOneMore(posts, parent, cs, |cs| - 1, depth);
      OneLevelDown(posts, parent, c);
      EmitAllInOrder(posts, parent, front, depth);
      EmitInOrder(posts, c, depth);
      EmitAllIsForest(posts, parent, front, depth);
      EmitIsSubtree(posts, c, depth);
      LaterSubtree(posts, parent, EmitAll(posts, parent, front, depth), front, c, Emit(posts, c, depth));
    }
  }

  lemma NoCardsInOrder(posts: seq<Post>)
    ensures SiblingsInOrder(posts, [])
  {
  }

  lemma LaterSubtree(posts: seq<Post>, parent: nat, front: seq<Card>, cs: seq<nat>, c: nat, sub: seq<Card>)
    requires IsThread(posts) && Forest(posts, front, parent, cs) && Subtree(posts, sub, c) && c !in cs
    requires ParentOf(posts, c) == Some(parent) && Replies(posts, parent, cs)
    requires SiblingsInOrder(posts, front) && SiblingsInOrder(posts, sub)
    requires forall k | k in cs :: !Earlier(posts, c, k)
    ensures SiblingsInOrder(posts, front + sub)
  {
    hide IsThread, Seqs, ParentOf, AtOrAbove, Level, Earlier, SiblingsInOrder, CardSeqs, Once, ParentsFirst, DepthsOk;
    forall x, y | x in CardSeqs(front) && y in CardSeqs(sub) && Siblings(posts, x, y) ensures !Earlier(posts, y, x) {
      var k :| k in cs && AtOrAbove(posts, k, x);
      SiblingOfBelow(posts, c, x, y);
      if AtOrAbove(posts, c, x) {
        SiblingsApart(posts, parent, k, c, x);
      } else {
        SiblingOfChild(posts, parent, k, c, x);
      }
    }
    hide Siblings;
    OrderConcat(posts, front, sub);
  }

  /** A sibling of a reply to `parent` that lies at or below another reply to it is that reply. */
  lemma SiblingOfChild(posts: seq<Post>, parent: nat, k: nat, c: nat, x: nat)
    requires IsThread(posts) && ParentOf(posts, k) == Some(parent) && ParentOf(posts, c) == Some(parent)
    requires AtOrAbove(posts, k, x) && Siblings(posts, x, c)
    ensures x == k
  {
    ParentIsEarlier(posts, k);
    ParentIsEarlier(posts, x);
    if x != k {
      AncestorsAreEarlier(posts, k, ParentOf(posts, x).value);
    }
  }

  /** On the page, two replies to one post stand in thread order, whatever stands between them. */
  lemma RepliesStandInThreadOrder(posts: seq<Post>, i: nat, j: nat)
    requires IsThread(posts) && i < j < |Rendered(posts)|
    requires Siblings(posts, Rendered(posts)[i].seqNo, Rendered(posts)[j].seqNo)
    ensures Earlier(posts, Rendered(posts)[i].seqNo, Rendered(posts)[j].seqNo)
  {
    RenderedInOrder(posts);
    RenderingIsAPermutation(posts);
    var cards := Rendered(posts);
    var a, b := cards[i].seqNo, cards[j].seqNo;
    assert a in CardSeqs(cards) && b in CardSeqs(cards);
    hide Rendered, ParentOf, DepthsOk, ParentBefore, Siblings;
    var m :| 0 <= m < |posts| && posts[m].seqNo == a;
    var n :| 0 <= n < |posts| && posts[n].seqNo == b;
    assert m > n ==> Earlier(posts, b, a);
  }

  lemma RenderedInOrder(posts: seq<Post>)
    requires IsThread(posts)
    ensures SiblingsInOrder(posts, Rendered(posts))
  {
    hide Forest, EmitAll, InThreadOrder, SiblingsInOrder, NoRepeats;
    ChildrenHaveParent(posts, 1);
    DistinctChildren(posts, 1);
    AllInOrder(posts, 1);
    ParentIsEarlier(posts, 1);
    var cs := Children(posts, Seqs(posts), 1);
    EmitAllInOrder(posts, 1, cs, 0);
    EmitAllIsForest(posts, 1, cs, 0);
    HeadInOrder(posts, 1, 0, EmitAll(posts, 1, cs, 0));
    assert [] + EmitAll(posts, 1, cs, 0) == EmitAll(posts, 1, cs, 0);
  }
}
