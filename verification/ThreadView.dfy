/** The thread page: which post a reply answers, and the view filter over the answers. */
module ThreadView {
  import opened Bytes
  import Cursor

  datatype Post = Post(seqNo: nat, body: string, pubkey: Option<Key>)

  const MAX_DEPTH: nat := 2

  // ---------- Parents ----------

  /** The digits at the head of `s`, read after the value `n`. */
  function Digits(s: string, n: nat): nat
  {
    if |s| > 0 && IsDigit(s[0]) then Digits(s[1..], 10 * n + (s[0] as int - '0' as int)) else n
  }

  /** The number in the first match of `>>(\d+)`. */
  function FirstRef(body: string): Option<nat>
  {
    if |body| < 3 then None
    else if body[0] == '>' && body[1] == '>' && IsDigit(body[2]) then Some(Digits(body[2..], 0))
    else FirstRef(body[1..])
  }

  function Seqs(posts: seq<Post>): set<nat> { set i | 0 <= i < |posts| :: posts[i].seqNo }

  predicate Usable(n: nat, p: Post, seqs: set<nat>) { n < p.seqNo && n in seqs }

  /** Only the first reference in the body is looked at. If it does not name an earlier post that
      exists, the parent is the OP, even when a later reference would do. */
  function ParentSeq(p: Post, seqs: set<nat>): Option<nat>
  {
    if p.seqNo == 1 then None
    else match FirstRef(p.body)
         case Some(n) => if Usable(n, p, seqs) then Some(n) else Some(1)
         case None => Some(1)
  }

  /** Posts as the server numbers them: from 1, no number twice. The list may be empty or lack the OP. */
  ghost predicate IsThread(posts: seq<Post>)
  {
    (forall i | 0 <= i < |posts| :: posts[i].seqNo >= 1) && DistinctSeqs(posts)
  }

  /** What a parent can be: a post of the list, or the OP, there or not. */
  predicate Known(posts: seq<Post>, seqNo: nat) { seqNo in Seqs(posts) || seqNo == 1 }

  ghost predicate DistinctSeqs(posts: seq<Post>)
  {
    forall i, j | 0 <= i < j < |posts| :: posts[i].seqNo != posts[j].seqNo
  }

  function Find(posts: seq<Post>, seqNo: nat): (p: Option<Post>)
    ensures p.Some? <==> seqNo in Seqs(posts)
    ensures p.Some? ==> p.value in posts && p.value.seqNo == seqNo
  {
    if |posts| == 0 then None
    else if posts[0].seqNo == seqNo then Some(posts[0])
    else
      assert forall i | 0 <= i < |posts[1..]| :: posts[1..][i] == posts[i + 1];
      Find(posts[1..], seqNo)
  }

  lemma {:induction false} FindIs(posts: seq<Post>, i: nat)
    requires i < |posts| && DistinctSeqs(posts)
    ensures Find(posts, posts[i].seqNo) == Some(posts[i])
  {
    if i > 0 {
      assert posts[1..][i - 1] == posts[i];
      FindIs(posts[1..], i - 1);
    }
  }

  function ParentOf(posts: seq<Post>, seqNo: nat): Option<nat>
  {
    var p := Find(posts, seqNo);
    if p.None? then None else ParentSeq(p.value, Seqs(posts))
  }

  lemma ParentIsEarlier(posts: seq<Post>, seqNo: nat)
    requires IsThread(posts)
    ensures var up := ParentOf(posts, seqNo);
            && (up.Some? ==> up.value < seqNo && Known(posts, up.value))
            && (up.Some? <==> seqNo in Seqs(posts) && seqNo != 1)
  {
  }

  // ---------- The parent the comments describe ----------

  function DigitCount(s: string): (n: nat)
    ensures n <= |s|
  {
    if |s| > 0 && IsDigit(s[0]) then 1 + DigitCount(s[1..]) else 0
  }

  /** The numbers in all matches of `>>(\d+)`, left to right, none overlapping the one before. */
  function Refs(body: string): seq<nat>
    decreases |body|
  {
    if |body| < 3 then []
    else if body[0] == '>' && body[1] == '>' && IsDigit(body[2])
    then [Digits(body[2..], 0)] + Refs(body[2 + DigitCount(body[2..])..])
    else Refs(body[1..])
  }

  lemma {:induction false} FirstRefIsFirst(body: string)
    ensures FirstRef(body) == if Refs(body) == [] then None else Some(Refs(body)[0])
  {
    if |body| >= 3 && !(body[0] == '>' && body[1] == '>' && IsDigit(body[2])) {
      FirstRefIsFirst(body[1..]);
    }
  }

  function FirstUsable(refs: seq<nat>, p: Post, seqs: set<nat>): nat
  {
    if |refs| == 0 then 1 else if Usable(refs[0], p, seqs) then refs[0] else FirstUsable(refs[1..], p, seqs)
  }

  /** The rule in the comments above `parentSeq` and `buildTree`: the first reference in the body that
      names an earlier existing post, else the OP. */
  function DocumentedParent(p: Post, seqs: set<nat>): Option<nat>
  {
    if p.seqNo == 1 then None else Some(FirstUsable(Refs(p.body), p, seqs))
  }

  /** The first usable reference is at `i`. */
  predicate UsableFirstAt(refs: seq<nat>, i: nat, p: Post, seqs: set<nat>)
    requires i < |refs|
  {
    Usable(refs[i], p, seqs) && forall j | 0 <= j < i :: !Usable(refs[j], p, seqs)
  }

  lemma {:induction false} FirstUsableIs(refs: seq<nat>, p: Post, seqs: set<nat>)
    ensures forall i | 0 <= i < |refs| && UsableFirstAt(refs, i, p, seqs) :: FirstUsable(refs, p, seqs) == refs[i]
    ensures (exists i :: 0 <= i < |refs| && UsableFirstAt(refs, i, p, seqs)) || FirstUsable(refs, p, seqs) == 1
  {
    if |refs| > 0 && Usable(refs[0], p, seqs) {
      assert UsableFirstAt(refs, 0, p, seqs);
    } else if |refs| > 0 {
      var rest := refs[1..];
      FirstUsableIs(rest, p, seqs);
      forall i | 0 <= i < |refs| && UsableFirstAt(refs, i, p, seqs) ensures FirstUsable(refs, p, seqs) == refs[i] {
        assert UsableFirstAt(rest, i - 1, p, seqs);
      }
      if i :| 0 <= i < |rest| && UsableFirstAt(rest, i, p, seqs) {
        assert UsableFirstAt(refs, i + 1, p, seqs);
      }
    }
  }

  /** Exactly when the code keeps to its comments, for every post and every thread: it fails when the
      first usable reference is not the first one in the body and does not happen to name the OP. */
  lemma DocumentedParentExactly(p: Post, seqs: set<nat>)
    ensures var refs := Refs(p.body);
            ParentSeq(p, seqs) == DocumentedParent(p, seqs) <==>
              p.seqNo == 1 || !exists i :: 0 < i < |refs| && refs[i] != 1 && UsableFirstAt(refs, i, p, seqs)
  {
    var refs := Refs(p.body);
    FirstRefIsFirst(p.body);
    FirstUsableIs(refs, p, seqs);
    if |refs| > 0 && Usable(refs[0], p, seqs) {
      assert UsableFirstAt(refs, 0, p, seqs);
    }
  }

  function FailingThread(): seq<Post>
  {
    [Post(1, "opening post", None), Post(2, "hello", None), Post(3, ">>9 >>2", None)]
  }

  /** A thread where it fails: the third post's first reference names nobody, its second would do. */
  lemma LaterReferenceIsIgnored()
    ensures var posts := FailingThread();
            && IsThread(posts) && (forall p | p in posts :: |p.body| >= 3)
            && ParentOf(posts, 3) == Some(1) && DocumentedParent(posts[2], Seqs(posts)) == Some(2)
  {
    var posts := FailingThread();
    var seqs := Seqs(posts);
    FindIs(posts, 2);
    assert posts[0].seqNo in seqs && posts[1].seqNo in seqs && seqs == {1, 2, 3};
    TwoRefs();
    hide Refs, FirstRef, Digits, Find, Seqs;
    FirstUsableIs([9, 2], posts[2], seqs);
    assert UsableFirstAt([9, 2], 1, posts[2], seqs);
    DocumentedParentExactly(posts[2], seqs);
  }

  lemma TwoRefs()
    ensures Refs(">>9 >>2") == [9, 2] && FirstRef(">>9 >>2") == Some(9)
  {
    var body := ">>9 >>2";
    FirstRefIsFirst(body);
    assert body[2..] == "9 >>2" && "9 >>2"[1..] == " >>2" && " >>2"[1..] == ">>2" && ">>2"[2..] == "2" && "2"[1..] == "";
    assert Digits("9 >>2", 0) == 9 && DigitCount("9 >>2") == 1;
    assert Digits("2", 0) == 2 && DigitCount("2") == 1;
    assert body[3..] == " >>2" && ">>2"[3..] == "";
    assert Refs(">>2") == [2] + Refs("");
  }

  // ---------- What a reference names ----------

  predicate StartsWithDigit(s: string) { |s| > 0 && IsDigit(s[0]) }

  lemma {:induction false} DigitsAreTheNumber(digits: string, rest: string, n: nat)
    requires forall i | 0 <= i < |digits| :: IsDigit(digits[i])
    requires !StartsWithDigit(rest)
    ensures Digits(digits + rest, n) == n * Ten(|digits|) + Cursor.Decimal(digits)
    decreases |digits|
  {
    if |digits| == 0 {
      assert digits + rest == rest;
    } else {
      assert (digits + rest)[1..] == digits[1..] + rest;
      var d := digits[0] as int - '0' as int;
      DigitsAreTheNumber(digits[1..], rest, 10 * n + d);
      LeadingDigit(digits);
      Shifted(n, d, Ten(|digits| - 1), Cursor.Decimal(digits[1..]));
    }
  }

  function Ten(k: nat): (t: nat) { if k == 0 then 1 else 10 * Ten(k - 1) }

  lemma Shifted(n: int, d: int, t: int, x: int)
    ensures (10 * n + d) * t + x == n * (10 * t) + (d * t + x)
  {
  }

  lemma {:induction false} LeadingDigit(s: string)
    requires |s| > 0
    ensures Cursor.Decimal(s) == (s[0] as int - '0' as int) * Ten(|s| - 1) + Cursor.Decimal(s[1..])
  {
    if |s| > 1 {
      var front := s[..|s| - 1];
      LeadingDigit(front);
      assert s[1..][..|s| - 2] == front[1..] && s[1..][|s| - 2] == s[|s| - 1];
      Shifted(0, s[0] as int - '0' as int, Ten(|s| - 2), Cursor.Decimal(front[1..]));
      TimesTen(s[0] as int - '0' as int, Ten(|s| - 2));
    }
  }

  lemma TimesTen(d: int, t: int)
    ensures 10 * (d * t) == d * (10 * t)
  {
  }

  lemma {:induction false} NothingBefore(before: string, rest: string)
    requires '>' !in before
    ensures FirstRef(before + rest) == FirstRef(rest)
    decreases |before|
  {
    if |before| == 0 {
      assert before + rest == rest;
    } else {
      assert (before + rest)[1..] == before[1..] + rest && (before + rest)[0] == before[0];
      NothingBefore(before[1..], rest);
    }
  }

  /** A number written in decimal behind `>>`, after text with no `>`, is what the body refers to: so the
      reply's parent is the post of that number if there is one before it, and otherwise the OP. */
  lemma ReferenceNames(before: string, n: nat, after: string, p: Post, seqs: set<nat>)
    requires '>' !in before && !StartsWithDigit(after) && p.seqNo != 1
    requires p.body == before + (">>" + (Cursor.Digits(n) + after))
    ensures FirstRef(p.body) == Some(n)
    ensures ParentSeq(p, seqs) == if n < p.seqNo && n in seqs then Some(n) else Some(1)
  {
    hide Cursor.Digits, Cursor.Decimal;
    NothingBefore(before, ">>" + (Cursor.Digits(n) + after));
    Cursor.DigitsAreWritten(n);
    DigitsAreTheNumber(Cursor.Digits(n), after, 0);
    var tail := ">>" + (Cursor.Digits(n) + after);
    assert tail[0] == '>' && tail[1] == '>' && tail[2] == Cursor.Digits(n)[0] && tail[2..] == Cursor.Digits(n) + after;
    assert 0 * Ten(|Cursor.Digits(n)|) == 0;
  }

  /** And a body without `>>` in front of a digit refers to nothing: its reply goes to the OP. */
  lemma NoReference(p: Post, seqs: set<nat>)
    requires p.seqNo != 1 && NoneIn(p.body)
    ensures FirstRef(p.body) == None && ParentSeq(p, seqs) == Some(1)
  {
    NothingFound(p.body);
  }

  predicate NoneIn(body: string)
  {
    forall i | 0 <= i < |body| - 2 :: !(body[i] == '>' && body[i + 1] == '>' && IsDigit(body[i + 2]))
  }

  lemma {:induction false} NothingFound(body: string)
    requires NoneIn(body)
    ensures FirstRef(body) == None
  {
    if |body| >= 3 {
      assert forall i | 0 <= i < |body[1..]| :: body[1..][i] == body[i + 1];
      NothingFound(body[1..]);
    }
  }

  /** `a` is `x` or an ancestor of it. */
  ghost predicate AtOrAbove(posts: seq<Post>, a: nat, x: nat)
    requires IsThread(posts)
    decreases x
  {
    ParentIsEarlier(posts, x);
    a == x || (ParentOf(posts, x).Some? && AtOrAbove(posts, a, ParentOf(posts, x).value))
  }

  ghost predicate ProperAncestor(posts: seq<Post>, a: nat, x: nat)
    requires IsThread(posts)
  {
    ParentOf(posts, x).Some? && AtOrAbove(posts, a, ParentOf(posts, x).value)
  }

  lemma {:induction false} AncestorsAreEarlier(posts: seq<Post>, a: nat, x: nat)
    requires IsThread(posts) && AtOrAbove(posts, a, x)
    ensures a <= x && (Known(posts, x) ==> Known(posts, a))
    decreases x
  {
    ParentIsEarlier(posts, x);
    if a != x {
      AncestorsAreEarlier(posts, a, ParentOf(posts, x).value);
    }
  }

  lemma {:induction false} AncestorTransitive(posts: seq<Post>, a: nat, b: nat, c: nat)
    requires IsThread(posts) && AtOrAbove(posts, a, b) && AtOrAbove(posts, b, c)
    ensures AtOrAbove(posts, a, c)
    decreases c
  {
    ParentIsEarlier(posts, c);
    if b != c {
      AncestorTransitive(posts, a, b, ParentOf(posts, c).value);
    }
  }

  // ---------- The view filter ----------

  /** Every post the walk must bring into view: the proper ancestors of kept posts that are not kept. */
  ghost predicate IsContext(posts: seq<Post>, kept: set<nat>, x: nat)
    requires IsThread(posts)
  {
    x !in kept && exists k :: k in kept && ProperAncestor(posts, x, k)
  }

  /** Everything above a member is kept or a member, but for the post the walk stands on. */
  ghost predicate ClosedBut(posts: seq<Post>, kept: set<nat>, context: set<nat>, standing: Option<nat>)
    requires IsThread(posts)
  {
    forall x | x in context && Some(x) != standing && ParentOf(posts, x).Some? ::
      ParentOf(posts, x).value in kept || ParentOf(posts, x).value in context
  }

  ghost predicate SoundContext(posts: seq<Post>, kept: set<nat>, context: set<nat>)
    requires IsThread(posts)
  {
    forall x | x in context :: IsContext(posts, kept, x)
  }

  /** A closed set below which everything kept has its parent covers every ancestor. */
  lemma {:induction false} ClosedCoversAncestors(posts: seq<Post>, kept: set<nat>, context: set<nat>, a: nat, x: nat)
    requires IsThread(posts) && ClosedBut(posts, kept, context, None)
    requires forall k | k in kept && ParentOf(posts, k).Some? ::
               ParentOf(posts, k).value in kept || ParentOf(posts, k).value in context
    requires AtOrAbove(posts, a, x) && (x in kept || x in context)
    ensures a in kept || a in context
    decreases x
  {
    ParentIsEarlier(posts, x);
    if a != x {
      ClosedCoversAncestors(posts, kept, context, a, ParentOf(posts, x).value);
    }
  }

  /** The early-breaking walk of `applyVouchFilter`, over the kept posts in any order: it computes
      exactly the proper ancestors of kept posts that are not kept themselves. */
  method ContextOf(posts: seq<Post>, kept: set<nat>) returns (context: set<nat>)
    requires IsThread(posts) && kept <= Seqs(posts)
    ensures forall x :: x in context <==> IsContext(posts, kept, x)
  {
    context := {};
    var todo := kept;
    while todo != {}
      invariant todo <= kept && SoundContext(posts, kept, context) && ClosedBut(posts, kept, context, None)
      invariant forall k | k in kept && k !in todo && ParentOf(posts, k).Some? ::
                  ParentOf(posts, k).value in kept || ParentOf(posts, k).value in context
    {
      var k :| k in todo;
      todo := todo - {k};
      context := WalkUp(posts, kept, context, k);
    }
    forall x ensures x in context <==> IsContext(posts, kept, x) {
      if IsContext(posts, kept, x) {
        var k :| k in kept && ProperAncestor(posts, x, k);
        ClosedCoversAncestors(posts, kept, context, x, ParentOf(posts, k).value);
      }
    }
  }

  /** The walk goes one post up, into the context. */
  lemma OneUp(posts: seq<Post>, kept: set<nat>, context: set<nat>, k: nat, at: nat, up: nat)
    requires IsThread(posts) && k in kept && AtOrAbove(posts, at, k) && ParentOf(posts, at) == Some(up) && up !in kept
    requires SoundContext(posts, kept, context) && ClosedBut(posts, kept, context, Some(at))
    ensures AtOrAbove(posts, up, k)
    ensures SoundContext(posts, kept, context + {up}) && ClosedBut(posts, kept, context + {up}, Some(up))
  {
    AboveIsProper(posts, up, at, k);
    hide AtOrAbove, ProperAncestor, ParentOf;
  }

  /** The walk stops below a post that is accounted for, or at the top. */
  lemma StopsHere(posts: seq<Post>, kept: set<nat>, context: set<nat>, at: nat)
    requires IsThread(posts) && ClosedBut(posts, kept, context, Some(at))
    requires var up := ParentOf(posts, at); up.None? || up.value in kept || up.value in context
    ensures ClosedBut(posts, kept, context, None)
  {
  }

  /** The inner loop, from one kept post up to the first ancestor already accounted for. */
  method WalkUp(posts: seq<Post>, kept: set<nat>, before: set<nat>, k: nat) returns (context: set<nat>)
    requires IsThread(posts) && k in kept && kept <= Seqs(posts)
    requires SoundContext(posts, kept, before) && ClosedBut(posts, kept, before, None)
    ensures before <= context && SoundContext(posts, kept, context) && ClosedBut(posts, kept, context, None)
    ensures ParentOf(posts, k).Some? ==> ParentOf(posts, k).value in kept || ParentOf(posts, k).value in context
  {
    context := before;
    var cur := Find(posts, k);
    ghost var at := k;
    assert AtOrAbove(posts, at, k) && ClosedBut(posts, kept, context, Some(at));
    hide AtOrAbove, SoundContext, ClosedBut, IsThread, Seqs, ParentSeq;
    while cur.Some?
      invariant before <= context && SoundContext(posts, kept, context) && ClosedBut(posts, kept, context, Some(at))
      invariant AtOrAbove(posts, at, k) && cur == Find(posts, at)
      invariant at == k || (ParentOf(posts, k).Some? &&
                            (ParentOf(posts, k).value in kept || ParentOf(posts, k).value in context))
      decreases at
    {
      var parent := ParentSeq(cur.value, Seqs(posts));
      ParentIsEarlier(posts, at);
      if parent.None? || parent.value in kept || parent.value in context {
        StopsHere(posts, kept, context, at);
        return;
      }
      OneUp(posts, kept, context, k, at, parent.value);
      context := context + {parent.value};
      at := parent.value;
      cur := Find(posts, parent.value);
    }
    StopsHere(posts, kept, context, at);
  }

  lemma AboveIsProper(posts: seq<Post>, up: nat, at: nat, k: nat)
    requires IsThread(posts) && AtOrAbove(posts, at, k) && ParentOf(posts, at) == Some(up)
    ensures ProperAncestor(posts, up, k) && AtOrAbove(posts, up, k)
  {
    assert AtOrAbove(posts, up, at);
    if at != k {
      AncestorTransitive(posts, up, at, ParentOf(posts, k).value);
    }
  }

  datatype Look = Plain | Dim | Hidden

  /** The classes each article gets. The OP is never hidden. */
  method ApplyVouchFilter(posts: seq<Post>, passes: nat -> bool) returns (looks: map<nat, Look>)
    requires IsThread(posts)
    ensures looks.Keys == Seqs(posts)
    ensures var kept := set s | s in Seqs(posts) && passes(s);
            forall s | s in looks ::
              && (looks[s] == Plain <==> passes(s))
              && (looks[s] == Hidden <==> !passes(s) && s != 1 && !exists k :: k in kept && ProperAncestor(posts, s, k))
  {
    var kept: set<nat> := {};
    for i := 0 to |posts|
      invariant forall s :: s in kept <==> s in Seqs(posts[..i]) && passes(s)
    {
      assert Seqs(posts[..i + 1]) == Seqs(posts[..i]) + {posts[i].seqNo} by { SeqsOfPrefix(posts, i); }
      if passes(posts[i].seqNo) {
        kept := kept + {posts[i].seqNo};
      }
    }
    assert posts[..|posts|] == posts;
    var context := ContextOf(posts, kept);
    looks := map[];
    for i := 0 to |posts|
      invariant looks.Keys == Seqs(posts[..i])
      invariant forall s | s in looks ::
                  looks[s] == if s in kept then Plain else if s in context || s == 1 then Dim else Hidden
    {
      assert Seqs(posts[..i + 1]) == Seqs(posts[..i]) + {posts[i].seqNo} by { SeqsOfPrefix(posts, i); }
      var s := posts[i].seqNo;
      var isKept := s in kept;
      var isContext := !isKept && (s in context || s == 1);
      looks := looks[s := if !isKept && !isContext then Hidden else if isContext then Dim else Plain];
    }
    assert kept == set s | s in Seqs(posts) && passes(s);
  }

  lemma SeqsOfPrefix(posts: seq<Post>, i: nat)
    requires i < |posts|
    ensures Seqs(posts[..i + 1]) == Seqs(posts[..i]) + {posts[i].seqNo}
  {
    forall j | 0 <= j < i ensures posts[j].seqNo in Seqs(posts[..i + 1]) && posts[j].seqNo in Seqs(posts[..i]) {
      assert posts[..i + 1][j] == posts[j] && posts[..i][j] == posts[j];
    }
    assert posts[..i + 1][i] == posts[i];
  }
}
