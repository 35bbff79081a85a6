/** Display names in a thread. */
module ThreadLabels {
  import opened Bytes
  import opened ThreadView

  datatype Label = OP | Anon(n: nat)

  function OpKey(posts: seq<Post>): Option<Key>
  {
    var op := Find(posts, 1);
    if op.Some? then op.value.pubkey else None
  }

  predicate IsOp(p: Post, opKey: Option<Key>) { p.seqNo == 1 || (p.pubkey.Some? && p.pubkey == opKey) }

  ghost predicate SameSigner(a: Post, b: Post) { a.pubkey.Some? && a.pubkey == b.pubkey }

  /** The OP itself, or signed with the key the OP is signed with. */
  ghost predicate ByTheOp(posts: seq<Post>, p: Post)
  {
    p.seqNo == 1 || exists j :: 0 <= j < |posts| && posts[j].seqNo == 1 && SameSigner(posts[j], p)
  }

  /** Names for the posts in order: OP for the OP's; of the others two carry one name exactly when one
      key signed both; and the numbers run from 1 up to `next` without a gap. */
  ghost predicate Naming(posts: seq<Post>, names: seq<Label>, opKey: Option<Key>, next: nat)
  {
    && |names| == |posts|
    && (forall j | 0 <= j < |posts| :: names[j] == OP <==> IsOp(posts[j], opKey))
    && (forall j, k | 0 <= j < k < |posts| && names[j].Anon? && names[k].Anon? ::
          names[j] == names[k] <==> SameSigner(posts[j], posts[k]))
    && (forall j | 0 <= j < |posts| && names[j].Anon? :: 1 <= names[j].n < next)
    && (forall n | 1 <= n < next :: Anon(n) in names)
  }

  /** No number is given before the one below it. */
  ghost predicate InTurn(names: seq<Label>)
  {
    forall j | 0 <= j < |names| && names[j].Anon? && names[j].n != 1 ::
      names[j].n > 1 && GivenBefore(names, j, names[j].n - 1)
  }

  ghost predicate GivenBefore(names: seq<Label>, j: nat, n: nat)
    requires j <= |names|
  {
    exists k :: 0 <= k < j && names[k] == Anon(n)
  }

  lemma LastIsGiven(posts: seq<Post>, names: seq<Label>, opKey: Option<Key>, next: nat)
    requires Naming(posts, names, opKey, next)
    ensures |names| == |posts| && (next > 1 ==> Anon(next - 1) in names)
  {
  }

  lemma InTurnGrows(names: seq<Label>, name: Label, next: nat)
    requires InTurn(names) && next >= 1 && (next > 1 ==> Anon(next - 1) in names)
    requires name.Anon? ==> name in names || name.n == next
    ensures InTurn(names + [name])
  {
    var ns := names + [name];
    forall j | 0 <= j < |ns| && ns[j].Anon? && ns[j].n != 1 ensures ns[j].n > 1 && GivenBefore(ns, j, ns[j].n - 1) {
      var m := j;
      if j == |names| && name in names { m :| 0 <= m < |names| && names[m] == name; }
      if m < |names| {
        assert GivenBefore(names, m, names[m].n - 1);
        var k :| 0 <= k < m && names[k] == Anon(names[m].n - 1);
        assert ns[k] == names[k];
      } else {
        var k :| 0 <= k < |names| && names[k] == Anon(next - 1);
        assert ns[k] == names[k];
      }
    }
  }

  /** `keyToLabel` holds the number of every key named so far. */
  ghost predicate Remembers(posts: seq<Post>, names: seq<Label>, keyToLabel: map<Key, nat>)
    requires |names| == |posts|
  {
    && (forall j | 0 <= j < |posts| && names[j].Anon? && posts[j].pubkey.Some? ::
          posts[j].pubkey.value in keyToLabel && keyToLabel[posts[j].pubkey.value] == names[j].n)
    && (forall k | k in keyToLabel :: NamedSomewhere(posts, names, k, keyToLabel[k]))
  }

  ghost predicate NamedSomewhere(posts: seq<Post>, names: seq<Label>, key: Key, n: nat)
    requires |names| == |posts|
  {
    exists j :: 0 <= j < |posts| && posts[j].pubkey == Some(key) && names[j] == Anon(n)
  }

  /** The body of the loop: the next post's name, given the names so far. */
  method NameOne(ghost posts: seq<Post>, ghost names: seq<Label>, p: Post, opKey: Option<Key>,
                 keyToLabel: map<Key, nat>, nextAnon: nat)
    returns (name: Label, keyToLabel': map<Key, nat>, nextAnon': nat)
    requires nextAnon >= 1 && Naming(posts, names, opKey, nextAnon) && Remembers(posts, names, keyToLabel)
    requires InTurn(names)
    ensures nextAnon' >= 1 && Naming(posts + [p], names + [name], opKey, nextAnon') && InTurn(names + [name])
    ensures Remembers(posts + [p], names + [name], keyToLabel')
  {
    hide Naming, InTurn, SameSigner;
    LastIsGiven(posts, names, opKey, nextAnon);
    name, keyToLabel', nextAnon' := OP, keyToLabel, nextAnon;
    if p.seqNo == 1 || (opKey.Some? && p.pubkey == opKey) {
    } else if p.pubkey.Some? && p.pubkey.value in keyToLabel {
      name := Anon(keyToLabel[p.pubkey.value]);
      assert NamedSomewhere(posts, names, p.pubkey.value, keyToLabel[p.pubkey.value]);
    } else {
      name := Anon(nextAnon);
      nextAnon' := nextAnon + 1;
      if p.pubkey.Some? {
        keyToLabel' := keyToLabel[p.pubkey.value := nextAnon];
      }
    }
    InTurnGrows(names, name, nextAnon);
    NamingGrows(posts, names, p, name, opKey, nextAnon, nextAnon', keyToLabel);
    RemembersMore(posts, names, p, name, keyToLabel, keyToLabel');
  }

  lemma NamingGrows(posts: seq<Post>, names: seq<Label>, p: Post, name: Label, opKey: Option<Key>, next: nat, next': nat,
                    keyToLabel: map<Key, nat>)
    requires Naming(posts, names, opKey, next) && Remembers(posts, names, keyToLabel)
    requires name == OP <==> IsOp(p, opKey)
    requires name == OP ==> next' == next
    requires name.Anon? ==> if p.pubkey.Some? && p.pubkey.value in keyToLabel
                            then name.n == keyToLabel[p.pubkey.value] && next' == next
                            else name.n == next && next' == next + 1 && next >= 1
    ensures Naming(posts + [p], names + [name], opKey, next')
  {
    var ps, ns := posts + [p], names + [name];
    if name.Anon? && p.pubkey.Some? && p.pubkey.value in keyToLabel {
      assert NamedSomewhere(posts, names, p.pubkey.value, keyToLabel[p.pubkey.value]);
    }
    forall n | 1 <= n < next' ensures Anon(n) in ns {
      if n < next { assert Anon(n) in names; } else { assert ns[|names|] == Anon(n); }
    }
    forall j, k | 0 <= j < k < |ps| && ns[j].Anon? && ns[k].Anon? ensures ns[j] == ns[k] <==> SameSigner(ps[j], ps[k]) {
      if k < |posts| {
        assert ps[j] == posts[j] && ps[k] == posts[k];
      } else if p.pubkey.Some? && p.pubkey.value in keyToLabel {
        var m :| 0 <= m < |posts| && posts[m].pubkey == p.pubkey && names[m] == Anon(keyToLabel[p.pubkey.value]);
        assert j != m ==> (names[j] == names[m] <==> SameSigner(posts[j], posts[m]));
      }
    }
  }

  lemma RemembersMore(posts: seq<Post>, names: seq<Label>, p: Post, name: Label, keyToLabel: map<Key, nat>,
                      keyToLabel': map<Key, nat>)
    requires |names| == |posts| && Remembers(posts, names, keyToLabel)
    requires keyToLabel' == if name.Anon? && p.pubkey.Some? then keyToLabel[p.pubkey.value := name.n] else keyToLabel
    requires name.Anon? && p.pubkey.Some? && p.pubkey.value in keyToLabel ==> name.n == keyToLabel[p.pubkey.value]
    ensures Remembers(posts + [p], names + [name], keyToLabel')
  {
    var ps, ns := posts + [p], names + [name];
    forall k | k in keyToLabel' ensures NamedSomewhere(ps, ns, k, keyToLabel'[k]) {
      if name.Anon? && p.pubkey == Some(k) {
        assert ps[|posts|] == p && ns[|posts|] == Anon(keyToLabel'[k]);
      } else {
        assert NamedSomewhere(posts, names, k, keyToLabel[k]);
        var j :| 0 <= j < |posts| && posts[j].pubkey == Some(k) && names[j] == Anon(keyToLabel[k]);
        assert ps[j] == posts[j] && ns[j] == names[j];
      }
    }
    forall j | 0 <= j < |ps| && ns[j].Anon? && ps[j].pubkey.Some?
      ensures ps[j].pubkey.value in keyToLabel' && keyToLabel'[ps[j].pubkey.value] == ns[j].n
    {
      if j < |posts| { assert ps[j] == posts[j] && ns[j] == names[j]; }
    }
  }

  function NamesOf(posts: seq<Post>, labels: map<nat, Label>): seq<Label>
    requires forall i | 0 <= i < |posts| :: posts[i].seqNo in labels
  {
    seq(|posts|, i requires 0 <= i < |posts| => labels[posts[i].seqNo])
  }

  /** `assignLabels`: the OP's posts are named OP, every other key has one name of its own, and every
      unsigned post has a name no other post has. */
  method AssignLabels(posts: seq<Post>) returns (labels: map<nat, Label>, nextAnon: nat)
    requires DistinctSeqs(posts)
    ensures labels.Keys == Seqs(posts) + {1} && labels[1] == OP
    ensures forall i | 0 <= i < |posts| :: posts[i].seqNo in labels
    ensures Naming(posts, NamesOf(posts, labels), OpKey(posts), nextAnon)
    ensures forall i | 0 <= i < |posts| ::
              labels[posts[i].seqNo] == OP <==>
              ByTheOp(posts, posts[i])
    ensures forall i, j | 0 <= i < j < |posts| && labels[posts[i].seqNo].Anon? && labels[posts[j].seqNo].Anon? ::
              labels[posts[i].seqNo] == labels[posts[j].seqNo] <==>
              posts[i].pubkey.Some? && posts[i].pubkey == posts[j].pubkey
    ensures forall j | 0 <= j < |posts| && labels[posts[j].seqNo].Anon? && labels[posts[j].seqNo].n != 1 ::
              labels[posts[j].seqNo].n > 1 &&
              exists k :: 0 <= k < j && labels[posts[k].seqNo] == Anon(labels[posts[j].seqNo].n - 1)
  {
    hide Naming, Remembers, Seqs, OpKey, InTurn, SameSigner;
    var opPubkey := OpKey(posts);
    labels, nextAnon := map[1 := OP], 1;
    var keyToLabel: map<Key, nat> := map[];
    ghost var names: seq<Label> := [];
    NothingNamed(opPubkey);
    assert posts[..0] == [];
    NothingLabelled();
    for i := 0 to |posts|
      invariant nextAnon >= 1 && |names| == i && Labelled(posts[..i], names, labels) && InTurn(names)
      invariant Naming(posts[..i], names, opPubkey, nextAnon) && Remembers(posts[..i], names, keyToLabel)
    {
      ghost var before := labels;
      var name: Label;
      name, keyToLabel, nextAnon := NameOne(posts[..i], names, posts[i], opPubkey, keyToLabel, nextAnon);
      assert posts[..i + 1] == posts[..i] + [posts[i]];
      labels := labels[posts[i].seqNo := name];
      LabelledMore(posts, i, names, name, before, opPubkey, nextAnon);
      names := names + [name];
    }
    assert posts[..|posts|] == posts;
    AllLabelled(posts, names, labels);
    NamesMean(posts, labels, nextAnon);
  }

  lemma NamesMean(posts: seq<Post>, labels: map<nat, Label>, next: nat)
    requires DistinctSeqs(posts) && forall i | 0 <= i < |posts| :: posts[i].seqNo in labels
    requires Naming(posts, NamesOf(posts, labels), OpKey(posts), next) && InTurn(NamesOf(posts, labels))
    ensures forall i | 0 <= i < |posts| ::
              labels[posts[i].seqNo] == OP <==>
              ByTheOp(posts, posts[i])
    ensures forall i, j | 0 <= i < j < |posts| && labels[posts[i].seqNo].Anon? && labels[posts[j].seqNo].Anon? ::
              labels[posts[i].seqNo] == labels[posts[j].seqNo] <==>
              posts[i].pubkey.Some? && posts[i].pubkey == posts[j].pubkey
    ensures forall j | 0 <= j < |posts| && labels[posts[j].seqNo].Anon? && labels[posts[j].seqNo].n != 1 ::
              labels[posts[j].seqNo].n > 1 &&
              exists k :: 0 <= k < j && labels[posts[k].seqNo] == Anon(labels[posts[j].seqNo].n - 1)
  {
    var names := NamesOf(posts, labels);
    assert forall i | 0 <= i < |posts| :: names[i] == labels[posts[i].seqNo];
    forall i | 0 <= i < |posts|
      ensures IsOp(posts[i], OpKey(posts)) <==>
              ByTheOp(posts, posts[i])
    {
      if OpKey(posts).Some? {
        var op := Find(posts, 1).value;
        var j :| 0 <= j < |posts| && posts[j] == op;
      }
      if j :| 0 <= j < |posts| && posts[j].seqNo == 1 && SameSigner(posts[j], posts[i]) { FindIs(posts, j); }
    }
    hide IsOp, OpKey, SameSigner;
    forall j | 0 <= j < |posts| && names[j].Anon? && names[j].n != 1
      ensures exists k :: 0 <= k < j && labels[posts[k].seqNo] == Anon(names[j].n - 1)
    {
      assert GivenBefore(names, j, names[j].n - 1);
      var k :| 0 <= k < j && names[k] == Anon(names[j].n - 1);
      assert names[k] == labels[posts[k].seqNo];
    }
  }

  /** The map holds the names so far, and OP for the first number. */
  ghost predicate Labelled(posts: seq<Post>, names: seq<Label>, labels: map<nat, Label>)
    requires |names| == |posts|
  {
    && labels.Keys == Seqs(posts) + {1} && labels[1] == OP
    && forall j | 0 <= j < |posts| :: posts[j].seqNo in labels && names[j] == labels[posts[j].seqNo]
  }

  lemma NothingLabelled()
    ensures Labelled([], [], map[1 := OP])
  {
  }

  lemma LabelledMore(posts: seq<Post>, i: nat, names: seq<Label>, name: Label, labels: map<nat, Label>,
                     opKey: Option<Key>, next: nat)
    requires DistinctSeqs(posts) && i < |posts| && |names| == i && Labelled(posts[..i], names, labels)
    requires Naming(posts[..i + 1], names + [name], opKey, next)
    ensures Labelled(posts[..i + 1], names + [name], labels[posts[i].seqNo := name])
  {
    hide Seqs;
    SeqsOfPrefix(posts, i);
    OpIsLabelledOp(posts[..i + 1], names + [name], i, opKey, next);
    hide Naming;
    assert (names + [name])[i] == name && posts[..i + 1][i] == posts[i];
    forall j | 0 <= j < i
      ensures posts[..i + 1][j].seqNo in labels && (names + [name])[j] == labels[posts[..i + 1][j].seqNo]
      ensures posts[..i + 1][j].seqNo != posts[i].seqNo
    {
      assert posts[..i][j] == posts[j] && posts[..i + 1][j] == posts[j];
    }
  }

  lemma OpIsLabelledOp(posts: seq<Post>, names: seq<Label>, i: nat, opKey: Option<Key>, next: nat)
    requires Naming(posts, names, opKey, next) && i < |posts|
    ensures posts[i].seqNo == 1 ==> names[i] == OP
  {
  }

  lemma AllLabelled(posts: seq<Post>, names: seq<Label>, labels: map<nat, Label>)
    requires |names| == |posts| && Labelled(posts, names, labels)
    ensures forall i | 0 <= i < |posts| :: posts[i].seqNo in labels
    ensures NamesOf(posts, labels) == names
  {
  }

  lemma NothingNamed(opKey: Option<Key>)
    ensures Naming([], [], opKey, 1) && Remembers([], [], map[]) && InTurn([])
  {
  }
}
