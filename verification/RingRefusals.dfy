/** What no ring signature passes: another message than its own, or other responses than its own. */
module RingRefusals {
  import opened Bytes
  import opened PrimeField
  import opened RingSig

  /** Two messages no challenge of which agree. */
  ghost predicate Apart(su: Suite, m1: Message, m2: Message)
    requires su.q > 0
  {
    forall l1: Point, r1: Point, l2: Point, r2: Point :: su.hash(m1, l1, r1) % su.q != su.hash(m2, l2, r2) % su.q
  }

  /** A walk that comes back makes its first challenge a hash of its message. */
  lemma FirstIsAHash(su: Suite, st: Statement, sig: RingSignature, quiet: bool) returns (l: Point, r: Point)
    requires su.q > 0 && |st.bases| == |st.ring| == |sig.s| > 0 && WalksComeBack(su, st, sig, quiet)
    ensures sig.c0 == su.hash(st.m, l, r) % su.q
  {
    var c := WalkExists(su, st, sig);
    var i := |st.ring| - 1;
    WalkLength(su, st, sig, c);
    assert Links(su, st.m, st.ring[i], st.bases[i], sig.keyImage, sig.s[i], c[i], c[i + 1]);
    hide IsWalk;
    l, r := LinkHash(su, st.m, st.ring[i], st.bases[i], sig.keyImage, sig.s[i], c[i], c[i + 1]);
  }

  lemma LinkHash(su: Suite, m: Message, p: Point, h: Point, image: Point, s: int, c: int, next: int)
    returns (l: Point, r: Point)
    requires su.q > 0 && Links(su, m, p, h, image, s, c, next)
    ensures next == su.hash(m, l, r) % su.q
  {
    l := Point(((s * 1) % su.q + (c * p.residue) % su.q) % su.q);
    r := Point(((s * h.residue) % su.q + (c * image.residue) % su.q) % su.q);
  }

  lemma OneMessage(su: Suite, st1: Statement, st2: Statement, sig1: RingSignature, sig2: RingSignature, quiet: bool)
    requires su.q > 0 && Apart(su, st1.m, st2.m) && sig1.c0 == sig2.c0
    requires |st1.bases| == |st1.ring| == |sig1.s| > 0 && |st2.bases| == |st2.ring| == |sig2.s| > 0
    ensures !(WalksComeBack(su, st1, sig1, quiet) && WalksComeBack(su, st2, sig2, quiet))
  {
    hide WalksComeBack;
    if WalksComeBack(su, st1, sig1, quiet) {
      var l1, r1 := FirstIsAHash(su, st1, sig1, quiet);
      if WalksComeBack(su, st2, sig2, quiet) {
        var l2, r2 := FirstIsAHash(su, st2, sig2, quiet);
      }
    }
  }

  /** The browser's verifier takes no signature for two messages, whatever rings, bases and responses come
      with its first challenge. */
  method ReaderTakesOneMessage(su: Suite, st1: Statement, st2: Statement, sig1: RingSignature, sig2: RingSignature)
    returns (ok1: bool, ok2: bool)
    requires su.q > 0 && |st1.bases| == |st1.ring| && |st2.bases| == |st2.ring|
    requires Apart(su, st1.m, st2.m) && sig1.c0 == sig2.c0
    ensures !(ok1 && ok2)
  {
    hide WalksComeBack, Apart, ReaderAccepts;
    ok1 := RingVerify(su, st1, sig1);
    ok2 := RingVerify(su, st2, sig2);
    if 0 < |st1.ring| == |sig1.s| && 0 < |st2.ring| == |sig2.s| {
      OneMessage(su, st1, st2, sig1, sig2, true);
    }
  }

  /** Nor does the server's. */
  method ServerTakesOneMessage(su: Suite, keys: seq<Key>, st1: Statement, st2: Statement, sig1: RingSignature,
                               sig2: RingSignature)
    returns (ok1: bool, ok2: bool)
    requires su.q > 0 && |keys| == |st1.ring| == |st1.bases| == |st2.ring| == |st2.bases|
    requires Apart(su, st1.m, st2.m) && sig1.c0 == sig2.c0
    ensures !(ok1 && ok2)
  {
    hide WalksComeBack, Apart, ServerAccepts, StrictlySorted;
    ok1 := VerifyVouch(su, keys, st1, sig1);
    ok2 := VerifyVouch(su, keys, st2, sig2);
    if 0 < |st1.ring| == |sig1.s| && 0 < |st2.ring| == |sig2.s| {
      OneMessage(su, st1, st2, sig1, sig2, false);
    }
  }

  /** The two points hashed at position `i`. */
  function PointsAt(su: Suite, st: Statement, sig: RingSignature, i: nat): (Point, Point)
    requires su.q > 0 && i < |st.ring| == |st.bases| == |sig.s|
  {
    (LeftPoint(su, st, i, sig.s[i], WalkTo(su, st, sig, i)),
     RightPoint(su, st, sig.keyImage, i, sig.s[i], WalkTo(su, st, sig, i)))
  }

  /** Going back from a place where the challenges agree to one where response or challenge do not. */
  lemma {:induction false} LastDifference(su: Suite, st: Statement, sig1: RingSignature, sig2: RingSignature, k: nat)
    returns (i: nat)
    requires su.q > 0 && k <= |st.ring| == |st.bases| == |sig1.s| == |sig2.s|
    requires WalkTo(su, st, sig1, k) == WalkTo(su, st, sig2, k) && sig1.s[..k] != sig2.s[..k]
    ensures i < k && WalkTo(su, st, sig1, i + 1) == WalkTo(su, st, sig2, i + 1)
    ensures sig1.s[i] != sig2.s[i] || WalkTo(su, st, sig1, i) != WalkTo(su, st, sig2, i)
  {
    hide NextChallenge, WalkTo;
    if sig1.s[k - 1] != sig2.s[k - 1] || WalkTo(su, st, sig1, k - 1) != WalkTo(su, st, sig2, k - 1) {
      i := k - 1;
    } else {
      assert sig1.s[..k] == sig1.s[..k - 1] + [sig1.s[k - 1]] && sig2.s[..k] == sig2.s[..k - 1] + [sig2.s[k - 1]];
      i := LastDifference(su, st, sig1, sig2, k - 1);
    }
  }

  lemma SameChallengeOtherResponse(su: Suite, p: Point, s1: int, s2: int, c: int)
    requires su.q > 0 && su.IsScalar(s1) && su.IsScalar(s2) && s1 != s2
    ensures su.Add(su.Mul(s1, su.G), su.Mul(c, p)) != su.Add(su.Mul(s2, su.G), su.Mul(c, p))
  {
    ModIsUnique(s1, 0, s1, su.q);
    ModIsUnique(s2, 0, s2, su.q);
    var v := su.Mul(c, p).residue;
    SumsDiffer(s1, s2, v, su.q);
  }

  lemma SumsDiffer(a: int, b: int, v: int, q: int)
    requires 0 <= a < q && 0 <= b < q && 0 <= v < q && a != b
    ensures (a + v) % q != (b + v) % q
  {
    ModIsUnique(a + v, if a + v < q then 0 else 1, if a + v < q then a + v else a + v - q, q);
    ModIsUnique(b + v, if b + v < q then 0 else 1, if b + v < q then b + v else b + v - q, q);
  }

  /** No response can be changed. Two signatures the server takes over one statement, with one key image and
      one first challenge, but different responses, give at some position either two different pairs of
      points with one challenge, a collision of the hash, or one pair of points under two challenges, from
      which `Extraction` takes the scalar behind the ring key and the key image. */
  lemma ChangedResponseIsACollisionOrTheKey(su: Suite, st: Statement, sig1: RingSignature, sig2: RingSignature)
    returns (i: nat)
    requires su.q > 0 && ServerAccepts(su, st, sig1) && ServerAccepts(su, st, sig2)
    requires sig1.keyImage == sig2.keyImage && sig1.c0 == sig2.c0 && sig1.s != sig2.s
    ensures i < |st.ring| == |st.bases| == |sig1.s| == |sig2.s|
    ensures WalkTo(su, st, sig1, i + 1) == WalkTo(su, st, sig2, i + 1)
    ensures PointsAt(su, st, sig1, i) != PointsAt(su, st, sig2, i) ||
            WalkTo(su, st, sig1, i) != WalkTo(su, st, sig2, i)
  {
    hide NextChallenge, WalkTo, Suite.Add, Suite.Mul;
    var n := |st.ring|;
    assert sig1.s[..n] == sig1.s && sig2.s[..n] == sig2.s;
    i := LastDifference(su, st, sig1, sig2, n);
    if WalkTo(su, st, sig1, i) == WalkTo(su, st, sig2, i) {
      SameChallengeOtherResponse(su, st.ring[i], sig1.s[i], sig2.s[i], WalkTo(su, st, sig1, i));
    }
  }
}
