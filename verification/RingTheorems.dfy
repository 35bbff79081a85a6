/** What the ring walk proves about its signer: an honest signature always closes, and two answers
    to one commitment give the signing scalar away. */
module RingTheorems {
  import opened PrimeField
  import opened RingSig

  /** The response `alpha - c*x` turns `s*h + c*(x*h)` back into the commitment `alpha*h`. */
  lemma ResponseCancels(alpha: int, c: int, x: int, h: int, q: int)
    requires q > 0
    ensures var s := (alpha - (c * x) % q) % q;
            ((s * h) % q + (c * ((x * h) % q)) % q) % q == (alpha * h) % q
  {
    var k2, cx := Divide(c * x, q);
    var k1, s := Divide(alpha - cx, q);
    var k3, xh := Divide(x * h, q);
    AddMod(s * h, c * xh, q);
    ResponseCancelsDivided(alpha, c, x, h, q, k1, s, k2, cx, k3, xh);
  }

  lemma ResponseCancelsDivided(alpha: int, c: int, x: int, h: int, q: int, k1: int, s: int, k2: int, cx: int,
                               k3: int, xh: int)
    requires q > 0 && c * x == q * k2 + cx && alpha - cx == q * k1 + s && x * h == q * k3 + xh
    ensures (s * h + c * xh) % q == (alpha * h) % q
  {
    assert s == alpha - c * x + (k2 - k1) * q;
    ResponseExpands(alpha, c, x, h, k2 - k1, k3, q);
    SameModMod(s * h + c * xh, alpha * h, (k2 - k1) * h - c * k3, q);
  }

  lemma ResponseExpands(alpha: int, c: int, x: int, h: int, k: int, k3: int, q: int)
    ensures (alpha - c * x + k * q) * h + c * (x * h - q * k3) == alpha * h + (k * h - c * k3) * q
  {
    assert (alpha - c * x + k * q) * h == alpha * h - c * x * h + k * q * h;
    assert c * (x * h - q * k3) == c * (x * h) - c * (q * k3);
    assert c * x * h == c * (x * h);
    assert (k * h - c * k3) * q == k * q * h - c * (q * k3);
  }

  ghost predicate OwnsKey(su: Suite, st: Statement, d: Draw, x: Scalar)
    requires su.q > 0 && d.Fits(st)
  {
    st.ring[d.pi] == su.Mul(x, su.G) && d.keyImage == su.Mul(x, st.bases[d.pi])
  }

  /** At the signer's own position the verifier recomputes the signer's commitment. */
  lemma SignerPosition(su: Suite, st: Statement, d: Draw, x: Scalar)
    requires su.q > 0 && d.Fits(st) && OwnsKey(su, st, d, x)
    ensures NextChallenge(su, st, d.keyImage, d.pi, ClosingResponse(su, st, d, x), SignChallenge(su, st, d, |st.ring|))
         == SignChallenge(su, st, d, 1)
  {
    var c := SignChallenge(su, st, d, |st.ring|);
    hide SignChallenge;
    ResponseCancels(d.alpha, c, x, 1, su.q);
    ResponseCancels(d.alpha, c, x, st.bases[d.pi].residue, su.q);
    assert LeftPoint(su, st, d.pi, ClosingResponse(su, st, d, x), c) == su.Mul(d.alpha, su.G);
    assert RightPoint(su, st, d.keyImage, d.pi, ClosingResponse(su, st, d, x), c) == su.Mul(d.alpha, st.bases[d.pi]);
    FirstChallenge(su, st, d);
  }

  lemma FirstChallenge(su: Suite, st: Statement, d: Draw)
    requires su.q > 0 && d.Fits(st)
    ensures SignChallenge(su, st, d, 1)
         == su.Challenge(st.m, su.Mul(d.alpha, su.G), su.Mul(d.alpha, st.bases[d.pi]))
  {
  }

  /** The verifier starts at position 0 and the signer one past itself, yet at every position they
      hold the same challenge. */
  lemma {:induction false} WalkFollowsSigner(su: Suite, st: Statement, d: Draw, x: Scalar, i: nat)
    requires su.q > 0 && d.Fits(st) && OwnsKey(su, st, d, x) && i < |st.ring|
    ensures WalkTo(su, st, SignatureOf(su, st, d, x), i) == SignChallenge(su, st, d, Offset(d.pi, i, |st.ring|))
  {
    hide NextChallenge, SignChallenge, ResponseAt, OwnsKey;
    if i > 0 {
      WalkFollowsSigner(su, st, d, x, i - 1);
      StepFollowsSigner(su, st, d, x, i - 1);
    }
  }

  lemma StepFollowsSigner(su: Suite, st: Statement, d: Draw, x: Scalar, i: nat)
    requires su.q > 0 && d.Fits(st) && OwnsKey(su, st, d, x) && i < |st.ring|
    ensures var n, s := |st.ring|, SignatureOf(su, st, d, x).s[i];
            (NextChallenge(su, st, d.keyImage, i, s, SignChallenge(su, st, d, Offset(d.pi, i, n)))
              == SignChallenge(su, st, d, Offset(d.pi, if i + 1 < n then i + 1 else 0, n)))
  {
    var n := |st.ring|;
    var next := if i + 1 < n then i + 1 else 0;
    if i == d.pi {
      SignerPosition(su, st, d, x);
      hide NextChallenge, SignChallenge;
      assert Offset(d.pi, i, n) == n && Offset(d.pi, next, n) == 1;
    } else {
      hide NextChallenge;
      assert Offset(d.pi, next, n) == Offset(d.pi, i, n) + 1;
    }
  }

  /** Completeness: for every ring size up to the limit, signer position, message and randomness,
      a signature made with the scalar behind the signer's key and key image closes the ring. The
      server takes it whenever it takes the points and random responses in it, and the reader
      takes it exactly when moreover none of the four multiplications at the signer's own
      position, the only ones not already made while signing, throws. */
  lemma Completeness(su: Suite, st: Statement, d: Draw, x: Scalar)
    requires su.q > 0 && d.Fits(st) && OwnsKey(su, st, d, x)
    ensures var sig := SignatureOf(su, st, d, x);
            && Closes(su, st, sig)
            && (ServerAccepts(su, st, sig) <==>
                  PointsValid(su, st, sig) && forall j | 0 <= j < |d.rnd| :: su.IsScalar(d.rnd[j]))
            && (SigningRuns(su, st, d) ==>
                 (ReaderAccepts(su, st, sig) <==>
                    PointsValid(su, st, sig) &&
                    StepRuns(su, st, d.keyImage, d.pi, sig.s[d.pi], SignChallenge(su, st, d, |st.ring|))))
  {
    hide NextChallenge, SignChallenge, ResponseAt, OwnsKey, StepRuns, SigningRuns;
    var n := |st.ring|;
    var sig := SignatureOf(su, st, d, x);
    WalkFollowsSigner(su, st, d, x, n - 1);
    StepFollowsSigner(su, st, d, x, n - 1);
    assert Closes(su, st, sig);
    CanonicalWhenDrawnSo(su, st, d, x);
    if SigningRuns(su, st, d) {
      WalkRunsLikeSigning(su, st, d, x);
    }
  }

  lemma ChallengeIsScalar(su: Suite, st: Statement, d: Draw, j: nat)
    requires su.q > 0 && d.Fits(st) && 1 <= j <= |st.ring|
    ensures su.IsScalar(SignChallenge(su, st, d, j))
  {
    FirstChallenge(su, st, d);
  }

  lemma CanonicalWhenDrawnSo(su: Suite, st: Statement, d: Draw, x: Scalar)
    requires su.q > 0 && d.Fits(st)
    ensures CanonicalScalars(su, SignatureOf(su, st, d, x)) <==> forall j | 0 <= j < |d.rnd| :: su.IsScalar(d.rnd[j])
  {
    var n := |st.ring|;
    var sig := SignatureOf(su, st, d, x);
    ChallengeIsScalar(su, st, d, Offset(d.pi, 0, n));
    hide SignChallenge, ClosingResponse;
    assert su.IsScalar(sig.s[d.pi]);
    if forall j | 0 <= j < |d.rnd| :: su.IsScalar(d.rnd[j]) {
      assert CanonicalScalars(su, sig);
    }
    if CanonicalScalars(su, sig) {
      forall j | 0 <= j < |d.rnd| ensures su.IsScalar(d.rnd[j]) {
        var i := Around(d.pi, j + 1, n);
        assert Offset(d.pi, i, n) == j + 1;
        assert sig.s[i] == d.rnd[j];
      }
    }
  }

  lemma WalkRunsLikeSigning(su: Suite, st: Statement, d: Draw, x: Scalar)
    requires su.q > 0 && d.Fits(st) && OwnsKey(su, st, d, x) && SigningRuns(su, st, d)
    ensures var sig := SignatureOf(su, st, d, x);
            WalkRuns(su, st, sig) <==>
              StepRuns(su, st, d.keyImage, d.pi, sig.s[d.pi], SignChallenge(su, st, d, |st.ring|))
  {
    hide SignChallenge, StepRuns, OwnsKey, WalkTo, ClosingResponse;
    var n := |st.ring|;
    var sig := SignatureOf(su, st, d, x);
    WalkFollowsSigner(su, st, d, x, d.pi);
    forall i | 0 <= i < n && i != d.pi ensures StepRuns(su, st, sig.keyImage, i, sig.s[i], WalkTo(su, st, sig, i)) {
      WalkFollowsSigner(su, st, d, x, i);
      assert SigningStepRuns(su, st, d, Offset(d.pi, i, n));
    }
  }

  /** The scalar two answers to one commitment determine. */
  function Extracted(su: Suite, s1: Scalar, c1: Scalar, s2: Scalar, c2: Scalar): (x: Scalar)
    requires su.Valid() && (c1 - c2) % su.q != 0
    ensures su.IsScalar(x)
  {
    ((s2 - s1) * Inverse((c1 - c2) % su.q, su.q)) % su.q
  }

  lemma SolveForPoint(q: int, s1: int, c1: int, s2: int, c2: int, h: int, v: int)
    requires IsPrime(q) && (c1 - c2) % q != 0 && 0 <= v < q
    requires (s1 * h + c1 * v) % q == (s2 * h + c2 * v) % q
    ensures var x := ((s2 - s1) * Inverse((c1 - c2) % q, q)) % q;
            v == (x * h) % q
  {
    var e, m := c1 - c2, s2 - s1;
    var w, d := Divide(e, q);
    var i := Inverse(d, q);
    InverseCorrect(d, q);
    var u, one := Divide(d * i, q);
    var z, x := Divide(m * i, q);
    var t := SubtractEquations(q, s1, c1, s2, c2, h, v);
    Eliminate(q, d, i, u, e, w, v, m, h, t, z, x);
    SameModMod(v, x * h, i * t - w * i * v - u * v + z * h, q);
    ModIsUnique(v, 0, v, q);
  }

  lemma SubtractEquations(q: int, s1: int, c1: int, s2: int, c2: int, h: int, v: int) returns (t: int)
    requires q > 0 && (s1 * h + c1 * v) % q == (s2 * h + c2 * v) % q
    ensures (c1 - c2) * v == (s2 - s1) * h + t * q
  {
    var a, b := s1 * h + c1 * v, s2 * h + c2 * v;
    t := a / q - b / q;
    assert a == q * (a / q) + a % q && b == q * (b / q) + b % q;
    assert (c1 - c2) * v == c1 * v - c2 * v;
    assert (s2 - s1) * h == s2 * h - s1 * h;
  }

  lemma Eliminate(q: int, d: int, i: int, u: int, e: int, w: int, v: int, m: int, h: int, t: int, z: int, x: int)
    requires d * i == q * u + 1 && e == q * w + d && e * v == m * h + t * q && m * i == q * z + x
    ensures v == x * h + (i * t - w * i * v - u * v + z * h) * q
  {
    CancelInverse(q, d, i, u, e, w, v);
    Substitute(q, i, m, h, t, z, x);
    Gather(i * t, w * i * v, u * v, z * h, q);
    LinearSum(v, i * (e * v), (w * i * v + u * v) * q, x * h, (z * h + i * t) * q,
              (i * t - w * i * v - u * v + z * h) * q);
  }

  lemma LinearSum(v: int, iev: int, b: int, xh: int, c: int, total: int)
    requires v == iev - b && iev == xh + c && total == c - b
    ensures v == xh + total
  {
  }

  lemma Substitute(q: int, i: int, m: int, h: int, t: int, z: int, x: int)
    requires m * i == q * z + x
    ensures i * (m * h + t * q) == x * h + (z * h + i * t) * q
  {
    assert i * (m * h + t * q) == i * (m * h) + i * (t * q);
    assert i * (m * h) == (m * i) * h;
    assert (q * z + x) * h == x * h + (z * h) * q;
    assert i * (t * q) == (i * t) * q;
    assert (z * h + i * t) * q == (z * h) * q + (i * t) * q;
  }

  lemma CancelInverse(q: int, d: int, i: int, u: int, e: int, w: int, v: int)
    requires d * i == q * u + 1 && e == q * w + d
    ensures v == i * (e * v) - (w * i * v + u * v) * q
  {
    assert e * v == q * w * v + d * v;
    assert i * (e * v) == i * (q * w * v) + i * (d * v);
    assert i * (d * v) == (d * i) * v;
    assert (q * u + 1) * v == u * v * q + v;
    assert (w * i * v + u * v) * q == w * i * v * q + u * v * q;
    assert i * (q * w * v) == w * i * v * q;
  }

  lemma Gather(a: int, b: int, c: int, d: int, q: int)
    ensures (a - b - c + d) * q == (d + a) * q - (b + c) * q
  {
  }

  /** A verifier's challenges are scalars from the start, because both verifiers check `c0`. */
  lemma WalkIsScalar(su: Suite, st: Statement, sig: RingSignature, i: nat)
    requires su.q > 0 && i <= |st.ring| == |st.bases| == |sig.s| && su.IsScalar(sig.c0)
    ensures su.IsScalar(WalkTo(su, st, sig, i))
  {
    if i > 0 {
      WalkIsScalar(su, st, sig, i - 1);
    }
  }

  lemma DistinctScalars(a: int, b: int, q: int)
    requires 0 <= a < q && 0 <= b < q && a != b
    ensures (a - b) % q != 0
  {
    ModIsUnique(a - b, if a > b then 0 else -1, if a > b then a - b else a - b + q, q);
  }

  /** `x` and no other scalar is behind the key `p`, and it made the key image. */
  ghost predicate IsTheSigner(su: Suite, x: Scalar, p: Point, h: Point, image: Point)
    requires su.q > 0
  {
    && p == su.Mul(x, su.G) && image == su.Mul(x, h)
    && forall y | su.IsScalar(y) && p == su.Mul(y, su.G) :: y == x
  }

  /** Extraction: two signatures the server accepts, over one ring, its bases and one key image,
      whose points agree at position `i` while their challenges there differ, determine a single
      scalar, and it is the one behind both that ring key and the key image. */
  lemma Extraction(su: Suite, st1: Statement, st2: Statement, sig1: RingSignature, sig2: RingSignature,
                   i: nat, c1: Scalar, c2: Scalar)
    requires su.Valid() && st1.WellFormed(su) && su.IsPoint(sig1.keyImage)
    requires st2.ring == st1.ring && st2.bases == st1.bases && sig2.keyImage == sig1.keyImage
    requires ServerAccepts(su, st1, sig1) && ServerAccepts(su, st2, sig2) && i < |st1.ring|
    requires c1 == WalkTo(su, st1, sig1, i) && c2 == WalkTo(su, st2, sig2, i) && c1 != c2
    requires LeftPoint(su, st1, i, sig1.s[i], c1) == LeftPoint(su, st2, i, sig2.s[i], c2)
    requires RightPoint(su, st1, sig1.keyImage, i, sig1.s[i], c1) == RightPoint(su, st2, sig2.keyImage, i, sig2.s[i], c2)
    ensures (c1 - c2) % su.q != 0
    ensures IsTheSigner(su, Extracted(su, sig1.s[i], c1, sig2.s[i], c2), st1.ring[i], st1.bases[i], sig1.keyImage)
  {
    WalkIsScalar(su, st1, sig1, i);
    WalkIsScalar(su, st2, sig2, i);
    hide WalkTo, Suite.Mul, Suite.Add, Extracted, IsTheSigner;
    DistinctScalars(c1, c2, su.q);
    ExtractAt(su, sig1.s[i], c1, sig2.s[i], c2, st1.ring[i], st1.bases[i], sig1.keyImage);
  }

  lemma ExtractAt(su: Suite, s1: Scalar, c1: Scalar, s2: Scalar, c2: Scalar, p: Point, h: Point, image: Point)
    requires su.Valid() && (c1 - c2) % su.q != 0 && su.IsPoint(p) && su.IsPoint(image)
    requires su.Add(su.Mul(s1, su.G), su.Mul(c1, p)) == su.Add(su.Mul(s2, su.G), su.Mul(c2, p))
    requires su.Add(su.Mul(s1, h), su.Mul(c1, image)) == su.Add(su.Mul(s2, h), su.Mul(c2, image))
    ensures IsTheSigner(su, Extracted(su, s1, c1, s2, c2), p, h, image)
  {
    SolveForPoint(su.q, s1, c1, s2, c2, 1, p.residue) by {
      EqualSums(su, s1, su.G, c1, s2, c2, p);
    }
    SolveForPoint(su.q, s1, c1, s2, c2, h.residue, image.residue) by {
      EqualSums(su, s1, h, c1, s2, c2, image);
    }
    var x := Extracted(su, s1, c1, s2, c2);
    assert p == su.Mul(x, su.G);
    forall y | su.IsScalar(y) && p == su.Mul(y, su.G) ensures y == x {
      KeyFixesScalar(su, x, y);
    }
  }

  lemma EqualSums(su: Suite, s1: Scalar, h: Point, c1: Scalar, s2: Scalar, c2: Scalar, v: Point)
    requires su.q > 0
    requires su.Add(su.Mul(s1, h), su.Mul(c1, v)) == su.Add(su.Mul(s2, h), su.Mul(c2, v))
    ensures (s1 * h.residue + c1 * v.residue) % su.q == (s2 * h.residue + c2 * v.residue) % su.q
  {
    AddMod(s1 * h.residue, c1 * v.residue, su.q);
    AddMod(s2 * h.residue, c2 * v.residue, su.q);
  }

  lemma KeyFixesScalar(su: Suite, x: Scalar, y: Scalar)
    requires su.q > 0 && su.IsScalar(x) && su.IsScalar(y) && su.Mul(x, su.G) == su.Mul(y, su.G)
    ensures x == y
  {
    ModIsUnique(x, 0, x, su.q);
    ModIsUnique(y, 0, y, su.q);
  }
}
