/** Linkable ring signatures (Liu-Wei-Wong 2004): the browser's signer and verifier and the
    server's verifier, over an arbitrary group of prime order.

    Every group of prime order q is the integers modulo q, so a point is the residue that stands
    for it and the base point is the residue 1. Nothing below uses that residue as a discrete
    logarithm except the statement that a key belongs to a scalar. */
module RingSig {
  import opened PrimeField
  import opened Bytes

  datatype Point = Point(residue: int)

  type Scalar = int
  type Message = seq<byte>

  /** The library calls the code makes and cannot see into: the challenge hash before reduction,
      the point validity test, and the multiplications that throw instead of returning. */
  datatype Suite = Suite(
    q: int,
    hash: (Message, Point, Point) -> int,
    validPoint: Point -> bool,
    mulThrows: (Scalar, Point) -> bool)
  {
    ghost predicate Valid() { IsPrime(q) }

    predicate IsScalar(a: int) { 0 <= a < q }

    predicate IsPoint(p: Point) { 0 <= p.residue < q }

    const G: Point := Point(1)

    function Challenge(m: Message, l: Point, r: Point): (c: Scalar)
      requires q > 0
      ensures IsScalar(c)
    {
      hash(m, l, r) % q
    }

    function Mul(a: Scalar, p: Point): (r: Point)
      requires q > 0
      ensures IsPoint(r)
    {
      Point((a * p.residue) % q)
    }

    function Add(a: Point, b: Point): (r: Point)
      requires q > 0
      ensures IsPoint(r)
    {
      Point((a.residue + b.residue) % q)
    }
  }

  datatype RingSignature = RingSignature(keyImage: Point, c0: Scalar, s: seq<Scalar>)

  /** What one signature is checked against: the message digest, the ring and its bases. */
  datatype Statement = Statement(m: Message, ring: seq<Point>, bases: seq<Point>)
  {
    predicate WellFormed(su: Suite) {
      && |bases| == |ring|
      && (forall i | 0 <= i < |ring| :: su.IsPoint(ring[i]) && su.IsPoint(bases[i]))
    }
  }

  function LeftPoint(su: Suite, st: Statement, i: nat, s: Scalar, c: Scalar): Point
    requires su.q > 0 && i < |st.ring|
  {
    su.Add(su.Mul(s, su.G), su.Mul(c, st.ring[i]))
  }

  function RightPoint(su: Suite, st: Statement, keyImage: Point, i: nat, s: Scalar, c: Scalar): Point
    requires su.q > 0 && i < |st.bases|
  {
    su.Add(su.Mul(s, st.bases[i]), su.Mul(c, keyImage))
  }

  /** The challenge that follows position `i`. */
  function NextChallenge(su: Suite, st: Statement, keyImage: Point, i: nat, s: Scalar, c: Scalar): Scalar
    requires su.q > 0 && i < |st.ring| == |st.bases|
  {
    su.Challenge(st.m, LeftPoint(su, st, i, s, c), RightPoint(su, st, keyImage, i, s, c))
  }

  /** The challenge a verifier holds on reaching position `i`, always starting from position 0. */
  function WalkTo(su: Suite, st: Statement, sig: RingSignature, i: nat): Scalar
    requires su.q > 0 && i <= |st.ring| == |st.bases| == |sig.s|
  {
    if i == 0 then sig.c0
    else NextChallenge(su, st, sig.keyImage, i - 1, sig.s[i - 1], WalkTo(su, st, sig, i - 1))
  }

  predicate SameShape(st: Statement, sig: RingSignature)
  {
    0 < |st.ring| <= VOUCH_MAX_RING && |st.bases| == |st.ring| == |sig.s|
  }

  /** The ring equation itself: the walk comes back to where it started. */
  predicate Closes(su: Suite, st: Statement, sig: RingSignature)
    requires su.q > 0 && SameShape(st, sig)
  {
    WalkTo(su, st, sig, |st.ring|) == sig.c0
  }

  predicate PointsValid(su: Suite, st: Statement, sig: RingSignature)
  {
    su.validPoint(sig.keyImage) && forall i | 0 <= i < |st.ring| :: su.validPoint(st.ring[i])
  }

  /** None of the four multiplications made at position `i` throws. */
  predicate StepRuns(su: Suite, st: Statement, keyImage: Point, i: nat, s: Scalar, c: Scalar)
    requires i < |st.ring| == |st.bases|
  {
    !su.mulThrows(s, su.G) && !su.mulThrows(c, st.ring[i]) &&
    !su.mulThrows(s, st.bases[i]) && !su.mulThrows(c, keyImage)
  }

  predicate WalkRuns(su: Suite, st: Statement, sig: RingSignature)
    requires su.q > 0 && SameShape(st, sig)
  {
    forall i | 0 <= i < |st.ring| ::
      StepRuns(su, st, sig.keyImage, i, sig.s[i], WalkTo(su, st, sig, i))
  }

  predicate CanonicalScalars(su: Suite, sig: RingSignature)
  {
    su.IsScalar(sig.c0) && forall i | 0 <= i < |sig.s| :: su.IsScalar(sig.s[i])
  }

  predicate ReaderAccepts(su: Suite, st: Statement, sig: RingSignature)
    requires su.q > 0
  {
    SameShape(st, sig) && PointsValid(su, st, sig) && WalkRuns(su, st, sig) && Closes(su, st, sig)
  }

  predicate ServerAccepts(su: Suite, st: Statement, sig: RingSignature)
    requires su.q > 0
  {
    SameShape(st, sig) && PointsValid(su, st, sig) && CanonicalScalars(su, sig) && Closes(su, st, sig)
  }

  /** One link of the ring, in the library's own terms: the hash of the message with `s*G + c*P` and
      `s*H + c*I`, reduced. */
  ghost predicate Links(su: Suite, m: Message, p: Point, h: Point, image: Point, s: Scalar, c: Scalar, next: Scalar)
    requires su.q > 0
  {
    next == su.hash(m, Point(((s * 1) % su.q + (c * p.residue) % su.q) % su.q),
                    Point(((s * h.residue) % su.q + (c * image.residue) % su.q) % su.q)) % su.q
  }

  lemma LinksIs(su: Suite, st: Statement, image: Point, i: nat, s: Scalar, c: Scalar, next: Scalar)
    requires su.q > 0 && i < |st.ring| == |st.bases|
    ensures Links(su, st.m, st.ring[i], st.bases[i], image, s, c, next) <==>
            next == NextChallenge(su, st, image, i, s, c)
  {
  }

  /** The challenges of one walk round the ring. */
  ghost predicate IsWalk(su: Suite, st: Statement, sig: RingSignature, c: seq<Scalar>)
    requires su.q > 0 && |st.bases| == |st.ring| == |sig.s|
  {
    && |c| == |st.ring| + 1 && c[0] == sig.c0
    && forall i | 0 <= i < |st.ring| ::
         Links(su, st.m, st.ring[i], st.bases[i], sig.keyImage, sig.s[i], c[i], c[i + 1])
  }

  /** There is one such walk, and `WalkTo` is it. */
  lemma {:induction false} WalkIs(su: Suite, st: Statement, sig: RingSignature, c: seq<Scalar>, i: nat)
    requires su.q > 0 && |st.bases| == |st.ring| == |sig.s| && IsWalk(su, st, sig, c) && i <= |st.ring|
    ensures c[i] == WalkTo(su, st, sig, i)
  {
    hide Links, NextChallenge;
    if i > 0 {
      WalkIs(su, st, sig, c, i - 1);
      LinksIs(su, st, sig.keyImage, i - 1, sig.s[i - 1], c[i - 1], c[i]);
    }
  }

  lemma WalkExists(su: Suite, st: Statement, sig: RingSignature) returns (c: seq<Scalar>)
    requires su.q > 0 && |st.bases| == |st.ring| == |sig.s|
    ensures IsWalk(su, st, sig, c)
  {
    hide Links, NextChallenge;
    c := seq(|st.ring| + 1, i requires 0 <= i <= |st.ring| => WalkTo(su, st, sig, i));
    forall i | 0 <= i < |st.ring|
      ensures Links(su, st.m, st.ring[i], st.bases[i], sig.keyImage, sig.s[i], c[i], c[i + 1])
    {
      LinksIs(su, st, sig.keyImage, i, sig.s[i], c[i], c[i + 1]);
    }
  }

  lemma EveryWalkIs(su: Suite, st: Statement, sig: RingSignature)
    requires su.q > 0 && |st.bases| == |st.ring| == |sig.s|
    ensures forall c, i: nat | IsWalk(su, st, sig, c) && i <= |st.ring| :: c[i] == WalkTo(su, st, sig, i)
  {
    hide IsWalk, WalkTo;
    forall c, i: nat | IsWalk(su, st, sig, c) && i <= |st.ring| ensures |c| > i && c[i] == WalkTo(su, st, sig, i) {
      WalkLength(su, st, sig, c);
      WalkIs(su, st, sig, c, i);
    }
  }

  lemma WalkLength(su: Suite, st: Statement, sig: RingSignature, c: seq<Scalar>)
    requires su.q > 0 && |st.bases| == |st.ring| == |sig.s| && IsWalk(su, st, sig, c)
    ensures |c| == |st.ring| + 1
  {
  }

  /** A walk that comes back to the challenge it began with, its multiplications all returning. */
  ghost predicate ComesBack(sig: RingSignature, c: seq<Scalar>) { |c| > 0 && c[|c| - 1] == sig.c0 }

  ghost predicate NothingThrows(su: Suite, st: Statement, sig: RingSignature, c: seq<Scalar>)
    requires |st.bases| == |st.ring| == |sig.s|
  {
    |c| > |st.ring| && forall i | 0 <= i < |st.ring| ::
      !su.mulThrows(sig.s[i], su.G) && !su.mulThrows(c[i], st.ring[i]) &&
      !su.mulThrows(sig.s[i], st.bases[i]) && !su.mulThrows(c[i], sig.keyImage)
  }

  /** What acceptance means of any walk. */
  lemma WalkMeans(su: Suite, st: Statement, sig: RingSignature, c: seq<Scalar>)
    requires su.q > 0 && SameShape(st, sig) && IsWalk(su, st, sig, c)
    ensures Closes(su, st, sig) ==> ComesBack(sig, c)
    ensures WalkRuns(su, st, sig) ==> NothingThrows(su, st, sig, c)
  {
    EveryWalkIs(su, st, sig);
    WalkLength(su, st, sig, c);
    hide IsWalk, WalkTo;
  }

  /** Every walk comes back, and if `quiet` without a throw. */
  ghost predicate WalksComeBack(su: Suite, st: Statement, sig: RingSignature, quiet: bool)
    requires su.q > 0 && |st.bases| == |st.ring| == |sig.s|
  {
    forall c | IsWalk(su, st, sig, c) :: ComesBack(sig, c) && (quiet ==> NothingThrows(su, st, sig, c))
  }

  lemma AcceptedComesBack(su: Suite, st: Statement, sig: RingSignature)
    requires su.q > 0 && SameShape(st, sig)
    ensures Closes(su, st, sig) ==> WalksComeBack(su, st, sig, false)
    ensures Closes(su, st, sig) && WalkRuns(su, st, sig) ==> WalksComeBack(su, st, sig, true)
  {
    hide IsWalk, ComesBack, NothingThrows, Closes, WalkRuns;
    forall c | IsWalk(su, st, sig, c)
      ensures Closes(su, st, sig) ==> ComesBack(sig, c)
      ensures WalkRuns(su, st, sig) ==> NothingThrows(su, st, sig, c)
    {
      WalkMeans(su, st, sig, c);
    }
  }

  /** The browser's verifier: a throw anywhere in the walk reads as "does not verify". What it accepts has
      at most fifty keys, one response and one base each, valid points, and a walk that comes back. */
  method RingVerify(su: Suite, st: Statement, sig: RingSignature) returns (ok: bool)
    requires su.q > 0 && |st.bases| == |st.ring|
    ensures ok <==> ReaderAccepts(su, st, sig)
    ensures ok ==> 1 <= |st.ring| <= 50 && |sig.s| == |st.ring| && WalksComeBack(su, st, sig, true)
    ensures ok ==> su.validPoint(sig.keyImage) && forall i | 0 <= i < |st.ring| :: su.validPoint(st.ring[i])
  {
    hide NextChallenge, WalksComeBack, StepRuns;
    if SameShape(st, sig) {
      AcceptedComesBack(su, st, sig);
    }
    var n := |st.ring|;
    if n == 0 || n > VOUCH_MAX_RING || |sig.s| != n {
      return false;
    }
    if !su.validPoint(sig.keyImage) {
      return false;
    }
    for i := 0 to n
      invariant forall j | 0 <= j < i :: su.validPoint(st.ring[j])
    {
      if !su.validPoint(st.ring[i]) {
        return false;
      }
    }
    var c := sig.c0;
    for i := 0 to n
      invariant c == WalkTo(su, st, sig, i)
      invariant forall j | 0 <= j < i :: StepRuns(su, st, sig.keyImage, j, sig.s[j], WalkTo(su, st, sig, j))
    {
      if !StepRuns(su, st, sig.keyImage, i, sig.s[i], c) {
        return false;
      }
      c := NextChallenge(su, st, sig.keyImage, i, sig.s[i], c);
    }
    return c == sig.c0;
  }

  /** The server's verifier. The ring of keys is given beside its points for the sort check. */
  method VerifyVouch(su: Suite, keys: seq<Key>, st: Statement, sig: RingSignature) returns (ok: bool)
    requires su.q > 0 && |keys| == |st.ring| == |st.bases|
    ensures ok <==> StrictlySorted(keys) && ServerAccepts(su, st, sig)
    ensures ok ==> 1 <= |keys| <= 50 && |sig.s| == |keys|
    ensures ok ==> su.validPoint(sig.keyImage) && forall i | 0 <= i < |st.ring| :: su.validPoint(st.ring[i])
    ensures ok ==> 0 <= sig.c0 < su.q && forall i | 0 <= i < |sig.s| :: 0 <= sig.s[i] < su.q
    ensures ok ==> WalksComeBack(su, st, sig, false)
  {
    hide NextChallenge, WalksComeBack;
    if SameShape(st, sig) {
      AcceptedComesBack(su, st, sig);
    }
    var n := |st.ring|;
    if n == 0 || n > VOUCH_MAX_RING || |sig.s| != n || !su.validPoint(sig.keyImage) {
      return false;
    }
    for i := 0 to n
      invariant forall j | 0 < j < i :: Less(keys[j - 1], keys[j])
      invariant forall j | 0 <= j < i :: su.validPoint(st.ring[j])
    {
      if i > 0 && !Less(keys[i - 1], keys[i]) {
        return false;
      }
      if !su.validPoint(st.ring[i]) {
        return false;
      }
    }
    NeighboursSorted(keys);
    if !su.IsScalar(sig.c0) {
      return false;
    }
    var c := sig.c0;
    for i := 0 to n
      invariant c == WalkTo(su, st, sig, i)
      invariant forall j | 0 <= j < i :: su.IsScalar(sig.s[j])
    {
      if !su.IsScalar(sig.s[i]) {
        return false;
      }
      c := NextChallenge(su, st, sig.keyImage, i, sig.s[i], c);
    }
    return c == sig.c0;
  }

  /** The position `j` places after the signer, round the ring. */
  function Around(pi: nat, j: nat, n: nat): (i: nat)
    requires pi < n && j <= n
    ensures i < n
  {
    if pi + j < n then pi + j else pi + j - n
  }

  /** How many places after the signer position `i` is reached; the signer is reached last. */
  function Offset(pi: nat, i: nat, n: nat): (j: nat)
    requires pi < n && i < n
    ensures 1 <= j <= n && Around(pi, j, n) == i
  {
    if i > pi then i - pi else i + n - pi
  }

  /** The remainder `ringSign` takes to wrap an index round the ring. */
  method WrapIndex(x: nat, n: nat) returns (i: nat)
    requires x < 2 * n
    ensures i == if x < n then x else x - n
  {
    i := x % n;
    ModIsUnique(x, if x < n then 0 else 1, if x < n then x else x - n, n);
  }

  /** A signing run: the signer's place, the commitment and the random responses of the others. */
  datatype Draw = Draw(pi: nat, keyImage: Point, alpha: Scalar, rnd: seq<Scalar>)
  {
    predicate Fits(st: Statement) {
      0 < |st.ring| == |st.bases| <= VOUCH_MAX_RING && pi < |st.ring| && |rnd| == |st.ring| - 1
    }
  }

  /** The challenge the signer holds `j` places after its own position. */
  function SignChallenge(su: Suite, st: Statement, d: Draw, j: nat): Scalar
    requires su.q > 0 && d.Fits(st) && 1 <= j <= |st.ring|
  {
    if j == 1 then su.Challenge(st.m, su.Mul(d.alpha, su.G), su.Mul(d.alpha, st.bases[d.pi]))
    else NextChallenge(su, st, d.keyImage, Around(d.pi, j - 1, |st.ring|), d.rnd[j - 2], SignChallenge(su, st, d, j - 1))
  }

  function ClosingResponse(su: Suite, st: Statement, d: Draw, x: Scalar): (s: Scalar)
    requires su.q > 0 && d.Fits(st)
    ensures su.IsScalar(s)
  {
    (d.alpha - (SignChallenge(su, st, d, |st.ring|) * x) % su.q) % su.q
  }

  function ResponseAt(su: Suite, st: Statement, d: Draw, x: Scalar, i: nat): Scalar
    requires su.q > 0 && d.Fits(st) && i < |st.ring|
  {
    if i == d.pi then ClosingResponse(su, st, d, x) else d.rnd[Offset(d.pi, i, |st.ring|) - 1]
  }

  function SignatureOf(su: Suite, st: Statement, d: Draw, x: Scalar): (sig: RingSignature)
    requires su.q > 0 && d.Fits(st)
    ensures SameShape(st, sig)
  {
    RingSignature(d.keyImage, SignChallenge(su, st, d, Offset(d.pi, 0, |st.ring|)),
                  seq(|st.ring|, i requires 0 <= i < |st.ring| => ResponseAt(su, st, d, x, i)))
  }

  /** No multiplication made while signing throws. */
  predicate SigningRuns(su: Suite, st: Statement, d: Draw)
    requires su.q > 0 && d.Fits(st)
  {
    !su.mulThrows(d.alpha, su.G) && !su.mulThrows(d.alpha, st.bases[d.pi]) &&
    forall j | 1 <= j < |st.ring| :: SigningStepRuns(su, st, d, j)
  }

  predicate SigningStepRuns(su: Suite, st: Statement, d: Draw, j: nat)
    requires su.q > 0 && d.Fits(st) && 1 <= j < |st.ring|
  {
    StepRuns(su, st, d.keyImage, Around(d.pi, j, |st.ring|), d.rnd[j - 1], SignChallenge(su, st, d, j))
  }

  /** The array of challenges once `k` of them are written: the positions up to `k` places on. */
  ghost function ChallengesTo(su: Suite, st: Statement, d: Draw, k: nat): (c: seq<Option<Scalar>>)
    requires su.q > 0 && d.Fits(st) && k <= |st.ring|
  {
    seq(|st.ring|, i requires 0 <= i < |st.ring| =>
      var j := Offset(d.pi, i, |st.ring|);
      if j <= k then Some(SignChallenge(su, st, d, j)) else None)
  }

  /** The array of responses once the loop has passed `k` positions. */
  ghost function ResponsesTo(st: Statement, d: Draw, k: nat): (sv: seq<Option<Scalar>>)
    requires d.Fits(st) && k < |st.ring|
  {
    seq(|st.ring|, i requires 0 <= i < |st.ring| =>
      var j := Offset(d.pi, i, |st.ring|);
      if j <= k then Some(d.rnd[j - 1]) else None)
  }

  /** One pass of the loop at `j` places from the signer fills one more cell of each array. */
  lemma SigningStep(su: Suite, st: Statement, d: Draw, j: nat)
    requires su.q > 0 && d.Fits(st) && 1 <= j < |st.ring|
    ensures var i, n := Around(d.pi, j, |st.ring|), |st.ring|;
            var c := SignChallenge(su, st, d, j);
            && SigningStepRuns(su, st, d, j) == StepRuns(su, st, d.keyImage, i, d.rnd[j - 1], c)
            && |ChallengesTo(su, st, d, j)| == n && ChallengesTo(su, st, d, j)[i] == Some(c)
            && ChallengesTo(su, st, d, j + 1) ==
                 ChallengesTo(su, st, d, j)[Around(d.pi, j + 1, n) :=
                   Some(NextChallenge(su, st, d.keyImage, i, d.rnd[j - 1], c))]
            && |ResponsesTo(st, d, j - 1)| == n
            && ResponsesTo(st, d, j) == ResponsesTo(st, d, j - 1)[i := Some(d.rnd[j - 1])]
  {
    hide NextChallenge, StepRuns;
    var n := |st.ring|;
    assert Offset(d.pi, Around(d.pi, j, n), n) == j;
    assert SignChallenge(su, st, d, j + 1) ==
           NextChallenge(su, st, d.keyImage, Around(d.pi, j, n), d.rnd[j - 1], SignChallenge(su, st, d, j));
  }

  lemma SigningStarts(su: Suite, st: Statement, d: Draw, c: seq<Option<Scalar>>, sv: seq<Option<Scalar>>)
    requires su.q > 0 && d.Fits(st) && |c| == |sv| == |st.ring|
    requires forall i | 0 <= i < |c| :: sv[i] == None
    requires forall i | 0 <= i < |c| ::
               c[i] == if i == Around(d.pi, 1, |c|) then Some(SignChallenge(su, st, d, 1)) else None
    ensures c == ChallengesTo(su, st, d, 1) && sv == ResponsesTo(st, d, 0)
  {
    hide SignChallenge;
    assert forall i | 0 <= i < |c| :: Offset(d.pi, i, |c|) <= 1 <==> i == Around(d.pi, 1, |c|);
  }

  /** After the loop every challenge is there and every response but the signer's own. */
  lemma SigningEnds(su: Suite, st: Statement, d: Draw)
    requires su.q > 0 && d.Fits(st)
    ensures var n := |st.ring|;
            && |ChallengesTo(su, st, d, n)| == |ResponsesTo(st, d, n - 1)| == n
            && ChallengesTo(su, st, d, n)[d.pi] == Some(SignChallenge(su, st, d, n))
            && ChallengesTo(su, st, d, n)[0] == Some(SignChallenge(su, st, d, Offset(d.pi, 0, n)))
            && forall i | 0 <= i < n && i != d.pi ::
                 ResponsesTo(st, d, n - 1)[i] == Some(d.rnd[Offset(d.pi, i, n) - 1])
  {
    hide SignChallenge;
    assert Offset(d.pi, d.pi, |st.ring|) == |st.ring|;
  }

  datatype Signing = Signed(sig: RingSignature) | SizeOutOfRange | IndexOutOfRange | Threw

  /** `ringSign`, with its random scalars as arguments. The arrays hold null until written, the
      loop runs once round the ring from the signer, and the signer's response closes it. */
  method RingSign(su: Suite, st: Statement, signerIndex: int, x: Scalar, keyImage: Point,
                  alpha: Scalar, rnd: seq<Scalar>) returns (r: Signing)
    requires su.q > 0 && |st.bases| == |st.ring| && |rnd| == if |st.ring| == 0 then 0 else |st.ring| - 1
    ensures r == SizeOutOfRange <==> |st.ring| == 0 || |st.ring| > 50
    ensures r == IndexOutOfRange <==> 1 <= |st.ring| <= 50 && !(0 <= signerIndex < |st.ring|)
    ensures r.Signed? ==>
              && r.sig.keyImage == keyImage && |r.sig.s| == |st.ring| && 0 <= signerIndex < |st.ring|
              && forall i | 0 <= i < |st.ring| && i != signerIndex ::
                   r.sig.s[i] == rnd[if i > signerIndex then i - signerIndex - 1 else i - signerIndex - 1 + |st.ring|]
    ensures r.Signed? ==> !su.mulThrows(alpha, su.G) && !su.mulThrows(alpha, st.bases[signerIndex])
    ensures r.Threw? ==> exists a, p :: su.mulThrows(a, p)
    ensures 0 < |st.ring| <= VOUCH_MAX_RING && 0 <= signerIndex < |st.ring| ==>
              var d := Draw(signerIndex, keyImage, alpha, rnd);
              r == if SigningRuns(su, st, d) then Signed(SignatureOf(su, st, d, x)) else Threw
  {
    var n := |st.ring|;
    if n == 0 || n > VOUCH_MAX_RING {
      return SizeOutOfRange;
    }
    if signerIndex < 0 || signerIndex >= n {
      return IndexOutOfRange;
    }
    hide SigningRuns, SignatureOf;
    r := SignAsMember(su, st, Draw(signerIndex, keyImage, alpha, rnd), x);
  }

  /** The signing run itself, once the ring and the index are known to be in range. */
  method SignAsMember(su: Suite, st: Statement, d: Draw, x: Scalar) returns (r: Signing)
    requires su.q > 0 && d.Fits(st)
    ensures r == if SigningRuns(su, st, d) then Signed(SignatureOf(su, st, d, x)) else Threw
  {
    hide SigningStepRuns, SignChallenge, ChallengesTo, ResponsesTo, ClosingResponse;
    var n := |st.ring|;
    var c := new Option<Scalar>[n](_ => None);
    var sv := new Option<Scalar>[n](_ => None);
    if su.mulThrows(d.alpha, su.G) || su.mulThrows(d.alpha, st.bases[d.pi]) {
      return Threw;
    }
    var ran := SignOthers(su, st, d, c, sv);
    if !ran {
      return Threw;
    }
    SigningEnds(su, st, d);
    assert c[d.pi] == c[..][d.pi] && c[0] == c[..][0];
    var spi := CloseRing(su, st, d, x, c[d.pi].value);
    sv[d.pi] := Some(spi);
    var responses := NonNull(sv, SignatureOf(su, st, d, x).s);
    r := Signed(RingSignature(d.keyImage, c[0].value, responses));
  }

  /** The signer's own response, from the challenge that reached it. */
  method CloseRing(su: Suite, st: Statement, d: Draw, x: Scalar, cpi: Scalar) returns (s: Scalar)
    requires su.q > 0 && d.Fits(st) && cpi == SignChallenge(su, st, d, |st.ring|)
    ensures s == ClosingResponse(su, st, d, x)
  {
    hide SignChallenge;
    s := (d.alpha - (cpi * x) % su.q) % su.q;
  }

  /** From the commitment once round the ring, up to but not including the signer's response. */
  method SignOthers(su: Suite, st: Statement, d: Draw, c: array<Option<Scalar>>, sv: array<Option<Scalar>>)
    returns (ran: bool)
    requires su.q > 0 && d.Fits(st) && c != sv && c.Length == sv.Length == |st.ring|
    requires forall i | 0 <= i < c.Length :: c[i] == None && sv[i] == None
    modifies c, sv
    ensures ran <==> forall j | 1 <= j < |st.ring| :: SigningStepRuns(su, st, d, j)
    ensures ran ==> c[..] == ChallengesTo(su, st, d, |st.ring|) && sv[..] == ResponsesTo(st, d, |st.ring| - 1)
  {
    var n := |st.ring|;
    var first := WrapIndex(d.pi + 1, n);
    c[first] := Some(su.Challenge(st.m, su.Mul(d.alpha, su.G), su.Mul(d.alpha, st.bases[d.pi])));
    SigningStarts(su, st, d, c[..], sv[..]);
    hide SigningStepRuns, ChallengesTo, ResponsesTo;
    for k := 1 to n
      invariant c[..] == ChallengesTo(su, st, d, k) && sv[..] == ResponsesTo(st, d, k - 1)
      invariant forall j | 1 <= j < k :: SigningStepRuns(su, st, d, j)
    {
      var ran := SignOne(su, st, d, k, c, sv);
      if !ran {
        return false;
      }
    }
    return true;
  }

  /** One pass of the loop: draw a response, read this position's challenge, write the next one. */
  method SignOne(su: Suite, st: Statement, d: Draw, k: nat, c: array<Option<Scalar>>, sv: array<Option<Scalar>>)
    returns (ran: bool)
    requires su.q > 0 && d.Fits(st) && 1 <= k < |st.ring| && c != sv
    requires c[..] == ChallengesTo(su, st, d, k) && sv[..] == ResponsesTo(st, d, k - 1)
    modifies c, sv
    ensures ran == SigningStepRuns(su, st, d, k)
    ensures ran ==> c[..] == ChallengesTo(su, st, d, k + 1) && sv[..] == ResponsesTo(st, d, k)
  {
    hide NextChallenge, SignChallenge, SigningStepRuns, StepRuns, ChallengesTo, ResponsesTo;
    SigningStep(su, st, d, k);
    var n := |st.ring|;
    assert c.Length == |c[..]| && sv.Length == |sv[..]|;
    var i := WrapIndex(d.pi + k, n);
    var si := d.rnd[k - 1];
    sv[i] := Some(si);
    assert c[i] == c[..][i];
    var ci := c[i].value;
    if !StepRuns(su, st, d.keyImage, i, si, ci) {
      return false;
    }
    var next := WrapIndex(i + 1, n);
    c[next] := Some(NextChallenge(su, st, d.keyImage, i, si, ci));
    return true;
  }

  /** Reading an array that holds no null any more. */
  method NonNull(sv: array<Option<Scalar>>, ghost values: seq<Scalar>) returns (s: seq<Scalar>)
    requires sv.Length == |values| && forall i | 0 <= i < |values| :: sv[i] == Some(values[i])
    ensures s == values
  {
    s := seq(sv.Length, i requires 0 <= i < sv.Length && sv[i].Some? reads sv => sv[i].value);
  }
}
