/** Byte strings and the order every sorted list of keys and ids uses: `Vec<u8>` comparison on
    the server, `comparePubkeys` in the browser, `BYTEA` comparison in the database. */
module Bytes {

  type byte = x: int | 0 <= x < 256

  type Key = seq<byte>

  datatype Option<+T> = None | Some(value: T)

  const PUBKEY_LEN: nat := 32

  /** The most keys a vouch ring, and so a published roster, may have. */
  const VOUCH_MAX_RING: nat := 50

  predicate IsDigit(c: char) { '0' <= c <= '9' }

  ghost predicate NoRepeats<T>(s: seq<T>) { forall i, j | 0 <= i < j < |s| :: s[i] != s[j] }

  /** Bytewise lexicographic order; a proper prefix sorts first. */
  predicate Less(a: seq<byte>, b: seq<byte>)
  {
    |b| > 0 && (|a| == 0 || a[0] < b[0] || (a[0] == b[0] && Less(a[1..], b[1..])))
  }

  lemma {:induction false} LessIrreflexive(a: seq<byte>)
    ensures !Less(a, a)
  {
    if |a| > 0 {
      LessIrreflexive(a[1..]);
    }
  }

  lemma {:induction false} LessTransitive(a: seq<byte>, b: seq<byte>, c: seq<byte>)
    requires Less(a, b) && Less(b, c)
    ensures Less(a, c)
  {
    if |a| > 0 && a[0] == b[0] && b[0] == c[0] {
      LessTransitive(a[1..], b[1..], c[1..]);
    }
  }

  lemma {:induction false} LessTotal(a: seq<byte>, b: seq<byte>)
    ensures a == b || Less(a, b) || Less(b, a)
  {
    if |a| > 0 && |b| > 0 && a[0] == b[0] {
      LessTotal(a[1..], b[1..]);
      assert a == [a[0]] + a[1..] && b == [b[0]] + b[1..];
    }
  }

  /** Two byte strings that first differ at position `i` are ordered by their bytes there. */
  lemma {:induction false} LessAtFirstDifference(a: seq<byte>, b: seq<byte>, i: nat)
    requires i < |a| && i < |b| && a[..i] == b[..i] && a[i] != b[i]
    ensures Less(a, b) <==> a[i] < b[i]
  {
    if i > 0 {
      assert a[0] == a[..i][0] && b[0] == b[..i][0];
      assert a[1..][..i - 1] == a[..i][1..] && b[1..][..i - 1] == b[..i][1..];
      LessAtFirstDifference(a[1..], b[1..], i - 1);
    }
  }

  ghost predicate StrictlySorted(s: seq<Key>)
  {
    forall i, j | 0 <= i < j < |s| :: Less(s[i], s[j])
  }

  /** The neighbour check both verifiers run is the same as being sorted throughout. */
  lemma {:induction false} NeighboursSorted(s: seq<Key>)
    requires forall i | 0 < i < |s| :: Less(s[i - 1], s[i])
    ensures StrictlySorted(s)
  {
    if |s| > 0 {
      var front := s[..|s| - 1];
      forall i | 0 < i < |front| ensures Less(front[i - 1], front[i]) {
        assert front[i - 1] == s[i - 1] && front[i] == s[i];
      }
      NeighboursSorted(front);
      forall i, j | 0 <= i < j < |s| ensures Less(s[i], s[j]) {
        if j < |s| - 1 {
          assert front[i] == s[i] && front[j] == s[j];
        } else if i < j - 1 {
          assert Less(front[i], front[j - 1]);
          LessTransitive(s[i], s[j - 1], s[j]);
        }
      }
    }
  }

  /** Reading past the end of a byte array gives undefined. */
  function At(a: Key, i: nat): Option<byte> { if i < |a| then Some(a[i]) else None }

  ghost predicate SameUpTo(a: Key, b: Key, n: nat) { forall i | 0 <= i < n :: At(a, i) == At(b, i) }

  lemma SameKeys(a: Key, b: Key, n: nat)
    requires SameUpTo(a, b, n) && n <= |a| && n <= |b|
    ensures a[..n] == b[..n]
  {
    forall i | 0 <= i < n ensures a[i] == b[i] {
      assert At(a, i) == At(b, i);
    }
  }

  /** `comparePubkeys`: negative, zero or positive as `a` sorts before, with or after `b`. It reads 32
      places whatever the lengths; where just one of the keys has ended the difference is no number. */
  method ComparePubkeys(a: Key, b: Key) returns (r: Option<int>)
    ensures |a| == PUBKEY_LEN && |b| == PUBKEY_LEN ==>
              r.Some? && (r.value < 0 <==> Less(a, b)) && (r.value == 0 <==> a == b) && (r.value > 0 <==> Less(b, a))
    ensures r == Some(0) <==> SameUpTo(a, b, PUBKEY_LEN)
    ensures r.None? <==> exists i :: 0 <= i < PUBKEY_LEN && SameUpTo(a, b, i) && At(a, i).Some? != At(b, i).Some?
  {
    LessIrreflexive(a);
    for i := 0 to PUBKEY_LEN
      invariant SameUpTo(a, b, i)
    {
      if At(a, i) != At(b, i) {
        if i >= |a| || i >= |b| {
          return None;
        }
        SameKeys(a, b, i);
        LessAtFirstDifference(a, b, i);
        LessAtFirstDifference(b, a, i);
        return Some(a[i] as int - b[i] as int);
      }
    }
    if |a| == PUBKEY_LEN && |b| == PUBKEY_LEN {
      SameKeys(a, b, PUBKEY_LEN);
      assert a == a[..PUBKEY_LEN] == b[..PUBKEY_LEN] == b;
    }
    return Some(0);
  }
}
