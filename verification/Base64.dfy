/** Unpadded base64url, section 5 of RFC 4648, as the browser encodes and decodes it. Where the
    code shifts and ors, the model multiplies, divides and adds: the or-ed bits never overlap. */
module Base64 {
  import opened Bytes

  type sextet = x: int | 0 <= x < 64

  /** The lookup table: a character's value, or -1 outside the alphabet. */
  function Value(c: char): (v: int)
    ensures -1 <= v < 64
  {
    if 'A' <= c <= 'Z' then c as int - 'A' as int
    else if 'a' <= c <= 'z' then c as int - 'a' as int + 26
    else if '0' <= c <= '9' then c as int - '0' as int + 52
    else if c == '-' then 62
    else if c == '_' then 63
    else -1
  }

  /** The character for a value, in the order of the alphabet string. */
  function Symbol(v: sextet): (c: char)
    ensures Value(c) == v
  {
    if v < 26 then (v + 'A' as int) as char
    else if v < 52 then (v - 26 + 'a' as int) as char
    else if v < 62 then (v - 52 + '0' as int) as char
    else if v == 62 then '-'
    else '_'
  }

  const FIRST_32: string := "ABCDEFGHIJKLMNOPQRSTUVWXYZabcdef"
  const LAST_32: string := "ghijklmnopqrstuvwxyz0123456789-_"

  /** A symbol is the character at its value's place in the alphabet of section 5 of RFC 4648. */
  lemma SymbolInAlphabet(v: sextet)
    ensures |FIRST_32 + LAST_32| == 64 && Symbol(v) == (FIRST_32 + LAST_32)[v]
  {
    hide Value;
    if v < 32 { assert Symbol(v) == FIRST_32[v]; } else { assert Symbol(v) == LAST_32[v - 32]; }
  }

  lemma SymbolOfValue(c: char)
    ensures Value(c) >= 0 ==> Symbol(Value(c)) == c
  {
  }

  // A byte's bits as they fall into the sextets of its group.
  function Sextet0(x: byte): sextet { x / 4 }
  function Sextet1(x: byte, y: byte): sextet { x % 4 * 16 + y / 16 }
  function Sextet2(y: byte, z: byte): sextet { y % 16 * 4 + z / 64 }
  function Sextet3(z: byte): sextet { z % 64 }

  function Encode(b: seq<byte>): (s: string)
  {
    if |b| == 0 then []
    else if |b| == 1 then [Symbol(Sextet0(b[0])), Symbol(Sextet1(b[0], 0))]
    else if |b| == 2 then [Symbol(Sextet0(b[0])), Symbol(Sextet1(b[0], b[1])), Symbol(Sextet2(b[1], 0))]
    else EncodeGroup(b[0], b[1], b[2]) + Encode(b[3..])
  }

  function EncodeGroup(x: byte, y: byte, z: byte): (s: string)
    ensures |s| == 4
  {
    [Symbol(Sextet0(x)), Symbol(Sextet1(x, y)), Symbol(Sextet2(y, z)), Symbol(Sextet3(z))]
  }

  function Byte0(a: sextet, b: sextet): byte { a * 4 + b / 16 }
  function Byte1(b: sextet, c: sextet): byte { b % 16 * 16 + c / 4 }
  function Byte2(c: sextet, d: sextet): byte { c % 4 * 64 + d }

  function Decode(s: string): Option<seq<byte>>
  {
    if |s| == 0 then Some([])
    else if |s| == 1 || Value(s[0]) < 0 || Value(s[1]) < 0 then None
    else if |s| == 2 then Some([Byte0(Value(s[0]), Value(s[1]))])
    else if Value(s[2]) < 0 then None
    else if |s| == 3 then Some([Byte0(Value(s[0]), Value(s[1])), Byte1(Value(s[1]), Value(s[2]))])
    else if Value(s[3]) < 0 then None
    else Prepend(DecodeGroup(Value(s[0]), Value(s[1]), Value(s[2]), Value(s[3])), Decode(s[4..]))
  }

  function Prepend(front: seq<byte>, r: Option<seq<byte>>): Option<seq<byte>>
  {
    match r case None => None case Some(rest) => Some(front + rest)
  }

  lemma PrependTwice(a: seq<byte>, b: seq<byte>, r: Option<seq<byte>>)
    ensures Prepend(a, Prepend(b, r)) == Prepend(a + b, r)
  {
    if r.Some? {
      assert a + (b + r.value) == (a + b) + r.value;
    }
  }

  function DecodeGroup(a: sextet, b: sextet, c: sextet, d: sextet): (g: seq<byte>)
    ensures |g| == 3
  {
    [Byte0(a, b), Byte1(b, c), Byte2(c, d)]
  }

  /** `b64encode`: three bytes at a time, then the one or two left over. */
  method B64Encode(bytes: seq<byte>) returns (out: string)
    ensures out == Encode(bytes)
  {
    out := [];
    var i := 0;
    while i + 2 < |bytes|
      invariant 0 <= i <= |bytes| && out + Encode(bytes[i..]) == Encode(bytes)
    {
      var rest := bytes[i..];
      assert rest[3..] == bytes[i + 3..];
      assert out + (EncodeGroup(rest[0], rest[1], rest[2]) + Encode(rest[3..]))
          == (out + EncodeGroup(rest[0], rest[1], rest[2])) + Encode(rest[3..]);
      out := out + EncodeGroup(bytes[i], bytes[i + 1], bytes[i + 2]);
      i := i + 3;
    }
    if i < |bytes| {
      var a := bytes[i];
      var tail := [Symbol(a / 4)];
      if i + 1 < |bytes| {
        var b := bytes[i + 1];
        tail := tail + [Symbol(a % 4 * 16 + b / 16)];
        tail := tail + [Symbol(b % 16 * 4)];
      } else {
        tail := tail + [Symbol(a % 4 * 16)];
      }
      assert tail == Encode(bytes[i..]);
      out := out + tail;
    }
  }

  /** The length `b64decode` allocates before it has looked at a character. */
  function Allocated(len: nat): (n: nat)
    ensures n == len / 4 * 3 + (if len % 4 == 2 then 1 else if len % 4 == 3 then 2 else 0)
  {
    var padded := if len % 4 == 0 then len else len + (4 - len % 4);
    padded * 3 / 4 - (padded - len)
  }

  /** `b64decode`: `None` is the thrown error. Every write lands inside the allocated array, and on
      success the array is exactly full. */
  method B64Decode(s: string) returns (r: Option<seq<byte>>)
    ensures r == Decode(s)
    ensures r.Some? ==> |r.value| == Allocated(|s|)
  {
    hide Decode, Allocated;
    var len := |s|;
    var bytes := new byte[Allocated(len)](_ => 0);
    var bi := 0;
    var i := 0;
    ghost var k: nat := 0;
    assert s[0..] == s && bytes[..0] == [];
    PrependNothing(Decode(s));
    while i < len
      invariant i == 4 * k && i <= len + 3
      invariant bi == if i < len then 3 * k else bytes.Length
      invariant Decode(s) == Prepend(bytes[..bi], Decode(s[if i < len then i else len..]))
      decreases len - i
    {
      Room(len, k);
      ghost var done := bytes[..bi];
      var ok, written := DecodeGroupAt(s, i, bytes, bi);
      if !ok {
        return None;
      }
      PrependTwice(done, bytes[bi..bi + written], Decode(s[if i + 4 < len then i + 4 else len..]));
      assert bytes[..bi + written] == done + bytes[bi..bi + written];
      i, bi, k := i + 4, bi + written, k + 1;
    }
    assert bytes[..bi] == bytes[..];
    NothingLeft(s[len..], bytes[..]);
    return Some(bytes[..]);
  }

  lemma PrependNothing(r: Option<seq<byte>>)
    ensures Prepend([], r) == r
  {
    if r.Some? {
      assert [] + r.value == r.value;
    }
  }

  lemma NothingLeft(s: string, b: seq<byte>)
    requires |s| == 0
    ensures Prepend(b, Decode(s)) == Some(b)
  {
    assert b + [] == b;
  }

  /** One pass of the loop: up to four characters in, up to three bytes written from `bi` on. */
  method DecodeGroupAt(s: string, i: nat, bytes: array<byte>, bi: nat) returns (ok: bool, written: nat)
    requires i < |s| && bi <= bytes.Length
    requires i + 1 < |s| ==> bi + (if i + 4 <= |s| then 3 else |s| - i - 1) <= bytes.Length
    modifies bytes
    ensures bytes[..bi] == old(bytes[..bi])
    ensures !ok ==> Decode(s[i..]) == None
    ensures ok ==> |s| - i > 1 && written == if i + 4 <= |s| then 3 else |s| - i - 1
    ensures ok ==> bi + written <= bytes.Length &&
                   Decode(s[i..]) == Prepend(bytes[bi..bi + written], Decode(s[if i + 4 < |s| then i + 4 else |s|..]))
  {
    hide Value, Byte0, Byte1, Byte2;
    ghost var rest := s[i..];
    written := 0;
    var a := Value(s[i]);
    var b := if i + 1 < |s| then Value(s[i + 1]) else -1;
    if a < 0 || b < 0 {
      return false, 0;
    }
    bytes[bi] := Byte0(a, b);
    if i + 2 >= |s| {
      assert bytes[bi..bi + 1] == [Byte0(a, b)] == [Byte0(a, b)] + [] && s[|s|..] == [];
      return true, 1;
    }
    var c := Value(s[i + 2]);
    if c < 0 {
      return false, 0;
    }
    bytes[bi + 1] := Byte1(b, c);
    if i + 3 >= |s| {
      assert bytes[bi..bi + 2] == [Byte0(a, b), Byte1(b, c)] == [Byte0(a, b), Byte1(b, c)] + [] && s[|s|..] == [];
      return true, 2;
    }
    var d := Value(s[i + 3]);
    if d < 0 {
      return false, 0;
    }
    bytes[bi + 2] := Byte2(c, d);
    assert bytes[bi..bi + 3] == DecodeGroup(a, b, c, d);
    assert rest[4..] == s[i + 4..];
    return true, 3;
  }

  /** The group that starts after `k` whole ones fits in what is left of the array. */
  lemma Room(len: nat, k: nat)
    requires 4 * k < len
    ensures 4 * k + 4 < len ==> 3 * k + 3 <= Allocated(len)
    ensures 4 * k + 4 <= len ==> 3 * k + 3 <= Allocated(len)
    ensures 4 * k + 4 == len ==> 3 * k + 3 == Allocated(len)
    ensures 4 * k + 3 == len ==> 3 * k + 2 == Allocated(len)
    ensures 4 * k + 2 == len ==> 3 * k + 1 == Allocated(len)
  {
  }

  // ---------- Round trips ----------

  /** Three bytes are cut into four sextets, and the sextets give the bytes back. */
  lemma CutAndJoin(x: byte, y: byte, z: byte)
    ensures Byte0(Sextet0(x), Sextet1(x, y)) == x
    ensures Byte1(Sextet1(x, y), Sextet2(y, z)) == y
    ensures Byte2(Sextet2(y, z), Sextet3(z)) == z
  {
    SplitSextet(x % 4, y / 16);
    SplitSextetLow(y % 16, z / 64);
  }

  lemma SplitSextet(hi: int, lo: int)
    requires 0 <= hi < 4 && 0 <= lo < 16
    ensures (hi * 16 + lo) / 16 == hi && (hi * 16 + lo) % 16 == lo
  {
  }

  lemma SplitSextetLow(hi: int, lo: int)
    requires 0 <= hi < 16 && 0 <= lo < 4
    ensures (hi * 4 + lo) / 4 == hi && (hi * 4 + lo) % 4 == lo
  {
  }

  lemma GroupRoundTrip(x: byte, y: byte, z: byte)
    ensures var s := EncodeGroup(x, y, z);
            && Value(s[0]) >= 0 && Value(s[1]) >= 0 && Value(s[2]) >= 0 && Value(s[3]) >= 0
            && DecodeGroup(Value(s[0]), Value(s[1]), Value(s[2]), Value(s[3])) == [x, y, z]
  {
    hide Symbol, Value, Byte0, Byte1, Byte2, Sextet0, Sextet1, Sextet2, Sextet3;
    CutAndJoin(x, y, z);
  }

  lemma ShortRoundTrip(x: byte, y: byte)
    ensures Decode(Encode([x])) == Some([x]) && Decode(Encode([x, y])) == Some([x, y])
  {
    hide Symbol, Value, Byte0, Byte1, Byte2, Sextet0, Sextet1, Sextet2, Sextet3;
    CutAndJoin(x, 0, 0);
    CutAndJoin(x, y, 0);
  }

  /** Decoding undoes encoding, on every byte string. */
  lemma {:induction false} DecodeUndoesEncode(b: seq<byte>)
    ensures Decode(Encode(b)) == Some(b)
  {
    if |b| == 1 {
      ShortRoundTrip(b[0], 0);
      assert b == [b[0]];
    } else if |b| == 2 {
      ShortRoundTrip(b[0], b[1]);
      assert b == [b[0], b[1]];
    } else if |b| > 2 {
      DecodeUndoesEncode(b[3..]);
      GroupRoundTrip(b[0], b[1], b[2]);
      hide Symbol, Value, DecodeGroup, EncodeGroup;
      var head := EncodeGroup(b[0], b[1], b[2]);
      assert Encode(b)[4..] == Encode(b[3..]) && Encode(b)[..4] == head;
      assert [b[0], b[1], b[2]] + b[3..] == b;
    }
  }

  /** The bits of the last character that no byte uses are zero (section 3.5 of RFC 4648). */
  predicate TrailingBitsZero(s: string)
  {
    && (|s| % 4 == 2 ==> Value(s[|s| - 1]) % 16 == 0)
    && (|s| % 4 == 3 ==> Value(s[|s| - 1]) % 4 == 0)
  }

  /** Four sextets are joined into three bytes, and the bytes give the sextets back. */
  lemma JoinAndCut(a: sextet, b: sextet, c: sextet, d: sextet)
    ensures Sextet0(Byte0(a, b)) == a && Sextet1(Byte0(a, b), Byte1(b, c)) == b
    ensures Sextet2(Byte1(b, c), Byte2(c, d)) == c && Sextet3(Byte2(c, d)) == d
  {
    SplitByte0(a, b / 16);
    SplitByte1(b % 16, c / 4);
    SplitByte2(c % 4, d);
  }

  lemma SplitByte0(hi: int, lo: int)
    requires 0 <= hi < 64 && 0 <= lo < 4
    ensures (hi * 4 + lo) / 4 == hi && (hi * 4 + lo) % 4 == lo
  {
  }

  lemma SplitByte1(hi: int, lo: int)
    requires 0 <= hi < 16 && 0 <= lo < 16
    ensures (hi * 16 + lo) / 16 == hi && (hi * 16 + lo) % 16 == lo
  {
  }

  lemma SplitByte2(hi: int, lo: int)
    requires 0 <= hi < 4 && 0 <= lo < 64
    ensures (hi * 64 + lo) / 64 == hi && (hi * 64 + lo) % 64 == lo
  {
  }

  /** The last sextet of a short group comes back without its unused bits. */
  lemma JoinAndCutLast(a: sextet, b: sextet, c: sextet)
    ensures Sextet1(Byte0(a, b), 0) == b / 16 * 16 && Sextet2(Byte1(b, c), 0) == c / 4 * 4
  {
    SplitByte0(a, b / 16);
    SplitByte1(b % 16, c / 4);
  }

  lemma GroupOfSextets(a: sextet, b: sextet, c: sextet, d: sextet)
    ensures var g := DecodeGroup(a, b, c, d);
            EncodeGroup(g[0], g[1], g[2]) == [Symbol(a), Symbol(b), Symbol(c), Symbol(d)]
  {
    hide Symbol, Value, Byte0, Byte1, Byte2, Sextet0, Sextet1, Sextet2, Sextet3;
    JoinAndCut(a, b, c, d);
  }

  /** Encoding undoes decoding exactly on the strings whose unused bits are zero: the browser's
      decoder accepts others, which come back changed. */
  lemma {:induction false} EncodeUndoesDecode(s: string)
    requires Decode(s).Some?
    ensures Encode(Decode(s).value) == s <==> TrailingBitsZero(s)
  {
    if |s| > 3 {
      EncodeUndoesDecode(s[4..]);
      FullGroup(s);
      SameTrailing(s);
    } else if |s| == 2 {
      LastOfTwo(s[0], s[1]);
      assert s == [s[0], s[1]];
    } else if |s| == 3 {
      LastOfThree(s[0], s[1], s[2]);
      assert s == [s[0], s[1], s[2]];
    }
  }

  /** "AB" has its last four bits set, decodes to one zero byte and comes back as "AA". */
  lemma UnusedBitsAreLost()
    ensures Decode("AB") == Some([0]) && Encode([0]) == "AA" && !TrailingBitsZero("AB")
  {
    EncodeUndoesDecode("AB");
    EncodeUndoesDecode("AA");
  }

  lemma FullGroup(s: string)
    requires |s| > 3 && Decode(s).Some?
    ensures Decode(s[4..]).Some?
    ensures Encode(Decode(s).value) == s <==> Encode(Decode(s[4..]).value) == s[4..]
  {
    hide Symbol, Value, Byte0, Byte1, Byte2;
    var g := DecodeGroup(Value(s[0]), Value(s[1]), Value(s[2]), Value(s[3]));
    var rest := Decode(s[4..]).value;
    GroupOfSextets(Value(s[0]), Value(s[1]), Value(s[2]), Value(s[3]));
    SymbolOfValue(s[0]);
    SymbolOfValue(s[1]);
    SymbolOfValue(s[2]);
    SymbolOfValue(s[3]);
    assert Decode(s).value == g + rest;
    assert s[..4] == EncodeGroup(g[0], g[1], g[2]);
    hide EncodeGroup, DecodeGroup;
    EncodeCons(g, rest);
    hide Encode, Decode;
    assert s == s[..4] + s[4..];
    if Encode(g + rest) == s {
      assert Encode(rest) == Encode(g + rest)[4..] == s[4..];
    }
  }

  lemma SameTrailing(s: string)
    requires |s| > 3
    ensures TrailingBitsZero(s) <==> TrailingBitsZero(s[4..])
  {
    assert |s| > 4 ==> s[4..][|s| - 5] == s[|s| - 1];
  }

  lemma EncodeCons(g: seq<byte>, rest: seq<byte>)
    requires |g| == 3
    ensures Encode(g + rest) == EncodeGroup(g[0], g[1], g[2]) + Encode(rest)
  {
    assert (g + rest)[3..] == rest;
  }

  lemma SameSymbol(v: sextet, w: sextet)
    ensures Symbol(v) == Symbol(w) <==> v == w
  {
    assert Value(Symbol(v)) == v && Value(Symbol(w)) == w;
  }

  lemma RoundedDown(v: sextet)
    ensures v / 16 * 16 == v <==> v % 16 == 0
    ensures v / 4 * 4 == v <==> v % 4 == 0
  {
  }

  lemma LastOfTwo(c: char, d: char)
    requires Value(c) >= 0 && Value(d) >= 0
    ensures Encode([Byte0(Value(c), Value(d))]) == [c, d] <==> Value(d) % 16 == 0
  {
    SymbolOfValue(c);
    SymbolOfValue(d);
    hide Symbol, Value, Byte0, Byte1, Byte2, Sextet0, Sextet1, Sextet2, Sextet3;
    var a, b: sextet := Value(c), Value(d);
    JoinAndCut(a, b, 0, 0);
    JoinAndCutLast(a, b, 0);
    RoundedDown(b);
    SameSymbol(Sextet1(Byte0(a, b), 0), b);
  }

  lemma LastOfThree(c: char, d: char, e: char)
    requires Value(c) >= 0 && Value(d) >= 0 && Value(e) >= 0
    ensures Encode([Byte0(Value(c), Value(d)), Byte1(Value(d), Value(e))]) == [c, d, e] <==> Value(e) % 4 == 0
  {
    SymbolOfValue(c);
    SymbolOfValue(d);
    SymbolOfValue(e);
    hide Symbol, Value, Byte0, Byte1, Byte2, Sextet0, Sextet1, Sextet2, Sextet3;
    var a, b, f: sextet := Value(c), Value(d), Value(e);
    JoinAndCut(a, b, f, 0);
    JoinAndCutLast(a, b, f);
    RoundedDown(f);
    SameSymbol(Sextet2(Byte1(b, f), 0), f);
  }

  /** A string is refused exactly when a character is outside the alphabet or one is left over. */
  lemma {:induction false} DecodeAccepts(s: string)
    ensures Decode(s).Some? <==> |s| % 4 != 1 && forall i | 0 <= i < |s| :: Value(s[i]) >= 0
  {
    hide Value, Byte0, Byte1, Byte2, DecodeGroup;
    if |s| > 3 {
      DecodeAccepts(s[4..]);
      FourMore(s);
      hide Decode, Prepend;
    }
  }

  lemma FourMore(s: string)
    requires |s| > 3
    ensures (forall i | 0 <= i < |s| :: Value(s[i]) >= 0) <==>
            Value(s[0]) >= 0 && Value(s[1]) >= 0 && Value(s[2]) >= 0 && Value(s[3]) >= 0 &&
            forall i | 0 <= i < |s[4..]| :: Value(s[4..][i]) >= 0
    ensures Decode(s).Some? <==>
            Value(s[0]) >= 0 && Value(s[1]) >= 0 && Value(s[2]) >= 0 && Value(s[3]) >= 0 && Decode(s[4..]).Some?
  {
    hide Value, Byte0, Byte1, Byte2;
    assert forall i | 0 <= i < |s[4..]| :: s[4..][i] == s[i + 4];
    if forall i | 0 <= i < |s[4..]| :: Value(s[4..][i]) >= 0 {
      forall i | 4 <= i < |s| ensures Value(s[i]) >= 0 {
        assert s[4..][i - 4] == s[i];
      }
    }
  }

  // ---------- What the characters are ----------

  function Base256(b: seq<byte>): int { if |b| == 0 then 0 else Base256(b[..|b| - 1]) * 256 + b[|b| - 1] }

  function Base64Number(s: string): int
  {
    if |s| == 0 then 0 else Base64Number(s[..|s| - 1]) * 64 + Value(s[|s| - 1])
  }

  /** The 24 bits of the `i`th three bytes are those of the `i`th four characters; of one or two bytes left
      over, those of two or three characters, with four or two zero bits behind. */
  ghost predicate SameBits(b: seq<byte>, s: string, i: nat)
    requires 3 * i < |b| && |s| == (4 * |b| + 2) / 3
  {
    if |b| >= 3 * i + 3 then Base256(b[3 * i..3 * i + 3]) == Base64Number(s[4 * i..4 * i + 4])
    else Base256(b[3 * i..]) * (if |b| == 3 * i + 2 then 4 else 16) == Base64Number(s[4 * i..])
  }

  lemma {:induction false} EncodedBits(b: seq<byte>, i: nat)
    requires 3 * i < |b|
    ensures |Encode(b)| == (4 * |b| + 2) / 3 && SameBits(b, Encode(b), i)
  {
    hide Symbol, Value, Sextet0, Sextet1, Sextet2, Sextet3, Base256, Base64Number;
    if |b| > 3 {
      EncodedBits(b[3..], if i > 0 then i - 1 else 0);
    }
    if i == 0 {
      FirstBits(b);
    } else {
      assert b[3..][3 * (i - 1)..] == b[3 * i..] && Encode(b)[4..][4 * (i - 1)..] == Encode(b)[4 * i..];
      assert |b| >= 3 * i + 3 ==> b[3..][3 * (i - 1)..3 * i] == b[3 * i..3 * i + 3];
      assert |b| >= 3 * i + 3 ==> Encode(b)[4..][4 * (i - 1)..4 * i] == Encode(b)[4 * i..4 * i + 4];
      assert Encode(b)[4..] == Encode(b[3..]);
    }
  }

  lemma FirstBits(b: seq<byte>)
    requires |b| > 0 && |Encode(b)| == (4 * |b| + 2) / 3
    ensures SameBits(b, Encode(b), 0)
  {
    hide Symbol, Value, Sextet0, Sextet1, Sextet2, Sextet3;
    var s := Encode(b);
    var x, y, z := b[0], if |b| > 1 then b[1] else 0, if |b| > 2 then b[2] else 0;
    GroupBits(x, y, z);
    NumberOfThree(x, y, z);
    if |b| >= 3 {
      assert b[0..3] == [x, y, z] && s[0..4] == EncodeGroup(x, y, z);
      NumberOfFour(s[0], s[1], s[2], s[3]);
    } else if |b| == 2 {
      assert b[0..] == [x, y] && s[0..] == [s[0], s[1], s[2]];
      NumberOfFour(s[0], s[1], s[2], 'A');
    } else {
      assert b[0..] == [x] && s[0..] == [s[0], s[1]];
      NumberOfFour(s[0], s[1], 'A', 'A');
    }
    hide Encode, Base256, Base64Number;
  }

  lemma NumberOfThree(x: byte, y: byte, z: byte)
    ensures Base256([x]) == x && Base256([x, y]) == x as int * 0x100 + y
    ensures Base256([x, y, z]) == x as int * 0x10000 + y as int * 0x100 + z
  {
    assert [x, y, z][..2] == [x, y] && [x, y][..1] == [x] && [x][..0] == [];
    assert Base256([x]) == x;
  }

  lemma NumberOfFour(a: char, b: char, c: char, d: char)
    ensures Base64Number([a, b]) == Value(a) * 0x40 + Value(b)
    ensures Base64Number([a, b, c]) == Value(a) * 0x1000 + Value(b) * 0x40 + Value(c)
    ensures Base64Number([a, b, c, d]) == Value(a) * 0x40000 + Value(b) * 0x1000 + Value(c) * 0x40 + Value(d)
  {
    hide Value;
    assert [a, b, c, d][..3] == [a, b, c] && [a, b, c][..2] == [a, b] && [a, b][..1] == [a] && [a][..0] == [];
    assert Base64Number([a]) == Value(a);
  }

  lemma GroupBits(x: byte, y: byte, z: byte)
    ensures var a, b, c: int := x, y, z;
            && a * 0x10000 + b * 0x100 + c ==
               Sextet0(x) as int * 0x40000 + Sextet1(x, y) as int * 0x1000 + Sextet2(y, z) as int * 0x40 +
               Sextet3(z) as int
            && (a * 0x100 + b) * 4 == Sextet0(x) as int * 0x1000 + Sextet1(x, y) as int * 0x40 + Sextet2(y, 0) as int
            && a * 16 == Sextet0(x) as int * 0x40 + Sextet1(x, 0) as int
  {
  }
}
