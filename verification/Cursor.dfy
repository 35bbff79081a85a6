/** The federation cursor as text: a Julian day in decimal, a dot, and a row id in base64url. */
module Cursor {
  import opened Bytes
  import Base64

  datatype ParsedCursor = NoCursor | At(day: int, id: seq<byte>) | Malformed

  function Digits(n: nat): (s: string)
    ensures |s| > 0
  {
    (if n < 10 then [] else Digits(n / 10)) + [(n % 10 + '0' as int) as char]
  }

  function PrintInt(n: int): string { if n < 0 then "-" + Digits(-n) else Digits(n) }

  /** Decimal digits, most significant first; `None` for an empty string or a stray character. */
  function ParseDigits(s: string): Option<nat>
  {
    if |s| == 0 || !IsDigit(s[|s| - 1]) then None
    else var d := s[|s| - 1] as int - '0' as int;
         if |s| == 1 then Some(d)
         else match ParseDigits(s[..|s| - 1])
              case None => None
              case Some(n) => Some(10 * n + d)
  }

  const I32_MAX: int := 0x7fff_ffff

  /** A signed 32-bit integer: an optional sign and at least one digit, refused out of range. */
  function ParseI32(s: string): Option<int>
  {
    if |s| == 0 then None
    else
      var signed := s[0] == '-' || s[0] == '+';
      match ParseDigits(if signed then s[1..] else s)
      case None => None
      case Some(n) =>
        var v: int := if s[0] == '-' then -(n as int) else n;
        if -I32_MAX - 1 <= v <= I32_MAX then Some(v) else None
  }

  /** The position of the first dot, or the length when there is none. */
  function FirstDot(s: string): (i: nat)
    ensures i <= |s| && (i < |s| ==> s[i] == '.')
    ensures forall j | 0 <= j < i :: s[j] != '.'
  {
    if |s| == 0 || s[0] == '.' then 0
    else assert forall j | 0 < j < |s| :: s[j] == s[1..][j - 1]; 1 + FirstDot(s[1..])
  }

  /** The server's decoder also refuses unused bits that are not zero. */
  function StrictDecode(s: string): Option<seq<byte>>
  {
    if Base64.TrailingBitsZero(s) then Base64.Decode(s) else None
  }

  /** `parse_cursor`; `validDay` is the calendar library's range of days. */
  function Parse(s: Option<string>, validDay: int -> bool): ParsedCursor
  {
    if s.None? || |s.value| == 0 then NoCursor
    else
      var text := s.value;
      var dot := FirstDot(text);
      if dot == |text| then Malformed
      else match (ParseI32(text[..dot]), StrictDecode(text[dot + 1..]))
           case (Some(day), Some(id)) => if validDay(day) && |id| == 16 then At(day, id) else Malformed
           case _ => Malformed
  }

  function Print(day: int, id: seq<byte>): string { PrintInt(day) + "." + Base64.Encode(id) }

  lemma {:induction false} DigitsParse(n: nat)
    ensures ParseDigits(Digits(n)) == Some(n)
    ensures forall i | 0 <= i < |Digits(n)| :: IsDigit(Digits(n)[i])
  {
    var s := Digits(n);
    if n >= 10 {
      DigitsParse(n / 10);
      assert s[..|s| - 1] == Digits(n / 10);
    }
  }

  lemma IntParses(n: int)
    requires -I32_MAX - 1 <= n <= I32_MAX
    ensures ParseI32(PrintInt(n)) == Some(n)
    ensures forall i | 0 <= i < |PrintInt(n)| :: PrintInt(n)[i] != '.'
  {
    var magnitude: nat := if n < 0 then -n else n;
    DigitsParse(magnitude);
    hide Digits, ParseDigits;
    assert IsDigit(Digits(magnitude)[0]);
    if n < 0 {
      assert PrintInt(n)[1..] == Digits(magnitude);
    }
  }

  lemma DotAfter(a: string, b: string)
    requires forall i | 0 <= i < |a| :: a[i] != '.'
    ensures FirstDot(a + "." + b) == |a|
  {
    var s := a + "." + b;
    var i := FirstDot(s);
    assert s[|a|] == '.';
    assert forall j | 0 <= j < |a| :: s[j] == a[j];
  }

  /** The two halves of the cursor's text are read back. */
  lemma PrintSplits(day: int, id: seq<byte>)
    requires -I32_MAX - 1 <= day <= I32_MAX
    ensures var text := Print(day, id);
            && FirstDot(text) < |text|
            && text[..FirstDot(text)] == PrintInt(day) && text[FirstDot(text) + 1..] == Base64.Encode(id)
  {
    hide PrintInt, Base64.Encode;
    IntParses(day);
    var a, b := PrintInt(day), Base64.Encode(id);
    DotAfter(a, b);
    assert (a + "." + b)[..|a|] == a && (a + "." + b)[|a| + 1..] == b;
  }

  /** Parsing undoes printing, for every day the calendar admits and every sixteen-byte id. */
  lemma ParseUndoesPrint(day: int, id: seq<byte>, validDay: int -> bool)
    requires -I32_MAX - 1 <= day <= I32_MAX && validDay(day) && |id| == 16
    ensures Parse(Some(Print(day, id)), validDay) == At(day, id)
  {
    PrintSplits(day, id);
    IntParses(day);
    Base64.DecodeUndoesEncode(id);
    Base64.EncodeUndoesDecode(Base64.Encode(id));
    hide PrintInt, ParseI32, FirstDot, Base64.Encode, Base64.Decode;
    assert |Print(day, id)| > 0;
  }

  lemma I32InRange(s: string)
    requires ParseI32(s).Some?
    ensures -I32_MAX - 1 <= ParseI32(s).value <= I32_MAX
  {
  }

  /** A cursor that parses names a sixteen-byte id and a valid day, and no two texts spell one id. */
  lemma ParsedIdIsCanonical(text: string, validDay: int -> bool)
    requires Parse(Some(text), validDay).At?
    ensures var c := Parse(Some(text), validDay);
            && |c.id| == 16 && validDay(c.day) && -I32_MAX - 1 <= c.day <= I32_MAX
            && text[FirstDot(text) + 1..] == Base64.Encode(c.id)
  {
    hide ParseI32, FirstDot, Base64.Encode, Base64.Decode, Base64.TrailingBitsZero;
    I32InRange(text[..FirstDot(text)]);
    Base64.EncodeUndoesDecode(text[FirstDot(text) + 1..]);
  }

  // ---------- Which texts are read as what ----------

  /** What a string of decimal digits stands for. */
  function Decimal(s: string): int
  {
    if |s| == 0 then 0 else 10 * Decimal(s[..|s| - 1]) + (s[|s| - 1] as int - '0' as int)
  }

  predicate AllDigits(s: string) { |s| > 0 && forall i | 0 <= i < |s| :: IsDigit(s[i]) }

  /** A number in decimal, with or without a sign. */
  predicate Writes(s: string, n: int)
  {
    || (AllDigits(s) && n == Decimal(s))
    || (|s| > 0 && s[0] == '+' && AllDigits(s[1..]) && n == Decimal(s[1..]))
    || (|s| > 0 && s[0] == '-' && AllDigits(s[1..]) && n == -Decimal(s[1..]))
  }

  lemma {:induction false} DigitsAreRead(s: string)
    ensures ParseDigits(s).Some? <==> AllDigits(s)
    ensures AllDigits(s) ==> ParseDigits(s).value == Decimal(s)
  {
    if |s| > 1 {
      DigitsAreRead(s[..|s| - 1]);
    }
  }

  /** A day is printed without a sign unless it lies before the first, and without a zero in front. */
  lemma {:induction false} DigitsAreWritten(n: nat)
    ensures AllDigits(Digits(n)) && Decimal(Digits(n)) == n && (n > 0 ==> Digits(n)[0] != '0')
  {
    DigitsParse(n);
    DigitsAreRead(Digits(n));
    if n >= 10 {
      DigitsAreWritten(n / 10);
    }
  }

  lemma I32IsRead(s: string, n: int)
    ensures ParseI32(s) == Some(n) <==> Writes(s, n) && -0x8000_0000 <= n <= 0x7fff_ffff
  {
    DigitsAreRead(s);
    if |s| > 0 { DigitsAreRead(s[1..]); }
    hide ParseDigits, Decimal;
  }

  lemma IdIsRead(s: string, id: seq<byte>)
    ensures StrictDecode(s) == Some(id) <==> s == Base64.Encode(id)
  {
    Base64.DecodeUndoesEncode(id);
    Base64.EncodeUndoesDecode(Base64.Encode(id));
    if Base64.Decode(s).Some? { Base64.EncodeUndoesDecode(s); }
    hide Base64.Decode, Base64.Encode, Base64.TrailingBitsZero;
  }

  /** A text is read as a day and an id exactly when it is the day in decimal, of 32 bits and in the
      calendar, a dot, and the sixteen bytes of the id in base64url. */
  lemma ParsesExactly(text: string, day: int, id: seq<byte>, validDay: int -> bool)
    ensures Parse(Some(text), validDay) == At(day, id) <==>
            && |id| == 16 && validDay(day) && -0x8000_0000 <= day <= 0x7fff_ffff
            && exists s :: Writes(s, day) && text == s + "." + Base64.Encode(id)
  {
    hide Base64.Decode, Base64.Encode, ParseI32, StrictDecode, Writes, FirstDot;
    var dot := FirstDot(text);
    if dot < |text| {
      I32IsRead(text[..dot], day);
      IdIsRead(text[dot + 1..], id);
      if Parse(Some(text), validDay) == At(day, id) {
        assert text == text[..dot] + "." + text[dot + 1..];
      }
    }
    if s :| Writes(s, day) && text == s + "." + Base64.Encode(id) {
      NoDotIn(s, day);
      DotAfter(s, Base64.Encode(id));
      assert text[..|s|] == s && text[|s| + 1..] == Base64.Encode(id);
      assert |text| > 0;
    }
  }

  lemma NoDotIn(s: string, n: int)
    requires Writes(s, n)
    ensures forall i | 0 <= i < |s| :: s[i] != '.'
  {
    forall i | 0 <= i < |s| ensures s[i] != '.' {
      if !AllDigits(s) && i > 0 { assert s[i] == s[1..][i - 1]; }
    }
  }

  /** No cursor is read from nothing or an empty text, and only from those. */
  lemma NoCursorExactly(s: Option<string>, validDay: int -> bool)
    ensures Parse(s, validDay) == NoCursor <==> s.None? || s == Some("")
  {
    hide ParseI32, StrictDecode, FirstDot;
  }
}
