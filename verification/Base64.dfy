/** The standard base64 encoding (section 4 of RFC 4648), on bytes, and the decoder's
    tolerance of line breaks. */
module Base64 {
  import opened Wrappers

  type byte = x: int | 0 <= x < 256

  const PAD: byte := '=' as int

  /** The alphabet: upper case, lower case, digits, plus and slash. */
  function EncodeDigit(d: int): (b: byte)
    requires 0 <= d < 64
    ensures d < 26 ==> b == 'A' as int + d
    ensures 26 <= d < 52 ==> b == 'a' as int + (d - 26)
    ensures 52 <= d < 62 ==> b == '0' as int + (d - 52)
    ensures d == 62 ==> b == '+' as int
    ensures d == 63 ==> b == '/' as int
  {
    if d < 26 then 65 + d
    else if d < 52 then 71 + d
    else if d < 62 then d - 4
    else if d == 62 then 43
    else 47
  }

  function DecodeDigit(b: byte): (r: Option<int>)
    ensures r.Some? ==> 0 <= r.value < 64
  {
    if 65 <= b <= 90 then Some(b - 65)
    else if 97 <= b <= 122 then Some(b - 71)
    else if 48 <= b <= 57 then Some(b + 4)
    else if b == 43 then Some(62)
    else if b == 47 then Some(63)
    else None
  }

  lemma DigitRoundTrip(d: int)
    requires 0 <= d < 64
    ensures DecodeDigit(EncodeDigit(d)) == Some(d) && EncodeDigit(d) != PAD && EncodeDigit(d) != 10
          && EncodeDigit(d) != 13
  {
  }

  function Encode(s: seq<byte>): seq<byte> {
    if |s| == 0 then []
    else if |s| == 1 then [EncodeDigit(s[0] / 4), EncodeDigit(s[0] % 4 * 16), PAD, PAD]
    else if |s| == 2 then
      [EncodeDigit(s[0] / 4), EncodeDigit(s[0] % 4 * 16 + s[1] / 16), EncodeDigit(s[1] % 16 * 4), PAD]
    else EncodeGroup(s[0], s[1], s[2]) + Encode(s[3..])
  }

  function EncodeGroup(a: byte, b: byte, c: byte): (r: seq<byte>)
    ensures |r| == 4
  {
    [EncodeDigit(a / 4), EncodeDigit(a % 4 * 16 + b / 16), EncodeDigit(b % 16 * 4 + c / 64), EncodeDigit(c % 64)]
  }

  function DecodeGroup(g: seq<byte>): (r: Option<seq<byte>>)
    requires |g| == 4
    ensures r.Some? ==> |r.value| == 3
  {
    var d0, d1, d2, d3 := DecodeDigit(g[0]), DecodeDigit(g[1]), DecodeDigit(g[2]), DecodeDigit(g[3]);
    if d0.None? || d1.None? || d2.None? || d3.None? then None
    else Some([d0.value * 4 + d1.value / 16, d1.value % 16 * 16 + d2.value / 4, d2.value % 4 * 64 + d3.value])
  }

  /** Decodes groups of four; padding may only end the input. */
  function Decode(s: seq<byte>): (r: Option<seq<byte>>)
    ensures r.Some? ==> |r.value| <= |s| / 4 * 3
  {
    if |s| == 0 then Some([])
    else if |s| < 4 then None
    else
      var d0, d1, d2, d3 := DecodeDigit(s[0]), DecodeDigit(s[1]), DecodeDigit(s[2]), DecodeDigit(s[3]);
      if d0.None? || d1.None? then None
      else if s[2] == PAD then
        if s[3] == PAD && |s| == 4 then Some([d0.value * 4 + d1.value / 16]) else None
      else if d2.None? then None
      else if s[3] == PAD then
        if |s| == 4 then Some([d0.value * 4 + d1.value / 16, d1.value % 16 * 16 + d2.value / 4]) else None
      else
        match (DecodeGroup(s[..4]), Decode(s[4..]))
        case (Some(three), Some(rest)) => Some(three + rest)
        case _ => None
  }

  /** Line breaks are skipped wherever they stand. */
  function StripBreaks(s: seq<byte>): (r: seq<byte>)
    ensures |r| <= |s|
  {
    if s == [] then []
    else if s[0] == 10 || s[0] == 13 then StripBreaks(s[1..])
    else [s[0]] + StripBreaks(s[1..])
  }

  /** Room the decoder asks for, counting line breaks and padding as if they were data. */
  function DecodedLen(n: nat): nat {
    n / 4 * 3
  }

  /** The four digits of a group hold its three bytes. */
  lemma GroupDigits(a: byte, b: byte, c: byte)
    ensures var d1, d2 := a % 4 * 16 + b / 16, b % 16 * 4 + c / 64;
      && 0 <= d1 < 64 && 0 <= d2 < 64
      && a / 4 * 4 + d1 / 16 == a && d1 % 16 * 16 + d2 / 4 == b && d2 % 4 * 64 + c % 64 == c
  {
  }

  lemma GroupBits(a: byte, b: byte, c: byte)
    ensures var d1, d2 := a % 4 * 16 + b / 16, b % 16 * 4 + c / 64;
      65536 * a + 256 * b + c == 262144 * (a / 4) + 4096 * d1 + 64 * d2 + c % 64
  {
    assert 262144 * (a / 4) + 4096 * (a % 4 * 16) == 65536 * a;
    assert 4096 * (b / 16) + 64 * (b % 16 * 4) == 256 * b;
    assert 64 * (c / 64) + c % 64 == c;
  }

  /** Four digits of 6 bits, the highest first, read the number n of 24 bits. */
  ghost predicate Digits(g: seq<byte>, n: int) {
    exists d0, d1, d2, d3 ::
      && 0 <= d0 < 64 && 0 <= d1 < 64 && 0 <= d2 < 64 && 0 <= d3 < 64
      && n == 262144 * d0 + 4096 * d1 + 64 * d2 + d3
      && g == [EncodeDigit(d0), EncodeDigit(d1), EncodeDigit(d2), EncodeDigit(d3)]
  }

  /** A group reads the 24 bits of its three bytes. */
  lemma GroupHolds(a: byte, b: byte, c: byte)
    ensures Digits(EncodeGroup(a, b, c), (65536 * a as int) + (256 * b as int) + c as int)
  {
    hide EncodeDigit;
    GroupBits(a, b, c);
    GroupDigits(a, b, c);
  }

  /** One or two bytes left over are completed with zeros, of which only padding is told. */
  lemma LeftOver(a: byte, b: byte)
    ensures Encode([a]) == EncodeGroup(a, 0, 0)[..2] + ['=' as int, '=' as int]
    ensures Encode([a, b]) == EncodeGroup(a, b, 0)[..3] + ['=' as int]
  {
    hide EncodeDigit;
  }

  lemma RoundTripOne(a: byte)
    ensures Decode(Encode([a])) == Some([a])
  {
    DigitRoundTrip(a / 4);
    DigitRoundTrip(a % 4 * 16);
    GroupDigits(a, 0, 0);
    hide EncodeDigit, DecodeDigit;
  }

  lemma RoundTripTwo(a: byte, b: byte)
    ensures Decode(Encode([a, b])) == Some([a, b])
  {
    DigitRoundTrip(a / 4);
    DigitRoundTrip(a % 4 * 16 + b / 16);
    DigitRoundTrip(b % 16 * 4);
    GroupDigits(a, b, 0);
    hide EncodeDigit, DecodeDigit;
  }

  lemma GroupRoundTrip(a: byte, b: byte, c: byte)
    ensures var g := EncodeGroup(a, b, c); g[2] != PAD && g[3] != PAD && DecodeGroup(g) == Some([a, b, c])
    ensures forall i | 0 <= i < 4 :: DecodeDigit(EncodeGroup(a, b, c)[i]).Some?
  {
    GroupDigits(a, b, c);
    DigitRoundTrip(a / 4);
    DigitRoundTrip(a % 4 * 16 + b / 16);
    DigitRoundTrip(b % 16 * 4 + c / 64);
    DigitRoundTrip(c % 64);
    hide EncodeDigit, DecodeDigit;
  }

  lemma DecodeUnfold(e: seq<byte>)
    requires |e| >= 4 && e[2] != PAD && e[3] != PAD && DecodeGroup(e[..4]).Some? && Decode(e[4..]).Some?
    ensures Decode(e) == Some(DecodeGroup(e[..4]).value + Decode(e[4..]).value)
  {
    hide DecodeDigit;
    assert e[..4][0] == e[0] && e[..4][1] == e[1] && e[..4][2] == e[2] && e[..4][3] == e[3];
  }

  lemma EncodeUnfold(s: seq<byte>)
    requires |s| >= 3
    ensures Encode(s) == EncodeGroup(s[0], s[1], s[2]) + Encode(s[3..])
  {
    hide EncodeGroup;
  }

  lemma RoundTripGroup(s: seq<byte>)
    requires |s| >= 3 && Decode(Encode(s[3..])) == Some(s[3..])
    ensures Decode(Encode(s)) == Some(s)
  {
    hide EncodeGroup, DecodeGroup, DecodeDigit, Encode, Decode;
    var g, e := EncodeGroup(s[0], s[1], s[2]), Encode(s);
    GroupRoundTrip(s[0], s[1], s[2]);
    EncodeUnfold(s);
    assert e[..4] == g && e[4..] == Encode(s[3..]) && e[2] == g[2] && e[3] == g[3];
    DecodeUnfold(e);
    assert s == [s[0], s[1], s[2]] + s[3..];
  }

  /** Decoding inverts encoding for every byte string. */
  lemma {:induction false} RoundTrip(s: seq<byte>)
    ensures Decode(Encode(s)) == Some(s)
  {
    if |s| == 1 {
      RoundTripOne(s[0]);
      assert s == [s[0]];
    } else if |s| == 2 {
      RoundTripTwo(s[0], s[1]);
      assert s == [s[0], s[1]];
    } else if |s| >= 3 {
      RoundTrip(s[3..]);
      RoundTripGroup(s);
    }
  }

  /** A character of the alphabet. */
  predicate InAlphabet(b: byte) {
    || 'A' as int <= b <= 'Z' as int || 'a' as int <= b <= 'z' as int || '0' as int <= b <= '9' as int
    || b == '+' as int || b == '/' as int
  }

  /** Groups of four characters of the alphabet, of which padding stands for the last few. */
  ghost predicate Padded(s: seq<byte>, pad: nat) {
    && |s| % 4 == 0 && pad <= |s|
    && (forall i | 0 <= i < |s| - pad :: InAlphabet(s[i]))
    && (forall i | |s| - pad <= i < |s| :: s[i] == '=' as int)
  }

  /** The decoder accepts whole groups with at most two characters of padding, and nothing
      else. */
  lemma {:induction false} DecodesExactly(s: seq<byte>)
    ensures Decode(s).Some? <==> Padded(s, 0) || Padded(s, 1) || Padded(s, 2)
  {
    if |s| > 4 {
      hide Decode, Padded, InAlphabet;
      DecodesExactly(s[4..]);
      DecodeTail(s);
      PaddedTail(s, 0);
      PaddedTail(s, 1);
      PaddedTail(s, 2);
    } else {
      OneGroup(s);
    }
  }

  lemma OneGroup(s: seq<byte>)
    requires |s| <= 4
    ensures Decode(s).Some? <==> Padded(s, 0) || Padded(s, 1) || Padded(s, 2)
  {
    forall i | 0 <= i < |s| ensures DecodeDigit(s[i]).Some? <==> InAlphabet(s[i]) {
    }
    assert !InAlphabet(PAD);
    hide DecodeDigit, InAlphabet;
    if |s| == 4 {
      assert s[..4] == s && Decode(s[4..]) == Some([]);
      PaddedGroup(s);
    }
  }

  lemma PaddedGroup(s: seq<byte>)
    requires |s| == 4
    ensures Padded(s, 0) <==> InAlphabet(s[0]) && InAlphabet(s[1]) && InAlphabet(s[2]) && InAlphabet(s[3])
    ensures Padded(s, 1) <==> InAlphabet(s[0]) && InAlphabet(s[1]) && InAlphabet(s[2]) && s[3] == PAD
    ensures Padded(s, 2) <==> InAlphabet(s[0]) && InAlphabet(s[1]) && s[2] == PAD && s[3] == PAD
  {
    hide InAlphabet;
  }

  lemma PaddedTail(s: seq<byte>, pad: nat)
    requires |s| > 4 && pad <= 2
    ensures Padded(s, pad) <==>
      InAlphabet(s[0]) && InAlphabet(s[1]) && InAlphabet(s[2]) && InAlphabet(s[3]) && Padded(s[4..], pad)
  {
    assert forall i | 4 <= i < |s| :: s[i] == s[4..][i - 4];
  }

  lemma DecodeTail(s: seq<byte>)
    requires |s| > 4
    ensures Decode(s).Some? <==>
      InAlphabet(s[0]) && InAlphabet(s[1]) && InAlphabet(s[2]) && InAlphabet(s[3]) && Decode(s[4..]).Some?
  {
    assert s[..4][0] == s[0] && s[..4][1] == s[1] && s[..4][2] == s[2] && s[..4][3] == s[3];
  }

  lemma BreakGoes(s: seq<byte>)
    requires s != []
    ensures StripBreaks(s) ==
            (if s[0] == '\n' as int || s[0] == '\r' as int then [] else [s[0]]) + StripBreaks(s[1..])
  {
  }

  /** Exactly the line breaks go, and the rest stays in order. */
  lemma {:induction false} OnlyBreaksGo(a: seq<byte>, b: seq<byte>)
    ensures StripBreaks(a + b) == StripBreaks(a) + StripBreaks(b)
    ensures |a| == 1 ==> StripBreaks(a) == if a[0] == '\n' as int || a[0] == '\r' as int then [] else a
  {
    assert StripBreaks([]) == [];
    hide StripBreaks;
    if a == [] {
      assert a + b == b;
    } else {
      OnlyBreaksGo(a[1..], b);
      assert (a + b)[1..] == a[1..] + b;
      BreakGoes(a);
      BreakGoes(a + b);
      assert |a| == 1 ==> a[1..] == [] && a == [a[0]];
    }
  }
}
