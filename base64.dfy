/**
 * Base 64 encoding with the alphabet and padding of section 4 of RFC 4648,
 * as `btoa` produces it, and the "forgiving-base64 decode" of the WHATWG
 * Infra standard, which is what `atob` runs. JavaScript's binary strings
 * (one character per byte, char code = byte value) are modelled as strings
 * whose characters are all below U+0100.
 */
module Base64 {
  import opened Wrappers

  /** A `Uint8Array` element. */
  type byte = x: int | 0 <= x < 256

  /** A 6-bit value: one base 64 character's worth of bits. */
  type sextet = x: int | 0 <= x < 64

  /** Table 1 of RFC 4648: the character for a 6-bit value. */
  function CharOf(v: sextet): (c: char)
  {
    if v < 26 then ('A' as int + v) as char
    else if v < 52 then ('a' as int + (v - 26)) as char
    else if v < 62 then ('0' as int + (v - 52)) as char
    else if v == 62 then '+'
    else '/'
  }

  predicate IsAlphabet(c: char) {
    ('A' <= c <= 'Z') || ('a' <= c <= 'z') || ('0' <= c <= '9') || c == '+' || c == '/'
  }

  /** The 6-bit value of an alphabet character: the inverse of CharOf. */
  function ValueOf(c: char): (v: sextet)
    requires IsAlphabet(c)
    ensures CharOf(v) == c
  {
    if 'A' <= c <= 'Z' then c as int - 'A' as int
    else if 'a' <= c <= 'z' then c as int - 'a' as int + 26
    else if '0' <= c <= '9' then c as int - '0' as int + 52
    else if c == '+' then 62
    else 63
  }

  lemma ValueOfCharOf(v: sextet)
    ensures IsAlphabet(CharOf(v)) && ValueOf(CharOf(v)) == v
  {
  }

  predicate AllAlphabet(s: string) {
    forall i :: 0 <= i < |s| ==> IsAlphabet(s[i])
  }

  /**
   * The encoded characters before padding: four per complete 3-byte group,
   * then two for a final single byte or three for a final pair of bytes.
   */
  function Sextets(b: seq<byte>): (s: string)
    ensures |s| % 4 == (if |b| % 3 == 0 then 0 else |b| % 3 + 1)
    ensures AllAlphabet(s)
    decreases |b|
  {
    if |b| == 0 then ""
    else if |b| == 1 then OneByteChars(b[0])
    else if |b| == 2 then TwoByteChars(b[0], b[1])
    else
      var g, rest := GroupChars(b[0], b[1], b[2]), Sextets(b[3..]);
      assert |b[3..]| % 3 == |b| % 3 && |g + rest| == |rest| + 4;
      AllAlphabetAppend(g, rest);
      g + rest
  }

  lemma AllAlphabetAppend(s: string, t: string)
    requires AllAlphabet(s) && AllAlphabet(t)
    ensures AllAlphabet(s + t)
  {
    forall i | 0 <= i < |s + t| ensures IsAlphabet((s + t)[i]) {
      if i >= |s| { assert (s + t)[i] == t[i - |s|]; }
    }
  }

  /** The four characters of a complete 3-byte group. */
  function GroupChars(b0: byte, b1: byte, b2: byte): (s: string)
    ensures |s| == 4 && AllAlphabet(s)
  {
    [CharOf(b0 / 4), CharOf(b0 % 4 * 16 + b1 / 16), CharOf(b1 % 16 * 4 + b2 / 64), CharOf(b2 % 64)]
  }

  /** The two characters of a final single byte. */
  function OneByteChars(b0: byte): (s: string)
    ensures |s| == 2 && AllAlphabet(s)
  {
    [CharOf(b0 / 4), CharOf(b0 % 4 * 16)]
  }

  /** The three characters of a final pair of bytes. */
  function TwoByteChars(b0: byte, b1: byte): (s: string)
    ensures |s| == 3 && AllAlphabet(s)
  {
    [CharOf(b0 / 4), CharOf(b0 % 4 * 16 + b1 / 16), CharOf(b1 % 16 * 4)]
  }

  /** `btoa` on the binary string of `b`: section 4 of RFC 4648, padded with `=`. */
  function Encode(b: seq<byte>): (s: string)
    ensures |s| % 4 == 0
    ensures forall i :: 0 <= i < |s| ==> IsAlphabet(s[i]) || s[i] == '='
  {
    var chars, pad := Sextets(b), if |b| % 3 == 1 then "==" else if |b| % 3 == 2 then "=" else "";
    PaddedChars(chars, pad);
    chars + pad
  }

  /** Alphabet characters followed by `=` signs hold nothing else. */
  lemma PaddedChars(s: string, pad: string)
    requires AllAlphabet(s) && forall i :: 0 <= i < |pad| ==> pad[i] == '='
    ensures forall i :: 0 <= i < |s + pad| ==> IsAlphabet((s + pad)[i]) || (s + pad)[i] == '='
  {
    forall i | 0 <= i < |s + pad| ensures IsAlphabet((s + pad)[i]) || (s + pad)[i] == '=' {
      if i >= |s| { assert (s + pad)[i] == pad[i - |s|]; }
    }
  }

  /** ASCII whitespace of the WHATWG Infra standard. */
  predicate IsAsciiWhitespace(c: char) {
    c == '\t' || c == '\n' || c == '\U{0C}' || c == '\r' || c == ' '
  }

  function RemoveAsciiWhitespace(s: string): (r: string)
    ensures |r| <= |s|
    ensures forall i :: 0 <= i < |r| ==> !IsAsciiWhitespace(r[i])
    decreases |s|
  {
    if s == [] then []
    else if IsAsciiWhitespace(s[0]) then RemoveAsciiWhitespace(s[1..])
    else [s[0]] + RemoveAsciiWhitespace(s[1..])
  }

  /** Steps 2 and 3 of forgiving-base64 decode: one or two `=` are dropped from a length divisible by four. */
  function DropPadding(s: string): string {
    if |s| % 4 == 0 && |s| >= 2 && s[|s| - 2..] == "==" then s[..|s| - 2]
    else if |s| % 4 == 0 && |s| >= 1 && s[|s| - 1] == '=' then s[..|s| - 1]
    else s
  }

  /** The bytes of a run of alphabet characters; leftover bits of a short final group are discarded. */
  function DecodeSextets(t: string): seq<byte>
    requires AllAlphabet(t)
    requires |t| % 4 != 1
    decreases |t|
  {
    if |t| == 0 then []
    else if |t| == 2 then
      [FirstByte(ValueOf(t[0]), ValueOf(t[1]))]
    else if |t| == 3 then
      [FirstByte(ValueOf(t[0]), ValueOf(t[1])), SecondByte(ValueOf(t[1]), ValueOf(t[2]))]
    else
      [FirstByte(ValueOf(t[0]), ValueOf(t[1])), SecondByte(ValueOf(t[1]), ValueOf(t[2])),
       ThirdByte(ValueOf(t[2]), ValueOf(t[3]))] + DecodeSextets(t[4..])
  }

  /** The 6 bits of `v0` followed by the top 2 bits of `v1`. */
  function FirstByte(v0: sextet, v1: sextet): byte {
    v0 * 4 + v1 / 16
  }

  /** The low 4 bits of `v1` followed by the top 4 bits of `v2`. */
  function SecondByte(v1: sextet, v2: sextet): byte {
    v1 % 16 * 16 + v2 / 4
  }

  /** The low 2 bits of `v2` followed by the 6 bits of `v3`. */
  function ThirdByte(v2: sextet, v3: sextet): byte {
    v2 % 4 * 64 + v3
  }

  /** Forgiving-base64 decode: `None` where `atob` throws an InvalidCharacterError. */
  function Decode(s: string): (r: Option<seq<byte>>)
    ensures r.Some? <==> (|DropPadding(RemoveAsciiWhitespace(s))| % 4 != 1
                          && AllAlphabet(DropPadding(RemoveAsciiWhitespace(s))))
  {
    var t := DropPadding(RemoveAsciiWhitespace(s));
    if |t| % 4 == 1 || !AllAlphabet(t) then None else Some(DecodeSextets(t))
  }

  /** The binary string of a byte sequence: one character per byte, char code = byte value. */
  function BinaryString(b: seq<byte>): (s: string)
    ensures |s| == |b| && forall i :: 0 <= i < |b| ==> s[i] as int == b[i] as int
  {
    seq(|b|, i requires 0 <= i < |b| => b[i] as char)
  }

  predicate IsBinaryString(s: string) {
    forall i :: 0 <= i < |s| ==> s[i] as int < 256
  }

  /** The bytes of a binary string (`charCodeAt` of each character). */
  function BytesOf(s: string): (b: seq<byte>)
    requires IsBinaryString(s)
    ensures |b| == |s| && forall i :: 0 <= i < |s| ==> b[i] as int == s[i] as int
  {
    seq(|s|, i requires 0 <= i < |s| => s[i] as int as byte)
  }

  /** `btoa(s)`: `None` where a character above U+00FF makes it throw. */
  function Btoa(s: string): (r: Option<string>)
    ensures r.Some? <==> IsBinaryString(s)
  {
    if IsBinaryString(s) then Some(Encode(BytesOf(s))) else None
  }

  /** `atob(s)`: the decoded bytes as a binary string. */
  function Atob(s: string): (r: Option<string>)
    ensures r.Some? ==> IsBinaryString(r.value)
    ensures r.Some? <==> Decode(s).Some?
  {
    match Decode(s)
    case Some(b) => Some(BinaryString(b))
    case None => None
  }

  /** One 3-byte group comes back from its four 6-bit values. */
  lemma GroupRoundTrip(b0: byte, b1: byte, b2: byte)
    ensures FirstByte(b0 / 4, b0 % 4 * 16 + b1 / 16) == b0
    ensures SecondByte(b0 % 4 * 16 + b1 / 16, b1 % 16 * 4 + b2 / 64) == b1
    ensures ThirdByte(b1 % 16 * 4 + b2 / 64, b2 % 64) == b2
  {
    var v1 := b0 % 4 * 16 + b1 / 16;
    assert v1 / 16 == b0 % 4 && v1 % 16 == b1 / 16;
    var v2 := b1 % 16 * 4 + b2 / 64;
    assert v2 / 4 == b1 % 16 && v2 % 4 == b2 / 64;
  }

  /** The four characters of a group give back its three bytes. */
  lemma GroupCharsValues(b0: byte, b1: byte, b2: byte)
    ensures var g := GroupChars(b0, b1, b2);
      && FirstByte(ValueOf(g[0]), ValueOf(g[1])) == b0
      && SecondByte(ValueOf(g[1]), ValueOf(g[2])) == b1
      && ThirdByte(ValueOf(g[2]), ValueOf(g[3])) == b2
  {
    ValueOfCharOf(b0 / 4);
    ValueOfCharOf(b0 % 4 * 16 + b1 / 16);
    ValueOfCharOf(b1 % 16 * 4 + b2 / 64);
    ValueOfCharOf(b2 % 64);
    GroupRoundTrip(b0, b1, b2);
  }

  /** Decoding the four characters of one complete group, followed by anything decodable. */
  lemma DecodeFullGroup(b0: byte, b1: byte, b2: byte, rest: string)
    requires AllAlphabet(rest) && |rest| % 4 != 1
    ensures var g := GroupChars(b0, b1, b2);
      AllAlphabet(g + rest) && |g + rest| % 4 != 1 && DecodeSextets(g + rest) == [b0, b1, b2] + DecodeSextets(rest)
  {
    var g := GroupChars(b0, b1, b2);
    GroupCharsValues(b0, b1, b2);
    var t := g + rest;
    assert t[4..] == rest;
    assert t[..4] == g;
    AllAlphabetAppend(g, rest);
  }

  /** A final single byte comes back from its two characters. */
  lemma DecodeOneByteTail(b0: byte)
    ensures var t := OneByteChars(b0);
      AllAlphabet(t) && DecodeSextets(t) == [b0]
  {
    ValueOfCharOf(b0 / 4);
    ValueOfCharOf(b0 % 4 * 16);
    GroupRoundTrip(b0, 0, 0);
  }

  /** A final pair of bytes comes back from its three characters. */
  lemma DecodeTwoByteTail(b0: byte, b1: byte)
    ensures var t := TwoByteChars(b0, b1);
      AllAlphabet(t) && DecodeSextets(t) == [b0, b1]
  {
    ValueOfCharOf(b0 / 4);
    ValueOfCharOf(b0 % 4 * 16 + b1 / 16);
    ValueOfCharOf(b1 % 16 * 4);
    GroupRoundTrip(b0, b1, 0);
  }

  /** One complete group in front: the step of the induction below. */
  lemma DecodeSextetsStep(b: seq<byte>)
    requires |b| >= 3
    requires |Sextets(b[3..])| % 4 != 1 && DecodeSextets(Sextets(b[3..])) == b[3..]
    ensures |Sextets(b)| % 4 != 1 && DecodeSextets(Sextets(b)) == b
  {
    var rest := Sextets(b[3..]);
    DecodeFullGroup(b[0], b[1], b[2], rest);
    assert Sextets(b) == GroupChars(b[0], b[1], b[2]) + rest;
    assert [b[0], b[1], b[2]] + b[3..] == b;
  }

  lemma {:induction false} DecodeSextetsRoundTrip(b: seq<byte>)
    ensures |Sextets(b)| % 4 != 1
    ensures DecodeSextets(Sextets(b)) == b
    decreases |b|
  {
    if |b| == 0 {
    } else if |b| == 1 {
      DecodeOneByteTail(b[0]);
      assert b == [b[0]];
    } else if |b| == 2 {
      DecodeTwoByteTail(b[0], b[1]);
      assert b == [b[0], b[1]];
    } else {
      DecodeSextetsRoundTrip(b[3..]);
      DecodeSextetsStep(b);
    }
  }

  lemma {:induction false} RemoveAsciiWhitespaceNoop(s: string)
    requires forall i :: 0 <= i < |s| ==> !IsAsciiWhitespace(s[i])
    ensures RemoveAsciiWhitespace(s) == s
    decreases |s|
  {
    if s != [] {
      RemoveAsciiWhitespaceNoop(s[1..]);
    }
  }

  /** The padding `btoa` appends is exactly what decoding drops. */
  lemma DropPaddingOfPadded(s: string, pad: string)
    requires AllAlphabet(s)
    requires (pad == "==" && |s| % 4 == 2) || (pad == "=" && |s| % 4 == 3) || (pad == "" && |s| % 4 == 0)
    ensures DropPadding(s + pad) == s
  {
    var e := s + pad;
    if pad == "==" {
      assert e[|e| - 2..] == "==" && e[..|e| - 2] == s;
    } else if pad == "=" {
      assert e[..|e| - 1] == s && e[|e| - 1] == '=';
      assert e[|e| - 2..] != "==" by { assert e[|e| - 2] == s[|s| - 1]; }
    } else if |s| > 0 {
      assert e == s && IsAlphabet(s[|s| - 1]);
      assert e[|e| - 2..] != "==" by { assert e[|e| - 1] == s[|s| - 1]; }
    }
  }

  /** Decoding what `btoa` produced gives back the bytes: the round trip between the two pages. */
  lemma DecodeEncode(b: seq<byte>)
    ensures Decode(Encode(b)) == Some(b)
  {
    var e := Encode(b);
    var s := Sextets(b);
    RemoveAsciiWhitespaceNoop(e);
    DropPaddingOfPadded(s, e[|s|..]);
    assert s + e[|s|..] == e;
    DecodeSextetsRoundTrip(b);
  }

  /** Every binary string survives `btoa` then `atob`. */
  lemma AtobBtoa(s: string)
    requires IsBinaryString(s)
    ensures Btoa(s).Some? && Atob(Btoa(s).value) == Some(s)
  {
    DecodeEncode(BytesOf(s));
    assert BinaryString(BytesOf(s)) == s;
  }
}
