/** The base64url encoding of section 5 of RFC 4648, as the token service uses
    it: encoded with padding and then stripped of every trailing "=", and
    decoded by first restoring the padding (padding may be omitted, section
    3.2 of RFC 4648). The encoding is split in two layers: bytes to six-bit
    values, and six-bit values to alphabet characters. */
module Base64Url {
  import opened Common

  type sextet = x: int | 0 <= x < 64

  /** The URL- and filename-safe alphabet: A-Z, a-z, 0-9, "-", "_". */
  predicate IsAlphabetChar(c: char) {
    'A' <= c <= 'Z' || 'a' <= c <= 'z' || '0' <= c <= '9' || c == '-' || c == '_'
  }

  function EncodeChar(v: sextet): (c: char)
    ensures IsAlphabetChar(c)
  {
    if v < 26 then ('A' as int + v) as char
    else if v < 52 then ('a' as int + (v - 26)) as char
    else if v < 62 then ('0' as int + (v - 52)) as char
    else if v == 62 then '-'
    else '_'
  }

  function DecodeChar(c: char): (v: sextet)
    requires IsAlphabetChar(c)
    ensures EncodeChar(v) == c
  {
    if 'A' <= c <= 'Z' then c as int - 'A' as int
    else if 'a' <= c <= 'z' then c as int - 'a' as int + 26
    else if '0' <= c <= '9' then c as int - '0' as int + 52
    else if c == '-' then 62
    else 63
  }

  lemma DecodeEncodeChar(v: sextet)
    ensures DecodeChar(EncodeChar(v)) == v
  {
  }

  predicate AllAlphabet(s: string) {
    forall i :: 0 <= i < |s| ==> IsAlphabetChar(s[i])
  }

  // ---------------------------------------------------------------------
  // Encoding

  /** Three bytes as four six-bit values. */
  function GroupSextets(b0: byte, b1: byte, b2: byte): seq<sextet> {
    [b0 / 4, (b0 % 4) * 16 + b1 / 16, (b1 % 16) * 4 + b2 / 64, b2 % 64]
  }

  /** The six-bit values of the encoding: four per group of three bytes; a
      final group of one byte gives two, of two bytes three, the missing
      low bits being zero. */
  function Sextets(b: seq<byte>): seq<sextet>
    decreases |b|
  {
    if |b| == 0 then []
    else if |b| == 1 then [b[0] / 4, (b[0] % 4) * 16]
    else if |b| == 2 then [b[0] / 4, (b[0] % 4) * 16 + b[1] / 16, (b[1] % 16) * 4]
    else GroupSextets(b[0], b[1], b[2]) + Sextets(b[3..])
  }

  /** Six-bit values as alphabet characters. */
  function Chars(v: seq<sextet>): (s: string)
    ensures |s| == |v| && AllAlphabet(s)
  {
    seq(|v|, i requires 0 <= i < |v| => EncodeChar(v[i]))
  }

  /** The encoding without its padding. */
  function Encode(b: seq<byte>): string {
    Chars(Sextets(b))
  }

  /** The "=" characters that complete the last group of an encoding of `n` bytes. */
  function PadFor(n: nat): string {
    if n % 3 == 1 then "==" else if n % 3 == 2 then "=" else ""
  }

  /** `base64.urlsafe_b64encode(b)`. */
  function PaddedEncode(b: seq<byte>): string {
    Encode(b) + PadFor(|b|)
  }

  /** `_b64url(b)`: the padded encoding with trailing "=" stripped. */
  function B64Url(b: seq<byte>): string {
    RStripChar(PaddedEncode(b), '=')
  }

  // ---------------------------------------------------------------------
  // Decoding

  /** Four six-bit values as three bytes. */
  function GroupBytes(v0: sextet, v1: sextet, v2: sextet, v3: sextet): seq<byte> {
    [v0 * 4 + v1 / 16, (v1 % 16) * 16 + v2 / 4, (v2 % 4) * 64 + v3]
  }

  /** Three six-bit values as two bytes; the low bits left over are ignored. */
  function TwoBytes(v0: sextet, v1: sextet, v2: sextet): seq<byte> {
    [v0 * 4 + v1 / 16, (v1 % 16) * 16 + v2 / 4]
  }

  /** Two six-bit values as one byte; the low bits left over are ignored. */
  function OneByte(v0: sextet, v1: sextet): seq<byte> {
    [v0 * 4 + v1 / 16]
  }

  /** The last group of a padded string: four characters, three and "=", or
      two and "==". */
  function DecodeLastGroup(t: string): Option<seq<byte>>
    requires |t| == 4
  {
    if AllAlphabet(t) then
      Some(GroupBytes(DecodeChar(t[0]), DecodeChar(t[1]), DecodeChar(t[2]), DecodeChar(t[3])))
    else if IsAlphabetChar(t[0]) && IsAlphabetChar(t[1]) && IsAlphabetChar(t[2]) && t[3] == '=' then
      Some(TwoBytes(DecodeChar(t[0]), DecodeChar(t[1]), DecodeChar(t[2])))
    else if IsAlphabetChar(t[0]) && IsAlphabetChar(t[1]) && t[2] == '=' && t[3] == '=' then
      Some(OneByte(DecodeChar(t[0]), DecodeChar(t[1])))
    else None
  }

  /** `base64.urlsafe_b64decode(t)` on a padded string; `None` stands for
      binascii.Error. */
  function PaddedDecode(t: string): Option<seq<byte>>
    decreases |t|
  {
    if |t| % 4 != 0 then None
    else if t == [] then Some([])
    else if |t| == 4 then DecodeLastGroup(t)
    else if AllAlphabet(t[..4]) then
      match PaddedDecode(t[4..])
      case Some(rest) =>
        Some(GroupBytes(DecodeChar(t[0]), DecodeChar(t[1]), DecodeChar(t[2]), DecodeChar(t[3])) + rest)
      case None => None
    else None
  }

  /** The "=" characters `_unb64url` appends: enough to reach a multiple of four. */
  function Padding(s: string): (pad: string)
    ensures |pad| == (4 - |s| % 4) % 4 && forall i | 0 <= i < |pad| :: pad[i] == '='
  {
    if |s| % 4 == 1 then "===" else if |s| % 4 == 2 then "==" else if |s| % 4 == 3 then "=" else ""
  }

  /** `_unb64url(s)`. */
  function Unb64Url(s: string): Option<seq<byte>> {
    PaddedDecode(s + Padding(s))
  }

  // ---------------------------------------------------------------------
  // Properties of the byte layer

  lemma GroupRoundTrip(b0: byte, b1: byte, b2: byte)
    ensures var v := GroupSextets(b0, b1, b2); GroupBytes(v[0], v[1], v[2], v[3]) == [b0, b1, b2]
  {
    var v1, v2 := (b0 % 4) * 16 + b1 / 16, (b1 % 16) * 4 + b2 / 64;
    assert v1 / 16 == b0 % 4 && v1 % 16 == b1 / 16;
    assert v2 / 4 == b1 % 16 && v2 % 4 == b2 / 64;
  }

  lemma TwoRoundTrip(b0: byte, b1: byte)
    ensures TwoBytes(b0 / 4, (b0 % 4) * 16 + b1 / 16, (b1 % 16) * 4) == [b0, b1]
  {
    var v1, v2 := (b0 % 4) * 16 + b1 / 16, (b1 % 16) * 4;
    assert v1 / 16 == b0 % 4 && v1 % 16 == b1 / 16;
    assert v2 / 4 == b1 % 16;
  }

  lemma OneRoundTrip(b0: byte)
    ensures OneByte(b0 / 4, (b0 % 4) * 16) == [b0]
  {
  }

  /** Three or more bytes give a whole group of six-bit values followed by
      those of the rest. */
  lemma SextetsCons(b: seq<byte>)
    requires |b| >= 3
    ensures Sextets(b) == GroupSextets(b[0], b[1], b[2]) + Sextets(b[3..])
  {
  }

  /** The number of six-bit values: one more than the bytes of the last
      partial group, after four per whole group. */
  lemma {:induction false} SextetsLength(b: seq<byte>)
    ensures |Sextets(b)| % 4 == (if |b| % 3 == 0 then 0 else |b| % 3 + 1)
    decreases |b|
  {
    if |b| >= 3 {
      SextetsLength(b[3..]);
      SextetsCons(b);
      var n, m := |Sextets(b)|, |Sextets(b[3..])|;
      assert n == m + 4;
      assert n % 4 == m % 4;
      assert |b| % 3 == |b[3..]| % 3;
    }
  }

  // ---------------------------------------------------------------------
  // Properties of the character layer

  lemma CharsAppend(u: seq<sextet>, v: seq<sextet>)
    ensures Chars(u + v) == Chars(u) + Chars(v)
  {
  }

  lemma DecodeChars(v: seq<sextet>, i: nat)
    requires i < |v|
    ensures DecodeChar(Chars(v)[i]) == v[i]
  {
    DecodeEncodeChar(v[i]);
  }

  /** Stripping "=" from an encoding followed by its padding gives back the
      encoding: no alphabet character is "=". */
  lemma {:induction false} StripPadding(s: string, pad: string)
    requires AllAlphabet(s)
    requires forall i :: 0 <= i < |pad| ==> pad[i] == '='
    ensures RStripChar(s + pad, '=') == s
    decreases |pad|
  {
    if pad == [] {
      assert s + pad == s;
      if s != [] {
        assert IsAlphabetChar(s[|s| - 1]);
      }
    } else {
      assert (s + pad)[..|s + pad| - 1] == s + pad[..|pad| - 1];
      StripPadding(s, pad[..|pad| - 1]);
    }
  }

  /** The token form of an encoding is the unpadded encoding. */
  lemma B64UrlIsUnpadded(b: seq<byte>)
    ensures B64Url(b) == Encode(b)
  {
    StripPadding(Encode(b), PadFor(|b|));
  }

  /** `_unb64url` restores exactly the padding the encoder produced. */
  lemma PaddingRestored(b: seq<byte>)
    ensures Padding(Encode(b)) == PadFor(|b|)
  {
    SextetsLength(b);
  }

  lemma AlphabetHasNoDotOrPad(s: string)
    requires AllAlphabet(s)
    ensures '.' !in s && '=' !in s
  {
    forall i | 0 <= i < |s| ensures s[i] != '.' && s[i] != '=' {
      assert IsAlphabetChar(s[i]);
    }
  }

  // ---------------------------------------------------------------------
  // The round trip

  /** A last group of one byte: two characters and "==". */
  lemma LastGroupOfOne(b: seq<byte>)
    requires |b| == 1
    ensures PaddedDecode(Encode(b) + PadFor(|b|)) == Some(b)
  {
    var v := Sextets(b);
    var t := Chars(v) + "==";
    DecodeChars(v, 0);
    DecodeChars(v, 1);
    OneRoundTrip(b[0]);
    assert !IsAlphabetChar(t[2]);
    assert DecodeLastGroup(t) == Some(OneByte(v[0], v[1]));
    assert [b[0]] == b;
  }

  /** A last group of two bytes: three characters and "=". */
  lemma LastGroupOfTwo(b: seq<byte>)
    requires |b| == 2
    ensures PaddedDecode(Encode(b) + PadFor(|b|)) == Some(b)
  {
    var v := Sextets(b);
    var t := Chars(v) + "=";
    DecodeChars(v, 0);
    DecodeChars(v, 1);
    DecodeChars(v, 2);
    TwoRoundTrip(b[0], b[1]);
    assert !IsAlphabetChar(t[3]);
    assert DecodeLastGroup(t) == Some(TwoBytes(v[0], v[1], v[2]));
    assert [b[0], b[1]] == b;
  }

  /** Four alphabet characters in front of a decodable rest decode to their
      three bytes in front of the rest's bytes. */
  lemma DecodeCons(v: seq<sextet>, rest: string, r: seq<byte>)
    requires |v| == 4
    requires PaddedDecode(rest) == Some(r)
    ensures PaddedDecode(Chars(v) + rest) == Some(GroupBytes(v[0], v[1], v[2], v[3]) + r)
  {
    var g := Chars(v);
    var t := g + rest;
    DecodeChars(v, 0);
    DecodeChars(v, 1);
    DecodeChars(v, 2);
    DecodeChars(v, 3);
    if rest == [] {
      assert t == g;
      assert GroupBytes(v[0], v[1], v[2], v[3]) + r == GroupBytes(v[0], v[1], v[2], v[3]);
    } else {
      assert |rest| % 4 == 0;
      assert t[..4] == g && t[4..] == rest;
    }
  }

  lemma PadForShift(n: nat)
    requires n >= 3
    ensures PadFor(n) == PadFor(n - 3)
  {
    assert n % 3 == (n - 3) % 3;
  }

  lemma SplitThree<T>(b: seq<T>)
    requires |b| >= 3
    ensures b == [b[0], b[1], b[2]] + b[3..]
  {
  }

  /** A whole group in front of a decodable rest decodes to its three bytes
      in front of the rest. */
  lemma WholeGroup(b: seq<byte>)
    requires |b| >= 3
    requires PaddedDecode(Encode(b[3..]) + PadFor(|b[3..]|)) == Some(b[3..])
    ensures PaddedDecode(Encode(b) + PadFor(|b|)) == Some(b)
  {
    var tail := b[3..];
    var g := GroupSextets(b[0], b[1], b[2]);
    var rest := Encode(tail) + PadFor(|tail|);
    assert Encode(b) + PadFor(|b|) == Chars(g) + rest by {
      SextetsCons(b);
      CharsAppend(g, Sextets(tail));
      PadForShift(|b|);
    }
    DecodeCons(g, rest, tail);
    GroupRoundTrip(b[0], b[1], b[2]);
    SplitThree(b);
  }

  /** Decoding the padded encoding gives the bytes back. */
  lemma {:induction false} PaddedRoundTrip(b: seq<byte>)
    ensures PaddedDecode(Encode(b) + PadFor(|b|)) == Some(b)
    decreases |b|
  {
    if |b| == 0 {
      assert Encode(b) + PadFor(|b|) == [];
    } else if |b| == 1 {
      LastGroupOfOne(b);
    } else if |b| == 2 {
      LastGroupOfTwo(b);
    } else {
      PaddedRoundTrip(b[3..]);
      WholeGroup(b);
    }
  }

  /** `_unb64url(_b64url(b)) == b`, and the encoded text uses only the
      alphabet: it holds no "=" and no ".", so it can be one side of a
      dot-joined token. */
  lemma RoundTrip(b: seq<byte>)
    ensures Unb64Url(B64Url(b)) == Some(b)
    ensures AllAlphabet(B64Url(b)) && '.' !in B64Url(b) && '=' !in B64Url(b)
  {
    B64UrlIsUnpadded(b);
    PaddingRestored(b);
    PaddedRoundTrip(b);
    AlphabetHasNoDotOrPad(Encode(b));
  }

  /** A character Python's URL-safe decoder reads as data: the URL-safe
      alphabet, or "+" and "/" of the standard one. */
  predicate IsDecoderChar(c: char) {
    IsAlphabetChar(c) || c == '+' || c == '/'
  }

  /** A text of data characters one longer than a multiple of four is never
      decoded. */
  lemma RejectsOneOverMultipleOfFour(s: string)
    requires forall i | 0 <= i < |s| :: IsDecoderChar(s[i])
    requires |s| % 4 == 1
    ensures Unb64Url(s) == None
  {
    var t := s + Padding(s);
    assert |t| % 4 == 0;
    assert t[|t| - 3] == '=';
    if |t| > 4 {
      RejectsPaddedTail(t);
    }
  }

  lemma {:induction false} RejectsPaddedTail(t: string)
    requires |t| % 4 == 0 && |t| >= 4
    requires t[|t| - 3] == '='
    ensures PaddedDecode(t) == None
    decreases |t|
  {
    if |t| > 4 && AllAlphabet(t[..4]) {
      RejectsPaddedTail(t[4..]);
    }
  }
}
