/** Unpadded base64url (sections 3.2 and 5 of RFC 4648) as the cursor codecs use it. */
module Base64Url {
  import opened Common

  newtype Byte = n: int | 0 <= n < 256

  /** The 64-character URL-safe alphabet. */
  function Letter(v: int): char
    requires 0 <= v < 64
  {
    if v < 26 then ('A' as int + v) as char
    else if v < 52 then ('a' as int + v - 26) as char
    else if v < 62 then ('0' as int + v - 52) as char
    else if v == 62 then '-'
    else '_'
  }

  function ValueOf(c: char): (v: int)
    ensures -1 <= v < 64
  {
    if 'A' <= c <= 'Z' then c as int - 'A' as int
    else if 'a' <= c <= 'z' then c as int - 'a' as int + 26
    else if '0' <= c <= '9' then c as int - '0' as int + 52
    else if c == '-' then 62
    else if c == '_' then 63
    else -1
  }

  lemma LetterRoundTrip(v: int)
    requires 0 <= v < 64
    ensures ValueOf(Letter(v)) == v && Letter(v) != '='
  {}

  /** `urlsafe_b64encode`: groups of three bytes, the last one padded with '='. */
  function EncodePadded(b: seq<Byte>): string {
    if b == [] then ""
    else if |b| == 1 then
      var x := b[0] as int;
      [Letter(x / 4), Letter(x % 4 * 16), '=', '=']
    else if |b| == 2 then
      var x, y := b[0] as int, b[1] as int;
      [Letter(x / 4), Letter(x % 4 * 16 + y / 16), Letter(y % 16 * 4), '=']
    else
      var x, y, z := b[0] as int, b[1] as int, b[2] as int;
      [Letter(x / 4), Letter(x % 4 * 16 + y / 16), Letter(y % 16 * 4 + z / 64), Letter(z % 64)] + EncodePadded(b[3..])
  }

  /** `rstrip("=")`. */
  function StripPadding(s: string): string {
    if s != "" && s[|s| - 1] == '=' then StripPadding(s[..|s| - 1]) else s
  }

  /** Python's `-len(text) % 4`. */
  function PadLength(length: nat): nat {
    (4 - length % 4) % 4
  }

  function Repad(s: string): string {
    s + seq(PadLength(|s|), _ => '=')
  }

  function EncodeUrl(b: seq<Byte>): string {
    StripPadding(EncodePadded(b))
  }

  /** Strict decoding: groups of four letters, '=' only at the end of the last group. */
  function DecodePadded(s: string): Option<seq<Byte>> {
    if s == "" then Some([])
    else if |s| < 4 then None
    else
      var v0, v1, v2, v3 := ValueOf(s[0]), ValueOf(s[1]), ValueOf(s[2]), ValueOf(s[3]);
      if v0 < 0 || v1 < 0 then None
      else if s[2] == '=' then
        if |s| == 4 && s[3] == '=' then Some([(v0 * 4 + v1 / 16) as Byte]) else None
      else if v2 < 0 then None
      else if s[3] == '=' then
        if |s| == 4 then Some([(v0 * 4 + v1 / 16) as Byte, (v1 % 16 * 16 + v2 / 4) as Byte]) else None
      else if v3 < 0 then None
      else
        match DecodePadded(s[4..])
        case None => None
        case Some(rest) =>
          Some([(v0 * 4 + v1 / 16) as Byte, (v1 % 16 * 16 + v2 / 4) as Byte, (v2 % 4 * 64 + v3) as Byte] + rest)
  }

  function DecodeUrl(s: string): Option<seq<Byte>> {
    DecodePadded(Repad(s))
  }

  /** The six-bit pieces of three bytes put back together. */
  lemma PiecesRejoin(x: int, y: int, z: int)
    requires 0 <= x < 256 && 0 <= y < 256 && 0 <= z < 256
    ensures var p0, p1, p2, p3 := x / 4, x % 4 * 16 + y / 16, y % 16 * 4 + z / 64, z % 64;
            && p0 * 4 + p1 / 16 == x && p1 % 16 * 16 + p2 / 4 == y && p2 % 4 * 64 + p3 == z
            && 0 <= p0 < 64 && 0 <= p1 < 64 && 0 <= p2 < 64 && 0 <= p3 < 64
  {}

  lemma FullGroupDecodes(x: Byte, y: Byte, z: Byte, rest: string)
    requires DecodePadded(rest).Some?
    ensures var head := [Letter(x as int / 4), Letter(x as int % 4 * 16 + y as int / 16),
                         Letter(y as int % 16 * 4 + z as int / 64), Letter(z as int % 64)];
            DecodePadded(head + rest) == Some([x, y, z] + DecodePadded(rest).value)
  {
    hide Letter, ValueOf;
    PiecesRejoin(x as int, y as int, z as int);
    var p0, p1 := x as int / 4, x as int % 4 * 16 + y as int / 16;
    var p2, p3 := y as int % 16 * 4 + z as int / 64, z as int % 64;
    LetterRoundTrip(p0);
    LetterRoundTrip(p1);
    LetterRoundTrip(p2);
    LetterRoundTrip(p3);
    var head := [Letter(p0), Letter(p1), Letter(p2), Letter(p3)];
    assert (head + rest)[4..] == rest;
  }

  lemma OneByteDecodes(x: Byte)
    ensures EncodePadded([x]) == [Letter(x as int / 4), Letter(x as int % 4 * 16), '=', '=']
    ensures DecodePadded(EncodePadded([x])) == Some([x])
  {}

  lemma TwoBytesDecode(x: Byte, y: Byte)
    ensures EncodePadded([x, y])
         == [Letter(x as int / 4), Letter(x as int % 4 * 16 + y as int / 16), Letter(y as int % 16 * 4), '=']
    ensures DecodePadded(EncodePadded([x, y])) == Some([x, y])
  {
    hide Letter, ValueOf;
    PiecesRejoin(x as int, y as int, 0);
    LetterRoundTrip(x as int / 4);
    LetterRoundTrip(x as int % 4 * 16 + y as int / 16);
    LetterRoundTrip(y as int % 16 * 4);
  }

  lemma NothingDecodes()
    ensures DecodePadded(EncodePadded([])) == Some([])
  {}

  lemma {:induction false} PaddedRoundTrip(b: seq<Byte>)
    ensures DecodePadded(EncodePadded(b)) == Some(b)
    decreases |b|
  {
    hide Letter, ValueOf, DecodePadded;
    if |b| == 1 {
      OneByteDecodes(b[0]);
      assert b == [b[0]];
    } else if |b| == 2 {
      TwoBytesDecode(b[0], b[1]);
      assert b == [b[0], b[1]];
    } else if |b| == 0 {
      NothingDecodes();
    } else {
      PaddedRoundTrip(b[3..]);
      FullGroupDecodes(b[0], b[1], b[2], EncodePadded(b[3..]));
      assert b == [b[0], b[1], b[2]] + b[3..];
    }
  }

  /** Letters of the alphabet only, and a length that a group of three bytes can leave. */
  predicate IsUrlText(s: string) {
    |s| % 4 != 1 && forall i :: 0 <= i < |s| ==> ValueOf(s[i]) >= 0
  }

  lemma StripTwo(s: string)
    requires |s| == 4 && s[3] == '=' && s[2] == '=' && s[1] != '='
    ensures StripPadding(s) == s[..2]
  {
    assert s[..3][..2] == s[..2];
    assert StripPadding(s[..2]) == s[..2];
    assert StripPadding(s[..3]) == s[..2];
  }

  lemma StripOne(s: string)
    requires |s| == 4 && s[3] == '=' && s[2] != '='
    ensures StripPadding(s) == s[..3]
  {}

  /** A short last group: two letters for one byte, three for two. */
  lemma OneByteRestored(x: Byte)
    ensures Repad(EncodeUrl([x])) == EncodePadded([x]) && IsUrlText(EncodeUrl([x])) && EncodeUrl([x]) != ""
  {
    OneByteDecodes(x);
    hide Letter, ValueOf, EncodePadded, DecodePadded;
    LetterRoundTrip(x as int / 4);
    LetterRoundTrip(x as int % 4 * 16);
    StripTwo(EncodePadded([x]));
  }

  lemma TwoBytesRestored(x: Byte, y: Byte)
    ensures Repad(EncodeUrl([x, y])) == EncodePadded([x, y]) && IsUrlText(EncodeUrl([x, y])) && EncodeUrl([x, y]) != ""
  {
    TwoBytesDecode(x, y);
    hide Letter, ValueOf, EncodePadded, DecodePadded;
    LetterRoundTrip(x as int / 4);
    LetterRoundTrip(x as int % 4 * 16 + y as int / 16);
    LetterRoundTrip(y as int % 16 * 4);
    StripOne(EncodePadded([x, y]));
  }

  /** Stripping the padding of a text of whole groups and restoring `-len % 4` gives it back. */
  lemma {:induction false} PaddingRestored(b: seq<Byte>)
    ensures Repad(EncodeUrl(b)) == EncodePadded(b)
    ensures IsUrlText(EncodeUrl(b))
    ensures b != [] ==> EncodeUrl(b) != ""
    decreases |b|
  {
    if |b| == 1 {
      OneByteRestored(b[0]);
      assert b == [b[0]];
    } else if |b| == 2 {
      TwoBytesRestored(b[0], b[1]);
      assert b == [b[0], b[1]];
    } else if |b| > 2 {
      FullGroupRestored(b, EncodePadded(b)[..4], EncodePadded(b[3..]));
    }
  }

  lemma {:induction false} FullGroupRestored(b: seq<Byte>, head: string, rest: string)
    requires |b| > 2 && head == EncodePadded(b)[..4] && rest == EncodePadded(b[3..])
    ensures Repad(EncodeUrl(b)) == EncodePadded(b) && IsUrlText(EncodeUrl(b)) && EncodeUrl(b) != ""
    decreases |b|, 0
  {
    var x, y, z := b[0] as int, b[1] as int, b[2] as int;
    LetterRoundTrip(x / 4);
    LetterRoundTrip(x % 4 * 16 + y / 16);
    LetterRoundTrip(y % 16 * 4 + z / 64);
    LetterRoundTrip(z % 64);
    assert EncodePadded(b) == head + rest;
    PaddingRestored(b[3..]);
    StripAfterLetters(head, rest);
    GroupsAppend(head, StripPadding(rest));
  }

  lemma GroupsAppend(head: string, tail: string)
    requires |head| == 4 && (forall i :: 0 <= i < 4 ==> ValueOf(head[i]) >= 0) && IsUrlText(tail)
    ensures Repad(head + tail) == head + Repad(tail) && IsUrlText(head + tail)
  {}

  lemma {:induction false} StripAfterLetters(head: string, rest: string)
    requires head != "" && head[|head| - 1] != '='
    ensures StripPadding(head + rest) == head + StripPadding(rest)
    decreases |rest|
  {
    if rest == "" {
      assert head + rest == head;
    } else if rest[|rest| - 1] == '=' {
      assert (head + rest)[..|head + rest| - 1] == head + rest[..|rest| - 1];
      StripAfterLetters(head, rest[..|rest| - 1]);
    }
  }

  /** Every byte string survives encoding without padding and decoding with restored padding. */
  lemma UrlRoundTrip(b: seq<Byte>)
    ensures DecodeUrl(EncodeUrl(b)) == Some(b)
  {
    PaddingRestored(b);
    PaddedRoundTrip(b);
  }
}
