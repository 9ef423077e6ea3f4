/**
  The JSON that cursors carry: a flat object written by `json.dumps` with ASCII escapes and compact
  separators, read back by `json.loads`. Text is a sequence of Python code points, which may include
  lone surrogates. String rules: section 7 of RFC 8259.
 */
module Json {
  import opened Common

  type Code = c: int | 0 <= c < 0x110000
  type Codes = seq<Code>

  datatype JValue = JStr(text: Codes) | JInt(n: nat) | JTrue | JOther
  datatype Member = Member(key: Codes, value: JValue)
  datatype Read<+T> = Read(value: T, rest: Codes)

  const QUOTE: Code := 34
  const COMMA: Code := 44
  const COLON: Code := 58
  const BACKSLASH: Code := 92
  const LOWER_U: Code := 117
  const OPEN: Code := 123
  const CLOSE: Code := 125

  predicate IsHigh(c: int) { 0xD800 <= c < 0xDC00 }
  predicate IsLow(c: int) { 0xDC00 <= c < 0xE000 }

  function Combine(high: int, low: int): Code
    requires IsHigh(high) && IsLow(low)
  {
    0x10000 + (high - 0xD800) * 1024 + (low - 0xDC00)
  }

  // ----- Writing -----

  function HexDigit(d: int): Code
    requires 0 <= d < 16
  {
    if d < 10 then 48 + d else 87 + d
  }

  function Hex4(n: int): Codes
    requires 0 <= n < 0x10000
  {
    [HexDigit(n / 4096), HexDigit(n / 256 % 16), HexDigit(n / 16 % 16), HexDigit(n % 16)]
  }

  function UnicodeEscape(n: int): Codes
    requires 0 <= n < 0x10000
  {
    [BACKSLASH, LOWER_U] + Hex4(n)
  }

  /** The letter of a two-character escape, or 0. */
  function ShortEscape(c: Code): Code {
    if c == 34 then 34 else if c == 92 then 92 else if c == 10 then 110 else if c == 13 then 114
    else if c == 9 then 116 else if c == 12 then 102 else if c == 8 then 98 else 0
  }

  /** Printable ASCII as is; everything else escaped, outside the BMP as a surrogate pair. */
  function EscapeCode(c: Code): Codes {
    if ShortEscape(c) != 0 then [BACKSLASH, ShortEscape(c)]
    else if 32 <= c < 127 then [c]
    else if c < 0x10000 then UnicodeEscape(c)
    else UnicodeEscape(0xD800 + (c - 0x10000) / 1024) + UnicodeEscape(0xDC00 + (c - 0x10000) % 1024)
  }

  function EscapeAll(s: Codes): Codes {
    if s == [] then [] else EscapeCode(s[0]) + EscapeAll(s[1..])
  }

  function WriteString(s: Codes): Codes {
    [QUOTE] + EscapeAll(s) + [QUOTE]
  }

  function Digits(n: nat): Codes {
    if n < 10 then [48 + n] else Digits(n / 10) + [48 + n % 10]
  }

  predicate Writable(v: JValue) {
    v.JStr? || v.JInt?
  }

  function WriteValue(v: JValue): Codes
    requires Writable(v)
  {
    match v
    case JStr(text) => WriteString(text)
    case JInt(n) => Digits(n)
  }

  predicate WritableMembers(ms: seq<Member>) {
    forall i :: 0 <= i < |ms| ==> Writable(ms[i].value)
  }

  function WriteMembers(ms: seq<Member>): Codes
    requires ms != [] && WritableMembers(ms)
  {
    WriteString(ms[0].key) + [COLON] + WriteValue(ms[0].value)
    + if |ms| == 1 then [] else [COMMA] + WriteMembers(ms[1..])
  }

  function WriteObject(ms: seq<Member>): Codes
    requires ms != [] && WritableMembers(ms)
  {
    [OPEN] + WriteMembers(ms) + [CLOSE]
  }

  // ----- Reading -----

  function HexValue(c: Code): (v: int)
    ensures -1 <= v < 16
  {
    if 48 <= c < 58 then c - 48 else if 97 <= c < 103 then c - 87 else if 65 <= c < 71 then c - 55 else -1
  }

  function ReadHex4(t: Codes): Option<Code> {
    if |t| < 4 then None
    else
      var a, b, c, d := HexValue(t[0]), HexValue(t[1]), HexValue(t[2]), HexValue(t[3]);
      if a < 0 || b < 0 || c < 0 || d < 0 then None else Some(a * 4096 + b * 256 + c * 16 + d)
  }

  function ShortMeaning(e: Code): Option<Code> {
    if e == 34 || e == 92 || e == 47 then Some(e)
    else if e == 110 then Some(10) else if e == 114 then Some(13) else if e == 116 then Some(9)
    else if e == 102 then Some(12) else if e == 98 then Some(8) else None
  }

  predicate StartsUnicode(t: Codes) {
    |t| >= 2 && t[0] == BACKSLASH && t[1] == LOWER_U
  }

  /** One character or escape, surrogates not yet joined. */
  function ReadUnit(t: Codes): (r: Option<Read<Code>>)
    requires t != []
    ensures r.Some? ==> |r.value.rest| < |t|
  {
    if StartsUnicode(t) then
      match ReadHex4(t[2..])
      case None => None
      case Some(c) => Some(Read(c, t[6..]))
    else if t[0] == BACKSLASH then
      if |t| < 2 || ShortMeaning(t[1]).None? then None else Some(Read(ShortMeaning(t[1]).value, t[2..]))
    else if t[0] < 32 then None
    else Some(Read(t[0], t[1..]))
  }

  function Prepend(c: Code, r: Option<Read<Codes>>): Option<Read<Codes>> {
    match r
    case None => None
    case Some(tail) => Some(Read([c] + tail.value, tail.rest))
  }

  /** The rest of a string after its opening quote; an escaped surrogate pair becomes one code point. */
  function ReadString(t: Codes): (r: Option<Read<Codes>>)
    ensures r.Some? ==> |r.value.rest| < |t|
    decreases |t|
  {
    if t == [] then None
    else if t[0] == QUOTE then Some(Read([], t[1..]))
    else
      match ReadUnit(t)
      case None => None
      case Some(u) =>
        if StartsUnicode(t) && IsHigh(u.value) && StartsUnicode(u.rest) then
          match ReadUnit(u.rest)
          case None => None
          case Some(w) =>
            if IsLow(w.value) then Prepend(Combine(u.value, w.value), ReadString(w.rest))
            else Prepend(u.value, ReadString(u.rest))
        else Prepend(u.value, ReadString(u.rest))
  }

  predicate IsWs(c: Code) {
    c == 32 || c == 9 || c == 10 || c == 13
  }

  function SkipWs(t: Codes): (r: Codes)
    ensures |r| <= |t|
  {
    if t != [] && IsWs(t[0]) then SkipWs(t[1..]) else t
  }

  /** Leading spaces, tabs, line feeds and carriage returns are skipped, and nothing else. */
  lemma {:induction false} SkipWsMeans(t: Codes)
    ensures exists n: nat ::
              && n <= |t| && SkipWs(t) == t[n..] && (forall i :: 0 <= i < n ==> t[i] in [9, 10, 13, 32])
              && (n < |t| ==> t[n] !in [9, 10, 13, 32])
  {
    if t != [] && IsWs(t[0]) {
      SkipWsMeans(t[1..]);
      var n: nat :| n <= |t[1..]| && SkipWs(t[1..]) == t[1..][n..]
        && (forall i :: 0 <= i < n ==> t[1..][i] in [9, 10, 13, 32])
        && (n < |t[1..]| ==> t[1..][n] !in [9, 10, 13, 32]);
      assert t[n + 1..] == t[1..][n..];
      assert forall i :: 0 < i < n + 1 ==> t[i] == t[1..][i - 1];
    } else {
      assert t[0..] == t;
    }
  }

  predicate IsDigit(c: Code) {
    48 <= c < 58
  }

  function ReadDigits(acc: nat, t: Codes): (r: Read<nat>)
    ensures |r.rest| <= |t|
    decreases |t|
  {
    if t != [] && IsDigit(t[0]) then ReadDigits(acc * 10 + (t[0] - 48), t[1..]) else Read(acc, t)
  }

  /** No leading zero; a sign, fraction or exponent makes a number that no cursor field accepts. */
  function ReadNumber(t: Codes): (r: Option<Read<JValue>>)
    requires t != [] && IsDigit(t[0])
    ensures r.Some? ==> |r.value.rest| < |t|
  {
    if t[0] == 48 then Some(Read(JInt(0), t[1..]))
    else
      var d := ReadDigits(t[0] - 48, t[1..]);
      Some(Read(JInt(d.value), d.rest))
  }

  const TRUE_TEXT: Codes := [116, 114, 117, 101]
  const FALSE_TEXT: Codes := [102, 97, 108, 115, 101]
  const NULL_TEXT: Codes := [110, 117, 108, 108]

  function ReadValue(t: Codes): (r: Option<Read<JValue>>)
    ensures r.Some? ==> |r.value.rest| < |t|
  {
    if t == [] then None
    else if t[0] == QUOTE then
      match ReadString(t[1..])
      case None => None
      case Some(s) => Some(Read(JStr(s.value), s.rest))
    else if IsDigit(t[0]) then ReadNumber(t)
    else if TRUE_TEXT <= t then Some(Read(JTrue, t[4..]))
    else if FALSE_TEXT <= t then Some(Read(JOther, t[5..]))
    else if NULL_TEXT <= t then Some(Read(JOther, t[4..]))
    else None
  }

  /** `"key" : value`, with optional white space around the parts. */
  function ReadMember(t: Codes): (r: Option<Read<Member>>)
    ensures r.Some? ==> |r.value.rest| < |t|
  {
    if t == [] || t[0] != QUOTE then None
    else
      match ReadString(t[1..])
      case None => None
      case Some(k) =>
        var afterKey := SkipWs(k.rest);
        if afterKey == [] || afterKey[0] != COLON then None
        else
          match ReadValue(SkipWs(afterKey[1..]))
          case None => None
          case Some(v) => Some(Read(Member(k.value, v.value), SkipWs(v.rest)))
  }

  /** Members up to and including the closing brace. */
  function ReadMembers(t: Codes): Option<Read<seq<Member>>>
    decreases |t|
  {
    match ReadMember(t)
    case None => None
    case Some(m) =>
      if m.rest == [] then None
      else if m.rest[0] == CLOSE then Some(Read([m.value], m.rest[1..]))
      else if m.rest[0] == COMMA then
        match ReadMembers(SkipWs(m.rest[1..]))
        case None => None
        case Some(tail) => Some(Read([m.value] + tail.value, tail.rest))
      else None
  }

  /** A whole document that is one object; nothing but white space may follow. */
  function ReadObject(text: Codes): Option<seq<Member>> {
    var t := SkipWs(text);
    if t == [] || t[0] != OPEN then None
    else
      var body := SkipWs(t[1..]);
      if body != [] && body[0] == CLOSE then (if SkipWs(body[1..]) == [] then Some([]) else None)
      else
        match ReadMembers(body)
        case None => None
        case Some(ms) => if SkipWs(ms.rest) == [] then Some(ms.value) else None
  }

  // ----- What reading a written string gives -----

  /** Adjacent high and low surrogates become one code point, from the left. */
  function Joined(s: Codes): Codes {
    if |s| >= 2 && IsHigh(s[0]) && IsLow(s[1]) then [Combine(s[0], s[1])] + Joined(s[2..])
    else if s == [] then []
    else [s[0]] + Joined(s[1..])
  }

  /** No high surrogate stands directly before a low one. */
  predicate NoSplitPair(s: Codes) {
    forall i :: 0 <= i < |s| - 1 ==> !(IsHigh(s[i]) && IsLow(s[i + 1]))
  }

  lemma {:induction false} JoinedShortens(s: Codes)
    ensures |Joined(s)| <= |s|
    ensures !NoSplitPair(s) ==> |Joined(s)| < |s|
    decreases |s|
  {
    if |s| >= 2 && IsHigh(s[0]) && IsLow(s[1]) {
      JoinedShortens(s[2..]);
    } else if s != [] {
      JoinedShortens(s[1..]);
      if !NoSplitPair(s) {
        var i :| 0 <= i < |s| - 1 && IsHigh(s[i]) && IsLow(s[i + 1]);
        assert s[1..][i - 1] == s[i] && s[1..][i] == s[i + 1];
      }
    }
  }

  lemma {:induction false} JoinedKeeps(s: Codes)
    requires NoSplitPair(s)
    ensures Joined(s) == s
    decreases |s|
  {
    if s != [] {
      assert NoSplitPair(s[1..]) by {
        forall i | 0 <= i < |s[1..]| - 1 ensures !(IsHigh(s[1..][i]) && IsLow(s[1..][i + 1])) {
          assert s[1..][i] == s[i + 1] && s[1..][i + 1] == s[i + 2];
        }
      }
      JoinedKeeps(s[1..]);
      assert s == [s[0]] + s[1..];
    }
  }

  lemma HexDigitRoundTrip(d: int)
    requires 0 <= d < 16
    ensures HexValue(HexDigit(d)) == d
  {}

  lemma HexParts(n: int)
    requires 0 <= n < 0x10000
    ensures n / 4096 * 4096 + n / 256 % 16 * 256 + n / 16 % 16 * 16 + n % 16 == n
    ensures 0 <= n / 4096 < 16
  {}

  lemma Hex4RoundTrip(n: int, tail: Codes)
    requires 0 <= n < 0x10000
    ensures ReadHex4(Hex4(n) + tail) == Some(n)
  {
    hide HexDigit, HexValue;
    HexParts(n);
    HexDigitRoundTrip(n / 4096);
    HexDigitRoundTrip(n / 256 % 16);
    HexDigitRoundTrip(n / 16 % 16);
    HexDigitRoundTrip(n % 16);
  }

  lemma UnicodeEscapeReads(n: int, tail: Codes)
    requires 0 <= n < 0x10000
    ensures var t := UnicodeEscape(n) + tail;
            StartsUnicode(t) && ReadUnit(t) == Some(Read(n, tail))
  {
    hide ReadHex4;
    var t := UnicodeEscape(n) + tail;
    Hex4RoundTrip(n, tail);
    assert t[2..] == Hex4(n) + tail;
    assert t[6..] == tail;
  }

  lemma ShortEscapeReads(c: Code, tail: Codes)
    requires ShortEscape(c) != 0
    ensures var t := EscapeCode(c) + tail;
            t != [] && !StartsUnicode(t) && t[0] != QUOTE && ReadUnit(t) == Some(Read(c, tail))
  {}

  lemma PlainReads(c: Code, tail: Codes)
    requires ShortEscape(c) == 0 && 32 <= c < 127
    ensures var t := EscapeCode(c) + tail;
            t != [] && !StartsUnicode(t) && t[0] != QUOTE && ReadUnit(t) == Some(Read(c, tail))
  {}

  lemma PairParts(c: int)
    requires 0x10000 <= c < 0x110000
    ensures var high, low := 0xD800 + (c - 0x10000) / 1024, 0xDC00 + (c - 0x10000) % 1024;
            IsHigh(high) && IsLow(low) && Combine(high, low) == c
  {}

  /** Any code but a high surrogate is read back on its own. */
  lemma SingleCodeReads(c: Code, tail: Codes)
    requires !IsHigh(c)
    ensures ReadString(EscapeCode(c) + tail) == Prepend(c, ReadString(tail))
  {
    if ShortEscape(c) != 0 {
      ShortEscapeReads(c, tail);
    } else if 32 <= c < 127 {
      PlainReads(c, tail);
    } else if c < 0x10000 {
      UnicodeEscapeReads(c, tail);
    } else {
      AstralReads(c, tail);
    }
  }

  lemma AstralReads(c: Code, tail: Codes)
    requires c >= 0x10000
    ensures ReadString(EscapeCode(c) + tail) == Prepend(c, ReadString(tail))
  {
    var high, low := 0xD800 + (c - 0x10000) / 1024, 0xDC00 + (c - 0x10000) % 1024;
    hide HexDigit, HexValue, Hex4;
    PairParts(c);
    UnicodeEscapeReads(high, UnicodeEscape(low) + tail);
    UnicodeEscapeReads(low, tail);
    assert EscapeCode(c) + tail == UnicodeEscape(high) + (UnicodeEscape(low) + tail);
  }

  lemma ShortIsNotLow(c: Code)
    requires ShortEscape(c) != 0
    ensures !IsLow(c)
  {}

  /** How the code after a high surrogate looks to the reader. */
  lemma NextCodeReads(d: Code, more: Codes)
    ensures var t := EscapeCode(d) + more;
            && t != []
            && (IsLow(d) ==> StartsUnicode(t) && ReadUnit(t) == Some(Read(d, more)))
            && (!IsLow(d) && StartsUnicode(t) ==> ReadUnit(t).Some? && !IsLow(ReadUnit(t).value.value))
  {
    if ShortEscape(d) != 0 {
      ShortIsNotLow(d);
      ShortEscapeReads(d, more);
      hide ReadUnit, EscapeCode, StartsUnicode, ShortEscape;
    } else if 32 <= d < 127 {
      PlainReads(d, more);
      hide ReadUnit, EscapeCode, StartsUnicode, ShortEscape;
    } else if d < 0x10000 {
      hide ReadUnit, UnicodeEscape, StartsUnicode;
      UnicodeEscapeReads(d, more);
    } else {
      hide ReadUnit, UnicodeEscape, StartsUnicode;
      var high, low := 0xD800 + (d - 0x10000) / 1024, 0xDC00 + (d - 0x10000) % 1024;
      PairParts(d);
      UnicodeEscapeReads(high, UnicodeEscape(low) + more);
      assert EscapeCode(d) + more == UnicodeEscape(high) + (UnicodeEscape(low) + more);
    }
  }

  /** A high surrogate joins the next written code iff that is a low surrogate. */
  lemma HighReads(c: Code, next: Codes, tail: Codes)
    requires IsHigh(c)
    ensures next != [] && IsLow(next[0]) ==>
              ReadString(EscapeCode(c) + (EscapeAll(next) + [QUOTE] + tail))
                == Prepend(Combine(c, next[0]), ReadString(EscapeAll(next[1..]) + [QUOTE] + tail))
    ensures !(next != [] && IsLow(next[0])) ==>
              ReadString(EscapeCode(c) + (EscapeAll(next) + [QUOTE] + tail))
                == Prepend(c, ReadString(EscapeAll(next) + [QUOTE] + tail))
  {
    var rest := EscapeAll(next) + [QUOTE] + tail;
    assert EscapeCode(c) == UnicodeEscape(c);
    hide EscapeCode, UnicodeEscape, ReadUnit, Combine;
    UnicodeEscapeReads(c, rest);
    if next == [] {
      assert rest == [QUOTE] + tail;
    } else {
      var d, more := next[0], EscapeAll(next[1..]) + [QUOTE] + tail;
      assert rest == EscapeCode(d) + more;
      NextCodeReads(d, more);
    }
  }

  /** A written string is read back with its split surrogate pairs joined. */
  lemma {:induction false} WrittenStringReads(s: Codes, tail: Codes)
    ensures ReadString(EscapeAll(s) + [QUOTE] + tail) == Some(Read(Joined(s), tail))
    decreases |s|
  {
    hide EscapeCode, ReadUnit;
    if s == [] {
      assert EscapeAll(s) + [QUOTE] + tail == [QUOTE] + tail;
    } else {
      var next := s[1..];
      var rest := EscapeAll(next) + [QUOTE] + tail;
      assert EscapeAll(s) + [QUOTE] + tail == EscapeCode(s[0]) + rest;
      if IsHigh(s[0]) {
        HighReads(s[0], next, tail);
        if next != [] && IsLow(next[0]) {
          assert next[1..] == s[2..];
          WrittenStringReads(s[2..], tail);
        } else {
          WrittenStringReads(next, tail);
        }
      } else {
        SingleCodeReads(s[0], rest);
        WrittenStringReads(next, tail);
      }
    }
  }

  // ----- Numbers -----

  lemma {:induction false} DigitsAppend(n: nat, tail: Codes)
    ensures Digits(n) != [] && (forall i :: 0 <= i < |Digits(n)| ==> IsDigit(Digits(n)[i]))
    ensures n > 0 ==> Digits(n)[0] != 48
    ensures n == 0 ==> Digits(n) == [48]
    decreases n
  {
    if n >= 10 {
      DigitsAppend(n / 10, tail);
    }
  }

  /** Reading digits is a left fold, so a trailing digit is read last. */
  lemma {:induction false} ReadDigitsSnoc(acc: nat, ds: Codes, d: Code, tail: Codes)
    requires (forall i :: 0 <= i < |ds| ==> IsDigit(ds[i])) && IsDigit(d)
    requires tail == [] || !IsDigit(tail[0])
    ensures ReadDigits(acc, ds + [d] + tail) == Read(ReadDigits(acc, ds).value * 10 + (d - 48), tail)
    decreases |ds|
  {
    var t := ds + [d] + tail;
    if ds == [] {
      assert t == [d] + tail;
      assert t[1..] == tail;
    } else {
      assert t[1..] == ds[1..] + [d] + tail;
      ReadDigitsSnoc(acc * 10 + (ds[0] - 48), ds[1..], d, tail);
    }
  }

  lemma {:induction false} ReadDigitsAll(n: nat)
    ensures ReadDigits(0, Digits(n)).value == n
    decreases n
  {
    if n >= 10 {
      ReadDigitsAll(n / 10);
      DigitsAppend(n / 10, []);
      ReadDigitsSnoc(0, Digits(n / 10), 48 + n % 10, []);
      assert Digits(n) == Digits(n / 10) + [48 + n % 10] + [];
    }
  }

  lemma WrittenNumberReads(n: nat, tail: Codes)
    requires tail == [] || !IsDigit(tail[0])
    ensures var t := Digits(n) + tail; t != [] && IsDigit(t[0]) && ReadNumber(t) == Some(Read(JInt(n), tail))
  {
    DigitsAppend(n, tail);
    var t := Digits(n) + tail;
    if n == 0 {
      assert t[1..] == tail;
    } else {
      ReadDigitsAll(n);
      var front, d := Digits(n)[..|Digits(n)| - 1], Digits(n)[|Digits(n)| - 1];
      ReadDigitsSnoc(0, front, d, tail);
      ReadDigitsSnoc(0, front, d, []);
      assert front + [d] + tail == t && front + [d] + [] == Digits(n);
      assert ReadDigits(0, t) == ReadDigits(t[0] - 48, t[1..]);
    }
  }

  // ----- Objects -----

  function JoinedValue(v: JValue): JValue {
    if v.JStr? then JStr(Joined(v.text)) else v
  }

  function JoinedMembers(ms: seq<Member>): seq<Member> {
    if ms == [] then []
    else [Member(Joined(ms[0].key), JoinedValue(ms[0].value))] + JoinedMembers(ms[1..])
  }

  lemma WrittenValueReads(v: JValue, tail: Codes)
    requires Writable(v) && (tail == [] || !IsDigit(tail[0]))
    ensures ReadValue(WriteValue(v) + tail) == Some(Read(JoinedValue(v), tail))
    ensures WriteValue(v) != [] && !IsWs(WriteValue(v)[0])
  {
    hide ReadString, ReadNumber, EscapeAll, Joined, Digits;
    match v
    case JStr(text) =>
      var t := WriteValue(v) + tail;
      WrittenStringReads(text, tail);
      assert t[1..] == EscapeAll(text) + [QUOTE] + tail;
    case JInt(n) =>
      WrittenNumberReads(n, tail);
      DigitsAppend(n, tail);
  }

  lemma WrittenMemberReads(m: Member, tail: Codes)
    requires Writable(m.value) && tail != [] && !IsWs(tail[0]) && !IsDigit(tail[0])
    ensures ReadMember(WriteString(m.key) + [COLON] + WriteValue(m.value) + tail)
         == Some(Read(Member(Joined(m.key), JoinedValue(m.value)), tail))
  {
    hide ReadString, ReadValue, EscapeAll, WriteValue, Joined, JoinedValue, Digits;
    var t := WriteString(m.key) + [COLON] + WriteValue(m.value) + tail;
    var afterKey := [COLON] + (WriteValue(m.value) + tail);
    WrittenStringReads(m.key, afterKey);
    assert t[1..] == EscapeAll(m.key) + [QUOTE] + afterKey;
    assert SkipWs(afterKey) == afterKey;
    WrittenValueReads(m.value, tail);
    assert afterKey[1..] == WriteValue(m.value) + tail;
    assert SkipWs(WriteValue(m.value) + tail) == WriteValue(m.value) + tail;
    assert SkipWs(tail) == tail;
  }

  lemma MembersStartWithQuote(ms: seq<Member>)
    requires ms != [] && WritableMembers(ms)
    ensures WriteMembers(ms) != [] && WriteMembers(ms)[0] == QUOTE
  {}

  lemma {:induction false} WrittenMembersRead(ms: seq<Member>, tail: Codes)
    requires ms != [] && WritableMembers(ms)
    ensures ReadMembers(WriteMembers(ms) + [CLOSE] + tail) == Some(Read(JoinedMembers(ms), tail))
    decreases |ms|
  {
    hide ReadMember, WriteValue, WriteString, Joined, JoinedValue;
    var head := WriteString(ms[0].key) + [COLON] + WriteValue(ms[0].value);
    if |ms| == 1 {
      assert WriteMembers(ms) + [CLOSE] + tail == head + ([CLOSE] + tail);
      WrittenMemberReads(ms[0], [CLOSE] + tail);
      assert ([CLOSE] + tail)[1..] == tail;
      assert ms[1..] == [];
      assert JoinedMembers(ms) == [Member(Joined(ms[0].key), JoinedValue(ms[0].value))];
    } else {
      var more := WriteMembers(ms[1..]) + [CLOSE] + tail;
      assert WriteMembers(ms) + [CLOSE] + tail == head + ([COMMA] + more);
      WrittenMembersRead(ms[1..], tail);
      WrittenMemberReads(ms[0], [COMMA] + more);
      assert ([COMMA] + more)[1..] == more;
      MembersStartWithQuote(ms[1..]);
      assert SkipWs(more) == more;
    }
  }

  /** A written object is read back member for member, with split surrogate pairs joined. */
  lemma WrittenObjectReads(ms: seq<Member>)
    requires ms != [] && WritableMembers(ms)
    ensures ReadObject(WriteObject(ms)) == Some(JoinedMembers(ms))
  {
    hide ReadMembers, WriteMembers, JoinedMembers;
    WrittenMembersRead(ms, []);
    MembersStartWithQuote(ms);
    var t := WriteObject(ms);
    var body := WriteMembers(ms) + [CLOSE] + [];
    assert t[1..] == body;
    assert SkipWs(t) == t && SkipWs(body) == body;
  }

  // ----- Written text is ASCII -----

  lemma {:induction false} EscapedIsAscii(s: Codes)
    ensures forall i :: 0 <= i < |EscapeAll(s)| ==> 32 <= EscapeAll(s)[i] < 128
  {
    hide EscapeCode;
    if s != [] {
      CodeIsAscii(s[0]);
      EscapedIsAscii(s[1..]);
    }
  }

  lemma CodeIsAscii(c: Code)
    ensures forall i :: 0 <= i < |EscapeCode(c)| ==> 32 <= EscapeCode(c)[i] < 128
  {}

  lemma {:induction false} MembersAreAscii(ms: seq<Member>)
    requires ms != [] && WritableMembers(ms)
    ensures forall i :: 0 <= i < |WriteMembers(ms)| ==> WriteMembers(ms)[i] < 128
    decreases |ms|
  {
    hide EscapeAll;
    EscapedIsAscii(ms[0].key);
    if ms[0].value.JStr? {
      EscapedIsAscii(ms[0].value.text);
    } else {
      DigitsAppend(ms[0].value.n, []);
    }
    if |ms| > 1 {
      MembersAreAscii(ms[1..]);
    }
  }
}
