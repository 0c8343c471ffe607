/** decodeURLUnreserved: percent-encoded unreserved bytes of a URL are decoded, every other
    byte is kept (RFC 3986, sections 2.3 and 6.2.2.2). Strings are Go's, sequences of bytes. */
module UrlNormalization {
  import opened Wrappers

  type Byte = b: int | 0 <= b < 256

  const PERCENT: Byte := '%' as int

  predicate Between(b: Byte, low: char, high: char) {
    low as int <= b <= high as int
  }

  function HexValue(b: Byte): (r: Option<Byte>)
    ensures r.Some? ==> r.value < 16 && b != PERCENT
  {
    if Between(b, '0', '9') then Some(b - '0' as int)
    else if Between(b, 'a', 'f') then Some(b - 'a' as int + 10)
    else if Between(b, 'A', 'F') then Some(b - 'A' as int + 10)
    else None
  }

  predicate IsHex(b: Byte) {
    HexValue(b).Some?
  }

  predicate IsUnreserved(b: Byte) {
    Between(b, 'a', 'z') || Between(b, 'A', 'Z') || Between(b, '0', '9') ||
    b == '-' as int || b == '.' as int || b == '_' as int || b == '~' as int
  }

  // ---- The alphabets, spelt out ----

  const LOWER_HEX := "0123456789abcdef"
  const UPPER_HEX := "0123456789ABCDEF"
  // RFC 3986, section 2.3: these and no others are unreserved.
  const UPPER := "ABCDEFGHIJKLMNOPQRSTUVWXYZ"
  const LOWER := "abcdefghijklmnopqrstuvwxyz"
  const OTHERS := "0123456789-._~"

  // The two hex digits of each case, and no other byte, stand for the number n.
  lemma HexDigit(b: Byte, n: Byte)
    requires n < 16
    ensures HexValue(b) == Some(n) <==> b as char == LOWER_HEX[n] || b as char == UPPER_HEX[n]
  {}

  lemma UnreservedExactly(b: Byte)
    ensures IsUnreserved(b) <==> b as char in UPPER + LOWER + OTHERS
  {
    UpperLetters(b);
    LowerLetters(b);
  }

  lemma UpperLetters(b: Byte)
    ensures b as char in UPPER <==> Between(b, 'A', 'Z')
  {
    assert Between(b, 'A', 'Z') ==> UPPER[b - 'A' as int] == b as char;
  }

  lemma LowerLetters(b: Byte)
    ensures b as char in LOWER <==> Between(b, 'a', 'z')
  {
    assert Between(b, 'a', 'z') ==> LOWER[b - 'a' as int] == b as char;
  }

  // A hex digit of the number n, and the escape of byte b, each digit in the chosen case.
  function Digit(n: Byte, upper: bool): (d: Byte)
    requires n < 16
    ensures HexValue(d) == Some(n)
  {
    var c := if upper then UPPER_HEX[n] else LOWER_HEX[n];
    assert c as int < 256;
    HexDigit(c as int, n);
    c as int
  }

  function Escape(b: Byte, upper: (bool, bool)): seq<Byte> {
    [PERCENT, Digit(b / 16, upper.0), Digit(b % 16, upper.1)]
  }

  // A complete escape starts at position i.
  predicate EscapeAt(s: seq<Byte>, i: nat) {
    i + 2 < |s| && s[i] == PERCENT && IsHex(s[i + 1]) && IsHex(s[i + 2])
  }

  // Go's `high<<4 | low`; the two nibbles share no bit.
  function EscapedByte(s: seq<Byte>, i: nat): Byte
    requires EscapeAt(s, i)
  {
    16 * HexValue(s[i + 1]).value + HexValue(s[i + 2]).value
  }

  predicate UnreservedEscapeAt(s: seq<Byte>, i: nat) {
    EscapeAt(s, i) && IsUnreserved(EscapedByte(s, i))
  }

  // Byte by byte: what the chunk-copying loop computes.
  function Normalize(s: seq<Byte>): seq<Byte> {
    if s == [] then []
    else if UnreservedEscapeAt(s, 0) then [EscapedByte(s, 0)] + Normalize(s[3..])
    else [s[0]] + Normalize(s[1..])
  }

  lemma {:induction false} NormalizeShort(s: seq<Byte>)
    requires |s| < 3
    ensures Normalize(s) == s
  {
    if s != [] {
      NormalizeShort(s[1..]);
      assert s == [s[0]] + s[1..];
    }
  }

  // The builder, the pending chunk raw[last..index] and the unread rest make up the answer.
  ghost predicate Progress(raw: seq<Byte>, normalized: seq<Byte>, last: nat, index: nat)
    requires last <= index <= |raw|
  {
    Normalize(raw) == normalized + raw[last..index] + Normalize(raw[index..])
  }

  lemma Regroup(a: seq<Byte>, b: seq<Byte>, c: seq<Byte>)
    ensures a + b + c == a + (b + c)
  {}

  lemma KeepByte(raw: seq<Byte>, normalized: seq<Byte>, last: nat, index: nat)
    requires last <= index < |raw| && Progress(raw, normalized, last, index)
    requires !UnreservedEscapeAt(raw, index)
    ensures Progress(raw, normalized, last, index + 1)
  {
    var rest := raw[index..];
    assert rest[1..] == raw[index + 1..] && UnreservedEscapeAt(rest, 0) == UnreservedEscapeAt(raw, index);
    assert raw[last..index + 1] == raw[last..index] + [raw[index]];
    Regroup(normalized + raw[last..index], [raw[index]], Normalize(raw[index + 1..]));
  }

  lemma DecodeByte(raw: seq<Byte>, normalized: seq<Byte>, last: nat, index: nat)
    requires last <= index < |raw| && Progress(raw, normalized, last, index)
    requires UnreservedEscapeAt(raw, index)
    ensures Progress(raw, normalized + raw[last..index] + [EscapedByte(raw, index)], index + 3, index + 3)
  {
    var rest := raw[index..];
    assert rest[3..] == raw[index + 3..] && UnreservedEscapeAt(rest, 0);
    Regroup(normalized + raw[last..index], [EscapedByte(raw, index)], Normalize(raw[index + 3..]));
  }

  lemma SliceSplit(raw: seq<Byte>, last: nat, index: nat)
    requires last <= index <= |raw|
    ensures raw[last..index] + raw[index..] == raw[last..]
  {}

  lemma Finish(raw: seq<Byte>, normalized: seq<Byte>, last: nat, index: nat)
    requires last <= index <= |raw| < index + 3 && Progress(raw, normalized, last, index)
    ensures Normalize(raw) == normalized + raw[last..]
  {
    NormalizeShort(raw[index..]);
    SliceSplit(raw, last, index);
    Regroup(normalized, raw[last..index], raw[index..]);
  }

  method DecodeURLUnreserved(raw: seq<Byte>) returns (r: seq<Byte>)
    ensures r == Normalize(raw)
  {
    var normalized: seq<Byte> := [];
    var last := 0;
    var changed := false;
    var index := 0;
    assert raw[0..0] == [] && raw[0..] == raw;
    while index + 2 < |raw|
      invariant 0 <= last <= index <= |raw|
      invariant !changed ==> last == 0 && normalized == []
      invariant Progress(raw, normalized, last, index)
    {
      if raw[index] != PERCENT {
        KeepByte(raw, normalized, last, index);
        index := index + 1;
        continue;
      }
      var high := HexValue(raw[index + 1]);
      var low := HexValue(raw[index + 2]);
      if high.None? || low.None? {
        KeepByte(raw, normalized, last, index);
        index := index + 1;
        continue;
      }
      var decoded := 16 * high.value + low.value;
      if !IsUnreserved(decoded) {
        KeepByte(raw, normalized, last, index);
        index := index + 1;
        continue;
      }
      DecodeByte(raw, normalized, last, index);
      changed := true;
      normalized := normalized + raw[last..index];
      normalized := normalized + [decoded];
      index := index + 2;
      last := index + 1;
      index := index + 1;
    }
    Finish(raw, normalized, last, index);
    if !changed {
      return raw;
    }
    normalized := normalized + raw[last..];
    return normalized;
  }
}
