/**
SCIM bearer tokens: `base:provider[:organization]` in unpadded base64url (section 5 of
RFC 4648). Strings are lists of bytes, since UTF-8 spells ':' with the byte 58 and uses that
byte for nothing else.
*/
module ScimToken {
  import opened Options

  type Byte = b: nat | b < 256
  type Digit = d: nat | d < 64

  // ----- base64url -----

  function CharOf(d: Digit): (c: char)
    ensures c != '='
  {
    if d < 26 then 'A' + (d as char)
    else if d < 52 then 'a' + ((d - 26) as char)
    else if d < 62 then '0' + ((d - 52) as char)
    else if d == 62 then '-' else '_'
  }

  function DigitOf(c: char): Option<Digit> {
    if 'A' <= c <= 'Z' then Some((c - 'A') as int)
    else if 'a' <= c <= 'z' then Some((c - 'a') as int + 26)
    else if '0' <= c <= '9' then Some((c - '0') as int + 52)
    else if c == '-' then Some(62)
    else if c == '_' then Some(63)
    else None
  }

  lemma {:induction false} DigitOfChar(d: Digit)
    ensures DigitOf(CharOf(d)) == Some(d)
  {
  }

  /** The digits of a group of one to three bytes. */
  function GroupDigits(g: seq<Byte>): (r: seq<Digit>)
    requires 1 <= |g| <= 3
    ensures |r| == |g| + 1
  {
    if |g| == 1 then [g[0] / 4, g[0] % 4 * 16]
    else if |g| == 2 then [g[0] / 4, g[0] % 4 * 16 + g[1] / 16, g[1] % 16 * 4]
    else [g[0] / 4, g[0] % 4 * 16 + g[1] / 16, g[1] % 16 * 4 + g[2] / 64, g[2] % 64]
  }

  /** The bytes of a group of two to four digits; the bits that are left over are dropped. */
  function GroupBytes(d: seq<Digit>): (r: seq<Byte>)
    requires 2 <= |d| <= 4
    ensures |r| == |d| - 1
  {
    var first: int, second: int := d[0], d[1];
    var third: int := if |d| >= 3 then d[2] else 0;
    var fourth: int := if |d| == 4 then d[3] else 0;
    [first * 4 + second / 16] +
    (if |d| >= 3 then [second % 16 * 16 + third / 4] else []) +
    (if |d| == 4 then [third % 4 * 64 + fourth] else [])
  }

  /** The digit that joins two bytes gives back the low bits of one and the high bits of the other. */
  lemma {:induction false} SecondDigit(a: Byte, b: int)
    requires 0 <= b < 256
    ensures (a % 4 * 16 + b / 16) / 16 == a % 4
    ensures (a % 4 * 16 + b / 16) % 16 == b / 16
  {
  }

  lemma {:induction false} ThirdDigit(a: Byte, b: int)
    requires 0 <= b < 256
    ensures (a % 16 * 4 + b / 64) / 4 == a % 16
    ensures (a % 16 * 4 + b / 64) % 4 == b / 64
  {
  }

  lemma {:induction false} GroupRoundTrip(g: seq<Byte>)
    requires 1 <= |g| <= 3
    ensures GroupBytes(GroupDigits(g)) == g
  {
    var second, third := if |g| >= 2 then g[1] as int else 0, if |g| == 3 then g[2] as int else 0;
    SecondDigit(g[0], second);
    assert g[0] / 4 * 4 + g[0] % 4 == g[0];
    if |g| >= 2 {
      ThirdDigit(g[1], third);
      assert g[1] / 16 * 16 + g[1] % 16 == g[1];
    }
    if |g| == 3 {
      assert g[2] / 64 * 64 + g[2] % 64 == g[2];
    }
    assert |GroupBytes(GroupDigits(g))| == |g|;
    assert GroupBytes(GroupDigits(g))[0] == g[0];
  }

  function Chars(digits: seq<Digit>): (r: string)
    ensures |r| == |digits|
    ensures forall i :: 0 <= i < |r| ==> r[i] == CharOf(digits[i])
  {
    seq(|digits|, i requires 0 <= i < |digits| => CharOf(digits[i]))
  }

  function Digits(s: string): (r: Option<seq<Digit>>)
    ensures r.Some? ==> |r.value| == |s|
  {
    if s == [] then Some([])
    else
      var last, rest := DigitOf(s[|s| - 1]), Digits(s[..|s| - 1]);
      if last.Some? && rest.Some? then Some(rest.value + [last.value]) else None
  }

  lemma {:induction false} DigitsOfChars(digits: seq<Digit>)
    ensures Digits(Chars(digits)) == Some(digits)
  {
    if digits != [] {
      var front := digits[..|digits| - 1];
      DigitsOfChars(front);
      DigitOfChar(digits[|digits| - 1]);
      assert Chars(digits)[..|digits| - 1] == Chars(front);
      assert front + [digits[|digits| - 1]] == digits;
    }
  }

  function Equals(n: nat): (r: string)
    ensures |r| == n
  {
    seq(n, _ => '=')
  }

  /** The padded form: each group of up to three bytes becomes four characters. */
  function EncodePadded(bytes: seq<Byte>): (s: string)
    ensures |s| % 4 == 0
  {
    if |bytes| == 0 then ""
    else if |bytes| <= 3 then Chars(GroupDigits(bytes)) + Equals(3 - |bytes|)
    else Chars(GroupDigits(bytes[..3])) + EncodePadded(bytes[3..])
  }

  /** The characters before the padding. */
  function StripPadding(s: string): (r: string)
    ensures |r| <= |s| && s == r + Equals(|s| - |r|)
    ensures r != [] ==> r[|r| - 1] != '='
  {
    if s != [] && s[|s| - 1] == '=' then StripPadding(s[..|s| - 1]) else s
  }

  function Encode(bytes: seq<Byte>): string {
    StripPadding(EncodePadded(bytes))
  }

  /** Padding is added up to the next multiple of four: `-len` modulo 4. */
  function Pad(s: string): string {
    s + Equals(-|s| % 4)
  }

  function DecodePadded(s: string): Option<seq<Byte>>
    decreases |s|
  {
    if s == [] then Some([])
    else if |s| < 4 then None
    else if |s| == 4 then
      var digits := Digits(StripPadding(s));
      if digits.None? || |digits.value| < 2 then None else Some(GroupBytes(digits.value))
    else
      var digits, rest := Digits(s[..4]), DecodePadded(s[4..]);
      if digits.None? || rest.None? then None else Some(GroupBytes(digits.value) + rest.value)
  }

  function Decode(s: string): Option<seq<Byte>> {
    DecodePadded(Pad(s))
  }

  lemma {:induction false} NegMod(n: nat, k: nat)
    requires n % 4 == 0 && k < 4 && k <= n
    ensures -(n - k) % 4 == k
  {
  }

  /** Stripping loses only padding that `Pad` restores. */
  lemma {:induction false} PadRestores(s: string)
    requires |s| % 4 == 0 && |s| - |StripPadding(s)| < 4
    ensures Pad(StripPadding(s)) == s
  {
    NegMod(|s|, |s| - |StripPadding(s)|);
  }

  lemma {:induction false} StripOnce(digits: seq<Digit>, n: nat)
    ensures StripPadding(Chars(digits) + Equals(n)) == Chars(digits)
  {
    var s := Chars(digits) + Equals(n);
    if n > 0 {
      StripOnce(digits, n - 1);
      assert s[..|s| - 1] == Chars(digits) + Equals(n - 1);
    } else {
      assert s == Chars(digits);
    }
  }

  lemma {:induction false} StripTail(head: string, tail: string)
    requires StripPadding(tail) != []
    ensures StripPadding(head + tail) == head + StripPadding(tail)
  {
    var s := head + tail;
    if tail[|tail| - 1] == '=' {
      StripTail(head, tail[..|tail| - 1]);
      assert s[..|s| - 1] == head + tail[..|tail| - 1];
    }
  }

  lemma {:induction false} LittlePadding(bytes: seq<Byte>)
    ensures |EncodePadded(bytes)| - |StripPadding(EncodePadded(bytes))| < 4
    ensures bytes != [] ==> StripPadding(EncodePadded(bytes)) != []
  {
    if bytes != [] {
      if |bytes| <= 3 {
        StripOnce(GroupDigits(bytes), 3 - |bytes|);
      } else {
        LittlePadding(bytes[3..]);
        StripTail(Chars(GroupDigits(bytes[..3])), EncodePadded(bytes[3..]));
      }
    }
  }

  lemma {:induction false} LastGroup(bytes: seq<Byte>)
    requires 1 <= |bytes| <= 3
    ensures DecodePadded(EncodePadded(bytes)) == Some(bytes)
  {
    var digits := GroupDigits(bytes);
    StripOnce(digits, 3 - |bytes|);
    DigitsOfChars(digits);
    GroupRoundTrip(bytes);
  }

  lemma {:induction false} NextGroup(group: seq<Byte>, rest: string)
    requires |group| == 3 && rest != [] && |rest| % 4 == 0 && DecodePadded(rest).Some?
    ensures DecodePadded(Chars(GroupDigits(group)) + rest) == Some(group + DecodePadded(rest).value)
  {
    var digits := GroupDigits(group);
    var s := Chars(digits) + rest;
    assert s[..4] == Chars(digits) && s[4..] == rest;
    DigitsOfChars(digits);
    GroupRoundTrip(group);
  }

  lemma {:induction false} PaddedRoundTrip(bytes: seq<Byte>)
    ensures DecodePadded(EncodePadded(bytes)) == Some(bytes)
  {
    if |bytes| > 3 {
      PaddedRoundTrip(bytes[3..]);
      LittlePadding(bytes[3..]);
      NextGroup(bytes[..3], EncodePadded(bytes[3..]));
      assert bytes[..3] + bytes[3..] == bytes;
    } else if bytes != [] {
      LastGroup(bytes);
    }
  }

  /** Main result: unpadded base64url decoding inverts encoding, for every list of bytes. */
  lemma {:induction false} Base64RoundTrip(bytes: seq<Byte>)
    ensures Decode(Encode(bytes)) == Some(bytes)
  {
    LittlePadding(bytes);
    PadRestores(EncodePadded(bytes));
    PaddedRoundTrip(bytes);
  }

  // ----- the standard -----

  /** The alphabet of table 2 in section 5 of RFC 4648: A to Z, a to z, 0 to 9, '-' and '_'. */
  lemma {:induction false} StandardAlphabet(d: Digit)
    ensures CharOf(0) == 'A' && CharOf(25) == 'Z' && CharOf(26) == 'a' && CharOf(51) == 'z'
    ensures CharOf(52) == '0' && CharOf(61) == '9' && CharOf(62) == '-' && CharOf(63) == '_'
    ensures d !in {25, 51, 61, 62, 63} ==> CharOf(d + 1) as int == CharOf(d) as int + 1
  {
  }

  /** The number that digits spell, the most significant first. */
  function Spelled(digits: seq<int>, radix: int): int {
    if digits == [] then 0 else Spelled(digits[..|digits| - 1], radix) * radix + digits[|digits| - 1]
  }

  lemma {:induction false} SpelledMore(digits: seq<int>, last: int, radix: int)
    ensures Spelled(digits + [last], radix) == Spelled(digits, radix) * radix + last
  {
    assert (digits + [last])[..|digits|] == digits;
  }

  lemma {:induction false} SpelledFew(a: int, b: int, c: int, d: int, radix: int)
    ensures Spelled([a], radix) == a && Spelled([a, b], radix) == a * radix + b
    ensures Spelled([a, b, c], radix) == (a * radix + b) * radix + c
    ensures Spelled([a, b, c, d], radix) == ((a * radix + b) * radix + c) * radix + d
  {
    SpelledMore([], a, radix);
    SpelledMore([a], b, radix);
    SpelledMore([a, b], c, radix);
    SpelledMore([a, b, c], d, radix);
    assert [] + [a] == [a] && [a] + [b] == [a, b] && [a, b] + [c] == [a, b, c] && [a, b, c] + [d] == [a, b, c, d];
  }

  /** The digits of a group spell the number that its bytes spell, filled up with zero bits at the end. */
  lemma {:induction false} GroupSpells(g: seq<Byte>)
    requires 1 <= |g| <= 3
    ensures Spelled(GroupDigits(g), 64) == Spelled(g, 256) * if |g| == 1 then 16 else if |g| == 2 then 4 else 1
  {
    var d: seq<int> := GroupDigits(g);
    var bytes: seq<int> := g;
    SpelledFew(bytes[0], if |g| > 1 then bytes[1] else 0, if |g| > 2 then bytes[2] else 0, 0, 256);
    SpelledFew(d[0], d[1], if |g| > 1 then d[2] else 0, if |g| > 2 then d[3] else 0, 64);
    if |g| == 1 {
      assert bytes == [bytes[0]] && d == [d[0], d[1]];
    } else if |g| == 2 {
      assert bytes == [bytes[0], bytes[1]] && d == [d[0], d[1], d[2]];
    } else {
      assert bytes == [bytes[0], bytes[1], bytes[2]] && d == [d[0], d[1], d[2], d[3]];
    }
  }

  /** Three bytes at a time, in order. */
  lemma {:induction false} GroupByGroup(bytes: seq<Byte>)
    ensures |bytes| > 3 ==> EncodePadded(bytes) == EncodePadded(bytes[..3]) + EncodePadded(bytes[3..])
    ensures 1 <= |bytes| <= 3 ==>
      && |EncodePadded(bytes)| == 4
      && (forall i :: 0 <= i <= |bytes| ==> EncodePadded(bytes)[i] == CharOf(GroupDigits(bytes)[i]))
      && (forall i :: |bytes| < i < 4 ==> EncodePadded(bytes)[i] == '=')
    ensures EncodePadded([]) == ""
  {
  }

  // ----- printing and splitting -----

  const COLON: Byte := 58

  function Split(s: seq<Byte>): (parts: seq<seq<Byte>>)
    ensures parts != []
  {
    if s == [] then [[]]
    else
      var rest := Split(s[1..]);
      if s[0] == COLON then [[]] + rest else [[s[0]] + rest[0]] + rest[1..]
  }

  function Join(parts: seq<seq<Byte>>): seq<Byte> {
    if parts == [] then []
    else if |parts| == 1 then parts[0]
    else parts[0] + [COLON] + Join(parts[1..])
  }

  datatype Parts = Parts(base: seq<Byte>, provider: seq<Byte>, organization: seq<Byte>)

  /** The payload of a token; an absent organization is the empty one. */
  function Payload(p: Parts): seq<Byte> {
    p.base + [COLON] + p.provider + if p.organization != [] then [COLON] + p.organization else []
  }

  function PrintToken(p: Parts): string {
    Encode(Payload(p))
  }

  function ParsePayload(s: seq<Byte>): Option<Parts> {
    var parts := Split(s);
    var provider := if |parts| > 1 then parts[1] else [];
    var organization := if |parts| > 2 then Join(parts[2..]) else [];
    if parts[0] == [] || provider == [] then None else Some(Parts(parts[0], provider, organization))
  }

  /** What authentication reads out of a bearer token; None is the "Invalid SCIM token" answer. */
  function ParseToken(token: string): Option<Parts> {
    var payload := Decode(token);
    if payload.None? then None else ParsePayload(payload.value)
  }

  lemma {:induction false} SplitAtColon(a: seq<Byte>, s: seq<Byte>)
    requires COLON !in a
    ensures Split(a + [COLON] + s) == [a] + Split(s)
  {
    var all := a + [COLON] + s;
    if a == [] {
      assert all[1..] == s;
    } else {
      SplitAtColon(a[1..], s);
      assert all[1..] == a[1..] + [COLON] + s;
      assert [a[0]] + a[1..] == a;
      assert ([a[1..]] + Split(s))[1..] == Split(s);
    }
  }

  lemma {:induction false} SplitWhole(a: seq<Byte>)
    requires COLON !in a
    ensures Split(a) == [a]
  {
    if a != [] {
      SplitWhole(a[1..]);
      assert [a[0]] + a[1..] == a;
    }
  }

  lemma {:induction false} JoinSplit(s: seq<Byte>)
    ensures Join(Split(s)) == s
  {
    if s != [] {
      JoinSplit(s[1..]);
      var rest := Split(s[1..]);
      if s[0] == COLON {
        assert ([[]] + rest)[1..] == rest;
        assert [COLON] + s[1..] == s;
      } else {
        assert ([[s[0]] + rest[0]] + rest[1..])[1..] == rest[1..];
        assert [s[0]] + s[1..] == s;
        if |rest| > 1 {
          assert [s[0]] + rest[0] + [COLON] + Join(rest[1..]) == [s[0]] + (rest[0] + [COLON] + Join(rest[1..]));
        }
      }
    }
  }

  lemma {:induction false} PartsHaveNoColon(s: seq<Byte>, i: nat)
    requires i < |Split(s)|
    ensures COLON !in Split(s)[i]
  {
    if s != [] {
      var rest := Split(s[1..]);
      if s[0] == COLON {
        if i > 0 { PartsHaveNoColon(s[1..], i - 1); }
      } else {
        PartsHaveNoColon(s[1..], i);
      }
    }
  }

  predicate Printable(p: Parts) {
    p.base != [] && p.provider != [] && COLON !in p.base && COLON !in p.provider
  }

  lemma {:induction false} ParsePrinted(p: Parts)
    requires Printable(p)
    ensures ParsePayload(Payload(p)) == Some(p)
  {
    if p.organization == [] {
      assert Payload(p) == p.base + [COLON] + p.provider;
      SplitWhole(p.provider);
      SplitAtColon(p.base, p.provider);
    } else {
      var tail := p.provider + [COLON] + p.organization;
      assert Payload(p) == p.base + [COLON] + tail;
      SplitAtColon(p.base, tail);
      SplitAtColon(p.provider, p.organization);
      JoinSplit(p.organization);
      assert Split(Payload(p))[2..] == Split(p.organization);
    }
  }

  /**
  Main result: a printed token reads back as the same three parts exactly when base and
  provider are non-empty and free of ':'; the organization may be anything.
  */
  lemma {:induction false} TokenRoundTrip(p: Parts)
    ensures ParseToken(PrintToken(p)) == Some(p) <==> Printable(p)
  {
    Base64RoundTrip(Payload(p));
    var parts := Split(Payload(p));
    if Printable(p) {
      ParsePrinted(p);
    } else if ParsePayload(Payload(p)) == Some(p) {
      PartsHaveNoColon(Payload(p), 0);
      PartsHaveNoColon(Payload(p), 1);
    }
  }

  /** The payload of a token in characters: the separator is ':', before the organization only if there is one. */
  lemma {:induction false} PayloadSpells(p: Parts)
    ensures COLON as char == ':'
    ensures p.organization == [] ==> Payload(p) == p.base + [58] + p.provider
    ensures p.organization != [] ==> Payload(p) == p.base + [58] + p.provider + [58] + p.organization
  {
    assert p.base + [COLON] + p.provider + [] == p.base + [COLON] + p.provider;
    assert p.base + [COLON] + p.provider + ([COLON] + p.organization) == p.base + [COLON] + p.provider + [COLON] + p.organization;
  }

  /** The other way round: an accepted payload is the print of its parts, or that with one ':' more. */
  lemma {:induction false} PrintParsed(s: seq<Byte>)
    requires ParsePayload(s).Some?
    ensures var p := ParsePayload(s).value; s == Payload(p) || (p.organization == [] && s == Payload(p) + [COLON])
  {
    var parts := Split(s);
    JoinSplit(s);
    var p := ParsePayload(s).value;
    assert Join(parts) == p.base + [COLON] + Join(parts[1..]);
    if |parts| == 2 {
      assert s == Payload(p);
    } else {
      assert parts[1..][1..] == parts[2..];
      assert s == p.base + [COLON] + (p.provider + [COLON] + p.organization);
    }
  }

  lemma {:induction false} ParsedIsPrintable(s: seq<Byte>)
    requires ParsePayload(s).Some?
    ensures Printable(ParsePayload(s).value)
  {
    PartsHaveNoColon(s, 0);
    PartsHaveNoColon(s, 1);
  }

  lemma {:induction false} TrailingColonIgnored(p: Parts)
    requires Printable(p) && p.organization == []
    ensures ParsePayload(Payload(p) + [COLON]) == Some(p)
  {
    var s := Payload(p) + [COLON];
    assert s == p.base + [COLON] + (p.provider + [COLON] + []);
    SplitAtColon(p.base, p.provider + [COLON] + []);
    SplitAtColon(p.provider, []);
    assert Split(s) == [p.base, p.provider, []];
    assert Split(s)[2..] == [[]];
  }

  /** Main result: which payloads are accepted, and what they are read as. */
  lemma {:induction false} ParseExactly(s: seq<Byte>, p: Parts)
    ensures ParsePayload(s) == Some(p) <==>
            Printable(p) && (s == Payload(p) || (p.organization == [] && s == Payload(p) + [COLON]))
  {
    if ParsePayload(s) == Some(p) {
      ParsedIsPrintable(s);
      PrintParsed(s);
    }
    if Printable(p) {
      ParsePrinted(p);
      if p.organization == [] { TrailingColonIgnored(p); }
    }
  }
}
