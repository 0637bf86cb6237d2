// The key a base32 secret stands for: decodeBase32 and encodeBase32 of
// src/admin/http/totp.ts, and what HMAC (RFC 2104, section 2) makes of its bytes.
// Twenty-six characters carry 130 bits, of which the decoding keeps sixteen bytes.
// The shifts work on 32-bit numbers, read here as unsigned.
module TotpKeys {
  import opened Wrappers
  import opened Settings

  const WORD: nat := 0x1_0000_0000

  predicate Base32Char(c: char) {
    'A' <= c <= 'Z' || '2' <= c <= '7'
  }

  predicate Base32(s: string) {
    s != "" && forall i :: 0 <= i < |s| ==> Base32Char(s[i])
  }

  // The character's place in the alphabet.
  function Digit(c: char): (d: nat)
    requires Base32Char(c)
    ensures d < 32 && Character(d) == c
  {
    if 'A' <= c <= 'Z' then c as int - 'A' as int else c as int - '2' as int + 26
  }

  // BASE32_ALPHABET[d]
  function Character(d: nat): (c: char)
    requires d < 32
    ensures Base32Char(c)
  {
    if d < 26 then ('A' as int + d) as char else ('2' as int + d - 26) as char
  }

  // The alphabet of base32, in order (section 6 of RFC 4648).
  lemma {:induction false} AlphabetIs(d: nat)
    requires d < 32
    ensures Character(d) == "ABCDEFGHIJKLMNOPQRSTUVWXYZ234567"[d]
  {
  }

  // ---- Bits ---------------------------------------------------------------------------

  // The low bits of a number, the highest first.
  function Bits(n: nat, width: nat): (bits: seq<bool>)
    ensures |bits| == width
  {
    if width == 0 then [] else Bits(n / 2, width - 1) + [n % 2 == 1]
  }

  function Number(bits: seq<bool>): nat {
    if bits == [] then 0 else 2 * Number(bits[..|bits| - 1]) + if bits[|bits| - 1] then 1 else 0
  }

  function Power(k: nat): (p: nat)
    ensures p > 0
  {
    if k == 0 then 1 else 2 * Power(k - 1)
  }

  function BitsOfBytes(bytes: seq<nat>): (bits: seq<bool>)
    ensures |bits| == 8 * |bytes|
  {
    if bytes == [] then [] else BitsOfBytes(bytes[..|bytes| - 1]) + Bits(bytes[|bytes| - 1], 8)
  }

  function BitsOfText(s: string): (bits: seq<bool>)
    requires forall i :: 0 <= i < |s| ==> Base32Char(s[i])
    ensures |bits| == 5 * |s|
  {
    if s == "" then [] else BitsOfText(s[..|s| - 1]) + Bits(Digit(s[|s| - 1]), 5)
  }

  predicate Bytes(bytes: seq<nat>) {
    forall i :: 0 <= i < |bytes| ==> bytes[i] < 256
  }

  lemma {:induction false} NumberOfBits(n: nat, width: nat)
    requires n < Power(width)
    ensures Number(Bits(n, width)) == n
  {
    if width > 0 {
      NumberOfBits(n / 2, width - 1);
      assert Bits(n, width)[..width - 1] == Bits(n / 2, width - 1);
    }
  }

  lemma {:induction false} BitsOfNumber(bits: seq<bool>)
    ensures Number(bits) < Power(|bits|) && Bits(Number(bits), |bits|) == bits
  {
    if bits != [] {
      BitsOfNumber(bits[..|bits| - 1]);
      assert bits == bits[..|bits| - 1] + [bits[|bits| - 1]];
    }
  }

  lemma {:induction false} PowersMultiply(a: nat, b: nat)
    ensures Power(a + b) == Power(a) * Power(b)
  {
    if b > 0 {
      PowersMultiply(a, b - 1);
      assert 2 * (Power(a) * Power(b - 1)) == Power(a) * (2 * Power(b - 1));
    }
  }

  lemma {:induction false} NumberOfBoth(x: seq<bool>, y: seq<bool>)
    ensures Number(x + y) == Number(x) * Power(|y|) + Number(y)
  {
    if y == [] {
      assert x + y == x;
    } else {
      var front := y[..|y| - 1];
      NumberOfBoth(x, front);
      assert (x + y)[..|x + y| - 1] == x + front;
      assert 2 * (Number(x) * Power(|front|)) == Number(x) * (2 * Power(|front|));
    }
  }

  // ---- The 32-bit buffer ----------------------------------------------------------------

  function ShiftLeft(value: nat, width: nat): nat {
    if width == 0 then value % WORD else 2 * ShiftLeft(value, width - 1) % WORD
  }

  // (value << width) | digit
  function Push(value: nat, width: nat, digit: nat): nat {
    ShiftLeft(value, width) + digit
  }

  // value & (2^width - 1)
  function Low(value: nat, width: nat): nat {
    if width == 0 then 0 else 2 * Low(value / 2, width - 1) + value % 2
  }

  // (value >>> spare) & (2^width - 1)
  function Peek(value: nat, spare: nat, width: nat): nat {
    if spare == 0 then Low(value, width) else Peek(value / 2, spare - 1, width)
  }

  // The buffer's last bits are the ones not yet written out.
  ghost predicate Holds(value: nat, pending: seq<bool>) {
    Bits(value, |pending|) == pending
  }

  lemma {:induction false} HalfOfRemainder(n: int, h: int)
    requires n >= 0 && h > 0
    ensures n % (2 * h) / 2 == n / 2 % h && n % (2 * h) % 2 == n % 2
  {
    var q, t := n / (2 * h), n % (2 * h);
    RemainderIs(n, 2 * h);
    assert q * (2 * h) == 2 * (q * h);
    DivMod(n / 2, h, q, t / 2);
  }

  lemma {:induction false} BitsOfRemainder(n: nat, width: nat)
    ensures Bits(n % Power(width), width) == Bits(n, width)
  {
    if width > 0 {
      HalfOfRemainder(n, Power(width - 1));
      BitsOfRemainder(n / 2, width - 1);
    }
  }

  lemma {:induction false} HeldNumber(value: nat, pending: seq<bool>)
    ensures Holds(value, pending) <==> value % Power(|pending|) == Number(pending)
  {
    BitsOfRemainder(value, |pending|);
    BitsOfNumber(pending);
    NumberOfBits(value % Power(|pending|), |pending|);
  }

  lemma {:induction false} DivMod(x: int, p: int, q: int, t: int)
    requires x == q * p + t && 0 <= t < p
    ensures x / p == q && x % p == t
  {
    var k := x / p - q;
    assert k * p == t - x % p;
    assert k >= 1 ==> k * p >= p;
    assert k <= -1 ==> k * p <= -p;
  }

  lemma {:induction false} TheWordIsAPower()
    ensures Power(32) == WORD
  {
    assert Power(4) == 16;
    PowersMultiply(4, 4);
    PowersMultiply(8, 8);
    PowersMultiply(16, 16);
  }

  lemma {:induction false} Shifted(value: int, q: int, p: int, n: int, w: int, high: int, rest: int)
    requires value == q * p + n
    ensures value * w - high * (rest * (p * w)) == (q - high * rest) * (p * w) + n * w
  {
    assert value * w == q * (p * w) + n * w;
    assert high * (rest * (p * w)) == (high * rest) * (p * w);
  }

  lemma {:induction false} RoomForDigit(n: int, p: int, w: int, digit: int)
    requires 0 <= n < p && 0 <= digit < w
    ensures 0 <= n * w + digit < p * w
  {
    assert n * w <= (p - 1) * w;
  }

  lemma {:induction false} RemainderIs(value: int, word: int)
    requires word > 0
    ensures value % word == value - value / word * word
  {
  }

  lemma {:induction false} ShiftInNumbers(value: int, p: int, n: int, w: int, rest: int, word: int, digit: int)
    requires p > 0 && w > 0 && word > 0 && word == rest * (p * w)
    requires 0 <= digit < w && value % p == n
    ensures p * w > 0 && (value * w % word + digit) % (p * w) == n * w + digit
  {
    var q, high := value / p, value * w / word;
    RemainderIs(value, p);
    RemainderIs(value * w, word);
    Shifted(value, q, p, n, w, high, rest);
    RoomForDigit(n, p, w, digit);
    DivMod(value * w % word + digit, p * w, q - high * rest, n * w + digit);
  }

  lemma {:induction false} TwiceTheRemainder(x: int)
    ensures 2 * (x % WORD) % WORD == 2 * x % WORD
  {
    var q := x / WORD;
    assert 2 * x == 2 * (x % WORD) + 2 * q * WORD;
  }

  lemma {:induction false} ShiftLeftIs(value: nat, width: nat)
    ensures ShiftLeft(value, width) == value * Power(width) % WORD
  {
    if width > 0 {
      ShiftLeftIs(value, width - 1);
      TwiceTheRemainder(value * Power(width - 1));
      assert value * Power(width) == 2 * (value * Power(width - 1));
    }
  }

  // Shifting a digit in.
  lemma {:induction false} ShiftIn(value: nat, pending: seq<bool>, digit: nat, width: nat)
    requires Holds(value, pending) && digit < Power(width) && |pending| + width <= 32
    ensures Holds(Push(value, width, digit), pending + Bits(digit, width))
  {
    var spare := 32 - (|pending| + width);
    TheWordIsAPower();
    PowersMultiply(|pending|, width);
    PowersMultiply(spare, |pending| + width);
    NumberOfBits(digit, width);
    ShiftLeftIs(value, width);
    NumberOfBoth(pending, Bits(digit, width));
    HeldNumber(value, pending);
    HeldNumber(Push(value, width, digit), pending + Bits(digit, width));
    ShiftInNumbers(value, Power(|pending|), Number(pending), Power(width), Power(spare), WORD, digit);
  }

  lemma {:induction false} LowIsTheNumber(value: nat, width: nat)
    ensures Low(value, width) == Number(Bits(value, width))
  {
    if width > 0 {
      LowIsTheNumber(value / 2, width - 1);
      assert Bits(value, width)[..width - 1] == Bits(value / 2, width - 1);
    }
  }

  // Reading the oldest bits out.
  lemma {:induction false} ReadOut(value: nat, first: seq<bool>, rest: seq<bool>)
    requires Holds(value, first + rest)
    ensures Peek(value, |rest|, |first|) == Number(first)
    ensures Holds(value, rest)
  {
    if rest == [] {
      assert first + rest == first;
      LowIsTheNumber(value, |first|);
    } else {
      var m, fewer := |first + rest|, rest[..|rest| - 1];
      assert Bits(value, m)[..m - 1] == Bits(value / 2, m - 1);
      assert (first + rest)[..m - 1] == first + fewer;
      ReadOut(value / 2, first, fewer);
      assert (first + rest)[m - 1] == rest[|rest| - 1];
      assert rest == fewer + [rest[|rest| - 1]];
    }
  }

  // ---- Decoding -----------------------------------------------------------------------

  predicate AllBase32(s: string) {
    forall i :: 0 <= i < |s| ==> Base32Char(s[i])
  }

  // Blanks, padding and hyphens go; letters become capitals.
  function Cleaned(s: string): string {
    if s == "" then ""
    else Cleaned(s[..|s| - 1])
         + (if Blank(s[|s| - 1]) || s[|s| - 1] in {'=', '-'} then "" else [UpperChar(s[|s| - 1])])
  }

  lemma {:induction false} CleanedSplits(a: string, b: string)
    ensures Cleaned(a + b) == Cleaned(a) + Cleaned(b)
  {
    if b == "" {
      assert a + b == a;
    } else {
      var n := |b| - 1;
      CleanedSplits(a, b[..n]);
      assert (a + b)[..|a + b| - 1] == a + b[..n] && (a + b)[|a + b| - 1] == b[n];
      var last := if Blank(b[n]) || b[n] in {'=', '-'} then "" else [UpperChar(b[n])];
      assert (Cleaned(a) + Cleaned(b[..n])) + last == Cleaned(a) + (Cleaned(b[..n]) + last);
    }
  }

  // Blanks, padding and hyphens do not count, wherever they are, and no other
  // character is lost.
  lemma {:induction false} OnlyTheseDoNotCount(a: string, c: char, b: string)
    ensures Cleaned(a + [c] + b)
         == Cleaned(a) + (if Blank(c) || c in {'=', '-'} then "" else [UpperChar(c)]) + Cleaned(b)
  {
    CleanedSplits(a + [c], b);
    CleanedSplits(a, [c]);
    assert [c][..0] == "";
    var one := if Blank(c) || c in {'=', '-'} then "" else [UpperChar(c)];
    assert Cleaned([c]) == "" + one && "" + one == one;
  }

  function ByteCount(s: string): nat {
    |s| * 5 / 8
  }

  // The whole bytes at the front of the text's bits.
  function Decoded(s: string): (bytes: seq<nat>)
    requires AllBase32(s)
    ensures |bytes| == ByteCount(s)
  {
    seq(ByteCount(s), i requires 0 <= i < ByteCount(s) => Number(BitsOfText(s)[8 * i..8 * i + 8]))
  }

  lemma {:induction false} FrontNumber(b: seq<bool>, n: nat)
    requires n < |b|
    ensures Number(b[..n + 1]) == 2 * Number(b[..n]) + if b[n] then 1 else 0
  {
    assert b[..n + 1][..n] == b[..n];
  }

  lemma {:induction false} EightNumber(b: seq<bool>, n: nat)
    requires |b| == 8
    requires n == (if b[0] then 128 else 0) + (if b[1] then 64 else 0) + (if b[2] then 32 else 0)
      + (if b[3] then 16 else 0) + (if b[4] then 8 else 0) + (if b[5] then 4 else 0)
      + (if b[6] then 2 else 0) + (if b[7] then 1 else 0)
    ensures Number(b) == n
  {
    assert b[..8] == b && b[..0] == [];
    FrontNumber(b, 0);
    FrontNumber(b, 1);
    FrontNumber(b, 2);
    FrontNumber(b, 3);
    FrontNumber(b, 4);
    FrontNumber(b, 5);
    FrontNumber(b, 6);
    FrontNumber(b, 7);
  }

  lemma {:induction false} FiveBits(n: nat)
    requires n < 32
    ensures Bits(n, 5) == [n / 16 % 2 == 1, n / 8 % 2 == 1, n / 4 % 2 == 1, n / 2 % 2 == 1, n % 2 == 1]
  {
    assert Bits(n / 16, 1) == [] + [n / 16 % 2 == 1];
    assert Bits(n / 8, 2) == Bits(n / 16, 1) + [n / 8 % 2 == 1];
    assert Bits(n / 4, 3) == Bits(n / 8, 2) + [n / 4 % 2 == 1];
    assert Bits(n / 2, 4) == Bits(n / 4, 3) + [n / 2 % 2 == 1];
  }

  lemma {:induction false} TwoCharacters(c: char, d: char)
    requires AllBase32([c, d])
    ensures Base32Char(c) && Base32Char(d) && BitsOfText([c, d]) == Bits(Digit(c), 5) + Bits(Digit(d), 5)
  {
    assert Base32Char([c, d][0]) && Base32Char([c, d][1]);
    assert [c, d][..1] == [c] && [c][..0] == [];
    assert BitsOfText([c]) == [] + Bits(Digit(c), 5);
  }

  // A test vector of section 10 of RFC 4648, without its padding: "f".
  lemma {:induction false} DecodesTheTestVector()
    ensures AllBase32(['M', 'Y']) && Decoded(['M', 'Y']) == [0x66]
  {
    TwoCharacters('M', 'Y');
    FiveBits(12);
    FiveBits(24);
    EightNumber(BitsOfText(['M', 'Y'])[0..8], 0x66);
  }

  ghost predicate AreBytesOf(bytes: seq<nat>, bits: seq<bool>) {
    8 * |bytes| <= |bits| && forall k :: 0 <= k < |bytes| ==> bytes[k] == Number(bits[8 * k..8 * k + 8])
  }

  lemma {:induction false} MoreBits(bytes: seq<nat>, bits: seq<bool>, more: seq<bool>)
    requires AreBytesOf(bytes, bits)
    ensures AreBytesOf(bytes, bits + more)
  {
    forall k | 0 <= k < |bytes| ensures bytes[k] == Number((bits + more)[8 * k..8 * k + 8]) {
      assert (bits + more)[8 * k..8 * k + 8] == bits[8 * k..8 * k + 8];
    }
  }

  // Part of the way: `s` is read, `bytes` are written out and the rest of its bits are held.
  ghost predicate Decoding(s: string, bytes: seq<nat>, bits: nat, value: nat) {
    && AllBase32(s) && bits == 5 * |s| - 8 * |bytes|
    && AreBytesOf(bytes, BitsOfText(s)) && (bits > 0 ==> Holds(value, BitsOfText(s)[8 * |bytes|..]))
  }

  lemma {:induction false} NextCharacter(s: string, bytes: seq<nat>, bits: nat, value: nat, c: char)
    requires Decoding(s, bytes, bits, value) && bits < 8 && Base32Char(c)
    ensures Decoding(s + [c], bytes, bits + 5, Push(value, 5, Digit(c)))
  {
    var pending := BitsOfText(s)[8 * |bytes|..];
    assert Power(5) == 32;
    ShiftIn(value, pending, Digit(c), 5);
    MoreBits(bytes, BitsOfText(s), Bits(Digit(c), 5));
    assert (s + [c])[..|s|] == s;
    assert BitsOfText(s + [c])[8 * |bytes|..] == pending + Bits(Digit(c), 5);
  }

  lemma {:induction false} NextByte(s: string, bytes: seq<nat>, bits: nat, value: nat)
    requires Decoding(s, bytes, bits, value) && bits >= 8
    ensures Decoding(s, bytes + [Peek(value, bits - 8, 8)], bits - 8, value)
  {
    var all, n := BitsOfText(s), 8 * |bytes|;
    assert all[n..] == all[n..n + 8] + all[n + 8..];
    ReadOut(value, all[n..n + 8], all[n + 8..]);
  }

  lemma {:induction false} AllDecoded(s: string, bytes: seq<nat>, bits: nat, value: nat)
    requires Decoding(s, bytes, bits, value) && bits < 8
    ensures bytes == Decoded(s)
  {
  }

  // A base32 text is clean already.
  lemma {:induction false} Base32IsClean(s: string)
    requires AllBase32(s)
    ensures Cleaned(s) == s
  {
    if s != "" {
      var n := |s| - 1;
      Base32IsClean(s[..n]);
      assert Base32Char(s[n]);
      assert s == s[..n] + [s[n]];
    }
  }

  lemma {:induction false} NothingDecoded(s: string)
    requires s == ""
    ensures Decoding(s, [], 0, 0)
  {
  }

  // The body of the loop.
  method DecodeCharacter(ghost s: string, before: seq<nat>, held: nat, buffer: nat, character: char)
    returns (bytes: seq<nat>, bits: nat, value: nat)
    requires Decoding(s, before, held, buffer) && held < 8 && Base32Char(character)
    ensures Decoding(s + [character], bytes, bits, value) && bits < 8
  {
    NextCharacter(s, before, held, buffer, character);
    bytes, value, bits := before, Push(buffer, 5, Digit(character)), held + 5;
    if bits >= 8 {
      NextByte(s + [character], bytes, bits, value);
      bytes, bits := bytes + [Peek(value, bits - 8, 8)], bits - 8;
    }
  }

  method DecodeBase32(input: string) returns (r: Option<seq<nat>>)
    ensures r.Some? <==> AllBase32(Cleaned(input))
    ensures r.Some? ==> r.value == Decoded(Cleaned(input))
    ensures AllBase32(input) ==> r == Some(Decoded(input))
  {
    if AllBase32(input) { Base32IsClean(input); }
    var normalized := Cleaned(input);
    var bytes: seq<nat>, bits: nat, value: nat := [], 0, 0;
    NothingDecoded(normalized[..0]);
    for i := 0 to |normalized|
      invariant Decoding(normalized[..i], bytes, bits, value) && bits < 8
    {
      var character := normalized[i];
      if !Base32Char(character) { return None; }
      assert normalized[..i + 1] == normalized[..i] + [character];
      bytes, bits, value := DecodeCharacter(normalized[..i], bytes, bits, value, character);
    }
    assert normalized[..|normalized|] == normalized;
    AllDecoded(normalized, bytes, bits, value);
    return Some(bytes);
  }

  // ---- Encoding -----------------------------------------------------------------------

  function Zeros(n: nat): (bits: seq<bool>)
    ensures |bits| == n && forall k :: 0 <= k < n ==> !bits[k]
  {
    seq(n, i => false)
  }

  // The output is the front of the bytes' bits.
  ghost predicate Wrote(bytes: seq<nat>, output: string) {
    && AllBase32(output) && 5 * |output| <= 8 * |bytes|
    && BitsOfText(output) == BitsOfBytes(bytes)[..5 * |output|]
  }

  // Part of the way: the bits of `bytes` are written as `output` and the rest are held.
  ghost predicate Encoding(bytes: seq<nat>, output: string, bits: nat, value: nat) {
    && Wrote(bytes, output) && bits == 8 * |bytes| - 5 * |output|
    && (bits > 0 ==> Holds(value, BitsOfBytes(bytes)[5 * |output|..]))
  }

  lemma {:induction false} NextByteIn(bytes: seq<nat>, output: string, bits: nat, value: nat, byte: nat)
    requires Encoding(bytes, output, bits, value) && bits < 5 && byte < Power(8)
    ensures Encoding(bytes + [byte], output, bits + 8, Push(value, 8, byte))
  {
    var n := 5 * |output|;
    assert (bytes + [byte])[..|bytes|] == bytes;
    ShiftIn(value, BitsOfBytes(bytes)[n..], byte, 8);
    assert BitsOfBytes(bytes + [byte])[n..] == BitsOfBytes(bytes)[n..] + Bits(byte, 8);
  }

  // The character whose place in the alphabet is five bits' number.
  lemma {:induction false} CharacterOfBits(bits: seq<bool>)
    requires |bits| == 5
    ensures Number(bits) < 32 && Base32Char(Character(Number(bits)))
    ensures Bits(Digit(Character(Number(bits))), 5) == bits
  {
    BitsOfNumber(bits);
    assert Power(5) == 32;
  }

  lemma {:induction false} Cut(all: seq<bool>, n: nat, k: nat)
    requires n + k <= |all|
    ensures all[n..] == all[n..n + k] + all[n + k..] && all[..n + k] == all[..n] + all[n..n + k]
  {
  }

  // Five bits more, as one character.
  lemma {:induction false} WriteFive(output: string, five: seq<bool>)
    requires AllBase32(output) && |five| == 5
    ensures Number(five) < 32
    ensures var longer := output + [Character(Number(five))];
      AllBase32(longer) && BitsOfText(longer) == BitsOfText(output) + five
  {
    CharacterOfBits(five);
    var longer := output + [Character(Number(five))];
    assert longer[..|output|] == output;
  }

  lemma {:induction false} NextText(bytes: seq<nat>, output: string)
    requires Wrote(bytes, output) && 5 * |output| + 5 <= 8 * |bytes|
    ensures var five := BitsOfBytes(bytes)[5 * |output|..5 * |output| + 5];
      Number(five) < 32 && Wrote(bytes, output + [Character(Number(five))])
  {
    var all, n := BitsOfBytes(bytes), 5 * |output|;
    WriteFive(output, all[n..n + 5]);
    Cut(all, n, 5);
  }

  lemma {:induction false} NextCharacterOut(bytes: seq<nat>, output: string, bits: nat, value: nat)
    requires Encoding(bytes, output, bits, value) && bits >= 5
    ensures Peek(value, bits - 5, 5) < 32
    ensures Encoding(bytes, output + [Character(Peek(value, bits - 5, 5))], bits - 5, value)
  {
    var all, n := BitsOfBytes(bytes), 5 * |output|;
    Cut(all, n, 5);
    ReadOut(value, all[n..n + 5], all[n + 5..]);
    NextText(bytes, output);
  }

  // The text spells the bytes, then zeros up to a whole character.
  ghost predicate Spells(output: string, bytes: seq<nat>) {
    && AllBase32(output) && 0 <= 5 * |output| - 8 * |bytes| < 5
    && BitsOfText(output) == BitsOfBytes(bytes) + Zeros(5 * |output| - 8 * |bytes|)
  }

  lemma {:induction false} Joined(all: seq<bool>, n: nat, more: seq<bool>)
    requires n <= |all|
    ensures all[..n] + (all[n..] + more) == all + more
  {
  }

  lemma {:induction false} LastNumber(value: nat, pending: seq<bool>)
    requires Holds(value, pending) && |pending| < 5
    ensures Peek(Push(value, 5 - |pending|, 0), 0, 5) == Number(pending + Zeros(5 - |pending|))
  {
    var last := pending + Zeros(5 - |pending|);
    ShiftIn(value, pending, 0, 5 - |pending|);
    BitsOfZero(5 - |pending|);
    assert last + [] == last;
    ReadOut(Push(value, 5 - |pending|, 0), last, []);
  }

  lemma {:induction false} LastText(bytes: seq<nat>, output: string, bits: nat)
    requires Wrote(bytes, output) && 0 < bits < 5 && bits == 8 * |bytes| - 5 * |output|
    ensures var last := BitsOfBytes(bytes)[5 * |output|..] + Zeros(5 - bits);
      Number(last) < 32 && Spells(output + [Character(Number(last))], bytes)
  {
    var all, n := BitsOfBytes(bytes), 5 * |output|;
    WriteFive(output, all[n..] + Zeros(5 - bits));
    Joined(all, n, Zeros(5 - bits));
  }

  lemma {:induction false} LastCharacter(bytes: seq<nat>, output: string, bits: nat, value: nat)
    requires Encoding(bytes, output, bits, value) && 0 < bits < 5
    ensures Peek(Push(value, 5 - bits, 0), 0, 5) < 32
    ensures Spells(output + [Character(Peek(Push(value, 5 - bits, 0), 0, 5))], bytes)
  {
    LastNumber(value, BitsOfBytes(bytes)[5 * |output|..]);
    LastText(bytes, output, bits);
  }

  lemma {:induction false} BitsOfZero(n: nat)
    ensures Bits(0, n) == Zeros(n) && Number(Zeros(n)) == 0
  {
    if n > 0 {
      BitsOfZero(n - 1);
      assert Zeros(n) == Zeros(n - 1) + [false];
      assert Zeros(n)[..n - 1] == Zeros(n - 1);
    }
  }

  lemma {:induction false} ByteInBits(bytes: seq<nat>, k: nat)
    requires k < |bytes|
    ensures BitsOfBytes(bytes)[8 * k..8 * k + 8] == Bits(bytes[k], 8)
  {
    var n := |bytes| - 1;
    var before := BitsOfBytes(bytes[..n]);
    assert BitsOfBytes(bytes) == before + Bits(bytes[n], 8);
    if k < n {
      ByteInBits(bytes[..n], k);
      assert BitsOfBytes(bytes)[8 * k..8 * k + 8] == before[8 * k..8 * k + 8];
    } else {
      assert BitsOfBytes(bytes)[8 * n..8 * n + 8] == Bits(bytes[n], 8);
    }
  }

  lemma {:induction false} SliceOfFront(x: seq<bool>, y: seq<bool>, a: nat, b: nat)
    requires a <= b <= |x|
    ensures (x + y)[a..b] == x[a..b]
  {
  }

  lemma {:induction false} SpelledByte(output: string, bytes: seq<nat>, k: nat)
    requires Spells(output, bytes) && k < |bytes| && bytes[k] < Power(8)
    ensures Number(BitsOfText(output)[8 * k..8 * k + 8]) == bytes[k]
  {
    ByteInBits(bytes, k);
    NumberOfBits(bytes[k], 8);
    SliceOfFront(BitsOfBytes(bytes), Zeros(5 * |output| - 8 * |bytes|), 8 * k, 8 * k + 8);
  }

  lemma {:induction false} SpelledDecodes(output: string, bytes: seq<nat>)
    requires Spells(output, bytes) && Bytes(bytes)
    ensures Decoded(output) == bytes
  {
    assert ByteCount(output) == |bytes|;
    assert Power(8) == 256;
    forall k | 0 <= k < |bytes| ensures Decoded(output)[k] == bytes[k] {
      SpelledByte(output, bytes, k);
    }
  }

  // Decoding what encoding wrote gives the bytes back.
  method EncodeBase32(bytes: seq<nat>) returns (output: string)
    requires Bytes(bytes)
    ensures Spells(output, bytes) && Decoded(output) == bytes
  {
    output := "";
    var bits: nat, value: nat := 0, 0;
    assert Power(8) == 256;
    for i := 0 to |bytes|
      invariant Encoding(bytes[..i], output, bits, value) && bits < 5
    {
      NextByteIn(bytes[..i], output, bits, value, bytes[i]);
      assert bytes[..i + 1] == bytes[..i] + [bytes[i]];
      value, bits := Push(value, 8, bytes[i]), bits + 8;
      while bits >= 5
        invariant Encoding(bytes[..i + 1], output, bits, value)
      {
        NextCharacterOut(bytes[..i + 1], output, bits, value);
        output, bits := output + [Character(Peek(value, bits - 5, 5))], bits - 5;
      }
    }
    assert bytes[..|bytes|] == bytes;
    if bits > 0 {
      LastCharacter(bytes, output, bits, value);
      output := output + [Character(Peek(Push(value, 5 - bits, 0), 0, 5))];
    }
    SpelledDecodes(output, bytes);
  }

  // ---- The key --------------------------------------------------------------------------

  // HMAC fills a key of up to sixty-four bytes with zeros and hashes a longer one.
  // Two longer keys are taken to hash alike only if they are one.
  datatype HmacKey = Block(bytes: seq<nat>) | Hashed(key: seq<nat>)

  const BLOCK_BYTES: nat := 64

  function KeyByte(bytes: seq<nat>, i: nat): nat {
    if i < |bytes| then bytes[i] else 0
  }

  function HmacKeyOf(bytes: seq<nat>): HmacKey {
    if |bytes| <= BLOCK_BYTES then Block(seq(BLOCK_BYTES, i requires 0 <= i => KeyByte(bytes, i))) else Hashed(bytes)
  }

  function SecretKey(s: string): HmacKey
    requires AllBase32(s)
  {
    HmacKeyOf(Decoded(s))
  }

  // A bit that decoding keeps.
  predicate KeptBit(s: string, j: nat)
    requires AllBase32(s)
  {
    j < 8 * ByteCount(s) && BitsOfText(s)[j]
  }

  predicate Long(s: string) {
    ByteCount(s) > 64
  }

  // Two texts a reader can tell apart, perhaps, but the same kept bits: a bit past
  // the end of the shorter one counts as unset, unless the key is hashed.
  ghost predicate Alike(s: string, t: string)
    requires AllBase32(s) && AllBase32(t)
  {
    && (forall j: nat :: KeptBit(s, j) == KeptBit(t, j))
    && (Long(s) || Long(t) ==> ByteCount(s) == ByteCount(t))
  }

  function EightBits(s: string, i: nat): (bits: seq<bool>)
    requires AllBase32(s)
    ensures |bits| == 8 && forall k :: 0 <= k < 8 ==> bits[k] == KeptBit(s, 8 * i + k)
  {
    seq(8, k requires 0 <= k < 8 => KeptBit(s, 8 * i + k))
  }

  lemma {:induction false} KeyByteIsItsBits(s: string, i: nat)
    requires AllBase32(s)
    ensures KeyByte(Decoded(s), i) == Number(EightBits(s, i))
  {
    if i < ByteCount(s) {
      var bits := BitsOfText(s);
      assert forall k :: 0 <= k < 8 ==> EightBits(s, i)[k] == bits[8 * i + k];
      assert EightBits(s, i) == bits[8 * i..8 * i + 8];
    } else {
      assert forall k :: 0 <= k < 8 ==> !EightBits(s, i)[k];
      assert EightBits(s, i) == Zeros(8);
      BitsOfZero(8);
    }
  }

  lemma {:induction false} SameByteSameBits(s: string, t: string, i: nat)
    requires AllBase32(s) && AllBase32(t)
    ensures KeyByte(Decoded(s), i) == KeyByte(Decoded(t), i) <==> EightBits(s, i) == EightBits(t, i)
  {
    KeyByteIsItsBits(s, i);
    KeyByteIsItsBits(t, i);
    BitsOfNumber(EightBits(s, i));
    BitsOfNumber(EightBits(t, i));
  }

  ghost predicate SameBytes(s: string, t: string)
    requires AllBase32(s) && AllBase32(t)
  {
    forall i: nat :: KeyByte(Decoded(s), i) == KeyByte(Decoded(t), i)
  }

  lemma {:induction false} SameBytesSameBits(s: string, t: string)
    requires AllBase32(s) && AllBase32(t)
    ensures SameBytes(s, t) <==> forall j: nat :: KeptBit(s, j) == KeptBit(t, j)
  {
    if SameBytes(s, t) {
      forall j: nat ensures KeptBit(s, j) == KeptBit(t, j) {
        SameByteSameBits(s, t, j / 8);
        assert EightBits(s, j / 8)[j % 8] == EightBits(t, j / 8)[j % 8];
        assert 8 * (j / 8) + j % 8 == j;
      }
    }
    if forall j: nat :: KeptBit(s, j) == KeptBit(t, j) {
      forall i: nat ensures KeyByte(Decoded(s), i) == KeyByte(Decoded(t), i) {
        SameByteSameBits(s, t, i);
        assert EightBits(s, i) == EightBits(t, i);
      }
    }
  }

  lemma {:induction false} SameKeySameBytes(s: string, t: string)
    requires AllBase32(s) && AllBase32(t)
    ensures SecretKey(s) == SecretKey(t)
       <==> (SameBytes(s, t) && (Long(s) || Long(t) ==> ByteCount(s) == ByteCount(t)))
  {
    var x, y := Decoded(s), Decoded(t);
    if SecretKey(s) == SecretKey(t) && !Long(s) {
      forall i: nat ensures KeyByte(x, i) == KeyByte(y, i) {
        assert i < BLOCK_BYTES ==> KeyByte(x, i) == SecretKey(s).bytes[i] == SecretKey(t).bytes[i] == KeyByte(y, i);
      }
    }
    if SameBytes(s, t) && Long(s) && ByteCount(s) == ByteCount(t) {
      assert forall i :: 0 <= i < |x| ==> x[i] == KeyByte(x, i) && y[i] == KeyByte(y, i);
      assert x == y;
    }
  }

  // Two texts make the same codes exactly when they keep the same bits.
  lemma {:induction false} SameKeyExactly(s: string, t: string)
    requires AllBase32(s) && AllBase32(t)
    ensures SecretKey(s) == SecretKey(t) <==> Alike(s, t)
  {
    SameKeySameBytes(s, t);
    SameBytesSameBits(s, t);
  }

  // ---- Texts that are read one way only -----------------------------------------------

  // The text encoding would write: no character more than the bytes need, no bit
  // set past them, and no zero byte last, which HMAC would not tell from none.
  ghost predicate Canonical(s: string) {
    && AllBase32(s) && 5 * |s| - 8 * ByteCount(s) < 5
    && (forall j :: 8 * ByteCount(s) <= j < 5 * |s| ==> !BitsOfText(s)[j])
    && (s != "" ==> exists j: nat :: 8 * ByteCount(s) - 8 <= j && KeptBit(s, j))
  }

  lemma {:induction false} SameBitsSameText(s: string, t: string)
    requires AllBase32(s) && AllBase32(t) && |s| == |t| && BitsOfText(s) == BitsOfText(t)
    ensures s == t
  {
    if s != "" {
      var n := |s| - 1;
      var x, y := BitsOfText(s[..n]), BitsOfText(t[..n]);
      assert Power(5) == 32;
      assert x == BitsOfText(s)[..5 * n] && y == BitsOfText(t)[..5 * n];
      assert Bits(Digit(s[n]), 5) == BitsOfText(s)[5 * n..] && Bits(Digit(t[n]), 5) == BitsOfText(t)[5 * n..];
      SameBitsSameText(s[..n], t[..n]);
      NumberOfBits(Digit(s[n]), 5);
      NumberOfBits(Digit(t[n]), 5);
      assert s == s[..n] + [s[n]] && t == t[..n] + [t[n]];
    }
  }

  lemma {:induction false} CanonicalEndIsKept(s: string, t: string)
    requires Canonical(s) && Canonical(t) && Alike(s, t)
    ensures ByteCount(s) <= ByteCount(t)
  {
    if s != "" {
      var j: nat :| 8 * ByteCount(s) - 8 <= j && KeptBit(s, j);
      assert KeptBit(t, j);
    }
  }

  lemma {:induction false} CanonicalTextsDiffer(s: string, t: string)
    requires Canonical(s) && Canonical(t) && Alike(s, t)
    ensures s == t
  {
    CanonicalEndIsKept(s, t);
    CanonicalEndIsKept(t, s);
    assert |s| == |t|;
    forall j | 0 <= j < 5 * |s| ensures BitsOfText(s)[j] == BitsOfText(t)[j] {
      if j < 8 * ByteCount(s) { assert KeptBit(s, j) == KeptBit(t, j); }
    }
    SameBitsSameText(s, t);
  }

  lemma {:induction false} SomeBitIsSet(n: nat, width: nat) returns (k: nat)
    requires 0 < n < Power(width)
    ensures k < width && Bits(n, width)[k]
  {
    if n % 2 == 1 {
      k := width - 1;
    } else {
      k := SomeBitIsSet(n / 2, width - 1);
    }
  }

  // What encoding writes is canonical, but for a zero byte last.
  lemma {:induction false} EncodedIsCanonical(output: string, bytes: seq<nat>)
    requires Spells(output, bytes) && Bytes(bytes) && (bytes != [] ==> bytes[|bytes| - 1] > 0)
    ensures Canonical(output)
  {
    assert ByteCount(output) == |bytes|;
    if bytes != [] {
      var n := |bytes| - 1;
      assert Power(8) == 256;
      var k := SomeBitIsSet(bytes[n], 8);
      ByteInBits(bytes, n);
      assert BitsOfBytes(bytes)[8 * n + k] == BitsOfBytes(bytes)[8 * n..8 * n + 8][k];
      assert KeptBit(output, 8 * n + k);
    }
  }

  lemma {:induction false} OneMoreCharacter(s: string, c: char)
    requires AllBase32(s) && Base32Char(c)
    ensures AllBase32(s + [c]) && BitsOfText(s + [c]) == BitsOfText(s) + Bits(Digit(c), 5)
  {
    assert (s + [c])[..|s|] == s;
  }

  lemma {:induction false} FirstThreeAreUnset(c: char)
    requires c in {'A', 'B'}
    ensures Bits(Digit(c), 5)[..3] == Zeros(3)
  {
    var d := Digit(c);
    assert Bits(d / 4, 3) == Zeros(3) by { BitsOfZero(3); }
    assert Bits(d, 5)[..4] == Bits(d / 2, 4) && Bits(d / 2, 4)[..3] == Bits(d / 4, 3);
  }

  lemma {:induction false} SameFrontsAreAlike(s: string, t: string)
    requires AllBase32(s) && AllBase32(t) && ByteCount(s) == ByteCount(t)
    requires BitsOfText(s)[..8 * ByteCount(s)] == BitsOfText(t)[..8 * ByteCount(s)]
    ensures Alike(s, t)
  {
    forall j: nat ensures KeptBit(s, j) == KeptBit(t, j) {
      if j < 8 * ByteCount(s) {
        assert BitsOfText(s)[..8 * ByteCount(s)][j] == BitsOfText(t)[..8 * ByteCount(s)][j];
      }
    }
  }

  lemma {:induction false} FrontOfBoth(x: seq<bool>, y: seq<bool>, n: nat)
    requires n <= |y|
    ensures (x + y)[..|x| + n] == x + y[..n]
  {
  }

  lemma {:induction false} BytesOfLast(n: int)
    requires n % 8 == 1
    ensures 8 * ((n + 1) * 5 / 8) == 5 * n + 3 && 8 * ((n + 2) * 5 / 8) == 5 * n + 3
  {
  }

  // What the first three bits of a last character leave of its text.
  lemma {:induction false} FrontOfLast(s: string, c: char)
    requires AllBase32(s) && |s| % 8 == 1 && c in {'A', 'B'}
    ensures AllBase32(s + [c]) && 8 * ByteCount(s + [c]) == 5 * |s| + 3
    ensures BitsOfText(s + [c])[..5 * |s| + 3] == BitsOfText(s) + Zeros(3)
  {
    BytesOfLast(|s|);
    OneMoreCharacter(s, c);
    FirstThreeAreUnset(c);
    FrontOfBoth(BitsOfText(s), Bits(Digit(c), 5), 3);
  }

  // Of a last character that completes a byte and starts the next, only the first
  // three bits are kept.
  lemma {:induction false} Lookalikes(s: string)
    requires AllBase32(s) && |s| % 8 == 1
    ensures Alike(s + "A", s + "B") && Alike(s + "A", s + "AA")
  {
    FrontOfLast(s, 'A');
    FrontOfLast(s, 'B');
    SameFrontsAreAlike(s + "A", s + "B");
    SurplusIsAlike(s);
  }

  lemma {:induction false} SurplusIsAlike(s: string)
    requires AllBase32(s) && |s| % 8 == 1
    ensures Alike(s + "A", s + "AA")
  {
    var a := s + "A";
    BytesOfLast(|s|);
    FrontOfLast(s, 'A');
    OneMoreCharacter(a, 'A');
    assert s + "AA" == a + "A";
    FrontOfBoth(BitsOfText(a), Bits(Digit('A'), 5), 0);
    assert BitsOfText(a + "A")[..5 * |s| + 3] == BitsOfText(a)[..5 * |s| + 3];
    SameFrontsAreAlike(a, a + "A");
  }
}
