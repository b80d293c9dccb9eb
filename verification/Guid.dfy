/** src/SDL_guid.c: printing a GUID into a buffer and parsing it back. */
module Guid {
  type Byte = b: int | 0 <= b < 256
  type GuidData = g: seq<Byte> | |g| == 16 witness seq(16, i => 0)

  const NUL := '\0'
  const HEX := "0123456789abcdef"

  // ---------- one character ----------

  /** nibble: characters that are not hex digits count as zero. */
  function Nibble(c: char): (n: Byte)
    ensures n < 16
  {
    if '0' <= c <= '9' then c as int - '0' as int
    else if 'A' <= c <= 'F' then c as int - 'A' as int + 10
    else if 'a' <= c <= 'f' then c as int - 'a' as int + 10
    else 0
  }

  predicate IsHex(c: char) {
    '0' <= c <= '9' || 'A' <= c <= 'F' || 'a' <= c <= 'f'
  }

  function LowerChar(c: char): char {
    if 'A' <= c <= 'F' then c + ' ' else c
  }

  function Digit(n: nat): char
    requires n < 16
  {
    HEX[n]
  }

  /** The digits and the nibbles are inverse to each other, up to case. */
  lemma DigitsInvert(n: Byte, c: char)
    ensures n < 16 ==> Nibble(Digit(n)) == n && Digit(n) != NUL && IsHex(Digit(n))
    ensures Digit(Nibble(c)) == if IsHex(c) then LowerChar(c) else '0'
  {
    var d := "0123456789abcdef";
    assert HEX == d;
    assert d[0] == '0' && d[1] == '1' && d[2] == '2' && d[3] == '3';
    assert d[4] == '4' && d[5] == '5' && d[6] == '6' && d[7] == '7';
    assert d[8] == '8' && d[9] == '9' && d[10] == 'a' && d[11] == 'b';
    assert d[12] == 'c' && d[13] == 'd' && d[14] == 'e' && d[15] == 'f';
  }

  // ---------- whole texts ----------

  /** Two digits for each byte, the high one first. */
  function Hex(bytes: seq<Byte>): (s: string)
    ensures |s| == 2 * |bytes|
  {
    if bytes == [] then ""
    else
      var c := bytes[|bytes| - 1];
      Hex(bytes[..|bytes| - 1]) + [Digit(c / 16), Digit(c % 16)]
  }

  lemma {:induction false} HexAt(bytes: seq<Byte>, i: nat)
    requires i < |bytes|
    ensures Hex(bytes)[2 * i] == Digit(bytes[i] / 16) && Hex(bytes)[2 * i + 1] == Digit(bytes[i] % 16)
  {
    if i < |bytes| - 1 {
      HexAt(bytes[..|bytes| - 1], i);
    }
  }

  /** How many bytes a buffer of `cb` characters has room for. */
  function Room(cb: int): (n: nat)
    requires cb > 0
    ensures n <= 16 && 2 * n + 1 <= cb
    ensures n == 16 <==> cb >= 33
  {
    if (cb - 1) / 2 < 16 then (cb - 1) / 2 else 16
  }

  /** Byte `i` of what is parsed from `s`. */
  function ParsedByte(s: string, i: nat): Byte {
    if 2 * i + 1 < |s| then Nibble(s[2 * i]) * 16 + Nibble(s[2 * i + 1]) else 0
  }

  function Parsed(s: string): (g: GuidData)
    ensures forall i :: 0 <= i < 16 ==> g[i] == ParsedByte(s, i)
  {
    seq(16, i requires 0 <= i < 16 => ParsedByte(s, i))
  }

  /** The C string at the start of a buffer. */
  function TextIn(buffer: seq<char>): string {
    if buffer == [] || buffer[0] == NUL then "" else [buffer[0]] + TextIn(buffer[1..])
  }

  lemma {:induction false} TextIs(buffer: seq<char>, n: nat)
    requires n < |buffer| && buffer[n] == NUL && forall i :: 0 <= i < n ==> buffer[i] != NUL
    ensures TextIn(buffer) == buffer[..n]
  {
    if n > 0 {
      TextIs(buffer[1..], n - 1);
      assert buffer[..n] == [buffer[0]] + buffer[1..][..n - 1];
    }
  }

  lemma HexHasNoNul(bytes: seq<Byte>, k: nat)
    requires k < |Hex(bytes)|
    ensures Hex(bytes)[k] != NUL && IsHex(Hex(bytes)[k])
  {
    var i := k / 2;
    HexAt(bytes, i);
    DigitsInvert(bytes[i] / 16, '0');
    DigitsInvert(bytes[i] % 16, '0');
    assert k == 2 * i || k == 2 * i + 1;
  }

  lemma HexStep(bytes: seq<Byte>, i: nat)
    requires i < |bytes|
    ensures Hex(bytes[..i + 1]) == Hex(bytes[..i]) + [Digit(bytes[i] / 16), Digit(bytes[i] % 16)]
  {
    assert bytes[..i + 1][..i] == bytes[..i];
  }

  /** A terminator after the digits ends the text there. */
  lemma EndsThere(buffer: seq<char>, bytes: seq<Byte>)
    requires |Hex(bytes)| < |buffer| && buffer[..|Hex(bytes)|] == Hex(bytes) && buffer[|Hex(bytes)|] == NUL
    ensures TextIn(buffer) == Hex(bytes)
  {
    var n := |Hex(bytes)|;
    forall k | 0 <= k < n ensures buffer[k] != NUL {
      HexHasNoNul(bytes, k);
      assert buffer[..n][k] == buffer[k];
    }
    TextIs(buffer, n);
  }

  // ---------- the operations ----------

  /** SDL_GUIDToString: as many whole bytes as fit before the terminator; nothing after it is written. */
  method ToString(guid: GuidData, buffer: array?<char>, cb: int) returns (ok: bool)
    requires buffer != null ==> cb <= buffer.Length
    modifies buffer
    ensures ok == (buffer != null && cb > 0)
    ensures ok ==> TextIn(buffer[..cb]) == Hex(guid[..Room(cb)])
    ensures ok ==> forall k :: 2 * Room(cb) < k < buffer.Length ==> buffer[k] == old(buffer[k])
    ensures !ok && buffer != null ==> buffer[..] == old(buffer[..])
  {
    hide TextIn, Hex, Digit;
    if buffer == null {
      return false;
    }
    if cb <= 0 {
      return false;
    }
    var psz := 0;
    var i := 0;
    while i < 16 && i < (cb - 1) / 2
      invariant 0 <= i <= Room(cb) && psz == 2 * i
      invariant buffer[..psz] == Hex(guid[..i])
      invariant forall k :: psz <= k < buffer.Length ==> buffer[k] == old(buffer[k])
      decreases 16 - i
    {
      var c := guid[i];
      HexStep(guid, i);
      buffer[psz] := Digit(c / 16);
      psz := psz + 1;
      buffer[psz] := Digit(c % 16);
      psz := psz + 1;
      i := i + 1;
      assert buffer[..psz] == buffer[..psz - 2] + [buffer[psz - 2], buffer[psz - 1]];
    }
    buffer[psz] := NUL;
    assert buffer[..cb][..psz] == buffer[..psz];
    EndsThere(buffer[..cb], guid[..i]);
    return true;
  }

  /** SDL_GUIDFromString. */
  method FromString(text: string) returns (guid: GuidData)
    ensures guid == Parsed(text)
  {
    var len := |text| - |text| % 2;
    guid := seq(16, i => 0);
    var p := 0;
    var i := 0;
    while i < len && p < 16
      invariant i == 2 * p && 0 <= p <= 16
      invariant |guid| == 16
      invariant forall j :: 0 <= j < 16 ==> guid[j] == if j < p then ParsedByte(text, j) else 0
      decreases len - i
    {
      guid := guid[p := Nibble(text[i]) * 16 + Nibble(text[i + 1])];
      i, p := i + 2, p + 1;
    }
  }

  // ---------- round trips ----------

  /** Printing into any buffer and parsing the text gives the GUID with the bytes that did not fit
      zeroed; nothing is lost from 33 characters on. */
  lemma PrintThenParse(guid: GuidData, cb: int)
    requires cb > 0
    ensures var g := Parsed(Hex(guid[..Room(cb)]));
      && g == guid[..Room(cb)] + seq(16 - Room(cb), i => 0)
      && (cb >= 33 ==> g == guid)
  {
    var n := Room(cb);
    var s := Hex(guid[..n]);
    var g := Parsed(s);
    forall i | 0 <= i < 16 ensures g[i] == if i < n then guid[i] else 0 {
      if i < n {
        HexAt(guid[..n], i);
        DigitsInvert(guid[i] / 16, '0');
        DigitsInvert(guid[i] % 16, '0');
      }
    }
  }

  /** What is left of a text after parsing and printing: hex digits in lower case, everything else and
      everything missing as zeros. */
  function Normal(s: string): (t: string)
    ensures |t| == 32
  {
    seq(32, k requires 0 <= k < 32 =>
      if k < |s| - |s| % 2 && IsHex(s[k]) then LowerChar(s[k]) else '0')
  }

  /** The digit pair printed for a parsed byte. */
  lemma PrintedPair(a: char, b: char)
    ensures var c := Nibble(a) * 16 + Nibble(b);
      && Digit(c / 16) == (if IsHex(a) then LowerChar(a) else '0')
      && Digit(c % 16) == (if IsHex(b) then LowerChar(b) else '0')
  {
    hide Digit, IsHex, LowerChar, Nibble;
    DigitsInvert(0, a);
    DigitsInvert(0, b);
    var hi, lo := Nibble(a), Nibble(b);
    assert (hi * 16 + lo) / 16 == hi && (hi * 16 + lo) % 16 == lo;
  }

  lemma ZeroDigit()
    ensures Digit(0) == '0'
  {
    DigitsInvert(0, '0');
  }

  lemma NormalAt(s: string, k: nat)
    requires k < 32
    ensures Normal(s)[k] == if k < |s| - |s| % 2 && IsHex(s[k]) then LowerChar(s[k]) else '0'
  {
  }

  lemma NormalByte(s: string, i: nat)
    requires i < 16
    ensures Digit(ParsedByte(s, i) / 16) == Normal(s)[2 * i]
    ensures Digit(ParsedByte(s, i) % 16) == Normal(s)[2 * i + 1]
  {
    hide Digit, IsHex, LowerChar, Nibble, Normal;
    NormalAt(s, 2 * i);
    NormalAt(s, 2 * i + 1);
    ZeroDigit();
    assert 2 * i + 1 < |s| <==> 2 * i < |s| - |s| % 2;
    if 2 * i + 1 < |s| {
      PrintedPair(s[2 * i], s[2 * i + 1]);
    }
  }

  lemma ParseThenPrint(s: string)
    ensures Hex(Parsed(s)) == Normal(s)
  {
    hide Normal, ParsedByte, Hex, Digit;
    var g := Parsed(s);
    forall k | 0 <= k < 32 ensures Hex(g)[k] == Normal(s)[k] {
      HexAt(g, k / 2);
      NormalByte(s, k / 2);
      assert k == 2 * (k / 2) || k == 2 * (k / 2) + 1;
    }
  }

  /** Parsing and then printing a text of 32 hex digits gives its lower-case form. */
  lemma HexDigitsSurvive(s: string)
    requires |s| == 32 && forall k :: 0 <= k < 32 ==> IsHex(s[k])
    ensures Hex(Parsed(s)) == seq(32, k requires 0 <= k < 32 => LowerChar(s[k]))
  {
    ParseThenPrint(s);
  }
}
