/**
 * The API key page of the dashboard: `generateApiKey` fills a 16-byte
 * array with random values, renders each byte as two lowercase hex digits
 * and stores the result in the page state together with `generated`.
 * The random values are a parameter.
 */
module ApiKeyPage {
  /** A `Uint8Array` element. */
  newtype byte = x: int | 0 <= x < 256

  const KEY_BYTES := 16

  // ---------------------------------------------------------------------
  // byte.toString(16).padStart(2, '0')
  // ---------------------------------------------------------------------

  /** The lowercase hex digits `Number.prototype.toString(16)` writes. */
  predicate IsHexDigit(c: char) {
    ('0' <= c <= '9') || ('a' <= c <= 'f')
  }

  function HexDigit(d: nat): (c: char)
    requires d < 16
    ensures IsHexDigit(c)
  {
    if d < 10 then ('0' as int + d) as char else ('a' as int + d - 10) as char
  }

  /** The value of a hex digit. */
  function DigitValue(c: char): (d: nat)
    requires IsHexDigit(c)
    ensures d < 16
  {
    if c <= '9' then c as int - '0' as int else c as int - 'a' as int + 10
  }

  lemma DigitRoundTrip(d: nat)
    requires d < 16
    ensures DigitValue(HexDigit(d)) == d
  {
  }

  /** `n.toString(16)`: hex digits without leading zeros. */
  function ToHexString(n: nat): (s: string)
    ensures |s| >= 1 && forall i :: 0 <= i < |s| ==> IsHexDigit(s[i])
  {
    if n < 16 then [HexDigit(n)] else ToHexString(n / 16) + [HexDigit(n % 16)]
  }

  /** `s.padStart(len, c)`. */
  function PadStart(s: string, len: nat, c: char): (r: string)
    ensures |r| == if |s| >= len then |s| else len
  {
    if |s| >= len then s else seq(len - |s|, _ => c) + s
  }

  /** Two hex digits for one byte, the high one first. */
  function ByteHex(b: byte): (pair: string)
    ensures |pair| == 2 && IsHexDigit(pair[0]) && IsHexDigit(pair[1])
    ensures DigitValue(pair[0]) * 16 + DigitValue(pair[1]) == b as int
    ensures PairByte(pair[0], pair[1]) == b
  {
    var s := PadStart(ToHexString(b as nat), 2, '0');
    PaddedByte(b);
    DigitRoundTrip(b as nat / 16);
    DigitRoundTrip(b as nat % 16);
    s
  }

  /** The padded rendering of a byte is exactly its two digits: short renderings get a leading `0`. */
  lemma PaddedByte(b: byte)
    ensures PadStart(ToHexString(b as nat), 2, '0') == [HexDigit(b as nat / 16), HexDigit(b as nat % 16)]
  {
    var n := b as nat;
    if n < 16 {
      assert HexDigit(0) == '0';
    } else {
      assert ToHexString(n / 16) == [HexDigit(n / 16)];
    }
  }

  // ---------------------------------------------------------------------
  // Array.from(randomBytes, …).join('')
  // ---------------------------------------------------------------------

  predicate AllHex(s: string) {
    forall i :: 0 <= i < |s| ==> IsHexDigit(s[i])
  }

  function HexEncode(bytes: seq<byte>): (key: string)
    ensures |key| == 2 * |bytes|
    ensures AllHex(key)
  {
    if bytes == [] then "" else HexEncode(bytes[..|bytes| - 1]) + ByteHex(bytes[|bytes| - 1])
  }

  /** The key is the bytes' renderings side by side: pair `i` is byte `i`. */
  lemma {:induction false} HexEncodePairs(bytes: seq<byte>)
    ensures forall i :: 0 <= i < |bytes| ==> HexEncode(bytes)[2 * i..2 * i + 2] == ByteHex(bytes[i])
  {
    if bytes != [] {
      var prefix := bytes[..|bytes| - 1];
      HexEncodePairs(prefix);
      var head, key := HexEncode(prefix), HexEncode(bytes);
      assert key == head + ByteHex(bytes[|bytes| - 1]);
      forall i | 0 <= i < |bytes|
        ensures key[2 * i..2 * i + 2] == ByteHex(bytes[i])
      {
        if i < |prefix| {
          assert key[2 * i..2 * i + 2] == head[2 * i..2 * i + 2];
          assert bytes[i] == prefix[i];
        }
      }
    }
  }

  /** The byte two hex digits spell, the high one first. */
  function PairByte(hi: char, lo: char): (b: byte)
    requires IsHexDigit(hi) && IsHexDigit(lo)
    ensures b as int == DigitValue(hi) * 16 + DigitValue(lo)
  {
    (DigitValue(hi) * 16 + DigitValue(lo)) as byte
  }

  /** Reads consecutive digit pairs back as bytes. */
  function HexDecode(s: string): (bytes: seq<byte>)
    requires |s| % 2 == 0 && AllHex(s)
    ensures |bytes| * 2 == |s|
  {
    if s == [] then []
    else
      var n := |s|;
      HexDecode(s[..n - 2]) + [PairByte(s[n - 2], s[n - 1])]
  }

  /** Decoding reads the last pair of digits as the last byte. */
  lemma HexDecodeSnoc(p: string, pair: string)
    requires |p| % 2 == 0 && AllHex(p)
    requires |pair| == 2 && IsHexDigit(pair[0]) && IsHexDigit(pair[1])
    ensures AllHex(p + pair)
    ensures HexDecode(p + pair) == HexDecode(p) + [PairByte(pair[0], pair[1])]
  {
    var s := p + pair;
    assert s[..|s| - 2] == p;
    assert s[|s| - 2] == pair[0] && s[|s| - 1] == pair[1];
  }

  /** Decoding the key gives back the random bytes. */
  lemma {:induction false} DecodeEncode(bytes: seq<byte>)
    ensures HexDecode(HexEncode(bytes)) == bytes
  {
    if bytes != [] {
      var prefix, last := bytes[..|bytes| - 1], bytes[|bytes| - 1];
      var pair := ByteHex(last);
      assert HexEncode(bytes) == HexEncode(prefix) + pair;
      HexDecodeSnoc(HexEncode(prefix), pair);
      DecodeEncode(prefix);
      assert bytes == prefix + [last];
    }
  }

  /** Different random bytes give different keys. */
  lemma EncodeInjective(a: seq<byte>, b: seq<byte>)
    requires HexEncode(a) == HexEncode(b)
    ensures a == b
  {
    DecodeEncode(a);
    DecodeEncode(b);
  }

  // ---------------------------------------------------------------------
  // The page state
  // ---------------------------------------------------------------------

  /** The component's two pieces of state. */
  class ApiKeyGenerator {
    var apiKey: string
    var generated: bool

    /** `useState('')` and `useState(false)`. */
    constructor()
      ensures apiKey == "" && !generated
    {
      apiKey := "";
      generated := false;
    }

    /**
     * `generateApiKey`: a fresh `Uint8Array(16)` that `getRandomValues`
     * fills with `random`, its hex rendering, then `setApiKey` and
     * `setGenerated(true)`. Regenerating replaces the previous key.
     */
    method GenerateApiKey(random: seq<byte>)
      requires |random| == KEY_BYTES
      modifies this
      ensures apiKey == HexEncode(random) && generated
      ensures |apiKey| == 32 && AllHex(apiKey)
    {
      var randomBytes := new byte[KEY_BYTES];
      for i := 0 to KEY_BYTES
        invariant randomBytes[..i] == random[..i]
      {
        randomBytes[i] := random[i];
      }
      assert randomBytes[..] == random;
      var key := HexEncode(randomBytes[..]);
      apiKey := key;
      generated := true;
    }
  }
}
