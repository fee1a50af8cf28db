/** The inbound size guard of src/client.js, against UTF-8 itself (the Unicode Standard, table 3-6). */
module Utf8 {
  import opened Text

  type Byte = x: int | 0 <= x < 0x100

  const MAX_FRAME_BYTES := 1048576

  /** The bytes of one code point; a surrogate encodes as its replacement character, U+FFFD. */
  function EncodePoint(p: nat): seq<Byte>
    requires p < 0x110000
  {
    if p < 0x80 then [p]
    else if p < 0x800 then [0xc0 + p / 0x40, 0x80 + p % 0x40]
    else if 0xd800 <= p <= 0xdfff then [0xef, 0xbf, 0xbd]
    else if p < 0x10000 then [0xe0 + p / 0x1000, 0x80 + p / 0x40 % 0x40, 0x80 + p % 0x40]
    else [0xf0 + p / 0x40000, 0x80 + p / 0x1000 % 0x40, 0x80 + p / 0x40 % 0x40, 0x80 + p % 0x40]
  }

  function PairValue(high: Unit, low: Unit): (p: nat)
    requires IsHigh(high) && IsLow(low)
    ensures 0x10000 <= p < 0x110000
  {
    0x10000 + (high - 0xd800) * 0x400 + (low - 0xdc00)
  }

  /** What any encoder produces for a string of UTF-16 code units. */
  function Encode(s: Text): seq<Byte> {
    if s == [] then []
    else if StartsWithPair(s) then EncodePoint(PairValue(s[0], s[1])) + Encode(s[2..])
    else EncodePoint(s[0]) + Encode(s[1..])
  }

  /** n code units take between n and 3n bytes. */
  lemma {:induction false} UnitsBoundBytes(s: Text)
    ensures |s| <= |Encode(s)| <= 3 * |s|
  {
    if s == [] {
    } else if StartsWithPair(s) {
      UnitsBoundBytes(s[2..]);
    } else {
      UnitsBoundBytes(s[1..]);
    }
  }

  /** Encoding splits wherever no surrogate pair is cut. */
  lemma {:induction false} EncodeSplits(a: Text, b: Text)
    requires a == [] || b == [] || !IsHigh(a[|a| - 1]) || !IsLow(b[0])
    ensures Encode(a + b) == Encode(a) + Encode(b)
    decreases |a|
  {
    if a == [] {
      assert a + b == b;
    } else if StartsWithPair(a) {
      assert (a + b)[2..] == a[2..] + b;
      EncodeSplits(a[2..], b);
    } else {
      assert (a + b)[1..] == a[1..] + b;
      EncodeSplits(a[1..], b);
    }
  }

  /** ASCII text takes one byte a unit. */
  lemma {:induction false} AsciiLength(s: Text)
    requires forall i | 0 <= i < |s| :: s[i] < 0x80
    ensures |Encode(s)| == |s|
  {
    if s != [] { AsciiLength(s[1..]); }
  }

  // The bytes of the code point at i, and how many units it takes.
  lemma PointLength(s: Text, i: nat)
    requires i < |s|
    ensures
      var c, pair := s[i], i + 1 < |s| && IsHigh(s[i]) && IsLow(s[i + 1]);
      var bytes := if c < 0x80 then 1 else if c < 0x800 then 2 else if pair then 4 else 3;
      |Encode(s[i..])| == bytes + |Encode(s[if pair then i + 2 else i + 1..])|
  {
    assert s[i..][1..] == s[i + 1..];
    if StartsWithPair(s[i..]) { assert s[i..][2..] == s[i + 2..]; }
  }

  // The mask that tells a low surrogate.
  lemma LowMask(c: Unit)
    ensures c / 0x400 * 0x400 == 0xdc00 <==> IsLow(c)
  {
  }

  // utf8ByteLength
  method ByteLength(s: Text) returns (bytes: nat)
    ensures bytes == |Encode(s)|
  {
    bytes := 0;
    var i := 0;
    while i < |s|
      invariant 0 <= i <= |s|
      invariant bytes + |Encode(s[i..])| == |Encode(s)|
    {
      var c := s[i];
      PointLength(s, i);
      if i + 1 < |s| { LowMask(s[i + 1]); }
      if c < 0x80 {
        bytes := bytes + 1;
      } else if c < 0x800 {
        bytes := bytes + 2;
      } else if 0xd800 <= c <= 0xdbff && i + 1 < |s| && s[i + 1] / 0x400 * 0x400 == 0xdc00 {
        bytes := bytes + 4;
        i := i + 1;
      } else {
        bytes := bytes + 3;
      }
      i := i + 1;
    }
  }

  /**
   The three-band guard of onmessage: only the middle band is measured, and yet a text frame is
   dropped exactly when its UTF-8 length passes the cap.
   */
  method DropsText(s: Text) returns (drop: bool)
    ensures drop <==> |Encode(s)| > 1048576
  {
    UnitsBoundBytes(s);
    var units := |s|;
    if units > MAX_FRAME_BYTES { return true; }
    if units * 3 > MAX_FRAME_BYTES {
      var bytes := ByteLength(s);
      if bytes > MAX_FRAME_BYTES { return true; }
    }
    return false;
  }

  // ---- the encoding loses nothing -----------------------------------------------------------------

  function Width(lead: Byte): nat {
    if lead < 0x80 then 1 else if lead < 0xe0 then 2 else if lead < 0xf0 then 3 else 4
  }

  function DecodePoint(bytes: seq<Byte>): int
    requires bytes != [] && |bytes| >= Width(bytes[0])
  {
    var lead: int := bytes[0];
    var tail := (i: int) requires 0 <= i < |bytes| => (bytes[i] as int) - 0x80;
    match Width(bytes[0])
    case 1 => lead
    case 2 => (lead - 0xc0) * 0x40 + tail(1)
    case 3 => (lead - 0xe0) * 0x1000 + tail(1) * 0x40 + tail(2)
    case _ => (lead - 0xf0) * 0x40000 + tail(1) * 0x1000 + tail(2) * 0x40 + tail(3)
  }

  /** A point reads back from its own bytes, whatever follows: the widths counted are those of a decodable encoding. */
  lemma PointRoundTrip(p: nat, rest: seq<Byte>)
    requires p < 0x110000
    ensures
      var bytes := EncodePoint(p);
      && Width(bytes[0]) == |bytes|
      && DecodePoint(bytes + rest) == if 0xd800 <= p <= 0xdfff then 0xfffd else p
  {
    assert p == p / 0x40 * 0x40 + p % 0x40;
    assert p / 0x40 == p / 0x1000 * 0x40 + p / 0x40 % 0x40;
    assert p / 0x1000 == p / 0x40000 * 0x40 + p / 0x1000 % 0x40;
  }
}
