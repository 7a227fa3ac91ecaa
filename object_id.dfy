/**
 * The 12-byte ObjectId of the BSON specification and its text form: Base 16
 * (section 8 of RFC 4648), two hexadecimal digits per byte, high nibble first.
 * `Hex` is `ObjectID.Hex()` and `ObjectIdFromHex` is `primitive.ObjectIDFromHex`
 * of the MongoDB Go driver, which the handlers use to turn the wire identifier
 * into a store key and back.
 */
module ObjectIds {
  import opened Wrappers

  type byte = x: int | 0 <= x < 256

  /** Exactly twelve bytes. */
  type ObjectId = b: seq<byte> | |b| == 12 witness [0, 0, 0, 0, 0, 0, 0, 0, 0, 0, 0, 0]

  /** The zero ObjectId: the value of an ObjectId field that was never assigned. */
  const NilObjectId: ObjectId := [0, 0, 0, 0, 0, 0, 0, 0, 0, 0, 0, 0]

  /** A Base 16 digit in either case, as the decoder accepts. */
  predicate IsHexChar(c: char) {
    '0' <= c <= '9' || 'a' <= c <= 'f' || 'A' <= c <= 'F'
  }

  /** A Base 16 digit in the lowercase form the encoder emits. */
  predicate IsLowerHexChar(c: char) {
    '0' <= c <= '9' || 'a' <= c <= 'f'
  }

  /** The strings the decoder accepts: exactly 24 hexadecimal characters. */
  predicate IsObjectIdHex(s: string) {
    |s| == 24 && forall i :: 0 <= i < |s| ==> IsHexChar(s[i])
  }

  /** ASCII lowercasing of one character; every other character is unchanged. */
  function LowerChar(c: char): char {
    if 'A' <= c <= 'Z' then (c as int - 'A' as int + 'a' as int) as char else c
  }

  /** ASCII lowercasing of a string, character by character. */
  function Lower(s: string): (r: string)
    ensures |r| == |s|
  {
    seq(|s|, i requires 0 <= i < |s| => LowerChar(s[i]))
  }

  /** The value of one hexadecimal digit, in either case. */
  function HexValue(c: char): (d: nat)
    requires IsHexChar(c)
    ensures d < 16
    ensures HexDigit(d) == LowerChar(c)
  {
    if '0' <= c <= '9' then c as int - '0' as int
    else if 'a' <= c <= 'f' then c as int - 'a' as int + 10
    else c as int - 'A' as int + 10
  }

  /** The lowercase digit for a nibble, from the Base 16 alphabet of RFC 4648. */
  function HexDigit(d: nat): (c: char)
    requires d < 16
    ensures IsLowerHexChar(c)
    ensures c == "0123456789abcdef"[d]
  {
    if d < 10 then ('0' as int + d) as char else ('a' as int + d - 10) as char
  }

  /** Every nibble is the value of its own digit. */
  lemma DigitValue(d: nat)
    requires d < 16
    ensures HexValue(HexDigit(d)) == d
  {
  }

  /** `encoding/hex.EncodeToString`: two lowercase digits per byte, high nibble first. */
  function EncodeBytes(b: seq<byte>): (s: string)
    ensures |s| == 2 * |b|
    ensures forall i :: 0 <= i < |s| ==> IsLowerHexChar(s[i])
    ensures forall i :: 0 <= i < |b| ==> s[2 * i] == HexDigit(b[i] / 16) && s[2 * i + 1] == HexDigit(b[i] % 16)
    decreases |b|
  {
    if b == [] then []
    else [HexDigit(b[0] / 16), HexDigit(b[0] % 16)] + EncodeBytes(b[1..])
  }

  /**
   * `encoding/hex.DecodeString`: fails on an odd length or on any character
   * that is not a hexadecimal digit, otherwise yields one byte per digit pair.
   */
  function DecodeBytes(s: string): (r: Option<seq<byte>>)
    ensures r.Some? <==> |s| % 2 == 0 && forall i :: 0 <= i < |s| ==> IsHexChar(s[i])
    ensures r.Some? ==> 2 * |r.value| == |s|
    decreases |s|
  {
    if |s| == 0 then Some([])
    else if |s| == 1 || !IsHexChar(s[0]) || !IsHexChar(s[1]) then None
    else
      match DecodeBytes(s[2..])
      case None => None
      case Some(rest) => Some([HexValue(s[0]) * 16 + HexValue(s[1])] + rest)
  }

  /** `ObjectID.Hex()`: the 24-character lowercase form, byte by byte. */
  function Hex(id: ObjectId): (s: string)
    ensures |s| == 24
    ensures forall i :: 0 <= i < |s| ==> IsLowerHexChar(s[i])
    ensures forall i :: 0 <= i < 12 ==> s[2 * i] == HexDigit(id[i] / 16) && s[2 * i + 1] == HexDigit(id[i] % 16)
  {
    EncodeBytes(id)
  }

  /**
   * `primitive.ObjectIDFromHex`: rejects any length other than 24, then decodes
   * the digits; it succeeds exactly on 24 hexadecimal characters of either case.
   */
  function ObjectIdFromHex(s: string): (r: Option<ObjectId>)
    ensures r.Some? <==> IsObjectIdHex(s)
  {
    if |s| != 24 then None
    else
      match DecodeBytes(s)
      case None => None
      case Some(b) => Some(b)
  }

  lemma {:induction false} DecodeEncodeBytes(b: seq<byte>)
    ensures DecodeBytes(EncodeBytes(b)) == Some(b)
    decreases |b|
  {
    if b != [] {
      var s := EncodeBytes(b);
      var hi, lo := b[0] / 16, b[0] % 16;
      assert s[2..] == EncodeBytes(b[1..]);
      DecodeEncodeBytes(b[1..]);
      DigitValue(hi);
      DigitValue(lo);
      assert [hi * 16 + lo] + b[1..] == b;
    }
  }

  lemma {:induction false} EncodeDecodeBytes(s: string, b: seq<byte>)
    requires DecodeBytes(s) == Some(b)
    ensures EncodeBytes(b) == Lower(s)
    decreases |s|
  {
    if |s| > 0 {
      var hi, lo := HexValue(s[0]), HexValue(s[1]);
      assert b[0] == hi * 16 + lo;
      assert b[0] / 16 == hi && b[0] % 16 == lo;
      EncodeDecodeBytes(s[2..], b[1..]);
      assert Lower(s) == [LowerChar(s[0]), LowerChar(s[1])] + Lower(s[2..]);
    }
  }

  /** Decoding the hex form of any ObjectId gives that ObjectId back. */
  lemma HexRoundTrip(id: ObjectId)
    ensures ObjectIdFromHex(Hex(id)) == Some(id)
  {
    DecodeEncodeBytes(id);
  }

  /** Re-encoding a decoded identifier gives the lowercase form of the string decoded. */
  lemma HexOfDecoded(s: string)
    requires IsObjectIdHex(s)
    ensures Hex(ObjectIdFromHex(s).value) == Lower(s)
  {
    EncodeDecodeBytes(s, ObjectIdFromHex(s).value);
  }

  /** The zero ObjectId is written as 24 zero digits. */
  lemma NilObjectIdHex()
    ensures Hex(NilObjectId) == "000000000000000000000000"
  {
  }

  /** Distinct ObjectIds have distinct hex forms. */
  lemma HexInjective(a: ObjectId, b: ObjectId)
    requires Hex(a) == Hex(b)
    ensures a == b
  {
    HexRoundTrip(a);
    HexRoundTrip(b);
  }

  /** Decoding ignores case: a string and its lowercase form decode alike. */
  lemma DecodeIgnoresCase(s: string)
    ensures ObjectIdFromHex(Lower(s)) == ObjectIdFromHex(s)
  {
    if IsObjectIdHex(s) {
      HexOfDecoded(s);
      HexRoundTrip(ObjectIdFromHex(s).value);
    } else if |s| == 24 {
      var i :| 0 <= i < |s| && !IsHexChar(s[i]);
      assert !IsHexChar(Lower(s)[i]);
    }
  }
}
