/**
 * The store's 12-byte document identifiers and their 24-character hexadecimal
 * string form: `ObjectId.is_valid(s)` for strings, `ObjectId(s)` and
 * `str(oid)`.
 */
module ObjectIds {
  import opened Results
  import Text

  type Byte = x: int | 0 <= x < 256

  type Bytes12 = b: seq<Byte> | |b| == 12 witness [0, 0, 0, 0, 0, 0, 0, 0, 0, 0, 0, 0]

  /** A store-assigned identifier: twelve bytes. */
  datatype ObjectId = ObjectId(bytes: Bytes12)

  predicate IsHexDigit(c: char) {
    ('0' <= c <= '9') || ('a' <= c <= 'f') || ('A' <= c <= 'F')
  }

  function HexValue(c: char): (v: nat)
    requires IsHexDigit(c)
    ensures v < 16
  {
    if '0' <= c <= '9' then c as int - '0' as int
    else if 'a' <= c <= 'f' then c as int - 'a' as int + 10
    else c as int - 'A' as int + 10
  }

  /** The lower-case hexadecimal digit for `v`, as `str(oid)` writes it. */
  function HexChar(v: nat): (c: char)
    requires v < 16
    ensures IsHexDigit(c) && HexValue(c) == v && !Text.IsUpper(c)
  {
    if v < 10 then ('0' as int + v) as char else ('a' as int + v - 10) as char
  }

  /** Writing the value of a digit gives the digit in lower case. */
  lemma HexCharOfValue(c: char)
    requires IsHexDigit(c)
    ensures HexChar(HexValue(c)) == Text.LowerChar(c)
  {
  }

  predicate AllHex(s: string) {
    forall i :: 0 <= i < |s| ==> IsHexDigit(s[i])
  }

  /** `ObjectId.is_valid(s)` for a string: exactly 24 hexadecimal digits, either case. */
  predicate IsValid(s: string) {
    |s| == 24 && AllHex(s)
  }

  /** Two hex digits per byte, high nibble first, lower case. */
  function Encode(b: seq<Byte>): (s: string)
    ensures |s| == 2 * |b|
    ensures AllHex(s)
    ensures forall i :: 0 <= i < |s| ==> !Text.IsUpper(s[i])
  {
    if |b| == 0 then ""
    else [HexChar(b[0] / 16), HexChar(b[0] % 16)] + Encode(b[1..])
  }

  /** Reads pairs of hex digits (either case) as bytes. */
  function Decode(s: string): (b: seq<Byte>)
    requires |s| % 2 == 0 && AllHex(s)
    ensures 2 * |b| == |s|
  {
    if |s| == 0 then []
    else [16 * HexValue(s[0]) + HexValue(s[1]) as Byte] + Decode(s[2..])
  }

  /** Decoding what was encoded gives back the bytes. */
  lemma {:induction false} DecodeEncode(b: seq<Byte>)
    ensures Decode(Encode(b)) == b
  {
    if |b| > 0 {
      var s := Encode(b);
      assert s[2..] == Encode(b[1..]);
      DecodeEncode(b[1..]);
    }
  }

  /** Encoding what was decoded gives back the digits, folded to lower case. */
  lemma {:induction false} EncodeDecode(s: string)
    requires |s| % 2 == 0 && AllHex(s)
    ensures Encode(Decode(s)) == Text.Lower(s)
  {
    if |s| > 0 {
      EncodeDecode(s[2..]);
      var b := Decode(s);
      var v := 16 * HexValue(s[0]) + HexValue(s[1]);
      assert b[0] == v && b[1..] == Decode(s[2..]);
      assert v / 16 == HexValue(s[0]) && v % 16 == HexValue(s[1]);
      HexCharOfValue(s[0]);
      HexCharOfValue(s[1]);
      assert Text.Lower(s) == [Text.LowerChar(s[0]), Text.LowerChar(s[1])] + Text.Lower(s[2..]);
    }
  }

  /** `ObjectId(s)`: the identifier a valid string denotes; `None` where `ObjectId(s)` raises. */
  function Parse(s: string): (r: Option<ObjectId>)
    ensures r.Some? <==> IsValid(s)
    ensures r.Some? ==> ToString(r.value) == Text.Lower(s)
  {
    if IsValid(s) then
      EncodeDecode(s);
      Some(ObjectId(Decode(s)))
    else None
  }

  /** `str(oid)`: 24 lower-case hex digits. */
  function ToString(o: ObjectId): (s: string)
    ensures IsValid(s)
    ensures Text.Lower(s) == s
  {
    Encode(o.bytes)
  }

  /** An identifier survives the trip through its string form. */
  lemma ParseToString(o: ObjectId)
    ensures Parse(ToString(o)) == Some(o)
  {
    DecodeEncode(o.bytes);
  }

  /** Two valid strings denote the same identifier exactly when they differ only in letter case. */
  lemma ParseSameIffSameLower(s: string, t: string)
    requires IsValid(s) && IsValid(t)
    ensures Parse(s) == Parse(t) <==> Text.Lower(s) == Text.Lower(t)
  {
    if Text.Lower(s) == Text.Lower(t) {
      var o, p := Parse(s).value, Parse(t).value;
      ParseToString(o);
      ParseToString(p);
      assert Parse(ToString(o)) == Parse(ToString(p));
    }
  }
}
