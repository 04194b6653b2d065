/**
 * Store identifiers. An ObjectId is twelve bytes; its string form (Python's
 * `str(oid)`) is 24 lower-case hexadecimal digits, and `get_objectid` parses
 * a client string back, failing with 400 "Invalid ID format".
 */
module ObjectIds {
  import opened Wrappers

  type Byte = x: int | 0 <= x < 256
  type Nibble = x: int | 0 <= x < 16
  type IdBytes = s: seq<Byte> | |s| == 12 witness [0, 0, 0, 0, 0, 0, 0, 0, 0, 0, 0, 0]

  datatype ObjectId = ObjectId(bytes: IdBytes)

  predicate IsHexChar(c: char) {
    ('0' <= c <= '9') || ('a' <= c <= 'f') || ('A' <= c <= 'F')
  }

  function HexValue(c: char): (n: Nibble)
    requires IsHexChar(c)
  {
    if '0' <= c <= '9' then c as int - '0' as int
    else if 'a' <= c <= 'f' then c as int - 'a' as int + 10
    else c as int - 'A' as int + 10
  }

  function HexDigit(n: Nibble): (c: char)
    ensures IsHexChar(c) && HexValue(c) == n && !('A' <= c <= 'F')
  {
    if n < 10 then ('0' as int + n) as char else ('a' as int + n - 10) as char
  }

  /** Upper-case hexadecimal letters fold to lower case; everything else is kept. */
  function LowerHex(c: char): char {
    if 'A' <= c <= 'F' then (c as int - 'A' as int + 'a' as int) as char else c
  }

  function Lower(s: string): (r: string)
    ensures |r| == |s|
  {
    seq(|s|, i requires 0 <= i < |s| => LowerHex(s[i]))
  }

  /** What `ObjectId(s)` accepts for a string: exactly 24 hexadecimal digits. */
  predicate ValidId(s: string) {
    |s| == 24 && forall i | 0 <= i < 24 :: IsHexChar(s[i])
  }

  /** The j-th hex digit of an id, in the order `str` writes them. */
  function NibbleAt(bytes: IdBytes, j: int): Nibble
    requires 0 <= j < 24
  {
    if j % 2 == 0 then bytes[j / 2] / 16 else bytes[j / 2] % 16
  }

  lemma NibblesOfByte(bytes: IdBytes, i: int)
    requires 0 <= i < 12
    ensures NibbleAt(bytes, 2 * i) == bytes[i] / 16
    ensures NibbleAt(bytes, 2 * i + 1) == bytes[i] % 16
  {
  }

  /** The string form of an id: two lower-case hex digits per byte, high nibble first. */
  function IdString(o: ObjectId): (s: string)
    ensures ValidId(s)
    ensures forall i | 0 <= i < |s| :: !('A' <= s[i] <= 'F')
  {
    seq(24, j requires 0 <= j < 24 => HexDigit(NibbleAt(o.bytes, j)))
  }

  function ByteOf(hi: Nibble, lo: Nibble): (b: Byte)
    ensures b / 16 == hi && b % 16 == lo
  {
    16 * hi + lo
  }

  /** `get_objectid`: Some id exactly when the string is 24 hex digits; its string form is the input in lower case. */
  function ParseObjectId(s: string): (r: Option<ObjectId>)
    ensures r.Some? <==> ValidId(s)
    ensures r.Some? ==> IdString(r.value) == Lower(s)
  {
    if ValidId(s) then
      var o := ObjectId(seq(12, i requires 0 <= i < 12 => ByteOf(HexValue(s[2 * i]), HexValue(s[2 * i + 1]))));
      assert forall j | 0 <= j < 24 :: IdString(o)[j] == Lower(s)[j] by {
        forall j | 0 <= j < 24 ensures IdString(o)[j] == Lower(s)[j] {
          var k := j / 2;
          assert j == 2 * k || j == 2 * k + 1;
        }
      }
      Some(o)
    else None
  }

  /** Parsing the string form of an id gives that id back. */
  lemma {:induction false} ParseIdString(o: ObjectId)
    ensures ParseObjectId(IdString(o)) == Some(o)
  {
    var s := IdString(o);
    var p := ParseObjectId(s).value;
    forall i | 0 <= i < 12 ensures p.bytes[i] == o.bytes[i] {
      NibblesOfByte(o.bytes, i);
      assert p.bytes[i] == ByteOf(HexValue(s[2 * i]), HexValue(s[2 * i + 1]));
    }
    assert p.bytes == o.bytes;
  }

  /** The string view is injective: distinct ids never render alike. */
  lemma IdStringInjective(a: ObjectId, b: ObjectId)
    ensures IdString(a) == IdString(b) ==> a == b
  {
    ParseIdString(a);
    ParseIdString(b);
  }

  /** Two strings name the same id exactly when they agree up to the case of hex letters. */
  lemma {:induction false} ParseIgnoresCase(s: string, t: string)
    requires ValidId(s) && ValidId(t)
    ensures ParseObjectId(s) == ParseObjectId(t) <==> Lower(s) == Lower(t)
  {
    var a, b := ParseObjectId(s).value, ParseObjectId(t).value;
    if Lower(s) == Lower(t) {
      IdStringInjective(a, b);
    }
  }
}
