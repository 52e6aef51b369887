/**
 * The application/x-www-form-urlencoded serialisation `URLSearchParams.toString()`
 * performs (WHATWG URL Standard, section 5.2, "application/x-www-form-urlencoded
 * serializing"): each name and value is encoded as UTF-8, the space becomes `+`, the
 * bytes of `*`, `-`, `.`, `_`, the digits and the ASCII letters stay as they are, and
 * every other byte becomes `%` and two upper-case hex digits; pairs are written
 * `name=value` and joined with `&`.
 */
module FormEncoding {
  import opened Text

  predicate IsByte(b: int) {
    0 <= b < 256
  }

  predicate AllBytes(bs: seq<int>) {
    forall i :: 0 <= i < |bs| ==> IsByte(bs[i])
  }

  /** The UTF-8 encoding of one character. */
  function Utf8(c: char): (bytes: seq<int>)
    ensures 1 <= |bytes| <= 4
    ensures AllBytes(bytes)
    ensures c as int < 0x80 <==> bytes == [c as int]
  {
    var n := c as int;
    if n < 0x80 then [n]
    else if n < 0x800 then [0xC0 + n / 64, 0x80 + n % 64]
    else if n < 0x10000 then [0xE0 + n / 4096, 0x80 + (n / 64) % 64, 0x80 + n % 64]
    else [0xF0 + (n / 262144) % 8, 0x80 + (n / 4096) % 64, 0x80 + (n / 64) % 64, 0x80 + n % 64]
  }

  /** The UTF-8 encoding of a string. */
  function Utf8Bytes(s: string): (bytes: seq<int>)
    ensures AllBytes(bytes)
    decreases |s|
  {
    if s == [] then [] else Utf8(s[0]) + Utf8Bytes(s[1..])
  }

  /** The bytes the serialiser writes as themselves. */
  predicate Unreserved(b: int) {
    || b == 0x2A || b == 0x2D || b == 0x2E || b == 0x5F
    || 0x30 <= b <= 0x39 || 0x41 <= b <= 0x5A || 0x61 <= b <= 0x7A
  }

  function HexDigit(d: int): char
    requires 0 <= d < 16
  {
    if d < 10 then (48 + d) as char else (55 + d) as char
  }

  function HexValue(c: char): int {
    if '0' <= c <= '9' then c as int - 48
    else if 'A' <= c <= 'F' then c as int - 55
    else if 'a' <= c <= 'f' then c as int - 87
    else 0
  }

  /** One byte as the serialiser writes it. */
  function EncodeByte(b: int): (s: string)
    requires IsByte(b)
    ensures 1 <= |s| <= 3
  {
    if b == 0x20 then "+"
    else if Unreserved(b) then [b as char]
    else ['%', HexDigit(b / 16), HexDigit(b % 16)]
  }

  function EncodeBytes(bs: seq<int>): string
    requires AllBytes(bs)
    decreases |bs|
  {
    if bs == [] then "" else EncodeByte(bs[0]) + EncodeBytes(bs[1..])
  }

  /** The serialisation of one name or value. */
  function Encode(s: string): string {
    EncodeBytes(Utf8Bytes(s))
  }

  /** A character the serialiser can write: `+`, `%`, an upper-case hex digit or an
      unreserved character. */
  predicate Written(c: char) {
    c == '+' || c == '%' || ('0' <= c <= '9') || ('A' <= c <= 'F') || Unreserved(c as int)
  }

  /** The percent-decoding that reads a serialised name or value back into bytes. */
  function DecodeBytes(s: string): seq<int>
    decreases |s|
  {
    if s == [] then []
    else if s[0] == '+' then [0x20] + DecodeBytes(s[1..])
    else if s[0] == '%' && |s| >= 3 then [HexValue(s[1]) * 16 + HexValue(s[2])] + DecodeBytes(s[3..])
    else [s[0] as int] + DecodeBytes(s[1..])
  }

  lemma EncodeByteWritten(b: int)
    requires IsByte(b)
    ensures forall i :: 0 <= i < |EncodeByte(b)| ==> Written(EncodeByte(b)[i])
  {
  }

  /** Decoding one serialised byte followed by anything gives the byte first. */
  lemma DecodeAfterByte(b: int, rest: string)
    requires IsByte(b)
    ensures DecodeBytes(EncodeByte(b) + rest) == [b] + DecodeBytes(rest)
  {
    var s := EncodeByte(b) + rest;
    if b == 0x20 {
      assert s[1..] == rest;
    } else if Unreserved(b) {
      assert s[0] == b as char;
      assert s[1..] == rest;
    } else {
      assert s[0] == '%';
      assert HexValue(HexDigit(b / 16)) == b / 16;
      assert HexValue(HexDigit(b % 16)) == b % 16;
      assert s[3..] == rest;
    }
  }

  /** Every serialised byte sequence decodes back to itself. */
  lemma {:induction false} DecodeEncodeBytes(bs: seq<int>)
    requires AllBytes(bs)
    ensures DecodeBytes(EncodeBytes(bs)) == bs
    decreases |bs|
  {
    if bs != [] {
      DecodeAfterByte(bs[0], EncodeBytes(bs[1..]));
      DecodeEncodeBytes(bs[1..]);
      assert bs == [bs[0]] + bs[1..];
    }
  }

  /** The serialisation writes only characters of its alphabet. */
  lemma {:induction false} EncodeBytesWritten(bs: seq<int>)
    requires AllBytes(bs)
    ensures forall i :: 0 <= i < |EncodeBytes(bs)| ==> Written(EncodeBytes(bs)[i])
    decreases |bs|
  {
    if bs != [] {
      EncodeByteWritten(bs[0]);
      EncodeBytesWritten(bs[1..]);
      var head, tail := EncodeByte(bs[0]), EncodeBytes(bs[1..]);
      forall i | 0 <= i < |head + tail| ensures Written((head + tail)[i]) {
        if i >= |head| {
          assert (head + tail)[i] == tail[i - |head|];
        }
      }
    }
  }

  /** A serialised name or value never holds the `&` and `=` that delimit pairs, and it
      decodes back to the UTF-8 bytes of the original. */
  lemma EncodeSpec(s: string)
    ensures '&' !in Encode(s) && '=' !in Encode(s)
    ensures DecodeBytes(Encode(s)) == Utf8Bytes(s)
  {
    EncodeBytesWritten(Utf8Bytes(s));
    DecodeEncodeBytes(Utf8Bytes(s));
  }

  /** A space becomes `+` and a letter stands for itself. */
  lemma EncodeSpace()
    ensures Encode("a b") == "a+b"
  {
    assert Utf8Bytes("a b") == [0x61, 0x20, 0x62] by {
      assert Utf8Bytes("b") == [0x62];
      assert Utf8Bytes(" b") == [0x20, 0x62];
    }
    assert EncodeBytes([0x62]) == "b";
    assert EncodeBytes([0x20, 0x62]) == "+b";
  }

  /** `&` is escaped. */
  lemma EncodeAmpersand()
    ensures Encode("&") == "%26"
  {
    assert Utf8Bytes("&") == [0x26];
    assert EncodeByte(0x26) == "%26";
  }

  /** A character outside ASCII is written as its UTF-8 bytes. */
  lemma EncodeNonAscii()
    ensures Encode("ñ") == "%C3%B1"
  {
    assert Utf8('ñ') == [0xC3, 0xB1];
    assert Utf8Bytes("ñ") == [0xC3, 0xB1];
    assert EncodeByte(0xB1) == "%B1";
    assert EncodeByte(0xC3) == "%C3";
    assert EncodeBytes([0xB1]) == "%B1";
  }

  /** `name=value`. */
  function EncodePair(name: string, value: string): string {
    Encode(name) + "=" + Encode(value)
  }

  function EncodedPairs(pairs: seq<(string, string)>): (parts: seq<string>)
    ensures |parts| == |pairs|
  {
    seq(|pairs|, i requires 0 <= i < |pairs| => EncodePair(pairs[i].0, pairs[i].1))
  }

  /** `URLSearchParams.toString()` for the given pairs, in order. */
  function Serialize(pairs: seq<(string, string)>): string {
    if pairs == [] then "" else Join(EncodedPairs(pairs), '&')
  }

  lemma PairSplits(name: string, value: string)
    ensures '&' !in EncodePair(name, value)
    ensures Split(EncodePair(name, value), '=') == [Encode(name), Encode(value)]
  {
    EncodeSpec(name);
    EncodeSpec(value);
    SplitJoin([Encode(name), Encode(value)], '=');
    assert Join([Encode(name), Encode(value)], '=') == EncodePair(name, value);
  }

  /** The serialisation is empty exactly when there are no pairs; otherwise splitting it
      at `&` gives one part per pair, in order, and each part splits at `=` into the
      serialised name and value. */
  lemma SerializeSpec(pairs: seq<(string, string)>)
    ensures Serialize(pairs) == "" <==> pairs == []
    ensures pairs != [] ==> Split(Serialize(pairs), '&') == EncodedPairs(pairs)
    ensures forall i :: 0 <= i < |pairs| ==>
      Split(EncodedPairs(pairs)[i], '=') == [Encode(pairs[i].0), Encode(pairs[i].1)]
  {
    var parts := EncodedPairs(pairs);
    forall i | 0 <= i < |pairs|
      ensures '&' !in parts[i]
      ensures Split(parts[i], '=') == [Encode(pairs[i].0), Encode(pairs[i].1)]
    {
      PairSplits(pairs[i].0, pairs[i].1);
    }
    if pairs != [] {
      SplitJoin(parts, '&');
      JoinLength(parts, '&');
      assert '=' in parts[0];
    }
  }

  lemma {:induction false} JoinLength(parts: seq<string>, sep: char)
    requires |parts| >= 1
    ensures |Join(parts, sep)| >= |parts[0]|
  {
  }
}
