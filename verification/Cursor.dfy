/** Cursor tokens: unpadded URL-safe base64 (section 5 of RFC 4648) over eight little-endian bytes. */
module Cursor {
  import opened Values

  type byte = b: int | 0 <= b < 256

  // ----- The alphabet -----

  function Char64(v: nat): char
    requires v < 64
  {
    if v < 26 then ('A' as int + v) as char
    else if v < 52 then ('a' as int + (v - 26)) as char
    else if v < 62 then ('0' as int + (v - 52)) as char
    else if v == 62 then '-'
    else '_'
  }

  function Value64(c: char): (v: Option<nat>)
    ensures v.Some? ==> v.value < 64 && Char64(v.value) == c
  {
    if 'A' <= c <= 'Z' then Some(c as int - 'A' as int)
    else if 'a' <= c <= 'z' then Some(26 + (c as int - 'a' as int))
    else if '0' <= c <= '9' then Some(52 + (c as int - '0' as int))
    else if c == '-' then Some(62)
    else if c == '_' then Some(63)
    else None
  }

  lemma {:induction false} CharValue(v: nat)
    requires v < 64
    ensures Value64(Char64(v)) == Some(v)
  {
  }

  // ----- Base64 -----

  /** Three bytes become four characters; one or two bytes left over become two or three, with zero bits to fill. */
  function Encode(bs: seq<byte>): string {
    if bs == [] then ""
    else if |bs| == 1 then [Char64(bs[0] / 4), Char64(bs[0] % 4 * 16)]
    else if |bs| == 2 then
      [Char64(bs[0] / 4), Char64(bs[0] % 4 * 16 + bs[1] / 16), Char64(bs[1] % 16 * 4)]
    else
      [Char64(bs[0] / 4), Char64(bs[0] % 4 * 16 + bs[1] / 16), Char64(bs[1] % 16 * 4 + bs[2] / 64), Char64(bs[2] % 64)]
      + Encode(bs[3..])
  }

  /** Strict decoding: other characters, a lone last character and non-zero filling bits are refused. */
  function Decode(t: string): Option<seq<byte>> {
    if t == "" then Some([])
    else if |t| == 1 then None
    else
      var a, b := Value64(t[0]), Value64(t[1]);
      if a.None? || b.None? then None
      else if |t| == 2 then
        if b.value % 16 != 0 then None else Some([a.value * 4 + b.value / 16])
      else
        var c := Value64(t[2]);
        if c.None? then None
        else if |t| == 3 then
          if c.value % 4 != 0 then None
          else Some([a.value * 4 + b.value / 16, b.value % 16 * 16 + c.value / 4])
        else
          var d := Value64(t[3]);
          if d.None? then None
          else
            match Decode(t[4..])
            case None => None
            case Some(rest) =>
              Some([a.value * 4 + b.value / 16, b.value % 16 * 16 + c.value / 4, c.value % 4 * 64 + d.value] + rest)
  }

  lemma {:induction false} NoBytes()
    ensures Encode([]) == "" && Decode("") == Some([])
  {
  }

  lemma {:induction false} OneByte(x: byte)
    ensures Decode(Encode([x])) == Some([x])
  {
    CharValue(x / 4);
    CharValue(x % 4 * 16);
  }

  lemma {:induction false} TwoBytes(x: byte, y: byte)
    ensures Decode(Encode([x, y])) == Some([x, y])
  {
    var a, b, c := x / 4, x % 4 * 16 + y / 16, y % 16 * 4;
    hide Char64, Value64;
    CharValue(a);
    CharValue(b);
    CharValue(c);
    assert a * 4 + b / 16 == x && b % 16 * 16 + c / 4 == y && c % 4 == 0;
  }

  lemma {:induction false} ThreeBytes(x: byte, y: byte, z: byte, rest: seq<byte>)
    requires Decode(Encode(rest)) == Some(rest)
    ensures Decode(Encode([x, y, z] + rest)) == Some([x, y, z] + rest)
  {
    hide Char64, Value64;
    var a, b, c, d := x / 4, x % 4 * 16 + y / 16, y % 16 * 4 + z / 64, z % 64;
    CharValue(a);
    CharValue(b);
    CharValue(c);
    CharValue(d);
    var four := [Char64(a), Char64(b), Char64(c), Char64(d)];
    assert ([x, y, z] + rest)[3..] == rest;
    assert Encode([x, y, z] + rest) == four + Encode(rest);
    assert (four + Encode(rest))[4..] == Encode(rest);
    assert a * 4 + b / 16 == x && b % 16 * 16 + c / 4 == y && c % 4 * 64 + d == z;
  }

  /** Decoding undoes encoding, for every byte sequence. */
  lemma {:induction false} DecodeEncode(bs: seq<byte>)
    ensures Decode(Encode(bs)) == Some(bs)
  {
    hide Encode, Decode;
    if bs == [] {
      NoBytes();
    } else if |bs| == 1 {
      OneByte(bs[0]);
      assert bs == [bs[0]];
    } else if |bs| == 2 {
      TwoBytes(bs[0], bs[1]);
      assert bs == [bs[0], bs[1]];
    } else {
      DecodeEncode(bs[3..]);
      ThreeBytes(bs[0], bs[1], bs[2], bs[3..]);
      assert bs == [bs[0], bs[1], bs[2]] + bs[3..];
    }
  }

  lemma {:induction false} TwoChars(t: string)
    requires |t| == 2 && Decode(t).Some?
    ensures Encode(Decode(t).value) == t
  {
    hide Char64;
    var a, b := Value64(t[0]).value, Value64(t[1]).value;
    assert (a * 4 + b / 16) / 4 == a && (a * 4 + b / 16) % 4 * 16 == b;
  }

  lemma {:induction false} ThreeChars(t: string)
    requires |t| == 3 && Decode(t).Some?
    ensures Encode(Decode(t).value) == t
  {
    hide Char64;
    var a, b, c := Value64(t[0]).value, Value64(t[1]).value, Value64(t[2]).value;
    var x, y := a * 4 + b / 16, b % 16 * 16 + c / 4;
    assert x / 4 == a && x % 4 * 16 + y / 16 == b && y % 16 * 4 == c;
  }

  lemma {:induction false} FourChars(t: string)
    requires |t| > 3 && Decode(t).Some? && Encode(Decode(t[4..]).value) == t[4..]
    ensures Encode(Decode(t).value) == t
  {
    hide Char64;
    var a, b, c, d := Value64(t[0]).value, Value64(t[1]).value, Value64(t[2]).value, Value64(t[3]).value;
    var x, y, z := a * 4 + b / 16, b % 16 * 16 + c / 4, c % 4 * 64 + d;
    assert x / 4 == a && x % 4 * 16 + y / 16 == b && y % 16 * 4 + z / 64 == c && z % 64 == d;
    var rest := Decode(t[4..]).value;
    assert Decode(t).value == [x, y, z] + rest;
    assert ([x, y, z] + rest)[3..] == rest;
    assert t == [t[0], t[1], t[2], t[3]] + t[4..];
  }

  /** Only the encoding of a byte sequence decodes to it. */
  lemma {:induction false} EncodeDecode(t: string)
    requires Decode(t).Some?
    ensures Encode(Decode(t).value) == t
  {
    if |t| == 2 {
      TwoChars(t);
    } else if |t| == 3 {
      ThreeChars(t);
    } else if |t| > 3 {
      EncodeDecode(t[4..]);
      FourChars(t);
    }
  }

  lemma {:induction false} EncodedLength(bs: seq<byte>)
    ensures |Encode(bs)| == (4 * |bs| + 2) / 3
  {
    if |bs| > 2 {
      EncodedLength(bs[3..]);
    }
  }

  // ----- Little-endian integers -----

  function Pow256(k: nat): (p: nat)
    ensures p >= 1
  {
    if k == 0 then 1 else 256 * Pow256(k - 1)
  }

  function ToLittleEndian(n: nat, k: nat): (bs: seq<byte>)
    ensures |bs| == k
  {
    if k == 0 then [] else [n % 256] + ToLittleEndian(n / 256, k - 1)
  }

  function FromLittleEndian(bs: seq<byte>): nat {
    if bs == [] then 0 else bs[0] + 256 * FromLittleEndian(bs[1..])
  }

  lemma {:induction false} LittleEndianRoundTrip(n: nat, k: nat)
    requires n < Pow256(k)
    ensures FromLittleEndian(ToLittleEndian(n, k)) == n
  {
    if k > 0 {
      LittleEndianRoundTrip(n / 256, k - 1);
      assert ToLittleEndian(n, k)[1..] == ToLittleEndian(n / 256, k - 1);
    }
  }

  lemma {:induction false} LittleEndianUnique(bs: seq<byte>)
    ensures FromLittleEndian(bs) < Pow256(|bs|)
    ensures ToLittleEndian(FromLittleEndian(bs), |bs|) == bs
  {
    if bs != [] {
      LittleEndianUnique(bs[1..]);
      LowByte(bs[0], FromLittleEndian(bs[1..]));
    }
  }

  lemma {:induction false} LowByte(x: byte, n: nat)
    ensures (x + 256 * n) % 256 == x && (x + 256 * n) / 256 == n
  {
  }

  // ----- Cursors -----

  const TWO_63: int := 0x8000_0000_0000_0000
  const TWO_64: int := 0x1_0000_0000_0000_0000

  type i64 = n: int | -TWO_63 <= n < TWO_63

  function EncodeCursor(id: i64): string {
    Encode(ToLittleEndian(id % TWO_64, 8))
  }

  /** Bytes after the first eight are ignored; fewer than eight are an error. */
  function DecodeCursor(token: string): (id: Option<i64>) {
    match Decode(token)
    case None => None
    case Some(bs) =>
      if |bs| < 8 then None
      else
        LittleEndianUnique(bs[..8]);
        PowEight();
        var n := FromLittleEndian(bs[..8]);
        Some(if n < TWO_63 then n else n - TWO_64)
  }

  lemma {:induction false} PowEight()
    ensures Pow256(8) == TWO_64
  {
    assert Pow256(4) == 0x1_0000_0000;
  }

  /** Every 64-bit integer survives its cursor token. */
  lemma {:induction false} CursorRoundTrip(id: i64)
    ensures DecodeCursor(EncodeCursor(id)) == Some(id)
  {
    hide Encode, Decode, ToLittleEndian, FromLittleEndian, Pow256;
    var bs := ToLittleEndian(id % TWO_64, 8);
    DecodeEncode(bs);
    PowEight();
    LittleEndianRoundTrip(id % TWO_64, 8);
    assert bs[..8] == bs;
  }

  /** A token that decodes is the one issued for its integer exactly when it has eleven characters. */
  lemma {:induction false} CanonicalIff(token: string)
    requires DecodeCursor(token).Some?
    ensures token == EncodeCursor(DecodeCursor(token).value) <==> |token| == 11
  {
    hide Encode, Decode, ToLittleEndian, FromLittleEndian, Pow256;
    var bs := Decode(token).value;
    var id := DecodeCursor(token).value;
    EncodeDecode(token);
    EncodedLength(bs);
    EncodedLength(ToLittleEndian(id % TWO_64, 8));
    if |bs| == 8 {
      PowEight();
      LittleEndianUnique(bs);
      assert bs[..8] == bs;
      assert id % TWO_64 == FromLittleEndian(bs);
    }
  }
}
