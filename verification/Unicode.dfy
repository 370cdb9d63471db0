/** Code points, the strict UTF-8 codec, and the UTF-16 code units RFC 8785 sorts object keys by. */
module Unicode {
  import opened Common

  type Byte = b: int | 0 <= b < 256
  type CodePoint = c: int | 0 <= c <= 0x10FFFF
  type Text = seq<CodePoint>

  predicate IsSurrogate(c: CodePoint) {
    0xD800 <= c <= 0xDFFF
  }

  predicate NoSurrogates(t: Text) {
    forall c :: c in t ==> !IsSurrogate(c)
  }

  // ----- UTF-8

  function EncodeChar(c: CodePoint): seq<Byte> {
    if c < 0x80 then [c]
    else if c < 0x800 then [0xC0 + c / 64, 0x80 + c % 64]
    else if c < 0x10000 then [0xE0 + c / 4096, 0x80 + c / 64 % 64, 0x80 + c % 64]
    else [0xF0 + c / 262144, 0x80 + c / 4096 % 64, 0x80 + c / 64 % 64, 0x80 + c % 64]
  }

  function EncodeUtf8(t: Text): seq<Byte> {
    if t == [] then [] else EncodeChar(t[0]) + EncodeUtf8(t[1..])
  }

  predicate IsContinuation(b: Byte) {
    0x80 <= b < 0xC0
  }

  /** The six payload bits of a continuation byte. */
  function Bits(b: Byte): int {
    b - 0x80
  }

  /** The character at the front of `raw` and how many bytes it takes; None when no strict decoding exists. */
  function DecodeChar(raw: seq<Byte>): (r: Option<(CodePoint, nat)>)
    requires raw != []
    ensures r.Some? ==> 1 <= r.value.1 <= |raw|
  {
    var b: int := raw[0];
    if b < 0x80 then Some((b, 1))
    else if 0xC2 <= b < 0xE0 then
      if |raw| >= 2 && IsContinuation(raw[1]) then Some(((b - 0xC0) * 64 + Bits(raw[1]), 2)) else None
    else if 0xE0 <= b < 0xF0 then
      if |raw| >= 3 && IsContinuation(raw[1]) && IsContinuation(raw[2]) then
        var c: int := (b - 0xE0) * 4096 + Bits(raw[1]) * 64 + Bits(raw[2]);
        if c < 0x800 || IsSurrogate(c) then None else Some((c, 3))
      else None
    else if 0xF0 <= b < 0xF5 then
      if |raw| >= 4 && IsContinuation(raw[1]) && IsContinuation(raw[2]) && IsContinuation(raw[3]) then
        var c: int := (b - 0xF0) * 262144 + Bits(raw[1]) * 4096 + Bits(raw[2]) * 64 + Bits(raw[3]);
        if c < 0x10000 || c > 0x10FFFF then None else Some((c, 4))
      else None
    else None
  }

  function DecodeUtf8(raw: seq<Byte>): Option<Text> {
    if raw == [] then Some([]) else
      match DecodeChar(raw)
      case None => None
      case Some((c, n)) =>
        match DecodeUtf8(raw[n..])
        case None => None
        case Some(rest) => Some([c] + rest)
  }

  /** A code point is put together again from its six-bit groups. */
  lemma SixBitGroups(c: CodePoint)
    ensures c == c / 64 * 64 + c % 64
    ensures c == c / 4096 * 4096 + c / 64 % 64 * 64 + c % 64
    ensures c == c / 262144 * 262144 + c / 4096 % 64 * 4096 + c / 64 % 64 * 64 + c % 64
  {
  }

  lemma DecodeEncodedChar(c: CodePoint, rest: seq<Byte>)
    requires !IsSurrogate(c)
    ensures DecodeChar(EncodeChar(c) + rest) == Some((c, |EncodeChar(c)|))
  {
    var code := EncodeChar(c);
    var raw := code + rest;
    SixBitGroups(c);
    if c < 0x80 {
      assert raw[0] == c;
    } else if c < 0x800 {
      assert raw[0] == code[0] && raw[1] == code[1];
    } else if c < 0x10000 {
      assert raw[0] == code[0] && raw[1] == code[1] && raw[2] == code[2];
    } else {
      assert raw[0] == code[0] && raw[1] == code[1] && raw[2] == code[2] && raw[3] == code[3];
    }
  }

  lemma {:induction false} DecodeEncoded(t: Text)
    requires NoSurrogates(t)
    ensures DecodeUtf8(EncodeUtf8(t)) == Some(t)
    decreases |t|
  {
    if t != [] {
      var head, tail := EncodeChar(t[0]), EncodeUtf8(t[1..]);
      DecodeEncodedChar(t[0], tail);
      assert (head + tail)[|head|..] == tail;
      DecodeEncoded(t[1..]);
      assert [t[0]] + t[1..] == t;
    }
  }

  /** Six-bit groups in range are the quotients and remainders of what they add up to. */
  lemma GroupsAreUnique(x: int, y: int, z: int, w: int)
    requires x >= 0 && 0 <= y < 64 && 0 <= z < 64 && 0 <= w < 64
    ensures var c := x * 262144 + y * 4096 + z * 64 + w;
            c / 262144 == x && c / 4096 % 64 == y && c / 64 % 64 == z && c % 64 == w
  {
    var c := x * 262144 + y * 4096 + z * 64 + w;
    Group(x * 4096 + y * 64 + z, w);
    Group(x * 64 + y, z);
    Group(x, y);
    assert c / 64 == x * 4096 + y * 64 + z;
    assert c / 4096 == c / 64 / 64;
    assert c / 262144 == c / 64 / 64 / 64;
  }

  lemma Group(high: int, low: int)
    requires 0 <= low < 64
    ensures (high * 64 + low) / 64 == high && (high * 64 + low) % 64 == low
  {
  }

  lemma EncodeDecodedChar(raw: seq<Byte>)
    requires raw != [] && DecodeChar(raw).Some?
    ensures !IsSurrogate(DecodeChar(raw).value.0)
    ensures EncodeChar(DecodeChar(raw).value.0) == raw[..DecodeChar(raw).value.1]
  {
    var b: int := raw[0];
    if b < 0x80 {
    } else if b < 0xE0 {
      GroupsAreUnique(0, 0, b - 0xC0, Bits(raw[1]));
    } else if b < 0xF0 {
      GroupsAreUnique(0, b - 0xE0, Bits(raw[1]), Bits(raw[2]));
    } else {
      GroupsAreUnique(b - 0xF0, Bits(raw[1]), Bits(raw[2]), Bits(raw[3]));
    }
  }

  lemma EncodeCons(c: CodePoint, t: Text)
    ensures EncodeUtf8([c] + t) == EncodeChar(c) + EncodeUtf8(t)
    ensures NoSurrogates([c] + t) <==> !IsSurrogate(c) && NoSurrogates(t)
  {
    assert ([c] + t)[1..] == t;
    assert c in [c] + t;
  }

  lemma DecodeCons(raw: seq<Byte>) returns (c: CodePoint, n: nat, rest: Text)
    requires raw != [] && DecodeUtf8(raw).Some?
    ensures 1 <= n <= |raw| && EncodeChar(c) == raw[..n] && !IsSurrogate(c)
    ensures DecodeUtf8(raw[n..]) == Some(rest) && DecodeUtf8(raw) == Some([c] + rest)
  {
    EncodeDecodedChar(raw);
    c, n := DecodeChar(raw).value.0, DecodeChar(raw).value.1;
    rest := DecodeUtf8(raw[n..]).value;
  }

  /** The strict decoder accepts nothing but encodings of surrogate-free text. */
  lemma {:induction false} EncodeDecoded(raw: seq<Byte>)
    requires DecodeUtf8(raw).Some?
    ensures NoSurrogates(DecodeUtf8(raw).value) && EncodeUtf8(DecodeUtf8(raw).value) == raw
    decreases |raw|
  {
    if raw != [] {
      var c, n, rest := DecodeCons(raw);
      EncodeDecoded(raw[n..]);
      EncodeCons(c, rest);
      assert raw[..n] + raw[n..] == raw;
    }
  }

  // ----- lexicographic order

  /** Strict lexicographic order; a proper prefix comes first. */
  predicate LexLess(a: seq<int>, b: seq<int>) {
    if b == [] then false
    else if a == [] then true
    else if a[0] != b[0] then a[0] < b[0]
    else LexLess(a[1..], b[1..])
  }

  lemma {:induction false} LexTotal(a: seq<int>, b: seq<int>)
    ensures a == b || LexLess(a, b) || LexLess(b, a)
    ensures LexLess(a, b) ==> !LexLess(b, a) && a != b
    decreases |a| + |b|
  {
    if a != [] && b != [] && a[0] == b[0] {
      LexTotal(a[1..], b[1..]);
      assert a == [a[0]] + a[1..] && b == [b[0]] + b[1..];
    }
  }

  lemma {:induction false} LexTransitive(a: seq<int>, b: seq<int>, c: seq<int>)
    requires LexLess(a, b) && LexLess(b, c)
    ensures LexLess(a, c)
    decreases |b|
  {
    if a != [] && a[0] == b[0] == c[0] {
      LexTransitive(a[1..], b[1..], c[1..]);
    }
  }

  // ----- UTF-16

  type CodeUnit = u: int | 0 <= u < 0x10000

  function CharUnits(c: CodePoint): seq<CodeUnit> {
    if c < 0x10000 then [c]
    else [0xD800 + (c - 0x10000) / 1024, 0xDC00 + (c - 0x10000) % 1024]
  }

  function Utf16Units(t: Text): seq<CodeUnit> {
    if t == [] then [] else CharUnits(t[0]) + Utf16Units(t[1..])
  }

  /** Big-endian bytes of code units. */
  function BigEndian(units: seq<CodeUnit>): seq<Byte> {
    if units == [] then [] else [units[0] / 256, units[0] % 256] + BigEndian(units[1..])
  }

  function Utf16Be(t: Text): seq<Byte> {
    BigEndian(Utf16Units(t))
  }

  /** Comparing big-endian bytes compares code units. */
  lemma {:induction false} ByteOrderIsUnitOrder(a: seq<CodeUnit>, b: seq<CodeUnit>)
    ensures LexLess(BigEndian(a), BigEndian(b)) <==> LexLess(a, b)
    decreases |a|
  {
    if a != [] && b != [] {
      var x, y := BigEndian(a), BigEndian(b);
      assert x[1..][1..] == BigEndian(a[1..]) && y[1..][1..] == BigEndian(b[1..]);
      assert x[0] == a[0] / 256 && x[1..][0] == a[0] % 256;
      assert y[0] == b[0] / 256 && y[1..][0] == b[0] % 256;
      ByteOrderIsUnitOrder(a[1..], b[1..]);
    }
  }

  lemma {:induction false} UnitsInjective(s: Text, t: Text)
    requires NoSurrogates(s) && NoSurrogates(t) && Utf16Units(s) == Utf16Units(t)
    ensures s == t
    decreases |s|
  {
    if s != [] {
      var u := Utf16Units(s);
      assert u[0] == CharUnits(s[0])[0] && u[0] == CharUnits(t[0])[0];
      assert s[0] in s && t[0] in t;
      assert |CharUnits(s[0])| == |CharUnits(t[0])|;
      if |CharUnits(s[0])| == 2 {
        assert u[1] == CharUnits(s[0])[1] && u[1] == CharUnits(t[0])[1];
      }
      assert s[0] == t[0];
      var n := |CharUnits(s[0])|;
      assert u[n..] == Utf16Units(s[1..]) && u[n..] == Utf16Units(t[1..]);
      UnitsInjective(s[1..], t[1..]);
      assert s == [s[0]] + s[1..] && t == [t[0]] + t[1..];
    }
  }

  /** Distinct surrogate-free keys have distinct sort keys, ordered as their code units. */
  lemma Utf16OrderIsTotal(s: Text, t: Text)
    requires NoSurrogates(s) && NoSurrogates(t)
    ensures s == t || LexLess(Utf16Be(s), Utf16Be(t)) || LexLess(Utf16Be(t), Utf16Be(s))
    ensures LexLess(Utf16Be(s), Utf16Be(t)) <==> LexLess(Utf16Units(s), Utf16Units(t))
  {
    ByteOrderIsUnitOrder(Utf16Units(s), Utf16Units(t));
    ByteOrderIsUnitOrder(Utf16Units(t), Utf16Units(s));
    LexTotal(Utf16Units(s), Utf16Units(t));
    if Utf16Units(s) == Utf16Units(t) {
      UnitsInjective(s, t);
    }
  }
}
