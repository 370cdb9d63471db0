/**
 The strict JSON reader: RFC 8259 grammar over decoded UTF-8, rejecting duplicate keys,
 non-finite constants and everything outside the canonical domain.
 */
module JsonReader {
  import opened Common
  import opened Unicode
  import opened CanonicalJson

  datatype ReadError = NotUtf8 | Malformed | DuplicateKey | UnsupportedConstant | NotCanonical(first: Located)

  datatype Parsed<+T> = Parsed(value: T, rest: Text) | Failed(error: ReadError)

  predicate IsSpace(c: CodePoint) {
    c == 32 || c == 9 || c == 10 || c == 13
  }

  predicate IsDigit(c: CodePoint) {
    48 <= c <= 57
  }

  function SkipSpace(t: Text): (rest: Text)
    ensures |rest| <= |t|
  {
    if t != [] && IsSpace(t[0]) then SkipSpace(t[1..]) else t
  }

  predicate StartsWith(t: Text, c: CodePoint) {
    t != [] && t[0] == c
  }

  // ----- strings

  function HexValue(c: CodePoint): Option<int> {
    if IsDigit(c) then Some(c - 48)
    else if 97 <= c <= 102 then Some(c - 87)
    else if 65 <= c <= 70 then Some(c - 55)
    else None
  }

  /** Four hexadecimal digits at the front of `t`. */
  function Hex4(t: Text): (r: Option<int>)
    ensures r.Some? ==> |t| >= 4 && 0 <= r.value < 0x10000
  {
    if |t| < 4 then None else
      match (HexValue(t[0]), HexValue(t[1]), HexValue(t[2]), HexValue(t[3]))
      case (Some(a), Some(b), Some(c), Some(d)) => Some(a * 4096 + b * 256 + c * 16 + d)
      case _ => None
  }

  /** One escape after its backslash; a high surrogate joins a low one that follows it. */
  function ParseEscape(t: Text): (r: Parsed<CodePoint>)
    ensures r.Parsed? ==> |r.rest| < |t|
  {
    if t == [] then Failed(Malformed)
    else if t[0] == 34 || t[0] == 92 || t[0] == 47 then Parsed(t[0], t[1..])
    else if t[0] == 98 then Parsed(8, t[1..])
    else if t[0] == 102 then Parsed(12, t[1..])
    else if t[0] == 110 then Parsed(10, t[1..])
    else if t[0] == 114 then Parsed(13, t[1..])
    else if t[0] == 116 then Parsed(9, t[1..])
    else if t[0] == 117 then
      match Hex4(t[1..])
      case None => Failed(Malformed)
      case Some(u) =>
        var rest := t[5..];
        if 0xD800 <= u < 0xDC00 && |rest| >= 6 && rest[0] == 92 && rest[1] == 117
           && Hex4(rest[2..]).Some? && 0xDC00 <= Hex4(rest[2..]).value < 0xE000
        then Parsed(0x10000 + (u - 0xD800) * 1024 + (Hex4(rest[2..]).value - 0xDC00), rest[6..])
        else Parsed(u, rest)
    else Failed(Malformed)
  }

  /** The characters up to and including the closing quote. */
  function ParseChars(t: Text): (r: Parsed<Text>)
    ensures r.Parsed? ==> |r.rest| < |t|
    decreases |t|
  {
    if t == [] || t[0] < 32 then Failed(Malformed)
    else if t[0] == 34 then Parsed([], t[1..])
    else if t[0] == 92 then
      match ParseEscape(t[1..])
      case Failed(e) => Failed(e)
      case Parsed(c, rest) =>
        match ParseChars(rest)
        case Failed(e) => Failed(e)
        case Parsed(more, rest') => Parsed([c] + more, rest')
    else
      match ParseChars(t[1..])
      case Failed(e) => Failed(e)
      case Parsed(more, rest) => Parsed([t[0]] + more, rest)
  }

  // ----- numbers

  function DigitCount(t: Text): (n: nat)
    ensures n <= |t| && forall i :: 0 <= i < n ==> IsDigit(t[i])
  {
    if t != [] && IsDigit(t[0]) then 1 + DigitCount(t[1..]) else 0
  }

  function DigitsValue(d: Text): int {
    if d == [] then 0 else
      var last: int := d[|d| - 1];
      DigitsValue(d[..|d| - 1]) * 10 + (last - 48)
  }

  /** Length of a fraction `.digits`, or 0. */
  function FractionLength(t: Text): (n: nat)
    ensures n <= |t|
  {
    if StartsWith(t, 46) && DigitCount(t[1..]) > 0 then 1 + DigitCount(t[1..]) else 0
  }

  /** Length of an exponent, or 0. */
  function ExponentLength(t: Text): (n: nat)
    ensures n <= |t|
  {
    if StartsWith(t, 101) || StartsWith(t, 69) then
      var signed := if StartsWith(t[1..], 43) || StartsWith(t[1..], 45) then 2 else 1;
      if DigitCount(t[signed..]) > 0 then signed + DigitCount(t[signed..]) else 0
    else 0
  }

  /** A number after its sign. */
  function ParseUnsigned(body: Text, negative: bool): (r: Parsed<Json>)
    ensures r.Parsed? ==> |r.rest| < |body| && (r.value.Integer? || r.value.Float?)
  {
    var n := if StartsWith(body, 48) then 1 else DigitCount(body);
    if n == 0 then Failed(Malformed) else
      var afterInteger := body[n..];
      var afterFraction := afterInteger[FractionLength(afterInteger)..];
      var after := afterFraction[ExponentLength(afterFraction)..];
      if |after| < |afterInteger| then Parsed(Float, after)
      else Parsed(Integer(if negative then -DigitsValue(body[..n]) else DigitsValue(body[..n])), afterInteger)
  }

  function ParseNumber(t: Text): (r: Parsed<Json>)
    ensures r.Parsed? ==> |r.rest| < |t| && (r.value.Integer? || r.value.Float?)
  {
    if StartsWith(t, 45) then ParseUnsigned(t[1..], true) else ParseUnsigned(t, false)
  }

  const INFINITY_TEXT: Text := [73, 110, 102, 105, 110, 105, 116, 121]
  const NAN_TEXT: Text := [78, 97, 78]

  /** A literal, a refused non-finite constant, or a number. */
  function ParseAtom(t: Text): (r: Parsed<Json>)
    ensures r.Parsed? ==> |r.rest| < |t| && Shaped(r.value)
  {
    if NULL_TEXT <= t then Parsed(Null, t[4..])
    else if TRUE_TEXT <= t then Parsed(Boolean(true), t[4..])
    else if FALSE_TEXT <= t then Parsed(Boolean(false), t[5..])
    else if NAN_TEXT <= t || INFINITY_TEXT <= t || [45] + INFINITY_TEXT <= t then Failed(UnsupportedConstant)
    else ParseNumber(t)
  }

  // ----- values

  function ParseValue(t: Text): (r: Parsed<Json>)
    ensures r.Parsed? ==> |r.rest| < |t| && Shaped(r.value)
    decreases |t|, 0
  {
    if t == [] then Failed(Malformed)
    else if t[0] == 34 then
      match ParseChars(t[1..])
      case Failed(e) => Failed(e)
      case Parsed(s, rest) => Parsed(String(s), rest)
    else if t[0] == 123 then
      var inside := SkipSpace(t[1..]);
      if StartsWith(inside, 125) then Parsed(Object([]), inside[1..]) else
        match ParseMembers(inside)
        case Failed(e) => Failed(e)
        case Parsed(fields, rest) => if UniqueKeys(fields) then Parsed(Object(fields), rest) else Failed(DuplicateKey)
    else if t[0] == 91 then
      var inside := SkipSpace(t[1..]);
      if StartsWith(inside, 93) then Parsed(List([]), inside[1..]) else
        match ParseElements(inside)
        case Failed(e) => Failed(e)
        case Parsed(items, rest) => Parsed(List(items), rest)
    else ParseAtom(t)
  }

  /** Array elements up to and including the closing bracket. */
  function ParseElements(t: Text): (r: Parsed<seq<Json>>)
    ensures r.Parsed? ==> |r.rest| < |t| && forall i :: 0 <= i < |r.value| ==> Shaped(r.value[i])
    decreases |t|, 1
  {
    match ParseValue(t)
    case Failed(e) => Failed(e)
    case Parsed(v, afterValue) =>
      var next := SkipSpace(afterValue);
      if StartsWith(next, 93) then Parsed([v], next[1..])
      else if StartsWith(next, 44) then
        match ParseElements(SkipSpace(next[1..]))
        case Failed(e) => Failed(e)
        case Parsed(more, rest) => Parsed([v] + more, rest)
      else Failed(Malformed)
  }

  /** Object members up to and including the closing brace. */
  function ParseMembers(t: Text): (r: Parsed<seq<Field>>)
    ensures r.Parsed? ==> |r.rest| < |t| && forall i :: 0 <= i < |r.value| ==> Shaped(r.value[i].value)
    decreases |t|, 1
  {
    if !StartsWith(t, 34) then Failed(Malformed) else
      match ParseChars(t[1..])
      case Failed(e) => Failed(e)
      case Parsed(key, afterKey) =>
        var colon := SkipSpace(afterKey);
        if !StartsWith(colon, 58) then Failed(Malformed) else
          match ParseValue(SkipSpace(colon[1..]))
          case Failed(e) => Failed(e)
          case Parsed(v, afterValue) =>
            var next := SkipSpace(afterValue);
            if StartsWith(next, 125) then Parsed([Field(key, v)], next[1..])
            else if StartsWith(next, 44) then
              match ParseMembers(SkipSpace(next[1..]))
              case Failed(e) => Failed(e)
              case Parsed(more, rest) => Parsed([Field(key, v)] + more, rest)
            else Failed(Malformed)
  }

  /** Fills a dictionary from parsed members and stops at the first repeated key. */
  method UniqueObject(pairs: seq<Field>) returns (result: Option<seq<Field>>)
    ensures result == if UniqueKeys(pairs) then Some(pairs) else None
  {
    var filled: seq<Field> := [];
    for i := 0 to |pairs|
      invariant filled == pairs[..i] && UniqueKeys(filled)
    {
      if exists k :: 0 <= k < |filled| && filled[k].key == pairs[i].key {
        return None;
      }
      assert pairs[..i + 1] == filled + [pairs[i]];
      filled := filled + [pairs[i]];
    }
    assert pairs[..|pairs|] == pairs;
    return Some(filled);
  }

  /** Decode, parse one value between optional spaces, then insist on the canonical domain. */
  function StrictJsonLoads(raw: seq<Byte>): (r: Result<Json, ReadError>)
    ensures r.Ok? ==> Shaped(r.value) && CanonicalizationErrors(r.value, []) == []
  {
    match DecodeUtf8(raw)
    case None => Err(NotUtf8)
    case Some(text) =>
      match ParseValue(SkipSpace(text))
      case Failed(e) => Err(e)
      case Parsed(v, rest) =>
        if SkipSpace(rest) != [] then Err(Malformed) else
          var errors := CanonicalizationErrors(v, []);
          if errors != [] then Err(NotCanonical(errors[0])) else Ok(v)
  }
}
