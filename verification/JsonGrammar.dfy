/**
 The grammar of RFC 8259 by its derivations: every way to spell a JSON text, and what it means. It knows
 neither the reader nor the printer.
 */
module JsonGrammar {
  import opened Unicode
  import opened CanonicalJson

  // ----- white space (section 2)

  predicate Blank(c: CodePoint) {
    c in {0x20, 0x09, 0x0A, 0x0D}
  }

  predicate Blanks(t: Text) {
    forall i :: 0 <= i < |t| ==> Blank(t[i])
  }

  // ----- strings (section 7)

  /** One character as it is, by a short escape, by its number, or by the numbers of a surrogate pair. */
  datatype Char = Plain(c: CodePoint) | Short(letter: CodePoint) | Hex(digits: Text) | Pair(high: Text, low: Text)

  predicate IsHex(c: CodePoint) {
    0x30 <= c <= 0x39 || 0x41 <= c <= 0x46 || 0x61 <= c <= 0x66
  }

  function HexOf(c: CodePoint): (d: int)
    requires IsHex(c)
    ensures 0 <= d < 16
  {
    if c <= 0x39 then c - 0x30 else if c <= 0x46 then c - 0x41 + 10 else c - 0x61 + 10
  }

  predicate FourHex(d: Text) {
    |d| == 4 && forall i :: 0 <= i < 4 ==> IsHex(d[i])
  }

  function HexNumber(d: Text): (n: int)
    requires FourHex(d)
    ensures 0 <= n < 0x10000
  {
    ((HexOf(d[0]) * 16 + HexOf(d[1])) * 16 + HexOf(d[2])) * 16 + HexOf(d[3])
  }

  predicate IsHigh(d: Text) {
    FourHex(d) && 0xD800 <= HexNumber(d) <= 0xDBFF
  }

  predicate IsLow(d: Text) {
    FourHex(d) && 0xDC00 <= HexNumber(d) <= 0xDFFF
  }

  predicate WellChar(ch: Char) {
    match ch
    case Plain(c) => c >= 0x20 && c != 0x22 && c != 0x5C
    case Short(letter) => letter in {0x22, 0x5C, 0x2F, 0x62, 0x66, 0x6E, 0x72, 0x74}
    case Hex(digits) => FourHex(digits)
    case Pair(high, low) => IsHigh(high) && IsLow(low)
  }

  /** The numbers of a surrogate pair in a row are that pair. */
  predicate Joins(a: Char, b: Char) {
    a.Hex? && IsHigh(a.digits) && b.Hex? && IsLow(b.digits)
  }

  predicate WellChars(chars: seq<Char>) {
    chars == [] ||
    (WellChar(chars[0]) && (|chars| > 1 ==> !Joins(chars[0], chars[1])) && WellChars(chars[1..]))
  }

  function CharSpelling(ch: Char): Text {
    match ch
    case Plain(c) => [c]
    case Short(letter) => [0x5C, letter]
    case Hex(digits) => [0x5C, 0x75] + digits
    case Pair(high, low) => [0x5C, 0x75] + high + ([0x5C, 0x75] + low)
  }

  /** b, f, n, r and t stand for backspace, form feed, line feed, carriage return and tab. */
  function ShortMeaning(letter: CodePoint): CodePoint {
    if letter == 0x62 then 0x08 else if letter == 0x66 then 0x0C else if letter == 0x6E then 0x0A
    else if letter == 0x72 then 0x0D else if letter == 0x74 then 0x09 else letter
  }

  function CharMeaning(ch: Char): CodePoint
    requires WellChar(ch)
  {
    match ch
    case Plain(c) => c
    case Short(letter) => ShortMeaning(letter)
    case Hex(digits) => HexNumber(digits)
    case Pair(high, low) => 0x10000 + (HexNumber(high) - 0xD800) * 0x400 + (HexNumber(low) - 0xDC00)
  }

  function CharsSpelling(chars: seq<Char>): Text {
    if chars == [] then [] else CharSpelling(chars[0]) + CharsSpelling(chars[1..])
  }

  function CharsMeaning(chars: seq<Char>): (t: Text)
    requires WellChars(chars)
  {
    if chars == [] then [] else [CharMeaning(chars[0])] + CharsMeaning(chars[1..])
  }

  // ----- numbers (section 6)

  datatype Number = Number(negative: bool, digits: Text, fraction: Text, exponent: Text)

  predicate Digits(t: Text) {
    t != [] && forall i :: 0 <= i < |t| ==> 0x30 <= t[i] <= 0x39
  }

  predicate WellFraction(t: Text) {
    t == [] || (t[0] == 0x2E && Digits(t[1..]))
  }

  predicate WellExponent(t: Text) {
    t == [] || ((t[0] == 0x65 || t[0] == 0x45)
                && (Digits(t[1..]) || (|t| > 1 && (t[1] == 0x2B || t[1] == 0x2D) && Digits(t[2..]))))
  }

  predicate WellNumber(n: Number) {
    && Digits(n.digits) && (n.digits[0] == 0x30 ==> |n.digits| == 1)
    && WellFraction(n.fraction) && WellExponent(n.exponent)
  }

  function Magnitude(d: Text): int {
    if d == [] then 0 else
      var last: int := d[|d| - 1];
      Magnitude(d[..|d| - 1]) * 10 + (last - 0x30)
  }

  function NumberSpelling(n: Number): Text {
    (if n.negative then [0x2D] else []) + n.digits + n.fraction + n.exponent
  }

  /** Without fraction and exponent a number is an integer; with either, Python reads a float. */
  function NumberMeaning(n: Number): Json {
    if n.fraction == [] && n.exponent == []
    then Integer(if n.negative then -Magnitude(n.digits) else Magnitude(n.digits))
    else Float
  }

  // ----- values (sections 3 to 5)

  datatype Tree =
    | NullTree
    | TrueTree
    | FalseTree
    | NumberTree(number: Number)
    | StringTree(chars: seq<Char>)
    | ArrayTree(blank: Text, slots: seq<Slot>)
    | ObjectTree(blank: Text, entries: seq<Entry>)

  /** An element with the white space around it. */
  datatype Slot = Slot(before: Text, value: Tree, after: Text)

  datatype Entry = Entry(before: Text, key: seq<Char>, beforeColon: Text, afterColon: Text, value: Tree, after: Text)

  predicate Well(tree: Tree) {
    match tree
    case NumberTree(n) => WellNumber(n)
    case StringTree(chars) => WellChars(chars)
    case ArrayTree(blank, slots) =>
      Blanks(blank)
      && forall i :: 0 <= i < |slots| ==> Blanks(slots[i].before) && Well(slots[i].value) && Blanks(slots[i].after)
    case ObjectTree(blank, entries) =>
      && Blanks(blank)
      && (forall i :: 0 <= i < |entries| ==> Blanks(entries[i].before) && Blanks(entries[i].beforeColon))
      && (forall i :: 0 <= i < |entries| ==> Blanks(entries[i].afterColon) && Blanks(entries[i].after))
      && (forall i :: 0 <= i < |entries| ==> WellChars(entries[i].key) && Well(entries[i].value))
    case _ => true
  }

  function Spelling(tree: Tree): Text
    decreases tree, 0
  {
    match tree
    case NullTree => [0x6E, 0x75, 0x6C, 0x6C]
    case TrueTree => [0x74, 0x72, 0x75, 0x65]
    case FalseTree => [0x66, 0x61, 0x6C, 0x73, 0x65]
    case NumberTree(n) => NumberSpelling(n)
    case StringTree(chars) => [0x22] + CharsSpelling(chars) + [0x22]
    case ArrayTree(blank, slots) => [0x5B] + (if slots == [] then blank else SlotsSpelling(slots)) + [0x5D]
    case ObjectTree(blank, entries) => [0x7B] + (if entries == [] then blank else EntriesSpelling(entries)) + [0x7D]
  }

  function SlotSpelling(s: Slot): Text
    decreases s, 0
  {
    s.before + Spelling(s.value) + s.after
  }

  function SlotsSpelling(slots: seq<Slot>): Text
    decreases slots, 0
  {
    if slots == [] then []
    else if |slots| == 1 then SlotSpelling(slots[0])
    else SlotSpelling(slots[0]) + [0x2C] + SlotsSpelling(slots[1..])
  }

  function EntrySpelling(e: Entry): Text
    decreases e, 0
  {
    e.before + ([0x22] + CharsSpelling(e.key) + [0x22]) + e.beforeColon + [0x3A] + e.afterColon + Spelling(e.value)
    + e.after
  }

  function EntriesSpelling(entries: seq<Entry>): Text
    decreases entries, 0
  {
    if entries == [] then []
    else if |entries| == 1 then EntrySpelling(entries[0])
    else EntrySpelling(entries[0]) + [0x2C] + EntriesSpelling(entries[1..])
  }

  function Meaning(tree: Tree): Json
    requires Well(tree)
  {
    match tree
    case NullTree => Null
    case TrueTree => Boolean(true)
    case FalseTree => Boolean(false)
    case NumberTree(n) => NumberMeaning(n)
    case StringTree(chars) => String(CharsMeaning(chars))
    case ArrayTree(_, slots) => List(seq(|slots|, i requires 0 <= i < |slots| => Meaning(slots[i].value)))
    case ObjectTree(_, entries) =>
      Object(seq(|entries|,
                 i requires 0 <= i < |entries| => Field(CharsMeaning(entries[i].key), Meaning(entries[i].value))))
  }

  // ----- texts (section 2)

  /** The text spells the value, with white space around it; no object in it repeats a key. */
  ghost predicate Spells(text: Text, v: Json) {
    exists before, tree, after :: IsText(text, before, tree, after) && Meaning(tree) == v && Shaped(v)
  }

  predicate IsText(text: Text, before: Text, tree: Tree, after: Text) {
    Blanks(before) && Well(tree) && Blanks(after) && text == before + Spelling(tree) + after
  }
}
