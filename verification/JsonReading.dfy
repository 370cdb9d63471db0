/**
 The strict reader accepts exactly the texts of the grammar whose objects repeat no key, and reads each as
 what it means.
 */
module JsonReading {
  import opened Common
  import opened Unicode
  import opened CanonicalJson
  import opened JsonGrammar
  import opened JsonReader

  // ----- white space

  lemma {:induction false} SkipsBlanks(blanks: Text, t: Text)
    requires Blanks(blanks) && (t == [] || !Blank(t[0]))
    ensures SkipSpace(blanks + t) == t
    decreases |blanks|
  {
    if blanks == [] {
      assert blanks + t == t;
    } else {
      assert (blanks + t)[1..] == blanks[1..] + t;
      assert Blank(blanks[0]);
      SkipsBlanks(blanks[1..], t);
    }
  }

  lemma {:induction false} SkipSplits(t: Text) returns (blanks: Text)
    ensures Blanks(blanks) && t == blanks + SkipSpace(t) && (SkipSpace(t) == [] || !Blank(SkipSpace(t)[0]))
    decreases |t|
  {
    blanks := [];
    if t != [] && IsSpace(t[0]) {
      var more := SkipSplits(t[1..]);
      blanks := [t[0]] + more;
      assert t == [t[0]] + t[1..];
    }
  }

  // ----- strings are read as they mean

  lemma HexAgrees(c: CodePoint)
    ensures HexValue(c) == if IsHex(c) then Some(HexOf(c)) else None
  {
  }

  lemma Hex4Agrees(t: Text, rest: Text)
    requires |t| == 4
    ensures Hex4(t + rest) == if FourHex(t) then Some(HexNumber(t)) else None
  {
    assert (t + rest)[0] == t[0] && (t + rest)[1] == t[1] && (t + rest)[2] == t[2] && (t + rest)[3] == t[3];
    HexAgrees(t[0]);
    HexAgrees(t[1]);
    HexAgrees(t[2]);
    HexAgrees(t[3]);
  }

  /** The escape of a low surrogate is in front. */
  predicate LowAhead(t: Text) {
    |t| >= 6 && t[0] == 0x5C && t[1] == 0x75 && IsLow(t[2..6])
  }

  lemma ReadsShort(letter: CodePoint, rest: Text)
    requires WellChar(Short(letter))
    ensures ParseEscape([letter] + rest) == Parsed(CharMeaning(Short(letter)), rest)
  {
    assert ([letter] + rest)[1..] == rest;
  }

  lemma UnicodeEscape(t: Text, rest: Text)
    requires |t| == 4
    ensures ParseEscape([0x75] + t + rest) ==
            if !FourHex(t) then Failed(Malformed)
            else if IsHigh(t) && LowAhead(rest)
            then Parsed(0x10000 + (HexNumber(t) - 0xD800) * 0x400 + (HexNumber(rest[2..6]) - 0xDC00), rest[6..])
            else Parsed(HexNumber(t), rest)
  {
    var all := [0x75] + t + rest;
    assert all[1..] == t + rest && all[5..] == rest;
    Hex4Agrees(t, rest);
    if |rest| >= 6 {
      assert rest[2..] == rest[2..6] + rest[6..];
      Hex4Agrees(rest[2..6], rest[6..]);
    }
  }

  lemma ReadsHex(digits: Text, rest: Text)
    requires FourHex(digits) && !(IsHigh(digits) && LowAhead(rest))
    ensures ParseEscape([0x75] + digits + rest) == Parsed(HexNumber(digits), rest)
  {
    UnicodeEscape(digits, rest);
  }

  lemma ReadsPair(high: Text, low: Text, rest: Text)
    requires WellChar(Pair(high, low))
    ensures ParseEscape([0x75] + high + ([0x5C, 0x75] + low + rest)) == Parsed(CharMeaning(Pair(high, low)), rest)
  {
    var after := [0x5C, 0x75] + low + rest;
    assert after[2..6] == low && after[6..] == rest;
    UnicodeEscape(high, after);
  }

  lemma ReadsPlain(c: CodePoint, tail: Text, s: Text, rest: Text)
    requires WellChar(Plain(c)) && ParseChars(tail) == Parsed(s, rest)
    ensures ParseChars([c] + tail) == Parsed([c] + s, rest)
  {
    assert ([c] + tail)[1..] == tail;
  }

  lemma ReadsEscaped(after: Text, c: CodePoint, tail: Text, s: Text, rest: Text)
    requires ParseEscape(after) == Parsed(c, tail) && ParseChars(tail) == Parsed(s, rest)
    ensures ParseChars([0x5C] + after) == Parsed([c] + s, rest)
  {
    assert ([0x5C] + after)[1..] == after;
  }

  lemma ReadsShortChar(letter: CodePoint, tail: Text, s: Text, rest: Text)
    requires WellChar(Short(letter)) && ParseChars(tail) == Parsed(s, rest)
    ensures ParseChars(CharSpelling(Short(letter)) + tail) == Parsed([CharMeaning(Short(letter))] + s, rest)
  {
    ReadsShort(letter, tail);
    ReadsEscaped([letter] + tail, CharMeaning(Short(letter)), tail, s, rest);
    assert [0x5C, letter] + tail == [0x5C] + ([letter] + tail);
  }

  lemma ReadsHexChar(digits: Text, tail: Text, s: Text, rest: Text)
    requires FourHex(digits) && !(IsHigh(digits) && LowAhead(tail)) && ParseChars(tail) == Parsed(s, rest)
    ensures ParseChars(CharSpelling(Hex(digits)) + tail) == Parsed([CharMeaning(Hex(digits))] + s, rest)
  {
    ReadsHex(digits, tail);
    ReadsEscaped([0x75] + digits + tail, HexNumber(digits), tail, s, rest);
    assert [0x5C, 0x75] + digits + tail == [0x5C] + ([0x75] + digits + tail);
  }

  lemma ReadsPairChar(high: Text, low: Text, tail: Text, s: Text, rest: Text)
    requires WellChar(Pair(high, low)) && ParseChars(tail) == Parsed(s, rest)
    ensures ParseChars(CharSpelling(Pair(high, low)) + tail) == Parsed([CharMeaning(Pair(high, low))] + s, rest)
  {
    var second := [0x5C, 0x75] + low;
    ReadsPair(high, low, tail);
    ReadsEscaped([0x75] + high + (second + tail), CharMeaning(Pair(high, low)), tail, s, rest);
    assert [0x5C, 0x75] + high + second + tail == [0x5C] + ([0x75] + high + (second + tail));
  }

  lemma ReadsChar(ch: Char, tail: Text, s: Text, rest: Text)
    requires WellChar(ch) && (ch.Hex? && IsHigh(ch.digits) ==> !LowAhead(tail)) && ParseChars(tail) == Parsed(s, rest)
    ensures ParseChars(CharSpelling(ch) + tail) == Parsed([CharMeaning(ch)] + s, rest)
  {
    match ch {
      case Plain(c) => ReadsPlain(c, tail, s, rest);
      case Short(letter) => ReadsShortChar(letter, tail, s, rest);
      case Hex(digits) => ReadsHexChar(digits, tail, s, rest);
      case Pair(high, low) => ReadsPairChar(high, low, tail, s, rest);
    }
  }

  lemma SpelledFirst(first: Char, more: Text)
    requires WellChar(first) && (first.Hex? ==> !IsLow(first.digits))
    ensures !LowAhead(CharSpelling(first) + more)
  {
    var t := CharSpelling(first) + more;
    match first {
      case Plain(c) => assert t[0] == c;
      case Short(letter) => assert t[1] == letter;
      case Hex(digits) => assert t[2..6] == digits;
      case Pair(high, low) => assert t[2..6] == high;
    }
  }

  lemma CharsCons(chars: seq<Char>, rest: Text)
    requires chars != []
    ensures CharsSpelling(chars) + rest == CharSpelling(chars[0]) + (CharsSpelling(chars[1..]) + rest)
  {
  }

  /** After a lone high surrogate no low one is spelled. */
  lemma NoLowAhead(ch: Char, chars: seq<Char>, rest: Text)
    requires chars != [] ==> WellChar(chars[0]) && !Joins(ch, chars[0])
    requires ch.Hex? && IsHigh(ch.digits)
    ensures !LowAhead(CharsSpelling(chars) + ([0x22] + rest))
  {
    if chars == [] {
      assert CharsSpelling(chars) + ([0x22] + rest) == [0x22] + rest;
    } else {
      CharsCons(chars, [0x22] + rest);
      SpelledFirst(chars[0], CharsSpelling(chars[1..]) + ([0x22] + rest));
    }
  }

  lemma ReadsOneMore(chars: seq<Char>, tail: Text, rest: Text)
    requires chars != [] && WellChars(chars) && tail == CharsSpelling(chars[1..]) + ([0x22] + rest)
    requires ParseChars(tail) == Parsed(CharsMeaning(chars[1..]), rest)
    ensures ParseChars(CharSpelling(chars[0]) + tail) == Parsed(CharsMeaning(chars), rest)
  {
    var more := chars[1..];
    if chars[0].Hex? && IsHigh(chars[0].digits) {
      assert more != [] ==> more[0] == chars[1];
      NoLowAhead(chars[0], more, rest);
    }
    ReadsChar(chars[0], tail, CharsMeaning(more), rest);
  }

  lemma {:induction false} ReadsChars(chars: seq<Char>, rest: Text)
    requires WellChars(chars)
    ensures ParseChars(CharsSpelling(chars) + ([0x22] + rest)) == Parsed(CharsMeaning(chars), rest)
    decreases |chars|
  {
    if chars == [] {
      assert CharsSpelling(chars) + ([0x22] + rest) == [0x22] + rest;
      assert ([0x22] + rest)[1..] == rest;
    } else {
      ReadsChars(chars[1..], rest);
      CharsCons(chars, [0x22] + rest);
      ReadsOneMore(chars, CharsSpelling(chars[1..]) + ([0x22] + rest), rest);
    }
  }

  // ----- numbers are read as they mean

  /** What may follow a value: the end, white space, a comma or a closing bracket. */
  predicate Closed(rest: Text) {
    rest == [] || Blank(rest[0]) || rest[0] in {0x2C, 0x5D, 0x7D}
  }

  lemma {:induction false} CountDigits(d: Text, rest: Text)
    requires forall i :: 0 <= i < |d| ==> IsDigit(d[i])
    requires rest == [] || !IsDigit(rest[0])
    ensures DigitCount(d + rest) == |d|
    decreases |d|
  {
    if d == [] {
      assert d + rest == rest;
    } else {
      assert (d + rest)[1..] == d[1..] + rest;
      CountDigits(d[1..], rest);
    }
  }

  lemma {:induction false} MagnitudeAgrees(d: Text)
    ensures DigitsValue(d) == Magnitude(d)
    decreases |d|
  {
    if d != [] {
      MagnitudeAgrees(d[..|d| - 1]);
    }
  }

  lemma ReadsFraction(fraction: Text, rest: Text)
    requires WellFraction(fraction) && (rest == [] || (!IsDigit(rest[0]) && rest[0] != 0x2E))
    ensures FractionLength(fraction + rest) == |fraction|
  {
    if fraction == [] {
      assert fraction + rest == rest;
    } else {
      assert (fraction + rest)[1..] == fraction[1..] + rest;
      CountDigits(fraction[1..], rest);
    }
  }

  lemma ReadsExponent(exponent: Text, rest: Text)
    requires WellExponent(exponent) && Closed(rest)
    ensures ExponentLength(exponent + rest) == |exponent|
  {
    if exponent == [] {
      assert exponent + rest == rest;
    } else {
      var t := exponent + rest;
      var signed := if Digits(exponent[1..]) then 1 else 2;
      assert t[1..] == exponent[1..] + rest && exponent[1..][0] == exponent[1] == t[1..][0];
      assert t[signed..] == exponent[signed..] + rest;
      CountDigits(exponent[signed..], rest);
    }
  }

  /** The pieces of a number after its sign. */
  lemma ReadsPieces(n: Number, rest: Text)
    requires WellNumber(n) && Closed(rest)
    ensures var body := n.digits + (n.fraction + (n.exponent + rest));
            && (if StartsWith(body, 48) then 1 else DigitCount(body)) == |n.digits|
            && body[..|n.digits|] == n.digits && body[|n.digits|..] == n.fraction + (n.exponent + rest)
            && FractionLength(n.fraction + (n.exponent + rest)) == |n.fraction|
            && (n.fraction + (n.exponent + rest))[|n.fraction|..] == n.exponent + rest
            && ExponentLength(n.exponent + rest) == |n.exponent| && (n.exponent + rest)[|n.exponent|..] == rest
  {
    var afterFraction := n.exponent + rest;
    var afterInteger := n.fraction + afterFraction;
    ReadsExponent(n.exponent, rest);
    assert afterFraction != [] ==> afterFraction[0] == if n.exponent == [] then rest[0] else n.exponent[0];
    ReadsFraction(n.fraction, afterFraction);
    assert afterInteger != [] ==> afterInteger[0] == if n.fraction == [] then afterFraction[0] else n.fraction[0];
    CountDigits(n.digits, afterInteger);
  }

  lemma ReadsUnsigned(n: Number, rest: Text)
    requires WellNumber(n) && Closed(rest)
    ensures ParseUnsigned(n.digits + (n.fraction + (n.exponent + rest)), n.negative) == Parsed(NumberMeaning(n), rest)
  {
    ReadsPieces(n, rest);
    MagnitudeAgrees(n.digits);
  }

  lemma Associates(a: Text, b: Text, c: Text)
    ensures a + b + c == a + (b + c)
  {
  }

  /** The text of a number in front of more, sign first. */
  lemma NumberText(n: Number, rest: Text)
    ensures NumberSpelling(n) + rest ==
            (if n.negative then [0x2D] else []) + (n.digits + (n.fraction + (n.exponent + rest)))
  {
    var sign: Text := if n.negative then [0x2D] else [];
    Associates(sign + n.digits + n.fraction, n.exponent, rest);
    Associates(sign + n.digits, n.fraction, n.exponent + rest);
    Associates(sign, n.digits, n.fraction + (n.exponent + rest));
  }

  lemma ReadsSigned(t: Text, negative: bool, body: Text)
    requires body != [] && body[0] != 45 && t == (if negative then [0x2D] else []) + body
    ensures ParseNumber(t) == ParseUnsigned(body, negative)
  {
    assert negative ==> t[1..] == body;
    assert !negative ==> t == body;
  }

  lemma ReadsNumber(n: Number, rest: Text)
    requires WellNumber(n) && Closed(rest)
    ensures ParseNumber(NumberSpelling(n) + rest) == Parsed(NumberMeaning(n), rest)
  {
    var body := n.digits + (n.fraction + (n.exponent + rest));
    NumberText(n, rest);
    assert body[0] == n.digits[0];
    ReadsSigned(NumberSpelling(n) + rest, n.negative, body);
    ReadsUnsigned(n, rest);
  }

  // ----- values are read as they mean

  /** The first character of a value: no white space, no comma, no closing bracket. */
  predicate Solid(t: Text) {
    t != [] && !Blank(t[0]) && t[0] !in {0x2C, 0x5D, 0x7D}
  }

  lemma SpellingIsSolid(tree: Tree, rest: Text)
    requires Well(tree)
    ensures Solid(Spelling(tree)) && Solid(Spelling(tree) + rest)
  {
    if tree.NumberTree? {
      assert Spelling(tree)[0] == if tree.number.negative then 0x2D else tree.number.digits[0];
    }
  }

  lemma NotPrefix(p: Text, t: Text, i: nat)
    requires i < |p| && i < |t| && p[i] != t[i]
    ensures !(p <= t)
  {
  }

  lemma AtomNumber(t: Text)
    requires t != [] && (IsDigit(t[0]) || (t[0] == 45 && |t| > 1 && IsDigit(t[1])))
    ensures ParseAtom(t) == ParseNumber(t)
  {
    NotPrefix(NULL_TEXT, t, 0);
    NotPrefix(TRUE_TEXT, t, 0);
    NotPrefix(FALSE_TEXT, t, 0);
    NotPrefix(NAN_TEXT, t, 0);
    NotPrefix(INFINITY_TEXT, t, 0);
    NotPrefix([45] + INFINITY_TEXT, t, if t[0] == 45 then 1 else 0);
  }

  lemma ReadsLiteral(tree: Tree, rest: Text)
    requires tree.NullTree? || tree.TrueTree? || tree.FalseTree?
    ensures ParseValue(Spelling(tree) + rest) == Parsed(Meaning(tree), rest)
  {
    var t := Spelling(tree) + rest;
    assert t[0] == Spelling(tree)[0];
    if tree.FalseTree? {
      assert t[5..] == rest;
    } else {
      assert t[4..] == rest;
    }
    assert ParseValue(t) == ParseAtom(t);
  }

  lemma NumberFront(n: Number, rest: Text)
    requires WellNumber(n)
    ensures var t := NumberSpelling(n) + rest;
            && t != [] && (IsDigit(t[0]) || (t[0] == 45 && |t| > 1 && IsDigit(t[1])))
            && t[0] == if n.negative then 45 else n.digits[0]
  {
    var body := n.digits + (n.fraction + (n.exponent + rest));
    NumberText(n, rest);
    assert body[0] == n.digits[0];
    assert ([0x2D] + body)[1] == body[0];
  }

  lemma ReadsNumberValue(n: Number, rest: Text)
    requires WellNumber(n) && Closed(rest)
    ensures ParseValue(NumberSpelling(n) + rest) == Parsed(NumberMeaning(n), rest)
  {
    var t := NumberSpelling(n) + rest;
    ReadsNumber(n, rest);
    NumberFront(n, rest);
    AtomNumber(t);
    assert ParseValue(t) == ParseAtom(t);
  }

  lemma KeyInFront(key: Text, more: Text)
    ensures [0x22] + key + [0x22] + more == [0x22] + (key + ([0x22] + more))
  {
    Associates([0x22] + key, [0x22], more);
    Associates([0x22], key, [0x22] + more);
  }

  lemma ReadsQuoted(after: Text, text: Text, rest: Text)
    requires ParseChars(after) == Parsed(text, rest)
    ensures ParseValue([0x22] + after) == Parsed(String(text), rest)
  {
    assert ([0x22] + after)[1..] == after;
  }

  lemma ReadsString(chars: seq<Char>, rest: Text)
    requires WellChars(chars)
    ensures ParseValue(Spelling(StringTree(chars)) + rest) == Parsed(String(CharsMeaning(chars)), rest)
  {
    ReadsChars(chars, rest);
    KeyInFront(CharsSpelling(chars), rest);
    ReadsQuoted(CharsSpelling(chars) + ([0x22] + rest), CharsMeaning(chars), rest);
  }

  // ----- arrays

  predicate WellSlots(slots: seq<Slot>) {
    forall i :: 0 <= i < |slots| ==> Blanks(slots[i].before) && Well(slots[i].value) && Blanks(slots[i].after)
  }

  function SlotsMeaning(slots: seq<Slot>): (items: seq<Json>)
    requires WellSlots(slots)
    ensures |items| == |slots|
  {
    seq(|slots|, i requires 0 <= i < |slots| => Meaning(slots[i].value))
  }

  lemma SlotsCons(slots: seq<Slot>)
    requires WellSlots(slots) && slots != []
    ensures WellSlots(slots[1..])
    ensures SlotsMeaning(slots) == [Meaning(slots[0].value)] + SlotsMeaning(slots[1..])
    ensures |slots| == 1 ==> SlotsMeaning(slots) == [Meaning(slots[0].value)]
  {
  }

  /** An array's text from its first element on. */
  function SlotsText(slots: seq<Slot>, rest: Text): Text
    requires slots != []
    decreases |slots|
  {
    Spelling(slots[0].value) + (slots[0].after + AfterSlot(slots, rest))
  }

  function AfterSlot(slots: seq<Slot>, rest: Text): Text
    requires slots != []
    decreases |slots|, 0
  {
    if |slots| == 1 then [0x5D] + rest else [0x2C] + (slots[1].before + SlotsText(slots[1..], rest))
  }

  lemma SlotInFront(s: Slot, more: Text)
    ensures SlotSpelling(s) + more == s.before + (Spelling(s.value) + (s.after + more))
  {
    Associates(s.before + Spelling(s.value), s.after, more);
    Associates(s.before, Spelling(s.value), s.after + more);
  }

  lemma {:induction false} SlotsInFront(slots: seq<Slot>, rest: Text)
    requires slots != []
    ensures SlotsSpelling(slots) + ([0x5D] + rest) == slots[0].before + SlotsText(slots, rest)
    decreases |slots|
  {
    if |slots| > 1 {
      SlotsInFront(slots[1..], rest);
      Associates(SlotSpelling(slots[0]), [0x2C], SlotsSpelling(slots[1..]));
      Associates(SlotSpelling(slots[0]), [0x2C] + SlotsSpelling(slots[1..]), [0x5D] + rest);
      Associates([0x2C], SlotsSpelling(slots[1..]), [0x5D] + rest);
    }
    SlotInFront(slots[0], AfterSlot(slots, rest));
  }

  /** One element, then the bracket. */
  lemma ReadsLastElement(t: Text, v: Json, after: Text, rest: Text)
    requires Blanks(after) && ParseValue(t) == Parsed(v, after + ([0x5D] + rest))
    ensures ParseElements(t) == Parsed([v], rest)
  {
    SkipsBlanks(after, [0x5D] + rest);
    assert ([0x5D] + rest)[1..] == rest;
  }

  /** One element, then a comma and more. */
  lemma ReadsElement(t: Text, v: Json, after: Text, before: Text, more: Text, items: seq<Json>, rest: Text)
    requires Blanks(after) && Blanks(before) && Solid(more)
    requires ParseValue(t) == Parsed(v, after + ([0x2C] + (before + more)))
             && ParseElements(more) == Parsed(items, rest)
    ensures ParseElements(t) == Parsed([v] + items, rest)
  {
    SkipsBlanks(after, [0x2C] + (before + more));
    assert ([0x2C] + (before + more))[1..] == before + more;
    SkipsBlanks(before, more);
  }

  lemma AfterSlotCloses(slots: seq<Slot>, rest: Text)
    requires WellSlots(slots) && slots != []
    ensures Closed(slots[0].after + AfterSlot(slots, rest))
  {
    assert AfterSlot(slots, rest)[0] in {0x2C, 0x5D};
    if slots[0].after != [] {
      assert Blank(slots[0].after[0]);
    }
  }

  lemma {:induction false} ReadsElements(slots: seq<Slot>, rest: Text)
    requires slots != [] && WellSlots(slots) && forall i :: 0 <= i < |slots| ==> Shaped(Meaning(slots[i].value))
    ensures ParseElements(SlotsText(slots, rest)) == Parsed(SlotsMeaning(slots), rest)
    decreases slots, 1
  {
    var s := slots[0];
    assert s in slots;
    AfterSlotCloses(slots, rest);
    ReadsTree(s.value, s.after + AfterSlot(slots, rest));
    SlotsCons(slots);
    if |slots| == 1 {
      ReadsLastElement(SlotsText(slots, rest), Meaning(s.value), s.after, rest);
    } else {
      var more := SlotsText(slots[1..], rest);
      ReadsElements(slots[1..], rest);
      SpellingIsSolid(slots[1].value, slots[1].after + AfterSlot(slots[1..], rest));
      ReadsElement(SlotsText(slots, rest), Meaning(s.value), s.after, slots[1].before, more, SlotsMeaning(slots[1..]),
                   rest);
    }
  }

  lemma ReadsEmptyArray(blank: Text, rest: Text)
    requires Blanks(blank)
    ensures ParseValue([0x5B] + (blank + ([0x5D] + rest))) == Parsed(List([]), rest)
  {
    var t := [0x5B] + (blank + ([0x5D] + rest));
    assert t[1..] == blank + ([0x5D] + rest);
    SkipsBlanks(blank, [0x5D] + rest);
    assert ([0x5D] + rest)[1..] == rest;
  }

  lemma ReadsFullArray(before: Text, inside: Text, items: seq<Json>, rest: Text)
    requires Blanks(before) && Solid(inside) && ParseElements(inside) == Parsed(items, rest)
    ensures ParseValue([0x5B] + (before + inside)) == Parsed(List(items), rest)
  {
    var t := [0x5B] + (before + inside);
    assert t[1..] == before + inside;
    SkipsBlanks(before, inside);
  }

  lemma {:induction false} ReadsArray(tree: Tree, rest: Text)
    requires tree.ArrayTree? && Well(tree) && Shaped(Meaning(tree))
    ensures ParseValue(Spelling(tree) + rest) == Parsed(Meaning(tree), rest)
    decreases tree, 0
  {
    var slots := tree.slots;
    assert Meaning(tree) == List(SlotsMeaning(slots));
    var inside := if slots == [] then tree.blank else SlotsSpelling(slots);
    Associates([0x5B] + inside, [0x5D], rest);
    Associates([0x5B], inside, [0x5D] + rest);
    if slots == [] {
      ReadsEmptyArray(tree.blank, rest);
    } else {
      forall i | 0 <= i < |slots|
        ensures Shaped(Meaning(slots[i].value))
      {
        assert Meaning(tree).items[i] == Meaning(slots[i].value);
      }
      SlotsInFront(slots, rest);
      SpellingIsSolid(slots[0].value, slots[0].after + AfterSlot(slots, rest));
      ReadsElements(slots, rest);
      ReadsFullArray(slots[0].before, SlotsText(slots, rest), SlotsMeaning(slots), rest);
    }
  }

  // ----- objects

  predicate WellEntry(e: Entry) {
    && Blanks(e.before) && Blanks(e.beforeColon) && Blanks(e.afterColon) && Blanks(e.after)
    && WellChars(e.key) && Well(e.value)
  }

  predicate WellEntries(entries: seq<Entry>) {
    forall i :: 0 <= i < |entries| ==> WellEntry(entries[i])
  }

  function EntryMeaning(e: Entry): Field
    requires WellEntry(e)
  {
    Field(CharsMeaning(e.key), Meaning(e.value))
  }

  function EntriesMeaning(entries: seq<Entry>): (fields: seq<Field>)
    requires WellEntries(entries)
    ensures |fields| == |entries|
  {
    seq(|entries|, i requires 0 <= i < |entries| => EntryMeaning(entries[i]))
  }

  lemma EntriesCons(entries: seq<Entry>)
    requires WellEntries(entries) && entries != []
    ensures WellEntries(entries[1..])
    ensures EntriesMeaning(entries) == [EntryMeaning(entries[0])] + EntriesMeaning(entries[1..])
    ensures |entries| == 1 ==> EntriesMeaning(entries) == [EntryMeaning(entries[0])]
  {
  }

  /** A member from its key on, in front of `tail`. */
  function EntryText(e: Entry, tail: Text): Text {
    [0x22]
    + (CharsSpelling(e.key) + ([0x22] + (e.beforeColon + ([0x3A] + (e.afterColon + (Spelling(e.value) + tail))))))
  }

  /** An object's text from its first key on. */
  function EntriesText(entries: seq<Entry>, rest: Text): Text
    requires entries != []
    decreases |entries|
  {
    EntryText(entries[0], entries[0].after + AfterEntry(entries, rest))
  }

  function AfterEntry(entries: seq<Entry>, rest: Text): Text
    requires entries != []
    decreases |entries|, 0
  {
    if |entries| == 1 then [0x7D] + rest else [0x2C] + (entries[1].before + EntriesText(entries[1..], rest))
  }

  lemma EntryInFront(e: Entry, more: Text)
    ensures EntrySpelling(e) + more == e.before + EntryText(e, e.after + more)
  {
    var key := [0x22] + CharsSpelling(e.key) + [0x22];
    var value := Spelling(e.value);
    var colon: Text := [0x3A];
    Associates(e.before + key + e.beforeColon + colon + e.afterColon + value, e.after, more);
    Associates(e.before + key + e.beforeColon + colon + e.afterColon, value, e.after + more);
    Associates(e.before + key + e.beforeColon + colon, e.afterColon, value + (e.after + more));
    Associates(e.before + key + e.beforeColon, colon, e.afterColon + (value + (e.after + more)));
    Associates(e.before + key, e.beforeColon, colon + (e.afterColon + (value + (e.after + more))));
    Associates(e.before, key, e.beforeColon + (colon + (e.afterColon + (value + (e.after + more)))));
    KeyInFront(CharsSpelling(e.key), e.beforeColon + (colon + (e.afterColon + (value + (e.after + more)))));
  }

  lemma {:induction false} EntriesInFront(entries: seq<Entry>, rest: Text)
    requires entries != []
    ensures EntriesSpelling(entries) + ([0x7D] + rest) == entries[0].before + EntriesText(entries, rest)
    decreases |entries|
  {
    if |entries| > 1 {
      EntriesInFront(entries[1..], rest);
      Associates(EntrySpelling(entries[0]), [0x2C], EntriesSpelling(entries[1..]));
      Associates(EntrySpelling(entries[0]), [0x2C] + EntriesSpelling(entries[1..]), [0x7D] + rest);
      Associates([0x2C], EntriesSpelling(entries[1..]), [0x7D] + rest);
    }
    EntryInFront(entries[0], AfterEntry(entries, rest));
  }

  /** What the member loop does once it has read `f`. */
  function AfterField(f: Field, next: Text): Parsed<seq<Field>> {
    if StartsWith(next, 125) then Parsed([f], next[1..])
    else if StartsWith(next, 44) then
      match ParseMembers(SkipSpace(next[1..]))
      case Failed(e) => Failed(e)
      case Parsed(more, rest) => Parsed([f] + more, rest)
    else Failed(Malformed)
  }

  /** A member up to what follows its value. */
  lemma ReadsMember(t: Text, key: Text, beforeColon: Text, afterColon: Text, value: Text, v: Json, next: Text)
    requires t != [] && t[0] == 0x22 && Blanks(beforeColon) && Blanks(afterColon) && Solid(value)
    requires ParseChars(t[1..]) == Parsed(key, beforeColon + ([0x3A] + (afterColon + value)))
    requires ParseValue(value) == Parsed(v, next)
    ensures ParseMembers(t) == AfterField(Field(key, v), SkipSpace(next))
  {
    SkipsBlanks(beforeColon, [0x3A] + (afterColon + value));
    assert ([0x3A] + (afterColon + value))[1..] == afterColon + value;
    SkipsBlanks(afterColon, value);
  }

  lemma ReadsLastField(f: Field, after: Text, rest: Text)
    requires Blanks(after)
    ensures AfterField(f, SkipSpace(after + ([0x7D] + rest))) == Parsed([f], rest)
  {
    SkipsBlanks(after, [0x7D] + rest);
    assert ([0x7D] + rest)[1..] == rest;
  }

  lemma ReadsField(f: Field, after: Text, before: Text, more: Text, fields: seq<Field>, rest: Text)
    requires Blanks(after) && Blanks(before) && Solid(more) && ParseMembers(more) == Parsed(fields, rest)
    ensures AfterField(f, SkipSpace(after + ([0x2C] + (before + more)))) == Parsed([f] + fields, rest)
  {
    SkipsBlanks(after, [0x2C] + (before + more));
    assert ([0x2C] + (before + more))[1..] == before + more;
    SkipsBlanks(before, more);
  }

  lemma AfterEntryCloses(entries: seq<Entry>, rest: Text)
    requires WellEntries(entries) && entries != []
    ensures Closed(entries[0].after + AfterEntry(entries, rest))
  {
    assert AfterEntry(entries, rest)[0] in {0x2C, 0x7D};
    if entries[0].after != [] {
      assert Blank(entries[0].after[0]);
    }
  }

  lemma EntryKeyReads(e: Entry, tail: Text)
    requires WellEntry(e)
    ensures ParseChars(EntryText(e, tail)[1..]) ==
            Parsed(CharsMeaning(e.key), e.beforeColon + ([0x3A] + (e.afterColon + (Spelling(e.value) + tail))))
  {
    var after := e.beforeColon + ([0x3A] + (e.afterColon + (Spelling(e.value) + tail)));
    ReadsChars(e.key, after);
    assert EntryText(e, tail)[1..] == CharsSpelling(e.key) + ([0x22] + after);
  }

  /** The first member, once its value is known to be read. */
  lemma ReadsEntry(e: Entry, tail: Text)
    requires WellEntry(e) && ParseValue(Spelling(e.value) + tail) == Parsed(Meaning(e.value), tail)
    ensures ParseMembers(EntryText(e, tail)) == AfterField(EntryMeaning(e), SkipSpace(tail))
  {
    var f := EntryMeaning(e);
    EntryKeyReads(e, tail);
    SpellingIsSolid(e.value, tail);
    ReadsMember(EntryText(e, tail), f.key, e.beforeColon, e.afterColon, Spelling(e.value) + tail, f.value, tail);
  }

  lemma EntriesAreSolid(entries: seq<Entry>, rest: Text)
    requires entries != []
    ensures Solid(EntriesText(entries, rest))
  {
  }

  lemma {:induction false} ReadsMembers(entries: seq<Entry>, rest: Text)
    requires entries != [] && WellEntries(entries)
    requires forall i :: 0 <= i < |entries| ==> Shaped(Meaning(entries[i].value))
    ensures ParseMembers(EntriesText(entries, rest)) == Parsed(EntriesMeaning(entries), rest)
    decreases entries, 1
  {
    var e, f := entries[0], EntryMeaning(entries[0]);
    assert e in entries;
    AfterEntryCloses(entries, rest);
    ReadsTree(e.value, e.after + AfterEntry(entries, rest));
    ReadsEntry(e, e.after + AfterEntry(entries, rest));
    EntriesCons(entries);
    if |entries| == 1 {
      ReadsLastField(f, e.after, rest);
    } else {
      ReadsMembers(entries[1..], rest);
      EntriesAreSolid(entries[1..], rest);
      ReadsField(f, e.after, entries[1].before, EntriesText(entries[1..], rest), EntriesMeaning(entries[1..]), rest);
    }
  }

  lemma ReadsEmptyObject(blank: Text, rest: Text)
    requires Blanks(blank)
    ensures ParseValue([0x7B] + (blank + ([0x7D] + rest))) == Parsed(Object([]), rest)
  {
    var t := [0x7B] + (blank + ([0x7D] + rest));
    assert t[1..] == blank + ([0x7D] + rest);
    SkipsBlanks(blank, [0x7D] + rest);
    assert ([0x7D] + rest)[1..] == rest;
  }

  lemma ReadsFullObject(before: Text, inside: Text, fields: seq<Field>, rest: Text)
    requires Blanks(before) && Solid(inside) && ParseMembers(inside) == Parsed(fields, rest) && UniqueKeys(fields)
    ensures ParseValue([0x7B] + (before + inside)) == Parsed(Object(fields), rest)
  {
    var t := [0x7B] + (before + inside);
    assert t[1..] == before + inside;
    SkipsBlanks(before, inside);
  }

  lemma {:induction false} ReadsObject(tree: Tree, rest: Text)
    requires tree.ObjectTree? && Well(tree) && Shaped(Meaning(tree))
    ensures ParseValue(Spelling(tree) + rest) == Parsed(Meaning(tree), rest)
    decreases tree, 0
  {
    var entries := tree.entries;
    assert Meaning(tree) == Object(EntriesMeaning(entries));
    var inside := if entries == [] then tree.blank else EntriesSpelling(entries);
    Associates([0x7B] + inside, [0x7D], rest);
    Associates([0x7B], inside, [0x7D] + rest);
    if entries == [] {
      ReadsEmptyObject(tree.blank, rest);
    } else {
      forall i | 0 <= i < |entries|
        ensures Shaped(Meaning(entries[i].value))
      {
        assert Meaning(tree).fields[i].value == Meaning(entries[i].value);
      }
      EntriesInFront(entries, rest);
      ReadsMembers(entries, rest);
      ReadsFullObject(entries[0].before, EntriesText(entries, rest), EntriesMeaning(entries), rest);
    }
  }

  /** Whatever its white space and escapes, a value in front of more text is read as what it means. */
  lemma {:induction false} ReadsTree(tree: Tree, rest: Text)
    requires Well(tree) && Shaped(Meaning(tree)) && Closed(rest)
    ensures ParseValue(Spelling(tree) + rest) == Parsed(Meaning(tree), rest)
    decreases tree, 1
  {
    match tree {
      case NumberTree(n) => ReadsNumberValue(n, rest);
      case StringTree(chars) => ReadsString(chars, rest);
      case ArrayTree(_, _) => ReadsArray(tree, rest);
      case ObjectTree(_, _) => ReadsObject(tree, rest);
      case _ => ReadsLiteral(tree, rest);
    }
  }
}
