/**
 Which bytes are canonical: of all texts that spell a value, canonical text is the shortest, and the only
 shortest one with lower-case hexadecimal digits and members in the order of their UTF-16 code units.
 */
module JsonShortest {
  import opened Common
  import opened Unicode
  import opened CanonicalJson
  import opened JsonGrammar
  import opened JsonReading
  import opened JsonAccepting
  import opened JsonRoundTrip
  import opened JsonIdentity

  // ----- lower case and order

  predicate LowerDigits(t: Text) {
    forall i :: 0 <= i < |t| ==> !(0x41 <= t[i] <= 0x46)
  }

  predicate LowerChars(chars: seq<Char>) {
    forall i :: 0 <= i < |chars| ==>
      match chars[i]
      case Hex(digits) => LowerDigits(digits)
      case Pair(high, low) => LowerDigits(high) && LowerDigits(low)
      case _ => true
  }

  /** No upper-case hexadecimal digit in any escape. */
  predicate LowerCase(tree: Tree) {
    match tree
    case StringTree(chars) => LowerChars(chars)
    case ArrayTree(_, slots) => forall i :: 0 <= i < |slots| ==> LowerCase(slots[i].value)
    case ObjectTree(_, entries) =>
      forall i :: 0 <= i < |entries| ==> LowerChars(entries[i].key) && LowerCase(entries[i].value)
    case _ => true
  }

  /** Section 3.2.3 of RFC 8785: members ascend by the UTF-16 code units of their keys, at every level. */
  predicate Ascending(v: Json) {
    match v
    case List(items) => forall i :: 0 <= i < |items| ==> Ascending(items[i])
    case Object(fields) =>
      && (forall i, j :: 0 <= i < j < |fields| ==> LexLess(Utf16Units(fields[i].key), Utf16Units(fields[j].key)))
      && (forall i :: 0 <= i < |fields| ==> Ascending(fields[i].value))
    case _ => true
  }

  // ----- characters

  lemma LowerNumber(d: Text, e: Text)
    requires FourHex(d) && FourHex(e) && LowerDigits(d) && LowerDigits(e) && HexNumber(d) == HexNumber(e)
    ensures d == e
  {
    assert HexOf(d[0]) == HexOf(e[0]) && HexOf(d[1]) == HexOf(e[1]) && HexOf(d[2]) == HexOf(e[2])
           && HexOf(d[3]) == HexOf(e[3]);
  }

  lemma ShortestChar(ch: Char)
    requires WellChar(ch)
    ensures |EscapeChar(CharMeaning(ch))| <= |CharSpelling(ch)|
    ensures |EscapeChar(CharMeaning(ch))| == |CharSpelling(ch)| && LowerChars([ch]) ==>
              EscapeChar(CharMeaning(ch)) == CharSpelling(ch)
  {
    assert [ch][0] == ch;
    if ch.Hex? {
      var c := CharMeaning(ch);
      if |EscapeChar(c)| == 6 && LowerDigits(ch.digits) {
        var plain: Text := [48, 48, HexDigit(c / 16), HexDigit(c % 16)];
        LowerNumber(plain, ch.digits);
      }
    }
  }

  lemma {:induction false} ShortestChars(chars: seq<Char>)
    requires WellChars(chars)
    ensures |Escape(CharsMeaning(chars))| <= |CharsSpelling(chars)|
    ensures |Escape(CharsMeaning(chars))| == |CharsSpelling(chars)| && LowerChars(chars) ==>
              Escape(CharsMeaning(chars)) == CharsSpelling(chars)
    decreases |chars|
  {
    if chars != [] {
      ShortestChars(chars[1..]);
      ShortestChar(chars[0]);
      assert CharsMeaning(chars)[1..] == CharsMeaning(chars[1..]);
      assert LowerChars(chars) ==> LowerChars(chars[1..]) && LowerChars([chars[0]]);
    }
  }

  // ----- numbers

  lemma {:induction false} DigitsAreDecimal(d: Text)
    requires Digits(d) && (d[0] == 0x30 ==> |d| == 1)
    ensures Magnitude(d) >= 0 && Decimal(Magnitude(d)) == d && (Magnitude(d) == 0 <==> d == [0x30])
    decreases |d|
  {
    var front, last: int := d[..|d| - 1], d[|d| - 1];
    assert d == front + [d[|d| - 1]];
    if front == [] {
      assert Magnitude(front) == 0;
    } else {
      assert front[0] == d[0];
      DigitsAreDecimal(front);
      assert Magnitude(front) > 0;
      assert Magnitude(d) / 10 == Magnitude(front) && Magnitude(d) % 10 == last - 48;
    }
  }

  lemma ShortestNumber(n: Number)
    requires WellNumber(n) && NumberMeaning(n).Integer?
    ensures var m := NumberMeaning(n).number;
            && |IntegerText(m)| <= |NumberSpelling(n)|
            && (|IntegerText(m)| == |NumberSpelling(n)| ==> IntegerText(m) == NumberSpelling(n))
  {
    DigitsAreDecimal(n.digits);
    assert n.digits + [] + [] == n.digits;
    assert [0x2D] + n.digits + [] + [] == [0x2D] + n.digits;
  }

  // ----- sequences

  /** `canonical` is no longer than `spelling`, and equal to it when equally long and `plain`. */
  predicate Tight(canonical: Text, spelling: Text, plain: bool) {
    |canonical| <= |spelling| && (|canonical| == |spelling| && plain ==> canonical == spelling)
  }

  lemma TightJoin(a: Text, b: Text, c: Text, d: Text, comma: Text, plain: bool)
    requires Tight(a, b, plain) && Tight(c, d, plain)
    ensures Tight(a + comma + c, b + comma + d, plain)
  {
  }

  lemma TightBlanks(canonical: Text, spelling: Text, before: Text, after: Text, plain: bool)
    requires Tight(canonical, spelling, plain)
    ensures Tight(canonical, before + spelling + after, plain)
  {
    if |before| + |after| == 0 {
      assert before + spelling + after == spelling;
    }
  }

  lemma {:induction false} TightItems(parent: Json, items: seq<Json>, slots: seq<Slot>, plain: bool)
    requires |items| == |slots| && forall i :: 0 <= i < |items| ==> items[i] < parent && Clean(items[i])
    requires forall i :: 0 <= i < |items| ==> Tight(CanonicalText(items[i]), SlotSpelling(slots[i]), plain)
    ensures Tight(ItemsText(parent, items), SlotsSpelling(slots), plain)
    decreases |items|
  {
    if |items| > 1 {
      TightItems(parent, items[1..], slots[1..], plain);
      TightJoin(CanonicalText(items[0]), SlotSpelling(slots[0]), ItemsText(parent, items[1..]),
                SlotsSpelling(slots[1..]),
                [44], plain);
    }
  }

  lemma {:induction false} TightFields(parent: Json, fields: seq<Field>, entries: seq<Entry>, plain: bool)
    requires |fields| == |entries| && forall f :: f in fields ==> f.value < parent && Clean(f.value)
    requires forall i :: 0 <= i < |fields| ==>
               Tight(Quote(fields[i].key) + [58] + CanonicalText(fields[i].value), EntrySpelling(entries[i]), plain)
    ensures Tight(FieldsText(parent, fields), EntriesSpelling(entries), plain)
    decreases |fields|
  {
    if |fields| > 1 {
      TightFields(parent, fields[1..], entries[1..], plain);
      TightJoin(FieldText(parent, fields[0]), EntrySpelling(entries[0]), FieldsText(parent, fields[1..]),
                EntriesSpelling(entries[1..]), [44], plain);
    }
  }

  // ----- the order of members does not change the length

  lemma FieldsLength(parent: Json, fields: seq<Field>)
    requires fields != [] && forall f :: f in fields ==> f.value < parent && Clean(f.value)
    ensures |FieldsText(parent, fields)| ==
            |FieldText(parent, fields[0])| + if |fields| == 1 then 0 else 1 + |FieldsText(parent, fields[1..])|
  {
  }

  lemma {:induction false} InsertLength(parent: Json, f: Field, sorted: seq<Field>)
    requires f.value < parent && Clean(f.value) && forall g :: g in sorted ==> g.value < parent && Clean(g.value)
    ensures forall g :: g in InsertField(f, sorted) ==> g.value < parent && Clean(g.value)
    ensures |FieldsText(parent, InsertField(f, sorted))| == |FieldsText(parent, [f] + sorted)|
    ensures |InsertField(f, sorted)| == |sorted| + 1
    decreases |sorted|
  {
    if sorted != [] && KeyLess(sorted[0], f) {
      var rest := InsertField(f, sorted[1..]);
      InsertLength(parent, f, sorted[1..]);
      assert InsertField(f, sorted) == [sorted[0]] + rest && ([sorted[0]] + rest)[1..] == rest;
      assert ([f] + sorted)[1..] == sorted && ([f] + sorted[1..])[1..] == sorted[1..];
      FieldsLength(parent, [sorted[0]] + rest);
      FieldsLength(parent, [f] + sorted);
      FieldsLength(parent, sorted);
      FieldsLength(parent, [f] + sorted[1..]);
    }
  }

  lemma {:induction false} SortLength(parent: Json, fields: seq<Field>)
    requires forall f :: f in fields ==> f.value < parent && Clean(f.value)
    ensures forall f :: f in SortFields(fields) ==> f.value < parent && Clean(f.value)
    ensures |FieldsText(parent, SortFields(fields))| == |FieldsText(parent, fields)|
    decreases |fields|
  {
    SortFieldsMembers(fields);
    if fields != [] {
      var sorted := SortFields(fields[1..]);
      SortFieldsMembers(fields[1..]);
      SortLength(parent, fields[1..]);
      InsertLength(parent, fields[0], sorted);
      assert ([fields[0]] + sorted)[1..] == sorted;
      FieldsLength(parent, [fields[0]] + sorted);
      FieldsLength(parent, fields);
    }
  }

  lemma AscendingIsSorted(fields: seq<Field>)
    requires Clean(Object(fields)) && Ascending(Object(fields))
    ensures SortFields(fields) == fields
  {
    forall i, j | 0 <= i < j < |fields|
      ensures KeyLess(fields[i], fields[j])
    {
      Utf16OrderIsTotal(fields[i].key, fields[j].key);
    }
    SortOfSorted(fields);
  }

  // ----- values

  predicate Neat(tree: Tree)
    requires Well(tree)
  {
    LowerCase(tree) && Ascending(Meaning(tree))
  }

  lemma TightKey(chars: seq<Char>)
    requires WellChars(chars)
    ensures Tight(Quote(CharsMeaning(chars)), [0x22] + CharsSpelling(chars) + [0x22], LowerChars(chars))
  {
    ShortestChars(chars);
  }

  lemma TightEntry(e: Entry, plain: bool)
    requires WellEntry(e) && Clean(Meaning(e.value))
    requires Tight(CanonicalText(Meaning(e.value)), Spelling(e.value), plain) && (plain ==> LowerChars(e.key))
    ensures Tight(Quote(CharsMeaning(e.key)) + [58] + CanonicalText(Meaning(e.value)), EntrySpelling(e), plain)
  {
    var key, value := [0x22] + CharsSpelling(e.key) + [0x22], e.afterColon + Spelling(e.value) + e.after;
    TightKey(e.key);
    TightBlanks(Quote(CharsMeaning(e.key)), key, e.before, e.beforeColon, plain);
    TightBlanks(CanonicalText(Meaning(e.value)), Spelling(e.value), e.afterColon, e.after, plain);
    TightJoin(Quote(CharsMeaning(e.key)), e.before + key + e.beforeColon, CanonicalText(Meaning(e.value)), value, [58],
              plain);
    EntryGroups(e, key);
  }

  lemma EntryGroups(e: Entry, key: Text)
    requires key == [0x22] + CharsSpelling(e.key) + [0x22]
    ensures EntrySpelling(e) == e.before + key + e.beforeColon + [58] + (e.afterColon + Spelling(e.value) + e.after)
  {
    var front: Text := e.before + key + e.beforeColon + [58];
    Associates(front, e.afterColon, Spelling(e.value));
    Associates(front, e.afterColon + Spelling(e.value), e.after);
  }

  lemma TightBrackets(a: Text, b: Text, open: CodePoint, close: CodePoint, plain: bool)
    requires Tight(a, b, plain)
    ensures Tight([open] + a + [close], [open] + b + [close], plain)
  {
  }

  lemma {:induction false} ShortestArray(tree: Tree)
    requires tree.ArrayTree? && Well(tree) && Shaped(Meaning(tree)) && Clean(Meaning(tree))
    ensures Tight(CanonicalText(Meaning(tree)), Spelling(tree), Neat(tree))
    decreases tree, 0
  {
    var v, slots := Meaning(tree), tree.slots;
    forall i | 0 <= i < |slots|
      ensures Tight(CanonicalText(v.items[i]), SlotSpelling(slots[i]), Neat(tree))
    {
      assert v.items[i] == Meaning(slots[i].value);
      Shortest(slots[i].value);
      TightBlanks(CanonicalText(v.items[i]), Spelling(slots[i].value), slots[i].before, slots[i].after, Neat(tree));
    }
    TightItems(v, v.items, slots, Neat(tree));
    var inside := if slots == [] then tree.blank else SlotsSpelling(slots);
    TightBrackets(ItemsText(v, v.items), inside, 0x5B, 0x5D, Neat(tree));
  }

  lemma {:induction false} ShortestObject(tree: Tree)
    requires tree.ObjectTree? && Well(tree) && Shaped(Meaning(tree)) && Clean(Meaning(tree))
    ensures Tight(CanonicalText(Meaning(tree)), Spelling(tree), Neat(tree))
    decreases tree, 0
  {
    var v, entries := Meaning(tree), tree.entries;
    forall i | 0 <= i < |entries|
      ensures Clean(v.fields[i].value)
      ensures Tight(Quote(v.fields[i].key) + [58] + CanonicalText(v.fields[i].value), EntrySpelling(entries[i]),
                    Neat(tree))
    {
      assert v.fields[i] == Field(CharsMeaning(entries[i].key), Meaning(entries[i].value));
      Shortest(entries[i].value);
      TightEntry(entries[i], Neat(tree));
    }
    FieldsAreMembers(v);
    TightFields(v, v.fields, entries, Neat(tree));
    SortLength(v, v.fields);
    if Neat(tree) {
      AscendingIsSorted(v.fields);
    }
    var inside := if entries == [] then tree.blank else EntriesSpelling(entries);
    TightBrackets(FieldsText(v, SortFields(v.fields)), inside, 0x7B, 0x7D, Neat(tree));
  }

  lemma FieldsAreMembers(v: Json)
    requires v.Object? && Clean(v)
    ensures forall f :: f in v.fields ==> f.value < v && Clean(f.value)
  {
  }

  /** No spelling of a value is shorter than its canonical text, and a neat one as short is that text. */
  lemma {:induction false} Shortest(tree: Tree)
    requires Well(tree) && Shaped(Meaning(tree)) && Clean(Meaning(tree))
    ensures Tight(CanonicalText(Meaning(tree)), Spelling(tree), Neat(tree))
    decreases tree, 1
  {
    match tree {
      case NumberTree(n) => ShortestNumber(n);
      case StringTree(chars) => TightKey(chars);
      case ArrayTree(_, _) => ShortestArray(tree);
      case ObjectTree(_, _) => ShortestObject(tree);
      case _ =>
    }
  }

  // ----- canonical text is neat

  lemma {:induction false} PlainCharsAreLower(t: Text)
    ensures LowerChars(PlainChars(t))
    decreases |t|
  {
    if t != [] {
      PlainCharsAreLower(t[1..]);
      var chars := PlainChars(t);
      assert forall i :: 1 <= i < |chars| ==> chars[i] == PlainChars(t[1..])[i - 1];
    }
  }

  lemma {:induction false} PlainIsLower(v: Json)
    requires Clean(v)
    ensures LowerCase(PlainTree(v))
    decreases v
  {
    match v {
      case String(t) => PlainCharsAreLower(t);
      case List(items) =>
        forall i | 0 <= i < |items|
          ensures LowerCase(PlainTree(items[i]))
        {
          PlainIsLower(items[i]);
        }
      case Object(fields) =>
        forall i | 0 <= i < |fields|
          ensures LowerChars(PlainChars(fields[i].key)) && LowerCase(PlainTree(fields[i].value))
        {
          PlainCharsAreLower(fields[i].key);
          PlainIsLower(fields[i].value);
        }
      case _ =>
    }
  }

  lemma {:induction false} NormalIsAscending(v: Json)
    requires Clean(v) && Shaped(v)
    ensures Ascending(Normalize(v))
    decreases v
  {
    match v {
      case List(items) =>
        forall i | 0 <= i < |items|
          ensures Ascending(Normalize(items[i]))
        {
          NormalIsAscending(items[i]);
        }
      case Object(fields) =>
        var sorted := SortFields(fields);
        NormalizeObject(fields);
        SortedMembers(v);
        forall i, j | 0 <= i < j < |sorted|
          ensures LexLess(Utf16Units(sorted[i].key), Utf16Units(sorted[j].key))
        {
          PrintedInCodeUnitOrder(fields, i, j);
        }
        forall i | 0 <= i < |sorted|
          ensures Ascending(Normalize(sorted[i].value))
        {
          assert sorted[i] in sorted;
          NormalIsAscending(sorted[i].value);
        }
      case _ =>
    }
  }

  // ----- main result

  /** The derivation spells a value equal to `v`. */
  ghost predicate Derives(tree: Tree, v: Json) {
    Well(tree) && Shaped(Meaning(tree)) && Clean(Meaning(tree)) && SameValue(v, Meaning(tree))
  }

  /** Of all that spell the value none is shorter. */
  ghost predicate IsShortest(tree: Tree, v: Json) {
    forall other :: Derives(other, v) ==> |Spelling(tree)| <= |Spelling(other)|
  }

  lemma SameText(v: Json, w: Json)
    requires Shaped(v) && Clean(v) && Shaped(w) && Clean(w) && SameValue(v, w)
    ensures CanonicalText(v) == CanonicalText(w)
  {
    SameHasOneForm(v, w);
    TextOfNormal(v);
    TextOfNormal(w);
  }

  /** Canonical text is spelled so. */
  lemma CanonicalDerives(v: Json) returns (tree: Tree)
    requires Shaped(v) && Clean(v)
    ensures Derives(tree, v) && Spelling(tree) == CanonicalText(v) && Neat(tree) && IsShortest(tree, v)
  {
    var w := Normalize(v);
    NormalizeKeepsShape(v);
    tree := PlainTree(w);
    CanonicalIsPlain(v);
    PlainTreeMeans(w);
    NormalizeTwice(v);
    OneFormIsSame(v, w);
    PlainIsLower(w);
    NormalIsAscending(v);
    forall other | Derives(other, v)
      ensures |Spelling(tree)| <= |Spelling(other)|
    {
      Shortest(other);
      SameText(v, Meaning(other));
    }
  }

  /**
   Which bytes are canonical, without reference to the printer: of all the texts that spell a value equal to
   `v` by the grammar of RFC 8259, the shortest one with members in code-unit order and without upper-case
   hexadecimal digits, in UTF-8.
   */
  lemma CanonicalExactly(v: Json, raw: seq<Byte>)
    requires Shaped(v) && CanonicalizationErrors(v, []) == []
    ensures CanonicalBytes(v) == Ok(raw) <==>
            exists tree ::
              Derives(tree, v) && LowerCase(tree) && Ascending(Meaning(tree)) && IsShortest(tree, v)
              && raw == EncodeUtf8(Spelling(tree))
  {
    ErrorFreeIsClean(v, []);
    var plain := CanonicalDerives(v);
    if tree :| && Derives(tree, v) && LowerCase(tree) && Ascending(Meaning(tree)) && IsShortest(tree, v)
               && raw == EncodeUtf8(Spelling(tree)) {
      Shortest(tree);
      SameText(v, Meaning(tree));
      assert |Spelling(tree)| <= |Spelling(plain)|;
    }
  }

  lemma {:induction false} AsciiBytes(t: Text, raw: seq<Byte>)
    requires |raw| == |t| && forall i :: 0 <= i < |t| ==> t[i] == raw[i] && t[i] < 0x80
    ensures EncodeUtf8(t) == raw
    decreases |t|
  {
    if t != [] {
      AsciiBytes(t[1..], raw[1..]);
    }
  }

  /** The literals, byte by byte. */
  lemma CanonicalLiterals()
    ensures CanonicalBytes(Null) == Ok([0x6E, 0x75, 0x6C, 0x6C])
    ensures CanonicalBytes(Boolean(true)) == Ok([0x74, 0x72, 0x75, 0x65])
    ensures CanonicalBytes(Boolean(false)) == Ok([0x66, 0x61, 0x6C, 0x73, 0x65])
  {
    AsciiBytes(CanonicalText(Null), [0x6E, 0x75, 0x6C, 0x6C]);
    AsciiBytes(CanonicalText(Boolean(true)), [0x74, 0x72, 0x75, 0x65]);
    AsciiBytes(CanonicalText(Boolean(false)), [0x66, 0x61, 0x6C, 0x73, 0x65]);
  }
}
