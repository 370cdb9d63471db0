/** Whatever the strict reader accepts is a text of the grammar, and read as what it means. */
module JsonAccepting {
  import opened Common
  import opened Unicode
  import opened CanonicalJson
  import opened JsonGrammar
  import opened JsonReader
  import opened JsonReading

  // ----- strings

  lemma NumericEscapeOf(digits: Text, rest: Text) returns (ch: Char)
    requires |digits| == 4 && ParseEscape([0x75] + digits + rest).Parsed?
    ensures var r := ParseEscape([0x75] + digits + rest);
            && WellChar(ch) && CharMeaning(ch) == r.value && CharSpelling(ch)[0] == 0x5C
            && [0x75] + digits + rest == CharSpelling(ch)[1..] + r.rest
            && (ch.Hex? && IsHigh(ch.digits) ==> !LowAhead(r.rest))
  {
    UnicodeEscape(digits, rest);
    if IsHigh(digits) && LowAhead(rest) {
      ch := Pair(digits, rest[2..6]);
      PairText(digits, rest);
    } else {
      ch := Hex(digits);
      assert CharSpelling(ch)[1..] == [0x75] + digits;
    }
  }

  lemma EscapeOf(t: Text) returns (ch: Char)
    requires ParseEscape(t).Parsed?
    ensures WellChar(ch) && CharMeaning(ch) == ParseEscape(t).value && CharSpelling(ch)[0] == 0x5C
    ensures t == CharSpelling(ch)[1..] + ParseEscape(t).rest
    ensures ch.Hex? && IsHigh(ch.digits) ==> !LowAhead(ParseEscape(t).rest)
  {
    if t[0] != 0x75 {
      ch := Short(t[0]);
      Cut(t, 1);
    } else {
      assert t == [0x75] + t[1..5] + t[5..];
      ch := NumericEscapeOf(t[1..5], t[5..]);
    }
  }

  lemma PairText(high: Text, rest: Text)
    requires LowAhead(rest)
    ensures [0x75] + high + rest == CharSpelling(Pair(high, rest[2..6]))[1..] + rest[6..]
  {
    var low := rest[2..6];
    assert rest == [0x5C, 0x75] + low + rest[6..];
    assert CharSpelling(Pair(high, low))[1..] == [0x75] + high + ([0x5C, 0x75] + low);
    Associates([0x75] + high, [0x5C, 0x75] + low, rest[6..]);
  }

  lemma {:induction false} CharsOf(t: Text) returns (chars: seq<Char>)
    requires ParseChars(t).Parsed?
    ensures WellChars(chars) && CharsMeaning(chars) == ParseChars(t).value
    ensures t == CharsSpelling(chars) + ([0x22] + ParseChars(t).rest)
    decreases |t|
  {
    if t[0] == 0x22 {
      chars := [];
      assert t == [0x22] + t[1..];
    } else if t[0] == 0x5C {
      var ch := EscapeOf(t[1..]);
      var tail := ParseEscape(t[1..]).rest;
      var more := CharsOf(tail);
      assert CharSpelling(ch) == [0x5C] + CharSpelling(ch)[1..];
      Associates([0x5C], CharSpelling(ch)[1..], tail);
      assert t == [0x5C] + t[1..];
      chars := OneMore(ch, more, tail, ParseChars(tail).rest);
    } else {
      var more := CharsOf(t[1..]);
      assert t == [t[0]] + t[1..];
      chars := OneMore(Plain(t[0]), more, t[1..], ParseChars(t[1..]).rest);
    }
  }

  lemma OneMore(ch: Char, more: seq<Char>, tail: Text, rest: Text) returns (chars: seq<Char>)
    requires WellChar(ch) && WellChars(more) && tail == CharsSpelling(more) + ([0x22] + rest)
    requires ch.Hex? && IsHigh(ch.digits) ==> !LowAhead(tail)
    ensures WellChars(chars) && CharsMeaning(chars) == [CharMeaning(ch)] + CharsMeaning(more)
    ensures CharSpelling(ch) + tail == CharsSpelling(chars) + ([0x22] + rest)
  {
    chars := [ch] + more;
    assert chars[1..] == more;
    if more != [] && Joins(ch, more[0]) {
      CharsCons(more, [0x22] + rest);
      LowIsAhead(more[0].digits, CharsSpelling(more[1..]) + ([0x22] + rest));
    }
    CharsCons(chars, [0x22] + rest);
  }

  lemma LowIsAhead(digits: Text, more: Text)
    requires IsLow(digits)
    ensures LowAhead(CharSpelling(Hex(digits)) + more)
  {
    assert (CharSpelling(Hex(digits)) + more)[2..6] == digits;
  }

  // ----- numbers

  lemma FractionOf(t: Text)
    ensures WellFraction(t[..FractionLength(t)])
  {
    var n := FractionLength(t);
    if n > 0 {
      assert t[..n][1..] == t[1..][..n - 1];
    }
  }

  lemma ExponentOf(t: Text)
    ensures WellExponent(t[..ExponentLength(t)])
  {
    var n := ExponentLength(t);
    if n > 0 {
      var signed := if StartsWith(t[1..], 43) || StartsWith(t[1..], 45) then 2 else 1;
      assert t[..n][signed..] == t[signed..][..n - signed];
      assert signed == 2 ==> t[1..][0] == t[..n][1];
    }
  }

  lemma Cut(t: Text, n: nat)
    requires n <= |t|
    ensures t == t[..n] + t[n..]
  {
  }

  lemma CutNumber(body: Text, k: nat, f: nat, e: nat)
    requires k <= |body| && f <= |body[k..]| && e <= |body[k..][f..]|
    ensures body == body[..k] + (body[k..][..f] + (body[k..][f..][..e] + body[k..][f..][e..]))
  {
    Cut(body, k);
    Cut(body[k..], f);
    Cut(body[k..][f..], e);
  }

  /** The number in front of `body`, cut where the reader cuts it. */
  function NumberAt(body: Text, negative: bool): Number {
    var k := if StartsWith(body, 48) then 1 else DigitCount(body);
    var f := FractionLength(body[k..]);
    Number(negative, body[..k], body[k..][..f], body[k..][f..][..ExponentLength(body[k..][f..])])
  }

  lemma NumberAtIsWell(body: Text, negative: bool)
    requires ParseUnsigned(body, negative).Parsed?
    ensures WellNumber(NumberAt(body, negative))
  {
    var k := if StartsWith(body, 48) then 1 else DigitCount(body);
    FractionOf(body[k..]);
    ExponentOf(body[k..][FractionLength(body[k..])..]);
  }

  lemma UnsignedRest(body: Text, negative: bool)
    requires ParseUnsigned(body, negative).Parsed?
    ensures var k := if StartsWith(body, 48) then 1 else DigitCount(body);
            var f := FractionLength(body[k..]);
            ParseUnsigned(body, negative).rest == body[k..][f..][ExponentLength(body[k..][f..])..]
  {
    var k := if StartsWith(body, 48) then 1 else DigitCount(body);
    var f := FractionLength(body[k..]);
    assert body[k..][0..] == body[k..];
    assert body[k..][f..][0..] == body[k..][f..];
  }

  lemma UnsignedOf(body: Text, negative: bool)
    requires ParseUnsigned(body, negative).Parsed?
    ensures var n := NumberAt(body, negative);
            body == n.digits + (n.fraction + (n.exponent + ParseUnsigned(body, negative).rest))
  {
    var k := if StartsWith(body, 48) then 1 else DigitCount(body);
    var f := FractionLength(body[k..]);
    UnsignedRest(body, negative);
    CutNumber(body, k, f, ExponentLength(body[k..][f..]));
  }

  lemma UnsignedMeans(body: Text, negative: bool)
    requires ParseUnsigned(body, negative).Parsed?
    ensures NumberMeaning(NumberAt(body, negative)) == ParseUnsigned(body, negative).value
  {
    var k := if StartsWith(body, 48) then 1 else DigitCount(body);
    var afterInteger := body[k..];
    var f := FractionLength(afterInteger);
    var afterFraction := afterInteger[f..];
    var e := ExponentLength(afterFraction);
    assert |afterFraction[e..]| == |afterInteger| - f - e;
    assert |afterInteger[..f]| == f && |afterFraction[..e]| == e;
    MagnitudeAgrees(body[..k]);
  }

  lemma NumberOf(t: Text) returns (n: Number)
    requires ParseNumber(t).Parsed?
    ensures WellNumber(n) && NumberMeaning(n) == ParseNumber(t).value
    ensures t == NumberSpelling(n) + ParseNumber(t).rest
  {
    var negative := StartsWith(t, 45);
    var body := if negative then t[1..] else t;
    n := NumberAt(body, negative);
    NumberAtIsWell(body, negative);
    UnsignedMeans(body, negative);
    UnsignedOf(body, negative);
    SignInFront(t, negative, body);
    NumberText(n, ParseNumber(t).rest);
  }

  lemma SignInFront(t: Text, negative: bool, body: Text)
    requires negative <==> StartsWith(t, 45)
    requires body == if negative then t[1..] else t
    ensures t == (if negative then [0x2D] else []) + body
  {
  }

  // ----- values

  lemma AtomOf(t: Text) returns (tree: Tree)
    requires ParseAtom(t).Parsed?
    ensures Well(tree) && Meaning(tree) == ParseAtom(t).value && t == Spelling(tree) + ParseAtom(t).rest
  {
    if NULL_TEXT <= t {
      tree := NullTree;
      Cut(t, 4);
    } else if TRUE_TEXT <= t {
      tree := TrueTree;
      Cut(t, 4);
    } else if FALSE_TEXT <= t {
      tree := FalseTree;
      Cut(t, 5);
    } else {
      var n := NumberOf(t);
      tree := NumberTree(n);
    }
  }

  lemma StringOf(t: Text) returns (tree: Tree)
    requires t != [] && t[0] == 0x22 && ParseValue(t).Parsed?
    ensures Well(tree) && Meaning(tree) == ParseValue(t).value && t == Spelling(tree) + ParseValue(t).rest
  {
    var chars := CharsOf(t[1..]);
    tree := StringTree(chars);
    Cut(t, 1);
    KeyInFront(CharsSpelling(chars), ParseValue(t).rest);
  }

  // ----- arrays

  /** The text starts with this character. */
  lemma Opens(t: Text, c: CodePoint)
    requires StartsWith(t, c)
    ensures t == [c] + t[1..]
  {
  }

  /** A list of elements in front of `rest`; the white space before the first one is not part of it. */
  ghost predicate SlotsAre(t: Text, slots: seq<Slot>, items: seq<Json>, rest: Text) {
    slots != [] && WellSlots(slots) && SlotsMeaning(slots) == items && t == SlotsText(slots, rest)
  }

  lemma LastSlot(tree: Tree, after: Text, rest: Text)
    requires Well(tree) && Blanks(after)
    ensures SlotsAre(Spelling(tree) + (after + ([0x5D] + rest)), [Slot([], tree, after)], [Meaning(tree)], rest)
  {
  }

  lemma MoreSlots(tree: Tree, after: Text, before: Text, t: Text, more: seq<Slot>, items: seq<Json>, rest: Text)
    returns (slots: seq<Slot>)
    requires Well(tree) && Blanks(after) && Blanks(before) && SlotsAre(t, more, items, rest)
    ensures SlotsAre(Spelling(tree) + (after + ([0x2C] + (before + t))), slots, [Meaning(tree)] + items, rest)
  {
    var tail := [more[0].(before := before)] + more[1..];
    slots := [Slot([], tree, after)] + tail;
    assert slots[1..] == tail && tail[1..] == more[1..];
    assert forall i :: 1 <= i < |more| ==> tail[i] == more[i];
    SlotsCons(tail);
    SlotsCons(more);
    SameText(tail, more, rest);
    SlotsCons(slots);
  }

  lemma SameText(a: seq<Slot>, b: seq<Slot>, rest: Text)
    requires a != [] && b != [] && a[1..] == b[1..] && a[0].value == b[0].value && a[0].after == b[0].after
    ensures SlotsText(a, rest) == SlotsText(b, rest)
  {
    assert |a| == |a[1..]| + 1 && |b| == |b[1..]| + 1;
    if |a| > 1 {
      assert a[1] == a[1..][0] && b[1] == b[1..][0];
    }
  }

  lemma {:induction false} ElementsOf(t: Text) returns (slots: seq<Slot>)
    requires ParseElements(t).Parsed?
    ensures SlotsAre(t, slots, ParseElements(t).value, ParseElements(t).rest)
    decreases |t|, 1
  {
    var tree := TreeOf(t);
    var afterValue := ParseValue(t).rest;
    var after := SkipSplits(afterValue);
    var next := SkipSpace(afterValue);
    if StartsWith(next, 0x5D) {
      Opens(next, 0x5D);
      slots := [Slot([], tree, after)];
      LastSlot(tree, after, next[1..]);
    } else {
      Opens(next, 0x2C);
      var before := SkipSplits(next[1..]);
      var more := ElementsOf(SkipSpace(next[1..]));
      var rest := ParseElements(SkipSpace(next[1..]));
      slots := MoreSlots(tree, after, before, SkipSpace(next[1..]), more, rest.value, rest.rest);
    }
  }

  lemma {:induction false} ArrayOf(t: Text) returns (tree: Tree)
    requires StartsWith(t, 0x5B) && ParseValue(t).Parsed?
    ensures Well(tree) && Meaning(tree) == ParseValue(t).value && t == Spelling(tree) + ParseValue(t).rest
    decreases |t|, 0, 0
  {
    var blank := SkipSplits(t[1..]);
    var inside, rest := SkipSpace(t[1..]), ParseValue(t).rest;
    Opens(t, 0x5B);
    if StartsWith(inside, 0x5D) {
      tree := ArrayTree(blank, []);
      Opens(inside, 0x5D);
      Associates([0x5B] + blank, [0x5D], rest);
      Associates([0x5B], blank, [0x5D] + rest);
    } else {
      var slots := ElementsOf(inside);
      slots := FilledArray(blank, slots, inside, rest);
      tree := ArrayTree([], slots);
      Associates([0x5B] + SlotsSpelling(slots), [0x5D], rest);
      Associates([0x5B], SlotsSpelling(slots), [0x5D] + rest);
    }
  }

  /** The white space after the bracket belongs to the first element. */
  lemma FilledArray(blank: Text, given: seq<Slot>, inside: Text, rest: Text) returns (slots: seq<Slot>)
    requires Blanks(blank) && given != [] && WellSlots(given) && inside == SlotsText(given, rest)
    ensures slots != [] && WellSlots(slots) && SlotsMeaning(slots) == SlotsMeaning(given)
    ensures SlotsSpelling(slots) + ([0x5D] + rest) == blank + inside
  {
    slots := [given[0].(before := blank)] + given[1..];
    assert slots[1..] == given[1..];
    assert forall i :: 1 <= i < |given| ==> slots[i] == given[i];
    SlotsCons(slots);
    SlotsCons(given);
    SameText(slots, given, rest);
    SlotsInFront(slots, rest);
  }

  // ----- objects

  ghost predicate EntriesAre(t: Text, entries: seq<Entry>, fields: seq<Field>, rest: Text) {
    entries != [] && WellEntries(entries) && EntriesMeaning(entries) == fields && t == EntriesText(entries, rest)
  }

  lemma LastEntry(e: Entry, rest: Text)
    requires WellEntry(e)
    ensures EntriesAre(EntryText(e, e.after + ([0x7D] + rest)), [e], [EntryMeaning(e)], rest)
  {
  }

  lemma MoreEntries(e: Entry, before: Text, t: Text, more: seq<Entry>, fields: seq<Field>, rest: Text)
    returns (entries: seq<Entry>)
    requires WellEntry(e) && Blanks(before) && EntriesAre(t, more, fields, rest)
    ensures EntriesAre(EntryText(e, e.after + ([0x2C] + (before + t))), entries, [EntryMeaning(e)] + fields, rest)
  {
    var tail := [more[0].(before := before)] + more[1..];
    entries := [e] + tail;
    assert entries[1..] == tail && tail[1..] == more[1..];
    assert forall i :: 1 <= i < |more| ==> tail[i] == more[i];
    EntriesCons(tail);
    EntriesCons(more);
    SameEntries(tail, more, rest);
    EntriesCons(entries);
  }

  lemma SameEntries(a: seq<Entry>, b: seq<Entry>, rest: Text)
    requires a != [] && b != [] && a[1..] == b[1..] && a[0].(before := []) == b[0].(before := [])
    ensures EntriesText(a, rest) == EntriesText(b, rest)
  {
    assert |a| == |a[1..]| + 1 && |b| == |b[1..]| + 1;
    if |a| > 1 {
      assert a[1] == a[1..][0] && b[1] == b[1..][0];
    }
    assert AfterEntry(a, rest) == AfterEntry(b, rest);
  }

  /** A member up to and including its value. */
  lemma {:induction false} EntryOf(t: Text) returns (e: Entry, afterValue: Text)
    requires ParseMembers(t).Parsed?
    ensures WellEntry(e) && e.before == [] && e.after == [] && |afterValue| < |t|
    ensures t == EntryText(e, afterValue)
    ensures ParseMembers(t) == AfterField(EntryMeaning(e), SkipSpace(afterValue))
    decreases |t|, 0
  {
    var key := CharsOf(t[1..]);
    Opens(t, 0x22);
    var afterKey := ParseChars(t[1..]).rest;
    var beforeColon := SkipSplits(afterKey);
    var colon := SkipSpace(afterKey);
    Opens(colon, 0x3A);
    var afterColon := SkipSplits(colon[1..]);
    var text := SkipSpace(colon[1..]);
    var value := TreeOf(text);
    afterValue := ParseValue(text).rest;
    e := Entry([], key, beforeColon, afterColon, value, []);
  }

  lemma {:induction false} MembersOf(t: Text) returns (entries: seq<Entry>)
    requires ParseMembers(t).Parsed?
    ensures EntriesAre(t, entries, ParseMembers(t).value, ParseMembers(t).rest)
    decreases |t|, 1
  {
    var e, afterValue := EntryOf(t);
    var after := SkipSplits(afterValue);
    var next := SkipSpace(afterValue);
    var full := e.(after := after);
    assert EntryMeaning(full) == EntryMeaning(e);
    if StartsWith(next, 0x7D) {
      Opens(next, 0x7D);
      entries := [full];
      LastEntry(full, next[1..]);
    } else {
      Opens(next, 0x2C);
      var before := SkipSplits(next[1..]);
      var more := MembersOf(SkipSpace(next[1..]));
      var rest := ParseMembers(SkipSpace(next[1..]));
      entries := MoreEntries(full, before, SkipSpace(next[1..]), more, rest.value, rest.rest);
    }
  }

  lemma EmptyObjectText(blank: Text, rest: Text)
    ensures Spelling(ObjectTree(blank, [])) + rest == [0x7B] + (blank + ([0x7D] + rest))
  {
    Associates([0x7B] + blank, [0x7D], rest);
    Associates([0x7B], blank, [0x7D] + rest);
  }

  lemma FullObjectText(entries: seq<Entry>, rest: Text)
    requires entries != []
    ensures Spelling(ObjectTree([], entries)) + rest == [0x7B] + (EntriesSpelling(entries) + ([0x7D] + rest))
  {
    Associates([0x7B] + EntriesSpelling(entries), [0x7D], rest);
    Associates([0x7B], EntriesSpelling(entries), [0x7D] + rest);
  }

  lemma {:induction false} ObjectOf(t: Text) returns (tree: Tree)
    requires StartsWith(t, 0x7B) && ParseValue(t).Parsed?
    ensures Well(tree) && Meaning(tree) == ParseValue(t).value && t == Spelling(tree) + ParseValue(t).rest
    decreases |t|, 0, 0
  {
    var blank := SkipSplits(t[1..]);
    var inside, rest := SkipSpace(t[1..]), ParseValue(t).rest;
    Opens(t, 0x7B);
    if StartsWith(inside, 0x7D) {
      tree := ObjectTree(blank, []);
      Opens(inside, 0x7D);
      EmptyObjectText(blank, rest);
    } else {
      var entries := MembersOf(inside);
      tree := FilledObject(blank, entries, inside, rest);
    }
  }

  /** The white space after the brace belongs to the first member. */
  lemma FilledObject(blank: Text, given: seq<Entry>, inside: Text, rest: Text) returns (tree: Tree)
    requires Blanks(blank) && given != [] && WellEntries(given) && inside == EntriesText(given, rest)
    ensures Well(tree) && Meaning(tree) == Object(EntriesMeaning(given))
    ensures Spelling(tree) + rest == [0x7B] + (blank + inside)
  {
    var entries := [given[0].(before := blank)] + given[1..];
    tree := ObjectTree([], entries);
    assert entries[1..] == given[1..];
    assert forall i :: 1 <= i < |given| ==> entries[i] == given[i];
    EntriesCons(entries);
    EntriesCons(given);
    assert Meaning(tree) == Object(EntriesMeaning(entries));
    SameEntries(entries, given, rest);
    EntriesInFront(entries, rest);
    FullObjectText(entries, rest);
  }

  /** Every value that the reader takes off the front of a text is spelled there, and means what was read. */
  lemma {:induction false} TreeOf(t: Text) returns (tree: Tree)
    requires ParseValue(t).Parsed?
    ensures Well(tree) && Meaning(tree) == ParseValue(t).value && t == Spelling(tree) + ParseValue(t).rest
    decreases |t|, 0, 1
  {
    if t[0] == 0x22 {
      tree := StringOf(t);
    } else if t[0] == 0x7B {
      tree := ObjectOf(t);
    } else if t[0] == 0x5B {
      tree := ArrayOf(t);
    } else {
      tree := AtomOf(t);
    }
  }

  // ----- texts

  lemma {:induction false} OnlyBlanks(t: Text)
    requires Blanks(t)
    ensures SkipSpace(t) == []
  {
    SkipsBlanks(t, []);
    assert t + [] == t;
  }

  lemma AcceptedIsSpelled(raw: seq<Byte>) returns (text: Text)
    requires StrictJsonLoads(raw).Ok?
    ensures NoSurrogates(text) && raw == EncodeUtf8(text)
    ensures Spells(text, StrictJsonLoads(raw).value) && Clean(StrictJsonLoads(raw).value)
  {
    EncodeDecoded(raw);
    text := DecodeUtf8(raw).value;
    var before := SkipSplits(text);
    var tree := TreeOf(SkipSpace(text));
    var rest := ParseValue(SkipSpace(text)).rest;
    var after := SkipSplits(rest);
    assert rest == after + [] == after;
    Associates(before, Spelling(tree), after);
    assert IsText(text, before, tree, after);
    ErrorFreeIsClean(StrictJsonLoads(raw).value, []);
  }

  lemma SpelledIsAccepted(text: Text, v: Json)
    requires NoSurrogates(text) && Spells(text, v) && Clean(v)
    ensures StrictJsonLoads(EncodeUtf8(text)) == Ok(v)
  {
    var before, tree, after :| IsText(text, before, tree, after) && Meaning(tree) == v;
    DecodeEncoded(text);
    SpellingIsSolid(tree, after);
    Associates(before, Spelling(tree), after);
    SkipsBlanks(before, Spelling(tree) + after);
    ReadsTree(tree, after);
    OnlyBlanks(after);
    ErrorFreeIsClean(v, []);
  }

  /**
   The strict reader gives `v` exactly for the UTF-8 encodings of texts that spell `v` by the grammar of RFC
   8259, whatever their white space and escapes, when no object repeats a key and `v` is in the canonical
   domain. Everything else is refused.
   */
  lemma AcceptsExactly(raw: seq<Byte>, v: Json)
    ensures StrictJsonLoads(raw) == Ok(v) <==>
            exists text: Text :: NoSurrogates(text) && raw == EncodeUtf8(text) && Spells(text, v) && Clean(v)
  {
    if StrictJsonLoads(raw) == Ok(v) {
      var text := AcceptedIsSpelled(raw);
    } else if text: Text :| NoSurrogates(text) && raw == EncodeUtf8(text) && Spells(text, v) && Clean(v) {
      SpelledIsAccepted(text, v);
    }
  }
}
