/**
 The canonical text of a value spells it, in the plainest way there is. So the strict reader gives printed
 values back, up to the order of members.
 */
module JsonRoundTrip {
  import opened Common
  import opened Unicode
  import opened CanonicalJson
  import opened JsonGrammar
  import opened JsonReader
  import opened JsonReading

  // ----- normalization

  function NormalizeItems(items: seq<Json>): (r: seq<Json>)
    ensures |r| == |items|
  {
    seq(|items|, i requires 0 <= i < |items| => Normalize(items[i]))
  }

  function NormalizeFields(fields: seq<Field>): (r: seq<Field>)
    ensures |r| == |fields|
  {
    seq(|fields|, i requires 0 <= i < |fields| => Field(fields[i].key, Normalize(fields[i].value)))
  }

  lemma NormalizeCons(f: Field, fields: seq<Field>)
    ensures NormalizeFields([f] + fields) == [Field(f.key, Normalize(f.value))] + NormalizeFields(fields)
  {
    assert forall i :: 0 < i <= |fields| ==> ([f] + fields)[i] == fields[i - 1];
  }

  lemma {:induction false} InsertCommutes(f: Field, sorted: seq<Field>)
    ensures InsertField(Field(f.key, Normalize(f.value)), NormalizeFields(sorted)) ==
            NormalizeFields(InsertField(f, sorted))
    decreases |sorted|
  {
    if sorted == [] || !KeyLess(sorted[0], f) {
      NormalizeCons(f, sorted);
    } else {
      InsertCommutes(f, sorted[1..]);
      assert NormalizeFields(sorted)[1..] == NormalizeFields(sorted[1..]);
      NormalizeCons(sorted[0], InsertField(f, sorted[1..]));
    }
  }

  /** Sorting looks at keys only. */
  lemma {:induction false} SortCommutes(fields: seq<Field>)
    ensures SortFields(NormalizeFields(fields)) == NormalizeFields(SortFields(fields))
    decreases |fields|
  {
    if fields != [] {
      SortCommutes(fields[1..]);
      assert NormalizeFields(fields)[1..] == NormalizeFields(fields[1..]);
      InsertCommutes(fields[0], SortFields(fields[1..]));
    }
  }

  lemma NormalizeObject(fields: seq<Field>)
    ensures Normalize(Object(fields)) == Object(NormalizeFields(SortFields(fields)))
  {
    SortCommutes(fields);
    assert Normalize(Object(fields)) == Object(SortFields(NormalizeFields(fields)));
  }

  lemma UniqueKeysSorted(fields: seq<Field>)
    requires UniqueKeys(fields)
    ensures UniqueKeys(SortFields(fields)) && UniqueKeys(NormalizeFields(SortFields(fields)))
  {
    SortFieldsKeeps(fields);
    var sorted := SortFields(fields);
    forall i, j | 0 <= i < j < |sorted|
      ensures sorted[i].key != sorted[j].key
    {
      if sorted[i].key == sorted[j].key {
        TwoOccurrences(fields, sorted, i, j);
      }
    }
  }

  lemma TwoOccurrences(fields: seq<Field>, sorted: seq<Field>, i: nat, j: nat)
    requires multiset(sorted) == multiset(fields) && i < j < |sorted| && sorted[i].key == sorted[j].key
    ensures !UniqueKeys(fields)
  {
    var a, b := sorted[i], sorted[j];
    assert a in multiset(fields) && b in multiset(fields);
    if a == b {
      assert sorted == sorted[..j] + [b] + sorted[j + 1..];
      assert a in sorted[..j];
      assert multiset(sorted)[a] >= 2;
      RepeatedMember(fields, a);
    } else {
      var k :| 0 <= k < |fields| && fields[k] == a;
      var l :| 0 <= l < |fields| && fields[l] == b;
      assert fields[k].key == fields[l].key;
    }
  }

  lemma {:induction false} RepeatedMember(fields: seq<Field>, f: Field)
    requires multiset(fields)[f] >= 2
    ensures exists k, l :: 0 <= k < l < |fields| && fields[k] == f && fields[l] == f
    decreases |fields|
  {
    var n := |fields| - 1;
    assert fields == fields[..n] + [fields[n]];
    if fields[n] == f {
      assert f in multiset(fields[..n]);
      var k :| 0 <= k < n && fields[..n][k] == f;
      assert fields[k] == f && fields[n] == f;
    } else {
      RepeatedMember(fields[..n], f);
      var k, l :| 0 <= k < l < n && fields[..n][k] == f && fields[..n][l] == f;
      assert fields[k] == f && fields[l] == f;
    }
  }

  lemma {:induction false} NormalizeKeepsShape(v: Json)
    requires Clean(v) && Shaped(v)
    ensures Clean(Normalize(v)) && Shaped(Normalize(v))
    decreases v
  {
    match v {
      case List(items) =>
        forall i | 0 <= i < |items|
          ensures Clean(Normalize(items[i])) && Shaped(Normalize(items[i]))
        {
          NormalizeKeepsShape(items[i]);
        }
      case Object(fields) =>
        NormalizeObject(fields);
        UniqueKeysSorted(fields);
        SortFieldsMembers(fields);
        forall i | 0 <= i < |SortFields(fields)|
          ensures NoSurrogates(SortFields(fields)[i].key)
          ensures Clean(Normalize(SortFields(fields)[i].value)) && Shaped(Normalize(SortFields(fields)[i].value))
        {
          assert SortFields(fields)[i] in fields;
          NormalizeKeepsShape(SortFields(fields)[i].value);
        }
      case _ =>
    }
  }

  // ----- the plainest spelling

  /** A short escape for what has one, the number of any other control character, all else as it is. */
  function PlainChar(c: CodePoint): (ch: Char)
    ensures WellChar(ch) && CharMeaning(ch) == c
  {
    if c == 0x22 || c == 0x5C then Short(c)
    else if c == 0x08 then Short(0x62)
    else if c == 0x09 then Short(0x74)
    else if c == 0x0A then Short(0x6E)
    else if c == 0x0C then Short(0x66)
    else if c == 0x0D then Short(0x72)
    else if c < 0x20 then Hex([0x30, 0x30, 0x30 + c / 16, LowerHex(c % 16)])
    else Plain(c)
  }

  function LowerHex(d: int): (c: CodePoint)
    requires 0 <= d < 16
    ensures IsHex(c) && HexOf(c) == d && !(0x41 <= c <= 0x46)
  {
    if d < 10 then 0x30 + d else 0x61 + d - 10
  }

  function PlainChars(t: Text): (chars: seq<Char>)
    ensures |chars| == |t|
  {
    if t == [] then [] else [PlainChar(t[0])] + PlainChars(t[1..])
  }

  lemma {:induction false} PlainCharsMean(t: Text)
    ensures WellChars(PlainChars(t)) && CharsMeaning(PlainChars(t)) == t
    decreases |t|
  {
    if t != [] {
      var chars := PlainChars(t);
      PlainCharsMean(t[1..]);
      assert chars[1..] == PlainChars(t[1..]);
      assert chars[0].Hex? ==> !IsHigh(chars[0].digits);
    }
  }

  lemma EscapeIsPlain(c: CodePoint)
    ensures EscapeChar(c) == CharSpelling(PlainChar(c))
  {
  }

  lemma {:induction false} EscapesArePlain(t: Text)
    ensures Escape(t) == CharsSpelling(PlainChars(t))
    decreases |t|
  {
    if t != [] {
      EscapeIsPlain(t[0]);
      EscapesArePlain(t[1..]);
      assert PlainChars(t)[1..] == PlainChars(t[1..]);
    }
  }

  function PlainNumber(n: int): Number {
    Number(n < 0, Decimal(if n < 0 then -n else n), [], [])
  }

  lemma {:induction false} DecimalDigits(n: nat)
    ensures Digits(Decimal(n)) && Magnitude(Decimal(n)) == n && (Decimal(n)[0] == 0x30 <==> n == 0)
    ensures n < 10 <==> |Decimal(n)| == 1
    decreases n
  {
    if n >= 10 {
      DecimalDigits(n / 10);
      var front := Decimal(n / 10);
      assert Decimal(n) == front + [48 + n % 10];
      assert (front + [48 + n % 10])[..|front|] == front;
    } else {
      assert Decimal(n)[..0] == [];
    }
  }

  lemma PlainNumberMeans(n: int)
    ensures WellNumber(PlainNumber(n)) && NumberMeaning(PlainNumber(n)) == Integer(n)
    ensures NumberSpelling(PlainNumber(n)) == IntegerText(n)
  {
    DecimalDigits(if n < 0 then -n else n);
  }

  /** A value spelled without white space, its members in the order they have. */
  function PlainTree(v: Json): Tree
    requires Clean(v)
  {
    match v
    case Null => NullTree
    case Boolean(b) => if b then TrueTree else FalseTree
    case Integer(n) => NumberTree(PlainNumber(n))
    case String(t) => StringTree(PlainChars(t))
    case List(items) => ArrayTree([], seq(|items|, i requires 0 <= i < |items| => Slot([], PlainTree(items[i]), [])))
    case Object(fields) =>
      ObjectTree([], seq(|fields|, i requires 0 <= i < |fields| =>
                                     Entry([], PlainChars(fields[i].key), [], [], PlainTree(fields[i].value), [])))
  }

  lemma {:induction false} PlainTreeMeans(v: Json)
    requires Clean(v)
    ensures Well(PlainTree(v)) && Meaning(PlainTree(v)) == v
    decreases v
  {
    match v {
      case Integer(n) => PlainNumberMeans(n);
      case String(t) => PlainCharsMean(t);
      case List(items) =>
        forall i | 0 <= i < |items|
          ensures Well(PlainTree(items[i])) && Meaning(PlainTree(items[i])) == items[i]
        {
          PlainTreeMeans(items[i]);
        }
        assert Meaning(PlainTree(v)).items == items;
      case Object(fields) =>
        forall i | 0 <= i < |fields|
          ensures WellChars(PlainChars(fields[i].key)) && CharsMeaning(PlainChars(fields[i].key)) == fields[i].key
          ensures Well(PlainTree(fields[i].value)) && Meaning(PlainTree(fields[i].value)) == fields[i].value
        {
          PlainCharsMean(fields[i].key);
          PlainTreeMeans(fields[i].value);
        }
        assert Meaning(PlainTree(v)).fields == fields;
      case _ =>
    }
  }

  // ----- canonical text is plain

  lemma PlainItems(v: Json)
    requires v.List? && Clean(v)
    ensures Spelling(PlainTree(v)) == [0x5B] + SlotsSpelling(PlainTree(v).slots) + [0x5D]
  {
  }

  lemma PlainSlot(tree: Tree)
    ensures SlotSpelling(Slot([], tree, [])) == Spelling(tree)
  {
  }

  lemma PlainEntry(key: Text, tree: Tree)
    ensures EntrySpelling(Entry([], PlainChars(key), [], [], tree, [])) == Quote(key) + [58] + Spelling(tree)
  {
    EscapesArePlain(key);
  }

  /** Items in order, the spelling of each being given. */
  lemma {:induction false} ItemsArePlain(parent: Json, items: seq<Json>, slots: seq<Slot>)
    requires forall i :: 0 <= i < |items| ==> items[i] < parent && Clean(items[i])
    requires |slots| == |items|
    requires forall i :: 0 <= i < |items| ==> SlotSpelling(slots[i]) == CanonicalText(items[i])
    ensures ItemsText(parent, items) == SlotsSpelling(slots)
    decreases |items|
  {
    if |items| > 1 {
      ItemsArePlain(parent, items[1..], slots[1..]);
    }
  }

  lemma {:induction false} FieldsArePlain(parent: Json, fields: seq<Field>, entries: seq<Entry>)
    requires forall f :: f in fields ==> f.value < parent && Clean(f.value)
    requires |entries| == |fields|
    requires forall i :: 0 <= i < |fields| ==>
               EntrySpelling(entries[i]) == Quote(fields[i].key) + [58] + CanonicalText(fields[i].value)
    ensures FieldsText(parent, fields) == EntriesSpelling(entries)
    decreases |fields|
  {
    if |fields| > 1 {
      FieldsArePlain(parent, fields[1..], entries[1..]);
    }
  }

  /** The canonical text is the plain spelling of the value with its members in key order. */
  lemma {:induction false} CanonicalIsPlain(v: Json)
    requires Clean(v) && Shaped(v)
    ensures Clean(Normalize(v)) && CanonicalText(v) == Spelling(PlainTree(Normalize(v)))
    decreases v, 1
  {
    NormalizeKeepsShape(v);
    match v {
      case Integer(n) => PlainNumberMeans(n);
      case String(t) => EscapesArePlain(t);
      case List(items) => ListIsPlain(v);
      case Object(fields) => ObjectIsPlain(v);
      case _ =>
    }
  }

  lemma {:induction false} ListIsPlain(v: Json)
    requires v.List? && Clean(v) && Shaped(v)
    ensures Clean(Normalize(v)) && CanonicalText(v) == Spelling(PlainTree(Normalize(v)))
    decreases v, 0
  {
    NormalizeKeepsShape(v);
    var slots := PlainTree(Normalize(v)).slots;
    forall i | 0 <= i < |v.items|
      ensures SlotSpelling(slots[i]) == CanonicalText(v.items[i])
    {
      CanonicalIsPlain(v.items[i]);
      PlainSlot(PlainTree(Normalize(v.items[i])));
    }
    ItemsArePlain(v, v.items, slots);
    PlainItems(Normalize(v));
  }

  lemma SortedMembers(v: Json)
    requires v.Object? && Clean(v) && Shaped(v)
    ensures forall f :: f in SortFields(v.fields) ==> f.value < v && Clean(f.value) && Shaped(f.value)
  {
    SortFieldsMembers(v.fields);
  }

  lemma SortedEntries(v: Json, i: nat)
    requires v.Object? && Clean(v) && Shaped(v) && i < |SortFields(v.fields)|
    ensures Clean(Normalize(v)) && Clean(Normalize(SortFields(v.fields)[i].value))
    ensures |PlainTree(Normalize(v)).entries| == |SortFields(v.fields)|
    ensures var f := SortFields(v.fields)[i];
            PlainTree(Normalize(v)).entries[i] ==
            Entry([], PlainChars(f.key), [], [], PlainTree(Normalize(f.value)), [])
  {
    var fields, f := NormalizeFields(SortFields(v.fields)), SortFields(v.fields)[i];
    NormalizeKeepsShape(v);
    NormalizeObject(v.fields);
    assert f in SortFields(v.fields);
    SortedMembers(v);
    NormalizeKeepsShape(f.value);
    PlainObject(fields, i);
  }

  lemma PlainObject(fields: seq<Field>, i: nat)
    requires Clean(Object(fields)) && i < |fields|
    ensures Clean(fields[i].value)
    ensures PlainTree(Object(fields)).entries[i] ==
            Entry([], PlainChars(fields[i].key), [], [], PlainTree(fields[i].value), [])
  {
  }

  lemma {:induction false} ObjectIsPlain(v: Json)
    requires v.Object? && Clean(v) && Shaped(v)
    ensures Clean(Normalize(v)) && CanonicalText(v) == Spelling(PlainTree(Normalize(v)))
    decreases v, 0
  {
    var sorted := SortFields(v.fields);
    NormalizeKeepsShape(v);
    NormalizeObject(v.fields);
    SortedMembers(v);
    var entries := PlainTree(Normalize(v)).entries;
    forall i | 0 <= i < |sorted|
      ensures Clean(sorted[i].value)
      ensures EntrySpelling(entries[i]) == Quote(sorted[i].key) + [58] + CanonicalText(sorted[i].value)
    {
      assert sorted[i] in sorted;
      SortedEntries(v, i);
      CanonicalIsPlain(sorted[i].value);
      PlainEntry(sorted[i].key, PlainTree(Normalize(sorted[i].value)));
    }
    FieldsArePlain(v, sorted, entries);
  }

  /** The reader takes a printed value off the front of any text that may follow a value. */
  lemma ReadValue(v: Json, rest: Text)
    requires Clean(v) && Shaped(v) && Closed(rest)
    ensures ParseValue(CanonicalText(v) + rest) == Parsed(Normalize(v), rest)
  {
    CanonicalIsPlain(v);
    NormalizeKeepsShape(v);
    PlainTreeMeans(Normalize(v));
    ReadsTree(PlainTree(Normalize(v)), rest);
  }
}
