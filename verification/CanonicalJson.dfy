/**
 The integer-only RFC 8785 printer: JSON values, the domain check, escaping (section 3.2.2) and
 object key order (section 3.2.3).

 An object lists its members in insertion order, as a Python dictionary does.
 */
module CanonicalJson {
  import opened Common
  import opened Unicode

  datatype Field = Field(key: Text, value: Json)

  datatype Json =
    | Null
    | Boolean(flag: bool)
    | Integer(number: int)
    | Float
    | String(text: Text)
    | List(items: seq<Json>)
    | Object(fields: seq<Field>)
    | Unsupported

  const MAX_SAFE_INTEGER := 9_007_199_254_740_991

  // ----- the canonical domain

  datatype Step = Item(index: nat) | Member(key: Text) | KeyOf

  datatype Violation = LoneSurrogate | FloatingPoint | UnsafeInteger | UnsupportedValue

  datatype Located = Located(path: seq<Step>, violation: Violation)

  function TextErrors(t: Text, path: seq<Step>): seq<Located> {
    if NoSurrogates(t) then [] else [Located(path, LoneSurrogate)]
  }

  /** Violations of the integer-only contract domain, with the path of each. */
  function CanonicalizationErrors(v: Json, path: seq<Step>): seq<Located> {
    match v
    case Null => []
    case Boolean(_) => []
    case Integer(n) => if n > MAX_SAFE_INTEGER || -n > MAX_SAFE_INTEGER then [Located(path, UnsafeInteger)] else []
    case Float => [Located(path, FloatingPoint)]
    case String(t) => TextErrors(t, path)
    case List(items) => ItemErrors(items, path)
    case Object(fields) => FieldErrors(fields, path)
    case Unsupported => [Located(path, UnsupportedValue)]
  }

  function ItemErrors(items: seq<Json>, path: seq<Step>): seq<Located> {
    if items == [] then [] else
      ItemErrors(items[..|items| - 1], path) + CanonicalizationErrors(items[|items| - 1], path + [Item(|items| - 1)])
  }

  function FieldErrors(fields: seq<Field>, path: seq<Step>): seq<Located> {
    if fields == [] then [] else
      var last := fields[|fields| - 1];
      FieldErrors(fields[..|fields| - 1], path)
      + TextErrors(last.key, path + [KeyOf])
      + CanonicalizationErrors(last.value, path + [Member(last.key)])
  }

  /** The violations collected one by one, members and items in order. */
  method ListErrors(v: Json, path: seq<Step>) returns (errors: seq<Located>)
    ensures errors == CanonicalizationErrors(v, path)
    decreases v
  {
    errors := [];
    match v {
      case Integer(n) =>
        if n > MAX_SAFE_INTEGER || -n > MAX_SAFE_INTEGER {
          errors := [Located(path, UnsafeInteger)];
        }
      case Float => errors := [Located(path, FloatingPoint)];
      case String(t) => errors := TextErrors(t, path);
      case List(items) =>
        for i := 0 to |items|
          invariant errors == ItemErrors(items[..i], path)
        {
          var more := ListErrors(items[i], path + [Item(i)]);
          assert items[..i + 1][..i] == items[..i];
          errors := errors + more;
        }
        assert items[..|items|] == items;
      case Object(fields) =>
        for i := 0 to |fields|
          invariant errors == FieldErrors(fields[..i], path)
        {
          var f := fields[i];
          assert fields[..i + 1][..i] == fields[..i];
          errors := errors + TextErrors(f.key, path + [KeyOf]);
          var more := ListErrors(f.value, path + [Member(f.key)]);
          errors := errors + more;
        }
        assert fields[..|fields|] == fields;
      case Unsupported => errors := [Located(path, UnsupportedValue)];
      case _ =>
    }
  }

  /** Every string and key is surrogate-free, every number a safe integer, nothing else occurs. */
  predicate Clean(v: Json) {
    match v
    case Null => true
    case Boolean(_) => true
    case Integer(n) => -MAX_SAFE_INTEGER <= n <= MAX_SAFE_INTEGER
    case Float => false
    case String(t) => NoSurrogates(t)
    case List(items) => forall i :: 0 <= i < |items| ==> Clean(items[i])
    case Object(fields) => forall i :: 0 <= i < |fields| ==> NoSurrogates(fields[i].key) && Clean(fields[i].value)
    case Unsupported => false
  }

  lemma {:induction false} ErrorFreeIsClean(v: Json, path: seq<Step>)
    ensures CanonicalizationErrors(v, path) == [] <==> Clean(v)
    decreases v, 0
  {
    match v {
      case List(items) => ItemsErrorFree(items, path);
      case Object(fields) => FieldsErrorFree(fields, path);
      case _ =>
    }
  }

  lemma {:induction false} ItemsErrorFree(items: seq<Json>, path: seq<Step>)
    ensures ItemErrors(items, path) == [] <==> forall i :: 0 <= i < |items| ==> Clean(items[i])
    decreases items, 0
  {
    if items != [] {
      var n := |items| - 1;
      ItemsErrorFree(items[..n], path);
      ErrorFreeIsClean(items[n], path + [Item(n)]);
      assert forall i :: 0 <= i < n ==> items[..n][i] == items[i];
    }
  }

  lemma {:induction false} FieldsErrorFree(fields: seq<Field>, path: seq<Step>)
    ensures FieldErrors(fields, path) == [] <==>
            forall i :: 0 <= i < |fields| ==> NoSurrogates(fields[i].key) && Clean(fields[i].value)
    decreases fields, 0
  {
    if fields != [] {
      var n := |fields| - 1;
      FieldsErrorFree(fields[..n], path);
      ErrorFreeIsClean(fields[n].value, path + [Member(fields[n].key)]);
      assert forall i :: 0 <= i < n ==> fields[..n][i] == fields[i];
    }
  }

  // ----- dictionaries

  /** A dictionary never holds a key twice. */
  predicate UniqueKeys(fields: seq<Field>) {
    forall i, j :: 0 <= i < j < |fields| ==> fields[i].key != fields[j].key
  }

  /** The shape of a Python value: every dictionary in it has unique keys. */
  predicate Shaped(v: Json) {
    match v
    case List(items) => forall i :: 0 <= i < |items| ==> Shaped(items[i])
    case Object(fields) => UniqueKeys(fields) && forall i :: 0 <= i < |fields| ==> Shaped(fields[i].value)
    case _ => true
  }

  /** Python equality: dictionaries are equal when they map the same keys to equal values. */
  ghost predicate SameValue(v: Json, w: Json) {
    match v
    case List(items) =>
      w.List? && |items| == |w.items| && forall i :: 0 <= i < |items| ==> SameValue(items[i], w.items[i])
    case Object(fields) =>
      && w.Object? && |fields| == |w.fields|
      && forall i :: 0 <= i < |fields| ==>
           exists j ::
             0 <= j < |w.fields| && w.fields[j].key == fields[i].key && SameValue(fields[i].value, w.fields[j].value)
    case _ => v == w
  }

  // ----- key order

  predicate KeyLess(a: Field, b: Field) {
    LexLess(Utf16Be(a.key), Utf16Be(b.key))
  }

  function InsertField(f: Field, sorted: seq<Field>): seq<Field> {
    if sorted == [] || !KeyLess(sorted[0], f) then [f] + sorted
    else [sorted[0]] + InsertField(f, sorted[1..])
  }

  /** Members by ascending UTF-16 big-endian key bytes; equal keys keep their order. */
  function SortFields(fields: seq<Field>): seq<Field> {
    if fields == [] then [] else InsertField(fields[0], SortFields(fields[1..]))
  }

  lemma {:induction false} InsertFieldKeeps(f: Field, sorted: seq<Field>)
    ensures multiset(InsertField(f, sorted)) == multiset(sorted) + multiset{f}
    decreases |sorted|
  {
    if sorted != [] && KeyLess(sorted[0], f) {
      InsertFieldKeeps(f, sorted[1..]);
      assert sorted == [sorted[0]] + sorted[1..];
    }
  }

  lemma {:induction false} SortFieldsKeeps(fields: seq<Field>)
    ensures multiset(SortFields(fields)) == multiset(fields)
    decreases |fields|
  {
    if fields != [] {
      SortFieldsKeeps(fields[1..]);
      InsertFieldKeeps(fields[0], SortFields(fields[1..]));
      assert fields == [fields[0]] + fields[1..];
    }
  }

  lemma SortFieldsMembers(fields: seq<Field>)
    ensures |SortFields(fields)| == |fields|
    ensures forall f :: f in SortFields(fields) <==> f in fields
  {
    SortFieldsKeeps(fields);
    assert |SortFields(fields)| == |multiset(SortFields(fields))|;
    forall f
      ensures f in SortFields(fields) <==> f in fields
    {
      assert f in SortFields(fields) <==> f in multiset(SortFields(fields));
    }
  }

  // ----- printing

  /** RFC 8785 section 3.2.2.2: short escapes, lower-case hexadecimal for other controls, all else verbatim. */
  function EscapeChar(c: CodePoint): Text {
    if c == 34 then [92, 34]
    else if c == 92 then [92, 92]
    else if c == 8 then [92, 98]
    else if c == 9 then [92, 116]
    else if c == 10 then [92, 110]
    else if c == 12 then [92, 102]
    else if c == 13 then [92, 114]
    else if c < 32 then [92, 117, 48, 48, HexDigit(c / 16), HexDigit(c % 16)]
    else [c]
  }

  function HexDigit(d: int): CodePoint
    requires 0 <= d < 16
  {
    if d < 10 then 48 + d else 87 + d
  }

  function Escape(t: Text): Text {
    if t == [] then [] else EscapeChar(t[0]) + Escape(t[1..])
  }

  function Quote(t: Text): Text {
    [34] + Escape(t) + [34]
  }

  function Decimal(n: nat): Text {
    if n < 10 then [48 + n] else Decimal(n / 10) + [48 + n % 10]
  }

  function IntegerText(n: int): Text {
    if n < 0 then [45] + Decimal(-n) else Decimal(n)
  }

  const NULL_TEXT: Text := [110, 117, 108, 108]
  const TRUE_TEXT: Text := [116, 114, 117, 101]
  const FALSE_TEXT: Text := [102, 97, 108, 115, 101]

  /** The canonical text of a clean value; members are printed in key order. */
  function CanonicalText(v: Json): Text
    requires Clean(v)
    decreases v, 1, 0
  {
    match v
    case Null => NULL_TEXT
    case Boolean(b) => if b then TRUE_TEXT else FALSE_TEXT
    case Integer(n) => IntegerText(n)
    case String(t) => Quote(t)
    case List(items) => [91] + ItemsText(v, items) + [93]
    case Object(fields) =>
      SortFieldsMembers(fields);
      [123] + FieldsText(v, SortFields(fields)) + [125]
  }

  function ItemsText(parent: Json, items: seq<Json>): Text
    requires forall i :: 0 <= i < |items| ==> items[i] < parent && Clean(items[i])
    decreases parent, 0, |items|
  {
    if items == [] then []
    else if |items| == 1 then CanonicalText(items[0])
    else CanonicalText(items[0]) + [44] + ItemsText(parent, items[1..])
  }

  function FieldText(parent: Json, f: Field): Text
    requires f.value < parent && Clean(f.value)
    decreases parent, 0, 0
  {
    Quote(f.key) + [58] + CanonicalText(f.value)
  }

  function FieldsText(parent: Json, fields: seq<Field>): Text
    requires forall f :: f in fields ==> f.value < parent && Clean(f.value)
    decreases parent, 0, |fields|
  {
    if fields == [] then []
    else if |fields| == 1 then FieldText(parent, fields[0])
    else FieldText(parent, fields[0]) + [44] + FieldsText(parent, fields[1..])
  }

  /** The canonical bytes, or the first violation. */
  function CanonicalBytes(v: Json): Result<seq<Byte>, Located> {
    var errors := CanonicalizationErrors(v, []);
    if errors != [] then Err(errors[0]) else
      ErrorFreeIsClean(v, []);
      Ok(EncodeUtf8(CanonicalText(v)))
  }

  // ----- sorted form

  /** The same value with the members of every dictionary in key order. */
  function Normalize(v: Json): Json {
    match v
    case List(items) => List(seq(|items|, i requires 0 <= i < |items| => Normalize(items[i])))
    case Object(fields) =>
      Object(SortFields(seq(|fields|,
                            i requires 0 <= i < |fields| => Field(fields[i].key, Normalize(fields[i].value)))))
    case _ => v
  }
}
