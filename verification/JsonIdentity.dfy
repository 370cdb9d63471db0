/** Canonical bytes identify values up to dictionary order, and the strict reader inverts the printer. */
module JsonIdentity {
  import opened Common
  import opened Unicode
  import opened CanonicalJson
  import opened JsonGrammar
  import opened JsonReader
  import opened JsonReading
  import opened JsonAccepting
  import opened JsonRoundTrip

  // ----- sorting

  /** Keys strictly ascending in UTF-16 code units. */
  ghost predicate StrictlySorted(fields: seq<Field>) {
    forall i, j :: 0 <= i < j < |fields| ==> KeyLess(fields[i], fields[j])
  }

  ghost predicate CleanKeys(fields: seq<Field>) {
    forall f :: f in fields ==> NoSurrogates(f.key)
  }

  lemma {:induction false} InsertMembers(f: Field, sorted: seq<Field>, g: Field)
    ensures g in InsertField(f, sorted) <==> g == f || g in sorted
    decreases |sorted|
  {
    if sorted != [] && KeyLess(sorted[0], f) {
      InsertMembers(f, sorted[1..], g);
      assert g in sorted <==> g == sorted[0] || g in sorted[1..];
    }
  }

  lemma KeyOrder(a: Field, b: Field, c: Field)
    requires NoSurrogates(a.key) && NoSurrogates(b.key) && NoSurrogates(c.key)
    ensures a.key != b.key && !KeyLess(a, b) ==> KeyLess(b, a)
    ensures KeyLess(a, b) && KeyLess(b, c) ==> KeyLess(a, c)
    ensures KeyLess(a, b) ==> a.key != b.key && !KeyLess(b, a)
  {
    Utf16OrderIsTotal(a.key, b.key);
    LexTotal(Utf16Be(a.key), Utf16Be(b.key));
    if KeyLess(a, b) && KeyLess(b, c) {
      LexTransitive(Utf16Be(a.key), Utf16Be(b.key), Utf16Be(c.key));
    }
  }

  lemma SortedCons(f: Field, sorted: seq<Field>)
    requires StrictlySorted(sorted) && CleanKeys([f] + sorted)
    requires sorted == [] || KeyLess(f, sorted[0])
    ensures StrictlySorted([f] + sorted)
  {
    var all := [f] + sorted;
    forall i, j | 0 <= i < j < |all|
      ensures KeyLess(all[i], all[j])
    {
      if i == 0 && j > 1 {
        assert all[1] in all && all[j] in all && f in all;
        assert KeyLess(sorted[0], sorted[j - 1]);
        KeyOrder(f, sorted[0], sorted[j - 1]);
      }
    }
  }

  lemma {:induction false} InsertSorts(f: Field, sorted: seq<Field>)
    requires StrictlySorted(sorted) && CleanKeys([f] + sorted)
    requires forall g :: g in sorted ==> g.key != f.key
    ensures StrictlySorted(InsertField(f, sorted))
    decreases |sorted|
  {
    var all := [f] + sorted;
    assert f in all && forall g :: g in sorted ==> g in all;
    if sorted == [] || !KeyLess(sorted[0], f) {
      if sorted != [] {
        KeyOrder(sorted[0], f, f);
      }
      SortedCons(f, sorted);
    } else {
      var tail := sorted[1..];
      assert StrictlySorted(tail);
      assert forall g :: g in [f] + tail ==> g in all;
      InsertSorts(f, tail);
      var inserted := InsertField(f, tail);
      forall g | g in [sorted[0]] + inserted
        ensures NoSurrogates(g.key)
      {
        InsertMembers(f, tail, g);
      }
      InsertMembers(f, tail, inserted[0]);
      if inserted[0] != f {
        var k :| 0 <= k < |tail| && tail[k] == inserted[0];
        assert sorted[k + 1] == inserted[0];
      }
      SortedCons(sorted[0], inserted);
    }
  }

  /** Sorting distinct clean keys yields strictly ascending UTF-16 order. */
  lemma {:induction false} SortSorts(fields: seq<Field>)
    requires UniqueKeys(fields) && CleanKeys(fields)
    ensures StrictlySorted(SortFields(fields))
    decreases |fields|
  {
    if fields != [] {
      SortSorts(fields[1..]);
      SortFieldsMembers(fields[1..]);
      var sorted := SortFields(fields[1..]);
      forall g | g in sorted
        ensures g.key != fields[0].key && NoSurrogates(g.key)
      {
        var k :| 0 <= k < |fields[1..]| && fields[1..][k] == g;
        assert fields[k + 1] == g && g in fields;
      }
      InsertSorts(fields[0], sorted);
    }
  }

  /** Members of a printed object follow each other in ascending order of UTF-16 code units. */
  lemma PrintedInCodeUnitOrder(fields: seq<Field>, i: nat, j: nat)
    requires UniqueKeys(fields) && CleanKeys(fields) && i < j < |SortFields(fields)|
    ensures LexLess(Utf16Units(SortFields(fields)[i].key), Utf16Units(SortFields(fields)[j].key))
  {
    SortSorts(fields);
    SortFieldsMembers(fields);
    var a, b := SortFields(fields)[i], SortFields(fields)[j];
    assert a in SortFields(fields) && b in SortFields(fields);
    assert KeyLess(a, b);
    Utf16OrderIsTotal(a.key, b.key);
  }

  lemma {:induction false} SortOfSorted(fields: seq<Field>)
    requires StrictlySorted(fields) && CleanKeys(fields)
    ensures SortFields(fields) == fields
    decreases |fields|
  {
    if fields != [] {
      SortOfSorted(fields[1..]);
      if |fields| > 1 {
        assert fields[0] in fields && fields[1] in fields;
        assert KeyLess(fields[0], fields[1]);
        KeyOrder(fields[0], fields[1], fields[1]);
      }
    }
  }

  /** Two strictly sorted lists with the same members are the same list. */
  lemma {:induction false} SortedUnique(a: seq<Field>, b: seq<Field>)
    requires StrictlySorted(a) && StrictlySorted(b) && CleanKeys(a) && CleanKeys(b)
    requires |a| == |b| && forall f :: f in a <==> f in b
    ensures a == b
    decreases |a|
  {
    if a != [] {
      assert a[0] in b;
      HeadIsLeast(a, b);
      HeadIsLeast(b, a);
      KeyOrder(a[0], b[0], b[0]);
      assert a[0] == b[0];
      forall f
        ensures f in a[1..] <==> f in b[1..]
      {
        TailMembers(a, f);
        TailMembers(b, f);
      }
      SortedUnique(a[1..], b[1..]);
      assert a == [a[0]] + a[1..] && b == [b[0]] + b[1..];
    }
  }

  lemma HeadIsLeast(a: seq<Field>, b: seq<Field>)
    requires a != [] && b != [] && StrictlySorted(b) && a[0] in b
    ensures a[0] == b[0] || KeyLess(b[0], a[0])
  {
  }

  lemma TailMembers(a: seq<Field>, f: Field)
    requires a != [] && StrictlySorted(a) && CleanKeys(a)
    ensures f in a[1..] <==> f in a && f != a[0]
  {
    assert a == [a[0]] + a[1..];
    if f in a[1..] {
      var k :| 0 <= k < |a[1..]| && a[1..][k] == f;
      assert KeyLess(a[0], a[k + 1]);
      assert a[0] in a && a[k + 1] in a;
      KeyOrder(a[0], a[k + 1], f);
    }
  }

  // ----- the sorted form

  lemma NormalizedMember(fields: seq<Field>, f: Field)
    ensures f in SortFields(NormalizeFields(fields)) <==>
            exists i :: 0 <= i < |fields| && fields[i].key == f.key && Normalize(fields[i].value) == f.value
  {
    SortFieldsMembers(NormalizeFields(fields));
    if i :| 0 <= i < |fields| && fields[i].key == f.key && Normalize(fields[i].value) == f.value {
      assert NormalizeFields(fields)[i] == f;
    }
  }

  /** Values with one sorted form are equal. */
  lemma {:induction false} OneFormIsSame(v: Json, w: Json)
    requires Normalize(v) == Normalize(w)
    ensures SameValue(v, w)
    decreases v
  {
    match v {
      case List(items) =>
        assert NormalizeItems(items) == NormalizeItems(w.items);
        forall i | 0 <= i < |items|
          ensures SameValue(items[i], w.items[i])
        {
          assert NormalizeItems(items)[i] == NormalizeItems(w.items)[i];
          OneFormIsSame(items[i], w.items[i]);
        }
      case Object(fields) =>
        assert SortFields(NormalizeFields(fields)) == SortFields(NormalizeFields(w.fields));
        SortFieldsMembers(NormalizeFields(fields));
        SortFieldsMembers(NormalizeFields(w.fields));
        forall i | 0 <= i < |fields|
          ensures exists j ::
                    0 <= j < |w.fields| && w.fields[j].key == fields[i].key
                    && SameValue(fields[i].value, w.fields[j].value)
        {
          var f := Field(fields[i].key, Normalize(fields[i].value));
          NormalizedMember(fields, f);
          NormalizedMember(w.fields, f);
          var j :| 0 <= j < |w.fields| && w.fields[j].key == f.key && Normalize(w.fields[j].value) == f.value;
          OneFormIsSame(fields[i].value, w.fields[j].value);
        }
      case _ =>
    }
  }

  /** Equal values have one sorted form. */
  lemma {:induction false} SameHasOneForm(v: Json, w: Json)
    requires Shaped(v) && Shaped(w) && Clean(v) && Clean(w) && SameValue(v, w)
    ensures Normalize(v) == Normalize(w)
    decreases v
  {
    match v {
      case List(items) =>
        forall i | 0 <= i < |items|
          ensures NormalizeItems(items)[i] == NormalizeItems(w.items)[i]
        {
          SameHasOneForm(items[i], w.items[i]);
        }
        assert NormalizeItems(items) == NormalizeItems(w.items);
      case Object(fields) => SameObjects(v, w);
      case _ =>
    }
  }

  lemma {:induction false} SameObjects(v: Json, w: Json)
    requires v.Object? && Shaped(v) && Shaped(w) && Clean(v) && Clean(w) && SameValue(v, w)
    ensures Normalize(v) == Normalize(w)
    decreases v, 0
  {
    var a, b := NormalizeFields(v.fields), NormalizeFields(w.fields);
    forall i | 0 <= i < |a|
      ensures a[i] in b
    {
      var j :| 0 <= j < |w.fields| && w.fields[j].key == v.fields[i].key
               && SameValue(v.fields[i].value, w.fields[j].value);
      SameHasOneForm(v.fields[i].value, w.fields[j].value);
      assert b[j] == a[i];
    }
    assert UniqueKeys(a) && UniqueKeys(b);
    SameMembers(a, b);
    assert CleanKeys(a) && CleanKeys(b);
    SortSorts(a);
    SortSorts(b);
    SortFieldsMembers(a);
    SortFieldsMembers(b);
    SortedUnique(SortFields(a), SortFields(b));
  }

  /** Distinct members all found in an equally long list make up that list. */
  lemma SameMembers(a: seq<Field>, b: seq<Field>)
    requires UniqueKeys(a) && UniqueKeys(b) && |a| == |b|
    requires forall i :: 0 <= i < |a| ==> a[i] in b
    ensures forall f :: f in a <==> f in b
  {
    DistinctCount(a);
    DistinctCount(b);
    if f :| f in b && f !in a {
      assert Elements(a) <= Elements(b) - {f};
      SubsetCount(Elements(a), Elements(b) - {f});
    }
  }

  lemma {:induction false} DistinctCount(a: seq<Field>)
    requires UniqueKeys(a)
    ensures |Elements(a)| == |a|
    decreases |a|
  {
    if a != [] {
      DistinctCount(a[1..]);
      assert a == [a[0]] + a[1..];
      assert Elements(a) == {a[0]} + Elements(a[1..]);
      assert a[0] !in a[1..];
    }
  }

  lemma SubsetCount<T>(a: set<T>, b: set<T>)
    requires a <= b
    ensures |a| <= |b|
  {
    assert b == a + (b - a);
  }

  // ----- printing does not see insertion order

  lemma NormalItems(v: Json)
    requires v.List? && Clean(v) && Shaped(v)
    ensures Normalize(v) == List(NormalizeItems(v.items))
    ensures forall i :: 0 <= i < |v.items| ==> Normalize(v.items[i]) < Normalize(v) && Clean(Normalize(v.items[i]))
  {
    NormalizeKeepsShape(v);
    assert Normalize(v) == List(NormalizeItems(v.items));
    forall i | 0 <= i < |v.items|
      ensures Normalize(v.items[i]) < Normalize(v) && Clean(Normalize(v.items[i]))
    {
      assert NormalizeItems(v.items)[i] == Normalize(v).items[i];
    }
  }

  lemma NormalFields(v: Json)
    requires v.Object? && Clean(v) && Shaped(v)
    ensures Normalize(v) == Object(NormalizeFields(SortFields(v.fields)))
    ensures forall i :: 0 <= i < |SortFields(v.fields)| ==>
              Normalize(SortFields(v.fields)[i].value) < Normalize(v) && Clean(Normalize(SortFields(v.fields)[i].value))
  {
    NormalizeKeepsShape(v);
    NormalizeObject(v.fields);
    var sorted := SortFields(v.fields);
    forall i | 0 <= i < |sorted|
      ensures Normalize(sorted[i].value) < Normalize(v) && Clean(Normalize(sorted[i].value))
    {
      assert NormalizeFields(sorted)[i] == Normalize(v).fields[i];
    }
  }

  lemma {:induction false} TextOfNormal(v: Json)
    requires Clean(v) && Shaped(v)
    ensures Clean(Normalize(v)) && CanonicalText(Normalize(v)) == CanonicalText(v)
    decreases v, 1, 0
  {
    NormalizeKeepsShape(v);
    match v {
      case List(items) =>
        NormalItems(v);
        ItemsOfNormal(v, items, Normalize(v));
      case Object(fields) => ObjectOfNormal(v);
      case _ =>
    }
  }

  lemma {:induction false} ObjectOfNormal(v: Json)
    requires v.Object? && Clean(v) && Shaped(v)
    ensures Clean(Normalize(v)) && CanonicalText(Normalize(v)) == CanonicalText(v)
    decreases v, 0, |v.fields| + 1
  {
    NormalizeKeepsShape(v);
    NormalFields(v);
    SortFieldsMembers(v.fields);
    NormalSortedOnce(v.fields);
    FieldsOfNormal(v, SortFields(v.fields), Normalize(v));
  }

  lemma NormalSortedOnce(fields: seq<Field>)
    requires UniqueKeys(fields) && CleanKeys(fields)
    ensures SortFields(NormalizeFields(SortFields(fields))) == NormalizeFields(SortFields(fields))
  {
    SortSorts(fields);
    SortFieldsMembers(fields);
    SortOfSorted(SortFields(fields));
    SortCommutes(SortFields(fields));
  }

  lemma {:induction false} ItemsOfNormal(parent: Json, items: seq<Json>, parent': Json)
    requires forall i :: 0 <= i < |items| ==> items[i] < parent && Clean(items[i]) && Shaped(items[i])
    requires forall i :: 0 <= i < |items| ==> Normalize(items[i]) < parent' && Clean(Normalize(items[i]))
    ensures ItemsText(parent', NormalizeItems(items)) == ItemsText(parent, items)
    decreases parent, 0, |items|
  {
    if items != [] {
      TextOfNormal(items[0]);
      assert NormalizeItems(items)[1..] == NormalizeItems(items[1..]);
      ItemsOfNormal(parent, items[1..], parent');
    }
  }

  lemma FieldsTextStep(parent: Json, fields: seq<Field>, parent': Json, normal: seq<Field>)
    requires fields != [] && |normal| == |fields|
    requires forall f :: f in fields ==> f.value < parent && Clean(f.value)
    requires forall f :: f in normal ==> f.value < parent' && Clean(f.value)
    requires normal[0].key == fields[0].key && CanonicalText(normal[0].value) == CanonicalText(fields[0].value)
    requires FieldsText(parent', normal[1..]) == FieldsText(parent, fields[1..])
    ensures FieldsText(parent', normal) == FieldsText(parent, fields)
  {
  }

  lemma {:induction false} FieldsOfNormal(parent: Json, fields: seq<Field>, parent': Json)
    requires forall f :: f in fields ==> f.value < parent && Clean(f.value) && Shaped(f.value)
    requires forall i :: 0 <= i < |fields| ==> Normalize(fields[i].value) < parent' && Clean(Normalize(fields[i].value))
    ensures FieldsText(parent', NormalizeFields(fields)) == FieldsText(parent, fields)
    decreases parent, 0, |fields|
  {
    if fields != [] {
      TextOfNormal(fields[0].value);
      FieldsOfNormal(parent, fields[1..], parent');
      assert NormalizeFields(fields)[1..] == NormalizeFields(fields[1..]);
      FieldsTextStep(parent, fields, parent', NormalizeFields(fields));
    }
  }

  // ----- printed text is encodable

  lemma {:induction false} EscapeIsClean(t: Text)
    requires NoSurrogates(t)
    ensures NoSurrogates(Escape(t))
    decreases |t|
  {
    if t != [] {
      EscapeIsClean(t[1..]);
      assert t[0] in t;
    }
  }

  lemma {:induction false} TextIsClean(v: Json)
    requires Clean(v)
    ensures NoSurrogates(CanonicalText(v))
    decreases v, 1, 0
  {
    match v {
      case Integer(n) => DecimalDigits(if n < 0 then -n else n);
      case String(t) => EscapeIsClean(t);
      case List(items) => ItemsAreClean(v, items);
      case Object(fields) =>
        SortFieldsMembers(fields);
        FieldsAreClean(v, SortFields(fields));
      case _ =>
    }
  }

  lemma {:induction false} ItemsAreClean(parent: Json, items: seq<Json>)
    requires forall i :: 0 <= i < |items| ==> items[i] < parent && Clean(items[i])
    ensures NoSurrogates(ItemsText(parent, items))
    decreases parent, 0, |items|
  {
    if items != [] {
      TextIsClean(items[0]);
      ItemsAreClean(parent, items[1..]);
    }
  }

  lemma {:induction false} FieldsAreClean(parent: Json, fields: seq<Field>)
    requires forall f :: f in fields ==> f.value < parent && Clean(f.value) && NoSurrogates(f.key)
    ensures NoSurrogates(FieldsText(parent, fields))
    decreases parent, 0, |fields|
  {
    if fields != [] {
      EscapeIsClean(fields[0].key);
      TextIsClean(fields[0].value);
      FieldsAreClean(parent, fields[1..]);
    }
  }

  // ----- main results

  lemma CanonicalSpells(v: Json)
    requires Clean(v) && Shaped(v)
    ensures Clean(Normalize(v)) && Spells(CanonicalText(v), Normalize(v))
  {
    NormalizeKeepsShape(v);
    var tree := PlainTree(Normalize(v));
    CanonicalIsPlain(v);
    PlainTreeMeans(Normalize(v));
    assert [] + Spelling(tree) + [] == Spelling(tree);
    assert IsText(CanonicalText(v), [], tree, []);
  }

  /** For every value without canonicalization errors the strict reader gives the printed value back. */
  lemma ReadAfterPrint(v: Json)
    requires Shaped(v) && CanonicalizationErrors(v, []) == []
    ensures CanonicalBytes(v).Ok?
    ensures StrictJsonLoads(CanonicalBytes(v).value) == Ok(Normalize(v))
    ensures SameValue(v, Normalize(v))
  {
    ErrorFreeIsClean(v, []);
    TextIsClean(v);
    CanonicalSpells(v);
    SpelledIsAccepted(CanonicalText(v), Normalize(v));
    NormalizeTwice(v);
    OneFormIsSame(v, Normalize(v));
  }

  lemma {:induction false} NormalizeTwice(v: Json)
    requires Clean(v) && Shaped(v)
    ensures Normalize(Normalize(v)) == Normalize(v)
    decreases v
  {
    match v {
      case List(items) =>
        forall i | 0 <= i < |items|
          ensures Normalize(Normalize(items[i])) == Normalize(items[i])
        {
          NormalizeTwice(items[i]);
        }
        assert Normalize(v) == List(NormalizeItems(items));
        assert NormalizeItems(NormalizeItems(items)) == NormalizeItems(items);
      case Object(fields) =>
        NormalizeObject(fields);
        var sorted := SortFields(fields);
        SortFieldsMembers(fields);
        NormalSortedOnce(fields);
        NormalizeObject(NormalizeFields(sorted));
        forall i | 0 <= i < |sorted|
          ensures Normalize(Normalize(sorted[i].value)) == Normalize(sorted[i].value)
        {
          assert sorted[i] in fields;
          NormalizeTwice(sorted[i].value);
        }
        assert NormalizeFields(NormalizeFields(sorted)) == NormalizeFields(sorted);
      case _ =>
    }
  }

  /** Canonical bytes agree exactly for equal values: injective up to, and blind to, insertion order. */
  lemma BytesIdentifyValues(v: Json, w: Json)
    requires Shaped(v) && Shaped(w)
    requires CanonicalizationErrors(v, []) == [] && CanonicalizationErrors(w, []) == []
    ensures CanonicalBytes(v) == CanonicalBytes(w) <==> SameValue(v, w)
  {
    ErrorFreeIsClean(v, []);
    ErrorFreeIsClean(w, []);
    if CanonicalBytes(v) == CanonicalBytes(w) {
      ReadAfterPrint(v);
      ReadAfterPrint(w);
      OneFormIsSame(v, w);
    }
    if SameValue(v, w) {
      SameHasOneForm(v, w);
      TextOfNormal(v);
      TextOfNormal(w);
    }
  }

  /** Printing what was read gives the same bytes exactly when they were canonical. */
  lemma PrintAfterRead(raw: seq<Byte>)
    requires StrictJsonLoads(raw).Ok?
    ensures CanonicalBytes(StrictJsonLoads(raw).value) == Ok(raw) <==>
            exists w :: Shaped(w) && CanonicalBytes(w) == Ok(raw)
  {
    var v := StrictJsonLoads(raw).value;
    if w :| Shaped(w) && CanonicalBytes(w) == Ok(raw) {
      ReadAfterPrint(w);
      ErrorFreeIsClean(w, []);
      TextOfNormal(w);
      ErrorFreeIsClean(v, []);
    }
  }

  /** "-0" is read as the integer 0, whose canonical text is "0". */
  lemma MinusZeroIsNotCanonical()
    ensures StrictJsonLoads([45, 48]) == Ok(Integer(0))
    ensures CanonicalBytes(Integer(0)) == Ok([48])
  {
    var t: Text := [45, 48];
    assert DecodeUtf8([48]) == Some([48]) by {
      DecodeEncoded([48]);
    }
    assert DecodeUtf8([45, 48]) == Some(t) by {
      DecodeEncoded(t);
      assert EncodeUtf8(t) == [45] + EncodeUtf8([48]);
    }
    ReadsNumberValue(Number(true, [48], [], []), []);
    assert NumberSpelling(Number(true, [48], [], [])) + [] == t;
    assert Magnitude([48]) == 0;
  }
}
