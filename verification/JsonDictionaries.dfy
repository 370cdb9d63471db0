/** Dictionary operations on JSON objects, and equality of objects by their lookups. */
module JsonDictionaries {
  import opened Common
  import opened Unicode
  import opened CanonicalJson
  import opened JsonRoundTrip
  import opened JsonIdentity

  /** ASCII text of a key or constant. */
  function Ascii(s: string): (t: Text)
    ensures |t| == |s|
    ensures forall i :: 0 <= i < |s| ==> t[i] == s[i] as int
  {
    seq(|s|, i requires 0 <= i < |s| => s[i] as int)
  }

  /** `fields.get(key)`. */
  function Lookup(fields: seq<Field>, key: Text): Option<Json> {
    if fields == [] then None
    else if fields[0].key == key then Some(fields[0].value)
    else Lookup(fields[1..], key)
  }

  /** `fields[key] = value`: in place when the key is there, at the end otherwise. */
  function Put(fields: seq<Field>, key: Text, value: Json): seq<Field> {
    if fields == [] then [Field(key, value)]
    else if fields[0].key == key then [Field(key, value)] + fields[1..]
    else [fields[0]] + Put(fields[1..], key, value)
  }

  /** `fields.pop(key, None)`. */
  function Drop(fields: seq<Field>, key: Text): seq<Field> {
    if fields == [] then []
    else if fields[0].key == key then fields[1..]
    else [fields[0]] + Drop(fields[1..], key)
  }

  function Keys(fields: seq<Field>): set<Text> {
    set f | f in fields :: f.key
  }

  lemma {:induction false} LookupPut(fields: seq<Field>, key: Text, value: Json, other: Text)
    ensures Lookup(Put(fields, key, value), other) == if other == key then Some(value) else Lookup(fields, other)
    decreases |fields|
  {
    if fields != [] && fields[0].key != key {
      LookupPut(fields[1..], key, value, other);
    }
  }

  lemma {:induction false} LookupMember(fields: seq<Field>, key: Text)
    ensures Lookup(fields, key).Some? <==> key in Keys(fields)
    ensures Lookup(fields, key).Some? ==> Field(key, Lookup(fields, key).value) in fields
    decreases |fields|
  {
    if fields != [] {
      assert forall f :: f in fields <==> f == fields[0] || f in fields[1..];
      LookupMember(fields[1..], key);
      if fields[0].key == key {
        assert fields[0] in fields;
      } else if key in Keys(fields) {
        var f :| f in fields && f.key == key;
        assert f in fields[1..];
      }
    }
  }

  lemma {:induction false} MemberLookup(fields: seq<Field>, f: Field)
    requires UniqueKeys(fields) && f in fields
    ensures Lookup(fields, f.key) == Some(f.value)
    decreases |fields|
  {
    if fields[0] != f {
      assert f in fields[1..];
      var k :| 0 <= k < |fields[1..]| && fields[1..][k] == f;
      assert fields[k + 1].key == f.key;
      MemberLookup(fields[1..], f);
    }
  }

  lemma {:induction false} LookupDrop(fields: seq<Field>, key: Text, other: Text)
    requires UniqueKeys(fields)
    ensures Lookup(Drop(fields, key), other) == if other == key then None else Lookup(fields, other)
    decreases |fields|
  {
    if fields != [] {
      UniqueTail(fields);
      LookupMember(fields[1..], key);
      if fields[0].key != key {
        LookupDrop(fields[1..], key, other);
      }
    }
  }

  lemma {:induction false} PutMembers(fields: seq<Field>, key: Text, value: Json, f: Field)
    requires f in Put(fields, key, value)
    ensures f == Field(key, value) || f in fields
    decreases |fields|
  {
    if fields != [] && fields[0].key != key && f != fields[0] {
      PutMembers(fields[1..], key, value, f);
    }
  }

  lemma {:induction false} DropMembers(fields: seq<Field>, key: Text, f: Field)
    requires f in Drop(fields, key)
    ensures f in fields
    decreases |fields|
  {
    if fields != [] && fields[0].key != key && f != fields[0] {
      DropMembers(fields[1..], key, f);
    }
  }

  lemma UniqueCons(f: Field, fields: seq<Field>)
    requires UniqueKeys(fields) && forall g :: g in fields ==> g.key != f.key
    ensures UniqueKeys([f] + fields)
  {
  }

  lemma UniqueTail(fields: seq<Field>)
    requires fields != [] && UniqueKeys(fields)
    ensures UniqueKeys(fields[1..]) && forall g :: g in fields[1..] ==> g.key != fields[0].key
  {
    forall g | g in fields[1..]
      ensures g.key != fields[0].key
    {
      var k :| 0 <= k < |fields[1..]| && fields[1..][k] == g;
      assert fields[k + 1] == g;
    }
  }

  lemma {:induction false} PutUnique(fields: seq<Field>, key: Text, value: Json)
    requires UniqueKeys(fields)
    ensures UniqueKeys(Put(fields, key, value))
    decreases |fields|
  {
    if fields != [] {
      UniqueTail(fields);
      if fields[0].key == key {
        UniqueCons(Field(key, value), fields[1..]);
      } else {
        PutUnique(fields[1..], key, value);
        forall g | g in Put(fields[1..], key, value)
          ensures g.key != fields[0].key
        {
          PutMembers(fields[1..], key, value, g);
        }
        UniqueCons(fields[0], Put(fields[1..], key, value));
      }
    }
  }

  lemma {:induction false} DropUnique(fields: seq<Field>, key: Text)
    requires UniqueKeys(fields)
    ensures UniqueKeys(Drop(fields, key))
    decreases |fields|
  {
    if fields != [] {
      UniqueTail(fields);
      if fields[0].key != key {
        DropUnique(fields[1..], key);
        forall g | g in Drop(fields[1..], key)
          ensures g.key != fields[0].key
        {
          DropMembers(fields[1..], key, g);
        }
        UniqueCons(fields[0], Drop(fields[1..], key));
      }
    }
  }

  /** Taking back what was just added leaves the dictionary as it was. */
  lemma {:induction false} DropAfterPut(fields: seq<Field>, key: Text, value: Json)
    requires Lookup(fields, key).None?
    ensures Drop(Put(fields, key, value), key) == fields
    decreases |fields|
  {
    if fields != [] {
      DropAfterPut(fields[1..], key, value);
      assert Put(fields, key, value)[1..] == Put(fields[1..], key, value);
      assert fields == [fields[0]] + fields[1..];
    }
  }

  /** A dictionary whose keys and values lie in the canonical domain. */
  predicate CleanFields(fields: seq<Field>) {
    forall f :: f in fields ==> NoSurrogates(f.key) && Clean(f.value) && Shaped(f.value)
  }

  predicate Dictionary(fields: seq<Field>) {
    UniqueKeys(fields) && CleanFields(fields)
  }

  lemma ObjectIsDictionary(v: Json)
    requires v.Object?
    ensures Clean(v) && Shaped(v) <==> Dictionary(v.fields)
  {
  }

  lemma PutDictionary(fields: seq<Field>, key: Text, value: Json)
    requires Dictionary(fields) && NoSurrogates(key) && Clean(value) && Shaped(value)
    ensures Dictionary(Put(fields, key, value))
  {
    PutUnique(fields, key, value);
    forall f | f in Put(fields, key, value)
      ensures NoSurrogates(f.key) && Clean(f.value) && Shaped(f.value)
    {
      PutMembers(fields, key, value, f);
    }
  }

  lemma DropDictionary(fields: seq<Field>, key: Text)
    requires Dictionary(fields)
    ensures Dictionary(Drop(fields, key))
  {
    DropUnique(fields, key);
    forall f | f in Drop(fields, key)
      ensures NoSurrogates(f.key) && Clean(f.value) && Shaped(f.value)
    {
      DropMembers(fields, key, f);
    }
  }

  function NormalizeOption(v: Option<Json>): Option<Json> {
    if v.None? then None else Some(Normalize(v.value))
  }

  /** Looking up in the sorted form gives the sorted form of what is there. */
  lemma LookupNormal(fields: seq<Field>, key: Text)
    requires Dictionary(fields)
    ensures Lookup(SortFields(NormalizeFields(fields)), key) == NormalizeOption(Lookup(fields, key))
    ensures Dictionary(SortFields(NormalizeFields(fields)))
  {
    var v := Object(fields);
    ObjectIsDictionary(v);
    NormalizeKeepsShape(v);
    assert Normalize(v) == Object(SortFields(NormalizeFields(fields)));
    ObjectIsDictionary(Normalize(v));
    var sorted := SortFields(NormalizeFields(fields));
    LookupMember(fields, key);
    LookupMember(sorted, key);
    if Lookup(fields, key).Some? {
      var f := Field(key, Normalize(Lookup(fields, key).value));
      var i :| 0 <= i < |fields| && fields[i] == Field(key, Lookup(fields, key).value);
      assert fields[i].key == f.key && Normalize(fields[i].value) == f.value;
      NormalizedMember(fields, f);
      MemberLookup(sorted, f);
    } else {
      NormalKeys(fields, key);
    }
  }

  lemma NormalKeys(fields: seq<Field>, key: Text)
    ensures key in Keys(SortFields(NormalizeFields(fields))) ==> key in Keys(fields)
  {
    if f :| f in SortFields(NormalizeFields(fields)) && f.key == key {
      NormalizedMember(fields, f);
      var i :| 0 <= i < |fields| && fields[i].key == f.key && Normalize(fields[i].value) == f.value;
      assert fields[i] in fields;
    }
  }

  /** Dictionaries with equal lookups are equal, whatever their insertion order. */
  lemma SameByLookups(a: seq<Field>, b: seq<Field>)
    requires Dictionary(a) && Dictionary(b)
    requires forall key :: NormalizeOption(Lookup(a, key)) == NormalizeOption(Lookup(b, key))
    ensures Normalize(Object(a)) == Normalize(Object(b))
  {
    var sa, sb := SortFields(NormalizeFields(a)), SortFields(NormalizeFields(b));
    Sorted(a);
    Sorted(b);
    forall f
      ensures f in sa <==> f in sb
    {
      LookupNormal(a, f.key);
      LookupNormal(b, f.key);
      LookupMember(sa, f.key);
      LookupMember(sb, f.key);
      if f in sa { MemberLookup(sa, f); }
      if f in sb { MemberLookup(sb, f); }
    }
    SameLength(sa, sb);
    SortedUnique(sa, sb);
  }

  lemma Sorted(fields: seq<Field>)
    requires Dictionary(fields)
    ensures var s := SortFields(NormalizeFields(fields)); StrictlySorted(s) && CleanKeys(s) && UniqueKeys(s)
  {
    var n := NormalizeFields(fields);
    assert UniqueKeys(n) && CleanKeys(n) by {
      assert forall i :: 0 <= i < |fields| ==> fields[i] in fields;
    }
    SortSorts(n);
    SortFieldsMembers(n);
    UniqueKeysSorted(n);
  }

  lemma {:induction false} KeyCount(fields: seq<Field>)
    requires UniqueKeys(fields)
    ensures |Keys(fields)| == |fields|
    decreases |fields|
  {
    if fields == [] {
      assert Keys(fields) == {};
    } else {
      UniqueTail(fields);
      KeyCount(fields[1..]);
      assert fields == [fields[0]] + fields[1..];
      assert Keys(fields) == Keys(fields[1..]) + {fields[0].key};
    }
  }

  lemma SameLength(a: seq<Field>, b: seq<Field>)
    requires UniqueKeys(a) && UniqueKeys(b) && forall f :: f in a <==> f in b
    ensures |a| == |b|
  {
    KeyCount(a);
    KeyCount(b);
    assert Keys(a) == Keys(b);
  }

  lemma KeysOfNormal(fields: seq<Field>)
    requires Dictionary(fields)
    ensures Keys(SortFields(NormalizeFields(fields))) == Keys(fields)
  {
    forall key
      ensures key in Keys(SortFields(NormalizeFields(fields))) <==> key in Keys(fields)
    {
      LookupNormal(fields, key);
      LookupMember(fields, key);
      LookupMember(SortFields(NormalizeFields(fields)), key);
    }
  }
}
