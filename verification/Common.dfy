/** Small vocabulary shared by the models. */
module Common {
  datatype Option<+T> = None | Some(value: T)

  datatype Result<+T, +E> = Ok(value: T) | Err(error: E)

  /** A dictionary read that yields None for a missing key. */
  function Get<K, V>(m: map<K, V>, key: K): Option<V> {
    if key in m then Some(m[key]) else None
  }

  function Elements<T>(s: seq<T>): set<T> {
    set x | x in s
  }

  ghost predicate NoRepeats<T(!new)>(s: seq<T>) {
    forall i, j :: 0 <= i < j < |s| ==> s[i] != s[j]
  }

  /** The dictionary built from pairs in order: a later pair for the same key wins. */
  function LastWins<K, V>(pairs: seq<(K, V)>): map<K, V> {
    if pairs == [] then map[] else
      var last := pairs[|pairs| - 1];
      LastWins(pairs[..|pairs| - 1])[last.0 := last.1]
  }

  /** Concatenates what `f` makes of each element. */
  function FlatMap<T, U>(xs: seq<T>, f: T -> seq<U>): seq<U> {
    if xs == [] then [] else FlatMap(xs[..|xs| - 1], f) + f(xs[|xs| - 1])
  }

  lemma FlatMapSnoc<T, U>(xs: seq<T>, f: T -> seq<U>, i: nat)
    requires i < |xs|
    ensures FlatMap(xs[..i + 1], f) == FlatMap(xs[..i], f) + f(xs[i])
  {
    assert xs[..i + 1][..i] == xs[..i];
  }

  lemma {:induction false} FlatMapMembers<T, U>(xs: seq<T>, f: T -> seq<U>, u: U)
    ensures u in FlatMap(xs, f) <==> exists i :: 0 <= i < |xs| && u in f(xs[i])
    decreases |xs|
  {
    if xs != [] {
      var front, last := xs[..|xs| - 1], xs[|xs| - 1];
      FlatMapMembers(front, f, u);
      if i :| 0 <= i < |front| && u in f(front[i]) {
        assert u in f(xs[i]);
      }
      if i :| 0 <= i < |xs| && u in f(xs[i]) {
        if i < |front| {
          assert u in f(front[i]);
        }
      }
    }
  }

  lemma {:induction false} FlatMapNothing<T, U>(xs: seq<T>, f: T -> seq<U>)
    requires forall x :: x in xs ==> f(x) == []
    ensures FlatMap(xs, f) == []
    decreases |xs|
  {
    if xs != [] {
      FlatMapNothing(xs[..|xs| - 1], f);
    }
  }

  /** Nothing collected means nothing made of any element. */
  lemma FlatMapEmpty<T, U>(xs: seq<T>, f: T -> seq<U>)
    requires FlatMap(xs, f) == []
    ensures forall x :: x in xs ==> f(x) == []
  {
    forall x | x in xs
      ensures f(x) == []
    {
      if f(x) != [] {
        var i :| 0 <= i < |xs| && xs[i] == x;
        assert f(x)[0] in f(xs[i]);
        FlatMapMembers(xs, f, f(x)[0]);
      }
    }
  }

  /** First occurrences, in order: how a dictionary built from the elements iterates. */
  function Dedup<T(==,!new)>(xs: seq<T>): (ys: seq<T>)
    ensures forall x :: x in ys <==> x in xs
    ensures NoRepeats(ys) && (ys == [] <==> xs == [])
  {
    if xs == [] then [] else
      var front, last := Dedup(xs[..|xs| - 1]), xs[|xs| - 1];
      assert forall x :: x in xs <==> x in xs[..|xs| - 1] || x == last;
      if last in front then front else front + [last]
  }

  lemma {:induction false} ElementCount<T(!new)>(xs: seq<T>)
    ensures |Elements(xs)| <= |xs|
    ensures |Elements(xs)| == |xs| ==> NoRepeats(xs)
    decreases |xs|
  {
    if xs != [] {
      var front, last := xs[..|xs| - 1], xs[|xs| - 1];
      ElementCount(front);
      assert Elements(xs) == Elements(front) + {last};
      if last in front {
        assert Elements(xs) == Elements(front);
      } else {
        assert |Elements(xs)| == |Elements(front)| + 1;
        forall i, j | 0 <= i < j < |xs|
          ensures |Elements(xs)| == |xs| ==> xs[i] != xs[j]
        {
          if j < |front| {
            assert front[i] == xs[i] && front[j] == xs[j];
          } else {
            assert front[i] == xs[i];
          }
        }
      }
    }
  }

  lemma {:induction false} LastWinsKeys<K, V>(pairs: seq<(K, V)>, key: K)
    ensures key in LastWins(pairs) <==> exists i :: 0 <= i < |pairs| && pairs[i].0 == key
    ensures key in LastWins(pairs) ==> (key, LastWins(pairs)[key]) in pairs
    decreases |pairs|
  {
    if pairs != [] {
      var front, last := pairs[..|pairs| - 1], pairs[|pairs| - 1];
      LastWinsKeys(front, key);
      assert pairs == front + [last];
      assert last == (last.0, last.1);
      if last.0 == key {
        assert pairs[|pairs| - 1].0 == key;
      } else {
        if i :| 0 <= i < |front| && front[i].0 == key {
          assert pairs[i].0 == key;
        }
        if i :| 0 <= i < |pairs| && pairs[i].0 == key {
          assert front[i].0 == key;
        }
      }
    }
  }

  /** With distinct keys the dictionary holds every pair. */
  lemma LastWinsDistinct<K, V>(pairs: seq<(K, V)>, i: nat)
    requires i < |pairs|
    requires forall j, k :: 0 <= j < k < |pairs| ==> pairs[j].0 != pairs[k].0
    ensures pairs[i].0 in LastWins(pairs) && LastWins(pairs)[pairs[i].0] == pairs[i].1
  {
    LastWinsKeys(pairs, pairs[i].0);
    var j :| 0 <= j < |pairs| && pairs[j] == (pairs[i].0, LastWins(pairs)[pairs[i].0]);
    assert j == i;
  }
}
