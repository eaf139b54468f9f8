/**
 * The ordering step of the query: `Comparator.comparing(Film::getX)` over one of four string
 * getters, applied by a stable sort. Keys are compared with `String.compareTo`, so the
 * numeric attributes are ordered as text ("10" comes before "9").
 */
module FilmSort {
  import opened JavaStrings
  import opened Models

  /** The getter a comparator is built on. */
  datatype SortKey = ByTitle | ByYear | ByAwards | ByNominations

  /** The value the chosen getter returns. */
  function KeyOf(film: FilmRecord, key: SortKey): string {
    match key
    case ByTitle => film.title
    case ByYear => film.year
    case ByAwards => film.awards
    case ByNominations => film.nominations
  }

  /** `a` does not come after `b` under the comparator. */
  predicate InOrder(a: FilmRecord, b: FilmRecord, key: SortKey) {
    CompareTo(KeyOf(a, key), KeyOf(b, key)) <= 0
  }

  /** Ascending under the comparator. */
  predicate SortedOn(s: seq<FilmRecord>, key: SortKey) {
    forall i, j :: 0 <= i < j < |s| ==> InOrder(s[i], s[j], key)
  }

  /** The films of `s` whose key is `k`, in their order in `s`. */
  function WithKey(s: seq<FilmRecord>, key: SortKey, k: string): seq<FilmRecord> {
    if s == [] then []
    else (if KeyOf(s[0], key) == k then [s[0]] else []) + WithKey(s[1..], key, k)
  }

  /** Places `x` after every film of `sorted` that does not compare greater than it. */
  function Insert(sorted: seq<FilmRecord>, x: FilmRecord, key: SortKey): seq<FilmRecord> {
    if sorted == [] then [x]
    else if CompareTo(KeyOf(sorted[0], key), KeyOf(x, key)) > 0 then [x] + sorted
    else [sorted[0]] + Insert(sorted[1..], x, key)
  }

  /** `Stream.sorted(comparator)`: a stable sort, here by insertion in encounter order. */
  function SortBy(s: seq<FilmRecord>, key: SortKey): seq<FilmRecord> {
    if s == [] then [] else Insert(SortBy(s[..|s| - 1], key), s[|s| - 1], key)
  }

  lemma {:induction false} WithKeyAppend(a: seq<FilmRecord>, b: seq<FilmRecord>, key: SortKey, k: string)
    ensures WithKey(a + b, key, k) == WithKey(a, key, k) + WithKey(b, key, k)
  {
    if a == [] {
      assert a + b == b;
    } else {
      var head := if KeyOf(a[0], key) == k then [a[0]] else [];
      var x, y := WithKey(a[1..], key, k), WithKey(b, key, k);
      calc {
        WithKey(a + b, key, k);
        == { assert (a + b)[0] == a[0]; }
        head + WithKey((a + b)[1..], key, k);
        == { assert (a + b)[1..] == a[1..] + b; }
        head + WithKey(a[1..] + b, key, k);
        == { WithKeyAppend(a[1..], b, key, k); }
        head + (x + y);
        == (head + x) + y;
      }
    }
  }

  lemma {:induction false} WithKeyNone(s: seq<FilmRecord>, key: SortKey, k: string)
    requires forall i :: 0 <= i < |s| ==> KeyOf(s[i], key) != k
    ensures WithKey(s, key, k) == []
  {
    if s != [] {
      WithKeyNone(s[1..], key, k);
    }
  }

  lemma InsertPermutes(sorted: seq<FilmRecord>, x: FilmRecord, key: SortKey)
    ensures multiset(Insert(sorted, x, key)) == multiset(sorted) + multiset{x}
  {
    if sorted != [] && CompareTo(KeyOf(sorted[0], key), KeyOf(x, key)) <= 0 {
      InsertPermutes(sorted[1..], x, key);
      assert sorted == [sorted[0]] + sorted[1..];
    }
  }

  lemma SortedTail(s: seq<FilmRecord>, key: SortKey)
    requires s != [] && SortedOn(s, key)
    ensures SortedOn(s[1..], key)
  {
    forall i, j | 0 <= i < j < |s[1..]| ensures InOrder(s[1..][i], s[1..][j], key) {
      assert s[1..][i] == s[i + 1] && s[1..][j] == s[j + 1];
    }
  }

  /** A film that is in order with every film of a sorted sequence can go in front of it. */
  lemma ConsSorted(h: FilmRecord, rest: seq<FilmRecord>, key: SortKey)
    requires SortedOn(rest, key)
    requires forall j :: 0 <= j < |rest| ==> InOrder(h, rest[j], key)
    ensures SortedOn([h] + rest, key)
  {
    var r := [h] + rest;
    forall i, j | 0 <= i < j < |r| ensures InOrder(r[i], r[j], key) {
      if i > 0 {
        assert r[i] == rest[i - 1] && r[j] == rest[j - 1];
      } else {
        assert r[j] == rest[j - 1];
      }
    }
  }

  /** `x` goes before a sorted sequence whose first key is greater than its own. */
  lemma PrefixSorted(x: FilmRecord, sorted: seq<FilmRecord>, key: SortKey)
    requires SortedOn(sorted, key) && sorted != []
    requires CompareTo(KeyOf(sorted[0], key), KeyOf(x, key)) > 0
    ensures forall i :: 0 <= i < |sorted| ==> CompareTo(KeyOf(x, key), KeyOf(sorted[i], key)) < 0
    ensures SortedOn([x] + sorted, key)
  {
    CompareToAntisymmetric(KeyOf(sorted[0], key), KeyOf(x, key));
    forall i | 0 <= i < |sorted|
      ensures CompareTo(KeyOf(x, key), KeyOf(sorted[i], key)) < 0
    {
      if i > 0 && CompareTo(KeyOf(x, key), KeyOf(sorted[i], key)) >= 0 {
        CompareToAntisymmetric(KeyOf(x, key), KeyOf(sorted[i], key));
        assert InOrder(sorted[0], sorted[i], key);
        CompareToTransitive(KeyOf(sorted[0], key), KeyOf(sorted[i], key), KeyOf(x, key));
      }
    }
    ConsSorted(x, sorted, key);
  }

  /** Whatever is inserted behind the head of a sorted sequence stays in order with that head. */
  lemma InsertBehindHead(sorted: seq<FilmRecord>, x: FilmRecord, key: SortKey)
    requires SortedOn(sorted, key) && sorted != []
    requires InOrder(sorted[0], x, key)
    ensures forall j :: 0 <= j < |Insert(sorted[1..], x, key)| ==>
              InOrder(sorted[0], Insert(sorted[1..], x, key)[j], key)
  {
    var rest := Insert(sorted[1..], x, key);
    InsertPermutes(sorted[1..], x, key);
    forall j | 0 <= j < |rest| ensures InOrder(sorted[0], rest[j], key) {
      assert rest[j] in multiset(rest);
      if rest[j] != x {
        assert rest[j] in multiset(sorted[1..]);
        var m :| 0 <= m < |sorted[1..]| && sorted[1..][m] == rest[j];
        assert sorted[1..][m] == sorted[m + 1];
      }
    }
  }

  /** Inserting into a sorted sequence keeps it sorted. */
  lemma {:induction false} InsertSorted(sorted: seq<FilmRecord>, x: FilmRecord, key: SortKey)
    requires SortedOn(sorted, key)
    ensures SortedOn(Insert(sorted, x, key), key)
  {
    if sorted == [] {
    } else if CompareTo(KeyOf(sorted[0], key), KeyOf(x, key)) > 0 {
      PrefixSorted(x, sorted, key);
    } else {
      SortedTail(sorted, key);
      InsertSorted(sorted[1..], x, key);
      InsertBehindHead(sorted, x, key);
      ConsSorted(sorted[0], Insert(sorted[1..], x, key), key);
    }
  }

  /** A film placed in front of a sorted sequence whose keys all exceed its own comes last among its key. */
  lemma InsertFrontStable(sorted: seq<FilmRecord>, x: FilmRecord, key: SortKey, k: string)
    requires SortedOn(sorted, key) && sorted != []
    requires CompareTo(KeyOf(sorted[0], key), KeyOf(x, key)) > 0
    ensures WithKey([x] + sorted, key, k) == WithKey(sorted, key, k) + (if KeyOf(x, key) == k then [x] else [])
  {
    var r := [x] + sorted;
    assert r[0] == x && r[1..] == sorted;
    if KeyOf(x, key) == k {
      PrefixSorted(x, sorted, key);
      forall i | 0 <= i < |sorted| ensures KeyOf(sorted[i], key) != k {
        CompareToZeroIffEqual(KeyOf(x, key), KeyOf(sorted[i], key));
      }
      WithKeyNone(sorted, key, k);
    }
  }

  /** Inserting `x` puts it after every film of `sorted` that shares its key. */
  lemma {:induction false} InsertStable(sorted: seq<FilmRecord>, x: FilmRecord, key: SortKey, k: string)
    requires SortedOn(sorted, key)
    ensures WithKey(Insert(sorted, x, key), key, k)
            == WithKey(sorted, key, k) + (if KeyOf(x, key) == k then [x] else [])
  {
    var r := Insert(sorted, x, key);
    if sorted == [] {
    } else if CompareTo(KeyOf(sorted[0], key), KeyOf(x, key)) > 0 {
      InsertFrontStable(sorted, x, key, k);
    } else {
      var head := if KeyOf(sorted[0], key) == k then [sorted[0]] else [];
      var last := if KeyOf(x, key) == k then [x] else [];
      SortedTail(sorted, key);
      calc {
        WithKey(r, key, k);
        == { assert r[0] == sorted[0] && r[1..] == Insert(sorted[1..], x, key); }
        head + WithKey(Insert(sorted[1..], x, key), key, k);
        == { InsertStable(sorted[1..], x, key, k); }
        head + (WithKey(sorted[1..], key, k) + last);
        == (head + WithKey(sorted[1..], key, k)) + last;
      }
    }
  }

  /** The sort is a permutation of its input. */
  lemma {:induction false} SortByPermutes(s: seq<FilmRecord>, key: SortKey)
    ensures multiset(SortBy(s, key)) == multiset(s)
  {
    if s != [] {
      var init, last := s[..|s| - 1], s[|s| - 1];
      SortByPermutes(init, key);
      InsertPermutes(SortBy(init, key), last, key);
      assert s == init + [last];
    }
  }

  /** The sort is ascending under `compareTo` of the key. */
  lemma {:induction false} SortBySorted(s: seq<FilmRecord>, key: SortKey)
    ensures SortedOn(SortBy(s, key), key)
  {
    if s != [] {
      var init, last := s[..|s| - 1], s[|s| - 1];
      SortBySorted(init, key);
      InsertSorted(SortBy(init, key), last, key);
    }
  }

  /** The sort is stable: the films sharing any one key keep their relative order. */
  lemma {:induction false} SortByStable(s: seq<FilmRecord>, key: SortKey, k: string)
    ensures WithKey(SortBy(s, key), key, k) == WithKey(s, key, k)
  {
    if s != [] {
      var init, last := s[..|s| - 1], s[|s| - 1];
      SortByStable(init, key, k);
      SortBySorted(init, key);
      InsertStable(SortBy(init, key), last, key, k);
      WithKeyAppend(init, [last], key, k);
      assert s == init + [last];
    }
  }

  /**
   * The sort is a permutation, ascending under `compareTo` of the key, and stable: the films
   * sharing any one key keep their relative order.
   */
  lemma SortByCorrect(s: seq<FilmRecord>, key: SortKey)
    ensures SortedOn(SortBy(s, key), key)
    ensures multiset(SortBy(s, key)) == multiset(s)
    ensures forall k :: WithKey(SortBy(s, key), key, k) == WithKey(s, key, k)
  {
    SortBySorted(s, key);
    SortByPermutes(s, key);
    forall k ensures WithKey(SortBy(s, key), key, k) == WithKey(s, key, k) {
      SortByStable(s, key, k);
    }
  }

  lemma {:induction false} WithKeyContains(s: seq<FilmRecord>, key: SortKey, i: nat)
    requires i < |s|
    ensures s[i] in WithKey(s, key, KeyOf(s[i], key))
  {
    if i > 0 {
      WithKeyContains(s[1..], key, i - 1);
    }
  }

  lemma {:induction false} WithKeyMembers(s: seq<FilmRecord>, key: SortKey, k: string, x: FilmRecord)
    requires x in WithKey(s, key, k)
    ensures x in s && KeyOf(x, key) == k
  {
    if s[0] != x || KeyOf(s[0], key) != k {
      WithKeyMembers(s[1..], key, k, x);
    }
  }

  /** Two ascending sequences that agree on the films of every key start with the same key. */
  lemma SameHeadKey(r1: seq<FilmRecord>, r2: seq<FilmRecord>, key: SortKey)
    requires r1 != [] && r2 != [] && SortedOn(r1, key) && SortedOn(r2, key)
    requires forall k :: WithKey(r1, key, k) == WithKey(r2, key, k)
    ensures KeyOf(r1[0], key) == KeyOf(r2[0], key)
  {
    var k1, k2 := KeyOf(r1[0], key), KeyOf(r2[0], key);
    WithKeyContains(r1, key, 0);
    WithKeyContains(r2, key, 0);
    WithKeyMembers(r2, key, k1, r1[0]);
    WithKeyMembers(r1, key, k2, r2[0]);
    var i :| 0 <= i < |r2| && r2[i] == r1[0];
    var j :| 0 <= j < |r1| && r1[j] == r2[0];
    CompareToZeroIffEqual(k1, k1);
    assert CompareTo(k2, k1) <= 0 by {
      if i > 0 { assert InOrder(r2[0], r2[i], key); }
    }
    assert CompareTo(k1, k2) <= 0 by {
      if j > 0 { assert InOrder(r1[0], r1[j], key); }
    }
    CompareToAntisymmetric(k1, k2);
    CompareToZeroIffEqual(k1, k2);
  }

  /** ... and so with the same film, after which they agree on every key's films again. */
  lemma SameHead(r1: seq<FilmRecord>, r2: seq<FilmRecord>, key: SortKey)
    requires r1 != [] && r2 != [] && SortedOn(r1, key) && SortedOn(r2, key)
    requires forall k :: WithKey(r1, key, k) == WithKey(r2, key, k)
    ensures r1[0] == r2[0]
    ensures forall k :: WithKey(r1[1..], key, k) == WithKey(r2[1..], key, k)
  {
    SameHeadKey(r1, r2, key);
    var k1 := KeyOf(r1[0], key);
    var w1, w2 := WithKey(r1[1..], key, k1), WithKey(r2[1..], key, k1);
    assert WithKey(r1, key, k1) == [r1[0]] + w1;
    assert WithKey(r2, key, k1) == [r2[0]] + w2;
    assert r1[0] == r2[0] && w1 == w2 by {
      assert ([r1[0]] + w1)[0] == r1[0] && ([r1[0]] + w1)[1..] == w1;
      assert ([r2[0]] + w2)[0] == r2[0] && ([r2[0]] + w2)[1..] == w2;
    }
    forall k ensures WithKey(r1[1..], key, k) == WithKey(r2[1..], key, k) {
      assert WithKey(r1, key, k) == WithKey(r2, key, k);
      if k != k1 {
        assert WithKey(r1, key, k) == WithKey(r1[1..], key, k);
        assert WithKey(r2, key, k) == WithKey(r2[1..], key, k);
      }
    }
  }

  /**
   * Sortedness and stability pin the result down: two ascending sequences that agree on the
   * films of every key are the same sequence.
   */
  lemma {:induction false} SortedStableUnique(r1: seq<FilmRecord>, r2: seq<FilmRecord>, key: SortKey)
    requires SortedOn(r1, key) && SortedOn(r2, key)
    requires forall k :: WithKey(r1, key, k) == WithKey(r2, key, k)
    ensures r1 == r2
  {
    if r1 == [] && r2 == [] {
    } else if r2 == [] {
      // the films keyed like r1[0] would have to be missing from r2
      WithKeyContains(r1, key, 0);
      assert false;
    } else if r1 == [] {
      WithKeyContains(r2, key, 0);
      assert false;
    } else {
      SameHead(r1, r2, key);
      SortedTail(r1, key);
      SortedTail(r2, key);
      SortedStableUnique(r1[1..], r2[1..], key);
      assert r1 == [r1[0]] + r1[1..] && r2 == [r2[0]] + r2[1..];
    }
  }

  /** A sequence is the stable sort of `s` exactly when it is ascending and keeps every key's films in order. */
  lemma SortByCharacterized(s: seq<FilmRecord>, r: seq<FilmRecord>, key: SortKey)
    ensures r == SortBy(s, key) ==>
            SortedOn(r, key) && forall k :: WithKey(r, key, k) == WithKey(s, key, k)
    ensures SortedOn(r, key) && (forall k :: WithKey(r, key, k) == WithKey(s, key, k)) ==>
            r == SortBy(s, key)
  {
    SortByCorrect(s, key);
    var sorted := SortBy(s, key);
    if SortedOn(r, key) && forall k :: WithKey(r, key, k) == WithKey(s, key, k) {
      forall k ensures WithKey(r, key, k) == WithKey(sorted, key, k) {
        assert WithKey(r, key, k) == WithKey(s, key, k);
      }
      SortedStableUnique(r, sorted, key);
    }
  }
}
