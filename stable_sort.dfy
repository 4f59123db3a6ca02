/** A stable sort by an integer key, standing for `Array.prototype.sort` with a comparator of
    the form `key(a) - key(b)` (which the language requires to be stable). Stability is stated
    as: for every key value, the elements with that key keep their relative order. */
module StableSort {
  import opened Seqs

  predicate SortedBy<T>(s: seq<T>, key: T -> int) {
    forall i, j :: 0 <= i < j < |s| ==> key(s[i]) <= key(s[j])
  }

  /** The predicate "has key `v`". */
  function KeyIs<T>(key: T -> int, v: int): T -> bool {
    x => key(x) == v
  }

  /** Places `x` before the first element whose key is not smaller than its own. */
  function Insert<T>(x: T, s: seq<T>, key: T -> int): seq<T> {
    if s == [] || key(x) <= key(s[0]) then [x] + s else [s[0]] + Insert(x, s[1..], key)
  }

  lemma {:induction false} InsertPermutes<T>(x: T, s: seq<T>, key: T -> int)
    ensures multiset(Insert(x, s, key)) == multiset(s) + multiset{x}
  {
    if s != [] && key(x) > key(s[0]) {
      InsertPermutes(x, s[1..], key);
      assert s == [s[0]] + s[1..];
    }
  }

  lemma {:induction false} InsertSorted<T>(x: T, s: seq<T>, key: T -> int)
    requires SortedBy(s, key)
    ensures SortedBy(Insert(x, s, key), key)
  {
    if s != [] && key(x) > key(s[0]) {
      var rest := Insert(x, s[1..], key);
      InsertSorted(x, s[1..], key);
      InsertPermutes(x, s[1..], key);
      forall j | 0 <= j < |rest|
        ensures key(s[0]) <= key(rest[j])
      {
        assert rest[j] in multiset(rest);
        assert rest[j] == x || rest[j] in s[1..];
      }
    }
  }

  /** Insertion sort: the front element inserted into the sorted rest. The result is a
      permutation of the input, ordered by key. */
  function Sort<T>(s: seq<T>, key: T -> int): (r: seq<T>)
    ensures multiset(r) == multiset(s)
    ensures SortedBy(r, key)
  {
    if s == [] then []
    else
      var rest := Sort(s[1..], key);
      InsertPermutes(s[0], rest, key);
      InsertSorted(s[0], rest, key);
      assert s == [s[0]] + s[1..];
      Insert(s[0], rest, key)
  }

  lemma FilterCons<T>(x: T, s: seq<T>, p: T -> bool)
    ensures Filter([x] + s, p) == (if p(x) then [x] else []) + Filter(s, p)
  {
    FilterAppend([x], s, p);
    assert [x][..|[x]| - 1] == [];
    assert Filter([x], p) == (if p(x) then [x] else []);
  }

  lemma FilterSnoc<T>(s: seq<T>, x: T, p: T -> bool)
    ensures Filter(s + [x], p) == Filter(s, p) + (if p(x) then [x] else [])
  {
    assert (s + [x])[..|s|] == s;
  }

  /** Inserting `x` puts it first among the elements with its key and moves no other
      element relative to those with the same key. */
  lemma {:induction false} InsertStable<T>(x: T, s: seq<T>, key: T -> int, v: int)
    ensures Filter(Insert(x, s, key), KeyIs(key, v))
         == (if key(x) == v then [x] else []) + Filter(s, KeyIs(key, v))
    decreases |s|
  {
    var p := KeyIs(key, v);
    if s == [] || key(x) <= key(s[0]) {
      FilterCons(x, s, p);
    } else {
      var rest := Insert(x, s[1..], key);
      InsertStable(x, s[1..], key, v);
      FilterCons(s[0], rest, p);
      FilterCons(s[0], s[1..], p);
      assert s == [s[0]] + s[1..];
      if key(x) == v {
        assert !p(s[0]);
      }
    }
  }

  /** The sort is stable: for every key, the elements with that key appear in the result in
      exactly their original order. */
  lemma {:induction false} SortStable<T>(s: seq<T>, key: T -> int, v: int)
    ensures Filter(Sort(s, key), KeyIs(key, v)) == Filter(s, KeyIs(key, v))
    decreases |s|
  {
    if s != [] {
      SortStable(s[1..], key, v);
      InsertStable(s[0], Sort(s[1..], key), key, v);
      FilterCons(s[0], s[1..], KeyIs(key, v));
      assert s == [s[0]] + s[1..];
    }
  }

  lemma {:induction false} FilterNone<T>(s: seq<T>, p: T -> bool)
    requires forall i :: 0 <= i < |s| ==> !p(s[i])
    ensures Filter(s, p) == []
    decreases |s|
  {
    if s != [] {
      FilterNone(s[..|s| - 1], p);
    }
  }

  /** Appending `x` to three consecutive blocks extends one of them: the last block, or the
      middle one when the last is empty, or the first when both others are. */
  lemma SnocBlocks<T>(fa: seq<T>, fb: seq<T>, fc: seq<T>, x: T, ga: seq<T>, gb: seq<T>, gc: seq<T>)
    requires (ga == fa && gb == fb && gc == fc + [x])
             || (fc == [] && ga == fa && gb == fb + [x] && gc == [])
             || (fb == [] && fc == [] && ga == fa + [x] && gb == [] && gc == [])
    ensures fa + fb + fc + [x] == ga + gb + gc
  {
  }

  /** A list sorted by a key taking only the values a < b < c is its a-block, then its
      b-block, then its c-block. */
  lemma {:induction false} SortedThreeBlocks<T>(r: seq<T>, key: T -> int, a: int, b: int, c: int)
    requires a < b < c
    requires SortedBy(r, key)
    requires forall i :: 0 <= i < |r| ==> key(r[i]) == a || key(r[i]) == b || key(r[i]) == c
    ensures r == Filter(r, KeyIs(key, a)) + Filter(r, KeyIs(key, b)) + Filter(r, KeyIs(key, c))
    decreases |r|
  {
    if r != [] {
      var r', x := r[..|r| - 1], r[|r| - 1];
      var pa, pb, pc := KeyIs(key, a), KeyIs(key, b), KeyIs(key, c);
      assert r == r' + [x];
      assert SortedBy(r', key);
      SortedThreeBlocks(r', key, a, b, c);
      var fa, fb, fc := Filter(r', pa), Filter(r', pb), Filter(r', pc);
      assert r' == fa + fb + fc;
      FilterSnoc(r', x, pa);
      FilterSnoc(r', x, pb);
      FilterSnoc(r', x, pc);
      var ga, gb, gc := Filter(r, pa), Filter(r, pb), Filter(r, pc);
      if key(x) == c {
        assert ga == fa && gb == fb && gc == fc + [x];
        SnocBlocks(fa, fb, fc, x, ga, gb, gc);
      } else if key(x) == b {
        FilterNone(r', pc);
        assert ga == fa && gb == fb + [x] && gc == [];
        SnocBlocks(fa, fb, fc, x, ga, gb, gc);
      } else {
        FilterNone(r', pb);
        FilterNone(r', pc);
        assert ga == fa + [x] && gb == [] && gc == [];
        SnocBlocks(fa, fb, fc, x, ga, gb, gc);
      }
    }
  }
}
