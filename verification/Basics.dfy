/** Small vocabulary shared by the models: options, JavaScript string order, sorting, distinctness. */
module Basics {

  datatype Option<+T> = None | Some(value: T)

  function Min(a: int, b: int): int { if a < b then a else b }

  function Max(a: int, b: int): int { if a < b then b else a }

  /** An integer setting: absent when the variable is unset or not a number, and then left unclamped. */
  function ParseIntEnv(parsed: Option<int>, fallback: int, min: int, max: int): int {
    match parsed
    case None => fallback
    case Some(v) => Min(max, Max(min, v))
  }

  /** `<` on strings as JavaScript and Postgres (C collation) define it: first differing code unit decides. */
  predicate StrLess(a: string, b: string) {
    if a == "" then b != ""
    else if b == "" then false
    else if a[0] != b[0] then a[0] < b[0]
    else StrLess(a[1..], b[1..])
  }

  lemma {:induction false} StrLessTotal(a: string, b: string)
    ensures a == b ==> !StrLess(a, b) && !StrLess(b, a)
    ensures a != b ==> (StrLess(a, b) <==> !StrLess(b, a))
    decreases a
  {
    if a == "" || b == "" || a[0] != b[0] {
    } else {
      assert a == [a[0]] + a[1..] && b == [b[0]] + b[1..];
      StrLessTotal(a[1..], b[1..]);
    }
  }

  /** The first difference decides, and a proper prefix is less. */
  lemma {:induction false} StrLessDecides(common: string, a: string, b: string)
    ensures a != "" && b != "" && a[0] < b[0] ==> StrLess(common + a, common + b) && !StrLess(common + b, common + a)
    ensures b != "" ==> StrLess(common, common + b) && !StrLess(common + b, common)
  {
    if common == "" {
      assert common + a == a && common + b == b;
    } else {
      assert (common + a)[1..] == common[1..] + a && (common + b)[1..] == common[1..] + b;
      StrLessDecides(common[1..], a, b);
    }
  }

  lemma {:induction false} StrLessTransitive(a: string, b: string, c: string)
    requires StrLess(a, b) && StrLess(b, c)
    ensures StrLess(a, c)
    decreases a
  {
    if a != "" && a[0] == b[0] == c[0] {
      StrLessTransitive(a[1..], b[1..], c[1..]);
    }
  }

  lemma {:induction false} UpperBound(s: set<int>) returns (b: nat)
    ensures forall x <- s :: x < b
    decreases s
  {
    if x: int :| x in s {
      var rest := UpperBound(s - {x});
      b := Max(rest, x + 1);
      forall y <- s ensures y < b { assert y == x || y in s - {x}; }
    } else {
      b := 0;
    }
  }

  predicate Distinct<T(==)>(s: seq<T>) {
    forall i, j :: 0 <= i < j < |s| ==> s[i] != s[j]
  }

  lemma DistinctAppend<T>(s: seq<T>, x: T)
    requires Distinct(s) && x !in s
    ensures Distinct(s + [x])
  {}

  lemma DistinctParts<T>(a: seq<T>, b: seq<T>)
    requires Distinct(a + b)
    ensures Distinct(a) && Distinct(b)
    ensures forall x :: x in a ==> x !in b
  {
    forall i, j | 0 <= i < |a| && 0 <= j < |b| ensures a[i] != b[j] {
      assert (a + b)[i] == a[i] && (a + b)[|a| + j] == b[j];
    }
    forall i, j | 0 <= i < j < |b| ensures b[i] != b[j] {
      assert (a + b)[|a| + i] == b[i] && (a + b)[|a| + j] == b[j];
    }
    forall i, j | 0 <= i < j < |a| ensures a[i] != a[j] {
      assert (a + b)[i] == a[i] && (a + b)[j] == a[j];
    }
  }

  /** The position of the first x, or -1. */
  function IndexOf<T(==)>(s: seq<T>, x: T): (i: int)
    ensures i == -1 <==> x !in s
    ensures i != -1 ==> 0 <= i < |s| && s[i] == x && x !in s[..i]
  {
    if s == [] then -1
    else if s[0] == x then 0
    else
      var j := IndexOf(s[1..], x);
      if j == -1 then -1 else j + 1
  }

  /** The sequence without its first x. */
  function Without<T(==)>(s: seq<T>, x: T): seq<T> {
    if s == [] then [] else if s[0] == x then s[1..] else [s[0]] + Without(s[1..], x)
  }

  /** `splice(i, 1)` */
  function Splice<T>(s: seq<T>, i: nat): seq<T>
    requires i < |s|
  {
    s[..i] + s[i + 1..]
  }

  lemma SpliceTail<T>(s: seq<T>, j: nat)
    requires j + 1 < |s|
    ensures [s[0]] + Splice(s[1..], j) == Splice(s, j + 1)
  {
    var a, b := [s[0]] + Splice(s[1..], j), Splice(s, j + 1);
    forall k | 0 <= k < |b| ensures a[k] == b[k] {}
  }

  /** indexOf and splice take the first occurrence out. */
  lemma {:induction false} SpliceIsWithout<T>(s: seq<T>, x: T)
    ensures Without(s, x) == if IndexOf(s, x) == -1 then s else Splice(s, IndexOf(s, x))
  {
    if s == [] {
    } else if s[0] == x {
      assert s[..0] + s[1..] == s[1..];
    } else {
      SpliceIsWithout(s[1..], x);
      var j := IndexOf(s[1..], x);
      hide Splice;
      if j == -1 {
        assert [s[0]] + s[1..] == s;
      } else {
        SpliceTail(s, j);
      }
    }
  }

  lemma {:induction false} WithoutMembers<T>(s: seq<T>, x: T)
    requires Distinct(s)
    ensures Distinct(Without(s, x))
    ensures forall y :: y in Without(s, x) <==> y in s && y != x
    ensures |Without(s, x)| == if x in s then |s| - 1 else |s|
    ensures Without(s, x) != [] && s[0] != x ==> Without(s, x)[0] == s[0]
  {
    if s == [] {
    } else {
      assert s == [s[0]] + s[1..];
      assert s[0] !in s[1..];
      WithoutMembers(s[1..], x);
      if s[0] != x {
        var rest := Without(s[1..], x);
        assert Without(s, x) == [s[0]] + rest && s[0] !in rest;
      }
    }
  }

  function Filter<T>(s: seq<T>, keep: T -> bool): seq<T> {
    if s == [] then []
    else (if keep(s[0]) then [s[0]] else []) + Filter(s[1..], keep)
  }

  lemma {:induction false} FilterMembers<T>(s: seq<T>, keep: T -> bool)
    ensures forall x :: x in Filter(s, keep) <==> x in s && keep(x)
  {
    if s == [] {
    } else {
      assert s == [s[0]] + s[1..];
      FilterMembers(s[1..], keep);
    }
  }

  /** `le` orders every two values and is transitive. */
  ghost predicate TotalPreorder<T(!new)>(le: (T, T) -> bool) {
    && (forall a, b :: le(a, b) || le(b, a))
    && (forall a, b, c :: le(a, b) && le(b, c) ==> le(a, c))
  }

  ghost predicate SortedBy<T>(s: seq<T>, le: (T, T) -> bool) {
    forall i, j :: 0 <= i < j < |s| ==> le(s[i], s[j])
  }

  function InsertSorted<T>(x: T, s: seq<T>, le: (T, T) -> bool): seq<T> {
    if s == [] then [x]
    else if le(x, s[0]) then [x] + s
    else [s[0]] + InsertSorted(x, s[1..], le)
  }

  /** What a stable comparison sort returns for a total preorder. */
  function Sort<T>(s: seq<T>, le: (T, T) -> bool): seq<T> {
    if s == [] then [] else InsertSorted(s[0], Sort(s[1..], le), le)
  }

  lemma {:induction false} InsertSortedIsSorted<T(!new)>(x: T, s: seq<T>, le: (T, T) -> bool)
    requires TotalPreorder(le) && SortedBy(s, le)
    ensures SortedBy(InsertSorted(x, s, le), le)
    ensures multiset(InsertSorted(x, s, le)) == multiset(s) + multiset{x}
  {
    if s == [] {
    } else if le(x, s[0]) {
    } else {
      InsertSortedIsSorted(x, s[1..], le);
      var rest := InsertSorted(x, s[1..], le);
      assert s == [s[0]] + s[1..];
      forall k | 0 <= k < |rest| ensures le(s[0], rest[k]) {
        assert rest[k] in multiset(rest);
        assert rest[k] == x || rest[k] in s[1..];
      }
    }
  }

  lemma {:induction false} SortIsSortedPermutation<T(!new)>(s: seq<T>, le: (T, T) -> bool)
    requires TotalPreorder(le)
    ensures SortedBy(Sort(s, le), le)
    ensures multiset(Sort(s, le)) == multiset(s)
    ensures |Sort(s, le)| == |s|
  {
    if s == [] {
    } else {
      SortIsSortedPermutation(s[1..], le);
      InsertSortedIsSorted(s[0], Sort(s[1..], le), le);
      assert s == [s[0]] + s[1..];
      assert multiset(s) == multiset(s[1..]) + multiset{s[0]};
    }
    assert |multiset(Sort(s, le))| == |Sort(s, le)|;
    assert |multiset(s)| == |s|;
  }

  // ---- Insertion-ordered maps: JavaScript's Map and Python's dict ---------------------------------------

  datatype Entry<+K, +V> = Entry(key: K, value: V)

  /** Setting an existing key keeps its place. */
  function DictSet<K(==), V>(d: seq<Entry<K, V>>, key: K, value: V): seq<Entry<K, V>> {
    if d == [] then [Entry(key, value)]
    else if d[0].key == key then [Entry(key, value)] + d[1..]
    else [d[0]] + DictSet(d[1..], key, value)
  }

  function Lookup<K(==), V>(d: seq<Entry<K, V>>, key: K): Option<V> {
    if d == [] then None else if d[0].key == key then Some(d[0].value) else Lookup(d[1..], key)
  }

  predicate DistinctKeys<K(==), V>(d: seq<Entry<K, V>>) {
    forall i, j :: 0 <= i < j < |d| ==> d[i].key != d[j].key
  }

  lemma {:induction false} LookupMember<K, V>(d: seq<Entry<K, V>>, key: K)
    ensures Lookup(d, key).None? <==> forall e <- d :: e.key != key
    ensures Lookup(d, key).Some? ==> Entry(key, Lookup(d, key).value) in d
  {
    if d == [] {
    } else {
      assert d == [d[0]] + d[1..];
      LookupMember(d[1..], key);
    }
  }

  lemma {:induction false} LookupUnique<K, V>(d: seq<Entry<K, V>>, e: Entry<K, V>)
    requires DistinctKeys(d) && e in d
    ensures Lookup(d, e.key) == Some(e.value)
  {
    if d[0] != e {
      assert e in d[1..];
      LookupUnique(d[1..], e);
    }
  }

  lemma {:induction false} DictSetLookup<K, V>(d: seq<Entry<K, V>>, key: K, value: V, k: K)
    ensures Lookup(DictSet(d, key, value), k) == if k == key then Some(value) else Lookup(d, k)
  {
    if d != [] && d[0].key != key { DictSetLookup(d[1..], key, value, k); }
  }

  lemma {:induction false} DictSetMembers<K, V>(d: seq<Entry<K, V>>, key: K, value: V)
    ensures forall e <- DictSet(d, key, value) :: e == Entry(key, value) || e in d
  {
    if d != [] && d[0].key != key { DictSetMembers(d[1..], key, value); }
  }

  lemma {:induction false} DictSetDistinct<K, V>(d: seq<Entry<K, V>>, key: K, value: V)
    requires DistinctKeys(d)
    ensures DistinctKeys(DictSet(d, key, value))
  {
    if d != [] && d[0].key != key {
      DictSetDistinct(d[1..], key, value);
      DictSetMembers(d[1..], key, value);
      var rest := DictSet(d[1..], key, value);
      forall i | 0 <= i < |rest| ensures rest[i].key != d[0].key { assert rest[i] in rest; }
    }
  }

  /** The keys of a dict, in order of first insertion. */
  function KeysOf<K, V>(d: seq<Entry<K, V>>): seq<K> { seq(|d|, i requires 0 <= i < |d| => d[i].key) }

  /** A new key goes to the end; setting an old one moves nothing. */
  lemma {:induction false} DictSetKeepsOrder<K, V>(d: seq<Entry<K, V>>, key: K, value: V)
    ensures KeysOf(DictSet(d, key, value)) == if key in KeysOf(d) then KeysOf(d) else KeysOf(d) + [key]
  {
    if d == [] {
    } else {
      assert KeysOf(d) == [d[0].key] + KeysOf(d[1..]);
      if d[0].key == key {
        assert KeysOf([Entry(key, value)] + d[1..]) == KeysOf(d);
      } else {
        DictSetKeepsOrder(d[1..], key, value);
        assert KeysOf([d[0]] + DictSet(d[1..], key, value)) == [d[0].key] + KeysOf(DictSet(d[1..], key, value));
      }
    }
  }

  lemma DictSetFacts<K, V>(d: seq<Entry<K, V>>, key: K, value: V, k: K)
    requires DistinctKeys(d)
    ensures DistinctKeys(DictSet(d, key, value))
    ensures forall e <- DictSet(d, key, value) :: e == Entry(key, value) || e in d
    ensures Lookup(DictSet(d, key, value), k) == if k == key then Some(value) else Lookup(d, k)
  {
    DictSetDistinct(d, key, value);
    DictSetMembers(d, key, value);
    DictSetLookup(d, key, value, k);
  }

  lemma {:induction false} LookupInParts<K, V>(a: seq<Entry<K, V>>, b: seq<Entry<K, V>>, key: K)
    ensures Lookup(a + b, key) == if Lookup(a, key).Some? then Lookup(a, key) else Lookup(b, key)
  {
    if a == [] {
      assert a + b == b;
    } else {
      assert (a + b)[1..] == a[1..] + b;
      LookupInParts(a[1..], b, key);
    }
  }

  lemma DistinctKeysParts<K, V>(d: seq<Entry<K, V>>, n: nat, key: K)
    requires DistinctKeys(d) && n <= |d|
    ensures DistinctKeys(d[..n]) && DistinctKeys(d[n..])
    ensures Lookup(d[..n], key).None? || Lookup(d[n..], key).None?
    ensures Lookup(d, key) == if Lookup(d[..n], key).Some? then Lookup(d[..n], key) else Lookup(d[n..], key)
  {
    assert d == d[..n] + d[n..];
    LookupInParts(d[..n], d[n..], key);
    PartsDiffer(d, n);
    hide Lookup;
    LookupMember(d[..n], key);
    LookupMember(d[n..], key);
  }

  lemma PartsDiffer<K, V>(d: seq<Entry<K, V>>, n: nat)
    requires DistinctKeys(d) && n <= |d|
    ensures forall x, y :: x in d[..n] && y in d[n..] ==> x.key != y.key
  {
    forall x, y | x in d[..n] && y in d[n..] ensures x.key != y.key {
      var i :| 0 <= i < n && d[i] == x;
      var j :| n <= j < |d| && d[j] == y;
    }
  }
}
