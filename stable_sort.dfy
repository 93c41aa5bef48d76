/** `Array.prototype.sort` with a comparator that compares string keys.
    ECMAScript requires that sort to be stable; it is modelled by insertion
    sort, and `SortedStableUnique` shows that every stable sort of a sequence
    gives this same result, so the choice of algorithm does not matter. */
module StableSort {
  import opened Lex

  predicate SortedBy<T>(s: seq<T>, key: T -> string) {
    forall i, j :: 0 <= i < j < |s| ==> LexLe(key(s[i]), key(s[j]))
  }

  /** The subsequence of `s` whose elements have key `k`. */
  function WithKey<T>(s: seq<T>, key: T -> string, k: string): seq<T> {
    if s == [] then []
    else (if key(s[0]) == k then [s[0]] else []) + WithKey(s[1..], key, k)
  }

  /** Inserts `x`, which came before every element of `s` in the input,
      in front of the first element whose key is not smaller than its own. */
  function Insert<T>(x: T, s: seq<T>, key: T -> string): (r: seq<T>)
    ensures multiset(r) == multiset(s) + multiset{x}
  {
    if s == [] || LexLe(key(x), key(s[0])) then [x] + s
    else
      assert s == [s[0]] + s[1..];
      [s[0]] + Insert(x, s[1..], key)
  }

  function SortBy<T>(s: seq<T>, key: T -> string): (r: seq<T>)
    ensures multiset(r) == multiset(s)
    ensures |r| == |s|
  {
    if s == [] then []
    else
      assert s == [s[0]] + s[1..];
      Insert(s[0], SortBy(s[1..], key), key)
  }

  lemma {:induction false} WithKeyAppend<T>(a: seq<T>, b: seq<T>, key: T -> string, k: string)
    ensures WithKey(a + b, key, k) == WithKey(a, key, k) + WithKey(b, key, k)
  {
    if a == [] {
      assert a + b == b;
    } else {
      var h := if key(a[0]) == k then [a[0]] else [];
      assert (a + b)[0] == a[0];
      assert (a + b)[1..] == a[1..] + b;
      WithKeyAppend(a[1..], b, key, k);
      assert WithKey(a + b, key, k) == h + WithKey(a[1..] + b, key, k);
      assert WithKey(a, key, k) == h + WithKey(a[1..], key, k);
    }
  }

  lemma {:induction false} WithKeyMembers<T>(s: seq<T>, key: T -> string, k: string, x: T)
    requires x in WithKey(s, key, k)
    ensures x in s && key(x) == k
  {
    if x != s[0] || key(s[0]) != k {
      WithKeyMembers(s[1..], key, k, x);
    }
  }

  /** Every element of a sorted sequence has a key no smaller than the first. */
  lemma SortedHead<T>(s: seq<T>, key: T -> string, x: T)
    requires SortedBy(s, key) && x in s
    ensures LexLe(key(s[0]), key(x))
  {
    var i :| 0 <= i < |s| && s[i] == x;
    if i == 0 {
      LexLeReflexive(key(x));
    }
  }

  lemma {:induction false} InsertSorted<T>(x: T, s: seq<T>, key: T -> string)
    requires SortedBy(s, key)
    ensures SortedBy(Insert(x, s, key), key)
  {
    var r := Insert(x, s, key);
    if s == [] {
    } else if LexLe(key(x), key(s[0])) {
      forall j | 1 <= j < |r| ensures LexLe(key(r[0]), key(r[j])) {
        if j > 1 {
          LexLeTransitive(key(x), key(s[0]), key(s[j - 1]));
        }
      }
    } else {
      LexLeTotal(key(x), key(s[0]));
      var t := Insert(x, s[1..], key);
      InsertSorted(x, s[1..], key);
      forall j | 0 <= j < |t| ensures LexLe(key(s[0]), key(t[j])) {
        assert t[j] in multiset(t);
        if t[j] != x {
          assert t[j] in s;
          SortedHead(s, key, t[j]);
        }
      }
      assert r == [s[0]] + t;
    }
  }

  /** The insertion sort yields a sequence sorted by key. */
  lemma {:induction false} SortBySorted<T>(s: seq<T>, key: T -> string)
    ensures SortedBy(SortBy(s, key), key)
  {
    if s != [] {
      SortBySorted(s[1..], key);
      InsertSorted(s[0], SortBy(s[1..], key), key);
    }
  }

  lemma {:induction false} InsertStable<T>(x: T, s: seq<T>, key: T -> string, k: string)
    ensures WithKey(Insert(x, s, key), key, k) == WithKey([x] + s, key, k)
  {
    if s != [] && !LexLe(key(x), key(s[0])) {
      LexLeReflexive(key(x));
      InsertStable(x, s[1..], key, k);
      assert ([s[0]] + Insert(x, s[1..], key))[1..] == Insert(x, s[1..], key);
      assert ([x] + s[1..])[1..] == s[1..];
      assert ([x] + s)[1..] == s;
    }
  }

  /** Stability: the elements that share a key keep their input order. */
  lemma {:induction false} SortByStable<T>(s: seq<T>, key: T -> string, k: string)
    ensures WithKey(SortBy(s, key), key, k) == WithKey(s, key, k)
  {
    if s != [] {
      var rest := SortBy(s[1..], key);
      calc {
        WithKey(SortBy(s, key), key, k);
        WithKey(Insert(s[0], rest, key), key, k);
        { InsertStable(s[0], rest, key, k); }
        WithKey([s[0]] + rest, key, k);
        { WithKeyAppend([s[0]], rest, key, k); }
        WithKey([s[0]], key, k) + WithKey(rest, key, k);
        { SortByStable(s[1..], key, k); }
        WithKey([s[0]], key, k) + WithKey(s[1..], key, k);
        { WithKeyAppend([s[0]], s[1..], key, k); assert [s[0]] + s[1..] == s; }
        WithKey(s, key, k);
      }
    }
  }

  /** `t` and `u` list the elements of every key in the same order. */
  ghost predicate SameKeyOrder<T>(t: seq<T>, u: seq<T>, key: T -> string) {
    forall k :: WithKey(t, key, k) == WithKey(u, key, k)
  }

  lemma SameKeyOrderNonEmpty<T>(t: seq<T>, u: seq<T>, key: T -> string)
    requires SameKeyOrder(t, u, key) && t != []
    ensures u != []
  {
    assert WithKey(t, key, key(t[0])) != [];
    assert WithKey(u, key, key(t[0])) != [];
  }

  lemma SameKeyOrderHeads<T>(t: seq<T>, u: seq<T>, key: T -> string)
    requires SortedBy(t, key) && SortedBy(u, key)
    requires SameKeyOrder(t, u, key) && t != [] && u != []
    ensures t[0] == u[0]
  {
    var kt, ku := key(t[0]), key(u[0]);
    assert WithKey(u, key, ku)[0] == u[0];
    assert u[0] in WithKey(t, key, ku);
    WithKeyMembers(t, key, ku, u[0]);
    SortedHead(t, key, u[0]);
    assert WithKey(t, key, kt)[0] == t[0];
    assert t[0] in WithKey(u, key, kt);
    WithKeyMembers(u, key, kt, t[0]);
    SortedHead(u, key, t[0]);
    LexLeAntisymmetric(kt, ku);
    assert WithKey(t, key, kt)[0] == WithKey(u, key, kt)[0];
  }

  lemma SameKeyOrderTails<T>(t: seq<T>, u: seq<T>, key: T -> string)
    requires SameKeyOrder(t, u, key) && t != [] && u != [] && t[0] == u[0]
    ensures SameKeyOrder(t[1..], u[1..], key)
  {
    forall k ensures WithKey(t[1..], key, k) == WithKey(u[1..], key, k) {
      var h := if key(t[0]) == k then [t[0]] else [];
      assert WithKey(t, key, k) == h + WithKey(t[1..], key, k);
      assert WithKey(u, key, k) == h + WithKey(u[1..], key, k);
      assert WithKey(t[1..], key, k) == WithKey(t, key, k)[|h|..];
      assert WithKey(u[1..], key, k) == WithKey(u, key, k)[|h|..];
    }
  }

  /** Two sequences that are sorted by key and agree on the order of the
      elements of each key are the same sequence. */
  lemma {:induction false} SortedStableUnique<T>(t: seq<T>, u: seq<T>, key: T -> string)
    requires SortedBy(t, key) && SortedBy(u, key)
    requires SameKeyOrder(t, u, key)
    ensures t == u
  {
    if t != [] {
      SameKeyOrderNonEmpty(t, u, key);
      SameKeyOrderHeads(t, u, key);
      SameKeyOrderTails(t, u, key);
      SortedStableUnique(t[1..], u[1..], key);
      assert t == [t[0]] + t[1..] && u == [u[0]] + u[1..];
    } else if u != [] {
      SameKeyOrderNonEmpty(u, t, key);
    }
  }

  /** Hence the insertion sort is the one result any stable sort can give. */
  lemma StableSortIsSortBy<T>(s: seq<T>, t: seq<T>, key: T -> string)
    requires SortedBy(t, key)
    requires SameKeyOrder(t, s, key)
    ensures t == SortBy(s, key)
  {
    SortBySorted(s, key);
    forall k ensures WithKey(t, key, k) == WithKey(SortBy(s, key), key, k) {
      SortByStable(s, key, k);
    }
    SortedStableUnique(t, SortBy(s, key), key);
  }
}
