/** Types and facts shared by every part of the model: Go strings and byte slices as
    sequences of bytes, optional values, sums over finite sets, and canonical sorting. */
module Common {

  newtype byte = x: int | 0 <= x < 256

  /** A Go `string` or `[]byte`: both are byte sequences. */
  type Text = seq<byte>

  datatype Option<+T> = None | Some(value: T)

  function Min(a: int, b: int): int { if a < b then a else b }

  function Max(a: int, b: int): int { if a > b then a else b }

  function Lookup<K, V>(m: map<K, V>, k: K): Option<V> {
    if k in m then Some(m[k]) else None
  }

  // ---------------------------------------------------------------- sums over finite sets

  ghost function Sum<K(!new)>(s: set<K>, f: K -> nat): nat {
    if s == {} then 0 else
      var k :| k in s;
      f(k) + Sum(s - {k}, f)
  }

  lemma {:induction false} SumRemove<K(!new)>(s: set<K>, k: K, f: K -> nat)
    requires k in s
    ensures Sum(s, f) == f(k) + Sum(s - {k}, f)
    decreases |s|
  {
    var p :| p in s && Sum(s, f) == f(p) + Sum(s - {p}, f);
    if p != k {
      SumRemove(s - {p}, k, f);
      SumRemove(s - {k}, p, f);
      assert s - {p} - {k} == s - {k} - {p};
    }
  }

  lemma {:induction false} SumCong<K(!new)>(s: set<K>, f: K -> nat, g: K -> nat)
    requires forall k :: k in s ==> f(k) == g(k)
    ensures Sum(s, f) == Sum(s, g)
    decreases |s|
  {
    if s != {} {
      var k :| k in s;
      SumRemove(s, k, f);
      SumRemove(s, k, g);
      SumCong(s - {k}, f, g);
    }
  }

  lemma {:induction false} SumUnion<K(!new)>(s: set<K>, t: set<K>, f: K -> nat)
    requires s !! t
    ensures Sum(s + t, f) == Sum(s, f) + Sum(t, f)
    decreases |t|
  {
    if t == {} {
      assert s + t == s;
    } else {
      var k :| k in t;
      SumRemove(t, k, f);
      SumRemove(s + t, k, f);
      assert s + t - {k} == s + (t - {k});
      SumUnion(s, t - {k}, f);
    }
  }

  /** A smaller set never has the larger sum. */
  lemma SumSubset<K(!new)>(s: set<K>, t: set<K>, f: K -> nat)
    requires s <= t
    ensures Sum(t, f) == Sum(s, f) + Sum(t - s, f)
  {
    SumUnion(s, t - s, f);
    assert s + (t - s) == t;
  }

  // ---------------------------------------------------------------- orders and sorting

  ghost predicate TotalOrder<K(!new)>(le: (K, K) -> bool) {
    && (forall a, b :: le(a, b) || le(b, a))
    && (forall a, b :: le(a, b) && le(b, a) ==> a == b)
    && (forall a, b, c :: le(a, b) && le(b, c) ==> le(a, c))
  }

  /** Byte-wise lexicographic order, Go's `<=` on strings. */
  predicate TextLe(a: Text, b: Text) {
    if a == [] then true
    else if b == [] then false
    else if a[0] != b[0] then a[0] < b[0]
    else TextLe(a[1..], b[1..])
  }

  lemma {:induction false} TextLeTotal(a: Text, b: Text)
    ensures TextLe(a, b) || TextLe(b, a)
    ensures TextLe(a, b) && TextLe(b, a) ==> a == b
  {
    if a != [] && b != [] && a[0] == b[0] {
      TextLeTotal(a[1..], b[1..]);
      if TextLe(a, b) && TextLe(b, a) {
        assert a == [a[0]] + a[1..] && b == [b[0]] + b[1..];
      }
    }
  }

  lemma {:induction false} TextLeTrans(a: Text, b: Text, c: Text)
    requires TextLe(a, b) && TextLe(b, c)
    ensures TextLe(a, c)
  {
    if a != [] && b != [] && c != [] && a[0] == b[0] == c[0] {
      TextLeTrans(a[1..], b[1..], c[1..]);
    }
  }

  lemma TextOrder()
    ensures TotalOrder(TextLe)
  {
    forall a, b ensures (TextLe(a, b) || TextLe(b, a)) && (TextLe(a, b) && TextLe(b, a) ==> a == b) {
      TextLeTotal(a, b);
    }
    forall a, b, c | TextLe(a, b) && TextLe(b, c) ensures TextLe(a, c) {
      TextLeTrans(a, b, c);
    }
  }

  ghost predicate IsMin<K>(s: set<K>, le: (K, K) -> bool, m: K) {
    m in s && forall y :: y in s ==> le(m, y)
  }

  lemma {:induction false} MinExists<K(!new)>(s: set<K>, le: (K, K) -> bool)
    requires TotalOrder(le) && s != {}
    ensures exists m :: IsMin(s, le, m)
    decreases |s|
  {
    var x :| x in s;
    if s == {x} {
      assert IsMin(s, le, x);
    } else {
      MinExists(s - {x}, le);
      var m :| IsMin(s - {x}, le, m);
      var least := if le(x, m) then x else m;
      assert IsMin(s, le, least);
    }
  }

  function Least<K(==, !new)>(s: set<K>, le: (K, K) -> bool): (m: K)
    requires TotalOrder(le) && s != {}
    ensures m in s && forall y :: y in s ==> le(m, y)
  {
    MinExists(s, le);
    assert exists m :: m in s && forall y :: y in s ==> le(m, y) by {
      var m :| IsMin(s, le, m);
      assert m in s && forall y :: y in s ==> le(m, y);
    }
    var m :| m in s && forall y :: y in s ==> le(m, y);
    m
  }

  lemma LeastFirst<K(!new)>(s: set<K>, le: (K, K) -> bool, m: K, rest: seq<K>)
    requires m in s && (forall y :: y in s ==> le(m, y)) && |rest| == |s - {m}| && forall k :: k in rest <==> k in s - {m}
    requires forall i, j :: 0 <= i < j < |rest| ==> rest[i] != rest[j] && le(rest[i], rest[j])
    ensures
      var r := [m] + rest;
      |r| == |s| && (forall k :: k in r <==> k in s) && forall i, j :: 0 <= i < j < |r| ==> r[i] != r[j] && le(r[i], r[j])
  {
    assert forall i :: 0 <= i < |rest| ==> rest[i] in rest;
  }

  /** The elements of a set in ascending order: what sorting the values of a Go map by a
      unique key yields, whatever order the map was iterated in. */
  function SortSet<K(==, !new)>(s: set<K>, le: (K, K) -> bool): (r: seq<K>)
    requires TotalOrder(le)
    ensures forall k :: k in r <==> k in s
    ensures |r| == |s|
    ensures forall i, j :: 0 <= i < j < |r| ==> r[i] != r[j] && le(r[i], r[j])
    decreases |s|
  {
    if s == {} then [] else
      var m := Least(s, le);
      var rest := SortSet(s - {m}, le);
      LeastFirst(s, le, m, rest);
      [m] + rest
  }

  predicate SortedBy<T>(xs: seq<T>, le: (T, T) -> bool) {
    forall i, j :: 0 <= i < j < |xs| ==> le(xs[i], xs[j])
  }

  function InsertSorted<T>(x: T, xs: seq<T>, le: (T, T) -> bool): (r: seq<T>)
    ensures multiset(r) == multiset(xs) + multiset{x}
  {
    if xs == [] || le(x, xs[0]) then [x] + xs
    else
      assert xs == [xs[0]] + xs[1..];
      [xs[0]] + InsertSorted(x, xs[1..], le)
  }

  /** Insertion sort: stands for `sort.Slice` and `List.Sort`. */
  function Sort<T>(xs: seq<T>, le: (T, T) -> bool): (r: seq<T>)
    ensures multiset(r) == multiset(xs)
  {
    if xs == [] then []
    else
      assert xs == [xs[0]] + xs[1..];
      InsertSorted(xs[0], Sort(xs[1..], le), le)
  }

  /** `le` compares any two elements and is transitive; ties are allowed. */
  ghost predicate Preorder<T(!new)>(le: (T, T) -> bool) {
    && (forall a, b :: le(a, b) || le(b, a))
    && (forall a, b, c :: le(a, b) && le(b, c) ==> le(a, c))
  }

  lemma {:induction false} InsertKeepsSorted<T(!new)>(x: T, xs: seq<T>, le: (T, T) -> bool)
    requires Preorder(le) && SortedBy(xs, le)
    ensures SortedBy(InsertSorted(x, xs, le), le)
  {
    if xs != [] && !le(x, xs[0]) {
      InsertKeepsSorted(x, xs[1..], le);
      var rest := InsertSorted(x, xs[1..], le);
      forall j | 0 <= j < |rest| ensures le(xs[0], rest[j]) {
        assert rest[j] in multiset(rest);
        assert rest[j] in multiset(xs[1..]) || rest[j] == x;
        if rest[j] != x { assert rest[j] in xs[1..]; }
      }
    } else if xs != [] {
      forall j | 0 <= j < |xs| ensures le(x, xs[j]) { }
    }
  }

  lemma {:induction false} SortIsSorted<T(!new)>(xs: seq<T>, le: (T, T) -> bool)
    requires Preorder(le)
    ensures SortedBy(Sort(xs, le), le)
  {
    if xs != [] {
      SortIsSorted(xs[1..], le);
      InsertKeepsSorted(xs[0], Sort(xs[1..], le), le);
    }
  }
}
