// Values shared by every module: an optional value, an order-independent
// sort, and the list operations the reads are specified with.

module Wrappers {
  datatype Option<+T> = None | Some(value: T)
}

module Lists {

  function Reverse<T>(s: seq<T>): (r: seq<T>)
    ensures |r| == |s|
  {
    if s == [] then [] else Reverse(s[1..]) + [s[0]]
  }

  lemma Associative<T>(a: seq<T>, b: seq<T>, c: seq<T>)
    ensures a + (b + c) == (a + b) + c
  {
  }

  lemma {:induction false} ReverseConcat<T>(a: seq<T>, b: seq<T>)
    ensures Reverse(a + b) == Reverse(b) + Reverse(a)
  {
    if a == [] {
      assert a + b == b;
    } else {
      ReverseConcat(a[1..], b);
      assert (a + b)[1..] == a[1..] + b;
    }
  }

  // The first n elements of s, or all of them.
  function Take<T>(n: nat, s: seq<T>): seq<T> {
    if n < |s| then s[..n] else s
  }

  // A limit as the requests carry it: 0 means none.
  function Limited<T>(limit: nat, s: seq<T>): seq<T> {
    if limit == 0 then s else Take(limit, s)
  }

  // s in the direction of a read.
  function Directed<T>(backwards: bool, s: seq<T>): seq<T> {
    if backwards then Reverse(s) else s
  }

  ghost predicate Distinct<T>(s: seq<T>) {
    forall i, j :: 0 <= i < j < |s| ==> s[i] != s[j]
  }

  function Elements<T>(s: seq<T>): set<T> {
    set x | x in s
  }

  ghost predicate HasKey<T(!new), K>(key: T -> K, s: seq<T>, k: K) {
    exists x :: x in s && key(x) == k
  }

  // s without the elements whose key an earlier one has.
  ghost function Firsts<T(!new), K>(key: T -> K, s: seq<T>): seq<T> {
    if s == [] then []
    else
      var init, x := s[..|s| - 1], s[|s| - 1];
      if HasKey(key, init, key(x)) then Firsts(key, init) else Firsts(key, init) + [x]
  }

  lemma {:induction false} FirstsKeepEveryKey<T(!new), K>(key: T -> K, s: seq<T>, k: K)
    ensures HasKey(key, s, k) <==> HasKey(key, Firsts(key, s), k)
  {
    if s != [] {
      var init, x := s[..|s| - 1], s[|s| - 1];
      FirstsKeepEveryKey(key, init, k);
      FirstsKeepEveryKey(key, init, key(x));
      assert forall y :: y in s <==> y in init || y == x;
      assert forall y :: y in Firsts(key, s) <==> y in Firsts(key, init) || (y == x && !HasKey(key, init, key(x)));
    }
  }

  lemma {:induction false} FirstsDiffer<T(!new), K>(key: T -> K, s: seq<T>)
    ensures forall x :: x in Firsts(key, s) ==> x in s
    ensures forall i, j :: 0 <= i < j < |Firsts(key, s)| ==> key(Firsts(key, s)[i]) != key(Firsts(key, s)[j])
  {
    if s != [] {
      FirstsDiffer(key, s[..|s| - 1]);
    }
  }

  // Each element kept is where its key first appears.
  lemma {:induction false} FirstsComeFirst<T(!new), K>(key: T -> K, s: seq<T>, x: T) returns (n: nat)
    requires x in Firsts(key, s)
    ensures n < |s| && s[n] == x && forall i :: 0 <= i < n ==> key(s[i]) != key(x)
  {
    var init, last := s[..|s| - 1], s[|s| - 1];
    if x in Firsts(key, init) {
      n := FirstsComeFirst(key, init, x);
      assert forall i :: 0 <= i < n ==> s[i] == init[i];
    } else {
      n := |s| - 1;
      assert forall i :: 0 <= i < n ==> s[i] == init[i] && s[i] in init;
    }
  }

  lemma FirstsStep<T(!new), K>(key: T -> K, s: seq<T>, n: nat)
    requires n < |s|
    ensures Firsts(key, s[..n + 1]) ==
              if HasKey(key, s[..n], key(s[n])) then Firsts(key, s[..n]) else Firsts(key, s[..n]) + [s[n]]
  {
    var t := s[..n + 1];
    assert |t| == n + 1 && t[..|t| - 1] == s[..n] && t[|t| - 1] == s[n];
  }

  method KeepFirsts<T(!new), K(==)>(key: T -> K, s: seq<T>) returns (out: seq<T>)
    ensures out == Firsts(key, s)
  {
    if |s| < 2 {
      assert Firsts(key, s[..0]) == [];
      return s;
    }
    var seen: set<K> := {};
    out := [];
    for n := 0 to |s|
      invariant forall k :: k in seen <==> HasKey(key, s[..n], k)
      invariant out == Firsts(key, s[..n])
    {
      FirstsStep(key, s, n);
      assert forall x :: x in s[..n + 1] <==> x in s[..n] || x == s[n];
      var k := key(s[n]);
      assert k in seen <==> HasKey(key, s[..n], k);
      if k !in seen {
        seen := seen + {k};
        out := out + [s[n]];
      }
    }
    assert s[..|s|] == s;
  }

  lemma KeptFor<T(!new), K>(key: T -> K, s: seq<T>, x: T) returns (kept: T)
    requires x in s
    ensures kept in Firsts(key, s) && key(kept) == key(x)
  {
    FirstsKeepEveryKey(key, s, key(x));
    kept :| kept in Firsts(key, s) && key(kept) == key(x);
  }

  // Two keys that tell the same elements apart keep the same ones.
  lemma {:induction false} SameClasses<T(!new), K, L>(key: T -> K, kind: T -> L, s: seq<T>)
    requires forall a, b :: key(a) == key(b) <==> kind(a) == kind(b)
    ensures Firsts(key, s) == Firsts(kind, s)
  {
    if s != [] {
      SameClasses(key, kind, s[..|s| - 1]);
    }
  }

  function Concat<T>(ss: seq<seq<T>>): seq<T> {
    if ss == [] then [] else ss[0] + Concat(ss[1..])
  }

  lemma {:induction false} ConcatSnoc<T>(ss: seq<seq<T>>, s: seq<T>)
    ensures Concat(ss + [s]) == Concat(ss) + s
  {
    if ss == [] {
      assert ss + [s] == [s];
      assert [s][1..] == [];
      assert Concat([s]) == s + Concat([]);
    } else {
      ConcatSnoc(ss[1..], s);
      assert (ss + [s])[1..] == ss[1..] + [s];
    }
  }
}

// Sorting by a total order, as sort.Strings and sort.Slice do: two lists
// have one sorted form exactly when they hold the same elements.
module Sorting {

  ghost predicate TotalOrder<T(!new)>(leq: (T, T) -> bool) {
    && (forall a, b :: leq(a, b) || leq(b, a))
    && (forall a, b :: leq(a, b) && leq(b, a) ==> a == b)
    && (forall a, b, c :: leq(a, b) && leq(b, c) ==> leq(a, c))
  }

  ghost predicate SortedBy<T>(s: seq<T>, leq: (T, T) -> bool) {
    forall i, j :: 0 <= i < j < |s| ==> leq(s[i], s[j])
  }

  function Insert<T>(x: T, s: seq<T>, leq: (T, T) -> bool): seq<T> {
    if s == [] then [x]
    else if leq(x, s[0]) then [x] + s
    else [s[0]] + Insert(x, s[1..], leq)
  }

  function Sort<T>(s: seq<T>, leq: (T, T) -> bool): seq<T> {
    if s == [] then [] else Insert(s[0], Sort(s[1..], leq), leq)
  }

  lemma {:induction false} InsertKeepsElements<T>(x: T, s: seq<T>, leq: (T, T) -> bool)
    ensures multiset(Insert(x, s, leq)) == multiset(s) + multiset{x}
  {
    if s != [] && !leq(x, s[0]) {
      InsertKeepsElements(x, s[1..], leq);
      assert s == [s[0]] + s[1..];
    }
  }

  lemma {:induction false} InsertKeepsOrder<T(!new)>(x: T, s: seq<T>, leq: (T, T) -> bool)
    requires TotalOrder(leq) && SortedBy(s, leq)
    ensures SortedBy(Insert(x, s, leq), leq)
  {
    if s != [] && !leq(x, s[0]) {
      var r := Insert(x, s[1..], leq);
      InsertKeepsOrder(x, s[1..], leq);
      InsertKeepsElements(x, s[1..], leq);
      forall i | 0 <= i < |r| ensures leq(s[0], r[i]) {
        assert r[i] in multiset(r);
        assert r[i] in s[1..] || r[i] == x;
      }
    }
  }

  lemma {:induction false} SortCorrect<T(!new)>(s: seq<T>, leq: (T, T) -> bool)
    requires TotalOrder(leq)
    ensures SortedBy(Sort(s, leq), leq) && multiset(Sort(s, leq)) == multiset(s)
  {
    if s != [] {
      SortCorrect(s[1..], leq);
      InsertKeepsElements(s[0], Sort(s[1..], leq), leq);
      InsertKeepsOrder(s[0], Sort(s[1..], leq), leq);
      assert s == [s[0]] + s[1..];
    }
  }

  lemma SameFirst<T(!new)>(a: seq<T>, b: seq<T>, leq: (T, T) -> bool)
    requires SortedBy(a, leq) && SortedBy(b, leq) && multiset(a) == multiset(b) && a != [] && b != []
    requires forall x, y :: x in a && y in a && leq(x, y) && leq(y, x) ==> x == y
    ensures a[0] == b[0]
  {
    assert a[0] in multiset(b) && b[0] in multiset(a);
    var i :| 0 <= i < |a| && a[i] == b[0];
    var j :| 0 <= j < |b| && b[j] == a[0];
  }

  lemma SameRest<T>(a: seq<T>, b: seq<T>)
    requires multiset(a) == multiset(b) && a != [] && b != [] && a[0] == b[0]
    ensures multiset(a[1..]) == multiset(b[1..]) && (a[1..] == b[1..] ==> a == b)
    ensures forall x :: x in a[1..] ==> x in a
  {
    assert a == [a[0]] + a[1..] && b == [b[0]] + b[1..];
    assert multiset(a[1..]) == multiset(a) - multiset{a[0]};
    assert multiset(b[1..]) == multiset(b) - multiset{b[0]};
  }

  lemma {:induction false} SortedFormUnique<T(!new)>(a: seq<T>, b: seq<T>, leq: (T, T) -> bool)
    requires SortedBy(a, leq) && SortedBy(b, leq) && multiset(a) == multiset(b)
    requires forall x, y :: x in a && y in a && leq(x, y) && leq(y, x) ==> x == y
    ensures a == b
  {
    assert |multiset(a)| == |a| && |multiset(b)| == |b|;
    if a != [] {
      SameFirst(a, b, leq);
      SameRest(a, b);
      SortedFormUnique(a[1..], b[1..], leq);
    }
  }

  lemma SortCanonical<T(!new)>(a: seq<T>, b: seq<T>, leq: (T, T) -> bool)
    requires TotalOrder(leq)
    ensures Sort(a, leq) == Sort(b, leq) <==> multiset(a) == multiset(b)
  {
    SortCorrect(a, leq);
    SortCorrect(b, leq);
    if multiset(a) == multiset(b) {
      SortedFormUnique(Sort(a, leq), Sort(b, leq), leq);
    }
  }

  // Strings in byte order, which for UTF-8 is the order of their characters.
  predicate StringLeq(a: string, b: string) {
    a == "" || (b != "" && (a[0] < b[0] || (a[0] == b[0] && StringLeq(a[1..], b[1..]))))
  }

  lemma {:induction false} StringLeqTotal(a: string, b: string)
    ensures StringLeq(a, b) || StringLeq(b, a)
    ensures StringLeq(a, b) && StringLeq(b, a) ==> a == b
  {
    if a != "" && b != "" && a[0] == b[0] {
      StringLeqTotal(a[1..], b[1..]);
      assert a == [a[0]] + a[1..] && b == [b[0]] + b[1..];
    }
  }

  lemma {:induction false} StringLeqTransitive(a: string, b: string, c: string)
    requires StringLeq(a, b) && StringLeq(b, c)
    ensures StringLeq(a, c)
  {
    if a != "" && a[0] == b[0] && b[0] == c[0] {
      StringLeqTransitive(a[1..], b[1..], c[1..]);
    }
  }

  lemma StringOrder()
    ensures TotalOrder(StringLeq)
  {
    forall a, b ensures (StringLeq(a, b) || StringLeq(b, a)) && (StringLeq(a, b) && StringLeq(b, a) ==> a == b) {
      StringLeqTotal(a, b);
    }
    forall a, b, c | StringLeq(a, b) && StringLeq(b, c) ensures StringLeq(a, c) {
      StringLeqTransitive(a, b, c);
    }
  }
}
