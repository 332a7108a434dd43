/**
 Sorting by a strict comparison, as Go's sort package takes it.  `Sort` is stable; where the
 program uses an unstable sort, `SortedUnique` shows that no other result was possible.
 */
module Sorting {

  /** `less` is a strict weak order: asymmetric, and "not less" is transitive. */
  ghost predicate StrictWeakOrder<T(!new)>(less: (T, T) -> bool) {
    && (forall a, b :: less(a, b) ==> !less(b, a))
    && (forall a, b, c :: !less(b, a) && !less(c, b) ==> !less(c, a))
  }

  /** No element is less than an earlier one. */
  ghost predicate Sorted<T>(less: (T, T) -> bool, s: seq<T>) {
    forall i, j :: 0 <= i < j < |s| ==> !less(s[j], s[i])
  }

  predicate Tied<T>(less: (T, T) -> bool, a: T, b: T) {
    !less(a, b) && !less(b, a)
  }

  /** Within `s`, elements the comparison cannot tell apart are equal. */
  ghost predicate TiesAreEqual<T>(less: (T, T) -> bool, s: seq<T>) {
    forall a, b :: a in s && b in s && Tied(less, a, b) ==> a == b
  }

  function Insert<T>(less: (T, T) -> bool, x: T, s: seq<T>): seq<T> {
    if s == [] || !less(s[0], x) then [x] + s else [s[0]] + Insert(less, x, s[1..])
  }

  function Sort<T>(less: (T, T) -> bool, s: seq<T>): seq<T> {
    if s == [] then [] else Insert(less, s[0], Sort(less, s[1..]))
  }

  lemma {:induction false} InsertAdds<T>(less: (T, T) -> bool, x: T, s: seq<T>)
    ensures multiset(Insert(less, x, s)) == multiset(s) + multiset{x}
    ensures forall y :: y in Insert(less, x, s) ==> y == x || y in s
  {
    if s != [] && less(s[0], x) {
      InsertAdds(less, x, s[1..]);
      assert s == [s[0]] + s[1..];
    }
  }

  lemma {:induction false} InsertSorts<T(!new)>(less: (T, T) -> bool, x: T, s: seq<T>)
    requires StrictWeakOrder(less) && Sorted(less, s)
    ensures Sorted(less, Insert(less, x, s))
  {
    if s != [] && less(s[0], x) {
      TailSorted(less, s);
      InsertSorts(less, x, s[1..]);
      InsertAdds(less, x, s[1..]);
      var t := Insert(less, x, s[1..]);
      forall j | 0 <= j < |t| ensures !less(t[j], s[0]) {
        assert t[j] == x || t[j] in s[1..];
      }
    }
  }

  lemma {:induction false} SortSorts<T(!new)>(less: (T, T) -> bool, s: seq<T>)
    requires StrictWeakOrder(less)
    ensures Sorted(less, Sort(less, s))
    ensures multiset(Sort(less, s)) == multiset(s)
    ensures |Sort(less, s)| == |s|
  {
    if s != [] {
      SortSorts(less, s[1..]);
      InsertSorts(less, s[0], Sort(less, s[1..]));
      InsertAdds(less, s[0], Sort(less, s[1..]));
      assert s == [s[0]] + s[1..];
    }
    assert |multiset(Sort(less, s))| == |multiset(s)|;
  }

  lemma MultisetMembers<T>(s: seq<T>, t: seq<T>)
    requires multiset(s) == multiset(t)
    ensures |s| == |t|
    ensures forall x :: x in s <==> x in t
  {
    assert |s| == |multiset(s)| == |multiset(t)| == |t|;
    forall x ensures x in s <==> x in t {
      assert x in s <==> x in multiset(s);
      assert x in t <==> x in multiset(t);
    }
  }

  lemma SortedSameHead<T(!new)>(less: (T, T) -> bool, s: seq<T>, t: seq<T>)
    requires StrictWeakOrder(less) && Sorted(less, s) && Sorted(less, t)
    requires multiset(s) == multiset(t) && TiesAreEqual(less, s) && s != []
    ensures t != [] && s[0] == t[0]
  {
    MultisetMembers(s, t);
    var x, y := s[0], t[0];
    assert x in t && y in s;
    assert !less(y, x) by { var i :| 0 <= i < |s| && s[i] == y; }
    assert !less(x, y) by { var j :| 0 <= j < |t| && t[j] == x; }
    assert Tied(less, x, y);
  }

  lemma TailMultiset<T>(s: seq<T>)
    requires s != []
    ensures multiset(s[1..]) == multiset(s) - multiset{s[0]}
    ensures forall x :: x in s[1..] ==> x in s
  {
    assert s == [s[0]] + s[1..];
  }

  lemma TailSorted<T>(less: (T, T) -> bool, s: seq<T>)
    requires s != [] && Sorted(less, s)
    ensures Sorted(less, s[1..])
  {
  }

  lemma TailTies<T>(less: (T, T) -> bool, s: seq<T>)
    requires s != [] && TiesAreEqual(less, s)
    ensures TiesAreEqual(less, s[1..])
  {
  }

  /** Two sorted lists with the same elements are the same list when ties are equal. */
  lemma {:induction false} SortedUnique<T(!new)>(less: (T, T) -> bool, s: seq<T>, t: seq<T>)
    requires StrictWeakOrder(less) && Sorted(less, s) && Sorted(less, t)
    requires multiset(s) == multiset(t) && TiesAreEqual(less, s)
    ensures s == t
    decreases |s|
  {
    MultisetMembers(s, t);
    if s != [] {
      SortedSameHead(less, s, t);
      TailMultiset(s);
      TailMultiset(t);
      TailSorted(less, s);
      TailSorted(less, t);
      TailTies(less, s);
      SortedUnique(less, s[1..], t[1..]);
      assert s == [s[0]] + s[1..] && t == [t[0]] + t[1..];
    }
  }

  /** Sorting forgets the order of its input when ties are equal. */
  lemma SortOrderIndependent<T(!new)>(less: (T, T) -> bool, s: seq<T>, t: seq<T>)
    requires StrictWeakOrder(less) && multiset(s) == multiset(t) && TiesAreEqual(less, s)
    ensures Sort(less, s) == Sort(less, t)
  {
    SortSorts(less, s);
    SortSorts(less, t);
    MultisetMembers(s, Sort(less, s));
    SortedUnique(less, Sort(less, s), Sort(less, t));
  }

  /** The elements of `s` tied with `k`, in order. */
  function TiedWith<T>(less: (T, T) -> bool, k: T, s: seq<T>): seq<T> {
    if s == [] then []
    else (if Tied(less, s[0], k) then [s[0]] else []) + TiedWith(less, k, s[1..])
  }

  lemma {:induction false} InsertStable<T(!new)>(less: (T, T) -> bool, k: T, x: T, s: seq<T>)
    requires StrictWeakOrder(less)
    ensures TiedWith(less, k, Insert(less, x, s)) == TiedWith(less, k, [x] + s)
  {
    assert ([x] + s)[1..] == s;
    if s != [] && less(s[0], x) {
      InsertStable(less, k, x, s[1..]);
      assert ([x] + s[1..])[1..] == s[1..];
      assert Insert(less, x, s)[1..] == Insert(less, x, s[1..]);
    }
  }

  /** Stability: tied elements keep the order they came in. */
  lemma {:induction false} SortStable<T(!new)>(less: (T, T) -> bool, k: T, s: seq<T>)
    requires StrictWeakOrder(less)
    ensures TiedWith(less, k, Sort(less, s)) == TiedWith(less, k, s)
  {
    if s != [] {
      SortStable(less, k, s[1..]);
      InsertStable(less, k, s[0], Sort(less, s[1..]));
      assert ([s[0]] + Sort(less, s[1..]))[1..] == Sort(less, s[1..]);
    }
  }

  // ----- the byte order on strings, as sort.Strings uses it

  predicate StringLess(a: string, b: string) {
    b != [] && (a == [] || a[0] < b[0] || (a[0] == b[0] && StringLess(a[1..], b[1..])))
  }

  /** `a` is a proper prefix of `b`, or the first character in which they differ is smaller in `a`. */
  ghost predicate ByteBefore(a: string, b: string) {
    exists i :: FirstDifference(a, b, i)
  }

  ghost predicate FirstDifference(a: string, b: string, i: nat) {
    && i <= |a| && i < |b| && (forall j :: 0 <= j < i ==> a[j] == b[j])
    && (i == |a| || a[i] < b[i])
  }

  lemma {:induction false} StringLessIsByteBefore(a: string, b: string)
    ensures StringLess(a, b) <==> ByteBefore(a, b)
  {
    if a != [] && b != [] && a[0] == b[0] {
      StringLessIsByteBefore(a[1..], b[1..]);
      TailDifference(a, b);
    } else if StringLess(a, b) {
      assert FirstDifference(a, b, 0);
    }
  }

  lemma TailDifference(a: string, b: string)
    requires a != [] && b != [] && a[0] == b[0]
    ensures ByteBefore(a, b) <==> ByteBefore(a[1..], b[1..])
  {
    forall i: nat | FirstDifference(a[1..], b[1..], i) ensures FirstDifference(a, b, i + 1) {
      forall j | 0 <= j < i + 1 ensures a[j] == b[j] {
        if j > 0 { assert a[1..][j - 1] == b[1..][j - 1]; }
      }
    }
    forall i: nat | FirstDifference(a, b, i) ensures i > 0 && FirstDifference(a[1..], b[1..], i - 1) {
    }
  }

  lemma {:induction false} StringLessAsymmetric(a: string, b: string)
    ensures StringLess(a, b) ==> !StringLess(b, a)
    ensures Tied(StringLess, a, b) ==> a == b
  {
    if a != [] && b != [] {
      StringLessAsymmetric(a[1..], b[1..]);
      assert a == [a[0]] + a[1..] && b == [b[0]] + b[1..];
    }
  }

  lemma {:induction false} StringNotLessTransitive(a: string, b: string, c: string)
    ensures !StringLess(b, a) && !StringLess(c, b) ==> !StringLess(c, a)
  {
    if a != [] && b != [] && c != [] {
      StringNotLessTransitive(a[1..], b[1..], c[1..]);
    }
  }

  lemma StringOrder()
    ensures StrictWeakOrder(StringLess)
    ensures forall a, b :: Tied(StringLess, a, b) ==> a == b
  {
    forall a, b ensures (StringLess(a, b) ==> !StringLess(b, a)) && (Tied(StringLess, a, b) ==> a == b) {
      StringLessAsymmetric(a, b);
    }
    forall a, b, c ensures !StringLess(b, a) && !StringLess(c, b) ==> !StringLess(c, a) {
      StringNotLessTransitive(a, b, c);
    }
  }

  /** The strings of a set in some order. */
  ghost function Listed(s: set<string>): (l: seq<string>)
    ensures multiset(l) == multiset(s)
  {
    if s == {} then []
    else
      var x :| x in s;
      assert multiset(s) == multiset(s - {x}) + multiset{x};
      [x] + Listed(s - {x})
  }

  /** The strings of a set in byte order. */
  ghost function SortedKeys(s: set<string>): seq<string> {
    Sort(StringLess, Listed(s))
  }

  lemma Counted<T>(l: seq<T>, i: nat, j: nat)
    requires i < j < |l| && l[i] == l[j]
    ensures multiset(l)[l[i]] >= 2
  {
    assert l == l[..i] + [l[i]] + l[i + 1..j] + [l[j]] + l[j + 1..];
  }

  lemma SortedSetIncreases(s: set<string>, l: seq<string>)
    requires multiset(l) == multiset(s) && Sorted(StringLess, l)
    ensures forall i, j :: 0 <= i < j < |l| ==> StringLess(l[i], l[j])
  {
    forall i, j | 0 <= i < j < |l| ensures StringLess(l[i], l[j]) {
      if l[i] == l[j] { Counted(l, i, j); }
      StringLessAsymmetric(l[i], l[j]);
    }
  }

  /** Any listing of a set without repetition sorts to the same keys: strictly increasing, and all of them. */
  lemma SortedKeysOf(s: set<string>, l: seq<string>)
    requires multiset(l) == multiset(s)
    ensures Sort(StringLess, l) == SortedKeys(s)
    ensures multiset(SortedKeys(s)) == multiset(s)
    ensures forall i, j :: 0 <= i < j < |SortedKeys(s)| ==> StringLess(SortedKeys(s)[i], SortedKeys(s)[j])
    ensures forall k :: k in SortedKeys(s) <==> k in s
  {
    StringOrder();
    assert TiesAreEqual(StringLess, l) by {
      forall a, b | Tied(StringLess, a, b) ensures a == b { StringLessAsymmetric(a, b); }
    }
    SortOrderIndependent(StringLess, l, Listed(s));
    SortSorts(StringLess, Listed(s));
    SortedSetIncreases(s, SortedKeys(s));
    forall k ensures k in SortedKeys(s) <==> k in s {
      assert k in SortedKeys(s) <==> k in multiset(SortedKeys(s));
    }
  }

  /** Walking a map's keys, in whatever order the runtime picks. */
  method CollectKeys(s: set<string>) returns (keys: seq<string>)
    ensures multiset(keys) == multiset(s)
  {
    var todo := s;
    keys := [];
    while todo != {}
      invariant todo <= s && multiset(keys) == multiset(s - todo)
      decreases todo
    {
      var k :| k in todo;
      assert s - (todo - {k}) == (s - todo) + {k};
      keys := keys + [k];
      todo := todo - {k};
    }
    assert s - todo == s;
  }
}
