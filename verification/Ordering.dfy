/** Orders as predicates, the stable sort they induce, and the facts about sorting
    that the policies rely on: it permutes, it is stable, and on a tie-free sequence
    its result depends on the contents alone. */
module Ordering {

  ghost predicate Total<T(!new)>(le: (T, T) -> bool) {
    forall a, b :: le(a, b) || le(b, a)
  }

  ghost predicate Transitive<T(!new)>(le: (T, T) -> bool) {
    forall a, b, c :: le(a, b) && le(b, c) ==> le(a, c)
  }

  ghost predicate Antisymmetric<T(!new)>(le: (T, T) -> bool) {
    forall a, b :: le(a, b) && le(b, a) ==> a == b
  }

  ghost predicate Preorder<T(!new)>(le: (T, T) -> bool) {
    Total(le) && Transitive(le)
  }

  ghost predicate Sorted<T>(s: seq<T>, le: (T, T) -> bool) {
    forall i, j :: 0 <= i < j < |s| ==> le(s[i], s[j])
  }

  /** No two positions hold equivalent elements, so the order of `s` is forced. */
  ghost predicate TieFree<T>(s: seq<T>, le: (T, T) -> bool) {
    forall i, j :: 0 <= i < j < |s| ==> !(le(s[i], s[j]) && le(s[j], s[i]))
  }

  // ----- Stable insertion sort

  /** Puts `x` in front of the first element it does not exceed. */
  function Insert<T>(x: T, s: seq<T>, le: (T, T) -> bool): (r: seq<T>)
    ensures multiset(r) == multiset(s) + multiset{x}
    ensures |r| == |s| + 1
  {
    if s == [] then [x]
    else if le(x, s[0]) then [x] + s
    else
      assert s == [s[0]] + s[1..];
      [s[0]] + Insert(x, s[1..], le)
  }

  function StableSort<T>(s: seq<T>, le: (T, T) -> bool): (r: seq<T>)
    ensures multiset(r) == multiset(s)
    ensures |r| == |s|
  {
    if s == [] then []
    else
      assert s == [s[0]] + s[1..];
      Insert(s[0], StableSort(s[1..], le), le)
  }

  lemma SameElements<T>(s: seq<T>, r: seq<T>)
    requires multiset(s) == multiset(r)
    ensures forall x :: x in s <==> x in r
  {
    forall x
      ensures x in s <==> x in r
    {
      assert x in s <==> x in multiset(s);
      assert x in r <==> x in multiset(r);
    }
  }

  lemma {:induction false} InsertElements<T(!new)>(x: T, s: seq<T>, le: (T, T) -> bool)
    ensures forall y :: y in Insert(x, s, le) <==> y == x || y in s
  {
    SameElements(Insert(x, s, le), s + [x]);
  }

  lemma {:induction false} InsertSorted<T(!new)>(x: T, s: seq<T>, le: (T, T) -> bool)
    requires Preorder(le)
    requires Sorted(s, le)
    ensures Sorted(Insert(x, s, le), le)
  {
    if s == [] {
    } else if le(x, s[0]) {
      forall j | 0 <= j < |s|
        ensures le(x, s[j])
      {
        assert j == 0 || le(s[0], s[j]);
      }
    } else {
      var t := Insert(x, s[1..], le);
      InsertSorted(x, s[1..], le);
      InsertElements(x, s[1..], le);
      forall j | 0 <= j < |t|
        ensures le(s[0], t[j])
      {
        assert t[j] in t;
        if t[j] != x {
          var k :| 0 <= k < |s[1..]| && s[1..][k] == t[j];
          assert s[1..][k] == s[k + 1];
        }
      }
      PrependSorted(s[0], t, le);
    }
  }

  lemma PrependSorted<T(!new)>(x: T, s: seq<T>, le: (T, T) -> bool)
    requires Sorted(s, le)
    requires forall j :: 0 <= j < |s| ==> le(x, s[j])
    ensures Sorted([x] + s, le)
  {
  }

  lemma {:induction false} SortSorts<T(!new)>(s: seq<T>, le: (T, T) -> bool)
    requires Preorder(le)
    ensures Sorted(StableSort(s, le), le)
  {
    if s != [] {
      SortSorts(s[1..], le);
      InsertSorted(s[0], StableSort(s[1..], le), le);
    }
  }

  /** A sorted sequence is left exactly as it is: ties are not reordered. */
  lemma {:induction false} SortKeepsSorted<T>(s: seq<T>, le: (T, T) -> bool)
    requires Sorted(s, le)
    ensures StableSort(s, le) == s
  {
    if s != [] {
      SortKeepsSorted(s[1..], le);
      assert s == [s[0]] + s[1..];
    }
  }

  /** Equivalent elements are equal, so the order of a sorted arrangement is forced. */
  ghost predicate TiesEqual<T>(s: seq<T>, le: (T, T) -> bool) {
    forall i, j :: 0 <= i < |s| && 0 <= j < |s| && le(s[i], s[j]) && le(s[j], s[i]) ==> s[i] == s[j]
  }

  lemma {:induction false} SortedUnique<T(!new)>(s: seq<T>, r: seq<T>, le: (T, T) -> bool)
    requires Sorted(s, le) && Sorted(r, le)
    requires TiesEqual(s, le)
    requires multiset(s) == multiset(r)
    ensures s == r
  {
    hide Sorted;
    hide TiesEqual;
    SameLength(s, r);
    if s != [] {
      SortedHeadUnique(s, r, le);
      TailMultiset(s);
      TailMultiset(r);
      SortedTail(s, le);
      SortedTail(r, le);
      TiesEqualTail(s, le);
      SortedUnique(s[1..], r[1..], le);
      SameParts(s, r);
    }
  }

  lemma SameLength<T>(s: seq<T>, r: seq<T>)
    requires multiset(s) == multiset(r)
    ensures |s| == |r|
  {
    assert |multiset(s)| == |s| && |multiset(r)| == |r|;
  }

  lemma SameParts<T>(s: seq<T>, r: seq<T>)
    requires s != [] && r != [] && s[0] == r[0] && s[1..] == r[1..]
    ensures s == r
  {
    assert s == [s[0]] + s[1..] && r == [r[0]] + r[1..];
  }

  lemma SortedTail<T>(s: seq<T>, le: (T, T) -> bool)
    requires s != [] && Sorted(s, le)
    ensures Sorted(s[1..], le)
  {
  }

  lemma TiesEqualTail<T>(s: seq<T>, le: (T, T) -> bool)
    requires s != [] && TiesEqual(s, le)
    ensures TiesEqual(s[1..], le)
  {
  }

  lemma TailMultiset<T>(s: seq<T>)
    requires s != []
    ensures multiset(s[1..]) == multiset(s) - multiset{s[0]}
  {
    assert s == [s[0]] + s[1..];
  }

  lemma SortedHeadUnique<T(!new)>(s: seq<T>, r: seq<T>, le: (T, T) -> bool)
    requires Sorted(s, le) && Sorted(r, le)
    requires TiesEqual(s, le)
    requires multiset(s) == multiset(r)
    requires s != [] && r != []
    ensures s[0] == r[0]
  {
    SameElements(s, r);
    assert s[0] in r && r[0] in s;
    var i :| 0 <= i < |s| && s[i] == r[0];
    var j :| 0 <= j < |r| && r[j] == s[0];
    if i != 0 {
      assert le(s[0], s[i]);
      if j != 0 {
        assert le(r[0], r[j]);
      }
    }
  }

  lemma AntisymmetricTies<T(!new)>(s: seq<T>, le: (T, T) -> bool)
    requires Antisymmetric(le)
    ensures TiesEqual(s, le)
  {
  }

  /** Sorting a permutation gives the same sequence when ties are equal. */
  lemma {:induction false} SortPermutation<T(!new)>(s: seq<T>, r: seq<T>, le: (T, T) -> bool)
    requires Preorder(le) && TiesEqual(s, le)
    requires multiset(s) == multiset(r)
    ensures StableSort(s, le) == StableSort(r, le)
  {
    SortSorts(s, le);
    SortSorts(r, le);
    var t := StableSort(s, le);
    SameElements(s, t);
    forall i, j | 0 <= i < |t| && 0 <= j < |t| && le(t[i], t[j]) && le(t[j], t[i])
      ensures t[i] == t[j]
    {
      assert t[i] in s && t[j] in s;
    }
    SortedUnique(t, StableSort(r, le), le);
  }

  // ----- Filtering

  function Filter<T(!new)>(s: seq<T>, keep: T -> bool): (r: seq<T>)
    ensures |r| <= |s|
    ensures forall x :: x in r <==> x in s && keep(x)
  {
    if s == [] then []
    else if keep(s[0]) then [s[0]] + Filter(s[1..], keep)
    else Filter(s[1..], keep)
  }

  lemma {:induction false} FilterConcat<T(!new)>(s: seq<T>, t: seq<T>, keep: T -> bool)
    ensures Filter(s + t, keep) == Filter(s, keep) + Filter(t, keep)
  {
    if s == [] {
      assert s + t == t;
    } else {
      assert (s + t)[1..] == s[1..] + t;
      FilterConcat(s[1..], t, keep);
    }
  }

  lemma {:induction false} FilterInsert<T(!new)>(x: T, s: seq<T>, le: (T, T) -> bool, keep: T -> bool)
    requires Preorder(le)
    requires Sorted(s, le)
    ensures Filter(Insert(x, s, le), keep) ==
            if keep(x) then Insert(x, Filter(s, keep), le) else Filter(s, keep)
  {
    if s == [] {
      assert [x][1..] == [];
    } else if le(x, s[0]) {
      assert ([x] + s)[1..] == s;
      var f := Filter(s, keep);
      if f != [] {
        assert f[0] in s;
        var k :| 0 <= k < |s| && s[k] == f[0];
        assert k == 0 || le(s[0], s[k]);
        assert le(x, f[0]);
      }
    } else {
      FilterInsert(x, s[1..], le, keep);
      assert ([s[0]] + Insert(x, s[1..], le))[1..] == Insert(x, s[1..], le);
      if keep(s[0]) {
        assert Filter(s, keep) == [s[0]] + Filter(s[1..], keep);
        assert Filter(s, keep)[1..] == Filter(s[1..], keep);
      }
    }
  }

  lemma {:induction false} FilterAll<T(!new)>(s: seq<T>, keep: T -> bool)
    requires forall x :: x in s ==> keep(x)
    ensures Filter(s, keep) == s
  {
    if s != [] {
      FilterAll(s[1..], keep);
    }
  }

  lemma {:induction false} FilterNone<T(!new)>(s: seq<T>, keep: T -> bool)
    requires forall x :: x in s ==> !keep(x)
    ensures Filter(s, keep) == []
  {
    if s != [] {
      FilterNone(s[1..], keep);
    }
  }

  /** Stability: dropping elements before or after the sort is the same. */
  lemma {:induction false} FilterSort<T(!new)>(s: seq<T>, le: (T, T) -> bool, keep: T -> bool)
    requires Preorder(le)
    ensures Filter(StableSort(s, le), keep) == StableSort(Filter(s, keep), le)
  {
    if s != [] {
      FilterSort(s[1..], le, keep);
      SortSorts(s[1..], le);
      FilterInsert(s[0], StableSort(s[1..], le), le, keep);
      if keep(s[0]) {
        assert ([s[0]] + Filter(s[1..], keep))[1..] == Filter(s[1..], keep);
      }
    }
  }

  // ----- Lexicographic order, as on strings and on sorted sets

  predicate LexLe<T(==)>(a: seq<T>, b: seq<T>, le: (T, T) -> bool) {
    if a == [] then true
    else if b == [] then false
    else if a[0] == b[0] then LexLe(a[1..], b[1..], le)
    else le(a[0], b[0])
  }

  lemma {:induction false} LexTotal<T(!new)>(a: seq<T>, b: seq<T>, le: (T, T) -> bool)
    requires Total(le)
    ensures LexLe(a, b, le) || LexLe(b, a, le)
  {
    if a != [] && b != [] && a[0] == b[0] {
      LexTotal(a[1..], b[1..], le);
    }
  }

  lemma {:induction false} LexAntisymmetric<T(!new)>(a: seq<T>, b: seq<T>, le: (T, T) -> bool)
    requires Antisymmetric(le)
    requires LexLe(a, b, le) && LexLe(b, a, le)
    ensures a == b
  {
    if a != [] && b != [] {
      assert a[0] == b[0];
      LexAntisymmetric(a[1..], b[1..], le);
      assert a == [a[0]] + a[1..] && b == [b[0]] + b[1..];
    }
  }

  lemma {:induction false} LexTransitive<T(!new)>(a: seq<T>, b: seq<T>, c: seq<T>, le: (T, T) -> bool)
    requires Transitive(le) && Antisymmetric(le)
    requires LexLe(a, b, le) && LexLe(b, c, le)
    ensures LexLe(a, c, le)
  {
    if a != [] && a[0] == b[0] == c[0] {
      LexTransitive(a[1..], b[1..], c[1..], le);
    } else if a != [] && a[0] != b[0] && b[0] != c[0] {
      assert le(a[0], c[0]);
    }
  }

  predicate CharLe(a: char, b: char) {
    a <= b
  }

  /** Rust's order on `str`. */
  predicate StrLe(a: string, b: string) {
    LexLe(a, b, CharLe)
  }

  lemma StrOrder()
    ensures Preorder(StrLe) && Antisymmetric(StrLe)
  {
    assert Total(CharLe) && Transitive(CharLe) && Antisymmetric(CharLe);
    forall a: string, b: string
      ensures StrLe(a, b) || StrLe(b, a)
    {
      LexTotal(a, b, CharLe);
    }
    forall a: string, b: string | StrLe(a, b) && StrLe(b, a)
      ensures a == b
    {
      LexAntisymmetric(a, b, CharLe);
    }
    forall a: string, b: string, c: string | StrLe(a, b) && StrLe(b, c)
      ensures StrLe(a, c)
    {
      LexTransitive(a, b, c, CharLe);
    }
  }

  /** One text is a prefix of the other, or has the smaller character where they first differ. */
  ghost predicate Alphabetical(a: string, b: string) {
    exists n: nat :: AgreeUpTo(a, b, n) && (n == |a| || (n < |b| && a[n] < b[n]))
  }

  ghost predicate AgreeUpTo(a: string, b: string, n: nat) {
    n <= |a| && n <= |b| && forall i :: 0 <= i < n ==> a[i] == b[i]
  }

  lemma {:induction false} StrLeIff(a: string, b: string)
    ensures StrLe(a, b) <==> Alphabetical(a, b)
  {
    if a == [] || b == [] {
      assert AgreeUpTo(a, b, 0);
    } else if a[0] != b[0] {
      assert AgreeUpTo(a, b, 0);
      assert forall n: nat :: AgreeUpTo(a, b, n) ==> n == 0;
    } else {
      StrLeIff(a[1..], b[1..]);
      if Alphabetical(a[1..], b[1..]) {
        var n: nat :| AgreeUpTo(a[1..], b[1..], n) && (n == |a[1..]| || (n < |b[1..]| && a[1..][n] < b[1..][n]));
        assert forall i :: 0 < i < n + 1 ==> a[i] == a[1..][i - 1] && b[i] == b[1..][i - 1];
        assert AgreeUpTo(a, b, n + 1);
      }
      if Alphabetical(a, b) {
        var n: nat :| AgreeUpTo(a, b, n) && (n == |a| || (n < |b| && a[n] < b[n]));
        assert n > 0;
        assert AgreeUpTo(a[1..], b[1..], n - 1);
      }
    }
  }

  // ----- Orders by several fields in turn

  lemma TextOrder<T(!new)>(text: T -> string, le: (T, T) -> bool)
    requires forall a, b :: le(a, b) <==> StrLe(text(a), text(b))
    ensures Preorder(le)
  {
    StrOrder();
    hide StrLe;
    assert forall a, b :: StrLe(text(a), text(b)) || StrLe(text(b), text(a));
    forall a, b, c | le(a, b) && le(b, c)
      ensures le(a, c)
    {
      assert StrLe(text(a), text(b)) && StrLe(text(b), text(c));
    }
  }

  /** Comparing by a number first, and by `tie` where the numbers agree. */
  lemma NumberThen<T(!new)>(number: T -> int, tie: (T, T) -> bool, le: (T, T) -> bool)
    requires forall a, b :: le(a, b) <==> if number(a) != number(b) then number(a) < number(b) else tie(a, b)
    requires Preorder(tie)
    ensures Preorder(le)
  {
    assert forall a, b :: tie(a, b) || tie(b, a);
  }

  // ----- Rust's `BTreeSet<String>`: iterated in increasing order, compared as that iteration

  lemma {:induction false} LeastExists<T(!new)>(s: set<T>, le: (T, T) -> bool) returns (m: T)
    requires Preorder(le)
    requires s != {}
    ensures m in s && forall x :: x in s ==> le(m, x)
  {
    var y :| y in s;
    var rest := s - {y};
    assert le(y, y);
    if rest == {} {
      assert s == {y};
      m := y;
    } else {
      var z := LeastExists(rest, le);
      m := if le(z, y) then z else y;
      forall x | x in s
        ensures le(m, x)
      {
        assert x == y || le(z, x);
      }
    }
  }

  lemma LeastString(s: set<string>)
    requires s != {}
    ensures exists m :: m in s && forall x :: x in s ==> StrLe(m, x)
  {
    StrOrder();
    var m := LeastExists(s, StrLe);
  }

  function Iterate(s: set<string>): (r: seq<string>)
    ensures forall x :: x in r <==> x in s
    ensures |r| == |s|
  {
    if s == {} then []
    else
      StrOrder();
      LeastString(s);
      var m :| m in s && forall x :: x in s ==> StrLe(m, x);
      [m] + Iterate(s - {m})
  }

  predicate SetLe(a: set<string>, b: set<string>) {
    LexLe(Iterate(a), Iterate(b), StrLe)
  }

  lemma SetOrder()
    ensures Preorder(SetLe) && Antisymmetric(SetLe)
  {
    StrOrder();
    forall a: set<string>, b: set<string>
      ensures SetLe(a, b) || SetLe(b, a)
    {
      LexTotal(Iterate(a), Iterate(b), StrLe);
    }
    forall a: set<string>, b: set<string> | SetLe(a, b) && SetLe(b, a)
      ensures a == b
    {
      LexAntisymmetric(Iterate(a), Iterate(b), StrLe);
      assert forall x :: x in a <==> x in Iterate(a);
      assert forall x :: x in b <==> x in Iterate(b);
    }
    forall a: set<string>, b: set<string>, c: set<string> | SetLe(a, b) && SetLe(b, c)
      ensures SetLe(a, c)
    {
      LexTransitive(Iterate(a), Iterate(b), Iterate(c), StrLe);
    }
  }
}
