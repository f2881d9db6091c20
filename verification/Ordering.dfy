/** Sorting by unique keys: the result depends on the elements alone, not on their order. */
module Ordering {
  import opened Utf16

  function Mapped<T, U>(xs: seq<T>, f: T -> U): (ys: seq<U>)
    ensures |ys| == |xs| && forall i :: 0 <= i < |xs| ==> ys[i] == f(xs[i])
  {
    if xs == [] then [] else [f(xs[0])] + Mapped(xs[1..], f)
  }

  ghost predicate NoRepeats<T>(xs: seq<T>)
  {
    forall i, j :: 0 <= i < j < |xs| ==> xs[i] != xs[j]
  }

  ghost predicate Permutation<T>(xs: seq<T>, ys: seq<T>) { multiset(xs) == multiset(ys) }

  lemma PermutationMembers<T>(xs: seq<T>, ys: seq<T>)
    requires Permutation(xs, ys)
    ensures |xs| == |ys| && forall x :: x in xs <==> x in ys
  {
    assert |multiset(xs)| == |xs| && |multiset(ys)| == |ys|;
    forall x ensures x in xs <==> x in ys { assert x in multiset(xs) <==> x in multiset(ys); }
  }

  lemma RemoveOne<T>(xs: seq<T>, ys: seq<T>) returns (j: nat)
    requires xs != [] && Permutation(xs, ys)
    ensures j < |ys| && ys[j] == xs[0] && Permutation(xs[1..], ys[..j] + ys[j + 1..])
  {
    PermutationMembers(xs, ys);
    assert xs[0] in ys;
    j :| 0 <= j < |ys| && ys[j] == xs[0];
    assert xs == [xs[0]] + xs[1..];
    SplitAt(ys, j);
    SplitAt(xs, 0);
    assert xs[..0] + xs[1..] == xs[1..];
    CancelOne(xs[0], multiset(xs[1..]), multiset(ys[..j] + ys[j + 1..]));
  }

  lemma CancelOne<T>(x: T, a: multiset<T>, b: multiset<T>)
    requires multiset{x} + a == multiset{x} + b
    ensures a == b
  {
    assert a == (multiset{x} + a) - multiset{x};
    assert b == (multiset{x} + b) - multiset{x};
  }

  lemma SplitAt<T>(ys: seq<T>, j: nat)
    requires j < |ys|
    ensures ys == ys[..j] + ([ys[j]] + ys[j + 1..])
    ensures multiset(ys) == multiset{ys[j]} + multiset(ys[..j] + ys[j + 1..])
  {
    assert ys == ys[..j] + ([ys[j]] + ys[j + 1..]);
  }

  lemma MappedWithout<T, U>(ys: seq<T>, j: nat, f: T -> U)
    requires j < |ys|
    ensures multiset(Mapped(ys, f)) == multiset{f(ys[j])} + multiset(Mapped(ys[..j] + ys[j + 1..], f))
  {
    hide Mapped;
    SplitAt(Mapped(ys, f), j);
    MappedRemoved(ys, j, f);
  }

  lemma MappedRemoved<T, U>(ys: seq<T>, j: nat, f: T -> U)
    requires j < |ys|
    ensures Mapped(ys[..j] + ys[j + 1..], f) == Mapped(ys, f)[..j] + Mapped(ys, f)[j + 1..]
  {
    hide Mapped;
  }

  lemma {:induction false} MapPermutes<T, U>(xs: seq<T>, ys: seq<T>, f: T -> U)
    requires Permutation(xs, ys)
    ensures Permutation(Mapped(xs, f), Mapped(ys, f))
    decreases |xs|
  {
    PermutationMembers(xs, ys);
    if xs != [] {
      var j := RemoveOne(xs, ys);
      var rest := ys[..j] + ys[j + 1..];
      MapPermutes(xs[1..], rest, f);
      MappedWithout(ys, j, f);
      assert Mapped(xs, f) == [f(xs[0])] + Mapped(xs[1..], f);
    }
  }

  lemma {:induction false} DistinctOnce<T>(xs: seq<T>)
    ensures NoRepeats(xs) <==> forall x :: multiset(xs)[x] <= 1
    decreases |xs|
  {
    if xs != [] {
      var rest := xs[1..];
      DistinctOnce(rest);
      assert xs == [xs[0]] + rest;
      assert multiset(xs) == multiset{xs[0]} + multiset(rest);
      if NoRepeats(xs) {
        assert xs[0] !in rest;
        assert NoRepeats(rest);
      } else if NoRepeats(rest) {
        var i, j :| 0 <= i < j < |xs| && xs[i] == xs[j];
        assert i == 0 && xs[j] == rest[j - 1];
        assert multiset(xs)[xs[0]] >= 2;
      } else {
        var x :| multiset(rest)[x] > 1;
        assert multiset(xs)[x] > 1;
      }
    }
  }

  lemma PermutationDistinct<T>(xs: seq<T>, ys: seq<T>)
    requires Permutation(xs, ys)
    ensures NoRepeats(xs) <==> NoRepeats(ys)
  {
    DistinctOnce(xs);
    DistinctOnce(ys);
  }

  // ---------- sorting ----------

  function Insert<T(==)>(x: T, s: seq<T>, before: (T, T) -> bool): seq<T>
  {
    if s == [] then [x] else if before(x, s[0]) then [x] + s else [s[0]] + Insert(x, s[1..], before)
  }

  /** `Array.prototype.sort` with a comparator; on distinct keys every correct sort gives this. */
  function Sort<T(==)>(xs: seq<T>, before: (T, T) -> bool): seq<T>
  {
    if xs == [] then [] else Insert(xs[0], Sort(xs[1..], before), before)
  }

  ghost predicate Ascending<T>(s: seq<T>, before: (T, T) -> bool)
  {
    forall i, j :: 0 <= i < j < |s| ==> before(s[i], s[j])
  }

  /** A strict order that separates the listed elements. */
  ghost predicate Separates<T(!new)>(xs: seq<T>, before: (T, T) -> bool)
  {
    && (forall a, b, c :: before(a, b) && before(b, c) ==> before(a, c))
    && (forall a :: !before(a, a))
    && forall a, b :: a in xs && b in xs && a != b ==> before(a, b) || before(b, a)
  }

  lemma {:induction false} InsertMembers<T>(x: T, s: seq<T>, before: (T, T) -> bool)
    ensures multiset(Insert(x, s, before)) == multiset(s) + multiset{x}
    ensures forall y :: y in Insert(x, s, before) <==> y == x || y in s
    decreases |s|
  {
    if s != [] && !before(x, s[0]) {
      InsertMembers(x, s[1..], before);
      assert s == [s[0]] + s[1..];
    }
  }

  lemma {:induction false} SortPermutes<T>(xs: seq<T>, before: (T, T) -> bool)
    ensures Permutation(Sort(xs, before), xs)
    ensures forall y :: y in Sort(xs, before) <==> y in xs
    decreases |xs|
  {
    if xs != [] {
      SortPermutes(xs[1..], before);
      InsertMembers(xs[0], Sort(xs[1..], before), before);
      assert xs == [xs[0]] + xs[1..];
    }
  }

  lemma {:induction false} InsertAscends<T(!new)>(x: T, s: seq<T>, before: (T, T) -> bool)
    requires Separates([x] + s, before) && Ascending(s, before) && x !in s
    ensures Ascending(Insert(x, s, before), before)
    decreases |s|
  {
    if s != [] {
      assert forall y :: y in s ==> y in [x] + s;
      if before(x, s[0]) {
        assert forall j :: 0 < j < |s| ==> before(x, s[j]);
      } else {
        assert x in [x] + s && s[0] in s && before(s[0], x);
        assert forall y :: y in [x] + s[1..] ==> y in [x] + s;
        InsertAscends(x, s[1..], before);
        InsertMembers(x, s[1..], before);
        var t := Insert(x, s[1..], before);
        forall j | 0 <= j < |t| ensures before(s[0], t[j]) {
          assert t[j] in t;
          if t[j] != x {
            assert t[j] in s[1..];
            var k :| 0 <= k < |s[1..]| && s[1..][k] == t[j];
            assert before(s[0], s[k + 1]);
          }
        }
      }
    }
  }

  lemma {:induction false} SortAscends<T(!new)>(xs: seq<T>, before: (T, T) -> bool)
    requires Separates(xs, before) && NoRepeats(xs)
    ensures Ascending(Sort(xs, before), before)
    decreases |xs|
  {
    if xs != [] {
      assert forall y :: y in xs[1..] ==> y in xs;
      SortAscends(xs[1..], before);
      SortPermutes(xs[1..], before);
      assert xs[0] !in xs[1..];
      assert Separates([xs[0]] + Sort(xs[1..], before), before);
      InsertAscends(xs[0], Sort(xs[1..], before), before);
    }
  }

  lemma TailOf<T(!new)>(s: seq<T>, before: (T, T) -> bool, x: T)
    requires s != [] && Ascending(s, before) && forall a :: !before(a, a)
    ensures x in s[1..] <==> x in s && x != s[0]
  {
    if x in s && x != s[0] {
      var i :| 0 <= i < |s| && s[i] == x;
      assert s[1..][i - 1] == x;
    }
  }

  lemma {:induction false} AscendingSame<T(!new)>(a: seq<T>, b: seq<T>, before: (T, T) -> bool)
    requires Separates(a, before) && Ascending(a, before) && Ascending(b, before)
    requires |a| == |b| && forall x :: x in a <==> x in b
    ensures a == b
    decreases |a|
  {
    if a != [] {
      FirstSame(a, b, before);
      forall x ensures x in a[1..] <==> x in b[1..] {
        TailOf(a, before, x);
        TailOf(b, before, x);
      }
      assert Separates(a[1..], before) && Ascending(a[1..], before) && Ascending(b[1..], before);
      hide Separates, Ascending;
      AscendingSame(a[1..], b[1..], before);
      assert a == [a[0]] + a[1..] && b == [b[0]] + b[1..];
    }
  }

  lemma FirstSame<T(!new)>(a: seq<T>, b: seq<T>, before: (T, T) -> bool)
    requires a != [] && b != [] && Ascending(a, before) && Ascending(b, before)
    requires (forall x :: !before(x, x)) && (forall x, y, z :: before(x, y) && before(y, z) ==> before(x, z))
    requires forall x :: x in a <==> x in b
    ensures a[0] == b[0]
  {
    assert a[0] in b && b[0] in a;
    var i :| 0 <= i < |b| && b[i] == a[0];
    var j :| 0 <= j < |a| && a[j] == b[0];
    assert forall k :: 0 < k < |b| ==> before(b[0], b[k]);
    assert forall k :: 0 < k < |a| ==> before(a[0], a[k]);
  }

  /** Sorting a permutation gives the same sequence. */
  lemma SortSame<T(!new)>(xs: seq<T>, ys: seq<T>, before: (T, T) -> bool)
    requires Separates(xs, before) && NoRepeats(xs) && Permutation(xs, ys)
    ensures Sort(xs, before) == Sort(ys, before)
  {
    PermutationMembers(xs, ys);
    PermutationDistinct(xs, ys);
    SortPermutes(xs, before);
    SortPermutes(ys, before);
    SortAscends(xs, before);
    SortAscends(ys, before);
    AscendingSame(Sort(xs, before), Sort(ys, before), before);
  }

  // ---------- orders by key ----------

  /** `compareCodeUnits` on a text key. */
  function TextBefore<T>(key: T -> Text): (T, T) -> bool { (a: T, b: T) => Less(key(a), key(b)) }

  function NumberBefore<T>(key: T -> int): (T, T) -> bool { (a: T, b: T) => key(a) < key(b) }

  ghost predicate KeyedBy<T, K>(xs: seq<T>, key: T -> K)
  {
    forall a, b :: a in xs && b in xs && key(a) == key(b) ==> a == b
  }

  lemma TextSeparates<T(!new)>(xs: seq<T>, key: T -> Text)
    requires KeyedBy(xs, key)
    ensures Separates(xs, TextBefore(key))
  {
    forall a, b, c | Less(key(a), key(b)) && Less(key(b), key(c)) ensures Less(key(a), key(c)) {
      LessTransitive(key(a), key(b), key(c));
    }
    forall a ensures !Less(key(a), key(a)) { LessIrreflexive(key(a)); }
    forall a, b | a in xs && b in xs && a != b ensures Less(key(a), key(b)) || Less(key(b), key(a)) {
      LessTotal(key(a), key(b));
    }
  }

  lemma NumberSeparates<T(!new)>(xs: seq<T>, key: T -> int)
    requires KeyedBy(xs, key)
    ensures Separates(xs, NumberBefore(key))
  {
  }

  /** Distinct keys make the elements distinct and identified by their keys. */
  lemma DistinctKeys<T(!new), K>(xs: seq<T>, key: T -> K)
    requires NoRepeats(Mapped(xs, key))
    ensures KeyedBy(xs, key) && NoRepeats(xs)
  {
    forall a, b | a in xs && b in xs && key(a) == key(b) ensures a == b {
      var i :| 0 <= i < |xs| && xs[i] == a;
      var j :| 0 <= j < |xs| && xs[j] == b;
      assert Mapped(xs, key)[i] == Mapped(xs, key)[j];
    }
    forall i, j | 0 <= i < j < |xs| ensures xs[i] != xs[j] {
      assert Mapped(xs, key)[i] != Mapped(xs, key)[j];
    }
  }
}
