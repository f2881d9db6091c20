/** JavaScript strings as sequences of UTF-16 code units, ordered by code unit. */
module Utf16 {
  type Unit = n: int | 0 <= n < 0x1_0000
  type Text = seq<Unit>

  predicate IsHighSurrogate(u: Unit) { 0xD800 <= u <= 0xDBFF }
  predicate IsLowSurrogate(u: Unit) { 0xDC00 <= u <= 0xDFFF }

  /** Every surrogate belongs to a high-low pair. */
  predicate WellFormed(t: Text)
  {
    if t == [] then true
    else if IsHighSurrogate(t[0]) then |t| >= 2 && IsLowSurrogate(t[1]) && WellFormed(t[2..])
    else !IsLowSurrogate(t[0]) && WellFormed(t[1..])
  }

  /** An ASCII string as UTF-16 code units. */
  function Ascii(s: string): (t: Text)
    ensures |t| == |s|
  {
    seq(|s|, i requires 0 <= i < |s| => s[i] as int % 0x1_0000)
  }

  /** Code-unit order, the order of `Array.prototype.sort` without a comparator. */
  predicate Less(a: Text, b: Text)
  {
    if b == [] then false
    else if a == [] then true
    else a[0] < b[0] || (a[0] == b[0] && Less(a[1..], b[1..]))
  }

  lemma {:induction false} LessIrreflexive(a: Text)
    ensures !Less(a, a)
  {
    if a != [] { LessIrreflexive(a[1..]); }
  }

  lemma {:induction false} LessTotal(a: Text, b: Text)
    ensures a == b || Less(a, b) || Less(b, a)
  {
    if a == [] || b == [] {
    } else if a[0] == b[0] {
      LessTotal(a[1..], b[1..]);
      assert a == [a[0]] + a[1..] && b == [b[0]] + b[1..];
    }
  }

  lemma {:induction false} LessTransitive(a: Text, b: Text, c: Text)
    requires Less(a, b) && Less(b, c)
    ensures Less(a, c)
  {
    if a != [] && a[0] == b[0] == c[0] { LessTransitive(a[1..], b[1..], c[1..]); }
  }

  lemma LessAsymmetric(a: Text, b: Text)
    requires Less(a, b)
    ensures a != b && !Less(b, a)
  {
    LessIrreflexive(a);
    if Less(b, a) { LessTransitive(a, b, a); }
  }

  /** The order by the first place where two texts differ; a proper prefix comes first. */
  lemma {:induction false} LessAtFirstDifference(a: Text, b: Text)
    ensures Less(a, b) <==> a < b || exists n :: 0 <= n < |a| && n < |b| && a[..n] == b[..n] && a[n] < b[n]
  {
    if a != [] && b != [] && a[0] == b[0] {
      LessAtFirstDifference(a[1..], b[1..]);
      assert a == [a[0]] + a[1..] && b == [b[0]] + b[1..];
      if n :| 0 <= n < |a[1..]| && n < |b[1..]| && a[1..][..n] == b[1..][..n] && a[1..][n] < b[1..][n] {
        assert a[..n + 1] == [a[0]] + a[1..][..n] && b[..n + 1] == [b[0]] + b[1..][..n];
      }
      if n :| 0 <= n < |a| && n < |b| && a[..n] == b[..n] && a[n] < b[n] {
        assert a[1..][..n - 1] == a[..n][1..] && b[1..][..n - 1] == b[..n][1..];
      }
    }
  }

  predicate IsLeast(k: Text, s: set<Text>)
  {
    k in s && forall x :: x in s ==> x == k || Less(k, x)
  }

  lemma {:induction false} LeastExists(s: set<Text>)
    requires s != {}
    ensures exists k :: IsLeast(k, s)
  {
    var x :| x in s;
    var rest := s - {x};
    if rest == {} {
      assert s == {x};
      assert IsLeast(x, s);
    } else {
      LeastExists(rest);
      var k :| IsLeast(k, rest);
      LessTotal(x, k);
      if Less(x, k) {
        forall y | y in s ensures y == x || Less(x, y) {
          if y != x && y != k { LessTransitive(x, k, y); }
        }
        assert IsLeast(x, s);
      } else {
        assert IsLeast(k, s);
      }
    }
  }

  lemma LeastUnique(a: Text, b: Text, s: set<Text>)
    requires IsLeast(a, s) && IsLeast(b, s)
    ensures a == b
  {
    if a != b { LessAsymmetric(a, b); }
  }

  function Least(s: set<Text>): (k: Text)
    requires s != {}
    ensures IsLeast(k, s)
  {
    LeastExists(s);
    assert forall a, b | IsLeast(a, s) && IsLeast(b, s) :: a == b by {
      forall a, b | IsLeast(a, s) && IsLeast(b, s) ensures a == b { LeastUnique(a, b, s); }
    }
    var k :| IsLeast(k, s);
    k
  }

  /** `Object.keys(o).sort()`. */
  function SortedKeys(s: set<Text>): (keys: seq<Text>)
  {
    if s == {} then [] else [Least(s)] + SortedKeys(s - {Least(s)})
  }

  ghost predicate Ascending(keys: seq<Text>)
  {
    forall i, j :: 0 <= i < j < |keys| ==> Less(keys[i], keys[j])
  }

  lemma {:induction false} SortedKeysSorts(s: set<Text>)
    ensures Ascending(SortedKeys(s))
    ensures forall k :: k in SortedKeys(s) <==> k in s
    ensures |SortedKeys(s)| == |s|
  {
    if s != {} {
      var k := Least(s);
      var rest := SortedKeys(s - {k});
      SortedKeysSorts(s - {k});
      AscendingCons(k, rest);
      assert SortedKeys(s) == [k] + rest;
    }
  }

  lemma AscendingCons(k: Text, rest: seq<Text>)
    requires Ascending(rest)
    requires forall x :: x in rest ==> Less(k, x)
    ensures Ascending([k] + rest)
  {
    var all := [k] + rest;
    forall i, j | 0 <= i < j < |all| ensures Less(all[i], all[j]) {
      assert all[j] == rest[j - 1] && rest[j - 1] in rest;
      if i > 0 { assert all[i] == rest[i - 1]; }
    }
  }

  lemma AscendingDistinct(keys: seq<Text>, i: nat, j: nat)
    requires Ascending(keys) && i < |keys| && j < |keys| && keys[i] == keys[j]
    ensures i == j
  {
    LessIrreflexive(keys[i]);
  }

  /** A sorted listing of a set is unique, so it depends on the set alone. */
  lemma {:induction false} AscendingUnique(a: seq<Text>, b: seq<Text>)
    requires Ascending(a) && Ascending(b)
    requires forall k :: k in a <==> k in b
    ensures a == b
  {
    assert a == [] ==> b == [] by {
      if b != [] { assert b[0] in b; assert b[0] in a; }
    }
    if a != [] {
      assert a[0] in b;
      assert b != [] && b[0] in a;
      var i :| 0 <= i < |b| && b[i] == a[0];
      var j :| 0 <= j < |a| && a[j] == b[0];
      if i > 0 && j > 0 { LessAsymmetric(a[0], a[j]); }
      if i > 0 { LessIrreflexive(a[0]); }
      if j > 0 { LessIrreflexive(a[0]); }
      assert a[0] == b[0];
      forall k ensures k in a[1..] <==> k in b[1..] {
        TailMembers(a, k);
        TailMembers(b, k);
      }
      AscendingUnique(a[1..], b[1..]);
      assert a == [a[0]] + a[1..] && b == [b[0]] + b[1..];
    }
  }

  lemma TailMembers(a: seq<Text>, k: Text)
    requires a != [] && Ascending(a)
    ensures k in a[1..] <==> k in a && k != a[0]
  {
    if k in a[1..] {
      var i :| 0 <= i < |a[1..]| && a[1..][i] == k;
      assert a[i + 1] == k;
      LessAsymmetric(a[0], a[i + 1]);
    }
    if k in a && k != a[0] {
      var i :| 0 <= i < |a| && a[i] == k;
      assert a[1..][i - 1] == k;
    }
  }
}
