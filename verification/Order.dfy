/**
 The orders the storage and compute planes iterate in: code-point order on strings (which is byte
 order on their UTF-8 form), and the one sorted sequence of a finite set under a strict total order
 (what iterating a `BTreeSet` yields).
 */
module Order {

  predicate Less(a: string, b: string) {
    |b| > 0 && (|a| == 0 || a[0] < b[0] || (a[0] == b[0] && Less(a[1..], b[1..])))
  }

  ghost predicate StrictTotal<T(!new)>(lt: (T, T) -> bool) {
    && (forall x :: !lt(x, x))
    && (forall x, y, z :: lt(x, y) && lt(y, z) ==> lt(x, z))
    && (forall x, y :: x == y || lt(x, y) || lt(y, x))
  }

  lemma {:induction false} LessIrreflexive(a: string)
    ensures !Less(a, a)
  {
    if |a| > 0 { LessIrreflexive(a[1..]); }
  }

  lemma {:induction false} LessTransitive(a: string, b: string, c: string)
    requires Less(a, b) && Less(b, c)
    ensures Less(a, c)
  {
    if |a| > 0 && a[0] == b[0] == c[0] { LessTransitive(a[1..], b[1..], c[1..]); }
  }

  lemma {:induction false} LessTotal(a: string, b: string)
    ensures a == b || Less(a, b) || Less(b, a)
  {
    if |a| > 0 && |b| > 0 && a[0] == b[0] {
      LessTotal(a[1..], b[1..]);
      assert a == [a[0]] + a[1..] && b == [b[0]] + b[1..];
    }
  }

  /** The first place where two strings differ decides, and a proper prefix comes first. */
  ghost predicate Precedes(a: string, b: string) {
    exists n: nat :: n <= |a| && n <= |b| && a[..n] == b[..n] && n < |b| && (n == |a| || a[n] as int < b[n] as int)
  }

  lemma {:induction false} LessIsPrecedes(a: string, b: string)
    ensures Less(a, b) <==> Precedes(a, b)
    decreases |a|
  {
    if a == "" || b == "" || a[0] != b[0] {
      assert a[..0] == b[..0];
      forall n: nat | 0 < n <= |a| && n <= |b| ensures a[..n] != b[..n] { assert a[..n][0] == a[0] && b[..n][0] == b[0]; }
    } else {
      LessIsPrecedes(a[1..], b[1..]);
      if n: nat :| n <= |a| && n <= |b| && a[..n] == b[..n] && n < |b| && (n == |a| || a[n] as int < b[n] as int) {
        assert a[..n][0] == a[0] && n > 0;
        assert a[1..][..n - 1] == a[..n][1..] && b[1..][..n - 1] == b[..n][1..];
        assert Precedes(a[1..], b[1..]);
      }
      if m: nat :| m <= |a[1..]| && m <= |b[1..]| && a[1..][..m] == b[1..][..m] && m < |b[1..]| && (m == |a[1..]| || a[1..][m] as int < b[1..][m] as int) {
        assert a[..m + 1] == [a[0]] + a[1..][..m] && b[..m + 1] == [b[0]] + b[1..][..m];
        assert Precedes(a, b);
      }
    }
  }

  /** String order is a strict total order, so a key set has exactly one sorted listing. */
  lemma LessIsStrictTotal()
    ensures StrictTotal(Less)
  {
    forall a { LessIrreflexive(a); }
    forall a, b, c | Less(a, b) && Less(b, c) ensures Less(a, c) { LessTransitive(a, b, c); }
    forall a, b ensures a == b || Less(a, b) || Less(b, a) { LessTotal(a, b); }
  }

  ghost predicate Sorted<T>(lt: (T, T) -> bool, s: seq<T>) {
    forall i, j :: 0 <= i < j < |s| ==> lt(s[i], s[j])
  }

  function Elements<T>(s: seq<T>): set<T> {
    set x | x in s
  }

  lemma ElementsEmpty<T>(s: seq<T>)
    ensures Elements(s) == {} <==> s == []
  {
    if s != [] { assert s[0] in Elements(s); }
  }

  lemma ElementsAppend<T>(s: seq<T>, x: T)
    ensures Elements(s + [x]) == Elements(s) + {x}
  {
  }

  ghost predicate IsLeast<T(!new)>(lt: (T, T) -> bool, s: set<T>, m: T) {
    m in s && forall x :: x in s && x != m ==> lt(m, x)
  }

  lemma {:induction false} LeastExists<T(!new)>(lt: (T, T) -> bool, s: set<T>)
    requires StrictTotal(lt) && s != {}
    ensures exists m :: IsLeast(lt, s, m)
  {
    var a :| a in s;
    var rest := s - {a};
    if rest == {} {
      assert s == {a} + rest;
      assert IsLeast(lt, s, a);
    } else {
      LeastExists(lt, rest);
      var m :| IsLeast(lt, rest, m);
      var least := if lt(a, m) then a else m;
      forall x | x in s && x != least ensures lt(least, x) {
        if x != a { assert x in rest; }
      }
      assert IsLeast(lt, s, least);
    }
  }

  lemma SortedCons<T(!new)>(lt: (T, T) -> bool, m: T, rest: seq<T>)
    requires Sorted(lt, rest) && forall x :: x in rest ==> lt(m, x)
    ensures Sorted(lt, [m] + rest) && Elements([m] + rest) == {m} + Elements(rest)
  {
    var q := [m] + rest;
    forall i, j | 0 <= i < j < |q| ensures lt(q[i], q[j]) {
      assert q[j] == rest[j - 1];
      if i > 0 { assert q[i] == rest[i - 1]; }
    }
  }

  /** The elements of `s` in ascending order. */
  ghost function Listing<T(!new)>(lt: (T, T) -> bool, s: set<T>): (q: seq<T>)
    requires StrictTotal(lt)
    ensures Sorted(lt, q) && Elements(q) == s && |q| == |s|
  {
    if s == {} then [] else
      LeastExists(lt, s);
      var m :| IsLeast(lt, s, m);
      var rest := Listing(lt, s - {m});
      LeastFirst(lt, s, m, rest);
      [m] + rest
  }

  lemma LeastFirst<T(!new)>(lt: (T, T) -> bool, s: set<T>, m: T, rest: seq<T>)
    requires IsLeast(lt, s, m) && Sorted(lt, rest) && Elements(rest) == s - {m}
    ensures Sorted(lt, [m] + rest) && Elements([m] + rest) == s
  {
    assert forall x :: x in rest ==> x in Elements(rest);
    SortedCons(lt, m, rest);
    assert s == {m} + (s - {m});
  }

  /** Two sorted sequences with the same elements are the same sequence. */
  lemma {:induction false} SortedIsUnique<T(!new)>(lt: (T, T) -> bool, a: seq<T>, b: seq<T>)
    requires StrictTotal(lt)
    requires Sorted(lt, a) && Sorted(lt, b) && Elements(a) == Elements(b)
    ensures a == b
  {
    ElementsEmpty(a);
    ElementsEmpty(b);
    if a != [] {
      assert a[0] in Elements(a) && b[0] in Elements(b);
      assert a[0] == b[0];
      forall x ensures x in Elements(a[1..]) <==> x in Elements(b[1..]) {
        assert x in Elements(a) <==> x == a[0] || x in a[1..];
        assert x in Elements(b) <==> x == b[0] || x in b[1..];
        assert forall i :: 0 <= i < |a[1..]| ==> lt(a[0], a[1..][i]);
        assert forall i :: 0 <= i < |b[1..]| ==> lt(b[0], b[1..][i]);
      }
      assert Elements(a[1..]) == Elements(b[1..]);
      SortedIsUnique(lt, a[1..], b[1..]);
      assert a == [a[0]] + a[1..] && b == [b[0]] + b[1..];
    }
  }

  lemma SortedDistinct(q: seq<string>)
    requires Sorted(Less, q)
    ensures forall i, j :: 0 <= i < j < |q| ==> q[i] != q[j]
  {
    forall i, j | 0 <= i < j < |q| ensures q[i] != q[j] { LessIrreflexive(q[i]); }
  }
}
