/**
 * Byte-wise string order and the string sort a map sift relies on
 * (Go's `sort.Strings`).
 */
module Sorting {

  /** `a` sorts before or equal to `b`: Go's string comparison. */
  predicate LexLe(a: string, b: string)
    decreases |a|
  {
    a == [] || (b != [] && (a[0] < b[0] || (a[0] == b[0] && LexLe(a[1..], b[1..]))))
  }

  lemma {:induction false} LexLeTotal(a: string, b: string)
    ensures LexLe(a, b) || LexLe(b, a)
    decreases |a|
  {
    if a != [] && b != [] && a[0] == b[0] {
      LexLeTotal(a[1..], b[1..]);
    }
  }

  lemma {:induction false} LexLeAntisymmetric(a: string, b: string)
    requires LexLe(a, b) && LexLe(b, a)
    ensures a == b
    decreases |a|
  {
    if a != [] {
      LexLeAntisymmetric(a[1..], b[1..]);
      assert a == [a[0]] + a[1..] && b == [b[0]] + b[1..];
    }
  }

  lemma {:induction false} LexLeTransitive(a: string, b: string, c: string)
    requires LexLe(a, b) && LexLe(b, c)
    ensures LexLe(a, c)
    decreases |a|
  {
    if a != [] && a[0] == b[0] && b[0] == c[0] {
      LexLeTransitive(a[1..], b[1..], c[1..]);
    }
  }

  function Elems(s: seq<string>): set<string>
  {
    set x | x in s
  }

  lemma ElemsEmpty(s: seq<string>)
    ensures Elems(s) == {} <==> s == []
  {
    if s != [] {
      assert s[0] in Elems(s);
    }
  }

  predicate Sorted(s: seq<string>)
  {
    forall i, j | 0 <= i < j < |s| :: LexLe(s[i], s[j])
  }

  /** Sorted ascending with no repeated string. */
  predicate StrictlySorted(s: seq<string>)
  {
    forall i, j | 0 <= i < j < |s| :: LexLe(s[i], s[j]) && s[i] != s[j]
  }

  /** Two strictly sorted sequences with the same elements are equal: a
      sorted key list is determined by its key set alone. */
  lemma {:induction false} StrictlySortedUnique(a: seq<string>, b: seq<string>)
    requires StrictlySorted(a) && StrictlySorted(b)
    requires Elems(a) == Elems(b)
    ensures a == b
    decreases |a|
  {
    ElemsEmpty(a);
    ElemsEmpty(b);
    if a != [] && b != [] {
      assert a[0] in Elems(b);
      assert b[0] in Elems(a);
      var i :| 0 <= i < |b| && b[i] == a[0];
      var j :| 0 <= j < |a| && a[j] == b[0];
      if a[0] != b[0] {
        assert 0 < i && 0 < j;
        LexLeAntisymmetric(a[0], b[0]);
      }
      var a', b' := a[1..], b[1..];
      forall x | x in a' ensures x in b' {
        var k :| 1 <= k < |a| && a[k] == x;
        assert x in Elems(b);
        var m :| 0 <= m < |b| && b[m] == x;
        assert m != 0;
      }
      forall x | x in b' ensures x in a' {
        var k :| 1 <= k < |b| && b[k] == x;
        assert x in Elems(a);
        var m :| 0 <= m < |a| && a[m] == x;
        assert m != 0;
      }
      assert Elems(a') == Elems(b');
      StrictlySortedUnique(a', b');
      assert a == [a[0]] + a' && b == [b[0]] + b';
    }
  }

  lemma {:induction false} LeastExists(keys: set<string>)
    requires keys != {}
    ensures exists k :: k in keys && forall j | j in keys :: LexLe(k, j)
    decreases keys
  {
    var x :| x in keys;
    if keys == {x} {
      LexLeTotal(x, x);
      assert forall j | j in keys :: LexLe(x, j);
    } else {
      LeastExists(keys - {x});
      var k :| k in keys - {x} && forall j | j in keys - {x} :: LexLe(k, j);
      LexLeTotal(k, x);
      if LexLe(k, x) {
        assert forall j | j in keys :: LexLe(k, j);
      } else {
        forall j | j in keys ensures LexLe(x, j) {
          if j != x {
            LexLeTransitive(x, k, j);
          } else {
            LexLeTotal(x, x);
          }
        }
        assert x in keys;
      }
    }
  }

  lemma ConsLeast(k: string, rest: seq<string>)
    requires StrictlySorted(rest)
    requires forall i | 0 <= i < |rest| :: LexLe(k, rest[i]) && k != rest[i]
    ensures StrictlySorted([k] + rest)
  {
    var r := [k] + rest;
    forall i, j | 0 <= i < j < |r| ensures LexLe(r[i], r[j]) && r[i] != r[j] {
      assert r[j] == rest[j - 1];
      if i > 0 {
        assert r[i] == rest[i - 1];
      }
    }
  }

  lemma SortedSeqStep(k: string, rest: seq<string>, keys: set<string>)
    requires k in keys && forall j | j in keys :: LexLe(k, j)
    requires StrictlySorted(rest) && Elems(rest) == keys - {k} && |rest| == |keys - {k}|
    ensures StrictlySorted([k] + rest) && Elems([k] + rest) == keys && |[k] + rest| == |keys|
  {
    forall i | 0 <= i < |rest| ensures LexLe(k, rest[i]) && k != rest[i] {
      assert rest[i] in Elems(rest);
    }
    ConsLeast(k, rest);
    assert Elems([k] + rest) == {k} + Elems(rest);
  }

  /** The strings of a finite set in ascending order. */
  ghost function SortedSeq(keys: set<string>): (r: seq<string>)
    ensures StrictlySorted(r)
    ensures Elems(r) == keys
    ensures |r| == |keys|
    decreases keys
  {
    if keys == {} then []
    else
      LeastExists(keys);
      var k :| k in keys && forall j | j in keys :: LexLe(k, j);
      var rest := SortedSeq(keys - {k});
      SortedSeqStep(k, rest, keys);
      [k] + rest
  }

  /** `s[..i+1]` is sorted once the element at `j` is set aside. */
  predicate SortedExcept(s: seq<string>, i: nat, j: nat)
    requires i < |s|
  {
    forall p, q | 0 <= p < q <= i && p != j && q != j :: LexLe(s[p], s[q])
  }

  /** The element at `j` sorts before everything after it up to `i`. */
  predicate LeastFrom(s: seq<string>, i: nat, j: nat)
    requires j <= i < |s|
  {
    forall q | j < q <= i :: LexLe(s[j], s[q])
  }

  /** One step of insertion: swapping the out-of-order element one place left. */
  lemma SwapStep(s: seq<string>, i: nat, j: nat)
    requires 0 < j <= i < |s|
    requires SortedExcept(s, i, j) && LeastFrom(s, i, j)
    requires !LexLe(s[j - 1], s[j])
    ensures SortedExcept(s[j - 1 := s[j]][j := s[j - 1]], i, j - 1)
    ensures LeastFrom(s[j - 1 := s[j]][j := s[j - 1]], i, j - 1)
  {
    LexLeTotal(s[j - 1], s[j]);
  }

  /** Insertion ends sorted once the element is in order with its left neighbour. */
  lemma InsertDone(s: seq<string>, i: nat, j: nat)
    requires j <= i < |s|
    requires SortedExcept(s, i, j) && LeastFrom(s, i, j)
    requires j == 0 || LexLe(s[j - 1], s[j])
    ensures Sorted(s[..i + 1])
  {
    forall p, q | 0 <= p < q <= i ensures LexLe(s[p], s[q]) {
      if q == j && p < j - 1 {
        LexLeTransitive(s[p], s[j - 1], s[j]);
      }
    }
  }

  /** Sorts an array of strings in place, ascending (insertion sort). */
  method SortStrings(a: array<string>)
    modifies a
    ensures Sorted(a[..])
    ensures multiset(a[..]) == old(multiset(a[..]))
  {
    if a.Length == 0 {
      return;
    }
    var i := 1;
    while i < a.Length
      invariant 1 <= i <= a.Length
      invariant Sorted(a[..i])
      invariant multiset(a[..]) == old(multiset(a[..]))
    {
      var j := i;
      assert SortedExcept(a[..], i, j) by {
        assert forall p | 0 <= p < i :: a[..][p] == a[..i][p];
      }
      while j > 0 && !LexLe(a[j - 1], a[j])
        invariant 0 <= j <= i
        invariant SortedExcept(a[..], i, j) && LeastFrom(a[..], i, j)
        invariant multiset(a[..]) == old(multiset(a[..]))
      {
        SwapStep(a[..], i, j);
        a[j - 1], a[j] := a[j], a[j - 1];
        j := j - 1;
      }
      InsertDone(a[..], i, j);
      i := i + 1;
    }
    assert a[..a.Length] == a[..];
  }
}
