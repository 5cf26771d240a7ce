/** Lexicographic order and sorting, as the standard library provides them. */
module Sorting {
  import opened Common

  /** A reflexive, transitive order in which any two elements compare. */
  ghost predicate TotalPreorder<T(!new)>(leq: (T, T) -> bool) {
    && (forall a, b :: leq(a, b) || leq(b, a))
    && (forall a, b, c :: leq(a, b) && leq(b, c) ==> leq(a, c))
  }

  ghost predicate Antisymmetric<T(!new)>(leq: (T, T) -> bool) {
    forall a, b :: leq(a, b) && leq(b, a) ==> a == b
  }

  /** No two different elements of `s` compare as equal. */
  ghost predicate StrictOn<T(!new)>(s: seq<T>, leq: (T, T) -> bool) {
    forall a, b :: a in s && b in s && leq(a, b) && leq(b, a) ==> a == b
  }

  ghost predicate Sorted<T(!new)>(s: seq<T>, leq: (T, T) -> bool) {
    forall i, j :: 0 <= i < j < |s| ==> leq(s[i], s[j])
  }

  function Insert<T>(x: T, s: seq<T>, leq: (T, T) -> bool): seq<T> {
    if s == [] || leq(x, s[0]) then [x] + s else [s[0]] + Insert(x, s[1..], leq)
  }

  /** The stable sort of a sequence. */
  function SortBy<T>(s: seq<T>, leq: (T, T) -> bool): seq<T> {
    if s == [] then [] else Insert(s[0], SortBy(s[1..], leq), leq)
  }

  lemma {:induction false} InsertKeeps<T>(x: T, s: seq<T>, leq: (T, T) -> bool)
    ensures multiset(Insert(x, s, leq)) == multiset([x] + s)
  {
    if s != [] && !leq(x, s[0]) {
      InsertKeeps(x, s[1..], leq);
      assert [x] + s == [x] + ([s[0]] + s[1..]);
    }
  }

  lemma PrependSorted<T(!new)>(x: T, s: seq<T>, leq: (T, T) -> bool)
    requires Sorted(s, leq) && forall y :: y in s ==> leq(x, y)
    ensures Sorted([x] + s, leq)
  {
  }

  lemma {:induction false} InsertSorts<T(!new)>(x: T, s: seq<T>, leq: (T, T) -> bool)
    requires TotalPreorder(leq) && Sorted(s, leq)
    ensures Sorted(Insert(x, s, leq), leq)
  {
    if s == [] {
    } else if leq(x, s[0]) {
      forall y | y in s ensures leq(x, y) {
        var i :| 0 <= i < |s| && s[i] == y;
        assert y == s[0] || leq(s[0], y);
      }
      PrependSorted(x, s, leq);
    } else {
      InsertSorts(x, s[1..], leq);
      InsertKeeps(x, s[1..], leq);
      var rest := Insert(x, s[1..], leq);
      forall y | y in rest ensures leq(s[0], y) {
        assert y in multiset([x] + s[1..]);
        assert y in [x] + s[1..];
      }
      PrependSorted(s[0], rest, leq);
    }
  }

  /** Sorting orders the elements and keeps every one of them. */
  lemma {:induction false} SortBySorts<T(!new)>(s: seq<T>, leq: (T, T) -> bool)
    requires TotalPreorder(leq)
    ensures multiset(SortBy(s, leq)) == multiset(s) && Sorted(SortBy(s, leq), leq)
    ensures |SortBy(s, leq)| == |s|
  {
    if s != [] {
      SortBySorts(s[1..], leq);
      InsertSorts(s[0], SortBy(s[1..], leq), leq);
      InsertKeeps(s[0], SortBy(s[1..], leq), leq);
      assert s == [s[0]] + s[1..];
    }
    assert |SortBy(s, leq)| == |multiset(SortBy(s, leq))| == |multiset(s)|;
  }

  lemma HeadIsLeast<T(!new)>(s: seq<T>, x: T, leq: (T, T) -> bool)
    requires TotalPreorder(leq) && Sorted(s, leq) && x in s
    ensures leq(s[0], x)
  {
    var i :| 0 <= i < |s| && s[i] == x;
  }

  lemma SameMembers<T>(a: seq<T>, b: seq<T>)
    requires multiset(a) == multiset(b)
    ensures |a| == |b| && forall x :: x in a <==> x in b
  {
    assert |a| == |multiset(a)| == |b|;
    forall x ensures x in a <==> x in b {
      assert x in a <==> x in multiset(a);
    }
  }

  /** Distinct elements all found in a sequence no longer are a permutation of it. */
  lemma {:induction false} PermutationOf<T>(a: seq<T>, b: seq<T>)
    requires Distinct(a) && |a| == |b| && forall x :: x in a ==> x in b
    ensures multiset(a) == multiset(b)
  {
    if a != [] {
      assert a[0] in b;
      var j :| 0 <= j < |b| && b[j] == a[0];
      var rest := b[..j] + b[j + 1..];
      assert b == b[..j] + [b[j]] + b[j + 1..];
      assert a == [a[0]] + a[1..];
      forall x | x in a[1..] ensures x in rest {
        assert x in a && x != a[0];
        assert x in b[..j] || x in [b[j]] || x in b[j + 1..];
      }
      PermutationOf(a[1..], rest);
    }
  }

  lemma DistinctPermutation<T>(a: seq<T>, b: seq<T>)
    requires Distinct(a) && multiset(a) == multiset(b)
    ensures Distinct(b)
  {
    forall i, j | 0 <= i < j < |b| ensures b[i] != b[j] {
      if b[i] == b[j] {
        CountsTwice(b, i, j);
        CountsOnce(a, b[i]);
      }
    }
  }

  lemma CountsTwice<T>(s: seq<T>, i: nat, j: nat)
    requires i < j < |s| && s[i] == s[j]
    ensures multiset(s)[s[i]] >= 2
  {
    assert s == s[..i] + [s[i]] + s[i + 1..j] + [s[j]] + s[j + 1..];
  }

  lemma {:induction false} CountsOnce<T>(s: seq<T>, x: T)
    requires Distinct(s)
    ensures multiset(s)[x] <= 1
  {
    if s != [] {
      assert s == [s[0]] + s[1..];
      CountsOnce(s[1..], x);
      if s[0] == x {
        assert x !in s[1..];
      }
    }
  }

  lemma TailElements<T>(s: seq<T>)
    requires s != []
    ensures multiset(s[1..]) == multiset(s) - multiset{s[0]} && s == [s[0]] + s[1..]
  {
    assert s == [s[0]] + s[1..];
  }

  lemma TailOrder<T(!new)>(s: seq<T>, leq: (T, T) -> bool)
    requires s != [] && Sorted(s, leq)
    ensures Sorted(s[1..], leq) && (StrictOn(s, leq) ==> StrictOn(s[1..], leq))
  {
  }

  lemma SameHeads<T(!new)>(a: seq<T>, b: seq<T>, leq: (T, T) -> bool)
    requires TotalPreorder(leq) && StrictOn(a, leq) && a != []
    requires Sorted(a, leq) && Sorted(b, leq) && multiset(a) == multiset(b)
    ensures b != [] && a[0] == b[0]
  {
    SameMembers(a, b);
    HeadIsLeast(a, b[0], leq);
    HeadIsLeast(b, a[0], leq);
  }

  /** A sequence has one sorted arrangement. */
  lemma {:induction false} SortedIsUnique<T(!new)>(a: seq<T>, b: seq<T>, leq: (T, T) -> bool)
    requires TotalPreorder(leq) && StrictOn(a, leq)
    requires Sorted(a, leq) && Sorted(b, leq) && multiset(a) == multiset(b)
    ensures a == b
  {
    hide TotalPreorder, Sorted, StrictOn;
    SameMembers(a, b);
    if a != [] {
      SameHeads(a, b, leq);
      TailOrder(a, leq);
      TailOrder(b, leq);
      TailElements(a);
      TailElements(b);
      SortedIsUnique(a[1..], b[1..], leq);
    }
  }

  lemma PermutationsSortAlike<T(!new)>(a: seq<T>, b: seq<T>, leq: (T, T) -> bool)
    requires TotalPreorder(leq) && StrictOn(a, leq) && multiset(a) == multiset(b)
    ensures SortBy(a, leq) == SortBy(b, leq)
  {
    SortBySorts(a, leq);
    SortBySorts(b, leq);
    SameMembers(a, SortBy(a, leq));
    SortedIsUnique(SortBy(a, leq), SortBy(b, leq), leq);
  }

  // ---------------------------------------------------------------- lexicographic order

  /** Sequences compared element by element, a prefix first. */
  predicate Lex<T(==)>(leq: (T, T) -> bool, a: seq<T>, b: seq<T>) {
    a == [] || (b != [] && if a[0] == b[0] then Lex(leq, a[1..], b[1..]) else leq(a[0], b[0]))
  }

  lemma {:induction false} LexTotal<T(!new)>(leq: (T, T) -> bool, a: seq<T>, b: seq<T>)
    requires TotalPreorder(leq)
    ensures Lex(leq, a, b) || Lex(leq, b, a)
  {
    if a != [] && b != [] && a[0] == b[0] {
      LexTotal(leq, a[1..], b[1..]);
    }
  }

  lemma {:induction false} LexTransitive<T(!new)>(leq: (T, T) -> bool, a: seq<T>, b: seq<T>, c: seq<T>)
    requires TotalPreorder(leq) && Antisymmetric(leq) && Lex(leq, a, b) && Lex(leq, b, c)
    ensures Lex(leq, a, c)
  {
    if a != [] && a[0] == c[0] {
      assert a[0] == b[0];
      LexTransitive(leq, a[1..], b[1..], c[1..]);
    }
  }

  lemma {:induction false} LexAntisymmetric<T(!new)>(leq: (T, T) -> bool, a: seq<T>, b: seq<T>)
    requires Antisymmetric(leq) && Lex(leq, a, b) && Lex(leq, b, a)
    ensures a == b
  {
    if a != [] {
      LexAntisymmetric(leq, a[1..], b[1..]);
      assert a == [a[0]] + a[1..] && b == [b[0]] + b[1..];
    }
  }

  predicate CharLeq(a: char, b: char) {
    a <= b
  }

  /** Strings by their characters, which is also the order of their UTF-8 bytes. */
  predicate StringLeq(a: string, b: string) {
    Lex(CharLeq, a, b)
  }

  /** Paths by their components. */
  predicate PathLeq(a: seq<string>, b: seq<string>) {
    Lex(StringLeq, a, b)
  }

  /** Which of two sequences comes first: a proper prefix, or the one with the lesser element where they differ. */
  lemma {:induction false} LexMeans<T(!new)>(leq: (T, T) -> bool, a: seq<T>, b: seq<T>)
    ensures Lex(leq, a, b) <==> a <= b || exists k :: DifferAt(a, b, k) && leq(a[k], b[k])
    decreases |a|
  {
    if a != [] && b != [] && a[0] == b[0] {
      var a', b' := a[1..], b[1..];
      LexMeans(leq, a', b');
      assert a == [a[0]] + a' && b == [b[0]] + b';
      assert a <= b <==> a' <= b';
      if k :| DifferAt(a', b', k) && leq(a'[k], b'[k]) {
        assert a[..k + 1] == [a[0]] + a'[..k] && b[..k + 1] == [b[0]] + b'[..k];
        assert DifferAt(a, b, k + 1);
      }
      if k :| DifferAt(a, b, k) && leq(a[k], b[k]) {
        assert a[..k][1..] == a'[..k - 1] && b[..k][1..] == b'[..k - 1];
        assert DifferAt(a', b', k - 1);
      }
    } else if a != [] && b != [] {
      assert a[..0] == b[..0];
      assert DifferAt(a, b, 0);
      forall k | DifferAt(a, b, k) ensures k == 0 {
        if k > 0 {
          FirstAgrees(a, b, k);
        }
      }
    }
  }

  lemma FirstAgrees<T>(a: seq<T>, b: seq<T>, k: int)
    requires DifferAt(a, b, k) && k > 0
    ensures a[0] == b[0]
  {
    assert a[..k][0] == b[..k][0];
  }

  /** The sequences agree up to position `k`, and there they differ. */
  ghost predicate DifferAt<T>(a: seq<T>, b: seq<T>, k: int) {
    0 <= k < |a| && k < |b| && a[..k] == b[..k] && a[k] != b[k]
  }

  /** The order of strings: a prefix first, else the smaller character at the first difference. */
  lemma StringLeqMeans(a: string, b: string)
    ensures StringLeq(a, b) <==> a <= b || exists k :: DifferAt(a, b, k) && a[k] < b[k]
  {
    LexMeans(CharLeq, a, b);
  }

  /** The order of paths: a prefix first, else by the first component that differs. */
  lemma PathLeqMeans(a: seq<string>, b: seq<string>)
    ensures PathLeq(a, b) <==> a <= b || exists k :: DifferAt(a, b, k) && StringLeq(a[k], b[k])
  {
    LexMeans(StringLeq, a, b);
  }

  lemma StringOrder()
    ensures TotalPreorder(StringLeq) && Antisymmetric(StringLeq)
  {
    forall a, b ensures StringLeq(a, b) || StringLeq(b, a) {
      LexTotal(CharLeq, a, b);
    }
    forall a, b, c | StringLeq(a, b) && StringLeq(b, c) ensures StringLeq(a, c) {
      LexTransitive(CharLeq, a, b, c);
    }
    forall a, b | StringLeq(a, b) && StringLeq(b, a) ensures a == b {
      LexAntisymmetric(CharLeq, a, b);
    }
  }

  lemma PathOrder()
    ensures TotalPreorder(PathLeq) && Antisymmetric(PathLeq)
  {
    StringOrder();
    forall a, b ensures PathLeq(a, b) || PathLeq(b, a) {
      LexTotal(StringLeq, a, b);
    }
    forall a, b, c | PathLeq(a, b) && PathLeq(b, c) ensures PathLeq(a, c) {
      LexTransitive(StringLeq, a, b, c);
    }
    forall a, b | PathLeq(a, b) && PathLeq(b, a) ensures a == b {
      LexAntisymmetric(StringLeq, a, b);
    }
  }
}
