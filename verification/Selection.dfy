/** Selecting the elements of a sequence that satisfy a condition, and how selection meets sorting. */
module Selection {
  import opened Sorting

  function Where<T>(s: seq<T>, f: T -> bool): seq<T> {
    if s == [] then []
    else
      var last := s[|s| - 1];
      Where(s[..|s| - 1], f) + if f(last) then [last] else []
  }

  lemma WhereStep<T>(s: seq<T>, f: T -> bool)
    ensures s == [] ==> Where(s, f) == []
    ensures s != [] ==> Where(s, f) == Where(s[..|s| - 1], f) + if f(s[|s| - 1]) then [s[|s| - 1]] else []
  {
  }

  lemma {:induction false} WhereMembers<T>(s: seq<T>, f: T -> bool)
    ensures forall x :: x in Where(s, f) <==> x in s && f(x)
    ensures |Where(s, f)| <= |s|
  {
    hide Where;
    WhereStep(s, f);
    if s != [] {
      var n := |s| - 1;
      WhereMembers(s[..n], f);
      assert s == s[..n] + [s[n]];
    }
  }

  lemma {:induction false} WhereConcat<T>(a: seq<T>, b: seq<T>, f: T -> bool)
    ensures Where(a + b, f) == Where(a, f) + Where(b, f)
  {
    hide Where;
    WhereStep(b, f);
    if b == [] {
      assert a + b == a;
    } else {
      var n := |b| - 1;
      WhereStep(a + b, f);
      assert (a + b)[..|a + b| - 1] == a + b[..n];
      WhereConcat(a, b[..n], f);
    }
  }

  lemma WhereOne<T>(x: T, f: T -> bool)
    ensures Where([x], f) == if f(x) then [x] else []
  {
    assert [x][..0] == [];
  }

  lemma WhereCons<T>(s: seq<T>, f: T -> bool)
    requires s != []
    ensures multiset(Where(s, f)) == multiset(Where([s[0]], f)) + multiset(Where(s[1..], f))
  {
    hide Where;
    assert s == [s[0]] + s[1..];
    WhereConcat([s[0]], s[1..], f);
  }

  /** Sorting changes neither what is selected nor how much. */
  lemma {:induction false} WhereInsert<T>(x: T, s: seq<T>, leq: (T, T) -> bool, f: T -> bool)
    ensures multiset(Where(Insert(x, s, leq), f)) == multiset(Where([x], f)) + multiset(Where(s, f))
  {
    hide Where;
    var r := Insert(x, s, leq);
    WhereCons(r, f);
    if s == [] || leq(x, s[0]) {
      assert r[1..] == s;
    } else {
      WhereInsert(x, s[1..], leq, f);
      WhereCons(s, f);
      assert r[1..] == Insert(x, s[1..], leq);
    }
  }

  lemma {:induction false} WhereSorted<T>(s: seq<T>, leq: (T, T) -> bool, f: T -> bool)
    ensures multiset(Where(SortBy(s, leq), f)) == multiset(Where(s, f))
    ensures |Where(SortBy(s, leq), f)| == |Where(s, f)|
  {
    hide Where;
    if s != [] {
      WhereSorted(s[1..], leq, f);
      WhereInsert(s[0], SortBy(s[1..], leq), leq, f);
      WhereCons(s, f);
    }
    assert |Where(SortBy(s, leq), f)| == |multiset(Where(SortBy(s, leq), f))| == |multiset(Where(s, f))|;
  }

  lemma {:induction false} WhereSplit<T>(s: seq<T>, f: T -> bool, g: T -> bool)
    requires forall x :: x in s ==> f(x) == !g(x)
    ensures multiset(Where(s, f)) + multiset(Where(s, g)) == multiset(s)
  {
    hide Where;
    WhereStep(s, f);
    WhereStep(s, g);
    if s != [] {
      var n := |s| - 1;
      assert s[n] in s && forall x :: x in s[..n] ==> x in s;
      WhereSplit(s[..n], f, g);
      Snoc(s);
    }
  }

  lemma Snoc<T>(s: seq<T>)
    requires s != []
    ensures multiset(s) == multiset(s[..|s| - 1]) + multiset{s[|s| - 1]}
  {
    assert s == s[..|s| - 1] + [s[|s| - 1]];
  }

  lemma {:induction false} WhereImplied<T>(s: seq<T>, f: T -> bool, g: T -> bool)
    requires forall x :: x in s && f(x) ==> g(x)
    ensures |Where(s, f)| <= |Where(s, g)|
  {
    hide Where;
    WhereStep(s, f);
    WhereStep(s, g);
    if s != [] {
      WhereImplied(s[..|s| - 1], f, g);
    }
  }

  lemma {:induction false} WhereTwice<T>(s: seq<T>, f: T -> bool, g: T -> bool, both: T -> bool)
    requires forall x :: x in s ==> (both(x) <==> f(x) && g(x))
    ensures Where(Where(s, f), g) == Where(s, both)
  {
    hide Where;
    WhereStep(s, f);
    WhereStep(s, both);
    WhereStep([], g);
    if s != [] {
      var n := |s| - 1;
      WhereTwice(s[..n], f, g, both);
      WhereConcat(Where(s[..n], f), if f(s[n]) then [s[n]] else [], g);
      WhereOne(s[n], g);
    } else {
      WhereStep(Where(s, f), g);
    }
  }

  lemma {:induction false} WhereAll<T>(s: seq<T>, f: T -> bool)
    requires forall x :: x in s ==> f(x)
    ensures Where(s, f) == s
  {
    hide Where;
    WhereStep(s, f);
    if s != [] {
      WhereAll(s[..|s| - 1], f);
      assert s == s[..|s| - 1] + [s[|s| - 1]];
    }
  }

  lemma {:induction false} WhereNone<T>(s: seq<T>, f: T -> bool)
    requires forall x :: x in s ==> !f(x)
    ensures Where(s, f) == []
  {
    hide Where;
    WhereStep(s, f);
    if s != [] {
      WhereNone(s[..|s| - 1], f);
    }
  }
}
