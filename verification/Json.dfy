/**
 JSON values whose objects keep insertion order, and their canonical form: members sorted by key, and
 all-string arrays under a `required` key sorted.
 */
module Json {
  import opened Common
  import opened Sorting

  /** A number is represented by the text it prints as. */
  datatype Json =
    | Null
    | Bool(flag: bool)
    | Number(text: string)
    | Str(text: string)
    | Arr(items: seq<Json>)
    | Obj(members: seq<Member>)

  datatype Member = Member(key: string, value: Json)

  /** What the type of parsed values guarantees: the keys of an object are distinct, and numbers print as
      number tokens. */
  predicate WellFormed(v: Json) {
    match v
    case Number(text) => NumberToken(text)
    case Arr(items) => forall i :: 0 <= i < |items| ==> WellFormed(items[i])
    case Obj(ms) => DistinctKeys(ms) && forall i :: 0 <= i < |ms| ==> WellFormed(ms[i].value)
    case _ => true
  }

  predicate DistinctKeys(ms: seq<Member>) {
    forall i, j :: 0 <= i < j < |ms| ==> ms[i].key != ms[j].key
  }

  predicate NumberToken(text: string) {
    text != [] && forall i :: 0 <= i < |text| ==> NumberChar(text[i])
  }

  predicate NumberChar(c: char) {
    '0' <= c <= '9' || c in "+-.eE"
  }

  function Keys(ms: seq<Member>): (ks: seq<string>)
    ensures |ks| == |ms| && forall i :: 0 <= i < |ms| ==> ks[i] == ms[i].key
  {
    seq(|ms|, i requires 0 <= i < |ms| => ms[i].key)
  }

  /** The value under a key. */
  function Get(ms: seq<Member>, key: string): (v: Json)
    requires key in Keys(ms)
    ensures Member(key, v) in ms
  {
    if ms[0].key == key then ms[0].value else
      assert Keys(ms) == [ms[0].key] + Keys(ms[1..]);
      Get(ms[1..], key)
  }

  lemma {:induction false} GetIsMember(ms: seq<Member>, i: nat)
    requires DistinctKeys(ms) && i < |ms|
    ensures ms[i].key in Keys(ms) && Get(ms, ms[i].key) == ms[i].value
  {
    assert Keys(ms)[i] == ms[i].key;
    var v := Get(ms, ms[i].key);
    var j :| 0 <= j < |ms| && ms[j] == Member(ms[i].key, v);
    assert i == j;
  }

  // ---------------------------------------------------------------- the canonical form

  const REQUIRED: string := "required"

  predicate AllStrings(items: seq<Json>) {
    forall i :: 0 <= i < |items| ==> items[i].Str?
  }

  predicate ItemLeq(a: Json, b: Json) {
    if a.Str? && b.Str? then StringLeq(a.text, b.text) else !a.Str?
  }

  predicate MemberLeq(a: Member, b: Member) {
    StringLeq(a.key, b.key)
  }

  function Canonical(key: Option<string>, v: Json): Json
    decreases v, 1
  {
    match v
    case Arr(items) =>
      var mapped := CanonicalItems(v);
      Arr(if key == Some(REQUIRED) && AllStrings(mapped) then SortBy(mapped, ItemLeq) else mapped)
    case Obj(ms) => Obj(SortBy(CanonicalMembers(v), MemberLeq))
    case _ => v
  }

  function CanonicalItems(v: Json): seq<Json>
    requires v.Arr?
    decreases v, 0
  {
    seq(|v.items|, i requires 0 <= i < |v.items| => Canonical(None, v.items[i]))
  }

  function CanonicalMembers(v: Json): seq<Member>
    requires v.Obj?
    decreases v, 0
  {
    seq(|v.members|,
        i requires 0 <= i < |v.members| => Member(v.members[i].key,
                                                  Canonical(Some(v.members[i].key), v.members[i].value)))
  }

  /** The canonical form of a value. */
  function Canonicalize(v: Json): Json {
    Canonical(None, v)
  }

  lemma KeyOrder()
    ensures TotalPreorder(MemberLeq) && TotalPreorder(ItemLeq)
  {
    StringOrder();
  }

  /** Sorted by recursion over the value, with the members looked up under their sorted keys. */
  method CanonicalizeMember(key: Option<string>, v: Json) returns (r: Json)
    requires WellFormed(v)
    ensures r == Canonical(key, v)
    decreases v, 1
  {
    match v
    case Arr(items) =>
      var mapped := CanonicalizeItems(v);
      if key == Some(REQUIRED) && AllStrings(mapped) {
        mapped := SortBy(mapped, ItemLeq);
      }
      return Arr(mapped);
    case Obj(ms) =>
      var members := CanonicalizeMembers(v);
      return Obj(members);
    case _ =>
      return v;
  }

  method CanonicalizeItems(v: Json) returns (mapped: seq<Json>)
    requires v.Arr? && WellFormed(v)
    ensures mapped == CanonicalItems(v)
    decreases v, 0
  {
    hide Canonical;
    mapped := [];
    for i := 0 to |v.items|
      invariant mapped == CanonicalItems(v)[..i]
    {
      var item := CanonicalizeMember(None, v.items[i]);
      mapped := mapped + [item];
    }
  }

  method CanonicalizeMembers(v: Json) returns (canonical: seq<Member>)
    requires v.Obj? && WellFormed(v)
    ensures canonical == SortBy(CanonicalMembers(v), MemberLeq)
    decreases v, 0
  {
    hide Canonical, SortBy;
    SortedMembersAt(v);
    var keys := SortBy(Keys(v.members), StringLeq);
    canonical := [];
    ghost var sorted := SortBy(CanonicalMembers(v), MemberLeq);
    hide CanonicalMembers;
    for i := 0 to |keys|
      invariant canonical == sorted[..i]
    {
      var value := Get(v.members, keys[i]);
      assert WellFormed(value) by {
        var j :| 0 <= j < |v.members| && v.members[j] == Member(keys[i], value);
      }
      value := CanonicalizeMember(Some(keys[i]), value);
      canonical := canonical + [Member(keys[i], value)];
    }
  }

  lemma SortedMembersAt(v: Json)
    requires v.Obj? && WellFormed(v)
    ensures var keys, sorted := SortBy(Keys(v.members), StringLeq), SortBy(CanonicalMembers(v), MemberLeq);
            && |keys| == |sorted| == |v.members|
            && forall i :: 0 <= i < |keys| ==>
                 keys[i] in Keys(v.members) &&
                   sorted[i] == Member(keys[i], Canonical(Some(keys[i]), Get(v.members, keys[i])))
  {
    hide Canonical;
    var ms := v.members;
    var mapped := CanonicalMembers(v);
    var keys, sorted := SortBy(Keys(ms), StringLeq), SortBy(mapped, MemberLeq);
    SortedKeys(v);
    MembersStaySorted(v);
    forall i | 0 <= i < |keys|
      ensures keys[i] in Keys(ms) && sorted[i] == Member(keys[i], Canonical(Some(keys[i]), Get(ms, keys[i])))
    {
      assert sorted[i] in mapped;
      var j :| 0 <= j < |mapped| && mapped[j] == sorted[i];
      GetIsMember(ms, j);
    }
  }

  /** Sorting the members sorts the keys. */
  lemma SortedKeys(v: Json)
    requires v.Obj? && WellFormed(v)
    ensures SortBy(Keys(v.members), StringLeq) == Keys(SortBy(CanonicalMembers(v), MemberLeq))
  {
    var ms := v.members;
    var mapped := CanonicalMembers(v);
    var keys, sorted := SortBy(Keys(ms), StringLeq), SortBy(mapped, MemberLeq);
    hide Canonical;
    MembersStaySorted(v);
    forall k | k in Keys(ms) ensures k in Keys(sorted) {
      var i :| 0 <= i < |ms| && Keys(ms)[i] == k;
      assert mapped[i] in sorted;
      var j :| 0 <= j < |sorted| && sorted[j] == mapped[i];
      assert Keys(sorted)[j] == k;
    }
    PermutationOf(Keys(ms), Keys(sorted));
    hide CanonicalMembers;
    StringOrder();
    KeyOrder();
    SortBySorts(Keys(ms), StringLeq);
    SortBySorts(mapped, MemberLeq);
    SortedIsUnique(keys, Keys(sorted), StringLeq);
  }

  // ---------------------------------------------------------------- what the canonical form forgets

  /** Values that differ only in the order of object members and in the order of all-string arrays under
      `required`, at any depth. */
  ghost predicate Equivalent(key: Option<string>, a: Json, b: Json)
    decreases a, 1
  {
    if a.Arr? && b.Arr? then
      if key == Some(REQUIRED) && AllStrings(a.items) && AllStrings(b.items) then
        multiset(a.items) == multiset(b.items)
      else
        |a.items| == |b.items| && forall i :: 0 <= i < |a.items| ==> Equivalent(None, a.items[i], b.items[i])
    else if a.Obj? && b.Obj? then
      |a.members| == |b.members| && forall i :: 0 <= i < |a.members| ==> MemberFound(a, i, b)
    else
      a == b
  }

  /** The member at `i` has an equivalent under the same key in `b`. */
  ghost predicate MemberFound(a: Json, i: nat, b: Json)
    requires a.Obj? && b.Obj? && i < |a.members|
    decreases a, 0
  {
    exists j :: 0 <= j < |b.members| && a.members[i].key == b.members[j].key
                && Equivalent(Some(a.members[i].key), a.members[i].value, b.members[j].value)
  }

  lemma StringsStay(v: Json)
    requires v.Arr?
    ensures AllStrings(CanonicalItems(v)) <==> AllStrings(v.items)
    ensures AllStrings(v.items) ==> CanonicalItems(v) == v.items
  {
    if AllStrings(CanonicalItems(v)) {
      forall i | 0 <= i < |v.items| ensures v.items[i].Str? {
        assert CanonicalItems(v)[i].Str?;
      }
    }
  }

  lemma StringsSorted(items: seq<Json>)
    requires AllStrings(items)
    ensures AllStrings(SortBy(items, ItemLeq)) && multiset(SortBy(items, ItemLeq)) == multiset(items)
    ensures StrictOn(items, ItemLeq)
  {
    KeyOrder();
    StringOrder();
    SortBySorts(items, ItemLeq);
    SameMembers(items, SortBy(items, ItemLeq));
    forall x | x in SortBy(items, ItemLeq) ensures x.Str? {
      assert x in items;
    }
  }

  lemma StringPermutations(a: seq<Json>, b: seq<Json>)
    requires AllStrings(a) && AllStrings(b)
    ensures SortBy(a, ItemLeq) == SortBy(b, ItemLeq) <==> multiset(a) == multiset(b)
  {
    StringsSorted(a);
    StringsSorted(b);
    KeyOrder();
    if multiset(a) == multiset(b) {
      PermutationsSortAlike(a, b, ItemLeq);
    }
  }

  lemma MembersStrict(v: Json)
    requires v.Obj? && WellFormed(v)
    ensures Distinct(CanonicalMembers(v)) && StrictOn(CanonicalMembers(v), MemberLeq)
  {
    hide Canonical;
    KeysAreStrict(CanonicalMembers(v));
  }

  lemma KeysAreStrict(ms: seq<Member>)
    requires DistinctKeys(ms)
    ensures Distinct(ms) && StrictOn(ms, MemberLeq)
  {
    StringOrder();
    hide Lex, StringLeq;
    forall a, b | a in ms && b in ms && MemberLeq(a, b) && MemberLeq(b, a) ensures a == b {
      assert a.key == b.key;
      var i :| 0 <= i < |ms| && ms[i] == a;
      var j :| 0 <= j < |ms| && ms[j] == b;
    }
  }

  lemma MemberPermutations(a: Json, b: Json)
    requires a.Obj? && b.Obj? && WellFormed(a) && WellFormed(b)
    ensures SortBy(CanonicalMembers(a), MemberLeq) == SortBy(CanonicalMembers(b), MemberLeq)
      <==> |a.members| == |b.members| && forall x :: x in CanonicalMembers(a) ==> x in CanonicalMembers(b)
  {
    var ma, mb := CanonicalMembers(a), CanonicalMembers(b);
    KeyOrder();
    MembersStrict(a);
    SortBySorts(ma, MemberLeq);
    SortBySorts(mb, MemberLeq);
    if SortBy(ma, MemberLeq) == SortBy(mb, MemberLeq) {
      SameMembers(ma, mb);
    }
    if |ma| == |mb| && forall x :: x in ma ==> x in mb {
      PermutationOf(ma, mb);
      PermutationsSortAlike(ma, mb, MemberLeq);
    }
  }

  /** The canonical form is a true normal form: values share it exactly when they are equivalent. */
  lemma {:induction false} CanonicalIffEquivalent(key: Option<string>, a: Json, b: Json)
    requires WellFormed(a) && WellFormed(b)
    ensures Canonical(key, a) == Canonical(key, b) <==> Equivalent(key, a, b)
    decreases a
  {
    if a.Arr? && b.Arr? {
      forall i | 0 <= i < |a.items| && i < |b.items| ensures ItemsAgreeAt(a, b, i) {
        CanonicalIffEquivalent(None, a.items[i], b.items[i]);
        assert ItemsAgreeAt(a, b, i);
      }
      ArraysAgree(key, a, b);
    } else if a.Obj? && b.Obj? {
      forall i, j | 0 <= i < |a.members| && 0 <= j < |b.members|
        ensures MembersAgreeAt(a, b, i, j)
      {
        CanonicalIffEquivalent(Some(a.members[i].key), a.members[i].value, b.members[j].value);
        assert MembersAgreeAt(a, b, i, j);
      }
      ObjectsAgree(key, a, b);
    }
  }

  ghost predicate ItemsAgreeAt(a: Json, b: Json, i: nat)
    requires a.Arr? && b.Arr? && i < |a.items| && i < |b.items|
  {
    var same := Canonical(None, a.items[i]) == Canonical(None, b.items[i]);
    same <==> Equivalent(None, a.items[i], b.items[i])
  }

  lemma ArraysAgree(key: Option<string>, a: Json, b: Json)
    requires a.Arr? && b.Arr?
    requires forall i :: 0 <= i < |a.items| && i < |b.items| ==> ItemsAgreeAt(a, b, i)
    ensures Canonical(key, a) == Canonical(key, b) <==> Equivalent(key, a, b)
  {
    hide SortBy;
    StringsStay(a);
    StringsStay(b);
    if key == Some(REQUIRED) && AllStrings(a.items) && AllStrings(b.items) {
      StringPermutations(a.items, b.items);
    } else {
      SortedOrNot(key, a, b);
      ItemsAgree(a, b);
      forall i | 0 <= i < |a.items| && i < |b.items|
        ensures Canonical(None, a.items[i]) == Canonical(None, b.items[i]) <==> Equivalent(None, a.items[i], b.items[i])
      {
        assert ItemsAgreeAt(a, b, i);
      }
    }
  }

  /** Unless both are to be sorted, arrays have the same canonical form exactly if their items do. */
  lemma SortedOrNot(key: Option<string>, a: Json, b: Json)
    requires a.Arr? && b.Arr? && !(key == Some(REQUIRED) && AllStrings(a.items) && AllStrings(b.items))
    ensures Canonical(key, a) == Canonical(key, b) <==> CanonicalItems(a) == CanonicalItems(b)
  {
    hide SortBy;
    StringsStay(a);
    StringsStay(b);
    if AllStrings(a.items) { StringsSorted(a.items); }
    if AllStrings(b.items) { StringsSorted(b.items); }
  }

  lemma ObjectsAgree(key: Option<string>, a: Json, b: Json)
    requires a.Obj? && b.Obj? && WellFormed(a) && WellFormed(b)
    requires forall i, j :: 0 <= i < |a.members| && 0 <= j < |b.members| ==> MembersAgreeAt(a, b, i, j)
    ensures Canonical(key, a) == Canonical(key, b) <==> Equivalent(key, a, b)
  {
    MemberPermutations(a, b);
    forall i | 0 <= i < |a.members| ensures MemberFound(a, i, b) <==> CanonicalMembers(a)[i] in CanonicalMembers(b) {
      FoundIffCanonical(a, i, b);
    }
    assert Canonical(key, a) == Obj(SortBy(CanonicalMembers(a), MemberLeq));
    assert Canonical(key, b) == Obj(SortBy(CanonicalMembers(b), MemberLeq));
    hide Canonical, CanonicalMembers, SortBy;
  }

  lemma FoundIffCanonical(a: Json, i: nat, b: Json)
    requires a.Obj? && b.Obj? && i < |a.members|
    requires forall i, j :: 0 <= i < |a.members| && 0 <= j < |b.members| ==> MembersAgreeAt(a, b, i, j)
    ensures MemberFound(a, i, b) <==> CanonicalMembers(a)[i] in CanonicalMembers(b)
  {
    var ma, mb := CanonicalMembers(a), CanonicalMembers(b);
    if MemberFound(a, i, b) {
      var j :| 0 <= j < |b.members| && a.members[i].key == b.members[j].key
               && Equivalent(Some(a.members[i].key), a.members[i].value, b.members[j].value);
      assert MembersAgreeAt(a, b, i, j);
      assert mb[j] == ma[i];
    }
    if ma[i] in mb {
      var j :| 0 <= j < |mb| && mb[j] == ma[i];
      assert MembersAgreeAt(a, b, i, j);
    }
  }

  lemma ItemsAgree(a: Json, b: Json)
    requires a.Arr? && b.Arr?
    ensures CanonicalItems(a) == CanonicalItems(b)
      <==> |a.items| == |b.items| && forall i :: 0 <= i < |a.items| ==>
        Canonical(None, a.items[i]) == Canonical(None, b.items[i])
  {
    if CanonicalItems(a) == CanonicalItems(b) {
      forall i | 0 <= i < |a.items| ensures Canonical(None, a.items[i]) == Canonical(None, b.items[i]) {
        assert CanonicalItems(a)[i] == CanonicalItems(b)[i];
      }
    }
  }

  ghost predicate MembersAgreeAt(a: Json, b: Json, i: nat, j: nat)
    requires a.Obj? && b.Obj? && i < |a.members| && j < |b.members|
  {
    var key := Some(a.members[i].key);
    var same := Canonical(key, a.members[i].value) == Canonical(key, b.members[j].value);
    same <==> Equivalent(key, a.members[i].value, b.members[j].value)
  }

  /** Canonicalising stays within the values that share the form. */
  lemma {:induction false} EquivalentToCanonical(key: Option<string>, v: Json)
    requires WellFormed(v)
    ensures Equivalent(key, v, Canonical(key, v)) && WellFormed(Canonical(key, v))
    decreases v
  {
    if v.Arr? {
      StringsStay(v);
      if AllStrings(v.items) && key == Some(REQUIRED) {
        StringsSorted(v.items);
      } else {
        forall i | 0 <= i < |v.items|
          ensures Equivalent(None, v.items[i], CanonicalItems(v)[i]) && WellFormed(CanonicalItems(v)[i])
        {
          EquivalentToCanonical(None, v.items[i]);
        }
      }
    } else if v.Obj? {
      forall i | 0 <= i < |v.members| ensures MemberKept(v, i) {
        EquivalentToCanonical(Some(v.members[i].key), v.members[i].value);
      }
      SortedMembersEquivalent(key, v);
    }
  }

  ghost predicate MemberKept(v: Json, i: nat)
    requires v.Obj? && i < |v.members|
  {
    var key := Some(v.members[i].key);
    var canonical := Canonical(key, v.members[i].value);
    Equivalent(key, v.members[i].value, canonical) && WellFormed(canonical)
  }

  lemma SortedMembersEquivalent(key: Option<string>, v: Json)
    requires v.Obj? && WellFormed(v) && forall i :: 0 <= i < |v.members| ==> MemberKept(v, i)
    ensures Equivalent(key, v, Canonical(key, v)) && WellFormed(Canonical(key, v))
  {
    var mapped, sorted := CanonicalMembers(v), SortBy(CanonicalMembers(v), MemberLeq);
    SortedKeysDistinct(v);
    assert Canonical(key, v) == Obj(sorted);
    MembersStaySorted(v);
    forall i | 0 <= i < |v.members| ensures MemberFound(v, i, Obj(sorted)) {
      assert MemberKept(v, i);
      assert mapped[i] in sorted;
      var j :| 0 <= j < |sorted| && sorted[j] == mapped[i];
      assert Obj(sorted).members[j].key == v.members[i].key;
    }
    forall j | 0 <= j < |sorted| ensures WellFormed(sorted[j].value) {
      assert sorted[j] in mapped;
      var i :| 0 <= i < |mapped| && mapped[i] == sorted[j];
      assert MemberKept(v, i);
    }
  }

  lemma MembersStaySorted(v: Json)
    requires v.Obj?
    ensures var mapped, sorted := CanonicalMembers(v), SortBy(CanonicalMembers(v), MemberLeq);
            |mapped| == |sorted| && forall x :: x in mapped <==> x in sorted
  {
    hide CanonicalMembers;
    KeyOrder();
    SortBySorts(CanonicalMembers(v), MemberLeq);
    SameMembers(CanonicalMembers(v), SortBy(CanonicalMembers(v), MemberLeq));
  }

  lemma SortedKeysDistinct(v: Json)
    requires v.Obj? && WellFormed(v)
    ensures DistinctKeys(SortBy(CanonicalMembers(v), MemberLeq))
  {
    var keys, sorted := SortBy(Keys(v.members), StringLeq), SortBy(CanonicalMembers(v), MemberLeq);
    SortedMembersAt(v);
    StringOrder();
    SortBySorts(Keys(v.members), StringLeq);
    DistinctPermutation(Keys(v.members), keys);
  }

  /** Canonicalising twice changes nothing. */
  lemma CanonicalizeIdempotent(v: Json)
    requires WellFormed(v)
    ensures Canonicalize(Canonicalize(v)) == Canonicalize(v)
  {
    EquivalentToCanonical(None, v);
    CanonicalIffEquivalent(None, v, Canonicalize(v));
  }

  // ---------------------------------------------------------------- what the canonical form looks like

  /** Object members are in ascending order of their keys, and so are the items of an all-string array under the
      key `required`, at every depth. */
  ghost predicate InOrder(key: Option<string>, v: Json)
    decreases v
  {
    match v
    case Arr(items) =>
      && (forall i :: 0 <= i < |items| ==> InOrder(None, items[i]))
      && (key == Some("required") && (forall i :: 0 <= i < |items| ==> items[i].Str?) ==>
            forall i, j :: 0 <= i < j < |items| ==> StringLeq(items[i].text, items[j].text))
    case Obj(ms) =>
      && (forall i :: 0 <= i < |ms| ==> InOrder(Some(ms[i].key), ms[i].value))
      && (forall i, j :: 0 <= i < j < |ms| ==> StringLeq(ms[i].key, ms[j].key))
    case _ => true
  }

  /** Canonicalising keeps what a value is: an array stays one with as many items, an object one with as many
      members, and everything else is unchanged. */
  lemma {:induction false} CanonicalInOrder(key: Option<string>, v: Json)
    requires WellFormed(v)
    ensures InOrder(key, Canonical(key, v))
    ensures v.Arr? ==> Canonical(key, v).Arr? && |Canonical(key, v).items| == |v.items|
    ensures v.Obj? ==> Canonical(key, v).Obj? && |Canonical(key, v).members| == |v.members|
    ensures !v.Arr? && !v.Obj? ==> Canonical(key, v) == v
    decreases v
  {
    KeyOrder();
    if v.Arr? {
      StringsStay(v);
      var mapped := CanonicalItems(v);
      if key == Some("required") && AllStrings(v.items) {
        SortedStrings(v.items);
      } else {
        forall i | 0 <= i < |mapped| ensures InOrder(None, mapped[i]) {
          CanonicalInOrder(None, v.items[i]);
        }
        assert AllStrings(mapped) <==> forall i :: 0 <= i < |mapped| ==> mapped[i].Str?;
      }
    } else if v.Obj? {
      var mapped := CanonicalMembers(v);
      forall i | 0 <= i < |mapped| ensures InOrder(Some(mapped[i].key), mapped[i].value) {
        CanonicalInOrder(Some(v.members[i].key), v.members[i].value);
      }
      SortedMembers(v);
    }
  }

  /** All-string arrays come out in ascending order. */
  lemma SortedStrings(items: seq<Json>)
    requires AllStrings(items)
    ensures var r := SortBy(items, ItemLeq);
            && AllStrings(r) && |r| == |items| && multiset(r) == multiset(items)
            && forall i, j :: 0 <= i < j < |r| ==> StringLeq(r[i].text, r[j].text)
  {
    StringsSorted(items);
    KeyOrder();
    SortBySorts(items, ItemLeq);
    var r := SortBy(items, ItemLeq);
    hide SortBy, TotalPreorder, Lex;
    forall i, j | 0 <= i < j < |r| ensures StringLeq(r[i].text, r[j].text) {
      assert r[i].Str? && r[j].Str? && ItemLeq(r[i], r[j]);
    }
  }

  /** Members come out in ascending order of keys, each in order itself. */
  lemma SortedMembers(v: Json)
    requires v.Obj? && forall i :: 0 <= i < |v.members| ==>
      InOrder(Some(CanonicalMembers(v)[i].key), CanonicalMembers(v)[i].value)
    ensures var r := SortBy(CanonicalMembers(v), MemberLeq);
            && |r| == |v.members|
            && (forall i :: 0 <= i < |r| ==> InOrder(Some(r[i].key), r[i].value))
            && (forall i, j :: 0 <= i < j < |r| ==> StringLeq(r[i].key, r[j].key))
  {
    KeyOrder();
    var mapped, r := CanonicalMembers(v), SortBy(CanonicalMembers(v), MemberLeq);
    SortBySorts(mapped, MemberLeq);
    MembersStaySorted(v);
    hide SortBy, TotalPreorder, Lex, Canonical;
    forall i | 0 <= i < |r| ensures InOrder(Some(r[i].key), r[i].value) {
      assert r[i] in mapped;
      var k :| 0 <= k < |mapped| && mapped[k] == r[i];
    }
    forall i, j | 0 <= i < j < |r| ensures StringLeq(r[i].key, r[j].key) {
      assert MemberLeq(r[i], r[j]);
    }
  }

  /** The values canonicalising leaves alone are exactly those in order. */
  lemma {:induction false} UnchangedIffInOrder(key: Option<string>, v: Json)
    requires WellFormed(v)
    ensures Canonical(key, v) == v <==> InOrder(key, v)
  {
    CanonicalInOrder(key, v);
    if InOrder(key, v) {
      InOrderIsUnchanged(key, v);
    }
  }

  lemma {:induction false} InOrderIsUnchanged(key: Option<string>, v: Json)
    requires WellFormed(v) && InOrder(key, v)
    ensures Canonical(key, v) == v
    decreases v
  {
    KeyOrder();
    if v.Arr? {
      forall i | 0 <= i < |v.items| ensures CanonicalItems(v)[i] == v.items[i] {
        InOrderIsUnchanged(None, v.items[i]);
      }
      assert CanonicalItems(v) == v.items;
      if key == Some("required") && AllStrings(v.items) {
        StringsSorted(v.items);
        assert Sorted(v.items, ItemLeq);
        SortBySorts(v.items, ItemLeq);
        SortedIsUnique(v.items, SortBy(v.items, ItemLeq), ItemLeq);
      }
    } else if v.Obj? {
      forall i | 0 <= i < |v.members| ensures CanonicalMembers(v)[i] == v.members[i] {
        InOrderIsUnchanged(Some(v.members[i].key), v.members[i].value);
      }
      assert CanonicalMembers(v) == v.members;
      MembersStrict(v);
      assert Sorted(v.members, MemberLeq);
      SortBySorts(v.members, MemberLeq);
      SortedIsUnique(v.members, SortBy(v.members, MemberLeq), MemberLeq);
    }
  }
}
