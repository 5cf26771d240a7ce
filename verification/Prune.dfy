/**
 The retention planner: which model snapshots may be deleted, and which are protected by an alias, by being
 among the most recently used of their profile, or by recent use.
 */
module Prune {
  import opened Common
  import opened Sorting
  import opened Selection

  type Path = seq<string>

  /** A snapshot as listed, with the time it was last used. Times are in nanoseconds. */
  datatype Snapshot = Snapshot(path: Path, repoId: string, commit: string, profile: string, digest: string,
                               fileSizes: seq<nat>, lastUsedAt: int)

  datatype ModelAlias = ModelAlias(name: string, path: Path)

  datatype Policy = Policy(now: int, keepRecent: Option<nat>, keepMin: nat, profile: Option<string>)

  datatype Entry = Entry(path: Path, repoId: string, commit: string, profile: string, digest: string, bytes: nat,
                         lastUsedAt: int, aliases: seq<string>)

  datatype Protected = Protected(entry: Entry, reasons: seq<string>)

  datatype Plan = Plan(scanned: nat, totalBytes: nat, reclaimable: nat, candidates: seq<Entry>,
                       protected: seq<Protected>)

  // ---------------------------------------------------------------- entries

  function NamesFor(path: Path, aliases: seq<ModelAlias>): seq<string> {
    if aliases == [] then []
    else
      var last := aliases[|aliases| - 1];
      NamesFor(path, aliases[..|aliases| - 1]) + if last.path == path then [last.name] else []
  }

  function AliasesOf(path: Path, aliases: seq<ModelAlias>): seq<string> {
    SortBy(NamesFor(path, aliases), StringLeq)
  }

  function Total(sizes: seq<nat>): nat {
    if sizes == [] then 0 else Total(sizes[..|sizes| - 1]) + sizes[|sizes| - 1]
  }

  predicate InScope(s: Snapshot, policy: Policy) {
    policy.profile.None? || policy.profile.value == s.profile
  }

  function EntryOf(s: Snapshot, aliases: seq<ModelAlias>): Entry {
    Entry(s.path, s.repoId, s.commit, s.profile, s.digest, Total(s.fileSizes), s.lastUsedAt, AliasesOf(s.path, aliases))
  }

  function Entries(snapshots: seq<Snapshot>, aliases: seq<ModelAlias>, policy: Policy): seq<Entry> {
    if snapshots == [] then []
    else
      var last := snapshots[|snapshots| - 1];
      Entries(snapshots[..|snapshots| - 1], aliases, policy) +
        if InScope(last, policy) then [EntryOf(last, aliases)] else []
  }

  lemma NamesForSnoc(path: Path, aliases: seq<ModelAlias>, i: nat)
    requires i < |aliases|
    ensures NamesFor(path, aliases[..i + 1])
         == NamesFor(path, aliases[..i]) + if aliases[i].path == path then [aliases[i].name] else []
  {
    assert aliases[..i + 1][..i] == aliases[..i];
  }

  lemma NamesForNobody(aliases: seq<ModelAlias>)
    requires aliases == []
    ensures forall p :: NamesFor(p, aliases) == []
  {
  }

  /** The alias names of each path, in the order listed. */
  method GroupByPath(aliases: seq<ModelAlias>) returns (byPath: map<Path, seq<string>>)
    ensures forall p :: p in byPath ==> byPath[p] == NamesFor(p, aliases)
    ensures forall p :: p !in byPath ==> NamesFor(p, aliases) == []
  {
    hide NamesFor;
    byPath := map[];
    NamesForNobody(aliases[..0]);
    for i := 0 to |aliases|
      invariant forall p :: p in byPath ==> byPath[p] == NamesFor(p, aliases[..i])
      invariant forall p :: p !in byPath ==> NamesFor(p, aliases[..i]) == []
    {
      forall p ensures NamesFor(p, aliases[..i + 1])
                    == NamesFor(p, aliases[..i]) + if aliases[i].path == p then [aliases[i].name] else []
      {
        NamesForSnoc(p, aliases, i);
      }
      var a := aliases[i];
      var names := if a.path in byPath then byPath[a.path] else [];
      byPath := byPath[a.path := names + [a.name]];
    }
    assert aliases[..|aliases|] == aliases;
  }

  /** The alias names of each path, sorted. */
  method AliasesByPath(aliases: seq<ModelAlias>) returns (byPath: map<Path, seq<string>>)
    ensures forall p :: p in byPath ==> byPath[p] == AliasesOf(p, aliases)
    ensures forall p :: p !in byPath ==> AliasesOf(p, aliases) == []
  {
    hide NamesFor;
    byPath := GroupByPath(aliases);
    var todo := byPath.Keys;
    while todo != {}
      invariant todo <= byPath.Keys
      invariant forall p :: p in todo ==> byPath[p] == NamesFor(p, aliases)
      invariant forall p :: p in byPath && p !in todo ==> byPath[p] == AliasesOf(p, aliases)
      invariant forall p :: p !in byPath ==> NamesFor(p, aliases) == []
      decreases |todo|
    {
      var p :| p in todo;
      todo := todo - {p};
      byPath := byPath[p := SortBy(byPath[p], StringLeq)];
    }
  }

  // ---------------------------------------------------------------- the most recently used of each profile

  /** Most recently used first, then by path. */
  predicate RecentLeq(a: Entry, b: Entry) {
    a.lastUsedAt > b.lastUsedAt || (a.lastUsedAt == b.lastUsedAt && PathLeq(a.path, b.path))
  }

  lemma RecentOrder()
    ensures TotalPreorder(RecentLeq)
  {
    PathOrder();
  }

  function OfProfile(profile: string): Entry -> bool {
    (x: Entry) => x.profile == profile
  }

  /** Entries strictly ahead of `e`. */
  function AheadOf(e: Entry): Entry -> bool {
    (x: Entry) => !RecentLeq(e, x)
  }

  /** How many entries of its profile are ahead of `e`. */
  function Rank(entries: seq<Entry>, e: Entry): nat {
    |Where(Where(entries, OfProfile(e.profile)), AheadOf(e))|
  }

  /** The paths of the first `keepMin` entries of each profile. */
  ghost predicate Retained(entries: seq<Entry>, keepMin: nat, path: Path) {
    exists e :: e in entries && e.path == path && Rank(entries, e) < keepMin
  }

  /** In a sorted group the element at position `i` has at most `i` ahead of it. */
  lemma RankAtMost(sorted: seq<Entry>, i: nat)
    requires i < |sorted| && Sorted(sorted, RecentLeq)
    ensures |Where(sorted, AheadOf(sorted[i]))| <= i
  {
    var f := AheadOf(sorted[i]);
    assert sorted == sorted[..i] + sorted[i..];
    WhereConcat(sorted[..i], sorted[i..], f);
    WhereMembers(sorted[..i], f);
    RecentOrder();
    forall x | x in sorted[i..] ensures !f(x) {
      var j :| 0 <= j < |sorted[i..]| && sorted[i..][j] == x;
      assert x == sorted[i + j];
    }
    WhereNone(sorted[i..], f);
  }

  /** In a sorted group everything before an element ahead of `e` is ahead of `e`. */
  lemma AheadPrefix(sorted: seq<Entry>, e: Entry, r: nat)
    requires r < |sorted| && Sorted(sorted, RecentLeq) && !RecentLeq(e, sorted[r])
    ensures |Where(sorted, AheadOf(e))| > r
  {
    var f, front := AheadOf(e), sorted[..r + 1];
    RecentOrder();
    forall x | x in front ensures f(x) {
      var j :| 0 <= j < r + 1 && sorted[j] == x;
      assert j == r || RecentLeq(x, sorted[r]);
    }
    hide Where, TotalPreorder, RecentLeq;
    WhereAll(front, f);
    assert sorted == front + sorted[r + 1..];
    WhereConcat(front, sorted[r + 1..], f);
  }

  /** An element with `r` ahead of it has the path of position `r`. */
  lemma PathAtRank(sorted: seq<Entry>, q: nat)
    requires q < |sorted| && Sorted(sorted, RecentLeq)
    ensures var r := |Where(sorted, AheadOf(sorted[q]))|; r <= q && sorted[r].path == sorted[q].path
  {
    hide Where;
    var e := sorted[q];
    RankAtMost(sorted, q);
    var r := |Where(sorted, AheadOf(e))|;
    if !RecentLeq(e, sorted[r]) {
      AheadPrefix(sorted, e, r);
      assert false;
    }
    PathOrder();
    assert r == q || RecentLeq(sorted[r], e);
  }

  /** The paths of the first entries of a sorted group. */
  function FirstPaths(sorted: seq<Entry>, count: nat): set<Path> {
    set i | 0 <= i < |sorted| && i < count :: sorted[i].path
  }

  /** A profile's sorted group holds its entries, each behind as many others as its rank says. */
  lemma SortedGroup(entries: seq<Entry>, profile: string, sorted: seq<Entry>)
    requires sorted == SortBy(Where(entries, OfProfile(profile)), RecentLeq)
    ensures Sorted(sorted, RecentLeq)
    ensures forall e :: e in sorted <==> e in entries && e.profile == profile
    ensures forall e :: e in sorted ==> Rank(entries, e) == |Where(sorted, AheadOf(e))|
  {
    var group := Where(entries, OfProfile(profile));
    RecentOrder();
    hide TotalPreorder, RecentLeq, Where, SortBy;
    SortBySorts(group, RecentLeq);
    SameMembers(group, sorted);
    WhereMembers(entries, OfProfile(profile));
    forall e | e in sorted ensures Rank(entries, e) == |Where(sorted, AheadOf(e))| {
      assert e in group;
      WhereSorted(group, RecentLeq, AheadOf(e));
    }
  }

  ghost predicate RankedIn(entries: seq<Entry>, profile: string, count: nat, path: Path) {
    exists e :: e in entries && e.profile == profile && e.path == path && Rank(entries, e) < count
  }

  /** The first paths of a profile's sorted group are those of the entries with few others ahead of them. */
  lemma FirstPathsAreRanked(entries: seq<Entry>, profile: string, count: nat, path: Path, sorted: seq<Entry>)
    requires sorted == SortBy(Where(entries, OfProfile(profile)), RecentLeq)
    ensures path in FirstPaths(sorted, count) <==> RankedIn(entries, profile, count, path)
  {
    hide SortBy, Where, RecentLeq, Sorted, Rank, OfProfile, AheadOf;
    SortedGroup(entries, profile, sorted);
    if path in FirstPaths(sorted, count) {
      var i :| 0 <= i < |sorted| && i < count && sorted[i].path == path;
      assert sorted[i] in sorted;
      RankAtMost(sorted, i);
    }
    if RankedIn(entries, profile, count, path) {
      RankedIsFirst(entries, profile, count, path, sorted);
    }
  }

  lemma RankedIsFirst(entries: seq<Entry>, profile: string, count: nat, path: Path, sorted: seq<Entry>)
    requires sorted == SortBy(Where(entries, OfProfile(profile)), RecentLeq) && RankedIn(entries, profile, count, path)
    ensures path in FirstPaths(sorted, count)
  {
    hide SortBy, Where, RecentLeq, Sorted, Rank, OfProfile, AheadOf;
    SortedGroup(entries, profile, sorted);
    var e :| e in entries && e.profile == profile && e.path == path && Rank(entries, e) < count;
    assert e in sorted;
    var q :| 0 <= q < |sorted| && sorted[q] == e;
    PathAtRank(sorted, q);
    assert sorted[Rank(entries, e)].path == path;
  }

  /** `groups` holds the entries of each profile that has some. */
  ghost predicate Grouped(groups: map<string, seq<Entry>>, entries: seq<Entry>) {
    forall p :: Where(entries, OfProfile(p)) == if p in groups then groups[p] else []
  }

  lemma GroupedStep(groups: map<string, seq<Entry>>, entries: seq<Entry>, i: nat)
    requires i < |entries| && Grouped(groups, entries[..i])
    ensures var e := entries[i];
            Grouped(groups[e.profile := (if e.profile in groups then groups[e.profile] else []) + [e]],
                    entries[..i + 1])
  {
    var e := entries[i];
    var next := groups[e.profile := (if e.profile in groups then groups[e.profile] else []) + [e]];
    hide Where, Grouped, OfProfile;
    forall p ensures Where(entries[..i + 1], OfProfile(p)) == if p in next then next[p] else [] {
      OneMoreOf(entries, i, p);
      GroupOf(groups, entries[..i], p);
    }
    GroupedBy(next, entries[..i + 1]);
  }

  lemma OneMoreOf(entries: seq<Entry>, i: nat, p: string)
    requires i < |entries|
    ensures Where(entries[..i + 1], OfProfile(p))
         == Where(entries[..i], OfProfile(p)) + if entries[i].profile == p then [entries[i]] else []
  {
    hide Where;
    var now := entries[..i + 1];
    assert now[..i] == entries[..i] && now[i] == entries[i];
    WhereStep(now, OfProfile(p));
  }

  lemma GroupOf(groups: map<string, seq<Entry>>, entries: seq<Entry>, p: string)
    requires Grouped(groups, entries)
    ensures Where(entries, OfProfile(p)) == if p in groups then groups[p] else []
  {
    hide Where;
  }

  lemma GroupedBy(groups: map<string, seq<Entry>>, entries: seq<Entry>)
    requires forall p :: Where(entries, OfProfile(p)) == if p in groups then groups[p] else []
    ensures Grouped(groups, entries)
  {
    hide Where;
  }

  method GroupByProfile(entries: seq<Entry>) returns (groups: map<string, seq<Entry>>)
    ensures forall p :: p in groups ==> groups[p] == Where(entries, OfProfile(p))
    ensures forall e :: e in entries ==> e.profile in groups
  {
    hide Where, Grouped;
    groups := map[];
    NothingGrouped(entries[..0]);
    for i := 0 to |entries|
      invariant Grouped(groups, entries[..i])
      invariant forall j :: 0 <= j < i ==> entries[j].profile in groups
    {
      var e := entries[i];
      GroupedStep(groups, entries, i);
      var group := if e.profile in groups then groups[e.profile] else [];
      groups := groups[e.profile := group + [e]];
    }
    assert entries[..|entries|] == entries;
    forall p | p in groups ensures groups[p] == Where(entries, OfProfile(p)) {
      GroupOf(groups, entries, p);
    }
  }

  lemma NothingGrouped(entries: seq<Entry>)
    requires entries == []
    ensures Grouped(map[], entries)
  {
    hide Where;
    forall p ensures Where(entries, OfProfile(p)) == [] {
      WhereStep(entries, OfProfile(p));
    }
  }

  method InsertFirst(before: set<Path>, sorted: seq<Entry>, keepMin: nat) returns (retained: set<Path>)
    ensures retained == before + FirstPaths(sorted, keepMin)
  {
    retained := before;
    for i := 0 to if keepMin < |sorted| then keepMin else |sorted|
      invariant retained == before + FirstPaths(sorted, i)
    {
      retained := retained + {sorted[i].path};
    }
  }

  ghost predicate RetainedOutside(entries: seq<Entry>, keepMin: nat, todo: set<string>, path: Path) {
    exists e :: e in entries && e.profile !in todo && e.path == path && Rank(entries, e) < keepMin
  }

  lemma OneProfileDone(entries: seq<Entry>, keepMin: nat, todo: set<string>, profile: string, path: Path)
    requires profile in todo
    ensures RetainedOutside(entries, keepMin, todo - {profile}, path)
       <==> RetainedOutside(entries, keepMin, todo, path) || RankedIn(entries, profile, keepMin, path)
  {
    hide Rank;
    if RetainedOutside(entries, keepMin, todo - {profile}, path) {
      var e :| e in entries && e.profile !in todo - {profile} && e.path == path && Rank(entries, e) < keepMin;
      assert e.profile == profile || e.profile !in todo;
    }
  }

  /** The paths kept for their profile. */
  method MinimumRetained(entries: seq<Entry>, keepMin: nat) returns (retained: set<Path>)
    ensures forall p :: p in retained <==> Retained(entries, keepMin, p)
  {
    if keepMin == 0 {
      return {};
    }
    hide Rank, FirstPaths, Where, SortBy;
    var groups := GroupByProfile(entries);
    retained := {};
    var todo := groups.Keys;
    assert forall p :: !RetainedOutside(entries, keepMin, todo, p);
    while todo != {}
      invariant todo <= groups.Keys
      invariant forall p :: p in retained <==> RetainedOutside(entries, keepMin, todo, p)
      decreases |todo|
    {
      var profile :| profile in todo;
      var sorted := SortBy(groups[profile], RecentLeq);
      retained := InsertFirst(retained, sorted, keepMin);
      forall p ensures p in retained <==> RetainedOutside(entries, keepMin, todo - {profile}, p) {
        FirstPathsAreRanked(entries, profile, keepMin, p, sorted);
        OneProfileDone(entries, keepMin, todo, profile, p);
      }
      hide RetainedOutside;
      todo := todo - {profile};
    }
    forall p ensures RetainedOutside(entries, keepMin, {}, p) <==> Retained(entries, keepMin, p) {
      NothingOutside(entries, keepMin, p);
    }
  }

  lemma NothingOutside(entries: seq<Entry>, keepMin: nat, path: Path)
    ensures RetainedOutside(entries, keepMin, {}, path) <==> Retained(entries, keepMin, path)
  {
    hide Rank;
    if Retained(entries, keepMin, path) {
      var e :| e in entries && e.path == path && Rank(entries, e) < keepMin;
      assert e.profile !in {};
    }
  }

  // ---------------------------------------------------------------- the plan

  const ALIAS: string := "active_alias:"
  const MINIMUM: string := "minimum_retained_for_profile"
  const RECENT: string := "recently_used"

  /** Used within the period, or not before now. */
  predicate Recent(e: Entry, policy: Policy) {
    policy.keepRecent.Some? && policy.now - e.lastUsedAt <= policy.keepRecent.value
  }

  function AliasReasons(aliases: seq<string>): seq<string> {
    if aliases == [] then [] else AliasReasons(aliases[..|aliases| - 1]) + [ALIAS + aliases[|aliases| - 1]]
  }

  ghost function Reasons(e: Entry, entries: seq<Entry>, policy: Policy): seq<string> {
    AliasReasons(e.aliases)
    + (if Retained(entries, policy.keepMin, e.path) then [MINIMUM] else [])
    + (if Recent(e, policy) then [RECENT] else [])
  }

  method ReasonsFor(e: Entry, retained: set<Path>, policy: Policy, ghost entries: seq<Entry>)
    returns (reasons: seq<string>)
    requires forall p :: p in retained <==> Retained(entries, policy.keepMin, p)
    ensures reasons == Reasons(e, entries, policy)
  {
    reasons := [];
    for i := 0 to |e.aliases|
      invariant reasons == AliasReasons(e.aliases[..i])
    {
      assert e.aliases[..i + 1][..i] == e.aliases[..i];
      reasons := reasons + [ALIAS + e.aliases[i]];
    }
    assert e.aliases[..|e.aliases|] == e.aliases;
    if e.path in retained {
      reasons := reasons + [MINIMUM];
    }
    if policy.keepRecent.Some? {
      var age := policy.now - e.lastUsedAt;
      if age >= 0 {
        if age <= policy.keepRecent.value {
          reasons := reasons + [RECENT];
        }
      } else {
        reasons := reasons + [RECENT];
      }
    }
  }

  ghost function Offered(entries: seq<Entry>, policy: Policy): Entry -> bool {
    (e: Entry) => Reasons(e, entries, policy) == []
  }

  ghost function Kept(entries: seq<Entry>, policy: Policy): Entry -> bool {
    (e: Entry) => Reasons(e, entries, policy) != []
  }

  /** The protected among the entries of `part`, with the reasons. */
  ghost function Guarded(part: seq<Entry>, entries: seq<Entry>, policy: Policy): seq<Protected> {
    if part == [] then []
    else
      var last := part[|part| - 1];
      var reasons := Reasons(last, entries, policy);
      Guarded(part[..|part| - 1], entries, policy) + if reasons != [] then [Protected(last, reasons)] else []
  }

  predicate EntryLeq(a: Entry, b: Entry) {
    PathLeq(a.path, b.path)
  }

  predicate ProtectedLeq(a: Protected, b: Protected) {
    PathLeq(a.entry.path, b.entry.path)
  }

  function Bytes(entries: seq<Entry>): nat {
    if entries == [] then 0 else entries[0].bytes + Bytes(entries[1..])
  }

  function EntriesIn(ps: seq<Protected>): seq<Entry> {
    if ps == [] then [] else [ps[0].entry] + EntriesIn(ps[1..])
  }

  ghost function PlanOf(snapshots: seq<Snapshot>, aliases: seq<ModelAlias>, policy: Policy): Plan {
    var entries := Entries(snapshots, aliases, policy);
    var candidates := SortBy(Where(entries, Offered(entries, policy)), EntryLeq);
    var protected := SortBy(Guarded(entries, entries, policy), ProtectedLeq);
    Plan(|candidates| + |protected|, Bytes(candidates) + Bytes(EntriesIn(protected)), Bytes(candidates), candidates,
         protected)
  }

  method ScanEntries(snapshots: seq<Snapshot>, aliases: seq<ModelAlias>, policy: Policy) returns (entries: seq<Entry>)
    ensures entries == Entries(snapshots, aliases, policy)
  {
    var byPath := AliasesByPath(aliases);
    hide AliasesOf;
    entries := [];
    for i := 0 to |snapshots|
      invariant entries == Entries(snapshots[..i], aliases, policy)
    {
      assert snapshots[..i + 1][..i] == snapshots[..i];
      var s := snapshots[i];
      if policy.profile.Some? && policy.profile.value != s.profile {
        continue;
      }
      var names := if s.path in byPath then byPath[s.path] else [];
      entries := entries + [Entry(s.path, s.repoId, s.commit, s.profile, s.digest, Total(s.fileSizes), s.lastUsedAt,
                                  names)];
    }
    assert snapshots[..|snapshots|] == snapshots;
  }

  /** The entries divided into those offered and those protected, in the order scanned. */
  method Divide(entries: seq<Entry>, policy: Policy) returns (candidates: seq<Entry>, protected: seq<Protected>)
    ensures candidates == Where(entries, Offered(entries, policy)) && protected == Guarded(entries, entries, policy)
  {
    var retained := MinimumRetained(entries, policy.keepMin);
    hide Reasons, Retained;
    candidates, protected := [], [];
    for i := 0 to |entries|
      invariant candidates == Where(entries[..i], Offered(entries, policy))
      invariant protected == Guarded(entries[..i], entries, policy)
    {
      assert entries[..i + 1][..i] == entries[..i];
      var reasons := ReasonsFor(entries[i], retained, policy, entries);
      if reasons == [] {
        candidates := candidates + [entries[i]];
      } else {
        protected := protected + [Protected(entries[i], reasons)];
      }
    }
    assert entries[..|entries|] == entries;
  }

  method PrunePlan(snapshots: seq<Snapshot>, aliases: seq<ModelAlias>, policy: Policy) returns (plan: Plan)
    ensures plan == PlanOf(snapshots, aliases, policy)
  {
    var entries := ScanEntries(snapshots, aliases, policy);
    var candidates, protected := Divide(entries, policy);
    candidates := SortBy(candidates, EntryLeq);
    protected := SortBy(protected, ProtectedLeq);
    var reclaimable := Bytes(candidates);
    plan := Plan(|candidates| + |protected|, reclaimable + Bytes(EntriesIn(protected)), reclaimable, candidates,
                 protected);
  }

  // ---------------------------------------------------------------- what a plan guarantees

  lemma {:induction false} EntriesInConcat(a: seq<Protected>, b: seq<Protected>)
    ensures EntriesIn(a + b) == EntriesIn(a) + EntriesIn(b)
  {
    if a == [] {
      assert a + b == b;
    } else {
      assert (a + b)[1..] == a[1..] + b;
      EntriesInConcat(a[1..], b);
    }
  }

  lemma {:induction false} EntriesInInsert(p: Protected, ps: seq<Protected>)
    ensures EntriesIn(Insert(p, ps, ProtectedLeq)) == Insert(p.entry, EntriesIn(ps), EntryLeq)
  {
    if ps == [] || ProtectedLeq(p, ps[0]) {
      assert ([p] + ps)[1..] == ps;
    } else {
      EntriesInInsert(p, ps[1..]);
      var rest := Insert(p, ps[1..], ProtectedLeq);
      assert ([ps[0]] + rest)[1..] == rest;
      assert EntriesIn(ps)[1..] == EntriesIn(ps[1..]);
    }
  }

  lemma {:induction false} EntriesInSorted(ps: seq<Protected>)
    ensures EntriesIn(SortBy(ps, ProtectedLeq)) == SortBy(EntriesIn(ps), EntryLeq)
  {
    if ps != [] {
      EntriesInSorted(ps[1..]);
      EntriesInInsert(ps[0], SortBy(ps[1..], ProtectedLeq));
      assert EntriesIn(ps)[1..] == EntriesIn(ps[1..]);
    }
  }

  lemma {:induction false} GuardedAreKept(part: seq<Entry>, entries: seq<Entry>, policy: Policy)
    ensures EntriesIn(Guarded(part, entries, policy)) == Where(part, Kept(entries, policy))
  {
    hide Reasons;
    if part != [] {
      var n := |part| - 1;
      GuardedAreKept(part[..n], entries, policy);
      var reasons := Reasons(part[n], entries, policy);
      EntriesInConcat(Guarded(part[..n], entries, policy), if reasons != [] then [Protected(part[n], reasons)] else []);
      assert [Protected(part[n], reasons)][1..] == [];
    }
  }

  /** The protected entries of a plan are the kept ones, sorted. */
  lemma ProtectedEntries(snapshots: seq<Snapshot>, aliases: seq<ModelAlias>, policy: Policy)
    ensures var entries := Entries(snapshots, aliases, policy);
            EntriesIn(PlanOf(snapshots, aliases, policy).protected) ==
              SortBy(Where(entries, Kept(entries, policy)), EntryLeq)
  {
    var entries := Entries(snapshots, aliases, policy);
    EntriesInSorted(Guarded(entries, entries, policy));
    GuardedAreKept(entries, entries, policy);
  }

  lemma EntryOrder()
    ensures TotalPreorder(EntryLeq)
  {
    PathOrder();
  }

  lemma ProtectedOrder()
    ensures TotalPreorder(ProtectedLeq)
  {
    PathOrder();
  }

  lemma {:induction false} BytesConcat(a: seq<Entry>, b: seq<Entry>)
    ensures Bytes(a + b) == Bytes(a) + Bytes(b)
  {
    if a == [] {
      assert a + b == b;
    } else {
      assert (a + b)[1..] == a[1..] + b;
      BytesConcat(a[1..], b);
    }
  }

  lemma {:induction false} BytesInsert(e: Entry, s: seq<Entry>, leq: (Entry, Entry) -> bool)
    ensures Bytes(Insert(e, s, leq)) == e.bytes + Bytes(s)
  {
    if s == [] || leq(e, s[0]) {
      assert ([e] + s)[1..] == s;
    } else {
      BytesInsert(e, s[1..], leq);
      var rest := Insert(e, s[1..], leq);
      assert ([s[0]] + rest)[1..] == rest;
    }
  }

  lemma {:induction false} BytesSorted(s: seq<Entry>, leq: (Entry, Entry) -> bool)
    ensures Bytes(SortBy(s, leq)) == Bytes(s)
  {
    if s != [] {
      BytesSorted(s[1..], leq);
      BytesInsert(s[0], SortBy(s[1..], leq), leq);
    }
  }

  lemma BytesWhere(s: seq<Entry>, f: Entry -> bool)
    requires s != []
    ensures Bytes(Where(s, f)) == Bytes(Where(s[..|s| - 1], f)) + if f(s[|s| - 1]) then s[|s| - 1].bytes else 0
  {
    hide Where;
    WhereStep(s, f);
    var last := [s[|s| - 1]];
    assert last[1..] == [];
    BytesConcat(Where(s[..|s| - 1], f), last);
    BytesConcat(Where(s[..|s| - 1], f), []);
  }

  lemma {:induction false} BytesSplit(s: seq<Entry>, f: Entry -> bool, g: Entry -> bool)
    requires forall x :: x in s ==> f(x) == !g(x)
    ensures Bytes(Where(s, f)) + Bytes(Where(s, g)) == Bytes(s)
  {
    hide Where;
    WhereStep(s, f);
    WhereStep(s, g);
    if s != [] {
      var n := |s| - 1;
      BytesSplit(s[..n], f, g);
      BytesWhere(s, f);
      BytesWhere(s, g);
      assert s == s[..n] + [s[n]] && [s[n]][1..] == [];
      BytesConcat(s[..n], [s[n]]);
    }
  }

  /** Every scanned snapshot is offered or protected, none twice, with nothing lost from the byte counts. */
  lemma PlanPartitions(snapshots: seq<Snapshot>, aliases: seq<ModelAlias>, policy: Policy)
    ensures var entries, plan := Entries(snapshots, aliases, policy), PlanOf(snapshots, aliases, policy);
            && multiset(plan.candidates) + multiset(EntriesIn(plan.protected)) == multiset(entries)
            && plan.scanned == |entries| && plan.totalBytes == Bytes(entries)
            && plan.reclaimable + Bytes(EntriesIn(plan.protected)) == plan.totalBytes
  {
    var entries := Entries(snapshots, aliases, policy);
    var offered, kept := Where(entries, Offered(entries, policy)), Where(entries, Kept(entries, policy));
    ProtectedEntries(snapshots, aliases, policy);
    EntryOrder();
    hide Reasons, TotalPreorder, Where, Entries, SortBy, Guarded;
    SortBySorts(offered, EntryLeq);
    SortBySorts(kept, EntryLeq);
    WhereSplit(entries, Offered(entries, policy), Kept(entries, policy));
    BytesSorted(offered, EntryLeq);
    BytesSorted(kept, EntryLeq);
    BytesSplit(entries, Offered(entries, policy), Kept(entries, policy));
    EntriesInSize(PlanOf(snapshots, aliases, policy).protected);
    assert |entries| == |multiset(offered) + multiset(kept)| == |offered| + |kept|;
  }

  /** Both lists of a plan are in ascending order of their paths. */
  lemma PlanIsSorted(snapshots: seq<Snapshot>, aliases: seq<ModelAlias>, policy: Policy)
    ensures var plan := PlanOf(snapshots, aliases, policy);
            && (forall i, j :: 0 <= i < j < |plan.candidates| ==>
                  PathLeq(plan.candidates[i].path, plan.candidates[j].path))
            && (forall i, j :: 0 <= i < j < |plan.protected| ==>
                  PathLeq(plan.protected[i].entry.path, plan.protected[j].entry.path))
  {
    var entries := Entries(snapshots, aliases, policy);
    EntryOrder();
    ProtectedOrder();
    hide Reasons, TotalPreorder, Where, Entries, PathLeq, SortBy, Guarded;
    SortBySorts(Where(entries, Offered(entries, policy)), EntryLeq);
    SortBySorts(Guarded(entries, entries, policy), ProtectedLeq);
  }

  lemma {:induction false} EntriesInSize(ps: seq<Protected>)
    ensures |EntriesIn(ps)| == |ps|
    ensures forall i :: 0 <= i < |ps| ==> EntriesIn(ps)[i] == ps[i].entry
  {
    if ps != [] {
      EntriesInSize(ps[1..]);
    }
  }

  lemma {:induction false} NamesForNone(path: Path, aliases: seq<ModelAlias>)
    ensures NamesFor(path, aliases) == [] <==> forall a :: a in aliases ==> a.path != path
  {
    if aliases != [] {
      var n := |aliases| - 1;
      NamesForNone(path, aliases[..n]);
      assert aliases == aliases[..n] + [aliases[n]];
      if forall a :: a in aliases ==> a.path != path {
        assert aliases[n].path != path;
        forall a | a in aliases[..n] ensures a.path != path {
          assert a in aliases;
        }
      }
    }
  }

  lemma {:induction false} EntriesAreScanned(snapshots: seq<Snapshot>, aliases: seq<ModelAlias>, policy: Policy,
                                             e: Entry)
    ensures e in Entries(snapshots, aliases, policy)
       <==> exists s :: s in snapshots && (policy.profile.None? || policy.profile.value == s.profile)
                        && e == Entry(s.path, s.repoId, s.commit, s.profile, s.digest, Total(s.fileSizes),
                                      s.lastUsedAt, AliasesOf(s.path, aliases))
  {
    hide AliasesOf, Total;
    if snapshots != [] {
      var n := |snapshots| - 1;
      EntriesAreScanned(snapshots[..n], aliases, policy, e);
      var before, last := Entries(snapshots[..n], aliases, policy), snapshots[n];
      assert e in Entries(snapshots, aliases, policy) <==>
        e in before || (InScope(last, policy) && e == EntryOf(last, aliases));
      hide Entries;
      assert forall s :: s in snapshots <==> s in snapshots[..n] || s == last by {
        assert snapshots == snapshots[..n] + [last];
      }
    }
  }

  lemma NoReasons(e: Entry, entries: seq<Entry>, policy: Policy)
    ensures Reasons(e, entries, policy) == [] <==>
      e.aliases == [] && !Retained(entries, policy.keepMin, e.path) && !Recent(e, policy)
  {
    hide Retained;
  }

  /** A snapshot is offered exactly when no alias names it, it was not used recently, and its path is not among
      the `keepMin` most recently used of its profile. */
  lemma OfferedIff(snapshots: seq<Snapshot>, aliases: seq<ModelAlias>, policy: Policy, e: Entry)
    ensures var entries, plan := Entries(snapshots, aliases, policy), PlanOf(snapshots, aliases, policy);
            e in plan.candidates <==>
              && e in entries && (forall a :: a in aliases ==> a.path != e.path)
              && (policy.keepRecent.Some? ==> policy.now - e.lastUsedAt > policy.keepRecent.value)
              && !Retained(entries, policy.keepMin, e.path)
  {
    var entries := Entries(snapshots, aliases, policy);
    var offered := Where(entries, Offered(entries, policy));
    EntryOrder();
    SortBySorts(offered, EntryLeq);
    SameMembers(offered, SortBy(offered, EntryLeq));
    hide TotalPreorder, Retained, SortBy;
    WhereMembers(entries, Offered(entries, policy));
    NoReasons(e, entries, policy);
    if e in entries {
      EntriesAreScanned(snapshots, aliases, policy, e);
      NamesForNone(e.path, aliases);
      AliasesNone(e.path, aliases);
    }
  }

  lemma AliasesNone(path: Path, aliases: seq<ModelAlias>)
    ensures AliasesOf(path, aliases) == [] <==> NamesFor(path, aliases) == []
  {
    StringOrder();
    SortBySorts(NamesFor(path, aliases), StringLeq);
  }

  function RankedBelow(entries: seq<Entry>, count: nat): Entry -> bool {
    (e: Entry) => Rank(entries, e) < count
  }

  function RankedOf(entries: seq<Entry>, count: nat, profile: string): Entry -> bool {
    (e: Entry) => e.profile == profile && Rank(entries, e) < count
  }

  function Min(a: nat, b: nat): nat {
    if a < b then a else b
  }

  /** A profile has at least `count` entries ranked below `count`, or all it has. */
  lemma EnoughRanked(entries: seq<Entry>, count: nat, profile: string)
    ensures |Where(entries, RankedOf(entries, count, profile))| >= Min(count, |Where(entries, OfProfile(profile))|)
  {
    hide SortBy, Where, Sorted, RecentLeq, Rank;
    var group, f := Where(entries, OfProfile(profile)), RankedBelow(entries, count);
    var sorted := SortBy(group, RecentLeq);
    WhereTwice(entries, OfProfile(profile), f, RankedOf(entries, count, profile));
    WhereSorted(group, RecentLeq, f);
    RecentOrder();
    hide TotalPreorder;
    SortBySorts(group, RecentLeq);
    var m := Min(count, |sorted|);
    FirstAreRanked(entries, count, profile, sorted, m);
    assert sorted == sorted[..m] + sorted[m..];
    WhereConcat(sorted[..m], sorted[m..], f);
  }

  lemma FirstAreRanked(entries: seq<Entry>, count: nat, profile: string, sorted: seq<Entry>, m: nat)
    requires sorted == SortBy(Where(entries, OfProfile(profile)), RecentLeq) && m <= count && m <= |sorted|
    ensures Where(sorted[..m], RankedBelow(entries, count)) == sorted[..m]
  {
    SortedGroup(entries, profile, sorted);
    hide SortBy, Where, Sorted, RecentLeq, Rank;
    forall x | x in sorted[..m] ensures Rank(entries, x) < count {
      var i :| 0 <= i < m && sorted[i] == x;
      assert x in sorted;
      RankAtMost(sorted, i);
    }
    WhereAll(sorted[..m], RankedBelow(entries, count));
  }

  /** For every profile at least `keepMin` snapshots are protected, or all of them, and the most recently used
      are among them. */
  lemma ProfileKept(snapshots: seq<Snapshot>, aliases: seq<ModelAlias>, policy: Policy, profile: string)
    ensures var entries, kept := Entries(snapshots, aliases, policy),
      EntriesIn(PlanOf(snapshots, aliases, policy).protected);
            && |Where(kept, OfProfile(profile))| >= Min(policy.keepMin, |Where(entries, OfProfile(profile))|)
            && forall e :: e in entries && Rank(entries, e) < policy.keepMin ==> e in kept
  {
    hide SortBy, Where, TotalPreorder, Rank, Entries, PlanOf, EntriesIn, Sorted, Reasons;
    var entries := Entries(snapshots, aliases, policy);
    var f := Kept(entries, policy);
    var kept := Where(entries, f);
    ProtectedEntries(snapshots, aliases, policy);
    EnoughRanked(entries, policy.keepMin, profile);
    EntryOrder();
    SortBySorts(kept, EntryLeq);
    SameMembers(kept, SortBy(kept, EntryLeq));
    WhereSorted(kept, EntryLeq, OfProfile(profile));
    WhereMembers(entries, f);
    forall e | e in entries && Rank(entries, e) < policy.keepMin ensures f(e) {
      assert Retained(entries, policy.keepMin, e.path);
      NoReasons(e, entries, policy);
    }
    var both := KeptOf(entries, policy, profile);
    WhereTwice(entries, f, OfProfile(profile), both);
    WhereImplied(entries, RankedOf(entries, policy.keepMin, profile), both);
  }

  ghost function KeptOf(entries: seq<Entry>, policy: Policy, profile: string): Entry -> bool {
    (e: Entry) => Reasons(e, entries, policy) != [] && e.profile == profile
  }

  /** When the listed paths are distinct, no path is both offered and protected. */
  lemma PathsDisjoint(snapshots: seq<Snapshot>, aliases: seq<ModelAlias>, policy: Policy, c: Entry, p: Entry)
    requires forall s, t :: s in snapshots && t in snapshots && s.path == t.path ==> s == t
    requires var plan := PlanOf(snapshots, aliases, policy); c in plan.candidates && p in EntriesIn(plan.protected)
    ensures c.path != p.path
  {
    var entries := Entries(snapshots, aliases, policy);
    var offered, kept := Where(entries, Offered(entries, policy)), Where(entries, Kept(entries, policy));
    ProtectedEntries(snapshots, aliases, policy);
    EntryOrder();
    SortBySorts(offered, EntryLeq);
    SortBySorts(kept, EntryLeq);
    SameMembers(offered, SortBy(offered, EntryLeq));
    SameMembers(kept, SortBy(kept, EntryLeq));
    WhereMembers(entries, Offered(entries, policy));
    WhereMembers(entries, Kept(entries, policy));
    hide SortBy, Where, TotalPreorder, Reasons, Entries;
    EntriesAreScanned(snapshots, aliases, policy, c);
    EntriesAreScanned(snapshots, aliases, policy, p);
    assert c != p;
  }
}
