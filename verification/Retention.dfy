/** What the retention planner says about a listing, in the terms of the listing itself. */
module Retention {
  import opened Common
  import opened Sorting
  import opened Selection
  import opened Prune

  // ---------------------------------------------------------------- sizes and names

  /** The size of a snapshot is the sum of its file sizes. */
  lemma {:induction false} TotalIsSum(a: seq<nat>, b: seq<nat>, x: nat)
    ensures Total([]) == 0 && Total([x]) == x && Total(a + b) == Total(a) + Total(b)
  {
    assert [x][..0] == [];
    if b == [] {
      assert a + b == a;
    } else {
      var n := |b| - 1;
      assert (a + b)[..|a + b| - 1] == a + b[..n];
      TotalIsSum(a, b[..n], x);
    }
  }

  /** The file sizes of the snapshots in scope, one after the other. */
  function FileSizes(snapshots: seq<Snapshot>, profile: Option<string>): seq<nat> {
    if snapshots == [] then []
    else
      (if profile.None? || profile.value == snapshots[0].profile then snapshots[0].fileSizes else [])
      + FileSizes(snapshots[1..], profile)
  }

  lemma {:induction false} EntriesConcat(a: seq<Snapshot>, b: seq<Snapshot>, aliases: seq<ModelAlias>, policy: Policy)
    ensures Entries(a + b, aliases, policy) == Entries(a, aliases, policy) + Entries(b, aliases, policy)
  {
    if b == [] {
      assert a + b == a;
    } else {
      var n := |b| - 1;
      assert (a + b)[..|a + b| - 1] == a + b[..n];
      EntriesConcat(a, b[..n], aliases, policy);
    }
  }

  lemma NoEntries(aliases: seq<ModelAlias>, policy: Policy)
    ensures Bytes(Entries([], aliases, policy)) == 0 == Total([])
  {
  }

  lemma BytesOfOne(s: Snapshot, aliases: seq<ModelAlias>, policy: Policy)
    ensures Bytes(Entries([s], aliases, policy)) == Total(if InScope(s, policy) then s.fileSizes else [])
  {
    hide AliasesOf;
    assert [s][..0] == [];
    assert Entries([s], aliases, policy) == if InScope(s, policy) then [EntryOf(s, aliases)] else [];
    assert [EntryOf(s, aliases)][1..] == [];
  }

  lemma {:induction false} BytesOfEntries(snapshots: seq<Snapshot>, aliases: seq<ModelAlias>, policy: Policy)
    ensures Bytes(Entries(snapshots, aliases, policy)) == Total(FileSizes(snapshots, policy.profile))
  {
    hide Entries, Total, AliasesOf, Bytes;
    if snapshots == [] {
      NoEntries(aliases, policy);
    } else {
      var first, rest := snapshots[0], snapshots[1..];
      BytesOfEntries(rest, aliases, policy);
      assert snapshots == [first] + rest;
      EntriesConcat([first], rest, aliases, policy);
      BytesOfOne(first, aliases, policy);
      BytesConcat(Entries([first], aliases, policy), Entries(rest, aliases, policy));
      TotalIsSum(if InScope(first, policy) then first.fileSizes else [], FileSizes(rest, policy.profile), 0);
    }
  }

  /** The total of a plan is the size of all files of all snapshots in scope. */
  lemma PlanTotal(snapshots: seq<Snapshot>, aliases: seq<ModelAlias>, policy: Policy)
    ensures PlanOf(snapshots, aliases, policy).totalBytes == Total(FileSizes(snapshots, policy.profile))
  {
    hide PlanOf, Entries, Total;
    PlanPartitions(snapshots, aliases, policy);
    BytesOfEntries(snapshots, aliases, policy);
  }

  lemma {:induction false} NamesForMeans(path: Path, aliases: seq<ModelAlias>, name: string)
    ensures multiset(NamesFor(path, aliases))[name] == multiset(aliases)[ModelAlias(name, path)]
  {
    if aliases != [] {
      var n := |aliases| - 1;
      NamesForMeans(path, aliases[..n], name);
      Snoc(aliases);
      var before, added := NamesFor(path, aliases[..n]), if aliases[n].path == path then [aliases[n].name] else [];
      assert NamesFor(path, aliases) == before + added;
      hide NamesFor;
      assert multiset(before + added) == multiset(before) + multiset(added);
    }
  }

  /** The names of a path are those listed with it, as often as they are listed, in ascending order. */
  lemma AliasesMean(path: Path, aliases: seq<ModelAlias>, name: string, i: nat, j: nat)
    ensures multiset(AliasesOf(path, aliases))[name] == multiset(aliases)[ModelAlias(name, path)]
    ensures i < j < |AliasesOf(path, aliases)| ==>
              StringLeq(AliasesOf(path, aliases)[i], AliasesOf(path, aliases)[j])
  {
    hide NamesFor, StringLeq, TotalPreorder;
    StringOrder();
    SortBySorts(NamesFor(path, aliases), StringLeq);
    NamesForMeans(path, aliases, name);
  }

  // ---------------------------------------------------------------- ranks

  /** The positions of the entries of the same profile that were used after `e`, or at the same time and
      have the smaller path. */
  ghost function Ahead(entries: seq<Entry>, e: Entry): set<nat> {
    set i: nat | i < |entries| && entries[i].profile == e.profile
                 && (entries[i].lastUsedAt > e.lastUsedAt
                     || (entries[i].lastUsedAt == e.lastUsedAt && !PathLeq(e.path, entries[i].path)))
  }

  function AheadInProfile(e: Entry): Entry -> bool {
    (x: Entry) => x.profile == e.profile && !RecentLeq(e, x)
  }

  lemma AheadGrows(entries: seq<Entry>, e: Entry)
    requires entries != []
    ensures var n := |entries| - 1;
            && n !in Ahead(entries[..n], e)
            && Ahead(entries, e) == Ahead(entries[..n], e) + if AheadInProfile(e)(entries[n]) then {n} else {}
  {
    hide PathLeq;
  }

  lemma {:induction false} AheadCounts(entries: seq<Entry>, e: Entry)
    ensures |Ahead(entries, e)| == |Where(entries, AheadInProfile(e))|
  {
    hide Where, PathLeq, AheadInProfile;
    var f := AheadInProfile(e);
    WhereStep(entries, f);
    if entries != [] {
      var n := |entries| - 1;
      var before := entries[..n];
      AheadCounts(before, e);
      AheadGrows(entries, e);
      hide Ahead;
    } else {
      assert Ahead(entries, e) == {};
    }
  }

  /** The rank of an entry is the number of entries ahead of it. */
  lemma RankMeans(entries: seq<Entry>, e: Entry)
    ensures Rank(entries, e) == |Ahead(entries, e)|
  {
    hide Where, Ahead, RecentLeq;
    AheadCounts(entries, e);
    WhereTwice(entries, OfProfile(e.profile), AheadOf(e), AheadInProfile(e));
  }

  /** Whoever was used after a retained entry of the same profile is retained too. */
  lemma LaterUseRanksFirst(entries: seq<Entry>, a: Entry, b: Entry)
    requires a.profile == b.profile && a.lastUsedAt > b.lastUsedAt
    ensures Rank(entries, a) <= Rank(entries, b)
    ensures a in entries ==> Rank(entries, a) < Rank(entries, b)
  {
    hide Rank, PathLeq;
    RankMeans(entries, a);
    RankMeans(entries, b);
    assert Ahead(entries, a) <= Ahead(entries, b);
    Larger(Ahead(entries, a), Ahead(entries, b));
    if a in entries {
      var i :| 0 <= i < |entries| && entries[i] == a;
      assert i in Ahead(entries, b) && i !in Ahead(entries, a) by { PathOrder(); }
      Larger(Ahead(entries, a) + {i}, Ahead(entries, b));
    }
  }

  lemma Larger(a: set<nat>, b: set<nat>)
    requires a <= b
    ensures |a| <= |b|
  {
    assert b == a + (b - a);
  }

  // ---------------------------------------------------------------- reasons

  lemma {:induction false} AliasReasonsMean(aliases: seq<string>)
    ensures |AliasReasons(aliases)| == |aliases|
    ensures forall i :: 0 <= i < |aliases| ==> AliasReasons(aliases)[i] == "active_alias:" + aliases[i]
  {
    if aliases != [] {
      AliasReasonsMean(aliases[..|aliases| - 1]);
    }
  }

  /** The path of `e` is that of an entry with fewer than `keepMin` others ahead of it in its profile. */
  ghost predicate AmongTheMostRecent(entries: seq<Entry>, keepMin: nat, e: Entry) {
    exists x :: x in entries && x.path == e.path && |Ahead(entries, x)| < keepMin
  }

  lemma RetainedMeans(entries: seq<Entry>, keepMin: nat, e: Entry)
    ensures Retained(entries, keepMin, e.path) <==> AmongTheMostRecent(entries, keepMin, e)
  {
    hide Rank, Ahead;
    forall x ensures Rank(entries, x) == |Ahead(entries, x)| {
      RankMeans(entries, x);
    }
    if AmongTheMostRecent(entries, keepMin, e) {
      var x :| x in entries && x.path == e.path && |Ahead(entries, x)| < keepMin;
      assert Rank(entries, x) < keepMin;
    }
  }

  /** What protects an entry: one reason for each alias, in order, then the minimum kept for the profile, then
      recent use. A time of use after `now` counts as recent. */
  ghost predicate Because(reasons: seq<string>, e: Entry, entries: seq<Entry>, policy: Policy) {
    && |reasons| >= |e.aliases|
    && (forall i :: 0 <= i < |e.aliases| ==> reasons[i] == "active_alias:" + e.aliases[i])
    && reasons[|e.aliases|..] ==
         (if AmongTheMostRecent(entries, policy.keepMin, e) then ["minimum_retained_for_profile"] else [])
         + (if policy.keepRecent.Some? && policy.now - e.lastUsedAt <= policy.keepRecent.value
            then ["recently_used"] else [])
  }

  lemma ReasonsAreBecause(reasons: seq<string>, e: Entry, entries: seq<Entry>, policy: Policy)
    ensures Because(reasons, e, entries, policy) <==> reasons == Reasons(e, entries, policy)
  {
    RetainedMeans(entries, policy.keepMin, e);
    AliasReasonsMean(e.aliases);
    hide Retained, AmongTheMostRecent, AliasReasons;
    var actual, n := Reasons(e, entries, policy), |e.aliases|;
    assert actual[..n] == AliasReasons(e.aliases);
    assert Because(actual, e, entries, policy);
    if Because(reasons, e, entries, policy) {
      assert reasons[..n] == actual[..n];
      assert reasons == reasons[..n] + reasons[n..];
      assert actual == actual[..n] + actual[n..];
    }
  }

  lemma {:induction false} GuardedMembers(part: seq<Entry>, entries: seq<Entry>, policy: Policy, p: Protected)
    ensures p in Guarded(part, entries, policy)
       <==> p.entry in part && p.reasons == Reasons(p.entry, entries, policy) && p.reasons != []
  {
    hide Reasons;
    if part != [] {
      var n := |part| - 1;
      GuardedMembers(part[..n], entries, policy, p);
      assert part == part[..n] + [part[n]];
    }
  }

  /** A snapshot is protected exactly with the reasons there are for it, when there is one. */
  lemma ProtectedIff(snapshots: seq<Snapshot>, aliases: seq<ModelAlias>, policy: Policy, p: Protected)
    ensures var entries := Entries(snapshots, aliases, policy);
            p in PlanOf(snapshots, aliases, policy).protected <==>
              p.entry in entries && Because(p.reasons, p.entry, entries, policy) && p.reasons != []
  {
    var entries := Entries(snapshots, aliases, policy);
    var guarded := Guarded(entries, entries, policy);
    ProtectedOrder();
    hide TotalPreorder, Because, Reasons, SortBy, Guarded, Entries, Where;
    SortBySorts(guarded, ProtectedLeq);
    SameMembers(guarded, SortBy(guarded, ProtectedLeq));
    GuardedMembers(entries, entries, policy, p);
    ReasonsAreBecause(p.reasons, p.entry, entries, policy);
  }
}
