/** Eviction of least recently used clones from the lander's cache directory. */
module CachePrune {
  import opened Options
  import opened Scan

  /** A directory entry: a file, or a directory with its modification time and the size of its tree. */
  datatype Entry = File | Dir(mtime: real, size: nat, hasGit: bool)

  type Entries = map<string, Entry>

  /** A clone other than the excluded one. */
  predicate Candidate(entries: Entries, exclude: string, p: string) {
    p in entries && p != exclude && entries[p].Dir? && entries[p].hasGit
  }

  /** What an entry weighs against the cap: clones, and the excluded directory. */
  function Weight(entries: Entries, exclude: string, p: string): nat {
    if Candidate(entries, exclude, p) || (p == exclude && p in entries && entries[p].Dir?) then entries[p].size else 0
  }

  function Usage(entries: Entries, exclude: string, listing: seq<string>): nat {
    if listing == [] then 0
    else Usage(entries, exclude, listing[..|listing| - 1]) + Weight(entries, exclude, listing[|listing| - 1])
  }

  /** Eviction order: by modification time, then size, then path. */
  predicate Before(entries: Entries, p: string, q: string)
    requires p in entries && q in entries && entries[p].Dir? && entries[q].Dir?
  {
    var a, b := entries[p], entries[q];
    a.mtime < b.mtime || (a.mtime == b.mtime && (a.size < b.size || (a.size == b.size && Less(p, q))))
  }

  predicate AllDirs(entries: Entries, paths: seq<string>) {
    forall p :: p in paths ==> p in entries && entries[p].Dir?
  }

  // ---- Sorting -------------------------------------------------------------------

  function Insert(entries: Entries, p: string, paths: seq<string>): (r: seq<string>)
    requires p in entries && entries[p].Dir? && AllDirs(entries, paths)
    ensures AllDirs(entries, r) && forall q :: q in r <==> q == p || q in paths
  {
    if paths == [] || Before(entries, p, paths[0]) then [p] + paths
    else [paths[0]] + Insert(entries, p, paths[1..])
  }

  function SortByAge(entries: Entries, paths: seq<string>): (r: seq<string>)
    requires AllDirs(entries, paths)
    ensures AllDirs(entries, r) && forall q :: q in r <==> q in paths
  {
    if paths == [] then [] else Insert(entries, paths[0], SortByAge(entries, paths[1..]))
  }

  ghost predicate SortedByAge(entries: Entries, paths: seq<string>) {
    AllDirs(entries, paths) && forall i, j :: 0 <= i < j < |paths| ==> Before(entries, paths[i], paths[j])
  }

  lemma BeforeTransitive(entries: Entries, p: string, q: string, r: string)
    requires AllDirs(entries, [p, q, r]) && Before(entries, p, q) && Before(entries, q, r)
    ensures Before(entries, p, r)
  {
    if Less(p, q) && Less(q, r) { LessTransitive(p, q, r); }
  }

  lemma BeforeTotal(entries: Entries, p: string, q: string)
    requires AllDirs(entries, [p, q]) && p != q
    ensures Before(entries, p, q) <==> !Before(entries, q, p)
  {
    LessTotal(p, q);
    if Less(p, q) && Less(q, p) {
      LessTransitive(p, q, p);
      LessIrreflexive(p);
    }
  }

  lemma {:induction false} InsertSorts(entries: Entries, p: string, paths: seq<string>)
    requires p in entries && entries[p].Dir? && p !in paths && SortedByAge(entries, paths)
    ensures SortedByAge(entries, Insert(entries, p, paths))
  {
    if paths == [] {
    } else if Before(entries, p, paths[0]) {
      forall j | 0 <= j < |paths| ensures Before(entries, p, paths[j]) {
        if j > 0 { BeforeTransitive(entries, p, paths[0], paths[j]); }
      }
    } else {
      BeforeTotal(entries, p, paths[0]);
      InsertSorts(entries, p, paths[1..]);
      var rest := Insert(entries, p, paths[1..]);
      forall j | 0 <= j < |rest| ensures Before(entries, paths[0], rest[j]) {
        assert rest[j] in rest;
        if rest[j] != p {
          var k :| 0 <= k < |paths[1..]| && paths[1..][k] == rest[j];
          assert paths[k + 1] == rest[j];
        }
      }
    }
  }

  lemma {:induction false} SortSorts(entries: Entries, paths: seq<string>)
    requires AllDirs(entries, paths) && forall i, j :: 0 <= i < j < |paths| ==> paths[i] != paths[j]
    ensures SortedByAge(entries, SortByAge(entries, paths))
  {
    if paths != [] {
      SortSorts(entries, paths[1..]);
      InsertSorts(entries, paths[0], SortByAge(entries, paths[1..]));
    }
  }

  // ---- What is left after some clones are gone ---------------------------------------

  /** `listing` names each entry once. */
  ghost predicate Enumerates(listing: seq<string>, entries: Entries) {
    (forall i, j :: 0 <= i < j < |listing| ==> listing[i] != listing[j]) && forall p :: p in entries <==> p in listing
  }

  lemma {:induction false} UsageWithout(entries: Entries, exclude: string, listing: seq<string>, p: string)
    requires forall i, j :: 0 <= i < j < |listing| ==> listing[i] != listing[j]
    ensures Usage(entries - {p}, exclude, listing)
         == Usage(entries, exclude, listing) - (if p in listing then Weight(entries, exclude, p) else 0)
  {
    if listing != [] {
      var front, last := listing[..|listing| - 1], listing[|listing| - 1];
      UsageWithout(entries, exclude, front, p);
      assert listing == front + [last];
      assert p in front ==> p != last;
    }
  }

  /** The candidates that stand before `p` in eviction order. */
  ghost function Older(entries: Entries, exclude: string, p: string): set<string>
    requires Candidate(entries, exclude, p)
  {
    set q | q in entries && Candidate(entries, exclude, q) && Before(entries, q, p)
  }

  /** What an eviction pass that has removed `gone` guarantees. */
  ghost predicate EvictsByAge(entries: Entries, exclude: string, listing: seq<string>, cap: nat, gone: set<string>,
                              locked: string -> bool, stuck: string -> bool) {
    && (forall p :: p in gone ==> Candidate(entries, exclude, p) && !locked(p) && !stuck(p))
    && (forall p, q :: p in gone && q in Older(entries, exclude, p) ==> q in gone || locked(q) || stuck(q))
    && (forall p :: p in gone ==> Usage(entries - (gone * Older(entries, exclude, p)), exclude, listing) > cap)
  }

  /** The sorted candidates. */
  ghost predicate InOrder(entries: Entries, exclude: string, sorted: seq<string>) {
    SortedByAge(entries, sorted) && forall p :: p in sorted <==> Candidate(entries, exclude, p)
  }

  /** After `n` candidates: those evicted are the ones that could be. */
  ghost predicate Reached(sorted: seq<string>, n: nat, gone: set<string>, locked: string -> bool,
        stuck: string -> bool)
  {
    && n <= |sorted|
    && (forall p :: p in gone ==> p in sorted[..n])
    && (forall i :: 0 <= i < n ==> (sorted[i] in gone <==> !locked(sorted[i]) && !stuck(sorted[i])))
  }

  lemma Asymmetric(entries: Entries, p: string, q: string)
    requires AllDirs(entries, [p, q]) && Before(entries, p, q)
    ensures p != q && !Before(entries, q, p)
  {
    if p == q { LessIrreflexive(p); } else { BeforeTotal(entries, p, q); }
  }

  /** In sorted order the older candidates are those before. */
  lemma OlderIsEarlier(entries: Entries, exclude: string, sorted: seq<string>, n: nat)
    requires InOrder(entries, exclude, sorted) && n < |sorted|
    ensures forall i :: 0 <= i < |sorted| ==> (sorted[i] in Older(entries, exclude, sorted[n]) <==> i < n)
  {
    forall i | 0 <= i < |sorted| ensures sorted[i] in Older(entries, exclude, sorted[n]) <==> i < n {
      if n < i { Asymmetric(entries, sorted[n], sorted[i]); }
      if n == i && Before(entries, sorted[n], sorted[n]) { Asymmetric(entries, sorted[n], sorted[n]); }
    }
  }

  lemma EvictNext(entries: Entries, exclude: string, listing: seq<string>, cap: nat, sorted: seq<string>, n: nat,
                  gone: set<string>, locked: string -> bool, stuck: string -> bool)
    requires InOrder(entries, exclude, sorted) && Reached(sorted, n, gone, locked, stuck) && n < |sorted|
    requires EvictsByAge(entries, exclude, listing, cap, gone, locked, stuck)
    requires !locked(sorted[n]) && !stuck(sorted[n]) && Usage(entries - gone, exclude, listing) > cap
    ensures Reached(sorted, n + 1, gone + {sorted[n]}, locked, stuck)
    ensures EvictsByAge(entries, exclude, listing, cap, gone + {sorted[n]}, locked, stuck)
  {
    var p, more := sorted[n], gone + {sorted[n]};
    OlderIsEarlier(entries, exclude, sorted, n);
    assert more * Older(entries, exclude, p) == gone by {
      forall q | q in gone ensures q in Older(entries, exclude, p) {
        var i :| 0 <= i < n && sorted[i] == q;
      }
    }
    forall q | q in gone ensures more * Older(entries, exclude, q) == gone * Older(entries, exclude, q) {
      var i :| 0 <= i < n && sorted[i] == q;
      OlderIsEarlier(entries, exclude, sorted, i);
    }
    forall q | q in Older(entries, exclude, p) ensures q in gone || locked(q) || stuck(q) {
      var i :| 0 <= i < |sorted| && sorted[i] == q;
    }
    forall i | 0 <= i < n ensures sorted[i] != p {
      Asymmetric(entries, sorted[i], p);
    }
  }

  lemma Unreached(entries: Entries, sorted: seq<string>, n: nat, gone: set<string>, locked: string -> bool,
        stuck: string -> bool)
    requires SortedByAge(entries, sorted) && Reached(sorted, n, gone, locked, stuck) && n < |sorted|
    ensures sorted[n] !in gone
  {
    if sorted[n] in gone {
      var i :| 0 <= i < n && sorted[i] == sorted[n];
      Asymmetric(entries, sorted[i], sorted[n]);
    }
  }

  lemma EvictOne(entries: Entries, exclude: string, listing: seq<string>, cap: nat, sorted: seq<string>, n: nat,
                 gone: set<string>, locked: string -> bool, stuck: string -> bool)
    requires Enumerates(listing, entries)
    requires InOrder(entries, exclude, sorted) && Reached(sorted, n, gone, locked, stuck) && n < |sorted|
    requires EvictsByAge(entries, exclude, listing, cap, gone, locked, stuck)
    requires !locked(sorted[n]) && !stuck(sorted[n]) && Usage(entries - gone, exclude, listing) > cap
    ensures Reached(sorted, n + 1, gone + {sorted[n]}, locked, stuck)
    ensures EvictsByAge(entries, exclude, listing, cap, gone + {sorted[n]}, locked, stuck)
    ensures var left := entries - gone;
      && sorted[n] in left && left[sorted[n]].Dir? && entries - (gone + {sorted[n]}) == left - {sorted[n]}
      && Usage(left - {sorted[n]}, exclude, listing) == Usage(left, exclude, listing) - left[sorted[n]].size
  {
    EvictNext(entries, exclude, listing, cap, sorted, n, gone, locked, stuck);
    Unreached(entries, sorted, n, gone, locked, stuck);
    assert Candidate(entries, exclude, sorted[n]);
    UsageWithout(entries - gone, exclude, listing, sorted[n]);
  }

  lemma PassOver(sorted: seq<string>, n: nat, gone: set<string>, locked: string -> bool, stuck: string -> bool)
    requires Reached(sorted, n, gone, locked, stuck) && n < |sorted| && sorted[n] !in gone
    requires locked(sorted[n]) || stuck(sorted[n])
    ensures Reached(sorted, n + 1, gone, locked, stuck)
  {
  }

  lemma NoneLeft(entries: Entries, exclude: string, sorted: seq<string>, gone: set<string>, locked: string -> bool,
        stuck: string -> bool)
    requires InOrder(entries, exclude, sorted) && Reached(sorted, |sorted|, gone, locked, stuck)
    ensures forall p :: Candidate(entries - gone, exclude, p) ==> locked(p) || stuck(p)
  {
    forall p | Candidate(entries - gone, exclude, p) ensures locked(p) || stuck(p) {
      assert Candidate(entries, exclude, p) && p in sorted;
      var i :| 0 <= i < |sorted| && sorted[i] == p;
    }
  }

  function Candidates(entries: Entries, exclude: string, listing: seq<string>): seq<string> {
    if listing == [] then []
    else
      var last := listing[|listing| - 1];
      Candidates(entries, exclude, listing[..|listing| - 1]) + if Candidate(entries, exclude, last) then [last] else []
  }

  function Sizes(entries: Entries, exclude: string, listing: seq<string>): nat {
    if listing == [] then 0
    else
      var last := listing[|listing| - 1];
      Sizes(entries, exclude, listing[..|listing| - 1])
      + if Candidate(entries, exclude, last) then entries[last].size else 0
  }

  lemma {:induction false} CandidatesAre(entries: Entries, exclude: string, listing: seq<string>)
    requires forall i, j :: 0 <= i < j < |listing| ==> listing[i] != listing[j]
    ensures
      var cs := Candidates(entries, exclude, listing);
      && (forall p :: p in cs <==> Candidate(entries, exclude, p) && p in listing)
      && (forall i, j :: 0 <= i < j < |cs| ==> cs[i] != cs[j])
  {
    if listing != [] {
      var front, last := listing[..|listing| - 1], listing[|listing| - 1];
      CandidatesAre(entries, exclude, front);
      assert listing == front + [last] && last !in front;
    }
  }

  lemma {:induction false} UsageIsSizesAndExcluded(entries: Entries, exclude: string, listing: seq<string>)
    requires forall i, j :: 0 <= i < j < |listing| ==> listing[i] != listing[j]
    ensures Usage(entries, exclude, listing)
         == Sizes(entries, exclude, listing) + if exclude in listing then Weight(entries, exclude, exclude) else 0
  {
    if listing != [] {
      var front, last := listing[..|listing| - 1], listing[|listing| - 1];
      UsageIsSizesAndExcluded(entries, exclude, front);
      assert listing == front + [last] && last !in front;
    }
  }

  // ---- Removals that fail halfway ---------------------------------------------------

  function Stuck(remains: string -> Option<Entry>): string -> bool {
    (p: string) => remains(p).Some?
  }

  /** What is left of a directory is a directory, no larger, and a clone only if it was one. */
  ghost predicate OnlyShrinks(entries: Entries, remains: string -> Option<Entry>) {
    forall p :: p in entries && entries[p].Dir? && remains(p).Some? ==>
      var e := remains(p).value;
      e.Dir? && e.size <= entries[p].size && (e.hasGit ==> entries[p].hasGit)
  }

  /** The same entries, except that some unlocked candidates are what a failed removal left of them. */
  ghost predicate Worn(before: Entries, after: Entries, exclude: string, locked: string -> bool,
                       remains: string -> Option<Entry>) {
    && after.Keys == before.Keys
    && forall p :: p in after && after[p] != before[p] ==>
         Candidate(before, exclude, p) && !locked(p) && remains(p) == Some(after[p])
  }

  lemma WornMore(before: Entries, after: Entries, exclude: string, locked: string -> bool,
                 remains: string -> Option<Entry>, p: string)
    requires Worn(before, after, exclude, locked, remains) && Candidate(before, exclude, p)
    ensures remains(p).Some? && !locked(p) ==> Worn(before, after[p := remains(p).value], exclude, locked, remains)
    ensures Worn(before - {p}, after - {p}, exclude, locked, remains)
  {
  }

  lemma {:induction false} UsageIsMonotone(before: Entries, after: Entries, exclude: string, listing: seq<string>)
    requires forall p :: Weight(after, exclude, p) <= Weight(before, exclude, p)
    ensures Usage(after, exclude, listing) <= Usage(before, exclude, listing)
  {
    if listing != [] { UsageIsMonotone(before, after, exclude, listing[..|listing| - 1]); }
  }

  /** Each entry counts with its size if it is a clone or the excluded directory, and otherwise not at all. */
  lemma {:induction false} UsageCountsEach(entries: Entries, exclude: string, listing: seq<string>, i: nat)
    requires i < |listing| && listing[i] in entries
    ensures Usage(entries, exclude, listing) == Usage(entries, exclude, listing[..i] + listing[i + 1..])
      + (match entries[listing[i]]
         case File => 0
         case Dir(_, size, hasGit) => if hasGit || listing[i] == exclude then size else 0)
  {
    var front, last, less := listing[..|listing| - 1], listing[|listing| - 1], listing[..i] + listing[i + 1..];
    if i < |listing| - 1 {
      UsageCountsEach(entries, exclude, front, i);
      assert less[..|less| - 1] == front[..i] + front[i + 1..] && less[|less| - 1] == last;
    } else {
      assert less == front;
    }
  }

  /** So the running total is never below what is there. */
  lemma WornWeighsLess(surveyed: Entries, gone: set<string>, after: Entries, exclude: string, listing: seq<string>,
                       locked: string -> bool, remains: string -> Option<Entry>)
    requires OnlyShrinks(surveyed, remains) && Worn(surveyed - gone, after, exclude, locked, remains)
    ensures Usage(after, exclude, listing) <= Usage(surveyed - gone, exclude, listing)
  {
    UsageIsMonotone(surveyed - gone, after, exclude, listing);
  }

  /** Only clones go, none that is excluded or locked; and no clone that could have gone instead was used earlier: the
      order is by modification time, among equal times by size, and among equal sizes by path. */
  ghost predicate LeastRecentlyUsed(before: Entries, after: Entries, exclude: string, locked: string -> bool,
        remains: string -> Option<Entry>)
  {
    && (forall p :: p in before && p !in after ==>
        before[p].Dir? && before[p].hasGit && p != exclude && !locked(p))
    && (forall p, q :: (p in before && p !in after && before[p].Dir? && q in after && q in before && before[q].Dir?
                        && before[q].hasGit && q != exclude && !locked(q) && remains(q).None?
                        ==> InOrderOfUse(p, before[p], q, before[q])))
  }

  predicate InOrderOfUse(p: string, a: Entry, q: string, b: Entry)
    requires a.Dir? && b.Dir?
  {
    && a.mtime <= b.mtime
    && (a.mtime == b.mtime ==> a.size <= b.size)
    && (a.mtime == b.mtime && a.size == b.size ==> Less(p, q))
  }

  lemma EvictedIsLeastRecentlyUsed(before: Entries, after: Entries, exclude: string, listing: seq<string>, cap: nat,
        locked: string -> bool, remains: string -> Option<Entry>)
    requires EvictsByAge(before, exclude, listing, cap, before.Keys - after.Keys, locked, Stuck(remains))
    ensures LeastRecentlyUsed(before, after, exclude, locked, remains)
  {
    forall p | p in before && p !in after ensures Candidate(before, exclude, p) && !locked(p) {
      assert p in before.Keys - after.Keys;
    }
    forall p, q | p in before && p !in after && before[p].Dir? && q in after && q in before && before[q].Dir?
        && before[q].hasGit && q != exclude && !locked(q) && remains(q).None?
      ensures Before(before, p, q)
    {
      assert Candidate(before, exclude, p) && q !in Older(before, exclude, p);
      BeforeTotal(before, p, q);
    }
  }

  // ---- The pruning itself ----------------------------------------------------------

  class CacheDir {
    const cap: nat
    var entries: Entries

    constructor (cap: nat, entries: Entries)
      ensures this.cap == cap && this.entries == entries
    {
      this.cap := cap;
      this.entries := entries;
    }

    /** Collect the clones and the total. */
    method Survey(listing: seq<string>, exclude: string) returns (candidates: seq<string>, total: nat)
      requires Enumerates(listing, entries)
      ensures candidates == Candidates(entries, exclude, listing) && total == Usage(entries, exclude, listing)
    {
      candidates, total := [], 0;
      for n := 0 to |listing|
        invariant candidates == Candidates(entries, exclude, listing[..n])
          && total == Sizes(entries, exclude, listing[..n])
      {
        var p := listing[n];
        assert listing[..n + 1][..n] == listing[..n];
        if p == exclude || p !in entries || !entries[p].Dir? || !entries[p].hasGit { continue; }
        total := total + entries[p].size;
        candidates := candidates + [p];
      }
      assert listing[..|listing|] == listing;
      UsageIsSizesAndExcluded(entries, exclude, listing);
      if exclude in entries && entries[exclude].Dir? { total := total + entries[exclude].size; }
    }

    /** Evict, oldest first, until the cap is met.  `locked` says whose lock another landing holds, and `remains` what
        is left of a clone whose removal fails halfway, as each is found when its turn comes. */
    method Prune(listing: seq<string>, exclude: string, locked: string -> bool, remains: string -> Option<Entry>)
        returns (total: nat)
      requires Enumerates(listing, entries) && OnlyShrinks(entries, remains)
      modifies this
      ensures
        var gone := old(entries).Keys - entries.Keys;
        && EvictsByAge(old(entries), exclude, listing, cap, gone, locked, Stuck(remains))
        && Worn(old(entries) - gone, entries, exclude, locked, remains)
        && Usage(entries, exclude, listing) <= total == Usage(old(entries) - gone, exclude, listing)
        && (total <= cap || forall p :: Candidate(old(entries) - gone, exclude, p) ==> locked(p) || remains(p).Some?)
      ensures LeastRecentlyUsed(old(entries), entries, exclude, locked, remains)
    {
      var surveyed := entries;
      var candidates;
      candidates, total := Survey(listing, exclude);
      CandidatesAre(entries, exclude, listing);
      var sorted := SortByAge(entries, candidates);
      SortSorts(entries, candidates);
      ghost var gone := {};
      var n := 0;
      assert surveyed - gone == surveyed;
      while n < |sorted| && total > cap
        invariant 0 <= n <= |sorted|
        invariant Worn(surveyed - gone, entries, exclude, locked, remains)
        invariant total == Usage(surveyed - gone, exclude, listing)
        invariant Reached(sorted, n, gone, locked, Stuck(remains))
        invariant EvictsByAge(surveyed, exclude, listing, cap, gone, locked, Stuck(remains))
      {
        var p := sorted[n];
        Unreached(surveyed, sorted, n, gone, locked, Stuck(remains));
        WornMore(surveyed - gone, entries, exclude, locked, remains, p);
        if locked(p) || remains(p).Some? {
          PassOver(sorted, n, gone, locked, Stuck(remains));
          if !locked(p) { entries := entries[p := remains(p).value]; }
        } else {
          EvictOne(surveyed, exclude, listing, cap, sorted, n, gone, locked, Stuck(remains));
          total := total - surveyed[p].size;
          entries := entries - {p};
          gone := gone + {p};
        }
        n := n + 1;
      }
      assert surveyed.Keys - entries.Keys == gone;
      EvictedIsLeastRecentlyUsed(surveyed, entries, exclude, listing, cap, locked, remains);
      WornWeighsLess(surveyed, gone, entries, exclude, listing, locked, remains);
      if total > cap { NoneLeft(surveyed, exclude, sorted, gone, locked, Stuck(remains)); }
    }
  }
}
