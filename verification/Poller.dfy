/**
 * The poller's capped sweep over the rotating scan.  When the cap is reached
 * the sweep has already pulled one more key, which moved the cursor: that key
 * is skipped for this pass.
 */
module Poller {
  import opened Dicts
  import opened Options
  import opened Scan

  /** What a sweep did: keys pulled, jobs that counted, live claims afterwards, and how it ended: at its last key, cut
      short by the cap, or by a store call that raised. */
  datatype Sweep = Sweep(pulled: nat, done: nat, claimed: set<string>, broke: bool, raised: bool)

  /** How the sweep fares with a key: its job counts; its pending object is not readable; the claim raises; or the work
      on the claimed job does. */
  datatype Luck = Counted | Unreadable | ClaimRaises | WorkRaises

  /** One sweep over `order`.  A claim succeeds unless a live one is there. */
  function Drain(order: seq<string>, claimed: set<string>, cap: int, done: nat, luck: string -> Luck): (w: Sweep)
    ensures w.pulled <= |order| && (w.broke || w.raised ==> w.pulled > 0)
  {
    if order == [] then Sweep(0, done, claimed, false, false)
    else if done >= cap then Sweep(1, done, claimed, true, false)
    else
      var key := order[0];
      if luck(key).ClaimRaises? then Sweep(1, done, claimed, false, true)
      else if key !in claimed && luck(key).WorkRaises? then Sweep(1, done, claimed + {key}, false, true)
      else
        var rest :=
          if key in claimed then Drain(order[1..], claimed, cap, done, luck)
          else Drain(order[1..], claimed + {key}, cap, done + (if luck(key).Counted? then 1 else 0), luck);
        rest.(pulled := rest.pulled + 1)
  }

  /** The rest of a sweep, one key further. */
  lemma DrainFrom(order: seq<string>, i: nat, claimed: set<string>, cap: int, done: nat, luck: string -> Luck)
    requires i < |order| && done < cap && !luck(order[i]).ClaimRaises?
    requires order[i] in claimed || !luck(order[i]).WorkRaises?
    ensures
      var key := order[i];
      var counted := if key !in claimed && luck(key).Counted? then 1 else 0;
      var rest := Drain(order[i + 1..], if key in claimed then claimed else claimed + {key}, cap, done + counted, luck);
      Drain(order[i..], claimed, cap, done, luck) == rest.(pulled := rest.pulled + 1)
  {
    assert order[i..][1..] == order[i + 1..];
  }

  /** The keys a sweep is offered: at most `bound`, in rotation order. */
  function Offered(keys: seq<string>, cursor: Option<string>, bound: nat): seq<string> {
    Rotated(keys, cursor)[..Min(bound, |keys|)]
  }

  class Node {
    var cursor: Option<string>
    var claimed: set<string>

    constructor ()
      ensures cursor == None && claimed == {}
    {
      cursor := None;
      claimed := {};
    }

    /** The loop of a sweep over the keys it is offered. */
    method Sweep(order: seq<string>, cap: int, luck: string -> Luck) returns (done: nat, raised: bool)
      modifies this
      ensures
        var w := Drain(order, old(claimed), cap, 0, luck);
        && done == w.done && claimed == w.claimed && raised == w.raised
        && cursor == CursorAfter(old(cursor), order[..w.pulled])
    {
      done, raised := 0, false;
      var i := 0;
      ghost var w := Drain(order, claimed, cap, 0, luck);
      assert order[0..] == order;
      while i < |order|
        invariant 0 <= i <= |order| && i <= w.pulled
        invariant cursor == CursorAfter(old(cursor), order[..i])
        invariant Drain(order[i..], claimed, cap, done, luck) == w.(pulled := w.pulled - i)
      {
        var uuid := order[i];
        cursor := Some(uuid);
        assert order[..i + 1] == order[..i] + [uuid];
        if done < cap && !luck(uuid).ClaimRaises? && (uuid in claimed || !luck(uuid).WorkRaises?) {
          DrainFrom(order, i, claimed, cap, done, luck);
        }
        i := i + 1;
        if done >= cap { return; }
        if luck(uuid).ClaimRaises? { return done, true; }
        if uuid in claimed { continue; }
        claimed := claimed + {uuid};
        if luck(uuid).WorkRaises? { return done, true; }
        if luck(uuid).Counted? { done := done + 1; }
      }
    }

    /** One sweep of the pending objects `keys`; returns the number of jobs executed.  The leases on `expired` have run
        out since the last sweep. */
    method RunOnce(keys: seq<string>, bound: nat, cap: int, luck: string -> Luck, expired: set<string>)
        returns (done: nat, raised: bool)
      modifies this
      ensures
        var order := Offered(keys, old(cursor), bound);
        var w := Drain(order, old(claimed) - expired, cap, 0, luck);
        && done == w.done && claimed == w.claimed && raised == w.raised
        && cursor == CursorAfter(old(cursor), order[..w.pulled])
    {
      claimed := claimed - expired;
      done, raised := Sweep(Offered(keys, cursor, bound), cap, luck);
    }
  }

  // ---- Many sweeps of a fixed listing ---------------------------------------------

  datatype Pass = Pass(cursor: Option<string>, claimed: set<string>)

  function SweepOf(keys: seq<string>, s: Pass, bound: nat, cap: nat): Sweep {
    Drain(Offered(keys, s.cursor, bound), s.claimed, cap, 0, _ => Counted)
  }

  function NextPass(keys: seq<string>, s: Pass, bound: nat, cap: nat): Pass {
    var w := SweepOf(keys, s, bound, cap);
    Pass(CursorAfter(s.cursor, Offered(keys, s.cursor, bound)[..w.pulled]), w.claimed)
  }

  function Passes(keys: seq<string>, s: Pass, bound: nat, cap: nat, times: nat): Pass
    decreases times
  {
    if times == 0 then s else Passes(keys, NextPass(keys, s, bound, cap), bound, cap, times - 1)
  }

  function Unclaimed(keys: seq<string>, claimed: set<string>): set<string> {
    set k | k in keys && k !in claimed
  }

  /** The sweep counts what it claims, up to the cap; cut short it has counted the whole cap, and otherwise
      every key it was offered is claimed. */
  lemma {:induction false} DrainCounts(keys: seq<string>, order: seq<string>, claimed: set<string>, cap: nat, done: nat)
    requires done <= cap && forall k :: k in order ==> k in keys
    ensures
      var w := Drain(order, claimed, cap, done, _ => Counted);
      && done <= w.done <= cap && claimed <= w.claimed
      && |Unclaimed(keys, w.claimed)| + (w.done - done) == |Unclaimed(keys, claimed)|
      && (w.broke ==> w.done == cap)
      && (!w.broke ==> w.pulled == |order| && forall k :: k in order ==> k in w.claimed)
  {
    if order != [] && done < cap {
      if order[0] in claimed {
        DrainCounts(keys, order[1..], claimed, cap, done);
      } else {
        var more := claimed + {order[0]};
        assert Unclaimed(keys, claimed) == Unclaimed(keys, more) + {order[0]};
        DrainCounts(keys, order[1..], more, cap, done + 1);
      }
    }
  }

  lemma OfferedAreKeys(keys: seq<string>, cursor: Option<string>, bound: nat)
    ensures forall k :: k in Offered(keys, cursor, bound) ==> k in keys
  {
  }

  lemma SweepCounts(keys: seq<string>, s: Pass, bound: nat, cap: nat)
    ensures
      var w := SweepOf(keys, s, bound, cap);
      && w.done <= cap && s.claimed <= w.claimed
      && |Unclaimed(keys, w.claimed)| + w.done == |Unclaimed(keys, s.claimed)|
      && (w.broke ==> w.done == cap)
      && (!w.broke ==> w.pulled == |Offered(keys, s.cursor, bound)|)
      && (!w.broke ==> forall k :: k in Offered(keys, s.cursor, bound) ==> k in w.claimed)
  {
    OfferedAreKeys(keys, s.cursor, bound);
    DrainCounts(keys, Offered(keys, s.cursor, bound), s.claimed, cap, 0);
  }

  /** Over some sweeps: either one was cut short, and the cap's worth was claimed, or every key they met is claimed. */
  lemma {:induction false} PassesClaim(keys: seq<string>, s: Pass, bound: nat, cap: nat, times: nat)
    ensures
      var s' := Passes(keys, s, bound, cap, times);
      && s.claimed <= s'.claimed
      && |Unclaimed(keys, s'.claimed)| <= |Unclaimed(keys, s.claimed)|
      && (|Unclaimed(keys, s'.claimed)| + cap <= |Unclaimed(keys, s.claimed)|
        || forall k :: k in Sweeps(keys, s.cursor, bound, times) ==> k in s'.claimed)
    decreases times
  {
    if times > 0 {
      SweepCounts(keys, s, bound, cap);
      PassesClaim(keys, NextPass(keys, s, bound, cap), bound, cap, times - 1);
      var order := Offered(keys, s.cursor, bound);
      assert order == Yielded(keys, s.cursor, bound, |keys|);
      assert order[..|order|] == order;
    }
  }

  /** One window of ceil(N / m) sweeps claims everything, or the cap's worth. */
  lemma Window(keys: seq<string>, s: Pass, bound: nat, cap: nat)
    requires Ascending(keys) && 1 <= bound
    ensures
      var s' := Passes(keys, s, bound, cap, CeilDiv(|keys|, bound));
      && s.claimed <= s'.claimed
      && (|Unclaimed(keys, s'.claimed)| + cap <= |Unclaimed(keys, s.claimed)| || Unclaimed(keys, s'.claimed) == {})
  {
    var times := CeilDiv(|keys|, bound);
    PassesClaim(keys, s, bound, cap, times);
    CeilDivCovers(|keys|, bound);
    var s' := Passes(keys, s, bound, cap, times);
    if forall k :: k in Sweeps(keys, s.cursor, bound, times) ==> k in s'.claimed {
      forall k | k in keys ensures k in s'.claimed {
        EveryKeyIsReached(keys, s.cursor, bound, times, k);
      }
    }
  }

  lemma {:induction false} PassesAdd(keys: seq<string>, s: Pass, bound: nat, cap: nat, a: nat, b: nat)
    ensures Passes(keys, s, bound, cap, a + b) == Passes(keys, Passes(keys, s, bound, cap, a), bound, cap, b)
    decreases a
  {
    if a > 0 {
      var next := NextPass(keys, s, bound, cap);
      PassesAdd(keys, next, bound, cap, a - 1, b);
      assert Passes(keys, s, bound, cap, a + b) == Passes(keys, next, bound, cap, a + b - 1);
    }
  }

  /** `n` times `w`, as a sum. */
  function Times(n: nat, w: nat): nat {
    if n == 0 then 0 else Times(n - 1, w) + w
  }

  lemma {:induction false} TimesIsProduct(n: nat, w: nat)
    ensures Times(n, w) == n * w
  {
    if n > 0 {
      TimesIsProduct(n - 1, w);
      assert n * w == (n - 1) * w + w;
    }
  }

  /** After `n` windows of `width` sweeps each. */
  function Windowed(keys: seq<string>, s: Pass, bound: nat, cap: nat, width: nat, n: nat): Pass {
    if n == 0 then s else Passes(keys, Windowed(keys, s, bound, cap, width, n - 1), bound, cap, width)
  }

  lemma WindowAdds(keys: seq<string>, s: Pass, bound: nat, cap: nat, a: nat, width: nat, before: Pass)
    requires before == Passes(keys, s, bound, cap, a)
    ensures Passes(keys, before, bound, cap, width) == Passes(keys, s, bound, cap, a + width)
  {
    PassesAdd(keys, s, bound, cap, a, width);
  }

  lemma {:induction false} WindowedIsPasses(keys: seq<string>, s: Pass, bound: nat, cap: nat, width: nat, n: nat)
    ensures Windowed(keys, s, bound, cap, width, n) == Passes(keys, s, bound, cap, Times(n, width))
  {
    if n > 0 {
      var before, a := Windowed(keys, s, bound, cap, width, n - 1), Times(n - 1, width);
      WindowedIsPasses(keys, s, bound, cap, width, n - 1);
      WindowAdds(keys, s, bound, cap, a, width, before);
    }
  }

  lemma {:induction false} Windows(keys: seq<string>, s: Pass, bound: nat, cap: nat, n: nat)
    requires Ascending(keys) && 1 <= bound
    ensures
      var s' := Windowed(keys, s, bound, cap, CeilDiv(|keys|, bound), n);
      || Unclaimed(keys, s'.claimed) == {}
      || |Unclaimed(keys, s'.claimed)| + Times(n, cap) <= |Unclaimed(keys, s.claimed)|
  {
    if n > 0 {
      Windows(keys, s, bound, cap, n - 1);
      var mid := Windowed(keys, s, bound, cap, CeilDiv(|keys|, bound), n - 1);
      var last := Windowed(keys, s, bound, cap, CeilDiv(|keys|, bound), n);
      Window(keys, mid, bound, cap);
      OneWindowMore(keys, s.claimed, mid.claimed, last.claimed, Times(n - 1, cap), cap);
    }
  }

  lemma OneWindowMore(keys: seq<string>, first: set<string>, mid: set<string>, last: set<string>, sofar: nat, cap: nat)
    requires mid <= last
    requires Unclaimed(keys, mid) == {} || |Unclaimed(keys, mid)| + sofar <= |Unclaimed(keys, first)|
    requires |Unclaimed(keys, last)| + cap <= |Unclaimed(keys, mid)| || Unclaimed(keys, last) == {}
    ensures Unclaimed(keys, last) == {} || |Unclaimed(keys, last)| + (sofar + cap) <= |Unclaimed(keys, first)|
  {
    if Unclaimed(keys, mid) == {} { assert Unclaimed(keys, last) <= Unclaimed(keys, mid); }
  }

  lemma DivisionBound(n: nat, c: nat)
    requires c >= 1
    ensures n < (n / c + 1) * c
  {
    assert n == (n / c) * c + n % c;
  }

  lemma FewUnclaimed(keys: seq<string>, claimed: set<string>)
    ensures |Unclaimed(keys, claimed)| <= |keys|
  {
    var all := set k | k in keys;
    SeqAtLeastSet(keys);
    Subset(Unclaimed(keys, claimed), all);
  }

  lemma {:induction false} SeqAtLeastSet(keys: seq<string>)
    ensures |set k | k in keys| <= |keys|
  {
    if keys != [] {
      SeqAtLeastSet(keys[1..]);
      assert (set k | k in keys) == (set k | k in keys[1..]) + {keys[0]};
    }
  }

  /** More claims than there are keys cannot be. */
  lemma NoRoomForMore(keys: seq<string>, before: set<string>, after: set<string>, more: nat)
    requires |keys| < more
    requires Unclaimed(keys, after) == {} || |Unclaimed(keys, after)| + more <= |Unclaimed(keys, before)|
    ensures forall k :: k in keys ==> k in after
  {
    FewUnclaimed(keys, before);
    NoneUnclaimed(keys, after);
  }

  lemma WindowsLeaveNothing(keys: seq<string>, s: Pass, bound: nat, cap: nat, n: nat)
    requires Ascending(keys) && 1 <= bound && |keys| < Times(n, cap)
    ensures forall k :: k in keys ==> k in Passes(keys, s, bound, cap, Times(n, CeilDiv(|keys|, bound))).claimed
  {
    Windows(keys, s, bound, cap, n);
    NoRoomForMore(keys, s.claimed, Windowed(keys, s, bound, cap, CeilDiv(|keys|, bound), n).claimed, Times(n, cap));
    WindowedIsPasses(keys, s, bound, cap, CeilDiv(|keys|, bound), n);
  }

  lemma NoneUnclaimed(keys: seq<string>, claimed: set<string>)
    requires |Unclaimed(keys, claimed)| == 0
    ensures forall k :: k in keys ==> k in claimed
  {
    forall k | k in keys ensures k in claimed {
      assert k !in Unclaimed(keys, claimed);
    }
  }

  function SweepsNeeded(n: nat, bound: nat, cap: nat): nat
    requires 1 <= bound && 1 <= cap
  {
    (n / cap + 1) * CeilDiv(n, bound)
  }

  /** On a fixed set of N readable jobs, one worker claims every one of them within (N/C + 1) * ceil(N/m)
      sweeps, executing at most C in each, wherever the cursor starts and in spite of the skipped keys. */
  lemma DrainBound(keys: seq<string>, s: Pass, bound: nat, cap: nat)
    requires Ascending(keys) && 1 <= bound && 1 <= cap
    ensures forall k :: k in keys ==> k in Passes(keys, s, bound, cap, SweepsNeeded(|keys|, bound, cap)).claimed
    ensures SweepOf(keys, s, bound, cap).done <= cap
  {
    var n := |keys| / cap + 1;
    DivisionBound(|keys|, cap);
    TimesIsProduct(n, cap);
    TimesIsProduct(n, CeilDiv(|keys|, bound));
    WindowsLeaveNothing(keys, s, bound, cap, n);
    SweepCounts(keys, s, bound, cap);
  }

  // ---- The key a capped sweep drops ---------------------------------------------------

  /** No store call raises. */
  ghost predicate Calm(luck: string -> Luck) {
    forall key :: luck(key).Counted? || luck(key).Unreadable?
  }

  /** How many of these keys a sweep claims and executes. */
  function FreshJobs(order: seq<string>, claimed: set<string>, luck: string -> Luck): nat {
    if order == [] then 0
    else if order[0] in claimed then FreshJobs(order[1..], claimed, luck)
    else (if luck(order[0]).Counted? then 1 else 0) + FreshJobs(order[1..], claimed + {order[0]}, luck)
  }

  function Elements(order: seq<string>): set<string> { set k <- order }

  /** After `n` keys the cap is reached for the first time. */
  ghost predicate CutsAt(order: seq<string>, claimed: set<string>, cap: int, done: nat, luck: string -> Luck,
        n: nat)
  {
    && n < |order| && done + FreshJobs(order[..n], claimed, luck) >= cap
    && forall m :: 0 <= m < n ==> done + FreshJobs(order[..m], claimed, luck) < cap
  }

  /** What the first key adds, and what it leaves to the rest. */
  function Counts(key: string, claimed: set<string>, luck: string -> Luck): nat {
    if key !in claimed && luck(key).Counted? then 1 else 0
  }

  lemma FreshFirst(order: seq<string>, claimed: set<string>, luck: string -> Luck, n: nat)
    requires 1 <= n <= |order|
    ensures FreshJobs(order[..n], claimed, luck)
         == Counts(order[0], claimed, luck) + FreshJobs(order[1..][..n - 1], claimed + {order[0]}, luck)
  {
    assert order[..n][1..] == order[1..][..n - 1];
    if order[0] in claimed { assert claimed + {order[0]} == claimed; }
  }

  lemma CutsLater(order: seq<string>, claimed: set<string>, cap: int, done: nat, luck: string -> Luck, n: nat)
    requires 1 <= n && done < cap
    requires order != []
    requires CutsAt(order[1..], claimed + {order[0]}, cap, done + Counts(order[0], claimed, luck), luck, n - 1)
    ensures CutsAt(order, claimed, cap, done, luck, n)
  {
    assert order[..0] == [];
    FreshFirst(order, claimed, luck, n);
    forall m | 0 <= m < n ensures done + FreshJobs(order[..m], claimed, luck) < cap {
      if m > 0 { FreshFirst(order, claimed, luck, m); }
    }
  }

  lemma {:induction false} CutShort(order: seq<string>, claimed: set<string>, cap: int, done: nat,
        luck: string -> Luck)
    requires Calm(luck)
    ensures Drain(order, claimed, cap, done, luck).broke
       <==> order != [] && done + FreshJobs(order[..|order| - 1], claimed, luck) >= cap
    decreases |order|
  {
    if order != [] && done < cap {
      if order[0] in claimed { assert claimed + {order[0]} == claimed; }
      CutShort(order[1..], claimed + {order[0]}, cap, done + Counts(order[0], claimed, luck), luck);
      if |order| > 1 { FreshFirst(order, claimed, luck, |order| - 1); } else { assert order[..0] == []; }
    }
  }

  /** One key into a sweep without faults. */
  lemma DrainFirst(order: seq<string>, claimed: set<string>, cap: int, done: nat, luck: string -> Luck)
    requires Calm(luck) && order != [] && done < cap
    ensures
      var rest := Drain(order[1..], claimed + {order[0]}, cap, done + Counts(order[0], claimed, luck), luck);
      Drain(order, claimed, cap, done, luck) == rest.(pulled := rest.pulled + 1)
  {
    if order[0] in claimed { assert claimed + {order[0]} == claimed; }
  }

  lemma {:induction false} WhereCut(order: seq<string>, claimed: set<string>, cap: int, done: nat,
        luck: string -> Luck)
    requires Calm(luck) && Drain(order, claimed, cap, done, luck).broke
    ensures CutsAt(order, claimed, cap, done, luck, Drain(order, claimed, cap, done, luck).pulled - 1)
    decreases |order|
  {
    assert order[..0] == [];
    if done < cap {
      var more := done + Counts(order[0], claimed, luck);
      DrainFirst(order, claimed, cap, done, luck);
      WhereCut(order[1..], claimed + {order[0]}, cap, more, luck);
      CutsLater(order, claimed, cap, done, luck, Drain(order, claimed, cap, done, luck).pulled - 1);
    }
  }

  /** Before the cut every key it pulled is claimed. */
  lemma {:induction false} ClaimedBeforeCut(order: seq<string>, claimed: set<string>, cap: int, done: nat,
        luck: string -> Luck)
    requires Calm(luck) && Drain(order, claimed, cap, done, luck).broke
    ensures
      var w := Drain(order, claimed, cap, done, luck);
      w.claimed == claimed + Elements(order[..w.pulled - 1])
    decreases |order|
  {
    assert order[..0] == [];
    if done < cap {
      DrainFirst(order, claimed, cap, done, luck);
      ClaimedBeforeCut(order[1..], claimed + {order[0]}, cap, done + Counts(order[0], claimed, luck), luck);
      ElementsFirst(order, Drain(order, claimed, cap, done, luck).pulled - 1);
    }
  }

  lemma ElementsFirst(order: seq<string>, n: nat)
    requires 1 <= n <= |order|
    ensures Elements(order[..n]) == {order[0]} + Elements(order[1..][..n - 1])
  {
    assert order[..n] == [order[0]] + order[1..][..n - 1];
  }

  /** A sweep is cut short exactly when the keys before the last one it was offered have the cap's worth of fresh
      jobs.  It then drops the key after the cap-th: the cursor is on it, and it was neither claimed nor executed, so
      it is a job lost to this pass exactly if it was unclaimed before. */
  lemma CappedSweepDrops(keys: seq<string>, s: Pass, bound: nat, cap: nat)
    requires Ascending(keys)
    ensures
      var order, w, s' := Offered(keys, s.cursor, bound), SweepOf(keys, s, bound, cap), NextPass(keys, s, bound, cap);
      && (w.broke <==> order != [] && FreshJobs(order[..|order| - 1], s.claimed, _ => Counted) >= cap)
      && (w.broke ==>
          var dropped := order[w.pulled - 1];
          && CutsAt(order, s.claimed, cap, 0, _ => Counted, w.pulled - 1)
          && s'.cursor == Some(dropped) && (dropped in s'.claimed <==> dropped in s.claimed))
  {
    var order, w := Offered(keys, s.cursor, bound), SweepOf(keys, s, bound, cap);
    CutShort(order, s.claimed, cap, 0, _ => Counted);
    SweepHasNoRepeats(keys, s.cursor, bound, |keys|);
    assert order == Yielded(keys, s.cursor, bound, |keys|);
    if w.broke {
      WhereCut(order, s.claimed, cap, 0, _ => Counted);
      ClaimedBeforeCut(order, s.claimed, cap, 0, _ => Counted);
      assert order[..w.pulled][w.pulled - 1] == order[w.pulled - 1];
      assert order[w.pulled - 1] !in order[..w.pulled - 1];
    }
  }

  // ---- What a sweep is, whatever goes wrong ---------------------------------------------

  /** A sweep comes as far as `n` keys: at each of them the cap was not yet reached, no claim raised, and neither did
      the work on a job that it claimed. */
  ghost predicate ComesTo(order: seq<string>, claimed: set<string>, cap: int, done: nat, luck: string -> Luck, n: nat) {
    && n <= |order|
    && forall j :: 0 <= j < n ==>
         && done + FreshJobs(order[..j], claimed, luck) < cap
         && !luck(order[j]).ClaimRaises?
         && (luck(order[j]).WorkRaises? ==> order[j] in claimed + Elements(order[..j]))
  }

  lemma ComesOneFurther(order: seq<string>, claimed: set<string>, cap: int, done: nat, luck: string -> Luck, n: nat)
    requires 1 <= n <= |order| && done < cap && !luck(order[0]).ClaimRaises?
    requires luck(order[0]).WorkRaises? ==> order[0] in claimed
    requires ComesTo(order[1..], claimed + {order[0]}, cap, done + Counts(order[0], claimed, luck), luck, n - 1)
    ensures ComesTo(order, claimed, cap, done, luck, n)
  {
    forall j | 0 <= j < n
      ensures done + FreshJobs(order[..j], claimed, luck) < cap && !luck(order[j]).ClaimRaises?
        && (luck(order[j]).WorkRaises? ==> order[j] in claimed + Elements(order[..j]))
    {
      if j == 0 {
        assert order[..0] == [];
      } else {
        FreshFirst(order, claimed, luck, j);
        ElementsFirst(order, j);
        assert order[1..][j - 1] == order[j];
      }
    }
  }

  /** How a sweep ends that has dealt with `n` keys: it has come to the end of its keys, or it was cut before the next
      because the cap is reached, or the claim of the next raises, or the work on it does, once it is claimed. */
  ghost predicate EndsAt(order: seq<string>, claimed: set<string>, cap: int, done: nat, luck: string -> Luck, n: nat,
        w: Sweep)
  {
    && n <= |order| && w.done == done + FreshJobs(order[..n], claimed, luck)
    && var before := claimed + Elements(order[..n]);
    || (n == |order| && w == Sweep(n, w.done, before, false, false))
    || (n < |order| && w.done >= cap && w == Sweep(n + 1, w.done, before, true, false))
    || (n < |order| && w.done < cap && luck(order[n]).ClaimRaises? && w == Sweep(n + 1, w.done, before, false, true))
    || (n < |order| && w.done < cap && luck(order[n]).WorkRaises? && order[n] !in before
        && w == Sweep(n + 1, w.done, before + {order[n]}, false, true))
  }

  lemma EndsAtOnce(order: seq<string>, claimed: set<string>, cap: int, done: nat, luck: string -> Luck)
    requires order == [] || done >= cap || luck(order[0]).ClaimRaises?
      || (luck(order[0]).WorkRaises? && order[0] !in claimed)
    ensures EndsAt(order, claimed, cap, done, luck, 0, Drain(order, claimed, cap, done, luck))
  {
    assert order[..0] == [] && claimed + Elements([]) == claimed;
  }

  lemma EndsOneLater(order: seq<string>, claimed: set<string>, cap: int, done: nat, luck: string -> Luck, n: nat,
        w: Sweep)
    requires 1 <= n <= |order| && w.pulled >= 1
    requires EndsAt(order[1..], claimed + {order[0]}, cap, done + Counts(order[0], claimed, luck), luck, n - 1,
                    w.(pulled := w.pulled - 1))
    ensures EndsAt(order, claimed, cap, done, luck, n, w)
  {
    FreshFirst(order, claimed, luck, n);
    ElementsFirst(order, n);
    assert claimed + Elements(order[..n]) == claimed + {order[0]} + Elements(order[1..][..n - 1]);
    if n < |order| { assert order[1..][n - 1] == order[n]; }
  }

  lemma DrainFirstCalm(order: seq<string>, claimed: set<string>, cap: int, done: nat, luck: string -> Luck)
    requires order != [] && done < cap && !luck(order[0]).ClaimRaises?
    requires luck(order[0]).WorkRaises? ==> order[0] in claimed
    ensures
      var rest := Drain(order[1..], claimed + {order[0]}, cap, done + Counts(order[0], claimed, luck), luck);
      Drain(order, claimed, cap, done, luck) == rest.(pulled := rest.pulled + 1)
  {
    if order[0] in claimed { assert claimed + {order[0]} == claimed; }
  }

  /** So every sweep deals with a first stretch of its keys: all of them are claimed afterwards, it counts the ones
      newly claimed and executed, and it stops there for one of four reasons. */
  lemma {:induction false} SweepStopsForAReason(order: seq<string>, claimed: set<string>, cap: int, done: nat,
        luck: string -> Luck) returns (n: nat)
    ensures ComesTo(order, claimed, cap, done, luck, n)
    ensures EndsAt(order, claimed, cap, done, luck, n, Drain(order, claimed, cap, done, luck))
    decreases |order|
  {
    if order == [] || done >= cap || luck(order[0]).ClaimRaises?
      || (luck(order[0]).WorkRaises? && order[0] !in claimed)
    {
      n := 0;
      EndsAtOnce(order, claimed, cap, done, luck);
    } else {
      var more, count := claimed + {order[0]}, done + Counts(order[0], claimed, luck);
      DrainFirstCalm(order, claimed, cap, done, luck);
      n := SweepStopsForAReason(order[1..], more, cap, count, luck);
      n := n + 1;
      ComesOneFurther(order, claimed, cap, done, luck, n);
      EndsOneLater(order, claimed, cap, done, luck, n, Drain(order, claimed, cap, done, luck));
    }
  }

  /** The skipped key is a real one: with a cap of one and the bound of two, the first sweep over a, b, c
      executes a, pulls b and drops it, and the second starts at c. */
  lemma CappedSweepSkips()
    ensures
      var keys := ["a", "b", "c"];
      var s1 := NextPass(keys, Pass(None, {}), 2, 1);
      s1 == Pass(Some("b"), {"a"}) && NextPass(keys, s1, 2, 1).claimed == {"a", "c"}
  {
    var keys := ["a", "b", "c"];
    assert Rotated(keys, None) == keys;
    assert Offered(keys, None, 2) == ["a", "b"];
    assert ["a", "b"][1..] == ["b"];
    var w := SweepOf(keys, Pass(None, {}), 2, 1);
    assert w == Sweep(2, 1, {"a"}, true, false);
    var s1 := NextPass(keys, Pass(None, {}), 2, 1);
    assert Less("a", "b") && Less("b", "c") && !Less("b", "a") && !Less("b", "b");
    assert keys[1..] == ["b", "c"] && ["b", "c"][1..] == ["c"];
    assert Position(keys, Some("b")) == 2;
    assert Rotated(keys, Some("b")) == ["c", "a", "b"];
    assert Offered(keys, Some("b"), 2) == ["c", "a"];
    assert ["c", "a"][1..] == ["a"];
  }
}
