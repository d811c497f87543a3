/**
 * The rotating, bounded scan of one prefix.  A sweep starts after the key at
 * which the one before stopped, wraps around once, and stops at its bound.
 */
module Scan {
  import opened Options

  // ---- Lexical order of keys -----------------------------------------------

  predicate Less(a: string, b: string) {
    b != [] && (a == [] || a[0] < b[0] || (a[0] == b[0] && Less(a[1..], b[1..])))
  }

  lemma {:induction false} LessTransitive(a: string, b: string, c: string)
    requires Less(a, b) && Less(b, c)
    ensures Less(a, c)
  {
    if a != [] && a[0] == b[0] && b[0] == c[0] { LessTransitive(a[1..], b[1..], c[1..]); }
  }

  lemma {:induction false} LessIrreflexive(a: string)
    ensures !Less(a, a)
  {
    if a != [] { LessIrreflexive(a[1..]); }
  }

  lemma {:induction false} LessTotal(a: string, b: string)
    ensures a == b || Less(a, b) || Less(b, a)
  {
    if a != [] && b != [] && a[0] == b[0] {
      LessTotal(a[1..], b[1..]);
      if a[1..] == b[1..] {
        assert a == [a[0]] + a[1..] && b == [b[0]] + b[1..];
      }
    }
  }

  /** The order is that of the first difference; a text that only ends earlier comes first. */
  lemma {:induction false} LessIsFirstDifference(a: string, b: string)
    ensures Less(a, b) <==>
      a < b || exists k :: 0 <= k < |a| && k < |b| && a[..k] == b[..k] && a[k] < b[k]
  {
    if a != [] && b != [] {
      if a[0] < b[0] { assert a[..0] == b[..0]; }
      if a[0] == b[0] {
        LessIsFirstDifference(a[1..], b[1..]);
        FirstDifferenceInTail(a, b);
      }
    }
  }

  lemma FirstDifferenceInTail(a: string, b: string)
    requires a != [] && b != [] && a[0] == b[0]
    ensures a < b <==> a[1..] < b[1..]
    ensures (exists k :: 0 <= k < |a| && k < |b| && a[..k] == b[..k] && a[k] < b[k]) <==>
      exists k :: 0 <= k < |a[1..]| && k < |b[1..]| && a[1..][..k] == b[1..][..k] && a[1..][k] < b[1..][k]
  {
    assert a == [a[0]] + a[1..] && b == [b[0]] + b[1..];
    forall k | 0 < k < |a| && k < |b| ensures a[..k] == b[..k] <==> a[1..][..k - 1] == b[1..][..k - 1] {
      assert a[..k] == [a[0]] + a[1..][..k - 1] && b[..k] == [b[0]] + b[1..][..k - 1];
    }
    if k :| 0 <= k < |a| && k < |b| && a[..k] == b[..k] && a[k] < b[k] {
      assert a[1..][k - 1] < b[1..][k - 1];
    }
    if k :| 0 <= k < |a[1..]| && k < |b[1..]| && a[1..][..k] == b[1..][..k] && a[1..][k] < b[1..][k] {
      assert a[k + 1] < b[k + 1];
    }
  }

  /** A listing: strictly ascending, so without repeats. */
  ghost predicate Ascending(keys: seq<string>) {
    forall i, j :: 0 <= i < j < |keys| ==> Less(keys[i], keys[j])
  }

  lemma NoRepeats(keys: seq<string>)
    requires Ascending(keys)
    ensures forall i, j :: 0 <= i < j < |keys| ==> keys[i] != keys[j]
  {
    forall i, j | 0 <= i < j < |keys| ensures keys[i] != keys[j] {
      LessIrreflexive(keys[i]);
    }
  }

  // ---- Where a cursor stands in a listing --------------------------------------

  /** How many keys of the listing are at or before the cursor. */
  function Position(keys: seq<string>, cursor: Option<string>): (p: nat)
    ensures p <= |keys|
  {
    if keys == [] || cursor.None? || Less(cursor.value, keys[0]) then 0
    else 1 + Position(keys[1..], cursor)
  }

  /** The listing is cut there: every key before is at or before the cursor, every key after is after it. */
  lemma {:induction false} PositionSplits(keys: seq<string>, cursor: string)
    requires Ascending(keys)
    ensures forall i :: 0 <= i < Position(keys, Some(cursor)) ==> !Less(cursor, keys[i])
    ensures forall i :: Position(keys, Some(cursor)) <= i < |keys| ==> Less(cursor, keys[i])
  {
    if keys != [] {
      if Less(cursor, keys[0]) {
        forall i | 0 <= i < |keys| ensures Less(cursor, keys[i]) {
          if i > 0 { LessTransitive(cursor, keys[0], keys[i]); }
        }
      } else {
        PositionSplits(keys[1..], cursor);
        assert forall i :: 1 <= i < |keys| ==> keys[i] == keys[1..][i - 1];
      }
    }
  }

  lemma PositionOfKey(keys: seq<string>, i: nat)
    requires Ascending(keys) && i < |keys|
    ensures Position(keys, Some(keys[i])) == i + 1
  {
    PositionSplits(keys, keys[i]);
    LessIrreflexive(keys[i]);
    var p := Position(keys, Some(keys[i]));
    assert i < p;
    assert i + 1 < |keys| ==> Less(keys[i], keys[i + 1]);
  }

  // ---- The cyclic enumeration -----------------------------------------------------

  function Step(n: nat, p: nat): (q: nat)
    requires p < n
    ensures q < n
  {
    if p + 1 == n then 0 else p + 1
  }

  function Advance(n: nat, p: nat, k: nat): (q: nat)
    requires p < n
    ensures q < n
    decreases k
  {
    if k == 0 then p else Advance(n, Step(n, p), k - 1)
  }

  /** `k` keys of the endless cyclic enumeration, from position `p` on. */
  function Cycle<T>(keys: seq<T>, p: nat, k: nat): (c: seq<T>)
    requires p < |keys|
    ensures |c| == k
    decreases k
  {
    if k == 0 then [] else [keys[p]] + Cycle(keys, Step(|keys|, p), k - 1)
  }

  lemma {:induction false} CycleConcat<T>(keys: seq<T>, p: nat, a: nat, b: nat)
    requires p < |keys|
    ensures Cycle(keys, p, a + b) == Cycle(keys, p, a) + Cycle(keys, Advance(|keys|, p, a), b)
    ensures Advance(|keys|, p, a + b) == Advance(|keys|, Advance(|keys|, p, a), b)
    decreases a
  {
    if a > 0 { CycleConcat(keys, Step(|keys|, p), a - 1, b); }
  }

  /** Not past the end, the enumeration is the listing itself. */
  lemma {:induction false} CycleStraight<T>(keys: seq<T>, p: nat, k: nat)
    requires p + k <= |keys| && p < |keys|
    ensures Cycle(keys, p, k) == keys[p..p + k]
    ensures Advance(|keys|, p, k) == if p + k == |keys| then 0 else p + k
    decreases k
  {
    if k > 0 {
      if p + 1 < |keys| { CycleStraight(keys, p + 1, k - 1); }
      var all := keys[p..p + k];
      assert all[0] == keys[p] && all[1..] == keys[p + 1..p + k];
      assert all == [all[0]] + all[1..];
    }
  }

  lemma Slices<T>(keys: seq<T>, p: nat)
    requires p <= |keys|
    ensures keys[p..|keys|] == keys[p..] && keys[0..p] == keys[..p]
    ensures p == |keys| ==> keys[p..] == [] && keys[..p] == keys
    ensures p == 0 ==> keys[p..] == keys && keys[..p] == []
  {
  }

  /** One whole turn is the listing from `p`, then its beginning. */
  lemma CycleTurn<T>(keys: seq<T>, p: nat, n: nat)
    requires p < |keys| == n
    ensures Cycle(keys, p, n) == keys[p..] + keys[..p]
    ensures Advance(n, p, n) == p
  {
    CycleConcat(keys, p, n - p, p);
    CycleStraight(keys, p, n - p);
    CycleStraight(keys, 0, p);
    Slices(keys, p);
    assert (n - p) + p == n;
  }

  // ---- One sweep ------------------------------------------------------------------

  function Min(a: nat, b: nat): nat { if a <= b then a else b }

  /** All keys in the order a sweep meets them: those after the cursor, then those up to it. */
  function Rotated(keys: seq<string>, cursor: Option<string>): (r: seq<string>)
    ensures |r| == |keys|
  {
    var p := Position(keys, cursor);
    keys[p..] + keys[..p]
  }

  /** What a sweep yields that is consumed up to `take` keys, with bound `bound`. */
  function Yielded(keys: seq<string>, cursor: Option<string>, bound: nat, take: nat): seq<string> {
    Rotated(keys, cursor)[..Min(Min(bound, take), |keys|)]
  }

  function CursorAfter(cursor: Option<string>, yielded: seq<string>): Option<string> {
    if yielded == [] then cursor else Some(yielded[|yielded| - 1])
  }

  /** The position a sweep starts from, as an index of the listing. */
  function StartOf(keys: seq<string>, cursor: Option<string>): (p: nat)
    requires keys != []
    ensures p < |keys|
  {
    var p := Position(keys, cursor);
    if p == |keys| then 0 else p
  }

  lemma RotatedIsTurn(keys: seq<string>, cursor: Option<string>)
    requires keys != []
    ensures Rotated(keys, cursor) == Cycle(keys, StartOf(keys, cursor), |keys|)
  {
    var p := Position(keys, cursor);
    if p == |keys| {
      CycleTurn(keys, 0, |keys|);
      Slices(keys, 0);
      Slices(keys, p);
    } else {
      CycleTurn(keys, p, |keys|);
    }
  }

  /** The enumeration's beginning does not depend on how far one goes. */
  lemma CyclePrefix<T>(keys: seq<T>, p: nat, k: nat, n: nat)
    requires p < |keys| && k <= n
    ensures Cycle(keys, p, n)[..k] == Cycle(keys, p, k)
  {
    CycleConcat(keys, p, k, n - k);
    assert k + (n - k) == n;
  }

  /** After `k` keys of the enumeration the last one yielded marks where it goes on. */
  lemma LastOfCycle(keys: seq<string>, p: nat, k: nat)
    requires Ascending(keys) && p < |keys| && k >= 1
    ensures StartOf(keys, Some(Cycle(keys, p, k)[k - 1])) == Advance(|keys|, p, k)
  {
    CycleConcat(keys, p, k - 1, 1);
    var last := Advance(|keys|, p, k - 1);
    assert Cycle(keys, last, 1) == [keys[last]];
    assert Cycle(keys, p, k)[k - 1] == keys[last];
    PositionOfKey(keys, last);
  }

  /** A sweep yields the next min(bound, take, N) keys of the cyclic enumeration and leaves the cursor so
      that the next sweep goes on exactly there. */
  lemma SweepIsCycle(keys: seq<string>, cursor: Option<string>, bound: nat, take: nat)
    requires Ascending(keys) && keys != []
    ensures
      var k := Min(Min(bound, take), |keys|);
      var p := StartOf(keys, cursor);
      var y := Yielded(keys, cursor, bound, take);
      y == Cycle(keys, p, k) && StartOf(keys, CursorAfter(cursor, y)) == Advance(|keys|, p, k)
  {
    var n, k, p := |keys|, Min(Min(bound, take), |keys|), StartOf(keys, cursor);
    RotatedIsTurn(keys, cursor);
    CyclePrefix(keys, p, k, n);
    CursorGoesOn(keys, cursor, k);
  }

  lemma CursorGoesOn(keys: seq<string>, cursor: Option<string>, k: nat)
    requires Ascending(keys) && keys != []
    ensures var p := StartOf(keys, cursor);
      StartOf(keys, CursorAfter(cursor, Cycle(keys, p, k))) == Advance(|keys|, p, k)
  {
    if k > 0 { LastOfCycle(keys, StartOf(keys, cursor), k); }
  }

  /** No key twice in one sweep. */
  lemma SweepHasNoRepeats(keys: seq<string>, cursor: Option<string>, bound: nat, take: nat)
    requires Ascending(keys)
    ensures
      var y := Yielded(keys, cursor, bound, take);
      forall i, j :: 0 <= i < j < |y| ==> y[i] != y[j]
  {
    NoRepeats(keys);
    var p := Position(keys, cursor);
    var y := Yielded(keys, cursor, bound, take);
    forall i, j | 0 <= i < j < |y| ensures y[i] != y[j] {
      assert y[i] == keys[if i < |keys| - p then p + i else i - (|keys| - p)];
      assert y[j] == keys[if j < |keys| - p then p + j else j - (|keys| - p)];
    }
  }

  // ---- Many sweeps of a fixed listing ------------------------------------------------

  function Sweeps(keys: seq<string>, cursor: Option<string>, bound: nat, times: nat): seq<string>
    decreases times
  {
    if times == 0 then []
    else
      var y := Yielded(keys, cursor, bound, |keys|);
      y + Sweeps(keys, CursorAfter(cursor, y), bound, times - 1)
  }

  /** Fully consumed sweeps concatenate to the cyclic enumeration. */
  lemma {:induction false} SweepsAreCycle(keys: seq<string>, cursor: Option<string>, bound: nat, times: nat)
    requires Ascending(keys) && keys != []
    ensures Sweeps(keys, cursor, bound, times) == Cycle(keys, StartOf(keys, cursor), times * Min(bound, |keys|))
    decreases times
  {
    var k := Min(bound, |keys|);
    if times > 0 {
      var y := Yielded(keys, cursor, bound, |keys|);
      SweepIsCycle(keys, cursor, bound, |keys|);
      SweepsAreCycle(keys, CursorAfter(cursor, y), bound, times - 1);
      OneMoreTime(times, k);
      CycleConcat(keys, StartOf(keys, cursor), k, (times - 1) * k);
    }
  }

  lemma OneMoreTime(times: nat, k: nat)
    requires times > 0
    ensures 0 <= (times - 1) * k && times * k == k + (times - 1) * k
  {
  }

  lemma TurnHasEveryKey(keys: seq<string>, p: nat, key: string)
    requires p < |keys| && key in keys
    ensures key in Cycle(keys, p, |keys|)
  {
    CycleTurn(keys, p, |keys|);
    assert keys == keys[..p] + keys[p..];
  }

  /** Every key appears within any `times` sweeps with times * bound >= N, so within ceil(N / bound). */
  lemma EveryKeyIsReached(keys: seq<string>, cursor: Option<string>, bound: nat, times: nat, key: string)
    requires Ascending(keys) && key in keys && 1 <= bound && |keys| <= times * bound
    ensures key in Sweeps(keys, cursor, bound, times)
  {
    var n, p := |keys|, StartOf(keys, cursor);
    SweepsAreCycle(keys, cursor, bound, times);
    assert n <= times * Min(bound, n) by {
      if n < bound { assert times != 0; TimesAtLeast(times, n); }
    }
    CycleConcat(keys, p, n, times * Min(bound, n) - n);
    TurnHasEveryKey(keys, p, key);
  }

  lemma TimesAtLeast(times: nat, n: nat)
    requires times >= 1
    ensures n <= times * n
  {
  }

  function CeilDiv(n: nat, m: nat): nat
    requires m >= 1
  {
    (n + m - 1) / m
  }

  lemma CeilDivCovers(n: nat, m: nat)
    requires m >= 1
    ensures n <= CeilDiv(n, m) * m
  {
    var q := (n + m - 1) / m;
    assert n + m - 1 == q * m + (n + m - 1) % m;
  }

  // ---- A different listing in every sweep ----------------------------------------------

  /** Going up from `from` with wrap-around, `key` comes no later than `to`. */
  predicate Passed(from: Option<string>, key: string, to: string) {
    if from.None? then !Less(to, key)
    else if Less(from.value, to) then Less(from.value, key) && !Less(to, key)
    else Less(from.value, key) || !Less(to, key)
  }

  /** Whatever the listing is this time, the cursor moves past no key of it without yielding it. */
  lemma NothingIsSkipped(keys: seq<string>, cursor: Option<string>, bound: nat, take: nat, key: string)
    requires Ascending(keys) && key in keys
    requires
      var y := Yielded(keys, cursor, bound, take);
      y != [] && Passed(cursor, key, y[|y| - 1])
    ensures key in Yielded(keys, cursor, bound, take)
  {
    var y, n, p := Yielded(keys, cursor, bound, take), |keys|, Position(keys, cursor);
    var k := |y|;
    var i :| 0 <= i < n && keys[i] == key;
    var last := if k <= n - p then p + k - 1 else k - 1 - (n - p);
    assert y[k - 1] == keys[last];
    if cursor.Some? { PositionSplits(keys, cursor.value); }
    LessIrreflexive(keys[last]);
    OrderIsIndex(keys, last, i);
    // The index of the key in the rotation is among the first k.
    var at := if i >= p then i - p else n - p + i;
    LastInRotation(keys, cursor, last);
    assert at < k;
    assert y[at] == key;
  }

  lemma OrderIsIndex(keys: seq<string>, i: nat, j: nat)
    requires Ascending(keys) && i < |keys| && j < |keys|
    ensures Less(keys[i], keys[j]) <==> i < j
  {
    LessIrreflexive(keys[i]);
    if j < i && Less(keys[i], keys[j]) { LessTransitive(keys[i], keys[j], keys[i]); }
  }

  lemma LastInRotation(keys: seq<string>, cursor: Option<string>, last: nat)
    requires Ascending(keys) && last < |keys|
    ensures cursor.Some? ==> (Less(cursor.value, keys[last]) <==> Position(keys, cursor) <= last)
  {
    if cursor.Some? { PositionSplits(keys, cursor.value); }
  }
}
