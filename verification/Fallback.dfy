/** The chain of model backends: a backend that failed once is not tried again for the same job. */
module Fallback {
  import opened Options
  import opened Dicts

  /** One call: the chain position that served it if one did, the positions tried, and the names failed afterwards. */
  datatype Call = Call(used: Option<nat>, tried: seq<nat>, failed: set<string>)

  /** The call from position `i` on; `up` says which backends answer during this call. */
  function Serve(chain: seq<string>, failed: set<string>, up: nat -> bool, i: nat): Call
    requires i <= |chain|
    decreases |chain| - i
  {
    if i == |chain| then Call(None, [], failed)
    else if chain[i] in failed then Serve(chain, failed, up, i + 1)
    else if up(i) then Call(Some(i), [i], failed)
    else
      var rest := Serve(chain, failed + {chain[i]}, up, i + 1);
      rest.(tried := [i] + rest.tried)
  }

  class FallbackExecutor {
    const chain: seq<string>
    var failed: set<string>

    constructor (chain: seq<string>)
      ensures this.chain == chain && failed == {}
    {
      this.chain := chain;
      failed := {};
    }

    method BeginJob()
      modifies this
      ensures failed == {}
    {
      failed := {};
    }

    method EndJob()
      modifies this
      ensures failed == {}
    {
      failed := {};
    }

    /** Some position served the call, or None: all executors failed. */
    method Complete(up: nat -> bool) returns (used: Option<nat>, ghost tried: seq<nat>)
      modifies this
      ensures Call(used, tried, failed) == Serve(chain, old(failed), up, 0)
    {
      tried := [];
      ghost var all := Serve(chain, failed, up, 0);
      for i := 0 to |chain|
        invariant all == var rest := Serve(chain, failed, up, i); rest.(tried := tried + rest.tried)
      {
        if chain[i] in failed { continue; }
        tried := tried + [i];
        if up(i) { return Some(i), tried; }
        failed := failed + {chain[i]};
      }
      used := None;
    }
  }

  // ---- One call ---------------------------------------------------------------------

  /** `k` is the first position from `i` on whose name has not failed. */
  ghost predicate FirstLive(chain: seq<string>, failed: set<string>, i: nat, k: nat) {
    i <= k < |chain| && chain[k] !in failed && forall j :: i <= j < k ==> chain[j] in failed
  }

  /** A call is served by position `k` exactly when `k` is the first whose name has not failed by the end of the
      call, and fails exactly when every name has. */
  lemma {:induction false} ServesFirstNotFailed(chain: seq<string>, failed: set<string>, up: nat -> bool, i: nat)
    requires i <= |chain|
    ensures
      var c := Serve(chain, failed, up, i);
      && failed <= c.failed
      && (forall k: nat :: c.used == Some(k) <==> FirstLive(chain, c.failed, i, k))
      && (c.used.Some? ==> up(c.used.value))
      && (c.used == None <==> forall j :: i <= j < |chain| ==> chain[j] in c.failed)
      && (forall name :: name in c.failed && name !in failed ==>
          exists k: nat :: i <= k < |chain| && chain[k] == name && !up(k) && k in c.tried)
    decreases |chain| - i
  {
    if i < |chain| && !(chain[i] !in failed && up(i)) {
      var more := if chain[i] in failed then failed else failed + {chain[i]};
      ServesFirstNotFailed(chain, more, up, i + 1);
      LaterLive(chain, Serve(chain, more, up, i + 1).failed, i, i + 1);
    }
  }

  /** Only backends that had not failed are tried, in the order of the chain and each once; the last of them serves
      if it answers, and the others did not answer. */
  lemma {:induction false} TriesGoDownTheChain(chain: seq<string>, failed: set<string>, up: nat -> bool, i: nat)
    requires i <= |chain|
    ensures
      var c := Serve(chain, failed, up, i);
      && (forall n :: 0 <= n < |c.tried| ==> i <= c.tried[n] < |chain| && chain[c.tried[n]] !in failed)
      && (forall m, n :: 0 <= m < n < |c.tried| ==> c.tried[m] < c.tried[n])
      && (forall n :: 0 <= n < |c.tried| ==>
            if up(c.tried[n]) then n == |c.tried| - 1 && c.used == Some(c.tried[n]) else c.used != Some(c.tried[n]))
    decreases |chain| - i
  {
    if i < |chain| && !(chain[i] !in failed && up(i)) {
      var more := if chain[i] in failed then failed else failed + {chain[i]};
      TriesGoDownTheChain(chain, more, up, i + 1);
      ServesFirstNotFailed(chain, more, up, i + 1);
      var rest := Serve(chain, more, up, i + 1);
      var c := Serve(chain, failed, up, i);
      assert c.tried == if chain[i] in failed then rest.tried else [i] + rest.tried;
    }
  }

  lemma LaterLive(chain: seq<string>, failed: set<string>, i: nat, next: nat)
    requires i < |chain| && chain[i] in failed && next == i + 1
    ensures forall k :: FirstLive(chain, failed, i, k) <==> FirstLive(chain, failed, next, k)
  {
  }

  /** The names a call adds to the failed ones are names of the chain, one for each try that did not serve it. */
  lemma {:induction false} TriesAreServedPlusFailed(chain: seq<string>, failed: set<string>, up: nat -> bool, i: nat)
    requires i <= |chain|
    ensures
      var c := Serve(chain, failed, up, i);
      && failed <= c.failed && c.failed - failed <= Names(chain)
      && |c.tried| == |c.failed - failed| + if c.used.Some? then 1 else 0
    decreases |chain| - i
  {
    var c := Serve(chain, failed, up, i);
    if i < |chain| && chain[i] in failed {
      TriesAreServedPlusFailed(chain, failed, up, i + 1);
    } else if i < |chain| && !up(i) {
      var more := failed + {chain[i]};
      TriesAreServedPlusFailed(chain, more, up, i + 1);
      assert c.failed - failed == (c.failed - more) + {chain[i]};
    } else {
      assert c.failed - failed == {};
    }
  }

  // ---- A whole job ---------------------------------------------------------------------

  /** The calls of one job, in order, each with its own weather. */
  function Calls(chain: seq<string>, failed: set<string>, weather: seq<nat -> bool>): seq<Call>
    decreases |weather|
  {
    if weather == [] then []
    else
      var c := Serve(chain, failed, weather[0], 0);
      [c] + Calls(chain, c.failed, weather[1..])
  }

  function FailedAfter(chain: seq<string>, failed: set<string>, weather: seq<nat -> bool>): set<string>
    decreases |weather|
  {
    if weather == [] then failed else FailedAfter(chain, Serve(chain, failed, weather[0], 0).failed, weather[1..])
  }

  function Attempts(calls: seq<Call>): nat {
    if calls == [] then 0 else |calls[0].tried| + Attempts(calls[1..])
  }

  function Served(calls: seq<Call>): nat {
    if calls == [] then 0 else (if calls[0].used.Some? then 1 else 0) + Served(calls[1..])
  }

  function NameAt(chain: seq<string>, k: nat): string {
    if k < |chain| then chain[k] else ""
  }

  /** The names of one call's tries that failed, in order. */
  function FailuresOf(chain: seq<string>, tried: seq<nat>, used: Option<nat>): seq<string> {
    if tried == [] then []
    else (if used == Some(tried[0]) then [] else [NameAt(chain, tried[0])]) + FailuresOf(chain, tried[1..], used)
  }

  /** And over the whole job. */
  function Failures(chain: seq<string>, calls: seq<Call>): seq<string> {
    if calls == [] then [] else FailuresOf(chain, calls[0].tried, calls[0].used) + Failures(chain, calls[1..])
  }

  ghost predicate NoRepeats(names: seq<string>) {
    forall i, j :: 0 <= i < j < |names| ==> names[i] != names[j]
  }

  lemma NoRepeatsConcat(a: seq<string>, b: seq<string>)
    requires NoRepeats(a) && NoRepeats(b) && forall name :: name in a ==> name !in b
    ensures NoRepeats(a + b)
  {
    forall i, j | 0 <= i < j < |a + b| ensures (a + b)[i] != (a + b)[j] {
      assert i < |a| ==> (a + b)[i] in a;
      assert j >= |a| ==> (a + b)[j] in b;
    }
  }

  /** One call's failed tries are the newly failed names, each once. */
  lemma {:induction false} FailuresOfServe(chain: seq<string>, failed: set<string>, up: nat -> bool, i: nat)
    requires i <= |chain|
    ensures
      var c := Serve(chain, failed, up, i);
      && failed <= c.failed
      && (c.used.Some? ==> i <= c.used.value)
      && NoRepeats(FailuresOf(chain, c.tried, c.used))
      && (forall name :: name in FailuresOf(chain, c.tried, c.used) <==> name in c.failed - failed)
    decreases |chain| - i
  {
    if i < |chain| {
      if chain[i] in failed {
        FailuresOfServe(chain, failed, up, i + 1);
      } else if up(i) {
        assert [i][1..] == [];
      } else {
        FailuresOfServe(chain, failed + {chain[i]}, up, i + 1);
        var rest := Serve(chain, failed + {chain[i]}, up, i + 1);
        var c := Serve(chain, failed, up, i);
        assert c.tried[1..] == rest.tried;
        NoRepeatsConcat([chain[i]], FailuresOf(chain, rest.tried, rest.used));
      }
    }
  }

  /** Over a job no backend fails twice, and the failures are exactly the names in the failed set. */
  lemma {:induction false} EachFailsOnce(chain: seq<string>, failed: set<string>, weather: seq<nat -> bool>)
    ensures
      var failures, after := Failures(chain, Calls(chain, failed, weather)), FailedAfter(chain, failed, weather);
      && failed <= after && NoRepeats(failures)
      && (forall name :: name in failures <==> name in after - failed)
    decreases |weather|
  {
    if weather != [] {
      var c := Serve(chain, failed, weather[0], 0);
      FailuresOfServe(chain, failed, weather[0], 0);
      EachFailsOnce(chain, c.failed, weather[1..]);
      assert Calls(chain, failed, weather)[1..] == Calls(chain, c.failed, weather[1..]);
      NoRepeatsConcat(FailuresOf(chain, c.tried, c.used), Failures(chain, Calls(chain, c.failed, weather[1..])));
    }
  }

  function Names(chain: seq<string>): set<string> {
    set k | 0 <= k < |chain| :: chain[k]
  }

  lemma {:induction false} FewNames(chain: seq<string>)
    ensures |Names(chain)| <= |chain|
  {
    if chain != [] {
      var front := chain[..|chain| - 1];
      FewNames(front);
      assert Names(chain) == Names(front) + {chain[|chain| - 1]};
    }
  }

  lemma {:induction false} AttemptsAreServedPlusFailed(chain: seq<string>, failed: set<string>,
        weather: seq<nat -> bool>)
    ensures
      var calls, after := Calls(chain, failed, weather), FailedAfter(chain, failed, weather);
      && failed <= after && after - failed <= Names(chain)
      && Attempts(calls) == Served(calls) + |after - failed|
      && Served(calls) <= |calls| == |weather|
    decreases |weather|
  {
    if weather != [] {
      var c := Serve(chain, failed, weather[0], 0);
      TriesAreServedPlusFailed(chain, failed, weather[0], 0);
      AttemptsAreServedPlusFailed(chain, c.failed, weather[1..]);
      var after := FailedAfter(chain, failed, weather);
      assert Calls(chain, failed, weather)[1..] == Calls(chain, c.failed, weather[1..]);
      assert after - failed == (after - c.failed) + (c.failed - failed);
    } else {
      assert failed - failed == {};
    }
  }

  /** Attempts and served calls of one more call. */
  lemma {:induction false} OneMoreCall(chain: seq<string>, failed: set<string>, weather: seq<nat -> bool>,
        up: nat -> bool)
    ensures
      var calls, all := Calls(chain, failed, weather), Calls(chain, failed, weather + [up]);
      var c := Serve(chain, FailedAfter(chain, failed, weather), up, 0);
      && all == calls + [c] && FailedAfter(chain, failed, weather + [up]) == c.failed
      && Attempts(all) == Attempts(calls) + |c.tried|
      && Served(all) == Served(calls) + if c.used.Some? then 1 else 0
    decreases |weather|
  {
    if weather != [] {
      var first := Serve(chain, failed, weather[0], 0);
      assert (weather + [up])[1..] == weather[1..] + [up] && (weather + [up])[0] == weather[0];
      OneMoreCall(chain, first.failed, weather[1..], up);
      assert Calls(chain, failed, weather)[1..] == Calls(chain, first.failed, weather[1..]);
      assert Calls(chain, failed, weather + [up])[1..] == Calls(chain, first.failed, weather[1..] + [up]);
    } else {
      assert [up][1..] == [] && (weather + [up]) == [up];
    }
  }

  /** From begin_job on, the tries of a job number exactly its served calls plus the backends that failed: at
      most its calls plus the length of the chain. */
  lemma JobAttemptsAreBounded(chain: seq<string>, weather: seq<nat -> bool>)
    ensures Attempts(Calls(chain, {}, weather)) == Served(Calls(chain, {}, weather)) + |FailedAfter(chain, {}, weather)|
    ensures Attempts(Calls(chain, {}, weather)) <= |weather| + |chain|
  {
    AttemptsAreServedPlusFailed(chain, {}, weather);
    var after := FailedAfter(chain, {}, weather);
    assert after - {} == after;
    FewNames(chain);
    Subset(after, Names(chain));
  }

  /** A whole job on the executor: begin_job, its calls one after the other, end_job.  The calls go as `Calls` says
      whatever earlier jobs left behind, and nothing is left to the next one. */
  method RunJob(ex: FallbackExecutor, weather: seq<nat -> bool>) returns (served: nat, ghost attempts: nat)
    modifies ex
    ensures served == Served(Calls(ex.chain, {}, weather)) && attempts == Attempts(Calls(ex.chain, {}, weather))
    ensures attempts == served + |FailedAfter(ex.chain, {}, weather)| <= |weather| + |ex.chain|
    ensures ex.failed == {}
  {
    ex.BeginJob();
    served, attempts := 0, 0;
    for n := 0 to |weather|
      invariant served == Served(Calls(ex.chain, {}, weather[..n]))
      invariant attempts == Attempts(Calls(ex.chain, {}, weather[..n]))
      invariant ex.failed == FailedAfter(ex.chain, {}, weather[..n])
    {
      assert weather[..n + 1] == weather[..n] + [weather[n]];
      OneMoreCall(ex.chain, {}, weather[..n], weather[n]);
      var used, tried := ex.Complete(weather[n]);
      if used.Some? { served := served + 1; }
      attempts := attempts + |tried|;
    }
    assert weather[..|weather|] == weather;
    JobAttemptsAreBounded(ex.chain, weather);
    ex.EndJob();
  }
}
