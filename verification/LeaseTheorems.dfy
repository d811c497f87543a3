/** What the invariant says about whole runs, in terms of the log alone. */
module LeaseTheorems {
  import opened Options
  import opened ObjectStore
  import opened LeaseProtocol
  import opened LeaseSafety
  import opened LeaseSteps

  /** Every event of every run, under either version scheme, was allowed by what came before it. */
  lemma EveryLogIsOK(c: Config, actions: seq<Action>)
    requires 0.0 < c.lease
    ensures LogOK(c, Run(c, INIT, actions).log)
  {
    EveryRunKeeps(c, actions);
  }

  // ---- The lease chain ---------------------------------------------------------

  function Takeovers(log: seq<Event>, i: nat, j: nat): nat
    requires i <= j <= |log|
  {
    if i == j then 0 else Takeovers(log, i, j - 1) + if log[j - 1].TookOver? then 1 else 0
  }

  /** The time the takeovers between two points must have taken: one lease each. */
  function LeasesSpent(c: Config, log: seq<Event>, i: nat, j: nat): real
    requires i <= j <= |log|
  {
    if i == j then 0.0 else LeasesSpent(c, log, i, j - 1) + if log[j - 1].TookOver? then c.lease else 0.0
  }

  lemma {:induction false} LeasesSpentIsProduct(c: Config, log: seq<Event>, i: nat, j: nat)
    requires i <= j <= |log|
    ensures LeasesSpent(c, log, i, j) == Takeovers(log, i, j) as real * c.lease
  {
    if i < j {
      LeasesSpentIsProduct(c, log, i, j - 1);
      assert (Takeovers(log, i, j - 1) + 1) as real * c.lease == Takeovers(log, i, j - 1) as real * c.lease + c.lease;
    }
  }

  lemma NotInShorter(log: seq<Event>, i: nat, j: nat, e: Event)
    requires i < j <= |log| && e !in log[i..j]
    ensures e !in log[i..j - 1] && log[j - 1] != e
  {
    assert log[i..j] == log[i..j - 1] + [log[j - 1]];
  }

  lemma LastEvent(c: Config, log: seq<Event>, j: nat)
    requires LogOK(c, log) && 0 < j <= |log|
    ensures EventOK(c, log[..j - 1], log[j - 1]) && log[..j][..j - 1] == log[..j - 1] && log[..j][j - 1] == log[j - 1]
  {
  }

  lemma {:induction false} MarkerAdvances(c: Config, log: seq<Event>, i: nat, j: nat)
    requires c.joined && LogOK(c, log) && i <= j <= |log|
    requires MarkerAfter(log[..i]).Some? && ClaimedGone !in log[i..j]
    ensures MarkerAfter(log[..j]).Some?
    ensures MarkerAfter(log[..i]).value.at + LeasesSpent(c, log, i, j) <= MarkerAfter(log[..j]).value.at
  {
    if i < j {
      NotInShorter(log, i, j, ClaimedGone);
      MarkerAdvances(c, log, i, j - 1);
      LastEvent(c, log, j);
    }
  }

  lemma {:induction false} LeasesSpentNotNegative(c: Config, log: seq<Event>, i: nat, j: nat)
    requires i <= j <= |log| && 0.0 < c.lease
    ensures 0.0 <= LeasesSpent(c, log, i, j)
  {
    if i < j { LeasesSpentNotNegative(c, log, i, j - 1); }
  }

  /** Between purges the marker stays, its time never goes back, and k takeovers span at least k leases. */
  lemma LeaseSpan(c: Config, log: seq<Event>, i: nat, j: nat)
    requires c.joined && LogOK(c, log) && 0.0 < c.lease && i <= j <= |log|
    requires MarkerAfter(log[..i]).Some? && ClaimedGone !in log[i..j]
    ensures MarkerAfter(log[..j]).Some?
    ensures MarkerAfter(log[..i]).value.at <= MarkerAfter(log[..j]).value.at
    ensures Takeovers(log, i, j) as real * c.lease <= MarkerAfter(log[..j]).value.at - MarkerAfter(log[..i]).value.at
  {
    MarkerAdvances(c, log, i, j);
    LeasesSpentNotNegative(c, log, i, j);
    LeasesSpentIsProduct(c, log, i, j);
  }

  /** Without a takeover the owner does not change, so nobody else has renewed. */
  lemma {:induction false} OwnerStays(c: Config, log: seq<Event>, i: nat, j: nat)
    requires LogOK(c, log) && i <= j <= |log|
    requires MarkerAfter(log[..i]).Some? && ClaimedGone !in log[i..j] && Takeovers(log, i, j) == 0
    ensures MarkerAfter(log[..j]).Some? && MarkerAfter(log[..j]).value.owner == MarkerAfter(log[..i]).value.owner
  {
    if i < j {
      NotInShorter(log, i, j, ClaimedGone);
      OwnerStays(c, log, i, j - 1);
      LastEvent(c, log, j);
    }
  }

  // ---- Fencing ------------------------------------------------------------------

  /** The marker of owner `o` is gone or somebody else's after event `e`. */
  predicate Loses(e: Event, o: Owner) {
    e == ClaimedGone || (WritesMarker(e) && e.m.owner != o)
  }

  predicate Reclaims(e: Event, o: Owner) {
    (e.Created? || e.TookOver?) && e.m.owner == o
  }

  /** An owner that lost its marker holds it again only after a new claim of its own. */
  lemma {:induction false} HoldsOnlyByReclaiming(c: Config, log: seq<Event>, lostAt: nat, j: nat, o: Owner)
        returns (i: nat)
    requires LogOK(c, log) && lostAt < j <= |log| && Loses(log[lostAt], o)
    requires MarkerAfter(log[..j]).Some? && MarkerAfter(log[..j]).value.owner == o
    ensures lostAt < i < j && Reclaims(log[i], o)
    decreases j
  {
    var e := log[j - 1];
    assert log[..j][..j - 1] == log[..j - 1];
    assert EventOK(c, log[..j - 1], e);
    if Reclaims(e, o) {
      i := j - 1;
    } else {
      i := HoldsOnlyByReclaiming(c, log, lostAt, j - 1, o);
    }
  }

  lemma NotBefore(log: seq<Event>, e: Event, k: nat)
    requires k <= |log| && e !in log[..k]
    ensures forall g :: 0 <= g < |log| && log[g] == e ==> k <= g
  {
    assert forall g :: 0 <= g < k ==> log[g] == log[..k][g];
  }

  /** A renewal found its own owner's name; if the owner had lost the marker, it had claimed it again since. */
  lemma RenewalIsOwners(c: Config, log: seq<Event>, k: nat)
    requires LogOK(c, log) && k < |log| && log[k].Renewed?
    ensures MarkerAfter(log[..k]) == Some(log[k].prev) && log[k].prev.owner == log[k].m.owner
    ensures forall l :: 0 <= l < k && Loses(log[l], log[k].m.owner) ==>
      exists r :: l < r < k && Reclaims(log[r], log[k].m.owner)
  {
    assert EventOK(c, log[..k], log[k]);
    forall l | 0 <= l < k && Loses(log[l], log[k].m.owner)
      ensures exists r :: l < r < k && Reclaims(log[r], log[k].m.owner)
    {
      var r := HoldsOnlyByReclaiming(c, log, l, k, log[k].m.owner);
    }
  }

  /** A terminal write of any run follows a check by the same session that found its owner's name on the
      marker; the check precedes every purge of the marker; and an owner that had lost the marker before
      the check had claimed it again in between. */
  lemma FencedTerminal(c: Config, actions: seq<Action>, i: nat)
    requires 0.0 < c.lease
    requires i < |Run(c, INIT, actions).log| && Run(c, INIT, actions).log[i].TerminalWritten?
    ensures
      var log := Run(c, INIT, actions).log;
      var k := log[i].check;
      && k < i && log[k].Renewed? && log[k].byMain && log[k].s == log[i].s
      && log[i].s in Run(c, INIT, actions).sessions
      && log[k].prev.owner == log[k].m.owner == Run(c, INIT, actions).sessions[log[i].s].owner
      && MarkerAfter(log[..k]) == Some(log[k].prev)
      && (forall g :: 0 <= g < |log| && log[g] == ClaimedGone ==> k < g)
      && (forall l :: 0 <= l < k && Loses(log[l], log[k].m.owner) ==>
          exists r :: l < r < k && Reclaims(log[r], log[k].m.owner))
  {
    EveryRunKeeps(c, actions);
    var st := Run(c, INIT, actions);
    CheckedTerminal(c, st, i);
    RenewalIsOwners(c, st.log, st.log[i].check);
  }

  lemma CheckedTerminal(c: Config, st: State, i: nat)
    requires LogOK(c, st.log) && Signed(st) && i < |st.log| && st.log[i].TerminalWritten?
    ensures
      var k := st.log[i].check;
      && k < i && st.log[k].Renewed? && st.log[k].byMain && st.log[k].s == st.log[i].s
      && st.log[i].s in st.sessions && st.log[k].m.owner == st.sessions[st.log[i].s].owner
      && (forall g :: 0 <= g < |st.log| && st.log[g] == ClaimedGone ==> k < g)
  {
    var log, k := st.log, st.log[i].check;
    assert EventOK(c, log[..i], log[i]);
    assert log[..i][..k] == log[..k] && log[k] in log;
    NotBefore(log, ClaimedGone, k);
  }

  /** While the terminal object exists its body never changes. */
  lemma {:induction false} TerminalIsStable(c: Config, log: seq<Event>, i: nat, j: nat)
    requires LogOK(c, log) && i <= j <= |log|
    requires TerminalAfter(log[..i]).Some? && TerminalGone !in log[i..j]
    ensures TerminalAfter(log[..j]) == TerminalAfter(log[..i])
    ensures forall k :: i <= k < j ==> !log[k].TerminalWritten?
  {
    if i < j {
      NotInShorter(log, i, j, TerminalGone);
      TerminalIsStable(c, log, i, j - 1);
      LastEvent(c, log, j);
    }
  }

  // ---- Order of writes and deletes --------------------------------------------------

  /** In every reachable state, mid-purge too, a pending object has its claimant route beside it; and
      a claim made after a purge deleted the marker never reaches the executor. */
  lemma PurgeOrder(c: Config, actions: seq<Action>)
    requires 0.0 < c.lease
    ensures
      var st := Run(c, INIT, actions);
      && (st.pending.Some? ==> st.claimant.Some?)
      && (forall i, g :: 0 <= i < |st.log| && st.log[i].Executed? && 0 <= g < |st.log| && st.log[g] == ClaimedGone
           ==> st.log[i].claim < i && IsClaim(st.log[st.log[i].claim], st.log[i].s) && st.log[i].claim < g)
  {
    EveryRunKeeps(c, actions);
    ClaimsBeforePurge(c, Run(c, INIT, actions).log);
  }

  lemma ClaimsBeforePurge(c: Config, log: seq<Event>)
    requires LogOK(c, log)
    ensures forall i, g :: (0 <= i < |log| && log[i].Executed? && 0 <= g < |log| && log[g] == ClaimedGone
                            ==> log[i].claim < i && IsClaim(log[log[i].claim], log[i].s) && log[i].claim < g)
  {
    forall i, g | 0 <= i < |log| && log[i].Executed? && 0 <= g < |log| && log[g] == ClaimedGone
      ensures log[i].claim < i && IsClaim(log[log[i].claim], log[i].s) && log[i].claim < g
    {
      assert EventOK(c, log[..i], log[i]);
      assert log[..i][..log[i].claim] == log[..log[i].claim];
      NotBefore(log, ClaimedGone, log[i].claim);
    }
  }

  // ---- Why the earlier renewing thread must have come to rest --------------------------

  const GO := Input(Fine, 0.0, true, None)
  const STUCK := Session("w", Ended, RRead(0.0), false, Some(RenewThread), 0)

  /** The first session claims at 0 and its renewing thread reads the clock; its executing thread cannot read the
      pending object and stops without waiting for the other. */
  lemma StragglerStarts(c: Config) returns (actions: seq<Action>)
    requires !c.joined
    ensures
      var st := Run(c, INIT, actions);
      st == INIT.(claimed := Some(Obj(Marker("w", 0.0), Stamp(c.scheme, Marker("w", 0.0), 0))), gen := 1,
                  clocks := map["w" := 0.0], sessions := map[0 := STUCK], log := [Created(0, Marker("w", 0.0))])
  {
    var st := INIT;
    actions := [];
    st, actions := OneStep(c, st, actions, Begin(0, "w", 0.0));
    st, actions := OneStep(c, st, actions, RunMain(0, GO));
    assert st.sessions == map[0 := Session("w", AtPending, Resting, false, None, 0)];
    st, actions := OneStep(c, st, actions, RunRenewer(0, Fine, 0.0));
    st, actions := OneStep(c, st, actions, RunRenewer(0, Fine, 0.0));
    assert st.sessions == map[0 := Session("w", AtPending, RRead(0.0), false, Some(RenewThread), 0)];
    st, actions := OneStep(c, st, actions, RunMain(0, GO.(fault := Lost)));
    assert st.sessions == map[0 := STUCK];
    assert st.clocks == map["w" := 0.0];
  }

  /** One lease later the same worker claims again, in a second session, and finds the marker. */
  lemma StragglersWorkerBegins(c: Config) returns (actions: seq<Action>)
    requires 0.0 < c.lease && !c.joined
    ensures
      var m, st := Marker("w", 0.0), Run(c, INIT, actions);
      && st.claimed == Some(Obj(m, Stamp(c.scheme, m, 0))) && st.gen == 1 && st.log == [Created(0, m)]
      && st.sessions == map[0 := STUCK, 1 := Session("w", AtInspect(c.lease), Off, false, None, 0)]
  {
    actions := StragglerStarts(c);
    var st := Run(c, INIT, actions);
    st, actions := OneStep(c, st, actions, Begin(1, "w", c.lease));
    assert st.sessions == map[0 := STUCK, 1 := Session("w", AtCreate(c.lease), Off, false, None, 0)];
    st, actions := OneStep(c, st, actions, RunMain(1, GO));
  }

  /** It takes the expired marker over. */
  lemma StragglersWorkerReturns(c: Config) returns (actions: seq<Action>)
    requires 0.0 < c.lease && !c.joined
    ensures
      var st := Run(c, INIT, actions);
      && st.sessions.Keys == {0, 1} && st.sessions[0] == STUCK
      && st.claimed == Some(Obj(Marker("w", c.lease), Stamp(c.scheme, Marker("w", c.lease), 1)))
      && st.log == [Created(0, Marker("w", 0.0)), TookOver(1, Marker("w", c.lease), Marker("w", 0.0))]
  {
    actions := StragglersWorkerBegins(c);
    var st := Run(c, INIT, actions);
    st, actions := OneStep(c, st, actions, RunMain(1, GO));
    assert st.sessions[1].main == AtTakeover(c.lease, st.claimed.value);
    st, actions := OneStep(c, st, actions, RunMain(1, GO));
  }

  /** A worker's stop waits one second for its renewing thread.  If the worker claims the job again while that thread
      is still in its call, the marker's time goes back by a whole lease: the straggler finds its own name on the new
      marker and writes the time it read long ago. */
  lemma StragglerTurnsLeaseBack(c: Config) returns (actions: seq<Action>)
    requires 0.0 < c.lease && !c.joined
    ensures
      var log := Run(c, INIT, actions).log;
      |log| == 3 && log[2] == Renewed(0, false, Marker("w", 0.0), Marker("w", c.lease)) && !ChainOK(c, log)
  {
    actions := StragglersWorkerReturns(c);
    var st := Run(c, INIT, actions);
    st, actions := OneStep(c, st, actions, RunRenewer(0, Fine, 0.0));
    assert st.sessions[0].renewer == RCas(0.0, st.claimed.value);
    st, actions := OneStep(c, st, actions, RunRenewer(0, Fine, 0.0));
    assert !EventOK(c.(joined := true), st.log[..2], st.log[2]);
  }

  /** The whole lease chain: every event allowed, and no renewal turns the time back. */
  ghost predicate ChainOK(c: Config, log: seq<Event>) {
    LogOK(c.(joined := true), log)
  }

  /** For every positive lease and either version scheme, all runs keep the whole lease chain exactly when a worker
      starts again only after its earlier renewing thread has come to rest. */
  lemma ChainHoldsExactlyWhenJoined(c: Config)
    requires 0.0 < c.lease
    ensures (forall actions :: ChainOK(c, Run(c, INIT, actions).log)) <==> c.joined
  {
    if c.joined {
      assert c.(joined := true) == c;
      forall actions ensures ChainOK(c, Run(c, INIT, actions).log) {
        EveryRunKeeps(c, actions);
      }
    } else {
      var actions := StragglerTurnsLeaseBack(c);
      assert !ChainOK(c, Run(c, INIT, actions).log);
    }
  }

  lemma OneStep(c: Config, st: State, before: seq<Action>, a: Action) returns (st': State, actions: seq<Action>)
    requires st == Run(c, INIT, before)
    ensures st' == Next(c, st, a) && actions == before + [a] && st' == Run(c, INIT, actions)
  {
    st', actions := Next(c, st, a), before + [a];
    RunSnoc(c, INIT, before, a);
  }
}
