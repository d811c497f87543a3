/**
 * The client's calls and the protocol's steps: a call that nobody interrupts is
 * a run of LeaseProtocol with the same answer and the same object behind it.
 */
module LeaseCalls {
  import opened Options
  import opened LeaseProtocol
  import Client = RelayClient

  /** The marker of the protocol, as the bucket shows it. */
  function Shown(slot: ObjectStore.Slot<Marker>): Option<Client.Body> {
    if slot.None? then None else Some(Client.MarkerOf(slot.value.body.owner, slot.value.body.at))
  }

  function Iterate<T>(f: T -> T, x: T, n: nat): T {
    if n == 0 then x else f(Iterate(f, x, n - 1))
  }

  lemma {:induction false} InTwoParts<T>(f: T -> T, x: T, m: nat, n: nat)
    ensures Iterate(f, x, m + n) == Iterate(f, Iterate(f, x, m), n)
  {
    if n > 0 { InTwoParts(f, x, m, n - 1); }
  }

  /** The state after an action `n` times in a row. */
  function Again(c: Config, st: State, a: Action, n: nat): State {
    Iterate((x: State) => Next(c, x, a), st, n)
  }

  function Repeated(a: Action, n: nat): seq<Action> {
    if n == 0 then [] else Repeated(a, n - 1) + [a]
  }

  lemma {:induction false} AgainIsARun(c: Config, st: State, a: Action, n: nat)
    ensures Again(c, st, a, n) == Run(c, st, Repeated(a, n))
  {
    if n > 0 {
      AgainIsARun(c, st, a, n - 1);
      RunSnoc(c, st, Repeated(a, n - 1), a);
    }
  }

  /** One step of each thread, without faults. */
  function MainGoes(s: nat, now: real): Action {
    RunMain(s, Input(Fine, now, true, None))
  }

  function RenewerGoes(s: nat, now: real): Action {
    RunRenewer(s, Fine, now)
  }

  lemma UpToThree(c: Config, st: State, a: Action)
    ensures Again(c, st, a, 1) == Next(c, st, a)
    ensures Again(c, st, a, 2) == Next(c, Next(c, st, a), a)
    ensures Again(c, st, a, 3) == Next(c, Next(c, Next(c, st, a), a), a)
  {
    assert Again(c, st, a, 0) == st;
  }

  lemma Splits(c: Config, st: State, a: Action, m: nat, n: nat)
    ensures Again(c, st, a, m + n) == Again(c, Again(c, st, a, m), a, n)
  {
    InTwoParts((x: State) => Next(c, x, a), st, m, n);
  }

  lemma EndedStays(c: Config, st: State, s: nat, now: real)
    requires s in st.sessions && st.sessions[s].main.Ended?
    ensures Next(c, st, MainGoes(s, now)) == st
  {
  }

  /** `Client.Claim`: the session holds the job after its steps exactly when the call answers Yes to the same
      marker, and the marker left behind is the same. */
  lemma UninterruptedClaim(c: Config, st: State, s: nat, o: string, now: real)
    requires CanBegin(c, st, s, o, now)
    ensures
      var steps := if st.claimed.None? then 1 else 3;
      var st' := Again(c, BeginStep(c, st, s, o, now), MainGoes(s, now), steps);
      var r := Client.ClaimAnswer(Shown(st.claimed), c.lease, now);
      && s in st'.sessions && !r.Raises?
      && (if r.Yes? then st'.sessions[s].main.AtPending? else st'.sessions[s].main.Ended?)
      && Shown(st'.claimed) == if r.Yes? then Some(Client.MarkerOf(o, now)) else Shown(st.claimed)
  {
    var a, st0 := MainGoes(s, now), BeginStep(c, st, s, o, now);
    var st1, m := Next(c, st0, a), Marker(o, now);
    UpToThree(c, st0, a);
    assert st1 == CreateStep(c, st0, s, st0.sessions[s], now, Fine);
    if st.claimed.Some? {
      var st2 := Next(c, st1, a);
      assert st2 == InspectStep(c, st1, s, st1.sessions[s], now, Fine);
      if now - st.claimed.value.body.at < c.lease {
        EndedStays(c, st2, s, now);
      } else {
        assert Next(c, st2, a) == TakeoverStep(c, st2, s, st2.sessions[s], now, st.claimed.value, Fine);
      }
    }
  }

  /** `Client.RenewClaim`, called by the renewing thread. */
  lemma UninterruptedRenewal(c: Config, st: State, s: nat, now: real)
    requires s in st.sessions && st.sessions[s].renewer.RLock? && st.sessions[s].lock.None?
    requires ClockAllows(st, st.sessions[s].owner, now)
    ensures
      var o := st.sessions[s].owner;
      var st' := Again(c, st, RenewerGoes(s, now), 3);
      var r := Client.RenewAnswer(Shown(st.claimed), o);
      && s in st'.sessions && !r.Raises? && st'.sessions[s].lock.None?
      && (if r.Yes? then st'.sessions[s].renewer.Resting? else st'.sessions[s].renewer.Off?)
      && st'.sessions[s].lost == (st.sessions[s].lost || r.No?)
      && Shown(st'.claimed) == if r.Yes? then Some(Client.MarkerOf(o, now)) else Shown(st.claimed)
  {
    var a := RenewerGoes(s, now);
    UpToThree(c, st, a);
    var st1 := Next(c, st, a);
    assert st1 == RLockStep(st, s, st.sessions[s], now);
    assert Next(c, st1, a) == RReadStep(st1, s, st1.sessions[s], now, Fine);
  }

  /** The last look at the `lost` flag, and the lock. */
  lemma TakesTheLock(c: Config, st: State, s: nat, now: real)
    requires s in st.sessions && st.sessions[s].main.AtFence? && !st.sessions[s].lost && st.sessions[s].lock.None?
    requires ClockAllows(st, st.sessions[s].owner, now)
    ensures
      var was := st.sessions[s];
      var held := was.(main := AtRenewRead(now, was.main.out, was.main.guarded), lock := Some(MainThread));
      Again(c, st, MainGoes(s, now), 2) ==
        st.(clocks := st.clocks[was.owner := now], sessions := st.sessions[s := held])
  {
    var ss := st.sessions[s];
    UpToThree(c, st, MainGoes(s, now));
    assert Next(c, st, MainGoes(s, now)) == FenceStep(st, s, ss, ss.main.out, ss.main.guarded);
  }

  lemma RenewsAndReports(c: Config, st: State, s: nat, now: real)
    requires s in st.sessions && st.sessions[s].main.AtRenewRead? && !st.sessions[s].lost
    ensures
      var was := st.sessions[s];
      var st' := Again(c, st, MainGoes(s, now), 3);
      var r := Client.RenewAnswer(Shown(st.claimed), was.owner);
      && s in st'.sessions && st'.sessions[s].main.Ended? && st'.sessions[s].lost == r.No?
      && st'.terminal == (if r.Yes? && st.terminal.None? then Some(was.main.out) else st.terminal)
      && Shown(st'.claimed) == if r.Yes? then Some(Client.MarkerOf(was.owner, was.main.now)) else Shown(st.claimed)
  {
    var a, ss := MainGoes(s, now), st.sessions[s];
    var st1 := Next(c, st, a);
    UpToThree(c, st, a);
    assert st1 == RenewReadStep(st, s, ss, ss.main.now, ss.main.out, ss.main.guarded, Fine);
    if Client.RenewAnswer(Shown(st.claimed), ss.owner).Yes? {
      var ss1 := st1.sessions[s];
      var st2 := Next(c, st1, a);
      assert st2 == RenewCasStep(c, st1, s, ss1, ss.main.now, st.claimed.value, ss.main.out, ss.main.guarded, Fine);
      var ss2 := st2.sessions[s];
      assert Next(c, st2, a) == TerminalStep(st2, s, ss2, ss.main.out, ss.main.guarded, ss2.main.check, Fine);
    } else {
      EndedStays(c, st1, s, now);
    }
  }

  /** The end of a job: `Client.RenewClaim` under the lock, and `Client.PutTerminal` if it answered Yes. */
  lemma UninterruptedFinish(c: Config, st: State, s: nat, now: real)
    requires s in st.sessions && st.sessions[s].main.AtFence? && !st.sessions[s].lost && st.sessions[s].lock.None?
    requires ClockAllows(st, st.sessions[s].owner, now)
    ensures
      var was := st.sessions[s];
      var st' := Again(c, st, MainGoes(s, now), 5);
      var r := Client.RenewAnswer(Shown(st.claimed), was.owner);
      && s in st'.sessions && st'.sessions[s].main.Ended? && st'.sessions[s].lost == r.No?
      && st'.terminal == (if r.Yes? && st.terminal.None? then Some(was.main.out) else st.terminal)
      && Shown(st'.claimed) == if r.Yes? then Some(Client.MarkerOf(was.owner, now)) else Shown(st.claimed)
  {
    TakesTheLock(c, st, s, now);
    Splits(c, st, MainGoes(s, now), 2, 3);
    RenewsAndReports(c, Again(c, st, MainGoes(s, now), 2), s, now);
  }

  /** `Client.Purge`: five deletes in a row leave nothing of the job, in the order of the client's five keys. */
  lemma UninterruptedPurge(c: Config, st: State, r: nat)
    requires r in st.recs && st.recs[r] == Purging(0)
    ensures
      var st' := Again(c, st, Reconcile(r, true, Fine), 5);
      && st'.pending.None? && st'.claimant.None? && st'.claimed.None? && st'.terminal.None?
      && r in st'.recs && st'.recs[r].Idle? && st'.sessions == st.sessions
  {
    var a := Reconcile(r, true, Fine);
    UpToThree(c, st, a);
    Splits(c, st, a, 3, 2);
    var st3 := Again(c, st, a, 3);
    UpToThree(c, st3, a);
    assert st3.recs[r] == Purging(3) && st3.pending.None? && st3.claimant.None? && st3.claimed.None?;
  }
}
