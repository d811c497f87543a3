/**
 * With a common clock, no purge and no store exceptions, an owner whose
 * renewals land in time keeps the job: nobody else's claim succeeds, and its
 * own two threads never make each other's renewal fail.
 */
module LeaseOnTime {
  import opened Options
  import opened ObjectStore
  import opened LeaseProtocol
  import opened LeaseSafety
  import opened LeaseSteps

  /** Clocks show the common time, calls are answered, and the Hive acknowledges nothing (so nothing is purged). */
  predicate Benign(st: State, a: Action) {
    match a
    case Begin(_, _, now) => now == st.time
    case RunMain(_, i) => i.fault.Fine? && i.now == st.time
    case RunRenewer(_, fault, now) => fault.Fine? && now == st.time
    case Reconcile(_, acked, _) => !acked
    case _ => true
  }

  /** The marker was renewed less than a lease ago. */
  predicate InTime(c: Config, st: State) {
    st.claimed.Some? ==> st.time < st.claimed.value.body.at + c.lease
  }

  /** Every state along the run is in time, and every step benign. */
  predicate Punctual(c: Config, actions: seq<Action>) {
    actions == [] ||
    (var before := actions[..|actions| - 1];
      Punctual(c, before) && Benign(Run(c, INIT, before), actions[|actions| - 1]) && InTime(c, Run(c, INIT, actions)))
  }

  /** The session won its claim and has not ended. */
  predicate Holding(ss: Session) {
    !Claiming(ss.main) && !(ss.main.Ended? && ss.renewer.Off?)
  }

  ghost predicate KeptSession(st: State, ss: Session) {
    && !ss.lost && !ss.main.AtTakeover?
    && (ss.main.AtCreate? || ss.main.AtInspect? ==> ss.main.now <= st.time)
    && (ss.main.AtInspect? ==> st.claimed.Some?)
    && (Holding(ss) ==> st.claimed.Some? && st.claimed.value.body.owner == ss.owner)
    && (ss.main.AtRenewCas? ==> st.claimed == Some(ss.main.seen))
    && (ss.renewer.RCas? ==> st.claimed == Some(ss.renewer.seen))
  }

  /** At most one session holds the job: the others found its marker live, even those of its own owner. */
  ghost predicate OneHolds(st: State) {
    forall s, t :: s in st.sessions && t in st.sessions && s != t ==>
      !Holding(st.sessions[s]) || !Holding(st.sessions[t])
  }

  ghost predicate QuietLog(log: seq<Event>) {
    forall e :: e in log ==> !e.TookOver? && !e.RenewFailed? && e != ClaimedGone
  }

  ghost predicate Kept(st: State) {
    && (forall s :: s in st.sessions ==> KeptSession(st, st.sessions[s]))
    && (forall r :: r in st.recs ==> !st.recs[r].Purging?)
    && (forall o :: o in st.clocks ==> st.clocks[o] <= st.time)
    && OneHolds(st)
    && QuietLog(st.log)
  }

  /** A step of session `s` that writes no marker. */
  lemma MoveStaysKept(st: State, s: nat, ss': Session, log': seq<Event>, terminal': Option<Outcome>,
        clocks': map<Owner, real>)
    requires Kept(st) && s in st.sessions
    requires Holding(ss') ==> Holding(st.sessions[s])
    requires KeptSession(st, ss') && QuietLog(log') && forall o :: o in clocks' ==> clocks'[o] <= st.time
    ensures Kept(At(st.(log := log', terminal := terminal', clocks := clocks'), s, ss'))
  {
  }

  /** A step of session `s` that writes its marker: no other session holds the job. */
  lemma WriteStaysKept(c: Config, st: State, s: nat, m: Marker, e: Event, ss': Session)
    requires Inv(c, st) && Kept(st) && s in st.sessions && (st.claimed.None? || Holding(st.sessions[s]))
    requires ss'.owner == st.sessions[s].owner == m.owner
    requires st.claimed.Some? ==> st.claimed.value.body.owner == m.owner
    requires e.Created? || e.Renewed?
    requires KeptSession(Wrote(c, st, m, e), ss')
    ensures Kept(At(Wrote(c, st, m, e), s, ss'))
  {
    var st1 := Wrote(c, st, m, e);
    forall t | t in st.sessions && t != s ensures KeptSession(st1, st.sessions[t]) {
      assert KeptSession(st, st.sessions[t]) && !Holding(st.sessions[t]);
      assert SessionOK(c, st, t, st.sessions[t]);
    }
  }

  lemma CreateStaysKept(c: Config, st: State, s: nat, now: real)
    requires 0.0 < c.lease && Inv(c, st) && Kept(st) && InTime(c, st) && s in st.sessions
    requires st.sessions[s].main == AtCreate(now)
    ensures Kept(CreateStep(c, st, s, st.sessions[s], now, Fine))
  {
    var ss := st.sessions[s];
    var ss' := CreateStep(c, st, s, ss, now, Fine).sessions[s];
    assert SessionOK(c, st, s, ss) && KeptSession(st, ss);
    if st.claimed.None? {
      WriteStaysKept(c, st, s, Marker(ss.owner, now), Created(s, Marker(ss.owner, now)), ss');
    } else {
      MoveStaysKept(st, s, ss', st.log, st.terminal, st.clocks);
    }
  }

  lemma RenewCasStaysKept(c: Config, st: State, s: nat, now: real, seen: Obj<Marker>, out: Outcome, guarded: bool)
    requires 0.0 < c.lease && Inv(c, st) && Kept(st) && InTime(c, st) && s in st.sessions
    requires st.sessions[s].main == AtRenewCas(now, seen, out, guarded)
    ensures Kept(RenewCasStep(c, st, s, st.sessions[s], now, seen, out, guarded, Fine))
  {
    var ss := st.sessions[s];
    assert SessionOK(c, st, s, ss) && KeptSession(st, ss);
    var m := Marker(ss.owner, now);
    WriteStaysKept(c, st, s, m, Renewed(s, true, m, seen.body),
      ss.(main := AtTerminal(out, guarded, |st.log|), lock := None));
  }

  lemma OnlyMoves(st: State, s: nat, ss': Session)
    requires Kept(st) && s in st.sessions && KeptSession(st, ss') && (Holding(ss') ==> Holding(st.sessions[s]))
    ensures Kept(At(st, s, ss'))
  {
    MoveStaysKept(st, s, ss', st.log, st.terminal, st.clocks);
  }

  lemma InspectStaysKept(c: Config, st: State, s: nat, now: real)
    requires Inv(c, st) && Kept(st) && InTime(c, st) && s in st.sessions && st.sessions[s].main == AtInspect(now)
    ensures Kept(InspectStep(c, st, s, st.sessions[s], now, Fine))
  {
    assert KeptSession(st, st.sessions[s]);
    OnlyMoves(st, s, InspectStep(c, st, s, st.sessions[s], now, Fine).sessions[s]);
  }

  lemma PublishStaysKept(st: State, s: nat, published: bool)
    requires Kept(st) && s in st.sessions && st.sessions[s].main.AtPublish?
    ensures Kept(PublishStep(st, s, st.sessions[s], published))
  {
    var ss := st.sessions[s];
    assert KeptSession(st, ss);
    MoveStaysKept(st, s, PublishStep(st, s, ss, published).sessions[s],
                  if published then st.log + [Executed(s, ss.claimIdx)] else st.log, st.terminal, st.clocks);
  }

  lemma LockStaysKept(st: State, s: nat, out: Outcome, g: bool)
    requires Kept(st) && s in st.sessions && st.sessions[s].main == AtLock(out, g)
    ensures Kept(LockStep(st, s, st.sessions[s], out, g, st.time))
  {
    var ss := st.sessions[s];
    assert KeptSession(st, ss);
    if ss.lock.None? && ClockAllows(st, ss.owner, st.time) {
      MoveStaysKept(st, s, LockStep(st, s, ss, out, g, st.time).sessions[s], st.log, st.terminal,
        st.clocks[ss.owner := st.time]);
    }
  }

  lemma TerminalStaysKept(st: State, s: nat, out: Outcome, g: bool, check: nat)
    requires Kept(st) && s in st.sessions && st.sessions[s].main == AtTerminal(out, g, check)
    ensures Kept(TerminalStep(st, s, st.sessions[s], out, g, check, Fine))
  {
    var ss := st.sessions[s];
    assert KeptSession(st, ss);
    if st.terminal.None? {
      MoveStaysKept(st, s, Finish(ss), st.log + [TerminalWritten(s, out, check)], Some(out), st.clocks);
    } else {
      OnlyMoves(st, s, Finish(ss));
    }
  }

  lemma RenewReadStaysKept(c: Config, st: State, s: nat, now: real, out: Outcome, g: bool)
    requires Inv(c, st) && Kept(st) && s in st.sessions && st.sessions[s].main == AtRenewRead(now, out, g)
    ensures Kept(RenewReadStep(st, s, st.sessions[s], now, out, g, Fine))
  {
    assert KeptSession(st, st.sessions[s]);
    OnlyMoves(st, s, st.sessions[s].(main := AtRenewCas(now, st.claimed.value, out, g)));
  }

  /** Reading and deciding. */
  lemma PlainStaysKept(st: State, s: nat, main': Main)
    requires Kept(st) && s in st.sessions
    requires var m := st.sessions[s].main; m.AtPending? || m.AtClaimant? || m.Executing? || m.AtFence?
    requires main'.AtClaimant? || main'.AtFence? || main'.AtPublish? || main'.AtLock? || main'.Ended?
    ensures Kept(At(st, s, st.sessions[s].(main := main')))
  {
    assert KeptSession(st, st.sessions[s]);
    OnlyMoves(st, s, st.sessions[s].(main := main'));
  }

  /** The other steps of the executing thread move the session, and at most add an event that is not a loss. */
  lemma OtherMainStaysKept(c: Config, st: State, s: nat, i: Input)
    requires 0.0 < c.lease && Inv(c, st) && Kept(st) && InTime(c, st) && s in st.sessions && i.fault.Fine?
      && i.now == st.time
    requires !st.sessions[s].main.AtCreate? && !st.sessions[s].main.AtRenewCas?
    ensures Kept(MainStep(c, st, s, i))
  {
    var ss := st.sessions[s];
    assert !ss.lost && !ss.main.AtTakeover? by { assert KeptSession(st, ss); }
    match ss.main
    case AtInspect(now) => InspectStaysKept(c, st, s, now);
    case AtPending => PlainStaysKept(st, s, AfterPending(st.pending, i.fault));
    case AtClaimant =>
      PlainStaysKept(st, s, if st.claimant == Some(Usable) then AtFence(Failure(Undecryptable), false) else Ended);
    case AtPublish => PublishStaysKept(st, s, i.published);
    case Executing => PlainStaysKept(st, s, ExecuteStep(st, s, ss, i.ran).sessions[s].main);
    case AtFence(out, g) => PlainStaysKept(st, s, AtLock(out, g));
    case AtLock(out, g) => LockStaysKept(st, s, out, g);
    case AtRenewRead(now, out, g) => RenewReadStaysKept(c, st, s, now, out, g);
    case AtTerminal(out, g, check) => TerminalStaysKept(st, s, out, g, check);
    case _ =>
  }

  lemma MainStaysKept(c: Config, st: State, s: nat, i: Input)
    requires 0.0 < c.lease && Inv(c, st) && Kept(st) && InTime(c, st) && s in st.sessions && i.fault.Fine?
      && i.now == st.time
    ensures Kept(MainStep(c, st, s, i))
  {
    match st.sessions[s].main
    case AtCreate(now) => CreateStaysKept(c, st, s, now);
    case AtRenewCas(now, seen, out, g) => RenewCasStaysKept(c, st, s, now, seen, out, g);
    case _ => OtherMainStaysKept(c, st, s, i);
  }

  lemma RenewerStaysKept(c: Config, st: State, s: nat)
    requires 0.0 < c.lease && Inv(c, st) && Kept(st) && InTime(c, st) && s in st.sessions
    ensures Kept(RenewerStep(c, st, s, Fine, st.time))
  {
    var ss, st' := st.sessions[s], RenewerStep(c, st, s, Fine, st.time);
    assert SessionOK(c, st, s, ss) && KeptSession(st, ss);
    match ss.renewer
    case Off =>
    case Resting => MoveStaysKept(st, s, st'.sessions[s], st.log, st.terminal, st.clocks);
    case RLock => if st' != st { MoveStaysKept(st, s, st'.sessions[s], st.log, st.terminal, st'.clocks); }
    case RRead(t) => MoveStaysKept(st, s, st'.sessions[s], st.log, st.terminal, st.clocks);
    case RCas(t, seen) =>
      var m := Marker(ss.owner, t);
      WriteStaysKept(c, st, s, m, Renewed(s, false, m, seen.body), st'.sessions[s]);
  }

  lemma OutsideStaysKept(st: State, st': State)
    requires Kept(st) && st'.sessions == st.sessions && st'.claimed == st.claimed && st'.clocks == st.clocks
      && st'.log == st.log
    requires st.time <= st'.time && forall r :: r in st'.recs ==> !st'.recs[r].Purging?
    ensures Kept(st')
  {
    forall s | s in st.sessions ensures KeptSession(st', st.sessions[s]) {
      assert KeptSession(st, st.sessions[s]);
    }
  }

  lemma BeginStaysKept(c: Config, st: State, s: nat, o: Owner)
    requires Kept(st)
    ensures Kept(BeginStep(c, st, s, o, st.time))
  {
    forall t | t in st.sessions ensures KeptSession(BeginStep(c, st, s, o, st.time), st.sessions[t]) {
      assert KeptSession(st, st.sessions[t]);
    }
  }

  /** A reconciler whose report is not acknowledged deletes nothing. */
  lemma ReconcileStaysKept(st: State, r: nat, fault: Fault)
    requires Kept(st)
    ensures Kept(ReconcileStep(st, r, false, fault))
  {
    var pc := if r in st.recs then st.recs[r] else Idle;
    assert !pc.Purging?;
    OutsideStaysKept(st, ReconcileStep(st, r, false, fault));
  }

  /** What happens outside the workers. */
  lemma WorldStaysKept(c: Config, st: State, a: Action)
    requires Kept(st) && Benign(st, a)
    requires a.Reconcile? || a.ReconcilerCrash? || a.Tick? || a.Offer?
    ensures Kept(Next(c, st, a))
  {
    match a
    case Reconcile(r, acked, fault) => ReconcileStaysKept(st, r, fault);
    case ReconcilerCrash(r) => OutsideStaysKept(st, st.(recs := st.recs[r := Idle]));
    case Tick(t) => if st.time <= t { OutsideStaysKept(st, st.(time := t)); }
    case Offer(route, blob, fault) => OutsideStaysKept(st, OfferStep(st, route, blob, fault));
  }

  lemma NextStaysKept(c: Config, st: State, a: Action)
    requires 0.0 < c.lease && Inv(c, st) && Kept(st) && InTime(c, st) && Benign(st, a)
    ensures Kept(Next(c, st, a))
  {
    match a
    case RunMain(s, i) => if s in st.sessions { MainStaysKept(c, st, s, i); }
    case RunRenewer(s, fault, now) => if s in st.sessions { RenewerStaysKept(c, st, s); }
    case Crash(s) =>
      if s in st.sessions { MoveStaysKept(st, s, CrashStep(st, s).sessions[s], st.log, st.terminal, st.clocks); }
    case Begin(s, o, now) => BeginStaysKept(c, st, s, o);
    case _ => WorldStaysKept(c, st, a);
  }

  /** No contender's claim ever succeeds after the first, and every renewal returns True. */
  lemma {:induction false} OnTimeOwnerKeepsTheJob(c: Config, actions: seq<Action>)
    requires 0.0 < c.lease && Punctual(c, actions)
    ensures Kept(Run(c, INIT, actions)) && InTime(c, Run(c, INIT, actions))
    ensures
      var log := Run(c, INIT, actions).log;
      && (forall i :: 0 <= i < |log| ==> !log[i].TookOver? && !log[i].RenewFailed?)
      && (forall i, j :: 0 <= i < j < |log| && log[i].Created? ==> !log[j].Created?)
  {
    if actions != [] {
      var before := actions[..|actions| - 1];
      OnTimeOwnerKeepsTheJob(c, before);
      EveryRunKeeps(c, before);
      NextStaysKept(c, Run(c, INIT, before), actions[|actions| - 1]);
    }
    EveryRunKeeps(c, actions);
    var log := Run(c, INIT, actions).log;
    forall i, j | 0 <= i < j < |log| && log[i].Created? ensures !log[j].Created? {
      MarkerStays(log, i + 1, j);
      assert EventOK(c, log[..j], log[j]);
    }
  }

  lemma {:induction false} MarkerStays(log: seq<Event>, i: nat, j: nat)
    requires 1 <= i <= j <= |log| && WritesMarker(log[i - 1]) && ClaimedGone !in log
    ensures MarkerAfter(log[..j]).Some?
  {
    assert log[..j][..j - 1] == log[..j - 1];
    if i < j { MarkerStays(log, i, j - 1); }
  }
}
