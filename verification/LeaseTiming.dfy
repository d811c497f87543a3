/**
 * When renewals land in time.  The renewing thread rests for its interval and
 * then has a lock to wait for, a marker to read and one to write; if what this
 * costs around a rest stays under two thirds of the lease, the marker is never
 * a lease old while its owner is at work.
 */
module LeaseTiming {
  import opened Options
  import opened ObjectStore
  import opened LeaseProtocol
  import opened LeaseSafety
  import opened LeaseSteps
  import opened LeaseOnTime

  function Min(a: real, b: real): real { if a <= b then a else b }
  function Max(a: real, b: real): real { if a <= b then b else a }

  /** How long the renewing thread waits between renewals. */
  function Interval(lease: real, hiveLease: real, progress: real): real {
    Max(0.05, Min(lease / 3.0, Min(hiveLease / 3.0, progress)))
  }

  /** The wait is at most a third of the lease exactly from 0.15 on. */
  lemma IntervalWithinThird(lease: real, hiveLease: real, progress: real)
    ensures Interval(lease, hiveLease, progress) <= lease / 3.0 <==> 0.15 <= lease
  {
  }

  /** It is the longest wait within a third of the lease, a third of the hive's and the progress time, but for the
      least wait of 0.05. */
  lemma IntervalIsLongest(lease: real, hiveLease: real, progress: real, other: real)
    ensures
      var wait := Interval(lease, hiveLease, progress);
      && 0.05 <= wait
      && (wait == 0.05 || (wait <= lease / 3.0 && wait <= hiveLease / 3.0 && wait <= progress))
      && (other <= lease / 3.0 && other <= hiveLease / 3.0 && other <= progress ==> other <= wait)
  {
  }

  // ---- A timed run -------------------------------------------------------------

  /** What a run may cost: `spent` from the clock reading for a marker to its write, `publish` for the activity
      object written before the rest begins, `landing` from the end of a rest to the next write. */
  datatype Pace = Pace(wait: real, spent: real, publish: real, landing: real)

  predicate AtWork(ss: Session) { !Claiming(ss.main) && !ss.main.Ended? }

  predicate Rests(st: State, s: nat) { s in st.sessions && st.sessions[s].renewer.Resting? }

  /** When the renewing thread of `s` last came to rest, and when it last woke, after one more step. */
  function RestedAfter(st: State, st': State, s: nat, was: real): real {
    if Rests(st', s) && !Rests(st, s) then st'.time else was
  }

  function WokeAfter(st: State, st': State, s: nat, was: real): real {
    if Rests(st, s) && !Rests(st', s) then st'.time else was
  }

  function Rested(c: Config, actions: seq<Action>, s: nat): real {
    if actions == [] then 0.0
    else
      var before := actions[..|actions| - 1];
      RestedAfter(Run(c, INIT, before), Run(c, INIT, actions), s, Rested(c, before, s))
  }

  function Woke(c: Config, actions: seq<Action>, s: nat): real {
    if actions == [] then 0.0
    else
      var before := actions[..|actions| - 1];
      WokeAfter(Run(c, INIT, before), Run(c, INIT, actions), s, Woke(c, before, s))
  }

  /** Session `s` is within its bounds: it rests no longer than the wait and what was published before it, the lock,
      the read and the write after a rest take no longer than `landing`, and no write comes later than `spent` after
      its clock reading. */
  predicate KeepsPace(p: Pace, st: State, ss: Session, rested: real, woke: real) {
    && (ss.main.AtCreate? && st.claimed.None? ==> st.time <= ss.main.now + p.spent)
    && (AtWork(ss) ==>
      match ss.renewer
      case Resting => st.time <= rested + p.wait + p.publish
      case RLock => st.time <= woke + p.landing
      case RRead(now) => st.time <= woke + p.landing && st.time <= now + p.spent
      case RCas(now, _) => st.time <= woke + p.landing && st.time <= now + p.spent
      case Off => true)
  }

  /** While there is a marker, somebody is at work; after the end of the work the run goes on only as long as the
      marker that it left lasts. */
  ghost predicate UnderWay(c: Config, st: State) {
    st.claimed.Some? ==> (exists s :: s in st.sessions && AtWork(st.sessions[s])) || InTime(c, st)
  }

  ghost predicate Paced(c: Config, p: Pace, actions: seq<Action>) {
    var st := Run(c, INIT, actions);
    UnderWay(c, st)
    && forall s :: s in st.sessions ==> KeepsPace(p, st, st.sessions[s], Rested(c, actions, s), Woke(c, actions, s))
  }

  /** A run with common clocks, answered calls and no purge, paced in every state. */
  ghost predicate OnSchedule(c: Config, p: Pace, actions: seq<Action>) {
    actions == [] ||
    (var before := actions[..|actions| - 1];
      OnSchedule(c, p, before) && Benign(Run(c, INIT, before), actions[|actions| - 1]) && Paced(c, p, actions))
  }

  // ---- What a paced run keeps ------------------------------------------------------

  /** The clock reading of a renewal under way. */
  function ReadAt(ss: Session): Option<real> {
    if ss.main.AtRenewRead? || ss.main.AtRenewCas? then Some(ss.main.now)
    else if ss.renewer.RRead? || ss.renewer.RCas? then Some(ss.renewer.now)
    else None
  }

  /** The marker is not much older than the last rest, a rest did not last too long, and a renewal under way will not
      turn the marker back. */
  predicate Fresh(p: Pace, st: State, ss: Session, rested: real, woke: real) {
    AtWork(ss) ==>
      && !ss.renewer.Off? && st.claimed.Some? && rested <= st.claimed.value.body.at + p.spent
      && (!ss.renewer.Resting? ==> woke <= rested + p.wait + p.publish)
      && (ReadAt(ss).Some? ==> st.claimed.value.body.at <= ReadAt(ss).value)
  }

  ghost predicate AllFresh(c: Config, p: Pace, actions: seq<Action>) {
    var st := Run(c, INIT, actions);
    forall s :: s in st.sessions ==> Fresh(p, st, st.sessions[s], Rested(c, actions, s), Woke(c, actions, s))
  }

  /** The holder's clock reading is not before the marker's. */
  lemma ReadsLater(c: Config, st: State, s: nat)
    requires Inv(c, st) && Kept(st) && s in st.sessions && AtWork(st.sessions[s])
    requires ClockAllows(st, st.sessions[s].owner, st.time)
    ensures st.claimed.Some? && st.claimed.value.body.at <= st.time
  {
    assert KeptSession(st, st.sessions[s]);
  }

  lemma ClaimIsFresh(c: Config, p: Pace, st: State, s: nat, rested: real, woke: real)
    requires Inv(c, st) && Kept(st) && s in st.sessions && Claiming(st.sessions[s].main)
    requires KeepsPace(p, st, st.sessions[s], rested, woke) && InTime(c, st)
    ensures forall i: Input :: i.fault.Fine? ==>
      var st' := MainStep(c, st, s, i);
      s in st'.sessions && Fresh(p, st', st'.sessions[s], RestedAfter(st, st', s, rested), WokeAfter(st, st', s, woke))
  {
    assert SessionOK(c, st, s, st.sessions[s]) && KeptSession(st, st.sessions[s]);
  }

  /** A session stays fresh over a step of its executing thread that leaves the marker and starts no renewal. */
  lemma MoveIsFresh(p: Pace, st: State, s: nat, ss': Session, st': State, rested: real, woke: real)
    requires s in st.sessions && s in st'.sessions && Fresh(p, st, st.sessions[s], rested, woke)
    requires st'.sessions[s] == ss' && st'.claimed == st.claimed && ss'.renewer == st.sessions[s].renewer
    requires AtWork(ss') ==> AtWork(st.sessions[s]) && (ReadAt(ss').Some? ==> ReadAt(ss') == ReadAt(st.sessions[s]))
    ensures Fresh(p, st', ss', RestedAfter(st, st', s, rested), WokeAfter(st, st', s, woke))
  {
  }

  lemma LockIsFresh(c: Config, p: Pace, st: State, s: nat, i: Input, rested: real, woke: real)
    requires Inv(c, st) && Kept(st) && s in st.sessions && st.sessions[s].main.AtLock? && i.now == st.time
    requires Fresh(p, st, st.sessions[s], rested, woke)
    ensures
      var st' := MainStep(c, st, s, i);
      s in st'.sessions && Fresh(p, st', st'.sessions[s], RestedAfter(st, st', s, rested), WokeAfter(st, st', s, woke))
  {
    var ss := st.sessions[s];
    match ss.main
    case AtLock(out, g) =>
      if ss.lock.None? && ClockAllows(st, ss.owner, i.now) {
        ReadsLater(c, st, s);
        var st' := LockStep(st, s, ss, out, g, i.now);
        assert st'.sessions[s] == ss.(main := AtRenewRead(i.now, out, g), lock := Some(MainThread))
          && st'.claimed == st.claimed;
      } else {
        assert MainStep(c, st, s, i) == st;
      }
  }

  lemma RenewalIsFresh(c: Config, p: Pace, st: State, s: nat, i: Input, rested: real, woke: real)
    requires Kept(st) && s in st.sessions && (st.sessions[s].main.AtRenewRead? || st.sessions[s].main.AtRenewCas?)
    requires SessionOK(c, st, s, st.sessions[s]) && i.fault.Fine? && Fresh(p, st, st.sessions[s], rested, woke)
    ensures
      var st' := MainStep(c, st, s, i);
      s in st'.sessions && Fresh(p, st', st'.sessions[s], RestedAfter(st, st', s, rested), WokeAfter(st, st', s, woke))
  {
    var ss := st.sessions[s];
    assert KeptSession(st, ss);
    match ss.main
    case AtRenewRead(now, out, g) =>
      assert RenewReadStep(st, s, ss, now, out, g, Fine)
        == At(st, s, ss.(main := AtRenewCas(now, st.claimed.value, out, g)));
    case AtRenewCas(now, seen, out, g) =>
      var st' := RenewCasStep(c, st, s, ss, now, seen, out, g, Fine);
      assert st'.sessions[s] == ss.(main := AtTerminal(out, g, |st.log|), lock := None);
      assert st'.claimed.value.body.at == now;
  }

  /** Up to the end of the execution. */
  lemma EarlyWorkIsFresh(c: Config, p: Pace, st: State, s: nat, i: Input, rested: real, woke: real)
    requires s in st.sessions && Fresh(p, st, st.sessions[s], rested, woke)
    requires var m := st.sessions[s].main; m.AtPending? || m.AtClaimant? || m.AtPublish? || m.Executing?
    ensures
      var st' := MainStep(c, st, s, i);
      s in st'.sessions && Fresh(p, st', st'.sessions[s], RestedAfter(st, st', s, rested), WokeAfter(st, st', s, woke))
  {
    var ss, st' := st.sessions[s], MainStep(c, st, s, i);
    if ss.main.AtPending? {
      MoveIsFresh(p, st, s, ss.(main := AfterPending(st.pending, i.fault)), st', rested, woke);
    } else {
      MoveIsFresh(p, st, s, st'.sessions[s], st', rested, woke);
    }
  }

  lemma WorkIsFresh(c: Config, p: Pace, st: State, s: nat, i: Input, rested: real, woke: real)
    requires Inv(c, st) && Kept(st) && s in st.sessions && AtWork(st.sessions[s]) && i.fault.Fine? && i.now == st.time
    requires Fresh(p, st, st.sessions[s], rested, woke)
    ensures
      var st' := MainStep(c, st, s, i);
      s in st'.sessions && Fresh(p, st', st'.sessions[s], RestedAfter(st, st', s, rested), WokeAfter(st, st', s, woke))
  {
    var ss, st' := st.sessions[s], MainStep(c, st, s, i);
    match ss.main
    case AtLock(_, _) => LockIsFresh(c, p, st, s, i, rested, woke);
    case AtRenewRead(_, _, _) => RenewalIsFresh(c, p, st, s, i, rested, woke);
    case AtRenewCas(_, _, _, _) => RenewalIsFresh(c, p, st, s, i, rested, woke);
    case AtFence(_, _) => MoveIsFresh(p, st, s, st'.sessions[s], st', rested, woke);
    case AtTerminal(_, _, _) => MoveIsFresh(p, st, s, st'.sessions[s], st', rested, woke);
    case _ => EarlyWorkIsFresh(c, p, st, s, i, rested, woke);
  }

  lemma RenewerIsFresh(c: Config, p: Pace, st: State, s: nat, rested: real, woke: real)
    requires Inv(c, st) && Kept(st) && s in st.sessions
    requires Fresh(p, st, st.sessions[s], rested, woke) && KeepsPace(p, st, st.sessions[s], rested, woke)
    ensures
      var st' := RenewerStep(c, st, s, Fine, st.time);
      s in st'.sessions && Fresh(p, st', st'.sessions[s], RestedAfter(st, st', s, rested), WokeAfter(st, st', s, woke))
  {
    var ss := st.sessions[s];
    assert SessionOK(c, st, s, ss) && KeptSession(st, ss);
    if AtWork(ss) && ss.renewer.RLock? && ss.lock.None? && ClockAllows(st, ss.owner, st.time) { ReadsLater(c, st, s); }
  }

  // ---- Steps of others ---------------------------------------------------------------

  /** Somebody else's step leaves the marker of a session at work alone. */
  ghost predicate LeavesMarker(st: State, st': State, s: nat)
    requires s in st.sessions
  {
    s in st'.sessions && st'.sessions[s] == st.sessions[s] && (AtWork(st.sessions[s]) ==> st'.claimed == st.claimed)
  }

  /** A session that holds the job has its owner's marker there, and nobody else holds it. */
  lemma AtWorkHolds(st: State, s: nat, t: nat)
    requires Kept(st) && s in st.sessions && t in st.sessions && s != t && AtWork(st.sessions[s])
    ensures st.claimed.Some? && !Holding(st.sessions[t]) && !st.sessions[t].main.AtTakeover?
  {
    assert KeptSession(st, st.sessions[s]) && KeptSession(st, st.sessions[t]) && Holding(st.sessions[s]);
  }

  lemma OtherMainLeavesMarker(c: Config, st: State, t: nat, i: Input, s: nat)
    requires Kept(st) && s in st.sessions && t in st.sessions && s != t && AtWork(st.sessions[s])
    requires i.fault.Fine?
    ensures MainStep(c, st, t, i).claimed == st.claimed && LeavesMarker(st, MainStep(c, st, t, i), s)
  {
    AtWorkHolds(st, s, t);
    match st.sessions[t].main
    case AtCreate(now) => assert CreateStep(c, st, t, st.sessions[t], now, Fine).claimed == st.claimed;
    case AtInspect(now) => assert InspectStep(c, st, t, st.sessions[t], now, Fine).claimed == st.claimed;
    case Ended =>
  }

  lemma OtherRenewerLeavesMarker(c: Config, st: State, t: nat, now: real, s: nat)
    requires Kept(st) && s in st.sessions && t in st.sessions && s != t && AtWork(st.sessions[s])
    requires SessionOK(c, st, t, st.sessions[t])
    ensures LeavesMarker(st, RenewerStep(c, st, t, Fine, now), s)
  {
    AtWorkHolds(st, s, t);
    assert st.sessions[t].renewer.Off?;
  }

  /** A step of session `t` leaves the other sessions as they are. */
  ghost predicate OnlyTouches(st: State, st': State, t: nat) {
    t in st'.sessions && st'.sessions == st.sessions[t := st'.sessions[t]]
  }

  lemma ClaimTouchesOwn(c: Config, st: State, t: nat, i: Input)
    requires t in st.sessions && Claiming(st.sessions[t].main)
    ensures OnlyTouches(st, MainStep(c, st, t, i), t)
  {
  }

  lemma FenceTouchesOwn(c: Config, st: State, t: nat, i: Input)
    requires t in st.sessions
    requires var m := st.sessions[t].main; m.AtRenewRead? || m.AtRenewCas? || m.AtTerminal?
    ensures OnlyTouches(st, MainStep(c, st, t, i), t)
  {
  }

  lemma MainTouchesOwn(c: Config, st: State, t: nat, i: Input)
    requires t in st.sessions
    ensures OnlyTouches(st, MainStep(c, st, t, i), t)
  {
    var m := st.sessions[t].main;
    if Claiming(m) {
      ClaimTouchesOwn(c, st, t, i);
    } else if m.AtRenewRead? || m.AtRenewCas? || m.AtTerminal? {
      FenceTouchesOwn(c, st, t, i);
    } else {
      PlainTouchesOwn(c, st, t, i);
    }
  }

  lemma PlainTouchesOwn(c: Config, st: State, t: nat, i: Input)
    requires t in st.sessions && !Claiming(st.sessions[t].main)
    requires !st.sessions[t].main.AtRenewRead? && !st.sessions[t].main.AtRenewCas? && !st.sessions[t].main.AtTerminal?
    ensures OnlyTouches(st, MainStep(c, st, t, i), t)
  {
  }

  lemma RenewerTouchesOwn(c: Config, st: State, t: nat, fault: Fault, now: real)
    requires t in st.sessions
    ensures OnlyTouches(st, RenewerStep(c, st, t, fault, now), t)
  {
  }

  lemma OutsidersLeaveMarker(c: Config, st: State, a: Action, s: nat)
    requires Kept(st) && Benign(st, a) && s in st.sessions && !a.RunMain? && !a.RunRenewer? && (a.Crash? ==> a.s != s)
    ensures LeavesMarker(st, Next(c, st, a), s)
  {
    match a
    case Reconcile(r, acked, fault) => assert r in st.recs ==> !st.recs[r].Purging?;
    case _ =>
  }

  lemma OthersLeaveMarker(c: Config, st: State, a: Action, s: nat)
    requires Inv(c, st) && Kept(st) && Benign(st, a) && s in st.sessions
    requires a.RunMain? || a.RunRenewer? || a.Crash? ==> a.s != s
    ensures LeavesMarker(st, Next(c, st, a), s)
  {
    if a.RunMain? && a.s in st.sessions {
      MainTouchesOwn(c, st, a.s, a.input);
      if AtWork(st.sessions[s]) { OtherMainLeavesMarker(c, st, a.s, a.input, s); }
    } else if a.RunRenewer? && a.s in st.sessions {
      RenewerTouchesOwn(c, st, a.s, a.fault, a.now);
      if AtWork(st.sessions[s]) { OtherRenewerLeavesMarker(c, st, a.s, a.now, s); }
    } else if !a.RunMain? && !a.RunRenewer? {
      OutsidersLeaveMarker(c, st, a, s);
    }
  }

  /** A session that is not touched stays fresh. */
  lemma LeftIsFresh(p: Pace, st: State, st': State, s: nat, rested: real, woke: real)
    requires s in st.sessions && LeavesMarker(st, st', s) && Fresh(p, st, st.sessions[s], rested, woke)
    ensures Fresh(p, st', st'.sessions[s], RestedAfter(st, st', s, rested), WokeAfter(st, st', s, woke))
  {
  }

  /** A session that is new has only begun to claim. */
  lemma NewIsFresh(c: Config, p: Pace, st: State, a: Action, s: nat, rested: real, woke: real)
    requires s !in st.sessions && s in Next(c, st, a).sessions
    ensures Fresh(p, Next(c, st, a), Next(c, st, a).sessions[s], rested, woke)
  {
    if a.RunMain? && a.s in st.sessions {
      MainTouchesOwn(c, st, a.s, a.input);
    } else if a.RunRenewer? && a.s in st.sessions {
      RenewerTouchesOwn(c, st, a.s, a.fault, a.now);
    } else if !a.RunMain? && !a.RunRenewer? {
      OnlyBegun(c, st, a, s);
    }
  }

  lemma OnlyBegun(c: Config, st: State, a: Action, s: nat)
    requires s !in st.sessions && s in Next(c, st, a).sessions && !a.RunMain? && !a.RunRenewer?
    ensures Claiming(Next(c, st, a).sessions[s].main)
  {
  }

  // ---- Whole runs ----------------------------------------------------------------------

  lemma NextIsFresh(c: Config, p: Pace, st: State, a: Action, s: nat, rested: real, woke: real)
    requires Inv(c, st) && Kept(st) && InTime(c, st) && Benign(st, a) && s in st.sessions
    requires Fresh(p, st, st.sessions[s], rested, woke) && KeepsPace(p, st, st.sessions[s], rested, woke)
    ensures
      var st' := Next(c, st, a);
      s in st'.sessions && Fresh(p, st', st'.sessions[s], RestedAfter(st, st', s, rested), WokeAfter(st, st', s, woke))
  {
    if a.RunMain? && a.s == s {
      if Claiming(st.sessions[s].main) {
        ClaimIsFresh(c, p, st, s, rested, woke);
      } else if AtWork(st.sessions[s]) {
        WorkIsFresh(c, p, st, s, a.input, rested, woke);
      }
    } else if a.RunRenewer? && a.s == s {
      RenewerIsFresh(c, p, st, s, rested, woke);
    } else if !(a.Crash? && a.s == s) {
      OthersLeaveMarker(c, st, a, s);
      LeftIsFresh(p, st, Next(c, st, a), s, rested, woke);
    }
  }

  /** A fresh session at work that keeps its pace has a marker less than a lease old. */
  lemma FreshIsInTime(c: Config, p: Pace, st: State, s: nat, rested: real, woke: real)
    requires p.wait + p.spent + p.publish + p.landing < c.lease && 0.0 <= p.landing
    requires s in st.sessions && AtWork(st.sessions[s])
    requires Fresh(p, st, st.sessions[s], rested, woke) && KeepsPace(p, st, st.sessions[s], rested, woke)
    ensures InTime(c, st)
  {
  }

  lemma {:induction false} ScheduleIsFresh(c: Config, p: Pace, actions: seq<Action>)
    requires 0.0 < c.lease && p.wait + p.spent + p.publish + p.landing < c.lease && 0.0 <= p.landing
    requires OnSchedule(c, p, actions)
    ensures Punctual(c, actions) && AllFresh(c, p, actions)
  {
    if actions != [] {
      var before, a := actions[..|actions| - 1], actions[|actions| - 1];
      ScheduleIsFresh(c, p, before);
      OnTimeOwnerKeepsTheJob(c, before);
      EveryRunKeeps(c, before);
      StaysFresh(c, p, before, a);
      assert actions == before + [a];
      var st := Run(c, INIT, actions);
      if exists s :: s in st.sessions && AtWork(st.sessions[s]) {
        var s :| s in st.sessions && AtWork(st.sessions[s]);
        FreshIsInTime(c, p, st, s, Rested(c, actions, s), Woke(c, actions, s));
      }
    }
  }

  lemma StaysFresh(c: Config, p: Pace, before: seq<Action>, a: Action)
    requires var st := Run(c, INIT, before); Inv(c, st) && Kept(st) && InTime(c, st) && Benign(st, a)
    requires AllFresh(c, p, before) && (before == [] || Paced(c, p, before))
    ensures AllFresh(c, p, before + [a])
  {
    var all, st := before + [a], Run(c, INIT, before);
    assert all[..|all| - 1] == before;
    forall s | s in Run(c, INIT, all).sessions
      ensures Fresh(p, Run(c, INIT, all), Run(c, INIT, all).sessions[s], Rested(c, all, s), Woke(c, all, s))
    {
      if s in st.sessions {
        NextIsFresh(c, p, st, a, s, Rested(c, before, s), Woke(c, before, s));
      } else {
        NewIsFresh(c, p, st, a, s, Rested(c, all, s), Woke(c, all, s));
      }
    }
  }

  /** A run whose renewing threads rest for their interval, and whose publishing, lock waits, reads and writes cost
      less than two thirds of the lease around each rest, is in time in every state; so while its owner is at work no
      contender ever takes the job over and no renewal fails. */
  lemma RoundTripsUnderTwoThirdsSuffice(c: Config, p: Pace, hiveLease: real, progress: real, actions: seq<Action>)
    requires 0.15 <= c.lease && p.wait == Interval(c.lease, hiveLease, progress)
    requires p.spent + p.publish + p.landing < 2.0 * c.lease / 3.0 && 0.0 <= p.landing
    requires OnSchedule(c, p, actions)
    ensures Punctual(c, actions)
    ensures forall e :: e in Run(c, INIT, actions).log ==> !e.TookOver? && !e.RenewFailed?
  {
    IntervalWithinThird(c.lease, hiveLease, progress);
    ScheduleIsFresh(c, p, actions);
    OnTimeOwnerKeepsTheJob(c, actions);
  }

  // ---- Such runs exist ---------------------------------------------------------------

  /** A paced run so far: its last state, and when its session 0 last rested and woke. */
  datatype Clocked = Clocked(actions: seq<Action>, st: State, rested: real, woke: real)

  ghost predicate Follows(c: Config, p: Pace, run: Clocked) {
    && OnSchedule(c, p, run.actions) && run.st == Run(c, INIT, run.actions)
    && run.rested == Rested(c, run.actions, 0) && run.woke == Woke(c, run.actions, 0)
  }

  function Onward(c: Config, run: Clocked, a: Action): Clocked {
    var st' := Next(c, run.st, a);
    Clocked(run.actions + [a], st', RestedAfter(run.st, st', 0, run.rested), WokeAfter(run.st, st', 0, run.woke))
  }

  lemma GoesOnward(c: Config, p: Pace, run: Clocked, a: Action)
    requires Follows(c, p, run) && Benign(run.st, a)
    requires
      var next := Onward(c, run, a);
      && UnderWay(c, next.st) && next.st.sessions.Keys <= {0}
      && (0 in next.st.sessions ==> KeepsPace(p, next.st, next.st.sessions[0], next.rested, next.woke))
    ensures Follows(c, p, Onward(c, run, a))
  {
    RunSnoc(c, INIT, run.actions, a);
    assert (run.actions + [a])[..|run.actions|] == run.actions;
  }

  function MainGo(now: real, ran: Option<string>): Action {
    RunMain(0, Input(Fine, now, true, ran))
  }

  /** While the renewing thread rests, the executing thread may move on, and end. */
  lemma WorkGoesOn(c: Config, p: Pace, run: Clocked, a: Action)
    requires NonNegative(p) && Follows(c, p, run) && Benign(run.st, a) && run.rested == run.st.time
    requires Rests(run.st, 0) && Rests(Next(c, run.st, a), 0)
    requires
      var next := Next(c, run.st, a);
      && next.time == run.st.time && next.sessions.Keys == {0}
      && (AtWork(next.sessions[0]) || (next.sessions[0].main.Ended? && InTime(c, next)))
    ensures Follows(c, p, Onward(c, run, a)) && Onward(c, run, a).rested == run.st.time
  {
    GoesOnward(c, p, run, a);
  }

  /** A worker's session after its claim, or in its first renewal. */
  function Working(renewer: Renewer, lock: Option<Thread>): Session {
    Session("w", AtPending, renewer, false, lock, 0)
  }

  const OFFER := Offer(Usable, Job, Fine)

  function Claimed(c: Config): State {
    var m := Marker("w", 0.0);
    INIT.(pending := Some(Job), claimant := Some(Usable), enq := Offered,
          claimed := Some(Obj(m, Stamp(c.scheme, m, 0))), gen := 1, clocks := map["w" := 0.0],
          sessions := map[0 := Working(Resting, None)], log := [Created(0, m)])
  }

  ghost predicate NonNegative(p: Pace) {
    0.0 <= p.wait && 0.0 <= p.spent && 0.0 <= p.publish && 0.0 <= p.landing
  }

  lemma OfferCanBeKept(c: Config, p: Pace) returns (run: Clocked)
    ensures Follows(c, p, run) && run.rested == run.woke == 0.0
    ensures run.st == INIT.(pending := Some(Job), claimant := Some(Usable), enq := Offered)
  {
    run := Clocked([], INIT, 0.0, 0.0);
    GoesOnward(c, p, run, OFFER);
    run := Onward(c, run, OFFER);
    GoesOnward(c, p, run, OFFER);
    run := Onward(c, run, OFFER);
  }

  lemma ClaimCanBeKept(c: Config, p: Pace) returns (run: Clocked)
    requires NonNegative(p)
    ensures Follows(c, p, run) && run.st == Claimed(c) && run.rested == 0.0
  {
    var go := MainGo(0.0, None);
    run := OfferCanBeKept(c, p);
    GoesOnward(c, p, run, Begin(0, "w", 0.0));
    run := Onward(c, run, Begin(0, "w", 0.0));
    assert run.st.sessions == map[0 := Session("w", AtCreate(0.0), Off, false, None, 0)];
    assert Onward(c, run, go).st == Claimed(c);
    assert AtWork(Claimed(c).sessions[0]);
    GoesOnward(c, p, run, go);
    run := Onward(c, run, go);
  }

  lemma WaitCanBeKept(c: Config, p: Pace) returns (run: Clocked)
    requires NonNegative(p)
    ensures Follows(c, p, run) && run.woke == p.wait
    ensures run.st == Claimed(c).(time := p.wait, sessions := map[0 := Working(RLock, None)])
  {
    run := ClaimCanBeKept(c, p);
    assert AtWork(run.st.sessions[0]);
    GoesOnward(c, p, run, Tick(p.wait));
    run := Onward(c, run, Tick(p.wait));
    assert AtWork(Working(RLock, None));
    assert Onward(c, run, RunRenewer(0, Fine, p.wait)).st.sessions == map[0 := Working(RLock, None)];
    GoesOnward(c, p, run, RunRenewer(0, Fine, p.wait));
    run := Onward(c, run, RunRenewer(0, Fine, p.wait));
  }

  lemma ReadCanBeKept(c: Config, p: Pace) returns (run: Clocked)
    requires NonNegative(p)
    ensures Follows(c, p, run) && run.woke == p.wait
    ensures
      var was := Claimed(c);
      run.st == was.(time := p.wait, clocks := map["w" := p.wait],
                     sessions := map[0 := Working(RCas(p.wait, was.claimed.value), Some(RenewThread))])
  {
    var renew := RunRenewer(0, Fine, p.wait);
    run := WaitCanBeKept(c, p);
    var st := Onward(c, run, renew).st;
    assert st.sessions == map[0 := Working(RRead(p.wait), Some(RenewThread))] && AtWork(st.sessions[0]);
    assert st.clocks == map["w" := p.wait];
    GoesOnward(c, p, run, renew);
    run := Onward(c, run, renew);
    var st' := Onward(c, run, renew).st;
    assert st'.sessions == map[0 := Working(RCas(p.wait, st.claimed.value), Some(RenewThread))];
    assert AtWork(st'.sessions[0]);
    GoesOnward(c, p, run, renew);
    run := Onward(c, run, renew);
  }

  function Renewal(p: Pace, byMain: bool, was: real): Event {
    Renewed(0, byMain, Marker("w", p.wait), Marker("w", was))
  }

  /** Where the executing thread is while the renewing thread rests, the lock, the markers written, and the log. */
  datatype Stage = Stage(main: Main, lock: Option<Thread>, gen: nat, log: seq<Event>)

  function Since(c: Config, p: Pace, g: Stage): State {
    var m := Marker("w", p.wait);
    INIT.(pending := Some(Job), claimant := Some(Usable), enq := Offered, time := p.wait,
          claimed := Some(Obj(m, Stamp(c.scheme, m, g.gen))), gen := g.gen + 1, clocks := map["w" := p.wait],
          sessions := map[0 := Working(Resting, g.lock).(main := g.main)], log := g.log)
  }

  ghost predicate Reached(c: Config, p: Pace, run: Clocked, st: State) {
    Follows(c, p, run) && run.st == st && run.rested == p.wait
  }

  function Opening(p: Pace): seq<Event> { [Created(0, Marker("w", 0.0)), Renewal(p, false, 0.0)] }

  lemma RenewalCanBeKept(c: Config, p: Pace) returns (run: Clocked)
    requires NonNegative(p)
    ensures Reached(c, p, run, Since(c, p, Stage(AtPending, None, 1, Opening(p))))
  {
    run := ReadCanBeKept(c, p);
    var next := Onward(c, run, RunRenewer(0, Fine, p.wait));
    assert next.st.sessions == map[0 := Working(Resting, None)] && AtWork(next.st.sessions[0]);
    GoesOnward(c, p, run, RunRenewer(0, Fine, p.wait));
    run := next;
  }

  /** The stage after one more step of the executing thread. */
  function Later(c: Config, p: Pace, g: Stage, ran: Option<string>): Stage {
    var m := Marker("w", p.wait);
    match g.main
    case AtPending => g.(main := AtPublish)
    case AtPublish => g.(main := Executing, log := g.log + [Executed(0, 0)])
    case Executing => g.(main := AtFence(Written(ran), ran.Some?))
    case AtFence(o, b) => g.(main := AtLock(o, b))
    case AtLock(o, b) => g.(main := AtRenewRead(p.wait, o, b), lock := Some(MainThread))
    case AtRenewRead(_, o, b) => g.(main := AtRenewCas(p.wait, Obj(m, Stamp(c.scheme, m, g.gen)), o, b))
    case AtRenewCas(_, _, o, b) =>
      Stage(AtTerminal(o, b, |g.log|), None, g.gen + 1, g.log + [Renewal(p, true, p.wait)])
    case _ => g
  }

  /** What the thread holds at a stage fits together. */
  predicate Coherent(c: Config, p: Pace, g: Stage) {
    var m := Marker("w", p.wait);
    match g.main
    case AtLock(_, _) => g.lock.None?
    case AtRenewRead(now, _, _) => now == p.wait
    case AtRenewCas(now, seen, _, _) => now == p.wait && seen == Obj(m, Stamp(c.scheme, m, g.gen))
    case AtFence(_, _) => true
    case AtPending => true
    case AtPublish => true
    case Executing => true
    case _ => false
  }

  lemma StageGoesOn(c: Config, p: Pace, g: Stage, ran: Option<string>)
    requires Coherent(c, p, g)
    ensures Next(c, Since(c, p, g), MainGo(p.wait, ran)) == Since(c, p, Later(c, p, g, ran))
  {
    var st, g' := Since(c, p, g), Later(c, p, g, ran);
    var st' := MainStep(c, st, 0, Input(Fine, p.wait, true, ran));
    assert st'.sessions == Since(c, p, g').sessions;
  }

  lemma StageCanBeKept(c: Config, p: Pace, run: Clocked, g: Stage, ran: Option<string>) returns (next: Clocked)
    requires NonNegative(p) && Reached(c, p, run, Since(c, p, g)) && Coherent(c, p, g)
    ensures Reached(c, p, next, Since(c, p, Later(c, p, g, ran)))
  {
    StageGoesOn(c, p, g, ran);
    var st := Since(c, p, Later(c, p, g, ran));
    assert AtWork(st.sessions[0]);
    WorkGoesOn(c, p, run, MainGo(p.wait, ran));
    next := Onward(c, run, MainGo(p.wait, ran));
  }

  lemma ExecutionCanBeKept(c: Config, p: Pace, ran: Option<string>) returns (run: Clocked)
    requires NonNegative(p)
    ensures
      var log := Opening(p) + [Executed(0, 0)];
      Reached(c, p, run, Since(c, p, Stage(AtFence(Written(ran), ran.Some?), None, 1, log)))
  {
    var g := Stage(AtPending, None, 1, Opening(p));
    run := RenewalCanBeKept(c, p);
    run := StageCanBeKept(c, p, run, g, ran);
    g := Later(c, p, g, ran);
    run := StageCanBeKept(c, p, run, g, ran);
    g := Later(c, p, g, ran);
    run := StageCanBeKept(c, p, run, g, ran);
  }

  lemma LockCanBeKept(c: Config, p: Pace, ran: Option<string>) returns (run: Clocked)
    requires NonNegative(p)
    ensures
      var log := Opening(p) + [Executed(0, 0)];
      Reached(c, p, run, Since(c, p, Stage(AtRenewRead(p.wait, Written(ran), ran.Some?), Some(MainThread), 1, log)))
  {
    var g := Stage(AtFence(Written(ran), ran.Some?), None, 1, Opening(p) + [Executed(0, 0)]);
    run := ExecutionCanBeKept(c, p, ran);
    run := StageCanBeKept(c, p, run, g, ran);
    run := StageCanBeKept(c, p, run, Later(c, p, g, ran), ran);
  }

  lemma CheckCanBeKept(c: Config, p: Pace, ran: Option<string>) returns (run: Clocked)
    requires NonNegative(p)
    ensures
      var log := Opening(p) + [Executed(0, 0)] + [Renewal(p, true, p.wait)];
      Reached(c, p, run, Since(c, p, Stage(AtTerminal(Written(ran), ran.Some?, 3), None, 2, log)))
  {
    var g := Stage(AtRenewRead(p.wait, Written(ran), ran.Some?), Some(MainThread), 1, Opening(p) + [Executed(0, 0)]);
    run := LockCanBeKept(c, p, ran);
    run := StageCanBeKept(c, p, run, g, ran);
    run := StageCanBeKept(c, p, run, Later(c, p, g, ran), ran);
  }

  /** Under every pace a worker can claim, rest for its whole wait, renew, execute, and write its terminal object. */
  lemma ScheduleCanBeKept(c: Config, p: Pace, ran: Option<string>) returns (actions: seq<Action>)
    requires 0.0 < c.lease && NonNegative(p)
    ensures OnSchedule(c, p, actions)
    ensures Run(c, INIT, actions).log ==
      [Created(0, Marker("w", 0.0)), Renewal(p, false, 0.0), Executed(0, 0), Renewal(p, true, p.wait),
       TerminalWritten(0, Written(ran), 3)]
  {
    var run := CheckCanBeKept(c, p, ran);
    var st := Next(c, run.st, MainGo(p.wait, ran));
    assert st.sessions == map[0 := Working(Resting, None).(main := Ended)];
    WorkGoesOn(c, p, run, MainGo(p.wait, ran));
    actions := Onward(c, run, MainGo(p.wait, ran)).actions;
  }
}
