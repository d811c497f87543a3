/** Each step of the lease protocol keeps the invariant; hence every run does. */
module LeaseSteps {
  import opened Options
  import opened ObjectStore
  import opened LeaseProtocol
  import opened LeaseSafety

  /** A session whose claim has just been written, whether it heard so or not. */
  lemma WinnerOK(c: Config, st: State, s: nat, ss: Session, m: Marker, e: Event)
    requires SessionOK(c, st, s, ss) && Claiming(ss.main) && IsClaim(e, s)
    ensures SessionOK(c, Wrote(c, st, m, e), s, Started(ss, |st.log|))
      && SessionOK(c, Wrote(c, st, m, e), s, Finish(ss))
  {
    assert (st.log + [e])[|st.log|] == e;
  }

  /** A claim that takes effect keeps the invariant, whether its answer arrives or not. */
  lemma WinKeeps(c: Config, st: State, s: nat, ss': Session, e: Event)
    requires Inv(c, st) && s in st.sessions && Claiming(st.sessions[s].main) && IsClaim(e, s) && EventOK(c, st.log, e)
    requires e.m.owner == st.sessions[s].owner && e.m.owner in st.clocks && e.m.at <= st.clocks[e.m.owner]
    requires ss' == Started(st.sessions[s], |st.log|) || ss' == Finish(st.sessions[s])
    ensures Inv(c, At(Wrote(c, st, e.m, e), s, ss'))
  {
    assert SessionOK(c, st, s, st.sessions[s]);
    WroteKeepsGlobals(c, st, s, e.m, e);
    WinnerOK(c, st, s, st.sessions[s], e.m, e);
    StepKeeps(c, st, Wrote(c, st, e.m, e), s, ss');
  }

  lemma CreateKeeps(c: Config, st: State, s: nat, now: real, fault: Fault)
    requires 0.0 < c.lease && Inv(c, st) && s in st.sessions && st.sessions[s].main == AtCreate(now)
    ensures Inv(c, CreateStep(c, st, s, st.sessions[s], now, fault))
  {
    var ss := st.sessions[s];
    assert SessionOK(c, st, s, ss);
    var ss' := CreateStep(c, st, s, ss, now, fault).sessions[s];
    if !fault.Lost? && st.claimed.None? {
      WinKeeps(c, st, s, ss', Created(s, Marker(ss.owner, now)));
    } else {
      MoveKeeps(c, st, s, ss');
    }
  }

  /** A step that changes nothing but where the session is. */
  lemma MoveKeeps(c: Config, st: State, s: nat, ss': Session)
    requires 0.0 < c.lease && Inv(c, st) && s in st.sessions && ss'.owner == st.sessions[s].owner
    requires Released(c, st.sessions[s]) ==> Released(c, ss')
    requires SessionOK(c, st, s, ss')
    ensures Inv(c, At(st, s, ss'))
  {
    StepKeeps(c, st, st, s, ss');
  }

  lemma InspectKeeps(c: Config, st: State, s: nat, now: real, fault: Fault)
    requires 0.0 < c.lease && Inv(c, st) && s in st.sessions && st.sessions[s].main == AtInspect(now)
    ensures Inv(c, InspectStep(c, st, s, st.sessions[s], now, fault))
  {
    assert SessionOK(c, st, s, st.sessions[s]);
    MoveKeeps(c, st, s, InspectStep(c, st, s, st.sessions[s], now, fault).sessions[s]);
  }

  lemma TakeoverKeeps(c: Config, st: State, s: nat, now: real, seen: Obj<Marker>, fault: Fault)
    requires 0.0 < c.lease && Inv(c, st) && s in st.sessions && st.sessions[s].main == AtTakeover(now, seen)
    ensures Inv(c, TakeoverStep(c, st, s, st.sessions[s], now, seen, fault))
  {
    var ss := st.sessions[s];
    assert SessionOK(c, st, s, ss);
    var ss' := TakeoverStep(c, st, s, ss, now, seen, fault).sessions[s];
    var m := Marker(ss.owner, now);
    if !fault.Lost? && CasWrite(st.claimed, c.scheme, m, st.gen, seen.version).1 {
      WinKeeps(c, st, s, ss', TookOver(s, m, st.claimed.value.body));
    } else {
      MoveKeeps(c, st, s, ss');
    }
  }

  /** Where a session stands that has just read the pending object. */
  lemma PendingWasThere(c: Config, st: State, s: nat, ss: Session, main': Main)
    requires SessionOK(c, st, s, ss) && ss.main.AtPending? && OrderOK(st) && st.pending.Some?
    requires main'.AtClaimant? || main'.AtFence? || main'.AtPublish?
    ensures SessionOK(c, st, s, ss.(main := main'))
  {
    assert ClaimedGone !in st.log[..ss.claimIdx];
  }

  lemma PendingKeeps(c: Config, st: State, s: nat, fault: Fault)
    requires 0.0 < c.lease && Inv(c, st) && s in st.sessions && st.sessions[s].main.AtPending?
    ensures Inv(c, PendingStep(st, s, st.sessions[s], fault))
  {
    var ss := st.sessions[s];
    var main' := AfterPending(st.pending, fault);
    assert SessionOK(c, st, s, ss);
    if main' != Ended {
      PendingWasThere(c, st, s, ss, main');
    }
    MoveKeeps(c, st, s, ss.(main := main'));
  }

  lemma ClaimantKeeps(c: Config, st: State, s: nat, fault: Fault)
    requires 0.0 < c.lease && Inv(c, st) && s in st.sessions && st.sessions[s].main.AtClaimant?
    ensures Inv(c, ClaimantStep(st, s, st.sessions[s], fault))
  {
    var ss := st.sessions[s];
    assert SessionOK(c, st, s, ss);
    if !fault.Fine? || st.claimant != Some(Usable) {
      MoveKeeps(c, st, s, Finish(ss));
    } else {
      MoveKeeps(c, st, s, ss.(main := AtFence(Failure(Undecryptable), false)));
    }
  }

  /** An event that changes no object leaves a session's part of the invariant alone. */
  lemma LoggedKeepsSession(c: Config, st: State, s: nat, ss: Session, e: Event)
    requires SessionOK(c, st, s, ss) && e != ClaimedGone
    ensures SessionOK(c, Log(st, e), s, ss)
  {
    PrefixKeeps(st.log, Log(st, e).log);
  }

  lemma ExecutionKeeps(c: Config, st: State, s: nat)
    requires Inv(c, st) && s in st.sessions && st.sessions[s].main.AtPublish?
    ensures Inv(c, At(Log(st, Executed(s, st.sessions[s].claimIdx)), s, st.sessions[s].(main := Executing)))
  {
    var ss, e := st.sessions[s], Executed(s, st.sessions[s].claimIdx);
    assert SessionOK(c, st, s, ss);
    LoggedKeepsGlobals(c, st, e, ss.owner);
    LoggedKeepsSession(c, st, s, ss, e);
    StepKeeps(c, st, Log(st, e), s, ss.(main := Executing));
  }

  lemma PublishKeeps(c: Config, st: State, s: nat, published: bool)
    requires 0.0 < c.lease && Inv(c, st) && s in st.sessions && st.sessions[s].main.AtPublish?
    ensures Inv(c, PublishStep(st, s, st.sessions[s], published))
  {
    var ss, ss' := st.sessions[s], PublishStep(st, s, st.sessions[s], published).sessions[s];
    assert SessionOK(c, st, s, ss);
    if published {
      ExecutionKeeps(c, st, s);
    } else {
      MoveKeeps(c, st, s, ss');
    }
  }

  lemma WithinKeeps(c: Config, st: State, s: nat, main': Main)
    requires 0.0 < c.lease && Inv(c, st) && s in st.sessions
    requires st.sessions[s].main.Executing? || st.sessions[s].main.AtFence?
    requires main'.Ended? || main'.AtFence? || main'.AtLock?
    ensures Inv(c, At(st, s, st.sessions[s].(main := main')))
  {
    assert SessionOK(c, st, s, st.sessions[s]);
    MoveKeeps(c, st, s, st.sessions[s].(main := main'));
  }

  lemma LockKeeps(c: Config, st: State, s: nat, out: Outcome, guarded: bool, now: real)
    requires 0.0 < c.lease && Inv(c, st) && s in st.sessions && st.sessions[s].main == AtLock(out, guarded)
    ensures Inv(c, LockStep(st, s, st.sessions[s], out, guarded, now))
  {
    var ss := st.sessions[s];
    assert SessionOK(c, st, s, ss);
    if ss.lock.None? && ClockAllows(st, ss.owner, now) {
      StepKeeps(c, st, st.(clocks := st.clocks[ss.owner := now]), s,
                ss.(main := AtRenewRead(now, out, guarded), lock := Some(MainThread)));
    }
  }

  lemma RLockKeeps(c: Config, st: State, s: nat, now: real)
    requires 0.0 < c.lease && Inv(c, st) && s in st.sessions && st.sessions[s].renewer.RLock?
    ensures Inv(c, RLockStep(st, s, st.sessions[s], now))
  {
    var ss := st.sessions[s];
    assert SessionOK(c, st, s, ss);
    if ss.lock.None? && ClockAllows(st, ss.owner, now) {
      var st1 := st.(clocks := st.clocks[ss.owner := now]);
      OthersKeep(c, st, st1, ss.owner, s, ss);
      StepKeeps(c, st, st1, s, ss.(renewer := RRead(now), lock := Some(RenewThread)));
    }
  }

  lemma RefusedKeeps(c: Config, st: State, s: nat)
    requires 0.0 < c.lease && Inv(c, st) && s in st.sessions
    requires st.sessions[s].main.AtRenewRead? || st.sessions[s].main.AtRenewCas?
    ensures Inv(c, Refused(st, s, st.sessions[s]))
  {
    var ss := st.sessions[s];
    assert SessionOK(c, st, s, ss);
    LoggedKeepsGlobals(c, st, RenewFailed(s), ss.owner);
    StepKeeps(c, st, Log(st, RenewFailed(s)), s, Finish(ss).(lost := true, lock := None));
  }

  lemma DroppedKeeps(c: Config, st: State, s: nat)
    requires 0.0 < c.lease && Inv(c, st) && s in st.sessions
    requires st.sessions[s].renewer.RRead? || st.sessions[s].renewer.RCas?
    ensures Inv(c, Dropped(st, s, st.sessions[s]))
  {
    var ss := st.sessions[s];
    assert SessionOK(c, st, s, ss);
    LoggedKeepsGlobals(c, st, RenewFailed(s), ss.owner);
    OthersKeep(c, st, Log(st, RenewFailed(s)), ss.owner, s, ss);
    StepKeeps(c, st, Log(st, RenewFailed(s)), s, ss.(renewer := Off, lost := true, lock := None));
  }

  lemma RenewReadKeeps(c: Config, st: State, s: nat, now: real, out: Outcome, guarded: bool, fault: Fault)
    requires 0.0 < c.lease && Inv(c, st) && s in st.sessions && st.sessions[s].main == AtRenewRead(now, out, guarded)
    ensures Inv(c, RenewReadStep(st, s, st.sessions[s], now, out, guarded, fault))
  {
    var ss := st.sessions[s];
    assert SessionOK(c, st, s, ss);
    if !fault.Fine? || st.claimed.None? || st.claimed.value.body.owner != ss.owner {
      RefusedKeeps(c, st, s);
    } else {
      MoveKeeps(c, st, s, ss.(main := AtRenewCas(now, st.claimed.value, out, guarded)));
    }
  }

  lemma RReadKeeps(c: Config, st: State, s: nat, now: real, fault: Fault)
    requires 0.0 < c.lease && Inv(c, st) && s in st.sessions && st.sessions[s].renewer == RRead(now)
    ensures Inv(c, RReadStep(st, s, st.sessions[s], now, fault))
  {
    var ss := st.sessions[s];
    assert SessionOK(c, st, s, ss);
    if !fault.Fine? || st.claimed.None? || st.claimed.value.body.owner != ss.owner {
      DroppedKeeps(c, st, s);
    } else {
      MoveKeeps(c, st, s, ss.(renewer := RCas(now, st.claimed.value)));
    }
  }

  ghost predicate InCas(ss: Session, now: real, seen: Obj<Marker>) {
    (ss.main.AtRenewCas? && ss.main.now == now && ss.main.seen == seen) || ss.renewer == RCas(now, seen)
  }

  /** The session that renewed keeps its own part: the marker it replaced is the one it read. */
  lemma RenewerKeepsOwn(c: Config, st: State, s: nat, ss: Session, now: real, seen: Obj<Marker>, m: Marker, e: Event)
    requires SessionOK(c, st, s, ss) && m == Marker(ss.owner, now)
    requires CasWrite(st.claimed, c.scheme, m, st.gen, seen.version).1
    requires InCas(ss, now, seen) && MarkerOK(c, st)
    requires e.Renewed? && e.m == m && e.prev == st.claimed.value.body
    ensures SessionOK(c, Wrote(c, st, m, e), s, ss)
    ensures EventOK(c, st.log, e) && m.owner in st.clocks && m.at <= st.clocks[m.owner] && !Quiet(ss)
    ensures PastPending(ss.main) ==> ClaimedGone !in st.log
  {
    assert st.claimed.value.body == seen.body;
    Appended(st.log, e);
    PrefixKeeps(st.log, st.log + [e]);
  }

  /** A step of session `s` that leaves the session where it is. */
  lemma StaysKeeps(c: Config, st: State, st1: State, s: nat)
    requires Inv(c, st) && s in st.sessions && st1.sessions == st.sessions && MayWrite(c, st, st.sessions[s])
    requires Frame(c, st, st1, st.sessions[s].owner) && SessionOK(c, st1, s, st.sessions[s]) && Globals(c, st1)
    ensures Inv(c, st1)
  {
    forall t | t in st.sessions ensures SessionOK(c, st1, t, st1.sessions[t]) {
      if t != s {
        if st.sessions[t].owner == st.sessions[s].owner { WritesAlone(c, st, s, t); }
        OthersKeep(c, st, st1, st.sessions[s].owner, t, st.sessions[t]);
      }
    }
  }

  /** A renewal's CAS that takes effect, with the lock still held. */
  lemma RenewalKeeps(c: Config, st: State, s: nat, byMain: bool, now: real, seen: Obj<Marker>, m: Marker, e: Event)
    requires 0.0 < c.lease && Inv(c, st) && s in st.sessions && m == Marker(st.sessions[s].owner, now)
    requires InCas(st.sessions[s], now, seen)
    requires CasWrite(st.claimed, c.scheme, m, st.gen, seen.version).1
    requires e == Renewed(s, byMain, m, st.claimed.value.body)
    ensures Inv(c, Wrote(c, st, m, e))
    ensures PastPending(st.sessions[s].main) ==> ClaimedGone !in st.log
  {
    var ss := st.sessions[s];
    RenewerKeepsOwn(c, st, s, ss, now, seen, m, e);
    WroteKeepsGlobals(c, st, s, m, e);
    StaysKeeps(c, st, Wrote(c, st, m, e), s);
  }

  lemma RenewCasKeeps(c: Config, st: State, s: nat, now: real, seen: Obj<Marker>, out: Outcome, guarded: bool,
        fault: Fault)
    requires 0.0 < c.lease && Inv(c, st) && s in st.sessions
      && st.sessions[s].main == AtRenewCas(now, seen, out, guarded)
    ensures Inv(c, RenewCasStep(c, st, s, st.sessions[s], now, seen, out, guarded, fault))
  {
    var ss := st.sessions[s];
    assert SessionOK(c, st, s, ss);
    var m := Marker(ss.owner, now);
    if fault.Lost? || !CasWrite(st.claimed, c.scheme, m, st.gen, seen.version).1 {
      RefusedKeeps(c, st, s);
    } else {
      var e := Renewed(s, true, m, st.claimed.value.body);
      var st1 := Wrote(c, st, m, e);
      RenewalKeeps(c, st, s, true, now, seen, m, e);
      if fault.Fine? {
        assert IsCheck(st1.log, s, |st.log|) by { Appended(st.log, e); }
        assert SessionOK(c, st1, s, ss);
        MoveKeeps(c, st1, s, ss.(main := AtTerminal(out, guarded, |st.log|), lock := None));
      } else {
        RefusedKeeps(c, st1, s);
      }
    }
  }

  lemma RCasKeeps(c: Config, st: State, s: nat, now: real, seen: Obj<Marker>, fault: Fault)
    requires 0.0 < c.lease && Inv(c, st) && s in st.sessions && st.sessions[s].renewer == RCas(now, seen)
    ensures Inv(c, RCasStep(c, st, s, st.sessions[s], now, seen, fault))
  {
    var ss := st.sessions[s];
    assert SessionOK(c, st, s, ss);
    var m := Marker(ss.owner, now);
    if fault.Lost? || !CasWrite(st.claimed, c.scheme, m, st.gen, seen.version).1 {
      DroppedKeeps(c, st, s);
    } else {
      var e := Renewed(s, false, m, st.claimed.value.body);
      var st1 := Wrote(c, st, m, e);
      RenewalKeeps(c, st, s, false, now, seen, m, e);
      if fault.Fine? {
        assert SessionOK(c, st1, s, ss);
        MoveKeeps(c, st1, s, ss.(renewer := Resting, lock := None));
      } else {
        DroppedKeeps(c, st1, s);
      }
    }
  }

  lemma WakeKeeps(c: Config, st: State, s: nat)
    requires 0.0 < c.lease && Inv(c, st) && s in st.sessions && st.sessions[s].renewer.Resting?
    ensures Inv(c, WakeStep(st, s, st.sessions[s]))
  {
    assert SessionOK(c, st, s, st.sessions[s]);
    MoveKeeps(c, st, s, WakeStep(st, s, st.sessions[s]).sessions[s]);
  }

  /** The shared part of the invariant, after the terminal object was written. */
  lemma TerminalKeepsGlobals(c: Config, st: State, s: nat, out: Outcome, check: nat, o: Owner)
    requires Globals(c, st) && st.enq.Offered? && st.terminal.None?
      && EventOK(c, st.log, TerminalWritten(s, out, check))
    ensures
      var st1 := Log(st.(terminal := Some(out)), TerminalWritten(s, out, check));
      Globals(c, st1) && Frame(c, st, st1, o)
  {
    Appended(st.log, TerminalWritten(s, out, check));
    LogGrows(c, st.log, TerminalWritten(s, out, check));
  }

  lemma WriteTerminalKeeps(c: Config, st: State, s: nat, out: Outcome, check: nat, ss': Session)
    requires Inv(c, st) && s in st.sessions && st.sessions[s].main.AtTerminal? && st.sessions[s].main.check == check
    requires st.terminal.None?
      && ss' in [Finish(st.sessions[s]), st.sessions[s].(main := AtFence(Failure(Raised), false))]
    ensures Inv(c, At(Log(st.(terminal := Some(out)), TerminalWritten(s, out, check)), s, ss'))
  {
    var ss, st1 := st.sessions[s], Log(st.(terminal := Some(out)), TerminalWritten(s, out, check));
    assert SessionOK(c, st, s, ss);
    TerminalKeepsGlobals(c, st, s, out, check, ss.owner);
    OthersKeep(c, st, st1, ss.owner, s, ss);
    StepKeeps(c, st, st1, s, ss');
  }

  lemma TerminalKeeps(c: Config, st: State, s: nat, out: Outcome, guarded: bool, check: nat, fault: Fault)
    requires 0.0 < c.lease && Inv(c, st) && s in st.sessions && st.sessions[s].main == AtTerminal(out, guarded, check)
    ensures Inv(c, TerminalStep(st, s, st.sessions[s], out, guarded, check, fault))
  {
    var ss := st.sessions[s];
    var ss' := if !fault.Fine? && guarded then ss.(main := AtFence(Failure(Raised), false)) else Finish(ss);
    if !fault.Lost? && st.terminal.None? {
      WriteTerminalKeeps(c, st, s, out, check, ss');
    } else {
      assert SessionOK(c, st, s, ss);
      MoveKeeps(c, st, s, ss');
    }
  }

  lemma BeginKeepsExclusive(c: Config, st: State, s: nat, o: Owner, now: real)
    requires Exclusive(c, st) && CanBegin(c, st, s, o, now)
    ensures Exclusive(c, BeginStep(c, st, s, o, now))
  {
  }

  lemma BeginKeepsSessions(c: Config, st: State, s: nat, o: Owner, now: real)
    requires Inv(c, st) && CanBegin(c, st, s, o, now)
    ensures
      var st' := BeginStep(c, st, s, o, now);
      forall t :: t in st'.sessions ==> SessionOK(c, st', t, st'.sessions[t])
  {
    var st' := BeginStep(c, st, s, o, now);
    var st1 := st.(clocks := st.clocks[o := now]);
    assert SessionOK(c, st', s, st'.sessions[s]);
    forall t | t in st.sessions ensures SessionOK(c, st', t, st'.sessions[t]) {
      OthersKeep(c, st, st1, o, t, st.sessions[t]);
      SameForSession(c, st1, st', t, st.sessions[t]);
    }
  }

  lemma BeginKeepsGlobals(c: Config, st: State, s: nat, o: Owner, now: real)
    requires Globals(c, st) && CanBegin(c, st, s, o, now)
    ensures Globals(c, BeginStep(c, st, s, o, now))
  {
  }

  lemma BeginKeeps(c: Config, st: State, s: nat, o: Owner, now: real)
    requires 0.0 < c.lease && Inv(c, st)
    ensures Inv(c, BeginStep(c, st, s, o, now))
  {
    if CanBegin(c, st, s, o, now) {
      BeginKeepsExclusive(c, st, s, o, now);
      BeginKeepsSessions(c, st, s, o, now);
      BeginKeepsGlobals(c, st, s, o, now);
    }
  }

  lemma CrashKeeps(c: Config, st: State, s: nat)
    requires 0.0 < c.lease && Inv(c, st) && s in st.sessions
    ensures Inv(c, CrashStep(st, s))
  {
    MoveKeeps(c, st, s, CrashStep(st, s).sessions[s]);
  }

  /** Steps by nobody's session: the sessions keep their part. */
  lemma OutsideKeeps(c: Config, st: State, st': State)
    requires Inv(c, st) && st'.sessions == st.sessions && Frame(c, st, st', "") && Globals(c, st')
    requires st'.claimed == st.claimed || st'.claimed.None?
    ensures Inv(c, st')
  {
    forall s | s in st.sessions ensures SessionOK(c, st', s, st'.sessions[s]) {
      OthersKeep(c, st, st', "", s, st.sessions[s]);
    }
  }

  lemma DeleteKeeps(c: Config, st: State, k: nat)
    requires 0.0 < c.lease && Inv(c, st) && st.enq.Offered? && (k >= 1 ==> st.pending.None?)
    ensures Inv(c, DeleteStep(st, k))
  {
    if k == 2 || k == 3 {
      var e := if k == 2 then ClaimedGone else TerminalGone;
      Appended(st.log, e);
      LogGrows(c, st.log, e);
    }
    OutsideKeeps(c, st, DeleteStep(st, k));
  }

  lemma ReconcilersKeep(c: Config, st: State, r: nat, pc: Reconciler)
    requires 0.0 < c.lease && Inv(c, st)
    requires !pc.Idle? ==> st.enq.Offered?
    requires pc.Purging? && pc.k >= 1 ==> st.pending.None?
    ensures Inv(c, st.(recs := st.recs[r := pc]))
  {
    OutsideKeeps(c, st, st.(recs := st.recs[r := pc]));
  }

  lemma PurgeKeeps(c: Config, st: State, r: nat, k: nat, fault: Fault)
    requires 0.0 < c.lease && Inv(c, st) && r in st.recs && st.recs[r] == Purging(k)
    ensures Inv(c, ReconcileStep(st, r, true, fault))
  {
    var pc' := if fault.Fine? && k < 4 then Purging(k + 1) else Idle;
    assert st.enq.Offered? by { assert OrderOK(st) && !st.recs[r].Idle?; }
    if fault.Lost? {
      ReconcilersKeep(c, st, r, pc');
    } else {
      DeleteKeeps(c, st, k);
      DeleteLeaves(st, k);
      ReconcilersKeep(c, DeleteStep(st, k), r, pc');
    }
  }

  lemma DeleteLeaves(st: State, k: nat)
    ensures DeleteStep(st, k).recs == st.recs && DeleteStep(st, k).enq == st.enq
    ensures st.pending.None? || k == 0 ==> DeleteStep(st, k).pending.None?
  {
  }

  lemma ReconcileKeeps(c: Config, st: State, r: nat, acked: bool, fault: Fault)
    requires 0.0 < c.lease && Inv(c, st)
    ensures Inv(c, ReconcileStep(st, r, acked, fault))
  {
    var pc := if r in st.recs then st.recs[r] else Idle;
    match pc
    case Purging(k) => PurgeKeeps(c, st, r, k, fault);
    case Seen => ReconcilersKeep(c, st, r, if acked then Purging(0) else Idle);
    case Idle => ReconcilersKeep(c, st, r, if fault.Fine? && st.terminal.Some? then Seen else Idle);
  }

  lemma OfferKeeps(c: Config, st: State, route: Route, blob: PendingBlob, fault: Fault)
    requires 0.0 < c.lease && Inv(c, st)
    ensures Inv(c, OfferStep(st, route, blob, fault))
  {
    match st.enq
    case NotYet => OutsideKeeps(c, st, OfferStep(st, route, blob, fault));
    case RoutePut => OutsideKeeps(c, st, OfferStep(st, route, blob, fault));
    case _ =>
  }

  /** Up to the executor. */
  lemma FirstHalfKeeps(c: Config, st: State, s: nat, i: Input)
    requires 0.0 < c.lease && Inv(c, st) && s in st.sessions
    requires var m := st.sessions[s].main; Claiming(m) || m.AtPending? || m.AtClaimant? || m.AtPublish?
    ensures Inv(c, MainStep(c, st, s, i))
  {
    match st.sessions[s].main
    case AtCreate(now) => CreateKeeps(c, st, s, now, i.fault);
    case AtInspect(now) => InspectKeeps(c, st, s, now, i.fault);
    case AtTakeover(now, seen) => TakeoverKeeps(c, st, s, now, seen, i.fault);
    case AtPending => PendingKeeps(c, st, s, i.fault);
    case AtClaimant => ClaimantKeeps(c, st, s, i.fault);
    case AtPublish => PublishKeeps(c, st, s, i.published);
  }

  /** From the executor to the terminal object. */
  lemma SecondHalfKeeps(c: Config, st: State, s: nat, i: Input)
    requires 0.0 < c.lease && Inv(c, st) && s in st.sessions
    requires PastPending(st.sessions[s].main) && !st.sessions[s].main.AtClaimant? && !st.sessions[s].main.AtPublish?
    ensures Inv(c, MainStep(c, st, s, i))
  {
    var ss := st.sessions[s];
    match ss.main
    case Executing =>
      var main' := ExecuteStep(st, s, ss, i.ran).sessions[s].main;
      WithinKeeps(c, st, s, main');
      assert MainStep(c, st, s, i) == At(st, s, ss.(main := main'));
    case AtFence(out, g) =>
      WithinKeeps(c, st, s, if ss.lost then Ended else AtLock(out, g));
      assert MainStep(c, st, s, i) == At(st, s, ss.(main := if ss.lost then Ended else AtLock(out, g)));
    case AtLock(out, g) => LockKeeps(c, st, s, out, g, i.now);
    case AtRenewRead(now, out, g) => RenewReadKeeps(c, st, s, now, out, g, i.fault);
    case AtRenewCas(now, seen, out, g) => RenewCasKeeps(c, st, s, now, seen, out, g, i.fault);
    case AtTerminal(out, g, check) => TerminalKeeps(c, st, s, out, g, check, i.fault);
  }

  lemma MainKeeps(c: Config, st: State, s: nat, i: Input)
    requires 0.0 < c.lease && Inv(c, st) && s in st.sessions
    ensures Inv(c, MainStep(c, st, s, i))
  {
    var m := st.sessions[s].main;
    if Claiming(m) || m.AtPending? || m.AtClaimant? || m.AtPublish? {
      FirstHalfKeeps(c, st, s, i);
    } else if m.Ended? {
      assert MainStep(c, st, s, i) == st;
    } else {
      SecondHalfKeeps(c, st, s, i);
    }
  }

  lemma RenewerKeeps(c: Config, st: State, s: nat, fault: Fault, now: real)
    requires 0.0 < c.lease && Inv(c, st) && s in st.sessions
    ensures Inv(c, RenewerStep(c, st, s, fault, now))
  {
    match st.sessions[s].renewer
    case Off =>
    case Resting => WakeKeeps(c, st, s);
    case RLock => RLockKeeps(c, st, s, now);
    case RRead(t) => RReadKeeps(c, st, s, t, fault);
    case RCas(t, seen) => RCasKeeps(c, st, s, t, seen, fault);
  }

  lemma NextKeeps(c: Config, st: State, a: Action)
    requires 0.0 < c.lease && Inv(c, st)
    ensures Inv(c, Next(c, st, a))
  {
    match a
    case Tick(t) => OutsideKeeps(c, st, Next(c, st, a));
    case Begin(s, o, now) => BeginKeeps(c, st, s, o, now);
    case RunMain(s, i) => if s in st.sessions { MainKeeps(c, st, s, i); }
    case RunRenewer(s, fault, now) => if s in st.sessions { RenewerKeeps(c, st, s, fault, now); }
    case Crash(s) => if s in st.sessions { CrashKeeps(c, st, s); }
    case Reconcile(r, acked, fault) => ReconcileKeeps(c, st, r, acked, fault);
    case ReconcilerCrash(r) => OutsideKeeps(c, st, Next(c, st, a));
    case Offer(route, blob, fault) => OfferKeeps(c, st, route, blob, fault);
  }

  /** Every state of every run, from any state that has the invariant. */
  lemma {:induction false} RunKeeps(c: Config, st: State, actions: seq<Action>)
    requires 0.0 < c.lease && Inv(c, st)
    ensures Inv(c, Run(c, st, actions))
  {
    if actions != [] {
      RunKeeps(c, st, actions[..|actions| - 1]);
      NextKeeps(c, Run(c, st, actions[..|actions| - 1]), actions[|actions| - 1]);
    }
  }

  lemma {:induction false} EveryRunKeeps(c: Config, actions: seq<Action>)
    requires 0.0 < c.lease
    ensures Inv(c, Run(c, INIT, actions))
  {
    RunKeeps(c, INIT, actions);
  }
}
