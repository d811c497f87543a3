/**
 * From every reachable state with a pending job, one worker running alone
 * without store errors ends with a terminal object, once the marker's lease
 * is over: whatever crashed before, whether the executor returns or raises,
 * and even if the pending object is corrupt.  And the object is the one due.
 */
module LeaseRecovery {
  import opened Options
  import opened ObjectStore
  import opened LeaseProtocol
  import opened LeaseSafety
  import opened LeaseSteps

  /** An action of session `s` alone, without store errors; its two threads interleave freely. */
  predicate Solo(s: nat, a: Action) {
    match a
    case RunMain(t, i) => t == s && i.fault.Fine?
    case RunRenewer(t, fault, _) => t == s && fault.Fine?
    case Tick(_) => true
    case _ => false
  }

  predicate AllSolo(s: nat, actions: seq<Action>) {
    forall a :: a in actions ==> Solo(s, a)
  }

  /** The pending object is there, and if it does not open, its claimant route does. */
  predicate Reportable(st: State) {
    st.pending.Some? && (st.pending.value.Corrupt? ==> st.claimant == Some(Usable))
  }

  ghost predicate Alone(c: Config, st: State, s: nat) {
    && s in st.sessions && Reportable(st)
    && (var ss := st.sessions[s];
      && !ss.lost
      && (Claiming(ss.main) && st.claimed.Some? ==> c.lease <= ss.main.now - st.claimed.value.body.at)
      && (ss.main.AtInspect? ==> st.claimed.Some?)
      && (ss.main.AtTakeover? ==> st.claimed == Some(ss.main.seen))
      && (!Claiming(ss.main) ==> st.claimed.Some? && st.claimed.value.body.owner == ss.owner)
      && (ss.main.AtClaimant? ==> st.claimant == Some(Usable))
      && (ss.main.AtRenewCas? ==> st.claimed == Some(ss.main.seen))
      && (ss.renewer.RCas? ==> st.claimed == Some(ss.renewer.seen))
      && (ss.main.Ended? ==> st.terminal.Some?))
  }

  function Rank(m: Main): nat {
    match m
    case AtCreate(_) => 11
    case AtInspect(_) => 10
    case AtTakeover(_, _) => 9
    case AtPending => 8
    case AtClaimant => 7
    case AtPublish => 7
    case Executing => 6
    case AtFence(_, _) => 5
    case AtLock(_, _) => 4
    case AtRenewRead(_, _, _) => 3
    case AtRenewCas(_, _, _, _) => 2
    case AtTerminal(_, _, _) => 1
    case Ended => 0
  }

  /** The executing thread waits: for the lock, or for its clock not to run backwards. */
  predicate Waits(st: State, ss: Session, now: real) {
    ss.main.AtLock? && (ss.lock.Some? || !ClockAllows(st, ss.owner, now))
  }

  /** The part of the invariant that session `s` needs. */
  lemma OwnPart(c: Config, st: State, s: nat)
    requires Inv(c, st) && s in st.sessions
    ensures SessionOK(c, st, s, st.sessions[s])
    ensures st.claimed.Some? ==> Stamped(c.scheme, st.claimed.value, st.gen)
  {
  }

  lemma ClaimStaysAlone(c: Config, st: State, s: nat, i: Input)
    requires s in st.sessions && SessionOK(c, st, s, st.sessions[s]) && Alone(c, st, s) && i.fault.Fine?
      && Claiming(st.sessions[s].main)
    ensures Alone(c, MainStep(c, st, s, i), s)
      && Rank(MainStep(c, st, s, i).sessions[s].main) < Rank(st.sessions[s].main)
  {
    var ss := st.sessions[s];
    match ss.main
    case AtCreate(now) =>
      var st' := CreateStep(c, st, s, ss, now, Fine);
      assert st'.sessions[s] == if st.claimed.None? then Started(ss, |st.log|) else ss.(main := AtInspect(now));
    case AtInspect(now) =>
      assert InspectStep(c, st, s, ss, now, Fine).sessions[s] == ss.(main := AtTakeover(now, st.claimed.value));
    case AtTakeover(now, seen) =>
      assert TakeoverStep(c, st, s, ss, now, seen, Fine).sessions[s] == Started(ss, |st.log|);
  }

  lemma RenewStaysAlone(c: Config, st: State, s: nat, i: Input)
    requires s in st.sessions && SessionOK(c, st, s, st.sessions[s]) && Alone(c, st, s) && i.fault.Fine?
    requires st.sessions[s].main.AtRenewRead? || st.sessions[s].main.AtRenewCas?
    ensures Alone(c, MainStep(c, st, s, i), s)
      && Rank(MainStep(c, st, s, i).sessions[s].main) < Rank(st.sessions[s].main)
  {
    var ss := st.sessions[s];
    match ss.main
    case AtRenewRead(now, out, g) =>
      assert RenewReadStep(st, s, ss, now, out, g, Fine)
        == At(st, s, ss.(main := AtRenewCas(now, st.claimed.value, out, g)));
    case AtRenewCas(now, seen, out, g) =>
      var st' := RenewCasStep(c, st, s, ss, now, seen, out, g, Fine);
      assert st'.sessions[s] == ss.(main := AtTerminal(out, g, |st.log|), lock := None);
  }

  lemma MainStaysAlone(c: Config, st: State, s: nat, i: Input)
    requires Inv(c, st) && Alone(c, st, s) && i.fault.Fine?
    ensures Alone(c, MainStep(c, st, s, i), s)
    ensures
      var ss, ss' := st.sessions[s], MainStep(c, st, s, i).sessions[s];
      if ss.main.Ended? || Waits(st, ss, i.now) then ss' == ss else Rank(ss'.main) < Rank(ss.main)
  {
    OwnPart(c, st, s);
    OtherStaysAlone(c, st, s, i);
  }

  lemma LastStaysAlone(c: Config, st: State, s: nat, i: Input)
    requires s in st.sessions && SessionOK(c, st, s, st.sessions[s]) && Alone(c, st, s) && i.fault.Fine?
    requires var m := st.sessions[s].main; m.AtLock? || m.AtTerminal? || m.Ended?
    ensures Alone(c, MainStep(c, st, s, i), s)
    ensures
      var ss, ss' := st.sessions[s], MainStep(c, st, s, i).sessions[s];
      if ss.main.Ended? || Waits(st, ss, i.now) then ss' == ss else Rank(ss'.main) < Rank(ss.main)
  {
  }

  lemma StartStaysAlone(c: Config, st: State, s: nat, i: Input)
    requires s in st.sessions && SessionOK(c, st, s, st.sessions[s]) && Alone(c, st, s) && i.fault.Fine?
    requires var m := st.sessions[s].main; m.AtPending? || m.AtClaimant? || m.AtPublish?
    ensures Alone(c, MainStep(c, st, s, i), s)
    ensures Rank(MainStep(c, st, s, i).sessions[s].main) < Rank(st.sessions[s].main)
  {
  }

  lemma OtherStaysAlone(c: Config, st: State, s: nat, i: Input)
    requires s in st.sessions && SessionOK(c, st, s, st.sessions[s]) && Alone(c, st, s) && i.fault.Fine?
    ensures Alone(c, MainStep(c, st, s, i), s)
    ensures
      var ss, ss' := st.sessions[s], MainStep(c, st, s, i).sessions[s];
      if ss.main.Ended? || Waits(st, ss, i.now) then ss' == ss else Rank(ss'.main) < Rank(ss.main)
  {
    var ss := st.sessions[s];
    if Claiming(ss.main) {
      ClaimStaysAlone(c, st, s, i);
    } else if ss.main.AtRenewRead? || ss.main.AtRenewCas? {
      RenewStaysAlone(c, st, s, i);
    } else if ss.main.AtLock? || ss.main.AtTerminal? || ss.main.Ended? {
      LastStaysAlone(c, st, s, i);
    } else if !ss.main.Executing? && !ss.main.AtFence? {
      StartStaysAlone(c, st, s, i);
    }
  }

  lemma RenewerStaysAlone(c: Config, st: State, s: nat, now: real)
    requires Inv(c, st) && Alone(c, st, s)
    ensures Alone(c, RenewerStep(c, st, s, Fine, now), s)
    ensures
      var ss, st' := st.sessions[s], RenewerStep(c, st, s, Fine, now);
      && st'.sessions[s].main == ss.main
      && st'.sessions[s].owner == ss.owner
      && (ss.renewer.RRead? ==> st'.sessions[s].renewer.RCas?)
      && (ss.renewer.RCas? ==>
          st'.sessions[s].lock.None? && !st'.sessions[s].renewer.RRead? && !st'.sessions[s].renewer.RCas?)
      && (ss.renewer.RRead? || ss.renewer.RCas? ==> st'.clocks == st.clocks)
  {
    OwnPart(c, st, s);
    RenewerStepStaysAlone(c, st, s, now);
  }

  lemma RenewerStepStaysAlone(c: Config, st: State, s: nat, now: real)
    requires s in st.sessions && SessionOK(c, st, s, st.sessions[s]) && Alone(c, st, s)
    ensures Alone(c, RenewerStep(c, st, s, Fine, now), s)
    ensures
      var ss, st' := st.sessions[s], RenewerStep(c, st, s, Fine, now);
      && st'.sessions[s].main == ss.main
      && st'.sessions[s].owner == ss.owner
      && (ss.renewer.RRead? ==> st'.sessions[s].renewer.RCas?)
      && (ss.renewer.RCas? ==>
          st'.sessions[s].lock.None? && !st'.sessions[s].renewer.RRead? && !st'.sessions[s].renewer.RCas?)
      && (ss.renewer.RRead? || ss.renewer.RCas? ==> st'.clocks == st.clocks)
  {
  }

  /** How many actions moved the executing thread. */
  function Moves(c: Config, st: State, s: nat, actions: seq<Action>): nat {
    if actions == [] then 0
    else
      var st1 := Run(c, st, actions[..|actions| - 1]);
      var st2 := Next(c, st1, actions[|actions| - 1]);
      Moves(c, st, s, actions[..|actions| - 1]) +
      if s in st1.sessions && s in st2.sessions && st1.sessions[s].main != st2.sessions[s].main then 1 else 0
  }

  lemma StepsAlone(c: Config, st: State, s: nat, a: Action)
    requires 0.0 < c.lease && Inv(c, st) && Alone(c, st, s) && Solo(s, a)
    ensures Inv(c, Next(c, st, a)) && Alone(c, Next(c, st, a), s)
    ensures
      var main, main' := st.sessions[s].main, Next(c, st, a).sessions[s].main;
      main' == main || Rank(main') < Rank(main)
  {
    NextKeeps(c, st, a);
    match a
    case RunMain(_, i) => MainStaysAlone(c, st, s, i);
    case RunRenewer(_, _, now) => RenewerStaysAlone(c, st, s, now);
    case Tick(_) =>
  }

  lemma {:induction false} RunsAlone(c: Config, st: State, s: nat, actions: seq<Action>)
    requires 0.0 < c.lease && Inv(c, st) && Alone(c, st, s) && AllSolo(s, actions)
    ensures Inv(c, Run(c, st, actions)) && Alone(c, Run(c, st, actions), s)
    ensures Moves(c, st, s, actions) + Rank(Run(c, st, actions).sessions[s].main) <= Rank(st.sessions[s].main)
  {
    if actions != [] {
      RunsAlone(c, st, s, actions[..|actions| - 1]);
      StepsAlone(c, Run(c, st, actions[..|actions| - 1]), s, actions[|actions| - 1]);
    }
  }

  /** What holds the executing thread up is the other thread's renewal, or its own clock. */
  lemma WaitsForRenewer(c: Config, st: State, s: nat, now: real)
    requires Inv(c, st) && s in st.sessions && Waits(st, st.sessions[s], now)
      && ClockAllows(st, st.sessions[s].owner, now)
    ensures st.sessions[s].renewer.RRead? || st.sessions[s].renewer.RCas?
  {
    OwnPart(c, st, s);
    var lock := st.sessions[s].lock;
    assert lock == Some(MainThread) || lock == Some(RenewThread) by {
      match lock.value case MainThread => case RenewThread =>
    }
  }

  function RenewerRank(r: Renewer): nat {
    if r.RRead? then 2 else if r.RCas? then 1 else 0
  }

  /** The worker is never stuck: whatever it has done so far, some more steps of its own end it. */
  lemma {:induction false} CanFinish(c: Config, st: State, s: nat, i: Input) returns (actions: seq<Action>)
    requires 0.0 < c.lease && Inv(c, st) && Alone(c, st, s)
    requires i.fault.Fine? && ClockAllows(st, st.sessions[s].owner, i.now)
    ensures AllSolo(s, actions) && s in Run(c, st, actions).sessions && Run(c, st, actions).sessions[s].main.Ended?
    ensures AllLike(i, actions)
    decreases Rank(st.sessions[s].main), RenewerRank(st.sessions[s].renewer)
  {
    if st.sessions[s].main.Ended? {
      actions := [];
    } else {
      var a: Action;
      if Waits(st, st.sessions[s], i.now) {
        a := RunRenewer(s, Fine, i.now);
        WaitsForRenewer(c, st, s, i.now);
        RenewerStaysAlone(c, st, s, i.now);
      } else {
        a := RunMain(s, i);
        MainStaysAlone(c, st, s, i);
        ClockMovesTo(c, st, s, i);
      }
      StepsAlone(c, st, s, a);
      var rest := CanFinish(c, Next(c, st, a), s, i);
      RunFirst(c, st, a, rest);
      actions := [a] + rest;
    }
  }

  /** A step of the executing thread leaves the session its owner, and moves no clock but to the time it read. */
  ghost predicate ClockMoves(st: State, st': State, s: nat, now: real)
    requires s in st.sessions
  {
    s in st'.sessions && st'.sessions[s].owner == st.sessions[s].owner
    && (st'.clocks == st.clocks || st'.clocks == st.clocks[st.sessions[s].owner := now])
  }

  lemma ClaimMovesClock(c: Config, st: State, s: nat, i: Input)
    requires s in st.sessions && Claiming(st.sessions[s].main)
    ensures ClockMoves(st, MainStep(c, st, s, i), s, i.now)
  {
  }

  lemma RenewMovesClock(c: Config, st: State, s: nat, i: Input)
    requires s in st.sessions
    requires var m := st.sessions[s].main; m.AtRenewRead? || m.AtRenewCas? || m.AtTerminal?
    ensures ClockMoves(st, MainStep(c, st, s, i), s, i.now)
  {
  }

  lemma OtherMovesClock(c: Config, st: State, s: nat, i: Input)
    requires s in st.sessions && !Claiming(st.sessions[s].main)
    requires !st.sessions[s].main.AtRenewRead? && !st.sessions[s].main.AtRenewCas? && !st.sessions[s].main.AtTerminal?
    ensures ClockMoves(st, MainStep(c, st, s, i), s, i.now)
  {
  }

  lemma ClockMovesTo(c: Config, st: State, s: nat, i: Input)
    requires s in st.sessions && ClockAllows(st, st.sessions[s].owner, i.now)
    ensures ClockAllows(MainStep(c, st, s, i), st.sessions[s].owner, i.now)
    ensures s in MainStep(c, st, s, i).sessions && MainStep(c, st, s, i).sessions[s].owner == st.sessions[s].owner
  {
    var m := st.sessions[s].main;
    if Claiming(m) {
      ClaimMovesClock(c, st, s, i);
    } else if m.AtRenewRead? || m.AtRenewCas? || m.AtTerminal? {
      RenewMovesClock(c, st, s, i);
    } else {
      OtherMovesClock(c, st, s, i);
    }
  }

  lemma {:induction false} RunFirst(c: Config, st: State, a: Action, rest: seq<Action>)
    ensures Run(c, st, [a] + rest) == Run(c, Next(c, st, a), rest)
  {
    var all := [a] + rest;
    if rest == [] {
      assert all[..|all| - 1] == [];
    } else {
      assert all[..|all| - 1] == [a] + rest[..|rest| - 1];
      RunFirst(c, st, a, rest[..|rest| - 1]);
    }
  }

  // ---- Which terminal object ------------------------------------------------------

  /** Activity is published, and the executor returns or raises, as `i` says. */
  predicate Like(i: Input, a: Action) {
    a.RunMain? ==> a.input.published == i.published && a.input.ran == i.ran
  }

  predicate AllLike(i: Input, actions: seq<Action>) {
    forall a :: a in actions ==> Like(i, a)
  }

  /** The terminal object due to a worker that finds `pending`. */
  function Due(pending: PendingBlob, i: Input): Outcome {
    match pending
    case Corrupt => Failure(Undecryptable)
    case WrongId => Failure(IdMismatch)
    case Job => if i.published then Written(i.ran) else Failure(NoActivity)
  }

  /** Session `s` is about to write `due`, or has just done so, unless there was a terminal object before. */
  ghost predicate Owes(st: State, s: nat, i: Input, due: Outcome, before: Option<Outcome>) {
    && s in st.sessions && st.pending.Some?
    && (var m := st.sessions[s].main;
      && st.terminal == (if m.Ended? && before.None? then Some(due) else before)
      && match m
         case AtClaimant => due == Failure(Undecryptable)
         case AtPublish => due == Due(Job, i)
         case Executing => due == Written(i.ran)
         case AtFence(out, _) => out == due
         case AtLock(out, _) => out == due
         case AtRenewRead(_, out, _) => out == due
         case AtRenewCas(_, _, out, _) => out == due
         case AtTerminal(out, _, _) => out == due
         case Ended => true
         case _ => due == Due(st.pending.value, i))
  }

  lemma RenewStillOwes(c: Config, st: State, s: nat, j: Input, i: Input, due: Outcome, before: Option<Outcome>)
    requires s in st.sessions && SessionOK(c, st, s, st.sessions[s]) && Alone(c, st, s) && j.fault.Fine?
    requires var m := st.sessions[s].main; Claiming(m) || m.AtRenewRead? || m.AtRenewCas?
    requires Owes(st, s, i, due, before)
    ensures Owes(MainStep(c, st, s, j), s, i, due, before)
  {
    if Claiming(st.sessions[s].main) {
      ClaimStaysAlone(c, st, s, j);
    } else {
      RenewStaysAlone(c, st, s, j);
    }
  }

  lemma StartStillOwes(c: Config, st: State, s: nat, j: Input, i: Input, due: Outcome, before: Option<Outcome>)
    requires s in st.sessions && Alone(c, st, s) && j.fault.Fine? && Like(i, RunMain(s, j))
    requires var m := st.sessions[s].main; m.AtPending? || m.AtClaimant? || m.AtPublish? || m.Executing?
    requires Owes(st, s, i, due, before)
    ensures Owes(MainStep(c, st, s, j), s, i, due, before)
  {
  }

  lemma MainStillOwes(c: Config, st: State, s: nat, j: Input, i: Input, due: Outcome, before: Option<Outcome>)
    requires s in st.sessions && SessionOK(c, st, s, st.sessions[s]) && Alone(c, st, s)
    requires j.fault.Fine? && Like(i, RunMain(s, j)) && Owes(st, s, i, due, before)
    ensures Owes(MainStep(c, st, s, j), s, i, due, before)
  {
    var m := st.sessions[s].main;
    if Claiming(m) || m.AtRenewRead? || m.AtRenewCas? {
      RenewStillOwes(c, st, s, j, i, due, before);
    } else if m.AtPending? || m.AtClaimant? || m.AtPublish? || m.Executing? {
      StartStillOwes(c, st, s, j, i, due, before);
    }
  }

  lemma StillOwes(c: Config, st: State, s: nat, a: Action, i: Input, due: Outcome, before: Option<Outcome>)
    requires Inv(c, st) && Alone(c, st, s) && Solo(s, a) && Like(i, a) && Owes(st, s, i, due, before)
    ensures Owes(Next(c, st, a), s, i, due, before)
  {
    OwnPart(c, st, s);
    match a
    case RunMain(_, j) => MainStillOwes(c, st, s, j, i, due, before);
    case RunRenewer(_, _, now) =>
      RenewerStaysAlone(c, st, s, now);
      assert RenewerStep(c, st, s, Fine, now).terminal == st.terminal;
    case Tick(_) =>
  }

  /** A worker that runs alone to its end leaves the terminal object it owed, or the one that was there before. */
  lemma {:induction false} PaysWhatItOwes(c: Config, st: State, s: nat, actions: seq<Action>, i: Input, due: Outcome,
        before: Option<Outcome>)
    requires 0.0 < c.lease && Inv(c, st) && Alone(c, st, s) && AllSolo(s, actions) && AllLike(i, actions)
    requires Owes(st, s, i, due, before)
    ensures Owes(Run(c, st, actions), s, i, due, before)
  {
    if actions != [] {
      var most := actions[..|actions| - 1];
      PaysWhatItOwes(c, st, s, most, i, due, before);
      RunsAlone(c, st, s, most);
      StillOwes(c, Run(c, st, most), s, actions[|actions| - 1], i, due, before);
    }
  }

  /** After any run at all: a worker that begins a session once the lease is over and then runs alone moves
      at most eleven times, has written or found a terminal object when it ends, and can always end.  If its
      executor and the publication keep to one answer, the object is the one due, or the one that was there. */
  lemma Recovers(c: Config, history: seq<Action>, s: nat, o: Owner, now: real, solo: seq<Action>, i: Input)
      returns (finish: seq<Action>)
    requires 0.0 < c.lease && AllSolo(s, solo) && i.fault.Fine?
    requires Reportable(Run(c, INIT, history))
    requires
      var st := Run(c, INIT, history);
      && s in BeginStep(c, st, s, o, now).sessions && s !in st.sessions
      && (st.claimed.Some? ==> st.claimed.value.body.at + c.lease <= now)
    requires
      var st1 := Run(c, BeginStep(c, Run(c, INIT, history), s, o, now), solo);
      s in st1.sessions && ClockAllows(st1, st1.sessions[s].owner, i.now)
    ensures
      var st0 := BeginStep(c, Run(c, INIT, history), s, o, now);
      var st1 := Run(c, st0, solo);
      var st2 := Run(c, st1, finish);
      && Moves(c, st0, s, solo) <= 11
      && (st1.sessions[s].main.Ended? ==> st1.terminal.Some?)
      && AllSolo(s, finish) && s in st2.sessions && st2.sessions[s].main.Ended? && st2.terminal.Some?
    ensures
      var st := Run(c, INIT, history);
      var st1 := Run(c, BeginStep(c, st, s, o, now), solo);
      AllLike(i, solo) ==>
        && Run(c, st1, finish).terminal
          == (if st.terminal.Some? then st.terminal else Some(Due(st.pending.value, i)))
        && (st1.sessions[s].main.Ended? ==> st1.terminal == Run(c, st1, finish).terminal)
  {
    var st := Run(c, INIT, history);
    EveryRunKeeps(c, history);
    var st0 := BeginStep(c, st, s, o, now);
    NextKeeps(c, st, Begin(s, o, now));
    RunsAlone(c, st0, s, solo);
    var st1 := Run(c, st0, solo);
    finish := CanFinish(c, st1, s, i);
    RunsAlone(c, st1, s, finish);
    if AllLike(i, solo) {
      var due := Due(st.pending.value, i);
      PaysWhatItOwes(c, st0, s, solo, i, due, st.terminal);
      PaysWhatItOwes(c, st1, s, finish, i, due, st.terminal);
    }
  }
}
