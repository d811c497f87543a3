/**
 * What the end of a session and the end of a job rest on: a session that has
 * come to rest writes nothing any more, and nothing of a job is deleted before
 * the hive is known to hold its terminal object.
 */
module LeaseRest {
  import opened LeaseProtocol
  import opened LeaseCauses

  // ---- A session at rest ----------------------------------------------------------------

  /** The step of a thread that has nothing left to do. */
  lemma RestStays(c: Config, st: State, s: nat, a: Action)
    requires s in st.sessions && Quiet(st.sessions[s]) && (a.RunMain? || a.RunRenewer? || a.Crash?) && a.s == s
    ensures
      var st' := Next(c, st, a);
      s in st'.sessions && Quiet(st'.sessions[s]) && st'.log == st.log
  {
  }

  /** A step of another session. */
  lemma OthersLeaveIt(c: Config, st: State, s: nat, t: nat, a: Action)
    requires s in st.sessions && t in st.sessions && t != s && (a.RunMain? || a.RunRenewer? || a.Crash?) && a.s == t
    ensures
      var st' := Next(c, st, a);
      s in st'.sessions && st'.sessions[s] == st.sessions[s] && OnlyBy(st.log, st'.log, t)
  {
    match a
    case RunMain(_, i) =>
      var m := st.sessions[t].main;
      if m.AtPublish? || m.AtTerminal? {
        LogsItsOwn(c, st, t, m, i);
      } else if Claiming(m) {
        ClaimMinds(c, st, t, m, i);
      } else if m.AtRenewCas? {
        CasMinds(c, st, t, m, i);
      } else {
        RestMinds(c, st, t, m, i);
      }
    case RunRenewer(_, fault, now) =>
      if st.sessions[t].renewer.RCas? {
        RenewerCasMinds(c, st, t, fault, now);
      } else {
        RenewerMinds(c, st, t, fault, now);
      }
    case Crash(_) =>
  }

  ghost predicate NotBy(log: seq<Event>, log': seq<Event>, s: nat) {
    log <= log' && forall e :: e in log'[|log|..] ==> !By(e, s)
  }

  lemma NextIsSilent(c: Config, st: State, s: nat, a: Action)
    requires s in st.sessions && Quiet(st.sessions[s])
    ensures
      var st' := Next(c, st, a);
      s in st'.sessions && Quiet(st'.sessions[s]) && NotBy(st.log, st'.log, s)
  {
    match a
    case Begin(t, o, now) =>
    case RunMain(t, i) =>
      if t == s { RestStays(c, st, s, a); } else if t in st.sessions { OthersLeaveIt(c, st, s, t, a); }
    case RunRenewer(t, fault, now) =>
      if t == s { RestStays(c, st, s, a); } else if t in st.sessions { OthersLeaveIt(c, st, s, t, a); }
    case Crash(t) =>
    case _ => OutsideIsSilent(c, st, s, a);
  }

  lemma OutsideIsSilent(c: Config, st: State, s: nat, a: Action)
    requires s in st.sessions && !a.Begin? && !a.RunMain? && !a.RunRenewer? && !a.Crash?
    ensures Next(c, st, a).sessions == st.sessions && NotBy(st.log, Next(c, st, a).log, s)
  {
    match a
    case Reconcile(r, acked, fault) => ReconcileIsOutside(st, r, acked, fault);
    case Offer(route, blob, fault) => OfferIsOutside(st, route, blob, fault);
    case _ =>
  }

  lemma SilentOn(a: seq<Event>, b: seq<Event>, c: seq<Event>, s: nat)
    requires NotBy(a, b, s) && NotBy(b, c, s)
    ensures NotBy(a, c, s)
  {
    assert c[|a|..] == b[|a|..] + c[|b|..];
  }

  /** Once its executing thread has ended and its renewing thread rests, a session never writes anything again,
      whatever the run goes on to do: no marker, no terminal object, no execution. */
  lemma {:induction false} RestIsSilent(c: Config, actions: seq<Action>, n: nat, s: nat)
    requires n <= |actions|
    requires var st := Run(c, INIT, actions[..n]); s in st.sessions && Quiet(st.sessions[s])
    ensures
      var was, st := Run(c, INIT, actions[..n]), Run(c, INIT, actions);
      s in st.sessions && Quiet(st.sessions[s]) && NotBy(was.log, st.log, s)
    decreases |actions|
  {
    if n == |actions| {
      assert actions[..n] == actions;
    } else {
      var most, last := actions[..|actions| - 1], actions[|actions| - 1];
      assert most[..n] == actions[..n];
      RestIsSilent(c, most, n, s);
      NextIsSilent(c, Run(c, INIT, most), s, last);
      SilentOn(Run(c, INIT, actions[..n]).log, Run(c, INIT, most).log, Run(c, INIT, actions).log, s);
    }
  }

  // ---- A purge ----------------------------------------------------------------------------

  /** Something of the job was deleted, or is about to be. */
  ghost predicate IsPurged(st: State) {
    || ClaimedGone in st.log || TerminalGone in st.log
    || exists r :: r in st.recs && st.recs[r].Purging?
  }

  /** A reconciler that had read the terminal object was told that the hive has it. */
  ghost predicate WasAcked(c: Config, actions: seq<Action>, k: nat) {
    && k < |actions| && actions[k].Reconcile? && actions[k].acked
    && actions[k].r in Run(c, INIT, actions[..k]).recs && Run(c, INIT, actions[..k]).recs[actions[k].r].Seen?
  }

  lemma SessionsDoNotPurge(c: Config, st: State, a: Action)
    requires a.Begin? || a.RunMain? || a.RunRenewer? || a.Crash?
    ensures IsPurged(Next(c, st, a)) ==> IsPurged(st)
  {
    match a
    case Begin(s, o, now) =>
    case RunMain(s, i) => if s in st.sessions { MainDoesNotPurge(c, st, s, i); }
    case RunRenewer(s, fault, now) => if s in st.sessions { RenewerDoesNotPurge(c, st, s, fault, now); }
    case Crash(s) =>
  }

  /** Events of a session do not purge. */
  lemma OwnEventsDoNotPurge(st: State, st': State, s: nat)
    requires OnlyBy(st.log, st'.log, s) && st'.recs == st.recs
    ensures IsPurged(st') ==> IsPurged(st)
  {
    assert st'.log == st.log + st'.log[|st.log|..];
  }

  lemma MainLogsOwn(c: Config, st: State, s: nat, m: Main, i: Input)
    requires s in st.sessions && m == st.sessions[s].main
    ensures OnlyBy(st.log, MainStep(c, st, s, i).log, s)
  {
    if m.AtPublish? || m.AtTerminal? {
      LogsItsOwn(c, st, s, m, i);
    } else if Claiming(m) {
      ClaimMinds(c, st, s, m, i);
    } else if m.AtRenewCas? {
      CasMinds(c, st, s, m, i);
    } else {
      RestMinds(c, st, s, m, i);
    }
  }

  lemma MainKeepsReconcilers(c: Config, st: State, s: nat, i: Input)
    requires s in st.sessions
    ensures MainStep(c, st, s, i).recs == st.recs
  {
  }

  lemma RenewerKeepsReconcilers(c: Config, st: State, s: nat, fault: Fault, now: real)
    requires s in st.sessions
    ensures RenewerStep(c, st, s, fault, now).recs == st.recs
  {
  }

  lemma MainDoesNotPurge(c: Config, st: State, s: nat, i: Input)
    requires s in st.sessions
    ensures IsPurged(MainStep(c, st, s, i)) ==> IsPurged(st)
  {
    MainLogsOwn(c, st, s, st.sessions[s].main, i);
    MainKeepsReconcilers(c, st, s, i);
    OwnEventsDoNotPurge(st, MainStep(c, st, s, i), s);
  }

  lemma RenewerDoesNotPurge(c: Config, st: State, s: nat, fault: Fault, now: real)
    requires s in st.sessions
    ensures IsPurged(RenewerStep(c, st, s, fault, now)) ==> IsPurged(st)
  {
    if st.sessions[s].renewer.RCas? {
      RenewerCasMinds(c, st, s, fault, now);
    } else {
      RenewerMinds(c, st, s, fault, now);
    }
    RenewerKeepsReconcilers(c, st, s, fault, now);
    OwnEventsDoNotPurge(st, RenewerStep(c, st, s, fault, now), s);
  }

  lemma AckStays(c: Config, actions: seq<Action>, a: Action, k: nat)
    requires WasAcked(c, actions, k)
    ensures WasAcked(c, actions + [a], k)
  {
    assert (actions + [a])[..k] == actions[..k];
  }

  lemma OutsidePurges(c: Config, st: State, a: Action)
    requires !IsPurged(st) && IsPurged(Next(c, st, a)) && !a.Begin? && !a.RunMain? && !a.RunRenewer? && !a.Crash?
    ensures a.Reconcile? && a.acked && a.r in st.recs && st.recs[a.r].Seen?
  {
  }

  lemma PurgesFirst(c: Config, actions: seq<Action>, st: State, a: Action)
    requires st == Run(c, INIT, actions) && !IsPurged(st) && IsPurged(Next(c, st, a))
    ensures WasAcked(c, actions + [a], |actions|)
  {
    if a.Begin? || a.RunMain? || a.RunRenewer? || a.Crash? {
      SessionsDoNotPurge(c, st, a);
    } else {
      OutsidePurges(c, st, a);
    }
    assert (actions + [a])[..|actions|] == actions;
  }

  /** In every run nothing of a job is deleted before a reconciler that has read its terminal object was told that the
      hive holds it. */
  lemma {:induction false} PurgeIsAcked(c: Config, actions: seq<Action>)
    requires IsPurged(Run(c, INIT, actions))
    ensures exists k: nat :: WasAcked(c, actions, k)
  {
    if actions != [] {
      var most, last := actions[..|actions| - 1], actions[|actions| - 1];
      assert actions == most + [last];
      if IsPurged(Run(c, INIT, most)) {
        PurgeIsAcked(c, most);
        var k: nat :| WasAcked(c, most, k);
        AckStays(c, most, last, k);
      } else {
        PurgesFirst(c, most, Run(c, INIT, most), last);
      }
    }
  }
}
