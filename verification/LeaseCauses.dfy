/**
 * Why a terminal object says what it says.  In every run, a report is what the
 * executor of that session returned on a published job; each failure has its
 * own cause, and only that; and only a job whose activity was published is
 * executed, once a session.  The causes are steps of the run.
 */
module LeaseCauses {
  import opened Options
  import opened LeaseProtocol
  import opened LeaseSafety
  import opened LeaseSteps
  import opened LeaseRecovery

  // ---- Steps of a run ------------------------------------------------------------

  /** Action `k` of the run is a step of session `s`, taken at `main`. */
  ghost predicate Took(c: Config, actions: seq<Action>, k: nat, s: nat, main: Main, i: Input) {
    && k < |actions| && actions[k] == RunMain(s, i)
    && (var st := Run(c, INIT, actions[..k]); s in st.sessions && st.sessions[s].main == main)
  }

  /** The pending object the session read. */
  ghost predicate HasRead(c: Config, actions: seq<Action>, s: nat, blob: PendingBlob) {
    exists k: nat, i :: Took(c, actions, k, s, AtPending, i) && i.fault.Fine?
      && Run(c, INIT, actions[..k]).pending == Some(blob)
  }

  /** The claimant route, read after a pending object that did not open. */
  ghost predicate HasRoute(c: Config, actions: seq<Action>, s: nat) {
    exists k: nat, i :: Took(c, actions, k, s, AtClaimant, i) && i.fault.Fine?
      && Run(c, INIT, actions[..k]).claimant == Some(Usable)
  }

  /** The session published its activity, or failed to. */
  ghost predicate HasPublished(c: Config, actions: seq<Action>, s: nat, published: bool) {
    exists k: nat, i :: Took(c, actions, k, s, AtPublish, i) && i.published == published
  }

  /** What the session's executor returned, or that it raised. */
  ghost predicate HasRun(c: Config, actions: seq<Action>, s: nat, ran: Option<string>) {
    exists k: nat, i :: Took(c, actions, k, s, Executing, i) && i.ran == ran
  }

  /** The call that was to write the executor's report raised. */
  ghost predicate HasFailedToReport(c: Config, actions: seq<Action>, s: nat) {
    exists k: nat, i, p, g, check: nat ::
      Took(c, actions, k, s, AtTerminal(Report(p), g, check), i) && !i.fault.Fine? && HasRun(c, actions, s, Some(p))
  }

  ghost predicate OnPublishedJob(c: Config, actions: seq<Action>, s: nat) {
    HasRead(c, actions, s, Job) && HasPublished(c, actions, s, true)
  }

  /** The cause of each outcome. */
  ghost predicate Because(c: Config, actions: seq<Action>, s: nat, out: Outcome) {
    match out
    case Report(p) => OnPublishedJob(c, actions, s) && HasRun(c, actions, s, Some(p))
    case Failure(Raised) =>
      OnPublishedJob(c, actions, s) && (HasRun(c, actions, s, None) || HasFailedToReport(c, actions, s))
    case Failure(NoActivity) => HasRead(c, actions, s, Job) && HasPublished(c, actions, s, false)
    case Failure(IdMismatch) => HasRead(c, actions, s, WrongId)
    case Failure(Undecryptable) => HasRead(c, actions, s, Corrupt) && HasRoute(c, actions, s)
  }

  // ---- Where the causes are kept ---------------------------------------------------

  /** The outcome on its way; the executor's report is written inside the try. */
  ghost predicate Carries(c: Config, actions: seq<Action>, s: nat, out: Outcome, guarded: bool) {
    Because(c, actions, s, out) && guarded == out.Report?
  }

  predicate Bears(m: Main) {
    m.AtFence? || m.AtLock? || m.AtRenewRead? || m.AtRenewCas? || m.AtTerminal?
  }

  ghost predicate HasCome(c: Config, actions: seq<Action>, s: nat, m: Main) {
    && (m.AtClaimant? ==> HasRead(c, actions, s, Corrupt))
    && (m.AtPublish? ==> HasRead(c, actions, s, Job))
    && (m.Executing? ==> OnPublishedJob(c, actions, s))
    && (Bears(m) ==> Carries(c, actions, s, m.out, m.guarded))
  }

  function MainAfter(c: Config, st: State, s: nat, i: Input): Main
    requires s in st.sessions
  {
    var st' := MainStep(c, st, s, i);
    if s in st'.sessions then st'.sessions[s].main else Ended
  }

  /** The session has yet to reach its executor. */
  predicate BeforeExecution(m: Main) {
    Claiming(m) || m.AtPending? || m.AtClaimant? || m.AtPublish?
  }

  ghost predicate NeverExecuted(log: seq<Event>, s: nat) {
    forall e :: e in log && e.Executed? ==> e.s != s
  }

  ghost predicate ExecutedOnce(log: seq<Event>) {
    forall j, l :: 0 <= j < l < |log| && log[j].Executed? && log[l].Executed? ==> log[j].s != log[l].s
  }

  ghost predicate EventHasCause(c: Config, actions: seq<Action>, e: Event) {
    && (e.Executed? ==> OnPublishedJob(c, actions, e.s))
    && (e.TerminalWritten? ==> Because(c, actions, e.s, e.out))
  }

  ghost predicate SessionHasCause(c: Config, actions: seq<Action>, log: seq<Event>, s: nat, ss: Session) {
    HasCome(c, actions, s, ss.main) && (BeforeExecution(ss.main) ==> NeverExecuted(log, s))
  }

  ghost predicate Caused(c: Config, actions: seq<Action>, st: State) {
    && (forall s :: s in st.sessions ==> SessionHasCause(c, actions, st.log, s, st.sessions[s]))
    && (forall s: nat :: s !in st.sessions ==> NeverExecuted(st.log, s))
    && (forall e :: e in st.log ==> EventHasCause(c, actions, e))
    && ExecutedOnce(st.log)
  }

  // ---- A longer run has every cause of a shorter one ----------------------------------

  lemma PrefixStays(actions: seq<Action>, a: Action)
    ensures forall k {:trigger (actions + [a])[..k]} :: 0 <= k <= |actions| ==> (actions + [a])[..k] == actions[..k]
  {
  }

  lemma TookStays(c: Config, actions: seq<Action>, k: nat, s: nat, main: Main, i: Input, a: Action)
    requires Took(c, actions, k, s, main, i)
    ensures Took(c, actions + [a], k, s, main, i) && (actions + [a])[..k] == actions[..k]
  {
    PrefixStays(actions, a);
  }

  lemma ReadStays(c: Config, actions: seq<Action>, s: nat, blob: PendingBlob, a: Action)
    requires HasRead(c, actions, s, blob)
    ensures HasRead(c, actions + [a], s, blob)
  {
    var k: nat, i :| Took(c, actions, k, s, AtPending, i) && i.fault.Fine?
      && Run(c, INIT, actions[..k]).pending == Some(blob);
    TookStays(c, actions, k, s, AtPending, i, a);
  }

  lemma RouteStays(c: Config, actions: seq<Action>, s: nat, a: Action)
    requires HasRoute(c, actions, s)
    ensures HasRoute(c, actions + [a], s)
  {
    var k: nat, i :| Took(c, actions, k, s, AtClaimant, i) && i.fault.Fine?
      && Run(c, INIT, actions[..k]).claimant == Some(Usable);
    TookStays(c, actions, k, s, AtClaimant, i, a);
  }

  lemma PublicationStays(c: Config, actions: seq<Action>, s: nat, published: bool, a: Action)
    requires HasPublished(c, actions, s, published)
    ensures HasPublished(c, actions + [a], s, published)
  {
    var k: nat, i :| Took(c, actions, k, s, AtPublish, i) && i.published == published;
    TookStays(c, actions, k, s, AtPublish, i, a);
  }

  lemma ExecutionStays(c: Config, actions: seq<Action>, s: nat, ran: Option<string>, a: Action)
    requires HasRun(c, actions, s, ran)
    ensures HasRun(c, actions + [a], s, ran)
  {
    var k: nat, i :| Took(c, actions, k, s, Executing, i) && i.ran == ran;
    TookStays(c, actions, k, s, Executing, i, a);
  }

  lemma FailureStays(c: Config, actions: seq<Action>, s: nat, a: Action)
    requires HasFailedToReport(c, actions, s)
    ensures HasFailedToReport(c, actions + [a], s)
  {
    var k: nat, i, p, g, check: nat :|
      Took(c, actions, k, s, AtTerminal(Report(p), g, check), i) && !i.fault.Fine? && HasRun(c, actions, s, Some(p));
    TookStays(c, actions, k, s, AtTerminal(Report(p), g, check), i, a);
    ExecutionStays(c, actions, s, Some(p), a);
  }

  lemma JobStays(c: Config, actions: seq<Action>, s: nat, a: Action)
    requires OnPublishedJob(c, actions, s)
    ensures OnPublishedJob(c, actions + [a], s)
  {
    ReadStays(c, actions, s, Job, a);
    PublicationStays(c, actions, s, true, a);
  }

  /** A longer run has every cause of a shorter one. */
  lemma CauseStays(c: Config, actions: seq<Action>, s: nat, out: Outcome, a: Action)
    requires Because(c, actions, s, out)
    ensures Because(c, actions + [a], s, out)
  {
    match out
    case Report(p) => JobStays(c, actions, s, a); ExecutionStays(c, actions, s, Some(p), a);
    case Failure(Raised) =>
      JobStays(c, actions, s, a);
      if HasRun(c, actions, s, None) { ExecutionStays(c, actions, s, None, a); }
      if HasFailedToReport(c, actions, s) { FailureStays(c, actions, s, a); }
    case Failure(NoActivity) => ReadStays(c, actions, s, Job, a); PublicationStays(c, actions, s, false, a);
    case Failure(IdMismatch) => ReadStays(c, actions, s, WrongId, a);
    case Failure(Undecryptable) => ReadStays(c, actions, s, Corrupt, a); RouteStays(c, actions, s, a);
  }

  lemma ComeStays(c: Config, actions: seq<Action>, s: nat, main: Main, a: Action)
    requires HasCome(c, actions, s, main)
    ensures HasCome(c, actions + [a], s, main)
  {
    if main.AtClaimant? { ReadStays(c, actions, s, Corrupt, a); }
    if main.AtPublish? { ReadStays(c, actions, s, Job, a); }
    if main.Executing? { JobStays(c, actions, s, a); }
    if Bears(main) { CauseStays(c, actions, s, main.out, a); }
  }

  lemma EventStays(c: Config, actions: seq<Action>, e: Event, a: Action)
    requires EventHasCause(c, actions, e)
    ensures EventHasCause(c, actions + [a], e)
  {
    if e.Executed? { JobStays(c, actions, e.s, a); }
    if e.TerminalWritten? { CauseStays(c, actions, e.s, e.out, a); }
  }

  // ---- One step -------------------------------------------------------------------------

  /** A step that the run takes next. */
  lemma TakesNext(c: Config, actions: seq<Action>, s: nat, i: Input)
    requires s in Run(c, INIT, actions).sessions
    ensures Took(c, actions + [RunMain(s, i)], |actions|, s, Run(c, INIT, actions).sessions[s].main, i)
    ensures (actions + [RunMain(s, i)])[..|actions|] == actions
  {
  }

  lemma ReadComes(c: Config, actions: seq<Action>, st: State, s: nat, i: Input)
    requires st == Run(c, INIT, actions) && s in st.sessions && st.sessions[s].main.AtPending?
    requires i.fault.Fine? && st.pending.Some?
    ensures HasRead(c, actions + [RunMain(s, i)], s, st.pending.value)
  {
    TakesNext(c, actions, s, i);
  }

  lemma ReadingComes(c: Config, actions: seq<Action>, s: nat, pending: Option<PendingBlob>, fault: Fault)
    requires fault.Fine? && pending.Some? ==> HasRead(c, actions, s, pending.value)
    ensures HasCome(c, actions, s, AfterPending(pending, fault))
  {
  }

  lemma RouteComes(c: Config, actions: seq<Action>, st: State, s: nat, i: Input)
    requires st == Run(c, INIT, actions) && s in st.sessions && st.sessions[s].main.AtClaimant?
    requires HasRead(c, actions + [RunMain(s, i)], s, Corrupt) && i.fault.Fine? && st.claimant == Some(Usable)
    ensures Because(c, actions + [RunMain(s, i)], s, Failure(Undecryptable))
  {
    TakesNext(c, actions, s, i);
    assert HasRoute(c, actions + [RunMain(s, i)], s);
  }

  lemma PublicationComes(c: Config, actions: seq<Action>, st: State, s: nat, i: Input)
    requires st == Run(c, INIT, actions) && s in st.sessions && st.sessions[s].main.AtPublish?
    ensures HasPublished(c, actions + [RunMain(s, i)], s, i.published)
  {
    TakesNext(c, actions, s, i);
  }

  lemma ExecutionComes(c: Config, actions: seq<Action>, st: State, s: nat, i: Input)
    requires st == Run(c, INIT, actions) && s in st.sessions && st.sessions[s].main.Executing?
    ensures HasRun(c, actions + [RunMain(s, i)], s, i.ran)
  {
    TakesNext(c, actions, s, i);
  }

  lemma FailureComes(c: Config, actions: seq<Action>, st: State, s: nat, i: Input)
    requires st == Run(c, INIT, actions) && s in st.sessions && !i.fault.Fine?
    requires st.sessions[s].main.AtTerminal? && st.sessions[s].main.out.Report?
    requires HasRun(c, actions + [RunMain(s, i)], s, Some(st.sessions[s].main.out.payload))
    ensures HasFailedToReport(c, actions + [RunMain(s, i)], s)
  {
    TakesNext(c, actions, s, i);
  }

  /** Where a step takes the executing thread that is neither claiming nor about to write. */
  lemma StartGoes(c: Config, st: State, s: nat, m: Main, i: Input)
    requires s in st.sessions && m == st.sessions[s].main
    requires m.AtPending? || m.AtClaimant? || m.AtPublish? || m.Executing?
    ensures MainAfter(c, st, s, i) ==
      match m
      case AtPending => AfterPending(st.pending, i.fault)
      case AtClaimant =>
        if i.fault.Fine? && st.claimant == Some(Usable) then AtFence(Failure(Undecryptable), false) else Ended
      case AtPublish => if i.published then Executing else AtFence(Failure(NoActivity), false)
      case Executing => AtFence(Written(i.ran), i.ran.Some?)
      case _ => m
  {
  }

  lemma StartComes(c: Config, actions: seq<Action>, st: State, s: nat, m: Main, i: Input)
    requires st == Run(c, INIT, actions) && s in st.sessions && m == st.sessions[s].main
      && HasCome(c, actions + [RunMain(s, i)], s, m)
    requires m.AtPending? || m.AtClaimant? || m.AtPublish? || m.Executing?
    ensures HasCome(c, actions + [RunMain(s, i)], s, MainAfter(c, st, s, i))
  {
    StartGoes(c, st, s, m, i);
    match m
    case AtPending =>
      if i.fault.Fine? && st.pending.Some? { ReadComes(c, actions, st, s, i); }
      ReadingComes(c, actions + [RunMain(s, i)], s, st.pending, i.fault);
    case AtClaimant =>
      if i.fault.Fine? && st.claimant == Some(Usable) { RouteComes(c, actions, st, s, i); }
    case AtPublish => PublicationComes(c, actions, st, s, i);
    case Executing => ExecutionComes(c, actions, st, s, i);
  }

  /** A claiming thread claims on, has won or has ended. */
  lemma ClaimGoes(c: Config, st: State, s: nat, i: Input)
    requires s in st.sessions && (Claiming(st.sessions[s].main) || st.sessions[s].main.Ended?)
    ensures var m := MainAfter(c, st, s, i); Claiming(m) || m.AtPending? || m.Ended?
  {
  }

  /** The outcome and the guard are carried along unchanged, until the terminal write. */
  lemma OutcomeGoes(c: Config, st: State, s: nat, i: Input, m: Main)
    requires s in st.sessions && m == st.sessions[s].main && Bears(m) && !m.AtTerminal?
    ensures
      var m' := MainAfter(c, st, s, i);
      m'.Ended? || (Bears(m') && m'.out == m.out && m'.guarded == m.guarded)
  {
    if m.AtRenewCas? { CasGoes(c, st, s, i, m); }
  }

  lemma CasGoes(c: Config, st: State, s: nat, i: Input, m: Main)
    requires s in st.sessions && m == st.sessions[s].main && m.AtRenewCas?
    ensures
      var m' := MainAfter(c, st, s, i);
      m'.Ended? || (Bears(m') && m'.out == m.out && m'.guarded == m.guarded)
  {
  }

  lemma TerminalGoes(c: Config, st: State, s: nat, i: Input, m: Main)
    requires s in st.sessions && m == st.sessions[s].main && m.AtTerminal?
    ensures MainAfter(c, st, s, i) ==
      if !i.fault.Fine? && m.guarded then AtFence(Failure(Raised), false) else Ended
  {
  }

  lemma RaisedComes(c: Config, actions: seq<Action>, st: State, s: nat, i: Input, m: Main)
    requires st == Run(c, INIT, actions) && s in st.sessions && m == st.sessions[s].main && m.AtTerminal?
    requires Carries(c, actions + [RunMain(s, i)], s, m.out, m.guarded)
    ensures HasCome(c, actions + [RunMain(s, i)], s, MainAfter(c, st, s, i))
  {
    TerminalGoes(c, st, s, i, m);
    if !i.fault.Fine? && m.guarded { FailureComes(c, actions, st, s, i); }
  }

  lemma OutcomeComes(c: Config, actions: seq<Action>, st: State, s: nat, i: Input, m: Main)
    requires st == Run(c, INIT, actions) && s in st.sessions && m == st.sessions[s].main && Bears(m)
    requires Carries(c, actions + [RunMain(s, i)], s, m.out, m.guarded)
    ensures HasCome(c, actions + [RunMain(s, i)], s, MainAfter(c, st, s, i))
  {
    if !m.AtTerminal? { OutcomeGoes(c, st, s, i, m); } else { RaisedComes(c, actions, st, s, i, m); }
  }

  lemma MainComes(c: Config, actions: seq<Action>, st: State, s: nat, m: Main, i: Input)
    requires st == Run(c, INIT, actions) && s in st.sessions && m == st.sessions[s].main
      && HasCome(c, actions, s, m)
    ensures HasCome(c, actions + [RunMain(s, i)], s, MainAfter(c, st, s, i))
  {
    ComeStays(c, actions, s, m, RunMain(s, i));
    if Claiming(m) || m.Ended? {
      ClaimGoes(c, st, s, i);
    } else if BeforeExecution(m) || m.Executing? {
      StartComes(c, actions, st, s, m, i);
    } else {
      OutcomeComes(c, actions, st, s, i, m);
    }
  }

  // ---- Every run ------------------------------------------------------------------------

  /** Nothing that needs a cause was added. */
  ghost predicate Quietly(log: seq<Event>, log': seq<Event>) {
    log <= log' && forall e :: e in log'[|log|..] ==> !e.Executed? && !e.TerminalWritten?
  }

  /** The event is one of session `s`. */
  predicate By(e: Event, s: nat) { !e.ClaimedGone? && !e.TerminalGone? && e.s == s }

  ghost predicate OnlyBy(log: seq<Event>, log': seq<Event>, s: nat) {
    log <= log' && forall e :: e in log'[|log|..] ==> By(e, s)
  }

  /** A step of session `s` changes no other session, and logs nothing but its own, and nothing that needs a cause. */
  ghost predicate Minds(st: State, st': State, s: nat) {
    && s in st'.sessions && st'.sessions == st.sessions[s := st'.sessions[s]]
    && Quietly(st.log, st'.log) && OnlyBy(st.log, st'.log, s)
  }

  lemma AtMinds(st: State, s: nat, ss: Session)
    ensures Minds(st, At(st, s, ss), s)
  {
  }

  lemma LogMinds(st: State, e: Event, s: nat, ss: Session)
    requires !e.Executed? && !e.TerminalWritten? && By(e, s)
    ensures Minds(st, At(Log(st, e), s, ss), s)
  {
  }

  lemma WroteMinds(c: Config, st: State, m: Marker, e: Event, s: nat, ss: Session)
    requires !e.Executed? && !e.TerminalWritten? && By(e, s)
    ensures Minds(st, At(Wrote(c, st, m, e), s, ss), s)
    ensures Quietly(st.log, Wrote(c, st, m, e).log) && OnlyBy(st.log, Wrote(c, st, m, e).log, s)
  {
  }

  lemma MindsOn(st: State, st1: State, e: Event, s: nat, ss: Session)
    requires Quietly(st.log, st1.log) && OnlyBy(st.log, st1.log, s) && st1.sessions == st.sessions
    requires !e.Executed? && !e.TerminalWritten? && By(e, s)
    ensures Minds(st, At(Log(st1, e), s, ss), s)
  {
  }

  lemma ClaimMinds(c: Config, st: State, s: nat, m: Main, i: Input)
    requires s in st.sessions && m == st.sessions[s].main && Claiming(m)
    ensures Minds(st, MainStep(c, st, s, i), s)
  {
    var ss' := MainStep(c, st, s, i).sessions[s];
    AtMinds(st, s, ss');
    if m.AtCreate? {
      var w := Marker(st.sessions[s].owner, m.now);
      WroteMinds(c, st, w, Created(s, w), s, ss');
    } else if m.AtTakeover? && st.claimed.Some? {
      var w := Marker(st.sessions[s].owner, m.now);
      WroteMinds(c, st, w, TookOver(s, w, st.claimed.value.body), s, ss');
    }
  }

  lemma CasMinds(c: Config, st: State, s: nat, m: Main, i: Input)
    requires s in st.sessions && m == st.sessions[s].main && m.AtRenewCas?
    ensures Minds(st, MainStep(c, st, s, i), s)
  {
    var ss' := MainStep(c, st, s, i).sessions[s];
    LogMinds(st, RenewFailed(s), s, ss');
    if st.claimed.Some? {
      var w := Marker(st.sessions[s].owner, m.now);
      var e := Renewed(s, true, w, st.claimed.value.body);
      WroteMinds(c, st, w, e, s, ss');
      MindsOn(st, Wrote(c, st, w, e), RenewFailed(s), s, ss');
    }
  }

  lemma RestMinds(c: Config, st: State, s: nat, m: Main, i: Input)
    requires s in st.sessions && m == st.sessions[s].main
    requires !Claiming(m) && !m.AtRenewCas? && !m.AtPublish? && !m.AtTerminal?
    ensures Minds(st, MainStep(c, st, s, i), s)
  {
    var ss' := MainStep(c, st, s, i).sessions[s];
    AtMinds(st, s, ss');
    LogMinds(st, RenewFailed(s), s, ss');
    if m.AtLock? { AtMinds(st.(clocks := st.clocks[st.sessions[s].owner := i.now]), s, ss'); }
  }

  lemma RenewerMinds(c: Config, st: State, s: nat, fault: Fault, now: real)
    requires s in st.sessions && !st.sessions[s].renewer.RCas?
    ensures Minds(st, RenewerStep(c, st, s, fault, now), s)
    ensures RenewerStep(c, st, s, fault, now).sessions[s].main == st.sessions[s].main
  {
    var ss' := RenewerStep(c, st, s, fault, now).sessions[s];
    AtMinds(st, s, ss');
    LogMinds(st, RenewFailed(s), s, ss');
  }

  lemma RenewerCasMinds(c: Config, st: State, s: nat, fault: Fault, now: real)
    requires s in st.sessions && st.sessions[s].renewer.RCas?
    ensures Minds(st, RenewerStep(c, st, s, fault, now), s)
    ensures RenewerStep(c, st, s, fault, now).sessions[s].main == st.sessions[s].main
  {
    var ss' := RenewerStep(c, st, s, fault, now).sessions[s];
    LogMinds(st, RenewFailed(s), s, ss');
    if st.claimed.Some? {
      var w := Marker(st.sessions[s].owner, st.sessions[s].renewer.now);
      var e := Renewed(s, false, w, st.claimed.value.body);
      WroteMinds(c, st, w, e, s, ss');
      MindsOn(st, Wrote(c, st, w, e), RenewFailed(s), s, ss');
    }
  }

  /** What the two steps log that need a cause. */
  lemma LogsItsOwn(c: Config, st: State, s: nat, m: Main, i: Input)
    requires s in st.sessions && m == st.sessions[s].main && (m.AtPublish? || m.AtTerminal?)
    ensures
      var st' := MainStep(c, st, s, i);
      var log' := st'.log;
      && s in st'.sessions && st'.sessions == st.sessions[s := st'.sessions[s]]
      && (|| log' == st.log
        || (m.AtPublish? && i.published && log' == st.log + [Executed(s, st.sessions[s].claimIdx)])
        || (m.AtTerminal? && log' == st.log + [TerminalWritten(s, m.out, m.check)]))
  {
  }

  /** No step leads back in front of the executor. */
  lemma NeverBack(c: Config, st: State, s: nat, i: Input)
    requires s in st.sessions && BeforeExecution(MainAfter(c, st, s, i))
    ensures BeforeExecution(st.sessions[s].main)
    ensures !(st.sessions[s].main.AtPublish? && i.published)
  {
    var m := st.sessions[s].main;
    if Bears(m) && !m.AtTerminal? { OutcomeGoes(c, st, s, i, m); }
    if m.AtTerminal? { TerminalGoes(c, st, s, i, m); }
    if m.Executing? || m.AtPublish? { StartGoes(c, st, s, m, i); }
  }

  lemma EventsStay(c: Config, actions: seq<Action>, st: State, a: Action, log': seq<Event>)
    requires Caused(c, actions, st) && Quietly(st.log, log')
    ensures forall e :: e in log' ==> EventHasCause(c, actions + [a], e)
    ensures ExecutedOnce(log')
    ensures forall s: nat :: NeverExecuted(st.log, s) ==> NeverExecuted(log', s)
  {
    assert log' == st.log + log'[|st.log|..];
    forall e | e in log' ensures EventHasCause(c, actions + [a], e) {
      if e in st.log { EventStays(c, actions, e, a); }
    }
    forall j | |st.log| <= j < |log'| ensures !log'[j].Executed? {
      assert log'[j] == log'[|st.log|..][j - |st.log|];
    }
  }

  lemma SessionStays(c: Config, actions: seq<Action>, log: seq<Event>, s: nat, ss: Session, a: Action,
        log': seq<Event>)
    requires SessionHasCause(c, actions, log, s, ss) && (NeverExecuted(log, s) ==> NeverExecuted(log', s))
    ensures SessionHasCause(c, actions + [a], log', s, ss)
  {
    ComeStays(c, actions, s, ss.main, a);
  }

  /** A step of one session that logs nothing that needs a cause. */
  lemma MindedKeeps(c: Config, actions: seq<Action>, st: State, a: Action, st': State, s: nat)
    requires Caused(c, actions, st) && Minds(st, st', s)
    requires HasCome(c, actions + [a], s, st'.sessions[s].main)
    requires BeforeExecution(st'.sessions[s].main) ==> NeverExecuted(st.log, s)
    ensures Caused(c, actions + [a], st')
  {
    EventsStay(c, actions, st, a, st'.log);
    forall t | t in st'.sessions ensures SessionHasCause(c, actions + [a], st'.log, t, st'.sessions[t]) {
      if t != s { SessionStays(c, actions, st.log, t, st.sessions[t], a, st'.log); }
    }
  }

  lemma OutsideKeepsCauses(c: Config, actions: seq<Action>, st: State, a: Action, st': State)
    requires Caused(c, actions, st) && st'.sessions == st.sessions && Quietly(st.log, st'.log)
    ensures Caused(c, actions + [a], st')
  {
    EventsStay(c, actions, st, a, st'.log);
    forall t | t in st'.sessions ensures SessionHasCause(c, actions + [a], st'.log, t, st'.sessions[t]) {
      SessionStays(c, actions, st.log, t, st.sessions[t], a, st'.log);
    }
  }

  /** A step that logs an event with a cause. */
  lemma LoggedKeepsCauses(c: Config, actions: seq<Action>, st: State, a: Action, st': State, s: nat, e: Event)
    requires Caused(c, actions, st) && s in st.sessions && s in st'.sessions
      && st'.sessions == st.sessions[s := st'.sessions[s]] && st'.log == st.log + [e]
    requires HasCome(c, actions + [a], s, st'.sessions[s].main) && !BeforeExecution(st'.sessions[s].main)
    requires EventHasCause(c, actions + [a], e)
    requires e.Executed? ==> e.s == s && NeverExecuted(st.log, s)
    ensures Caused(c, actions + [a], st')
  {
    forall x | x in st'.log ensures EventHasCause(c, actions + [a], x) {
      if x in st.log { EventStays(c, actions, x, a); }
    }
    forall t | t in st'.sessions ensures SessionHasCause(c, actions + [a], st'.log, t, st'.sessions[t]) {
      if t != s { SessionStays(c, actions, st.log, t, st.sessions[t], a, st'.log); }
    }
    OnceMore(st.log, e);
  }

  lemma OnceMore(log: seq<Event>, e: Event)
    requires ExecutedOnce(log) && (e.Executed? ==> NeverExecuted(log, e.s))
    ensures ExecutedOnce(log + [e])
  {
    var log' := log + [e];
    forall j, l | 0 <= j < l < |log'| && log'[j].Executed? && log'[l].Executed? ensures log'[j].s != log'[l].s {
      assert log'[j] in log;
    }
  }

  lemma ExecutionKeepsCauses(c: Config, actions: seq<Action>, st: State, s: nat, i: Input)
    requires st == Run(c, INIT, actions) && Caused(c, actions, st) && s in st.sessions
      && st.sessions[s].main.AtPublish? && i.published
    requires HasCome(c, actions + [RunMain(s, i)], s, MainAfter(c, st, s, i))
    ensures Caused(c, actions + [RunMain(s, i)], MainStep(c, st, s, i))
  {
    var a, st' := RunMain(s, i), MainStep(c, st, s, i);
    assert SessionHasCause(c, actions, st.log, s, st.sessions[s]);
    StartGoes(c, st, s, AtPublish, i);
    assert MainAfter(c, st, s, i) == st'.sessions[s].main;
    LoggedKeepsCauses(c, actions, st, a, st', s, Executed(s, st.sessions[s].claimIdx));
  }

  lemma OwnEventKeeps(c: Config, actions: seq<Action>, st: State, s: nat, m: Main, i: Input)
    requires st == Run(c, INIT, actions) && Caused(c, actions, st) && s in st.sessions && m == st.sessions[s].main
    requires m.AtPublish? || m.AtTerminal?
    requires HasCome(c, actions + [RunMain(s, i)], s, MainAfter(c, st, s, i))
    requires MainStep(c, st, s, i).log != st.log
    ensures Caused(c, actions + [RunMain(s, i)], MainStep(c, st, s, i))
  {
    var a, st' := RunMain(s, i), MainStep(c, st, s, i);
    assert SessionHasCause(c, actions, st.log, s, st.sessions[s]);
    LogsItsOwn(c, st, s, m, i);
    if m.AtPublish? {
      ExecutionKeepsCauses(c, actions, st, s, i);
    } else {
      ComeStays(c, actions, s, m, a);
      TerminalGoes(c, st, s, i, m);
      LoggedKeepsCauses(c, actions, st, a, st', s, TerminalWritten(s, m.out, m.check));
    }
  }

  lemma MainKeepsCauses(c: Config, actions: seq<Action>, st: State, s: nat, i: Input)
    requires st == Run(c, INIT, actions) && Caused(c, actions, st) && s in st.sessions
    ensures Caused(c, actions + [RunMain(s, i)], MainStep(c, st, s, i))
  {
    var a, m := RunMain(s, i), st.sessions[s].main;
    assert SessionHasCause(c, actions, st.log, s, st.sessions[s]);
    MainComes(c, actions, st, s, m, i);
    if BeforeExecution(MainAfter(c, st, s, i)) { NeverBack(c, st, s, i); }
    if m.AtPublish? || m.AtTerminal? {
      LogsItsOwn(c, st, s, m, i);
      if MainStep(c, st, s, i).log != st.log {
        OwnEventKeeps(c, actions, st, s, m, i);
      } else {
        MindedKeeps(c, actions, st, a, MainStep(c, st, s, i), s);
      }
    } else {
      if Claiming(m) {
        ClaimMinds(c, st, s, m, i);
      } else if m.AtRenewCas? {
        CasMinds(c, st, s, m, i);
      } else {
        RestMinds(c, st, s, m, i);
      }
      MindedKeeps(c, actions, st, a, MainStep(c, st, s, i), s);
    }
  }

  lemma RenewerKeepsCauses(c: Config, actions: seq<Action>, st: State, s: nat, fault: Fault, now: real)
    requires Caused(c, actions, st) && s in st.sessions
    ensures Caused(c, actions + [RunRenewer(s, fault, now)], RenewerStep(c, st, s, fault, now))
  {
    var a := RunRenewer(s, fault, now);
    assert SessionHasCause(c, actions, st.log, s, st.sessions[s]);
    ComeStays(c, actions, s, st.sessions[s].main, a);
    if st.sessions[s].renewer.RCas? {
      RenewerCasMinds(c, st, s, fault, now);
    } else {
      RenewerMinds(c, st, s, fault, now);
    }
    MindedKeeps(c, actions, st, a, RenewerStep(c, st, s, fault, now), s);
  }

  lemma BeginKeepsCauses(c: Config, actions: seq<Action>, st: State, s: nat, o: Owner, now: real)
    requires Caused(c, actions, st)
    ensures Caused(c, actions + [Begin(s, o, now)], BeginStep(c, st, s, o, now))
  {
    var a, st' := Begin(s, o, now), BeginStep(c, st, s, o, now);
    if CanBegin(c, st, s, o, now) {
      MindedKeeps(c, actions, st, a, st', s);
    } else {
      OutsideKeepsCauses(c, actions, st, a, st');
    }
  }

  lemma ReconcileIsOutside(st: State, r: nat, acked: bool, fault: Fault)
    ensures var st' := ReconcileStep(st, r, acked, fault); st'.sessions == st.sessions && Quietly(st.log, st'.log)
  {
  }

  lemma OfferIsOutside(st: State, route: Route, blob: PendingBlob, fault: Fault)
    ensures var st' := OfferStep(st, route, blob, fault); st'.sessions == st.sessions && st'.log == st.log
  {
  }

  lemma OthersAreOutside(c: Config, st: State, a: Action)
    requires !a.Begin? && !a.RunMain? && !a.RunRenewer? && !a.Crash?
    ensures Next(c, st, a).sessions == st.sessions && Quietly(st.log, Next(c, st, a).log)
  {
    match a
    case Reconcile(r, acked, fault) => ReconcileIsOutside(st, r, acked, fault);
    case Offer(route, blob, fault) => OfferIsOutside(st, route, blob, fault);
    case _ =>
  }

  lemma OthersKeepCauses(c: Config, actions: seq<Action>, st: State, a: Action)
    requires Caused(c, actions, st) && !a.Begin? && !a.RunMain? && !a.RunRenewer? && !a.Crash?
    ensures Caused(c, actions + [a], Next(c, st, a))
  {
    OthersAreOutside(c, st, a);
    OutsideKeepsCauses(c, actions, st, a, Next(c, st, a));
  }

  lemma CrashKeepsCauses(c: Config, actions: seq<Action>, st: State, s: nat)
    requires Caused(c, actions, st) && s in st.sessions
    ensures Caused(c, actions + [Crash(s)], CrashStep(st, s))
  {
    MindedKeeps(c, actions, st, Crash(s), CrashStep(st, s), s);
  }

  lemma NextKeepsCauses(c: Config, actions: seq<Action>, st: State, a: Action)
    requires st == Run(c, INIT, actions) && Caused(c, actions, st)
    ensures Caused(c, actions + [a], Next(c, st, a))
  {
    if (a.RunMain? || a.RunRenewer? || a.Crash?) && a.s !in st.sessions {
      OutsideKeepsCauses(c, actions, st, a, st);
    } else {
      match a
      case Begin(s, o, now) => BeginKeepsCauses(c, actions, st, s, o, now);
      case RunMain(s, i) => MainKeepsCauses(c, actions, st, s, i);
      case RunRenewer(s, fault, now) => RenewerKeepsCauses(c, actions, st, s, fault, now);
      case Crash(s) => CrashKeepsCauses(c, actions, st, s);
      case _ => OthersKeepCauses(c, actions, st, a);
    }
  }

  lemma OneMoreIsCaused(c: Config, actions: seq<Action>, a: Action)
    requires Caused(c, actions, Run(c, INIT, actions))
    ensures Caused(c, actions + [a], Run(c, INIT, actions + [a]))
  {
    NextKeepsCauses(c, actions, Run(c, INIT, actions), a);
    RunSnoc(c, INIT, actions, a);
  }

  lemma {:induction false} EveryRunIsCaused(c: Config, actions: seq<Action>)
    ensures Caused(c, actions, Run(c, INIT, actions))
  {
    if actions == [] {
      NothingIsCaused(c);
    } else {
      var most, last := actions[..|actions| - 1], actions[|actions| - 1];
      assert actions == most + [last];
      EveryRunIsCaused(c, most);
      OneMoreIsCaused(c, most, last);
    }
  }

  lemma NothingIsCaused(c: Config)
    ensures Caused(c, [], INIT)
  {
  }

  // ---- The theorems ---------------------------------------------------------------------

  /** The pending object is the one that was offered. */
  lemma {:induction false} PendingIsOffered(c: Config, actions: seq<Action>)
    ensures
      var pending := Run(c, INIT, actions).pending;
      pending.Some? ==> exists a :: a in actions && a.Offer? && a.blob == pending.value
  {
    if actions != [] {
      var most, last := actions[..|actions| - 1], actions[|actions| - 1];
      PendingIsOffered(c, most);
      assert actions == most + [last];
      PendingComes(c, Run(c, INIT, most), last);
    }
  }

  lemma MainLeavesPending(c: Config, st: State, s: nat, i: Input)
    requires s in st.sessions
    ensures MainStep(c, st, s, i).pending == st.pending
  {
  }

  lemma PendingComes(c: Config, st: State, a: Action)
    ensures
      var pending := Next(c, st, a).pending;
      pending.Some? ==> pending == st.pending || (a.Offer? && a.blob == pending.value)
  {
    if a.RunMain? && a.s in st.sessions { MainLeavesPending(c, st, a.s, a.input); }
  }

  /** In every run a terminal object has its cause: a report is what the session's executor returned on a job whose
      activity was published, and each failure follows its own error. */
  lemma WrittenForItsCause(c: Config, actions: seq<Action>, j: nat)
    requires j < |Run(c, INIT, actions).log| && Run(c, INIT, actions).log[j].TerminalWritten?
    ensures
      var e := Run(c, INIT, actions).log[j];
      match e.out
      case Report(p) => OnPublishedJob(c, actions, e.s) && HasRun(c, actions, e.s, Some(p))
      case Failure(Raised) =>
        OnPublishedJob(c, actions, e.s) && (HasRun(c, actions, e.s, None) || HasFailedToReport(c, actions, e.s))
      case Failure(NoActivity) => HasRead(c, actions, e.s, Job) && HasPublished(c, actions, e.s, false)
      case Failure(IdMismatch) => HasRead(c, actions, e.s, WrongId)
      case Failure(Undecryptable) => HasRead(c, actions, e.s, Corrupt) && HasRoute(c, actions, e.s)
  {
    EveryRunIsCaused(c, actions);
    assert EventHasCause(c, actions, Run(c, INIT, actions).log[j]);
  }

  /** In every run only a job whose activity the session published is executed, and no session executes twice. */
  lemma ExecutedOnceOnAPublishedJob(c: Config, actions: seq<Action>, j: nat)
    requires j < |Run(c, INIT, actions).log| && Run(c, INIT, actions).log[j].Executed?
    ensures
      var log := Run(c, INIT, actions).log;
      && HasRead(c, actions, log[j].s, Job) && HasPublished(c, actions, log[j].s, true)
      && forall l :: 0 <= l < |log| && l != j && log[l].Executed? ==> log[l].s != log[j].s
  {
    EveryRunIsCaused(c, actions);
    assert EventHasCause(c, actions, Run(c, INIT, actions).log[j]);
  }

  lemma FinishesOwing(c: Config, st: State, s: nat, solo: seq<Action>, i: Input, due: Outcome)
      returns (finish: seq<Action>)
    requires 0.0 < c.lease && Inv(c, st) && Alone(c, st, s) && Owes(st, s, i, due, None)
    requires AllSolo(s, solo) && AllLike(i, solo) && i.fault.Fine?
    requires var st1 := Run(c, st, solo); s in st1.sessions && ClockAllows(st1, st1.sessions[s].owner, i.now)
    ensures
      var st1 := Run(c, st, solo);
      var st2 := Run(c, st1, finish);
      && AllSolo(s, finish) && s in st2.sessions && st2.sessions[s].main.Ended? && st2.terminal == Some(due)
      && (st1.sessions[s].main.Ended? ==> st1.terminal == Some(due))
  {
    RunsAlone(c, st, s, solo);
    PaysWhatItOwes(c, st, s, solo, i, due, None);
    var st1 := Run(c, st, solo);
    finish := CanFinish(c, st1, s, i);
    RunsAlone(c, st1, s, finish);
    PaysWhatItOwes(c, st1, s, finish, i, due, None);
  }

  lemma RaisedOwesFailure(c: Config, st: State, s: nat, lost: Input, i: Input)
    requires s in st.sessions && st.sessions[s].main.AtTerminal? && st.sessions[s].main.guarded
    requires Alone(c, st, s) && st.terminal.None? && lost.fault.Lost?
    ensures var st0 := Next(c, st, RunMain(s, lost)); Alone(c, st0, s) && Owes(st0, s, i, Failure(Raised), None)
  {
    assert Next(c, st, RunMain(s, lost)) == At(st, s, st.sessions[s].(main := AtFence(Failure(Raised), false)));
  }

  /** The call that was to write the executor's report raises without effect.  If the worker goes on alone, the
      report is not lost in silence: the terminal object is the failure. */
  lemma RaisedReportIsReplaced(c: Config, history: seq<Action>, s: nat, lost: Input, solo: seq<Action>, i: Input)
      returns (finish: seq<Action>)
    requires 0.0 < c.lease && lost.fault.Lost? && AllSolo(s, solo) && AllLike(i, solo) && i.fault.Fine?
    requires
      var st := Run(c, INIT, history);
      && Alone(c, st, s) && st.terminal.None?
      && st.sessions[s].main.AtTerminal? && st.sessions[s].main.out.Report?
    requires
      var st1 := Run(c, Next(c, Run(c, INIT, history), RunMain(s, lost)), solo);
      s in st1.sessions && ClockAllows(st1, st1.sessions[s].owner, i.now)
    ensures
      var st1 := Run(c, Next(c, Run(c, INIT, history), RunMain(s, lost)), solo);
      var st2 := Run(c, st1, finish);
      && AllSolo(s, finish) && s in st2.sessions && st2.sessions[s].main.Ended?
      && st2.terminal == Some(Failure(Raised))
      && (st1.sessions[s].main.Ended? ==> st1.terminal == Some(Failure(Raised)))
  {
    var st := Run(c, INIT, history);
    EveryRunKeeps(c, history);
    EveryRunIsCaused(c, history);
    assert SessionHasCause(c, history, st.log, s, st.sessions[s]);
    NextKeeps(c, st, RunMain(s, lost));
    RaisedOwesFailure(c, st, s, lost, i);
    finish := FinishesOwing(c, Next(c, st, RunMain(s, lost)), s, solo, i, Failure(Raised));
  }
}
