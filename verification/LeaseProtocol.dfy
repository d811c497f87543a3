/**
 * One job's objects in the bucket and everybody who touches them, as a state
 * machine whose steps are single store calls.  A session is one run of the
 * poller on the job: it claims, renews from two threads that share a lock,
 * executes, and writes the terminal object.  Reconcilers purge; the enqueuer
 * offers.  A call may be dropped, or take effect and still raise.
 */
module LeaseProtocol {
  import opened Options
  import opened ObjectStore

  type Owner = string

  datatype Marker = Marker(owner: Owner, at: real)
  datatype Reason = Undecryptable | IdMismatch | NoActivity | Raised
  datatype Outcome = Report(payload: string) | Failure(reason: Reason)
  datatype PendingBlob = Job | WrongId | Corrupt
  datatype Route = Usable | Unusable

  /** How a store call ends: it answers, it is lost, or it takes effect and its answer is lost. */
  datatype Fault = Fine | Lost | Unanswered

  /** `joined`: a worker starts on a job again only after the renewing thread of its earlier session has come to
      rest.  Its executing thread has ended in any case: a worker runs one at a time. */
  datatype Config = Config(lease: real, scheme: Scheme, joined: bool)

  /** Where the executing thread is; `guarded` inside the try that reports an exception as a failure. */
  datatype Main =
    | AtCreate(now: real)
    | AtInspect(now: real)
    | AtTakeover(now: real, seen: Obj<Marker>)
    | AtPending
    | AtClaimant
    | AtPublish
    | Executing
    | AtFence(out: Outcome, guarded: bool)
    | AtLock(out: Outcome, guarded: bool)
    | AtRenewRead(now: real, out: Outcome, guarded: bool)
    | AtRenewCas(now: real, seen: Obj<Marker>, out: Outcome, guarded: bool)
    | AtTerminal(out: Outcome, guarded: bool, check: nat)
    | Ended

  /** Where the renewing thread is. */
  datatype Renewer = Off | Resting | RLock | RRead(now: real) | RCas(now: real, seen: Obj<Marker>)

  datatype Thread = MainThread | RenewThread

  /** `claimIdx` is a history variable: where in the log this session's claim is. */
  datatype Session = Session(owner: Owner, main: Main, renewer: Renewer, lost: bool, lock: Option<Thread>,
      claimIdx: nat)

  datatype Reconciler = Idle | Seen | Purging(k: nat)
  datatype Enqueuer = NotYet | RoutePut | Offered | Abandoned

  /** What has happened to the markers, the executor and the terminal object. */
  datatype Event =
    | Created(s: nat, m: Marker)
    | TookOver(s: nat, m: Marker, prev: Marker)
    | Renewed(s: nat, byMain: bool, m: Marker, prev: Marker)
    | RenewFailed(s: nat)
    | ClaimedGone
    | Executed(s: nat, claim: nat)
    | TerminalWritten(s: nat, out: Outcome, check: nat)
    | TerminalGone

  datatype State = State(
    pending: Option<PendingBlob>,
    claimant: Option<Route>,
    claimed: Slot<Marker>,
    terminal: Option<Outcome>,
    gen: nat,
    time: real,
    clocks: map<Owner, real>,
    sessions: map<nat, Session>,
    recs: map<nat, Reconciler>,
    enq: Enqueuer,
    log: seq<Event>)

  const INIT := State(None, None, None, None, 0, 0.0, map[], map[], map[], NotYet, [])

  /** Everything a step of the executing thread leaves to chance; `ran` is what the executor returned, or None if it
      raised. */
  datatype Input = Input(fault: Fault, now: real, published: bool, ran: Option<string>)

  datatype Action =
    | Tick(time: real)
    | Begin(s: nat, owner: Owner, now: real)
    | RunMain(s: nat, input: Input)
    | RunRenewer(s: nat, fault: Fault, now: real)
    | Crash(s: nat)
    | Reconcile(r: nat, acked: bool, fault: Fault)
    | ReconcilerCrash(r: nat)
    | Offer(route: Route, blob: PendingBlob, fault: Fault)

  // ---- Small updates ----------------------------------------------------

  function At(st: State, s: nat, ss: Session): State {
    st.(sessions := st.sessions[s := ss])
  }

  function Log(st: State, e: Event): State {
    st.(log := st.log + [e])
  }

  function Wrote(c: Config, st: State, m: Marker, e: Event): State {
    Log(st.(claimed := Some(Obj(m, Stamp(c.scheme, m, st.gen))), gen := st.gen + 1), e)
  }

  predicate ClockAllows(st: State, o: Owner, now: real) {
    o in st.clocks ==> st.clocks[o] <= now
  }

  /** No call of this session is under way, and none will be. */
  predicate Quiet(ss: Session) {
    ss.main.Ended? && (ss.renewer.Off? || ss.renewer.Resting?)
  }

  predicate Claiming(m: Main) {
    m.AtCreate? || m.AtInspect? || m.AtTakeover?
  }

  /** The claim was won and the pending object has been read. */
  predicate PastPending(m: Main) {
    !Claiming(m) && !m.AtPending? && !m.Ended?
  }

  // ---- The executing thread -----------------------------------------------

  function Finish(ss: Session): Session {
    ss.(main := Ended)
  }

  /** The claim call answered True: the lease starts, with its renewing thread. */
  function Started(ss: Session, claimIdx: nat): Session {
    ss.(main := AtPending, renewer := Resting, claimIdx := claimIdx)
  }

  function CreateStep(c: Config, st: State, s: nat, ss: Session, now: real, fault: Fault): State {
    var m := Marker(ss.owner, now);
    if fault.Lost? then At(st, s, Finish(ss))
    else if st.claimed.None? then
      At(Wrote(c, st, m, Created(s, m)), s, if fault.Fine? then Started(ss, |st.log|) else Finish(ss))
    else At(st, s, if fault.Fine? then ss.(main := AtInspect(now)) else Finish(ss))
  }

  function InspectStep(c: Config, st: State, s: nat, ss: Session, now: real, fault: Fault): State {
    if !fault.Fine? || st.claimed.None? || now - st.claimed.value.body.at < c.lease then At(st, s, Finish(ss))
    else At(st, s, ss.(main := AtTakeover(now, st.claimed.value)))
  }

  function TakeoverStep(c: Config, st: State, s: nat, ss: Session, now: real, seen: Obj<Marker>, fault: Fault): State {
    var m := Marker(ss.owner, now);
    if fault.Lost? || !CasWrite(st.claimed, c.scheme, m, st.gen, seen.version).1 then At(st, s, Finish(ss))
    else At(Wrote(c, st, m, TookOver(s, m, st.claimed.value.body)), s,
            if fault.Fine? then Started(ss, |st.log|) else Finish(ss))
  }

  /** Read and open the pending object; a missing one ends the session. */
  function AfterPending(pending: Option<PendingBlob>, fault: Fault): Main {
    if !fault.Fine? || pending.None? then Ended
    else match pending.value
      case Corrupt => AtClaimant
      case WrongId => AtFence(Failure(IdMismatch), false)
      case Job => AtPublish
  }

  function PendingStep(st: State, s: nat, ss: Session, fault: Fault): State {
    At(st, s, ss.(main := AfterPending(st.pending, fault)))
  }

  function ClaimantStep(st: State, s: nat, ss: Session, fault: Fault): State {
    if !fault.Fine? || st.claimant != Some(Usable) then At(st, s, Finish(ss))
    else At(st, s, ss.(main := AtFence(Failure(Undecryptable), false)))
  }

  function PublishStep(st: State, s: nat, ss: Session, published: bool): State {
    if published then At(Log(st, Executed(s, ss.claimIdx)), s, ss.(main := Executing))
    else At(st, s, ss.(main := AtFence(Failure(NoActivity), false)))
  }

  /** The executor returned a result, or raised and is reported as a failure outside the try. */
  function ExecuteStep(st: State, s: nat, ss: Session, ran: Option<string>): State {
    match ran
    case Some(payload) => At(st, s, ss.(main := AtFence(Report(payload), true)))
    case None => At(st, s, ss.(main := AtFence(Failure(Raised), false)))
  }

  function FenceStep(st: State, s: nat, ss: Session, out: Outcome, guarded: bool): State {
    At(st, s, if ss.lost then Finish(ss) else ss.(main := AtLock(out, guarded)))
  }

  function LockStep(st: State, s: nat, ss: Session, out: Outcome, guarded: bool, now: real): State {
    if ss.lock.Some? || !ClockAllows(st, ss.owner, now) then st
    else At(st.(clocks := st.clocks[ss.owner := now]), s,
            ss.(main := AtRenewRead(now, out, guarded), lock := Some(MainThread)))
  }

  function Refused(st: State, s: nat, ss: Session): State {
    At(Log(st, RenewFailed(s)), s, Finish(ss).(lost := true, lock := None))
  }

  function RenewReadStep(st: State, s: nat, ss: Session, now: real, out: Outcome, guarded: bool, fault: Fault): State {
    if !fault.Fine? || st.claimed.None? || st.claimed.value.body.owner != ss.owner then Refused(st, s, ss)
    else At(st, s, ss.(main := AtRenewCas(now, st.claimed.value, out, guarded)))
  }

  function RenewCasStep(c: Config, st: State, s: nat, ss: Session, now: real, seen: Obj<Marker>, out: Outcome,
        guarded: bool, fault: Fault): State
  {
    var m := Marker(ss.owner, now);
    if fault.Lost? || !CasWrite(st.claimed, c.scheme, m, st.gen, seen.version).1 then Refused(st, s, ss)
    else
      var st1 := Wrote(c, st, m, Renewed(s, true, m, st.claimed.value.body));
      if fault.Fine? then At(st1, s, ss.(main := AtTerminal(out, guarded, |st.log|), lock := None))
      else Refused(st1, s, ss)
  }

  function TerminalStep(st: State, s: nat, ss: Session, out: Outcome, guarded: bool, check: nat, fault: Fault): State {
    var st1 := if fault.Lost? || st.terminal.Some? then st
               else Log(st.(terminal := Some(out)), TerminalWritten(s, out, check));
    At(st1, s, if !fault.Fine? && guarded then ss.(main := AtFence(Failure(Raised), false)) else Finish(ss))
  }

  function MainStep(c: Config, st: State, s: nat, i: Input): State
    requires s in st.sessions
  {
    var ss := st.sessions[s];
    match ss.main
    case AtCreate(now) => CreateStep(c, st, s, ss, now, i.fault)
    case AtInspect(now) => InspectStep(c, st, s, ss, now, i.fault)
    case AtTakeover(now, seen) => TakeoverStep(c, st, s, ss, now, seen, i.fault)
    case AtPending => PendingStep(st, s, ss, i.fault)
    case AtClaimant => ClaimantStep(st, s, ss, i.fault)
    case AtPublish => PublishStep(st, s, ss, i.published)
    case Executing => ExecuteStep(st, s, ss, i.ran)
    case AtFence(out, g) => FenceStep(st, s, ss, out, g)
    case AtLock(out, g) => LockStep(st, s, ss, out, g, i.now)
    case AtRenewRead(now, out, g) => RenewReadStep(st, s, ss, now, out, g, i.fault)
    case AtRenewCas(now, seen, out, g) => RenewCasStep(c, st, s, ss, now, seen, out, g, i.fault)
    case AtTerminal(out, g, check) => TerminalStep(st, s, ss, out, g, check, i.fault)
    case Ended => st
  }

  // ---- The renewing thread --------------------------------------------------

  function Dropped(st: State, s: nat, ss: Session): State {
    At(Log(st, RenewFailed(s)), s, ss.(renewer := Off, lost := true, lock := None))
  }

  function WakeStep(st: State, s: nat, ss: Session): State {
    At(st, s, ss.(renewer := if ss.main.Ended? || ss.lost then Off else RLock))
  }

  function RLockStep(st: State, s: nat, ss: Session, now: real): State {
    if ss.lock.Some? || !ClockAllows(st, ss.owner, now) then st
    else At(st.(clocks := st.clocks[ss.owner := now]), s, ss.(renewer := RRead(now), lock := Some(RenewThread)))
  }

  function RReadStep(st: State, s: nat, ss: Session, now: real, fault: Fault): State {
    if !fault.Fine? || st.claimed.None? || st.claimed.value.body.owner != ss.owner then Dropped(st, s, ss)
    else At(st, s, ss.(renewer := RCas(now, st.claimed.value)))
  }

  function RCasStep(c: Config, st: State, s: nat, ss: Session, now: real, seen: Obj<Marker>, fault: Fault): State {
    var m := Marker(ss.owner, now);
    if fault.Lost? || !CasWrite(st.claimed, c.scheme, m, st.gen, seen.version).1 then Dropped(st, s, ss)
    else
      var st1 := Wrote(c, st, m, Renewed(s, false, m, st.claimed.value.body));
      if fault.Fine? then At(st1, s, ss.(renewer := Resting, lock := None)) else Dropped(st1, s, ss)
  }

  function RenewerStep(c: Config, st: State, s: nat, fault: Fault, now: real): State
    requires s in st.sessions
  {
    var ss := st.sessions[s];
    match ss.renewer
    case Off => st
    case Resting => WakeStep(st, s, ss)
    case RLock => RLockStep(st, s, ss, now)
    case RRead(t) => RReadStep(st, s, ss, t, fault)
    case RCas(t, seen) => RCasStep(c, st, s, ss, t, seen, fault)
  }

  // ---- Everybody else --------------------------------------------------------

  /** Nothing of this session keeps its worker from starting on the job again. */
  predicate Released(c: Config, ss: Session) {
    ss.main.Ended? && (c.joined ==> Quiet(ss))
  }

  /** The owner's clock allows a new session, and its earlier sessions have released it. */
  predicate CanBegin(c: Config, st: State, s: nat, o: Owner, now: real) {
    && s !in st.sessions && ClockAllows(st, o, now)
    && forall t :: t in st.sessions && st.sessions[t].owner == o ==> Released(c, st.sessions[t])
  }

  function BeginStep(c: Config, st: State, s: nat, o: Owner, now: real): State {
    if !CanBegin(c, st, s, o, now) then st
    else At(st.(clocks := st.clocks[o := now]), s, Session(o, AtCreate(now), Off, false, None, 0))
  }

  function CrashStep(st: State, s: nat): State
    requires s in st.sessions
  {
    At(st, s, st.sessions[s].(main := Ended, renewer := Off, lock := None))
  }

  /** The k-th delete of a purge: pending, claimant, claimed, terminal, active. */
  function DeleteStep(st: State, k: nat): State {
    match k
    case 0 => st.(pending := None)
    case 1 => st.(claimant := None)
    case 2 => Log(st.(claimed := None), ClaimedGone)
    case 3 => Log(st.(terminal := None), TerminalGone)
    case _ => st
  }

  /** Read the terminal object, wait for the Hive to acknowledge it, then delete five keys one at a time. */
  function ReconcileStep(st: State, r: nat, acked: bool, fault: Fault): State {
    var pc := if r in st.recs then st.recs[r] else Idle;
    match pc
    case Idle => st.(recs := st.recs[r := if fault.Fine? && st.terminal.Some? then Seen else Idle])
    case Seen => st.(recs := st.recs[r := if acked then Purging(0) else Idle])
    case Purging(k) =>
      var st1 := if fault.Lost? then st else DeleteStep(st, k);
      st1.(recs := st.recs[r := if fault.Fine? && k < 4 then Purging(k + 1) else Idle])
  }

  /** The enqueuer puts the claimant route first, the pending object second. */
  function OfferStep(st: State, route: Route, blob: PendingBlob, fault: Fault): State {
    match st.enq
    case NotYet =>
      st.(claimant := if fault.Lost? then None else Some(route), enq := if fault.Fine? then RoutePut else Abandoned)
    case RoutePut =>
      if fault.Lost? then st.(enq := Abandoned) else st.(pending := Some(blob), enq := Offered)
    case _ => st
  }

  function Next(c: Config, st: State, a: Action): State {
    match a
    case Tick(t) => if st.time <= t then st.(time := t) else st
    case Begin(s, o, now) => BeginStep(c, st, s, o, now)
    case RunMain(s, i) => if s in st.sessions then MainStep(c, st, s, i) else st
    case RunRenewer(s, fault, now) => if s in st.sessions then RenewerStep(c, st, s, fault, now) else st
    case Crash(s) => if s in st.sessions then CrashStep(st, s) else st
    case Reconcile(r, acked, fault) => ReconcileStep(st, r, acked, fault)
    case ReconcilerCrash(r) => st.(recs := st.recs[r := Idle])
    case Offer(route, blob, fault) => OfferStep(st, route, blob, fault)
  }

  /** The state after any sequence of actions; an action that is not enabled changes nothing. */
  function Run(c: Config, st: State, actions: seq<Action>): State {
    if actions == [] then st else Next(c, Run(c, st, actions[..|actions| - 1]), actions[|actions| - 1])
  }

  lemma RunSnoc(c: Config, st: State, actions: seq<Action>, a: Action)
    ensures Run(c, st, actions + [a]) == Next(c, Run(c, st, actions), a)
  {
    assert (actions + [a])[..|actions|] == actions;
  }
}
