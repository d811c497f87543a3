/**
 * What every run of the lease protocol keeps, stated on the log of events:
 * who may write the marker and when, and what a terminal object follows.
 */
module LeaseSafety {
  import opened Options
  import opened ObjectStore
  import opened LeaseProtocol

  // ---- Reading the log -----------------------------------------------------

  /** The marker in the bucket after these events. */
  function MarkerAfter(log: seq<Event>): Option<Marker> {
    if log == [] then None
    else match log[|log| - 1]
      case Created(_, m) => Some(m)
      case TookOver(_, m, _) => Some(m)
      case Renewed(_, _, m, _) => Some(m)
      case ClaimedGone => None
      case _ => MarkerAfter(log[..|log| - 1])
  }

  /** The terminal object in the bucket after these events. */
  function TerminalAfter(log: seq<Event>): Option<Outcome> {
    if log == [] then None
    else match log[|log| - 1]
      case TerminalWritten(_, out, _) => Some(out)
      case TerminalGone => None
      case _ => TerminalAfter(log[..|log| - 1])
  }

  predicate IsClaim(e: Event, s: nat) {
    (e.Created? || e.TookOver?) && e.s == s
  }

  predicate WritesMarker(e: Event) {
    e.Created? || e.TookOver? || e.Renewed?
  }

  /** Position `k` is a successful owner-checked renewal by the executing thread of `s`, before any purge. */
  predicate IsCheck(log: seq<Event>, s: nat, k: nat) {
    k < |log| && log[k].Renewed? && log[k].s == s && log[k].byMain && ClaimedGone !in log[..k]
  }

  /** What must already have happened for `e` to happen; that a renewal never turns the time back needs `joined`. */
  predicate EventOK(c: Config, before: seq<Event>, e: Event) {
    match e
    case Created(s, m) => MarkerAfter(before) == None
    case TookOver(s, m, prev) => MarkerAfter(before) == Some(prev) && prev.at + c.lease <= m.at
    case Renewed(s, _, m, prev) =>
      MarkerAfter(before) == Some(prev) && prev.owner == m.owner && (c.joined ==> prev.at <= m.at)
    case Executed(s, k) => k < |before| && IsClaim(before[k], s) && ClaimedGone !in before[..k]
    case TerminalWritten(s, out, k) => TerminalAfter(before) == None && IsCheck(before, s, k)
    case _ => true
  }

  ghost predicate LogOK(c: Config, log: seq<Event>) {
    forall i :: 0 <= i < |log| ==> EventOK(c, log[..i], log[i])
  }

  /** The markers a session writes carry its owner's name. */
  ghost predicate Signed(st: State) {
    forall e :: e in st.log && WritesMarker(e) ==> e.s in st.sessions && e.m.owner == st.sessions[e.s].owner
  }

  /** The terminal object due to a job whose executor returned this, or raised. */
  function Written(ran: Option<string>): Outcome {
    if ran.Some? then Report(ran.value) else Failure(Raised)
  }

  // ---- The invariant ----------------------------------------------------------

  ghost predicate NowOK(st: State, ss: Session, now: real) {
    ss.owner in st.clocks && now <= st.clocks[ss.owner]
  }

  ghost predicate SeenOK(c: Config, st: State, seen: Obj<Marker>) {
    Identifies(c.scheme, st.claimed, seen, st.gen)
  }

  /** A renewal that has read its clock: its own marker, if still there, is not newer. */
  ghost predicate RenewingOK(c: Config, st: State, ss: Session, now: real) {
    NowOK(st, ss, now)
    && (c.joined && st.claimed.Some? && st.claimed.value.body.owner == ss.owner ==> st.claimed.value.body.at <= now)
  }

  ghost predicate HoldOK(c: Config, st: State, ss: Session, now: real, seen: Obj<Marker>) {
    NowOK(st, ss, now) && SeenOK(c, st, seen) && seen.body.owner == ss.owner && (c.joined ==> seen.body.at <= now)
  }

  ghost predicate MainOK(c: Config, st: State, s: nat, ss: Session) {
    match ss.main
    case AtCreate(now) => NowOK(st, ss, now)
    case AtInspect(now) => NowOK(st, ss, now)
    case AtTakeover(now, seen) => NowOK(st, ss, now) && SeenOK(c, st, seen) && c.lease <= now - seen.body.at
    case AtRenewRead(now, _, _) => RenewingOK(c, st, ss, now)
    case AtRenewCas(now, seen, _, _) => HoldOK(c, st, ss, now, seen)
    case AtTerminal(_, _, check) => IsCheck(st.log, s, check)
    case _ => true
  }

  ghost predicate RenewerOK(c: Config, st: State, ss: Session) {
    match ss.renewer
    case RRead(now) => RenewingOK(c, st, ss, now)
    case RCas(now, seen) => HoldOK(c, st, ss, now, seen)
    case _ => true
  }

  ghost predicate LockOK(ss: Session) {
    && (ss.main.AtRenewRead? || ss.main.AtRenewCas? <==> ss.lock == Some(MainThread))
    && (ss.renewer.RRead? || ss.renewer.RCas? <==> ss.lock == Some(RenewThread))
    && (Claiming(ss.main) ==> ss.renewer.Off?)
  }

  /** A session that has read the pending object claimed before any purge reached the marker, and lost it for good if
      one did. */
  ghost predicate PhaseOK(st: State, s: nat, ss: Session) {
    && (ss.main.AtPending? || PastPending(ss.main) ==> ss.claimIdx < |st.log| && IsClaim(st.log[ss.claimIdx], s))
    && (PastPending(ss.main) ==>
      && st.enq.Offered?
      && ClaimedGone !in st.log[..ss.claimIdx]
      && (ClaimedGone in st.log && st.claimed.Some? ==> st.claimed.value.body.owner != ss.owner))
  }

  ghost predicate SessionOK(c: Config, st: State, s: nat, ss: Session) {
    MainOK(c, st, s, ss) && RenewerOK(c, st, ss) && LockOK(ss) && PhaseOK(st, s, ss)
  }

  /** One owner never has two executing threads under way and, when `joined`, no two sessions. */
  ghost predicate Exclusive(c: Config, st: State) {
    forall s, t :: s in st.sessions && t in st.sessions && s != t && st.sessions[s].owner == st.sessions[t].owner
      ==> Released(c, st.sessions[s]) || Released(c, st.sessions[t])
  }

  ghost predicate MarkerOK(c: Config, st: State) {
    && MarkerAfter(st.log) == (if st.claimed.Some? then Some(st.claimed.value.body) else None)
    && (st.claimed.Some? ==>
      var m := st.claimed.value.body;
      Stamped(c.scheme, st.claimed.value, st.gen) && m.owner in st.clocks && m.at <= st.clocks[m.owner])
  }

  /** Until the job is offered there is nothing to run or purge; afterwards pending goes first and stays gone. */
  ghost predicate OrderOK(st: State) {
    && (!st.enq.Offered? ==>
      && st.pending.None? && st.terminal.None? && ClaimedGone !in st.log
      && forall r :: r in st.recs ==> st.recs[r].Idle?)
    && (st.pending.Some? || st.enq.RoutePut? ==> st.claimant.Some?)
    && (forall r :: r in st.recs && st.recs[r].Purging? && st.recs[r].k >= 1 ==> st.pending.None?)
    && (ClaimedGone in st.log ==> st.pending.None?)
  }

  ghost predicate Globals(c: Config, st: State) {
    && MarkerOK(c, st) && TerminalAfter(st.log) == st.terminal && OrderOK(st) && LogOK(c, st.log) && Signed(st)
  }

  ghost predicate Inv(c: Config, st: State) {
    && Globals(c, st) && Exclusive(c, st)
    && forall s :: s in st.sessions ==> SessionOK(c, st, s, st.sessions[s])
  }

  // ---- Steps of one session leave the others alone -------------------------------

  /** What a step on behalf of owner `o` may change for everybody else. */
  ghost predicate Frame(c: Config, st: State, st': State, o: Owner) {
    && st.log <= st'.log && st.gen <= st'.gen
    && (forall p :: p in st.clocks ==> p in st'.clocks && st.clocks[p] <= st'.clocks[p])
    && (st.enq.Offered? ==> st'.enq.Offered?)
    && (ClaimedGone in st'.log ==> ClaimedGone in st.log || st'.claimed.None?)
    && (st'.claimed == st.claimed || st'.claimed.None?
      || (st'.claimed.value.body.owner == o && st.gen < st'.gen
        && st'.claimed.value.version == Stamp(c.scheme, st'.claimed.value.body, st.gen)))
  }

  lemma OthersKeep(c: Config, st: State, st': State, o: Owner, s: nat, ss: Session)
    requires SessionOK(c, st, s, ss) && Frame(c, st, st', o)
    requires ss.owner == o && st'.claimed != st.claimed && st'.claimed.Some? ==>
      (c.joined ==> Quiet(ss)) && (PastPending(ss.main) ==> ClaimedGone !in st.log)
    ensures SessionOK(c, st', s, ss)
  {
    PrefixKeeps(st.log, st'.log);
  }

  lemma PrefixKeeps(log: seq<Event>, log': seq<Event>)
    requires log <= log'
    ensures forall k :: 0 <= k < |log| ==> log'[k] == log[k]
    ensures forall k {:trigger log'[..k]} :: 0 <= k <= |log| ==> log'[..k] == log[..k]
  {
  }

  /** A session writes the marker from a thread that is under way: the executing one, or a renewing one whose
      owner's name is on the marker. */
  ghost predicate MayWrite(c: Config, st: State, ss: Session) {
    !Quiet(ss) && (!ss.main.Ended? || (st.claimed.Some? && st.claimed.value.body.owner == ss.owner))
  }

  /** What that means for another session `s` of the same owner. */
  lemma WritesAlone(c: Config, st: State, t: nat, s: nat)
    requires Inv(c, st) && t in st.sessions && s in st.sessions && s != t
    requires st.sessions[s].owner == st.sessions[t].owner
    requires MayWrite(c, st, st.sessions[t])
    ensures c.joined ==> Quiet(st.sessions[s])
    ensures PastPending(st.sessions[s].main) ==> ClaimedGone !in st.log
  {
    assert SessionOK(c, st, s, st.sessions[s]);
  }

  /** A step of session `t` keeps the invariant if it keeps its own part of it and the shared part. */
  lemma StepKeeps(c: Config, st: State, st1: State, t: nat, ss': Session)
    requires Inv(c, st) && t in st.sessions && st1.sessions == st.sessions && ss'.owner == st.sessions[t].owner
    requires Released(c, st.sessions[t]) ==> Released(c, ss')
    requires st1.claimed != st.claimed && st1.claimed.Some? ==> MayWrite(c, st, st.sessions[t])
    requires Frame(c, st, st1, ss'.owner)
    requires SessionOK(c, st1, t, ss') && Globals(c, st1)
    ensures Inv(c, At(st1, t, ss'))
  {
    var st' := At(st1, t, ss');
    forall s | s in st'.sessions ensures SessionOK(c, st', s, st'.sessions[s]) {
      if s != t {
        if st1.claimed != st.claimed && st1.claimed.Some? && st.sessions[s].owner == ss'.owner {
          WritesAlone(c, st, t, s);
        }
        OthersKeep(c, st, st1, ss'.owner, s, st.sessions[s]);
      }
      SameForSession(c, st1, st', s, st'.sessions[s]);
    }
  }

  /** A session's part of the invariant does not look at the other sessions. */
  lemma SameForSession(c: Config, st: State, st': State, s: nat, ss: Session)
    requires SessionOK(c, st, s, ss)
    requires st'.log == st.log && st'.gen == st.gen && st'.clocks == st.clocks && st'.claimed == st.claimed
      && st'.enq == st.enq
    ensures SessionOK(c, st', s, ss)
  {
  }

  // ---- Appending to the log ----------------------------------------------------------

  lemma LogGrows(c: Config, log: seq<Event>, e: Event)
    requires LogOK(c, log) && EventOK(c, log, e)
    ensures LogOK(c, log + [e])
  {
    var log' := log + [e];
    forall i | 0 <= i < |log'| ensures EventOK(c, log'[..i], log'[i]) {
      if i < |log| { assert log'[..i] == log[..i]; } else { assert log'[..i] == log; }
    }
  }

  lemma Appended(log: seq<Event>, e: Event)
    ensures (log + [e])[..|log|] == log
    ensures MarkerAfter(log + [e]) ==
      (match e case Created(_, m) => Some(m) case TookOver(_, m, _) => Some(m) case Renewed(_, _, m, _) => Some(m)
               case ClaimedGone => None case _ => MarkerAfter(log))
    ensures TerminalAfter(log + [e]) ==
      (match e case TerminalWritten(_, out, _) => Some(out) case TerminalGone => None case _ => TerminalAfter(log))
    ensures ClaimedGone in log + [e] <==> e == ClaimedGone || ClaimedGone in log
  {
  }

  /** The shared part of the invariant, after session `s` wrote a marker and said so. */
  lemma WroteKeepsGlobals(c: Config, st: State, s: nat, m: Marker, e: Event)
    requires Globals(c, st) && s in st.sessions && st.sessions[s].owner == m.owner
    requires WritesMarker(e) && e.s == s && e.m == m && EventOK(c, st.log, e)
    requires m.owner in st.clocks && m.at <= st.clocks[m.owner]
    ensures Globals(c, Wrote(c, st, m, e))
    ensures Frame(c, st, Wrote(c, st, m, e), m.owner)
  {
    Appended(st.log, e);
    LogGrows(c, st.log, e);
  }

  /** The shared part of the invariant, after an event that changes no object. */
  lemma LoggedKeepsGlobals(c: Config, st: State, e: Event, o: Owner)
    requires Globals(c, st) && (e.RenewFailed? || e.Executed?) && EventOK(c, st.log, e)
    ensures Globals(c, Log(st, e)) && Frame(c, st, Log(st, e), o)
  {
    Appended(st.log, e);
    LogGrows(c, st.log, e);
  }
}
