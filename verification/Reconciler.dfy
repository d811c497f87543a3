/**
 * The reconciler's own code, one uninterrupted call at a time: land, save the
 * orphan, report, purge.  Each call is a run of one reconciler of the protocol.
 */
module Reconciler {
  import opened Options
  import opened ReviewResults
  import opened ReviewProtocol

  /** The steps `t` to `n` of reconciler `r`, with nobody else between. */
  function From(c: Config, w: World, pc: Pc, r: nat, chance: nat -> Input, t: nat, n: nat): (World, Pc)
    decreases n
  {
    if n <= t then (w, pc)
    else
      var before := From(c, w, pc, r, chance, t, n - 1);
      Move(c, before.0, before.1, r, chance(n - 1))
  }

  lemma {:induction false} FromConcat(c: Config, w: World, pc: Pc, r: nat, chance: nat -> Input, t: nat, m: nat, n: nat)
    requires t <= m <= n
    ensures From(c, w, pc, r, chance, t, n)
         == From(c, From(c, w, pc, r, chance, t, m).0, From(c, w, pc, r, chance, t, m).1, r, chance, m, n)
    decreases n
  {
    if m < n { FromConcat(c, w, pc, r, chance, t, m, n - 1); }
  }

  lemma Two(c: Config, w: World, pc: Pc, r: nat, chance: nat -> Input, t: nat)
    ensures From(c, w, pc, r, chance, t, t + 1) == Move(c, w, pc, r, chance(t))
    ensures From(c, w, pc, r, chance, t, t + 2)
         == Move(c, Move(c, w, pc, r, chance(t)).0, Move(c, w, pc, r, chance(t)).1, r, chance(t + 1))
  {
    assert From(c, w, pc, r, chance, t, t) == (w, pc);
  }

  datatype Landing = At(id: string) | TransientError | PermanentError(err: string)

  /** Where a landing leaves the reconciler. */
  function After(l: Landing): Pc {
    match l
    case At(id) => AtReview(Landed(id))
    case TransientError => Idle
    case PermanentError(err) => AtSave(err)
  }

  function Failing(i: Input): Landing
    requires !i.git.Good?
  {
    if i.git.Transient? then TransientError else PermanentError(i.err)
  }

  // ---- What the answers come to ------------------------------------------------------------

  /** Git has no branch yet, so the patch is applied to a clone; it applies, so it is pushed; the push fails, so git
      is asked again.  `t` is the first answer, to ls-remote. */
  predicate Applies(remote: Option<Commit>, chance: nat -> Input, t: nat) {
    chance(t).git.Good? && remote.None?
  }

  predicate Pushes(remote: Option<Commit>, chance: nat -> Input, t: nat) {
    Applies(remote, chance, t) && chance(t + 1).git.Good?
  }

  predicate AsksAgain(remote: Option<Commit>, chance: nat -> Input, t: nat) {
    Pushes(remote, chance, t) && !chance(t + 2).git.Transient? && !(chance(t + 2).reached && chance(t + 2).reported)
  }

  /** Git answered one of the four with a transient error, or turned the push away for now. */
  predicate PutOff(remote: Option<Commit>, chance: nat -> Input, t: nat) {
    || chance(t).git.Transient?
    || (Applies(remote, chance, t) && chance(t + 1).git.Transient?)
    || (Pushes(remote, chance, t) && chance(t + 2).git.Transient?)
    || (AsksAgain(remote, chance, t)
        && (chance(t + 3).git.Transient?
            || (chance(t + 3).git.Good? && !chance(t + 2).reached && chance(t + 3).reported)))
  }

  /** Git answered `err` for good, or turned the push away for good. */
  predicate TurnedDown(remote: Option<Commit>, chance: nat -> Input, t: nat, err: string) {
    || (chance(t).git.Permanent? && err == chance(t).err)
    || (Applies(remote, chance, t) && chance(t + 1).git.Permanent? && err == chance(t + 1).err)
    || (AsksAgain(remote, chance, t) && err == chance(t + 3).err
        && (chance(t + 3).git.Permanent?
            || (chance(t + 3).git.Good? && !chance(t + 2).reached && !chance(t + 3).reported)))
  }

  /** The landing of a patch is given up with `err`: before git is asked, from turn 2 on, or by git. */
  predicate GivenUp(c: Config, remote: Option<Commit>, chance: nat -> Input, err: string) {
    if chance(1).git.Permanent? || !c.landable then err == chance(1).err else TurnedDown(remote, chance, 2, err)
  }

  /** The hive answered with a 2xx. */
  predicate Accepts(i: Input) {
    exists code :: 200 <= code <= 299 && i.code == Some(code)
  }

  /** The hive does not know the review status. */
  predicate RejectsReview(i: Input) {
    i.code == Some(400) || i.code == Some(422)
  }

  class Home {
    var terminal: bool
    var remote: Option<Commit>
    var orphan: Option<string>
    var stored: Option<(HiveStatus, Report)>
    ghost var log: seq<Event>

    ghost function Now(): World
      reads this
    {
      World(terminal, remote, orphan, stored, log)
    }

    constructor ()
      ensures Now() == INIT.w
    {
      terminal, remote, orphan, stored, log := true, None, None, None, [];
    }

    /** git push HEAD:refs/heads/branch; true if it reported success. */
    method Push(c: Config, r: nat, id: string, i: Input) returns (ok: bool)
      modifies this`remote, this`log
      ensures !i.git.Transient? && ok ==>
        (Now().(log := Now().log + [LandReturned(r, id)]), AtReview(Landed(id))) == PushStep(c, old(Now()), r, id, i)
      ensures !i.git.Transient? && !ok ==> (Now(), AtLsAgain) == PushStep(c, old(Now()), r, id, i)
      ensures i.git.Transient? ==> (Now(), Idle) == PushStep(c, old(Now()), r, id, i)
    {
      if i.reached && remote.None? {
        remote := Some(Commit(id, c.patch));
        log := log + [BranchWritten(r, id)];
      }
      ok := i.reached && remote.Some? && remote.value.id == id && i.reported;
    }

    /** PatchLander.land, from the first ls-remote on. */
    method Land(c: Config, r: nat, chance: nat -> Input, t: nat) returns (l: Landing, n: nat)
      modifies this`remote, this`log
      ensures t < n && From(c, old(Now()), AtLsRemote, r, chance, t, n) == (Now(), After(l))
      ensures l.At? ==> remote.Some? && l.id == remote.value.id
      ensures l.TransientError? <==> PutOff(old(remote), chance, t)
      ensures forall err :: l == PermanentError(err) <==> TurnedDown(old(remote), chance, t, err)
    {
      ghost var w0 := Now();
      Two(c, w0, AtLsRemote, r, chance, t);
      if !chance(t).git.Good? { return Failing(chance(t)), t + 1; }
      if remote.Some? {
        log := log + [LandReturned(r, remote.value.id)];
        return At(remote.value.id), t + 1;
      }
      if !chance(t + 1).git.Good? { return Failing(chance(t + 1)), t + 2; }
      var id := chance(t + 1).id;
      assert From(c, w0, AtLsRemote, r, chance, t, t + 2) == (w0, AtPush(id));
      FromConcat(c, w0, AtLsRemote, r, chance, t, t + 2, t + 3);
      FromConcat(c, w0, AtLsRemote, r, chance, t, t + 2, t + 4);
      Two(c, w0, AtPush(id), r, chance, t + 2);
      var pushed := Push(c, r, id, chance(t + 2));
      if chance(t + 2).git.Transient? { return TransientError, t + 3; }
      if pushed {
        log := log + [LandReturned(r, id)];
        return At(id), t + 3;
      }
      var again := chance(t + 3);
      if !again.git.Good? { return Failing(again), t + 4; }
      if remote.Some? {
        log := log + [LandReturned(r, remote.value.id)];
        return At(remote.value.id), t + 4;
      }
      return (if again.reported then TransientError else PermanentError(again.err)), t + 4;
    }

    /** PatchLander.save_orphan_patch: true if the whole body is in the file. */
    method SaveOrphanPatch(c: Config, err: string, r: nat, chance: nat -> Input, t: nat) returns (saved: bool, n: nat)
      modifies this`orphan
      ensures t < n && From(c, old(Now()), AtSave(err), r, chance, t, n)
        == (Now(), if saved then AtReview(Saved(err)) else Unsaved(c, err))
      ensures saved ==> orphan == Some(c.body)
      ensures saved <==> chance(t).opens && chance(t + 1).short.None?
    {
      Two(c, Now(), AtSave(err), r, chance, t);
      if !chance(t).opens { return false, t + 1; }
      var i := chance(t + 1);
      if i.short.Some? {
        orphan := Some(if i.short.value <= |c.body| then c.body[..i.short.value] else c.body);
        return false, t + 2;
      }
      orphan := Some(c.body);
      return true, t + 2;
    }

    /** One PATCH. */
    method PatchStatus(r: nat, report: Report, status: HiveStatus, i: Input)
      modifies this`stored, this`log
      ensures Now() == Reported(old(Now()), r, report, status, i)
    {
      if IsAck(i.code) || i.took { stored := Some((status, report)); }
      if IsAck(i.code) { log := log + [Acked(r, i.code.value, report)]; }
    }

    /** One delete of a purge; the fourth is of the terminal object. */
    method Delete(r: nat, k: nat, ghost ack: nat, i: Input) returns (ok: bool)
      modifies this`terminal, this`log
      ensures PurgeStep(old(Now()), r, k, ack, i) == (Now(), if ok && k < 4 then AtPurge(k + 1, ack) else Idle)
      ensures ok <==> i.deleted && i.answered
      ensures terminal == (old(terminal) && !(k == 3 && i.deleted))
    {
      if i.deleted {
        if k == 3 { terminal := false; }
        log := log + [Deleted(r, k, ack)];
      }
      ok := i.deleted && i.answered;
    }

    /** The part of a purge up to and with its `k`-th delete, which succeeded or ends it. */
    ghost predicate Purged(c: Config, w: World, r: nat, ack: nat, chance: nat -> Input, t: nat, k: nat)
      reads this
    {
      From(c, w, AtPurge(0, ack), r, chance, t, t + k) == (Now(), if k < 5 then AtPurge(k, ack) else Idle)
    }

    /** RelayClient.purge: five deletes; the first that raises ends it. */
    method Purge(c: Config, r: nat, ghost ack: nat, chance: nat -> Input, t: nat) returns (ok: bool, n: nat)
      modifies this`terminal, this`log
      ensures t < n && From(c, old(Now()), AtPurge(0, ack), r, chance, t, n) == (Now(), Idle)
      ensures ok <==> forall k :: t <= k < t + 5 ==> chance(k).deleted && chance(k).answered
      ensures terminal ==
        (old(terminal)
         && !((forall k :: t <= k < t + 3 ==> chance(k).deleted && chance(k).answered) && chance(t + 3).deleted))
    {
      n := t;
      for k := 0 to 5
        invariant n == t + k && Purged(c, old(Now()), r, ack, chance, t, k)
        invariant forall j :: t <= j < n ==> chance(j).deleted && chance(j).answered
        invariant terminal == (old(terminal) && k <= 3)
      {
        ok := Delete(r, k, ack, chance(n));
        n := n + 1;
        if !ok { return false, n; }
      }
      ok := true;
    }

    /** Report to the hive: a review it does not know is reported as done.  True if it acknowledged. */
    method Tell(c: Config, r: nat, report: Report, review: bool, status: HiveStatus, chance: nat -> Input, t: nat)
        returns (acked: bool, n: nat)
      modifies this`stored, this`log
      ensures acked ==> |log| > 0
      ensures
        var pc := if review then AtReview(report) else AtClose(report, status);
        t < n && From(c, old(Now()), pc, r, chance, t, n)
          == (Now(), if acked then AtPurge(0, |log| - 1) else Idle)
      ensures n == t + if review && RejectsReview(chance(t)) then 2 else 1
      ensures acked <==> Accepts(chance(t)) || (review && RejectsReview(chance(t)) && Accepts(chance(t + 1)))
      ensures acked ==> stored == Some((if !review then status else if n == t + 1 then InReview else Closed, report))
    {
      ghost var w0, pc := Now(), if review then AtReview(report) else AtClose(report, status);
      Two(c, w0, pc, r, chance, t);
      PatchStatus(r, report, if review then InReview else status, chance(t));
      n := t + 1;
      acked := IsAck(chance(t).code);
      if review && (chance(t).code == Some(400) || chance(t).code == Some(422)) {
        log := log + [Rejected(r, chance(t).code.value)];
        PatchStatus(r, report, Closed, chance(t + 1));
        n := t + 2;
        acked := IsAck(chance(t + 1).code);
      }
    }

    /** Report to the hive, and purge once it has acknowledged. */
    method ReportAndPurge(c: Config, r: nat, report: Report, review: bool, status: HiveStatus, chance: nat -> Input,
          t: nat)
        returns (ok: bool, n: nat)
      modifies this`terminal, this`stored, this`log
      ensures
        var pc := if review then AtReview(report) else AtClose(report, status);
        t < n && From(c, old(Now()), pc, r, chance, t, n) == (Now(), Idle)
      ensures
        var again := review && RejectsReview(chance(t));
        var m := t + if again then 2 else 1;
        && (Accepts(chance(m - 1)) ==>
            && stored == Some((if !review then status else if again then Closed else InReview, report))
            && (ok <==> forall k :: m <= k < m + 5 ==> chance(k).deleted && chance(k).answered)
            && (ok ==> !terminal))
        && (!Accepts(chance(m - 1)) ==> !ok && terminal == old(terminal))
    {
      ghost var w0, pc := Now(), if review then AtReview(report) else AtClose(report, status);
      var acked;
      acked, n := Tell(c, r, report, review, status, chance, t);
      if !acked { return false, n; }
      ghost var m := n;
      ok, n := Purge(c, r, |log| - 1, chance, n);
      FromConcat(c, w0, pc, r, chance, t, m, n);
    }

    /** The patched part of _reconcile_one, from the checks before the landing on: what to report, or None to leave
        the job for the next sweep. */
    method LandOrSave(c: Config, r: nat, chance: nat -> Input) returns (report: Option<Report>, n: nat)
      requires c.kind.Patched?
      modifies this`remote, this`orphan, this`log
      ensures 1 < n && From(c, old(Now()), AtKind, r, chance, 1, n)
        == (Now(), if report.Some? then AtReview(report.value) else Idle)
      ensures !chance(1).git.Permanent? && c.landable && PutOff(old(remote), chance, 2) ==>
        report.None? && orphan == old(orphan)
      ensures forall err :: GivenUp(c, old(remote), chance, err) ==>
        if report.None? then !c.fits(err)
        else (report.value == Saved(err) && orphan == Some(c.body)) || (report.value == Unlanded(err) && c.fits(err))
      ensures report.Some? && (forall err :: !GivenUp(c, old(remote), chance, err)) ==>
        remote.Some? && report.value == Landed(remote.value.id) && orphan == old(orphan)
    {
      ghost var w0 := Now();
      Two(c, w0, AtKind, r, chance, 1);
      var l := PermanentError(chance(1).err);
      n := 2;
      if !chance(1).git.Permanent? && c.landable {
        l, n := Land(c, r, chance, 2);
        FromConcat(c, w0, AtKind, r, chance, 1, 2, n);
      }
      ghost var m := n;
      match l {
        case TransientError => report := None;
        case At(id) => report := Some(Landed(id));
        case PermanentError(err) =>
          assert GivenUp(c, old(remote), chance, err);
          var saved;
          saved, n := SaveOrphanPatch(c, err, r, chance, n);
          FromConcat(c, w0, AtKind, r, chance, 1, m, n);
          report := if saved then Some(Saved(err)) else if c.fits(err) then Some(Unlanded(err)) else None;
      }
    }

    /** _reconcile_one: true if the job was reported and purged. */
    method ReconcileOne(c: Config, r: nat, chance: nat -> Input) returns (reconciled: bool, n: nat)
      modifies this
      ensures 0 < n && From(c, old(Now()), Idle, r, chance, 0, n) == (Now(), Idle)
      ensures reconciled ==> old(terminal) && !terminal
      ensures old(terminal) && !terminal ==> stored.Some?
      ensures !old(terminal) || !chance(0).answered || c.kind.UnknownStatus? ==> !reconciled && Now() == old(Now())
      ensures old(terminal) && !terminal && c.kind.NodeFailure? ==> stored == Some((Errored, Failed))
      ensures old(terminal) && !terminal && c.kind.Finished? ==> stored == Some((Closed, Plain))
      ensures old(terminal) && !terminal && c.kind.Unpatched? ==> stored.value.1 == Plain
      ensures c.kind.Patched? && !chance(1).git.Permanent? && c.landable && PutOff(old(remote), chance, 2) ==>
        !reconciled && terminal == old(terminal) && orphan == old(orphan) && stored == old(stored)
      ensures forall err :: c.kind.Patched? && GivenUp(c, old(remote), chance, err) ==>
        (old(terminal) && !terminal ==>
          || (stored.value.1 == Saved(err) && orphan == Some(c.body))
          || (stored.value.1 == Unlanded(err) && c.fits(err)))
      ensures old(terminal) && !terminal && c.kind.Patched? && (forall err :: !GivenUp(c, old(remote), chance, err)) ==>
        remote.Some? && stored.value.1 == Landed(remote.value.id) && orphan == old(orphan)
    {
      ghost var w0 := Now();
      Two(c, w0, Idle, r, chance, 0);
      if !terminal || !chance(0).answered { return false, 1; }
      var report, review, status := Plain, false, Closed;
      n := 2;
      match c.kind {
        case UnknownStatus => return false, 2;
        case NodeFailure => report, status := Failed, Errored;
        case Finished =>
        case Unpatched => review := true;
        case Patched =>
          var told;
          told, n := LandOrSave(c, r, chance);
          FromConcat(c, w0, Idle, r, chance, 0, 1, n);
          if told.None? { return false, n; }
          report, review := told.value, true;
      }
      ghost var m, pc := n, if review then AtReview(report) else AtClose(report, status);
      assert From(c, w0, Idle, r, chance, 0, m) == (Now(), pc);
      reconciled, n := ReportAndPurge(c, r, report, review, status, chance, n);
      FromConcat(c, w0, Idle, r, chance, 0, m, n);
    }
  }

  // ---- So it is a run of the protocol -----------------------------------------------------

  function Turns(r: nat, chance: nat -> Input, n: nat): seq<Action> {
    if n == 0 then [] else Turns(r, chance, n - 1) + [Step(r, chance(n - 1))]
  }

  /** With everybody else at rest, one uninterrupted call is a run of the protocol. */
  lemma {:induction false} UninterruptedCallIsARun(c: Config, st: State, r: nat, chance: nat -> Input, n: nat)
    requires OthersIdle(st, r)
    ensures
      var st1 := Run(c, st, Turns(r, chance, n));
      && OthersIdle(st1, r)
      && (st1.w, PcOf(st1, r)) == From(c, st.w, PcOf(st, r), r, chance, 0, n)
  {
    if n > 0 {
      UninterruptedCallIsARun(c, st, r, chance, n - 1);
      RunSnoc(c, st, Turns(r, chance, n - 1), Step(r, chance(n - 1)));
    }
  }

  // ---- And it finishes in good weather -----------------------------------------------------------

  /** Every command and every delete succeeds, and nothing is wrong with the bucket or the disk. */
  predicate Fair(i: Input) {
    i.git.Good? && i.reached && i.reported && i.deleted && i.answered && i.opens && i.short.None?
  }

  lemma {:induction false} PurgesAll(c: Config, w: World, r: nat, k: nat, ack: nat, chance: nat -> Input, t: nat)
    requires k <= 4 && forall m :: Fair(chance(m))
    ensures
      var done := From(c, w, AtPurge(k, ack), r, chance, t, t + 5 - k);
      && done.1.Idle? && done.0.stored == w.stored && done.0.orphan == w.orphan && done.0.remote == w.remote
      && done.0.terminal == (w.terminal && k == 4)
    decreases 4 - k
  {
    Two(c, w, AtPurge(k, ack), r, chance, t);
    if k < 4 {
      var next := Move(c, w, AtPurge(k, ack), r, chance(t));
      assert next.1 == AtPurge(k + 1, ack);
      FromConcat(c, w, AtPurge(k, ack), r, chance, t, t + 1, t + 5 - k);
      PurgesAll(c, next.0, r, k + 1, ack, chance, t + 1);
    }
  }

  /** The job is told: what the hive holds is `held`, and nothing else of the world changed. */
  ghost predicate Told(w: World, w1: World, held: (HiveStatus, Report)) {
    w1.stored == Some(held) && w1.terminal == w.terminal && w1.orphan == w.orphan && w1.remote == w.remote
  }

  /** A report that is accepted, or rejected as a review and then accepted. */
  lemma Tells(c: Config, w: World, pc: Pc, r: nat, chance: nat -> Input, t: nat) returns (n: nat)
    requires pc.AtReview? || pc.AtClose?
    requires Accepts(chance(t)) || (pc.AtReview? && RejectsReview(chance(t)) && Accepts(chance(t + 1)))
    ensures t < n <= t + 2
    ensures
      var told := From(c, w, pc, r, chance, t, n);
      var status := if pc.AtClose? then pc.status else if RejectsReview(chance(t)) then Closed else InReview;
      told.1.AtPurge? && told.1.k == 0 && Told(w, told.0, (status, pc.report))
  {
    Two(c, w, pc, r, chance, t);
    n := t + if pc.AtReview? && RejectsReview(chance(t)) then 2 else 1;
  }

  /** A report that is under way is accepted and everything is purged. */
  lemma ReportsAndPurges(c: Config, w: World, pc: Pc, r: nat, chance: nat -> Input, t: nat) returns (n: nat)
    requires (pc.AtReview? || pc.AtClose?) && forall m :: Fair(chance(m))
    requires Accepts(chance(t)) || (pc.AtReview? && RejectsReview(chance(t)) && Accepts(chance(t + 1)))
    ensures t < n <= t + 7
    ensures
      var done := From(c, w, pc, r, chance, t, n);
      var status := if pc.AtClose? then pc.status else if RejectsReview(chance(t)) then Closed else InReview;
      && done.1.Idle? && !done.0.terminal && done.0.orphan == w.orphan && done.0.remote == w.remote
      && done.0.stored == Some((status, pc.report))
  {
    var m := Tells(c, w, pc, r, chance, t);
    var told := From(c, w, pc, r, chance, t, m);
    n := m + 5;
    FromConcat(c, w, pc, r, chance, t, m, n);
    PurgesAll(c, told.0, r, 0, told.1.ack, chance, m);
  }

  /** A landing ends in a report, in one step if the branch is there and in three if not. */
  lemma Lands(c: Config, w: World, r: nat, chance: nat -> Input, t: nat)
    requires forall m :: Fair(chance(m))
    ensures
      var done := From(c, w, AtLsRemote, r, chance, t, t + if w.remote.Some? then 1 else 3);
      && done.0.remote == (if w.remote.Some? then w.remote else Some(Commit(chance(t + 1).id, c.patch)))
      && done.1 == AtReview(Landed(done.0.remote.value.id))
  {
    Two(c, w, AtLsRemote, r, chance, t);
    if w.remote.None? {
      var id := chance(t + 1).id;
      FromConcat(c, w, AtLsRemote, r, chance, t, t + 2, t + 3);
      Two(c, w, AtPush(id), r, chance, t + 2);
    }
  }

  /** A job that cannot land is saved whole. */
  lemma Saves(c: Config, w: World, err: string, r: nat, chance: nat -> Input, t: nat)
    requires forall m :: Fair(chance(m))
    ensures From(c, w, AtSave(err), r, chance, t, t + 2) == (w.(orphan := Some(c.body)), AtReview(Saved(err)))
  {
    Two(c, w, AtSave(err), r, chance, t);
  }

  /** The turn of the PATCH: after a landing or a save, if there is one. */
  function TurnOfPatch(c: Config, w: World): nat {
    if !c.kind.Patched? then 2 else if !c.landable then 4 else if w.remote.Some? then 3 else 5
  }

  /** What a call in good weather tells the hive; `known`: the hive knows the review status. */
  predicate ClosedWell(c: Config, remote: Option<Commit>, orphan: Option<string>, err: string, known: bool,
        held: (HiveStatus, Report))
  {
    match c.kind
    case UnknownStatus => false
    case NodeFailure => held == (Errored, Failed)
    case Finished => held == (Closed, Plain)
    case Unpatched => held == (if known then InReview else Closed, Plain)
    case Patched =>
      && held.0 == (if known then InReview else Closed)
      && (if c.landable then remote.Some? && held.1 == Landed(remote.value.id)
          else held.1 == Saved(err) && orphan == Some(c.body))
  }

  /** The review branch after a call in good weather. */
  function BranchAfter(c: Config, w: World, chance: nat -> Input): Option<Commit> {
    if c.kind.Patched? && c.landable && w.remote.None? then Some(Commit(chance(3).id, c.patch)) else w.remote
  }

  lemma GetsToThePatch(c: Config, w: World, r: nat, chance: nat -> Input, known: bool)
    requires w.terminal && !c.kind.UnknownStatus? && forall m :: Fair(chance(m))
    ensures
      var told := From(c, w, Idle, r, chance, 0, TurnOfPatch(c, w));
      && (told.1.AtReview? || told.1.AtClose?) && told.1.AtReview? == (c.kind.Unpatched? || c.kind.Patched?)
      && told.0.remote == BranchAfter(c, w, chance)
      && ClosedWell(c, told.0.remote, told.0.orphan, chance(1).err, known,
           (if told.1.AtClose? then told.1.status else if known then InReview else Closed, told.1.report))
  {
    Two(c, w, Idle, r, chance, 0);
    if c.kind.Patched? {
      if c.landable {
        Lands(c, w, r, chance, 2);
      } else {
        Saves(c, w, chance(1).err, r, chance, 2);
      }
      FromConcat(c, w, Idle, r, chance, 0, 2, TurnOfPatch(c, w));
    }
  }

  /** So one uninterrupted call in good weather closes any job of a known status, wherever earlier calls stopped: its
      terminal object goes, the hive holds its report under its status, and a patch is landed, or saved if it cannot
      be.  A hive that answers 400 or 422 to the review status holds a review as done. */
  lemma GoodCallCloses(c: Config, w: World, r: nat, chance: nat -> Input) returns (n: nat)
    requires w.terminal && !c.kind.UnknownStatus? && forall m :: Fair(chance(m))
    requires
      var t := TurnOfPatch(c, w);
      || Accepts(chance(t))
      || ((c.kind.Unpatched? || c.kind.Patched?) && RejectsReview(chance(t)) && Accepts(chance(t + 1)))
    ensures n <= 12
    ensures
      var done := From(c, w, Idle, r, chance, 0, n);
      && done.1.Idle? && !done.0.terminal && done.0.stored.Some?
      && done.0.remote == BranchAfter(c, w, chance)
      && ClosedWell(c, done.0.remote, done.0.orphan, chance(1).err, !RejectsReview(chance(TurnOfPatch(c, w))),
           done.0.stored.value)
  {
    var t := TurnOfPatch(c, w);
    GetsToThePatch(c, w, r, chance, !RejectsReview(chance(t)));
    var told := From(c, w, Idle, r, chance, 0, t);
    n := ReportsAndPurges(c, told.0, told.1, r, chance, t);
    FromConcat(c, w, Idle, r, chance, 0, t, n);
  }
}
