/**
 * Why a patch was not landed.  In every run, a report that the landing failed
 * names the error of a refused job, of an answer of git that is for good, or of
 * a push turned away for good with no branch there; it says "saved" only after
 * the whole file was written, and keeps quiet about a file only after the disk
 * failed.  A transient answer causes no report.  The causes are steps of the run.
 */
module ReviewCauses {
  import opened Options
  import opened ReviewResults
  import opened ReviewProtocol

  /** Action `k` of the run is a step of reconciler `r`, taken at `pc`. */
  ghost predicate Took(c: Config, actions: seq<Action>, k: nat, r: nat, pc: Pc, i: Input) {
    k < |actions| && actions[k] == Step(r, i) && PcOf(Run(c, INIT, actions[..k]), r) == pc
  }

  /** The step that gives the landing up: the job is refused before git is asked, git answers for good, or the push
      was turned away for good and there is no branch. */
  ghost predicate GivesUp(c: Config, w: World, pc: Pc, i: Input) {
    || (pc.AtKind? && (i.git.Permanent? || !c.landable))
    || ((pc.AtLsRemote? || pc.AtApply? || pc.AtLsAgain?) && i.git.Permanent?)
    || (pc.AtLsAgain? && i.git.Good? && !i.reported && w.remote.None?)
  }

  ghost predicate HasGivenUp(c: Config, actions: seq<Action>, r: nat, err: string) {
    exists k: nat, pc, i ::
      Took(c, actions, k, r, pc, i) && GivesUp(c, Run(c, INIT, actions[..k]).w, pc, i) && i.err == err
  }

  /** The whole file was written. */
  ghost predicate HasWritten(c: Config, actions: seq<Action>, r: nat, err: string) {
    exists k: nat, i :: Took(c, actions, k, r, AtWrite(err), i) && i.short.None?
  }

  /** The file could not be opened, or not be written. */
  ghost predicate HasFailedToWrite(c: Config, actions: seq<Action>, r: nat, err: string) {
    exists k: nat, pc, i :: Took(c, actions, k, r, pc, i)
      && ((pc == AtSave(err) && !i.opens) || (pc == AtWrite(err) && i.short.Some?))
  }

  /** The cause of each report of a patch. */
  ghost predicate Because(c: Config, actions: seq<Action>, r: nat, report: Report) {
    match report
    case Saved(err) => HasGivenUp(c, actions, r, err) && HasWritten(c, actions, r, err)
    case Unlanded(err) => HasGivenUp(c, actions, r, err) && HasFailedToWrite(c, actions, r, err) && c.fits(err)
    case _ => true
  }

  ghost predicate HasCome(c: Config, actions: seq<Action>, r: nat, pc: Pc) {
    match pc
    case AtSave(err) => HasGivenUp(c, actions, r, err)
    case AtWrite(err) => HasGivenUp(c, actions, r, err)
    case AtReview(report) => Because(c, actions, r, report)
    case AtClose(report, _) => Because(c, actions, r, report)
    case _ => true
  }

  ghost predicate SomebodysCause(c: Config, actions: seq<Action>, report: Report) {
    exists r :: Because(c, actions, r, report)
  }

  ghost predicate Caused(c: Config, actions: seq<Action>, st: State) {
    && (forall r :: r in st.recs ==> HasCome(c, actions, r, st.recs[r]))
    && (st.w.stored.Some? ==> SomebodysCause(c, actions, st.w.stored.value.1))
    && (forall e :: e in st.w.log && e.Acked? ==> Because(c, actions, e.r, e.report))
  }

  // ---- A longer run has every cause of a shorter one ----------------------------------

  lemma TookStays(c: Config, actions: seq<Action>, k: nat, r: nat, pc: Pc, i: Input, a: Action)
    requires Took(c, actions, k, r, pc, i)
    ensures Took(c, actions + [a], k, r, pc, i) && (actions + [a])[..k] == actions[..k]
  {
    assert (actions + [a])[..k] == actions[..k];
  }

  lemma GivenUpStays(c: Config, actions: seq<Action>, r: nat, err: string, a: Action)
    requires HasGivenUp(c, actions, r, err)
    ensures HasGivenUp(c, actions + [a], r, err)
  {
    var k: nat, pc, i :|
      Took(c, actions, k, r, pc, i) && GivesUp(c, Run(c, INIT, actions[..k]).w, pc, i) && i.err == err;
    TookStays(c, actions, k, r, pc, i, a);
  }

  lemma WrittenStays(c: Config, actions: seq<Action>, r: nat, err: string, a: Action)
    requires HasWritten(c, actions, r, err)
    ensures HasWritten(c, actions + [a], r, err)
  {
    var k: nat, i :| Took(c, actions, k, r, AtWrite(err), i) && i.short.None?;
    TookStays(c, actions, k, r, AtWrite(err), i, a);
  }

  lemma FailureStays(c: Config, actions: seq<Action>, r: nat, err: string, a: Action)
    requires HasFailedToWrite(c, actions, r, err)
    ensures HasFailedToWrite(c, actions + [a], r, err)
  {
    var k: nat, pc, i :| Took(c, actions, k, r, pc, i)
      && ((pc == AtSave(err) && !i.opens) || (pc == AtWrite(err) && i.short.Some?));
    TookStays(c, actions, k, r, pc, i, a);
  }

  lemma CauseStays(c: Config, actions: seq<Action>, r: nat, report: Report, a: Action)
    requires Because(c, actions, r, report)
    ensures Because(c, actions + [a], r, report)
  {
    match report
    case Saved(err) => GivenUpStays(c, actions, r, err, a); WrittenStays(c, actions, r, err, a);
    case Unlanded(err) => GivenUpStays(c, actions, r, err, a); FailureStays(c, actions, r, err, a);
    case _ =>
  }

  lemma ComeStays(c: Config, actions: seq<Action>, r: nat, pc: Pc, a: Action)
    requires HasCome(c, actions, r, pc)
    ensures HasCome(c, actions + [a], r, pc)
  {
    match pc
    case AtSave(err) => GivenUpStays(c, actions, r, err, a);
    case AtWrite(err) => GivenUpStays(c, actions, r, err, a);
    case AtReview(report) => CauseStays(c, actions, r, report, a);
    case AtClose(report, _) => CauseStays(c, actions, r, report, a);
    case _ =>
  }

  // ---- One step --------------------------------------------------------------------------

  /** A step that the run takes next. */
  lemma TakesNext(c: Config, actions: seq<Action>, r: nat, i: Input)
    ensures Took(c, actions + [Step(r, i)], |actions|, r, PcOf(Run(c, INIT, actions), r), i)
    ensures (actions + [Step(r, i)])[..|actions|] == actions
  {
  }

  lemma GivesUpNext(c: Config, actions: seq<Action>, r: nat, pc: Pc, i: Input)
    requires pc == PcOf(Run(c, INIT, actions), r) && GivesUp(c, Run(c, INIT, actions).w, pc, i)
    ensures HasGivenUp(c, actions + [Step(r, i)], r, i.err)
  {
    TakesNext(c, actions, r, i);
  }

  lemma WritesNext(c: Config, actions: seq<Action>, r: nat, pc: Pc, err: string, i: Input)
    requires pc == PcOf(Run(c, INIT, actions), r) && (pc == AtSave(err) || pc == AtWrite(err))
    ensures pc.AtWrite? && i.short.None? ==> HasWritten(c, actions + [Step(r, i)], r, err)
    ensures pc.AtWrite? && i.short.Some? ==> HasFailedToWrite(c, actions + [Step(r, i)], r, err)
    ensures pc.AtSave? && !i.opens ==> HasFailedToWrite(c, actions + [Step(r, i)], r, err)
  {
    TakesNext(c, actions, r, i);
  }

  /** Where a step leads that may give the landing up. */
  lemma LandingComes(c: Config, actions: seq<Action>, all: seq<Action>, w: World, r: nat, pc: Pc, i: Input)
    requires pc.AtKind? || pc.AtLsRemote? || pc.AtApply? || pc.AtPush? || pc.AtLsAgain?
    requires GivesUp(c, w, pc, i) ==> HasGivenUp(c, all, r, i.err)
    ensures HasCome(c, all, r, Move(c, w, pc, r, i).1)
  {
  }

  lemma SavingComes(c: Config, all: seq<Action>, w: World, r: nat, pc: Pc, err: string, i: Input)
    requires (pc == AtSave(err) || pc == AtWrite(err)) && HasGivenUp(c, all, r, err)
    requires pc.AtWrite? && i.short.None? ==> HasWritten(c, all, r, err)
    requires (pc.AtWrite? && i.short.Some?) || (pc.AtSave? && !i.opens) ==> HasFailedToWrite(c, all, r, err)
    ensures HasCome(c, all, r, Move(c, w, pc, r, i).1)
  {
  }

  lemma MoveComes(c: Config, actions: seq<Action>, st: State, r: nat, pc: Pc, i: Input)
    requires st == Run(c, INIT, actions) && pc == PcOf(st, r) && HasCome(c, actions, r, pc)
    ensures HasCome(c, actions + [Step(r, i)], r, Move(c, st.w, pc, r, i).1)
  {
    var all := actions + [Step(r, i)];
    ComeStays(c, actions, r, pc, Step(r, i));
    if pc.AtSave? || pc.AtWrite? {
      WritesNext(c, actions, r, pc, pc.err, i);
      SavingComes(c, all, st.w, r, pc, pc.err, i);
    } else if pc.AtKind? || pc.AtLsRemote? || pc.AtApply? || pc.AtPush? || pc.AtLsAgain? {
      if GivesUp(c, st.w, pc, i) { GivesUpNext(c, actions, r, pc, i); }
      LandingComes(c, actions, all, st.w, r, pc, i);
    }
  }

  /** What a step tells the hive is the report it carries. */
  lemma MoveTells(c: Config, w: World, pc: Pc, r: nat, i: Input)
    ensures
      var w1 := Move(c, w, pc, r, i).0;
      && (w1.stored == w.stored
          || ((pc.AtReview? || pc.AtClose?) && w1.stored.Some? && w1.stored.value.1 == pc.report))
      && forall e :: e in w1.log && e.Acked? ==>
           e in w.log || ((pc.AtReview? || pc.AtClose?) && e.r == r && e.report == pc.report)
  {
  }

  lemma StepKeepsCauses(c: Config, actions: seq<Action>, st: State, r: nat, i: Input)
    requires st == Run(c, INIT, actions) && Caused(c, actions, st)
    ensures Caused(c, actions + [Step(r, i)], Next(c, st, Step(r, i)))
  {
    var pc, a, st' := PcOf(st, r), Step(r, i), Next(c, st, Step(r, i));
    var all := actions + [a];
    MoveComes(c, actions, st, r, pc, i);
    MoveTells(c, st.w, pc, r, i);
    ComeStays(c, actions, r, pc, a);
    forall q | q in st'.recs ensures HasCome(c, all, q, st'.recs[q]) {
      if q in st.recs { ComeStays(c, actions, q, st.recs[q], a); }
    }
    forall e | e in st'.w.log && e.Acked? ensures Because(c, all, e.r, e.report) {
      if e in st.w.log { CauseStays(c, actions, e.r, e.report, a); }
    }
    if st'.w.stored.Some? { StoredStays(c, actions, st, st', a, pc, r); }
  }

  lemma StoredStays(c: Config, actions: seq<Action>, st: State, st': State, a: Action, pc: Pc, r: nat)
    requires Caused(c, actions, st) && st'.w.stored.Some? && HasCome(c, actions + [a], r, pc)
    requires st'.w.stored == st.w.stored
      || ((pc.AtReview? || pc.AtClose?) && st'.w.stored.value.1 == pc.report)
    ensures SomebodysCause(c, actions + [a], st'.w.stored.value.1)
  {
    if st'.w.stored == st.w.stored {
      var q :| Because(c, actions, q, st.w.stored.value.1);
      CauseStays(c, actions, q, st.w.stored.value.1, a);
    }
  }

  lemma CrashKeepsCauses(c: Config, actions: seq<Action>, st: State, r: nat)
    requires Caused(c, actions, st)
    ensures Caused(c, actions + [Crash(r)], Next(c, st, Crash(r)))
  {
    var a, st' := Crash(r), Next(c, st, Crash(r));
    forall q | q in st'.recs ensures HasCome(c, actions + [a], q, st'.recs[q]) {
      if q in st.recs { ComeStays(c, actions, q, st.recs[q], a); }
    }
    forall e | e in st'.w.log && e.Acked? ensures Because(c, actions + [a], e.r, e.report) {
      CauseStays(c, actions, e.r, e.report, a);
    }
    if st'.w.stored.Some? { StoredStays(c, actions, st, st', a, Idle, r); }
  }

  lemma OneMoreIsCaused(c: Config, actions: seq<Action>, a: Action)
    requires Caused(c, actions, Run(c, INIT, actions))
    ensures Caused(c, actions + [a], Run(c, INIT, actions + [a]))
  {
    RunSnoc(c, INIT, actions, a);
    match a
    case Step(r, i) => StepKeepsCauses(c, actions, Run(c, INIT, actions), r, i);
    case Crash(r) => CrashKeepsCauses(c, actions, Run(c, INIT, actions), r);
  }

  lemma {:induction false} EveryRunIsCaused(c: Config, actions: seq<Action>)
    ensures Caused(c, actions, Run(c, INIT, actions))
  {
    if actions != [] {
      var most, last := actions[..|actions| - 1], actions[|actions| - 1];
      assert actions == most + [last];
      EveryRunIsCaused(c, most);
      OneMoreIsCaused(c, most, last);
    }
  }

  // ---- The theorem -----------------------------------------------------------------------

  /** In every run, with any number of racing and crashing reconcilers: a landing that the hive is told has failed was
      given up for good, with the error that is named; "saved" follows a whole write, and no file is named only after
      a failed one, if the result keeps the patch. */
  lemma FailureHasItsCause(c: Config, actions: seq<Action>)
    ensures
      var stored := Run(c, INIT, actions).w.stored;
      && (stored.Some? && stored.value.1.Saved? ==>
          exists r :: HasGivenUp(c, actions, r, stored.value.1.err) && HasWritten(c, actions, r, stored.value.1.err))
      && (stored.Some? && stored.value.1.Unlanded? ==>
          && c.fits(stored.value.1.err)
          && exists r :: HasGivenUp(c, actions, r, stored.value.1.err)
               && HasFailedToWrite(c, actions, r, stored.value.1.err))
    ensures forall e :: e in Run(c, INIT, actions).w.log && e.Acked? && (e.report.Saved? || e.report.Unlanded?) ==>
      HasGivenUp(c, actions, e.r, e.report.err)
  {
    EveryRunIsCaused(c, actions);
    var stored := Run(c, INIT, actions).w.stored;
    if stored.Some? && (stored.value.1.Saved? || stored.value.1.Unlanded?) {
      var r :| Because(c, actions, r, stored.value.1);
    }
  }

  /** A transient answer ends the call and leaves the job as it is: the bucket, the file and the hive. */
  lemma TransientLeavesTheJob(c: Config, actions: seq<Action>, k: nat, r: nat, pc: Pc, i: Input)
    requires Took(c, actions, k, r, pc, i) && i.git.Transient?
    requires pc.AtLsRemote? || pc.AtApply? || pc.AtPush? || pc.AtLsAgain?
    ensures
      var st, st' := Run(c, INIT, actions[..k]), Run(c, INIT, actions[..k + 1]);
      && PcOf(st', r).Idle?
      && st'.w.terminal == st.w.terminal && st'.w.orphan == st.w.orphan && st'.w.stored == st.w.stored
  {
    assert actions[..k + 1] == actions[..k] + [Step(r, i)];
    RunSnoc(c, INIT, actions[..k], Step(r, i));
  }
}
