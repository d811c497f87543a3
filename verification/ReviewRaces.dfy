/** Reconcilers that overlap: when they can lose a patch between them, and when they cannot. */
module ReviewRaces {
  import opened Options
  import opened Text
  import opened ResultCap
  import opened ReviewResults
  import opened ReviewProtocol
  import opened ReviewSafety

  // ---- How two of them lose it -----------------------------------------------------

  const NO := Input(Permanent, "", ZEROS, false, false, false, None, None, false, false, false)
  const READ := NO.(answered := true)
  const OPENS := NO.(opens := true)
  const ACK := NO.(code := Some(200))
  const DELETES := NO.(deleted := true, answered := true)

  function Refuse(err: string): Input { NO.(err := err) }

  /** Both refuse the landing; one saves the file and reports it; the other truncates the file; the one purges. */
  function Racing(r: nat, q: nat, err: string): seq<Action> {
    [Step(r, READ), Step(r, Refuse(err)), Step(r, OPENS), Step(r, NO), Step(q, READ), Step(q, Refuse(err)),
     Step(r, ACK),
     Step(q, OPENS), Step(r, DELETES), Step(r, DELETES), Step(r, DELETES), Step(r, DELETES), Crash(q)]
  }

  /** The first `n` actions lead to this world, with the two reconcilers there. */
  ghost predicate Leads(c: Config, all: seq<Action>, n: nat, w: World, r: nat, pr: Pc, q: nat, pq: Pc) {
    n <= |all| && var st := Run(c, INIT, all[..n]); st.w == w && PcOf(st, r) == pr && PcOf(st, q) == pq
  }

  /** One more action of either. */
  lemma Turn(c: Config, all: seq<Action>, n: nat, w: World, r: nat, pr: Pc, q: nat, pq: Pc, i: Input)
    requires !c.solo && r != q && Leads(c, all, n, w, r, pr, q, pq) && n < |all|
    ensures all[n] == Step(r, i) ==> Leads(c, all, n + 1, Move(c, w, pr, r, i).0, r, Move(c, w, pr, r, i).1, q, pq)
    ensures all[n] == Step(q, i) ==> Leads(c, all, n + 1, Move(c, w, pq, q, i).0, r, pr, q, Move(c, w, pq, q, i).1)
  {
    assert all[..n + 1] == all[..n] + [all[n]];
    RunSnoc(c, INIT, all[..n], all[n]);
  }

  lemma FirstAtTheFile(c: Config, r: nat, q: nat, err: string)
    requires c.kind.Patched? && !c.solo && r != q
    ensures Leads(c, Racing(r, q, err), 2, INIT.w, r, AtSave(err), q, Idle)
  {
    var all := Racing(r, q, err);
    assert all[..0] == [];
    Turn(c, all, 0, INIT.w, r, Idle, q, Idle, READ);
    Turn(c, all, 1, INIT.w, r, AtKind, q, Idle, Refuse(err));
  }

  lemma FirstHasOpened(c: Config, r: nat, q: nat, err: string)
    requires c.kind.Patched? && !c.solo && r != q
    ensures Leads(c, Racing(r, q, err), 3, INIT.w.(orphan := Some("")), r, AtWrite(err), q, Idle)
  {
    FirstAtTheFile(c, r, q, err);
    Turn(c, Racing(r, q, err), 2, INIT.w, r, AtSave(err), q, Idle, OPENS);
  }

  lemma FirstHasSaved(c: Config, r: nat, q: nat, err: string)
    requires c.kind.Patched? && !c.solo && r != q
    ensures Leads(c, Racing(r, q, err), 4, INIT.w.(orphan := Some(c.body)), r, AtReview(Saved(err)), q, Idle)
  {
    FirstHasOpened(c, r, q, err);
    Turn(c, Racing(r, q, err), 3, INIT.w.(orphan := Some("")), r, AtWrite(err), q, Idle, NO);
  }

  /** The first reconciler has saved the patch and is about to say so; the second is about to open the file. */
  lemma BothAtTheFile(c: Config, r: nat, q: nat, err: string)
    requires c.kind.Patched? && !c.solo && r != q
    ensures Leads(c, Racing(r, q, err), 6, INIT.w.(orphan := Some(c.body)), r, AtReview(Saved(err)), q, AtSave(err))
  {
    var all, w := Racing(r, q, err), INIT.w.(orphan := Some(c.body));
    FirstHasSaved(c, r, q, err);
    Turn(c, all, 4, w, r, AtReview(Saved(err)), q, Idle, READ);
    Turn(c, all, 5, w, r, AtReview(Saved(err)), q, AtKind, Refuse(err));
  }

  function Truncated(r: nat, err: string): World {
    World(true, None, Some(""), Some((InReview, Saved(err))), [Acked(r, 200, Saved(err))])
  }

  lemma FirstIsAcked(c: Config, r: nat, q: nat, err: string)
    requires c.kind.Patched? && !c.solo && r != q
    ensures
      Leads(c, Racing(r, q, err), 7, Truncated(r, err).(orphan := Some(c.body)), r, AtPurge(0, 0), q, AtSave(err))
  {
    var w := INIT.w.(orphan := Some(c.body));
    BothAtTheFile(c, r, q, err);
    Turn(c, Racing(r, q, err), 6, w, r, AtReview(Saved(err)), q, AtSave(err), ACK);
    assert [] + [Acked(r, 200, Saved(err))] == [Acked(r, 200, Saved(err))];
  }

  /** It opens it after the first has been acknowledged. */
  lemma SecondTruncates(c: Config, r: nat, q: nat, err: string)
    requires c.kind.Patched? && !c.solo && r != q
    ensures Leads(c, Racing(r, q, err), 8, Truncated(r, err), r, AtPurge(0, 0), q, AtWrite(err))
  {
    FirstIsAcked(c, r, q, err);
    Turn(c, Racing(r, q, err), 7, Truncated(r, err).(orphan := Some(c.body)), r, AtPurge(0, 0), q, AtSave(err), OPENS);
  }

  function Purged(w: World, r: nat, k: nat): World {
    w.(terminal := w.terminal && k != 3, log := w.log + [Deleted(r, k, 0)])
  }

  lemma HalfPurged(c: Config, r: nat, q: nat, err: string)
    requires c.kind.Patched? && !c.solo && r != q
    ensures
      var w := Purged(Purged(Truncated(r, err), r, 0), r, 1);
      Leads(c, Racing(r, q, err), 10, w, r, AtPurge(2, 0), q, AtWrite(err))
  {
    var all, w := Racing(r, q, err), Truncated(r, err);
    SecondTruncates(c, r, q, err);
    Turn(c, all, 8, w, r, AtPurge(0, 0), q, AtWrite(err), DELETES);
    Turn(c, all, 9, Purged(w, r, 0), r, AtPurge(1, 0), q, AtWrite(err), DELETES);
  }

  lemma AllPurged(c: Config, r: nat, q: nat, err: string)
    requires c.kind.Patched? && !c.solo && r != q
    ensures
      var w := Purged(Purged(Truncated(r, err), r, 0), r, 1);
      Leads(c, Racing(r, q, err), 12, Purged(Purged(w, r, 2), r, 3), r, AtPurge(4, 0), q, AtWrite(err))
  {
    var all, w := Racing(r, q, err), Purged(Purged(Truncated(r, err), r, 0), r, 1);
    HalfPurged(c, r, q, err);
    Turn(c, all, 10, w, r, AtPurge(2, 0), q, AtWrite(err), DELETES);
    Turn(c, all, 11, Purged(w, r, 2), r, AtPurge(3, 0), q, AtWrite(err), DELETES);
  }

  /** From there the truncation and the purge leave the patch nowhere. */
  lemma TruncatedAndPurged(c: Config, r: nat, q: nat, err: string)
    requires c.kind.Patched? && !c.solo && r != q
    ensures
      var w := Run(c, INIT, Racing(r, q, err)).w;
      !w.terminal && w.remote.None? && w.orphan == Some("") && w.stored == Some((InReview, Saved(err)))
  {
    var all := Racing(r, q, err);
    AllPurged(c, r, q, err);
    assert all[..12] + [all[12]] == all;
    RunSnoc(c, INIT, all[..12], all[12]);
  }

  /** A saved result above the cap loses the patch, so without the file it names nothing. */
  lemma LargeSavedIsUncovered(job: Job, w: World, err: string)
    requires HasPatch(job) && !Fits(SavedResult(job, err)) && w.remote.None? && w.orphan == Some("")
    ensures !Covers(job, w, Shown(job, Saved(err)))
  {
    PatchStaysIfItFits(SavedResult(job, err));
    assert Ended(job.patchText) != "";
  }

  /** Any two reconcilers that overlap lose the patch in one run if the saved result is above the cap. */
  lemma OverlapCanLosePatch(job: Job, r: nat, q: nat, err: string)
    requires HasPatch(job) && r != q && !Fits(SavedResult(job, err))
    ensures !PatchIsSafe(job, Run(ConfigOf(job, false), INIT, Racing(r, q, err)).w)
  {
    var c := ConfigOf(job, false);
    PatchedMeans(job);
    TruncatedAndPurged(c, r, q, err);
    LargeSavedIsUncovered(job, Run(c, INIT, Racing(r, q, err)).w, err);
  }

  // ---- When they cannot ------------------------------------------------------------------

  /** Whatever landing error this action reports, the saved result fits with the patch in it. */
  predicate LeavesRoom(job: Job, a: Action) {
    a.Step? ==> Fits(SavedResult(job, a.i.err))
  }

  /** What stays true of a report whoever else moves: the branch is there, or the result carries the patch. */
  predicate Lasts(c: Config, w: World, report: Report, errs: set<string>) {
    match report
    case Landed(id) => w.remote == Some(Commit(id, c.patch))
    case Unlanded(err) => c.fits(err)
    case Saved(err) => err in errs
    case _ => false
  }

  predicate PcLasts(c: Config, w: World, pc: Pc, errs: set<string>) {
    match pc
    case AtSave(err) => err in errs
    case AtWrite(err) => err in errs
    case AtReview(report) => Lasts(c, w, report, errs)
    case AtClose(report, _) => Lasts(c, w, report, errs)
    case AtPurge(_, _) => w.stored.Some?
    case _ => true
  }

  predicate WorldLasts(c: Config, w: World, errs: set<string>) {
    && (w.remote.Some? ==> w.remote.value == Commit(w.remote.value.id, c.patch))
    && (w.stored.Some? ==> Lasts(c, w, w.stored.value.1, errs))
    && (w.terminal || w.stored.Some?)
  }

  lemma MoveLasts(c: Config, w: World, pc: Pc, r: nat, i: Input, errs: set<string>)
    requires c.kind.Patched? && i.err in errs && WorldLasts(c, w, errs) && PcLasts(c, w, pc, errs)
    ensures var (w1, pc1) := Move(c, w, pc, r, i);
      && WorldLasts(c, w1, errs) && PcLasts(c, w1, pc1, errs)
      && (w.stored.Some? ==> w1.stored.Some?) && (w.remote.Some? ==> w1.remote == w.remote)
  {
  }

  lemma {:induction false} LastsThroughout(c: Config, actions: seq<Action>, errs: set<string>)
    requires c.kind.Patched? && forall a :: a in actions && a.Step? ==> a.i.err in errs
    ensures WorldLasts(c, Run(c, INIT, actions).w, errs)
    ensures forall r :: r in Run(c, INIT, actions).recs ==>
      PcLasts(c, Run(c, INIT, actions).w, Run(c, INIT, actions).recs[r], errs)
    decreases |actions|
  {
    if actions != [] {
      var st, a := Run(c, INIT, actions[..|actions| - 1]), actions[|actions| - 1];
      LastsThroughout(c, actions[..|actions| - 1], errs);
      if a.Step? { MoveLasts(c, st.w, PcOf(st, a.r), a.r, a.i, errs); }
    }
  }

  lemma LastingIsCovered(job: Job, solo: bool, w: World, report: Report, errs: set<string>)
    requires HasPatch(job) && Lasts(ConfigOf(job, solo), w, report, errs)
    requires forall err :: err in errs ==> Fits(SavedResult(job, err))
    ensures Covers(job, w, Shown(job, report))
  {
    match report
    case Landed(id) => LandedIsCovered(job, w, id);
    case Unlanded(err) => UnlandedIsCovered(job, w, err);
    case Saved(err) => FittingSavedIsCovered(job, w, err);
    case _ => assert false;
  }

  lemma FittingSavedIsCovered(job: Job, w: World, err: string)
    requires HasPatch(job) && Fits(SavedResult(job, err))
    ensures Covers(job, w, Shown(job, Saved(err)))
  {
    UnlandedResultHas(job, err);
    SavedResultPatch(job, err);
    ShrinkLeavesWhatFits(SavedResult(job, err));
  }

  /** Reconcilers may overlap as they like without losing a patch if every result they would report of a saved file
      fits under the cap. */
  lemma OverlapIsHarmlessIfResultsFit(job: Job, solo: bool, actions: seq<Action>)
    requires HasPatch(job) && forall a :: a in actions ==> LeavesRoom(job, a)
    ensures PatchIsSafe(job, Run(ConfigOf(job, solo), INIT, actions).w)
  {
    var c, errs := ConfigOf(job, solo), set a | a in actions && a.Step? :: a.i.err;
    PatchedMeans(job);
    LastsThroughout(c, actions, errs);
    var w := Run(c, INIT, actions).w;
    if !w.terminal { LastingIsCovered(job, solo, w, w.stored.value.1, errs); }
  }

  // ---- The exact condition -------------------------------------------------------------------

  /** No run loses the patch, exactly when reconcilers never overlap or the result with the longest landing error,
      the patch and the saved path in it fits under the cap. */
  lemma PatchIsSafeExactlyWhen(job: Job, solo: bool)
    requires HasPatch(job)
    ensures (forall actions :: PatchIsSafe(job, Run(ConfigOf(job, solo), INIT, actions).w))
       <==> solo || Fits(SavedResult(job, LONGEST))
  {
    LongestErrorDecides(job);
    if solo {
      forall actions ensures PatchIsSafe(job, Run(ConfigOf(job, solo), INIT, actions).w) {
        NoReviewPatchIsLost(job, actions);
      }
    } else if Fits(SavedResult(job, LONGEST)) {
      forall actions ensures PatchIsSafe(job, Run(ConfigOf(job, solo), INIT, actions).w) {
        OverlapIsHarmlessIfResultsFit(job, solo, actions);
      }
    } else {
      OverlapCanLosePatch(job, 0, 1, LONGEST);
      assert !PatchIsSafe(job, Run(ConfigOf(job, solo), INIT, Racing(0, 1, LONGEST)).w);
    }
  }

  /** In particular any two reconcilers that overlap can lose a patch as large as the cap, whatever the error says. */
  lemma OverlapCanLoseALargePatch(job: Job, r: nat, q: nat, err: string)
    requires HasPatch(job) && r != q && Size(Patch(job)) >= MAX_RESULT_BYTES
    ensures !PatchIsSafe(job, Run(ConfigOf(job, false), INIT, Racing(r, q, err)).w)
  {
    SavedResultPatch(job, err);
    HoldingIsLarge(SavedResult(job, err), "patch", Patch(job));
    OverlapCanLosePatch(job, r, q, err);
  }
}
