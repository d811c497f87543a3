/** What the reconcilers guarantee: one landing, no purge without an acknowledgement, and no review patch lost. */
module ReviewSafety {
  import opened Options
  import opened Text
  import opened ResultCap
  import opened ReviewResults
  import opened ReviewProtocol

  // ---- Landing happens once -----------------------------------------------------

  /** The branch was written at most once, holds the job's patch, and every landing returned its commit. */
  ghost predicate LandedOnce(c: Config, w: World) {
    && (forall i, j ::
          0 <= i < |w.log| && 0 <= j < |w.log| && w.log[i].BranchWritten? && w.log[j].BranchWritten? ==> i == j)
    && (forall i :: 0 <= i < |w.log| && (w.log[i].BranchWritten? || w.log[i].LandReturned?) ==>
          w.remote.Some? && w.log[i].id == w.remote.value.id)
    && (w.remote.Some? ==> w.remote.value.patch == c.patch && WasWritten(w.log, w.remote.value.id))
  }

  ghost predicate WasWritten(log: seq<Event>, id: string) {
    exists i :: 0 <= i < |log| && log[i].BranchWritten? && log[i].id == id
  }

  /** Adding an event of no landing, or of the landing that is there. */
  lemma LogKeepsLanded(c: Config, w: World, e: Event)
    requires LandedOnce(c, w) && !e.BranchWritten? && (e.LandReturned? ==> w.remote.Some? && e.id == w.remote.value.id)
    ensures LandedOnce(c, w.(log := w.log + [e]))
  {
    if w.remote.Some? {
      var i :| 0 <= i < |w.log| && w.log[i].BranchWritten? && w.log[i].id == w.remote.value.id;
      assert (w.log + [e])[i] == w.log[i];
    }
  }

  lemma FirstWriteLands(c: Config, w: World, r: nat, id: string)
    requires LandedOnce(c, w) && w.remote.None?
    ensures LandedOnce(c, w.(remote := Some(Commit(id, c.patch)), log := w.log + [BranchWritten(r, id)]))
  {
    assert (w.log + [BranchWritten(r, id)])[|w.log|] == BranchWritten(r, id);
  }

  lemma PushKeepsLanded(c: Config, w: World, r: nat, id: string, i: Input)
    requires LandedOnce(c, w)
    ensures LandedOnce(c, PushStep(c, w, r, id, i).0)
  {
    if i.reached && w.remote.None? { FirstWriteLands(c, w, r, id); }
    var written := w.(remote := Some(Commit(id, c.patch)), log := w.log + [BranchWritten(r, id)]);
    var w1 := if i.reached && w.remote.None? then written else w;
    if !i.git.Transient? && i.reached && w1.remote.Some? && w1.remote.value.id == id && i.reported {
      LogKeepsLanded(c, w1, LandReturned(r, id));
    }
  }

  lemma MoveKeepsLanded(c: Config, w: World, pc: Pc, r: nat, i: Input)
    requires LandedOnce(c, w)
    ensures LandedOnce(c, Move(c, w, pc, r, i).0)
  {
    match pc
    case AtLsRemote => if i.git.Good? && w.remote.Some? { LogKeepsLanded(c, w, LandReturned(r, w.remote.value.id)); }
    case AtLsAgain => if i.git.Good? && w.remote.Some? { LogKeepsLanded(c, w, LandReturned(r, w.remote.value.id)); }
    case AtPush(id) => PushKeepsLanded(c, w, r, id, i);
    case AtReview(report) =>
      if IsAck(i.code) { LogKeepsLanded(c, w, Acked(r, i.code.value, report)); }
      if i.code.Some? { LogKeepsLanded(c, w, Rejected(r, i.code.value)); }
    case AtClose(report, status) => if IsAck(i.code) { LogKeepsLanded(c, w, Acked(r, i.code.value, report)); }
    case AtPurge(k, ack) => if i.deleted { LogKeepsLanded(c, w, Deleted(r, k, ack)); }
    case _ =>
  }

  /** Once written, the branch stays as it is. */
  lemma {:induction false} BranchStays(c: Config, actions: seq<Action>, n: nat)
    requires n <= |actions| && Run(c, INIT, actions[..n]).w.remote.Some?
    ensures Run(c, INIT, actions).w.remote == Run(c, INIT, actions[..n]).w.remote
    decreases |actions|
  {
    if n < |actions| {
      assert actions[..|actions| - 1][..n] == actions[..n];
      BranchStays(c, actions[..|actions| - 1], n);
    } else {
      assert actions[..n] == actions;
    }
  }

  lemma {:induction false} LandedThroughout(c: Config, actions: seq<Action>)
    ensures LandedOnce(c, Run(c, INIT, actions).w)
    decreases |actions|
  {
    if actions != [] {
      var st, a := Run(c, INIT, actions[..|actions| - 1]), actions[|actions| - 1];
      LandedThroughout(c, actions[..|actions| - 1]);
      if a.Step? { MoveKeepsLanded(c, st.w, PcOf(st, a.r), a.r, a.i); }
    }
  }

  /** In every run, with any number of racing and crashing reconcilers, the review branch is written at most once,
      with this job's patch, stays as it was first written, and every landing that returns, returns its commit. */
  lemma LandingHappensOnce(c: Config, actions: seq<Action>)
    ensures LandedOnce(c, Run(c, INIT, actions).w)
    ensures forall n :: 0 <= n <= |actions| && Run(c, INIT, actions[..n]).w.remote.Some? ==>
      Run(c, INIT, actions).w.remote == Run(c, INIT, actions[..n]).w.remote
  {
    LandedThroughout(c, actions);
    forall n | 0 <= n <= |actions| && Run(c, INIT, actions[..n]).w.remote.Some?
      ensures Run(c, INIT, actions).w.remote == Run(c, INIT, actions[..n]).w.remote
    {
      BranchStays(c, actions, n);
    }
  }

  // ---- Purge only after an acknowledgement -------------------------------------------

  ghost predicate IsAckBy(log: seq<Event>, ack: nat, r: nat) {
    ack < |log| && log[ack].Acked? && log[ack].r == r && 200 <= log[ack].code < 300
  }

  /** Every delete names an earlier acknowledgement of the same reconciler, and the terminal object goes only by a
      delete. */
  ghost predicate PurgedAfterAck(w: World) {
    && (forall i :: 0 <= i < |w.log| && w.log[i].Deleted? ==>
        w.log[i].ack < i && IsAckBy(w.log, w.log[i].ack, w.log[i].r))
    && (!w.terminal ==> exists i :: 0 <= i < |w.log| && w.log[i].Deleted? && w.log[i].k == 3)
  }

  ghost predicate AckSeen(log: seq<Event>, pc: Pc, r: nat) {
    pc.AtPurge? ==> IsAckBy(log, pc.ack, r)
  }

  lemma LogKeepsPurged(w: World, e: Event)
    requires PurgedAfterAck(w) && (e.Deleted? ==> IsAckBy(w.log, e.ack, e.r))
    ensures PurgedAfterAck(w.(log := w.log + [e]))
    ensures e.Deleted? && e.k == 3 ==> PurgedAfterAck(w.(terminal := false, log := w.log + [e]))
  {
    var log := w.log + [e];
    forall i | 0 <= i < |log| && log[i].Deleted? ensures log[i].ack < i && IsAckBy(log, log[i].ack, log[i].r) {
      if i < |w.log| { assert log[i] == w.log[i] && IsAckBy(w.log, w.log[i].ack, w.log[i].r); }
    }
    assert log[|w.log|] == e;
    if !w.terminal {
      var i :| 0 <= i < |w.log| && w.log[i].Deleted? && w.log[i].k == 3;
      assert log[i] == w.log[i];
    }
  }

  /** The log grows, what was purged was acknowledged, and so it is for the next program counter. */
  ghost predicate KeepsPurged(w: World, r: nat, moved: (World, Pc)) {
    PurgedAfterAck(moved.0) && w.log <= moved.0.log && AckSeen(moved.0.log, moved.1, r)
  }

  lemma LandKeepsPurged(w: World, r: nat, id: string)
    requires PurgedAfterAck(w)
    ensures KeepsPurged(w, r, LandStep(w, r, id))
  {
    LogKeepsPurged(w, LandReturned(r, id));
  }

  lemma ReportKeepsPurged(w: World, r: nat, report: Report, status: HiveStatus, i: Input)
    requires PurgedAfterAck(w)
    ensures PurgedAfterAck(Reported(w, r, report, status, i)) && w.log <= Reported(w, r, report, status, i).log
    ensures IsAck(i.code) ==> IsAckBy(Reported(w, r, report, status, i).log, |w.log|, r)
  {
    var w1 := if IsAck(i.code) || i.took then w.(stored := Some((status, report))) else w;
    if IsAck(i.code) { LogKeepsPurged(w1, Acked(r, i.code.value, report)); }
  }

  lemma ReviewKeepsPurged(w: World, r: nat, report: Report, i: Input)
    requires PurgedAfterAck(w)
    ensures KeepsPurged(w, r, ReviewStep(w, r, report, i))
  {
    ReportKeepsPurged(w, r, report, InReview, i);
    if i.code.Some? { LogKeepsPurged(Reported(w, r, report, InReview, i), Rejected(r, i.code.value)); }
  }

  lemma DeleteKeepsPurged(w: World, r: nat, k: nat, ack: nat, i: Input)
    requires PurgedAfterAck(w) && IsAckBy(w.log, ack, r)
    ensures KeepsPurged(w, r, PurgeStep(w, r, k, ack, i))
  {
    LogKeepsPurged(w, Deleted(r, k, ack));
  }

  lemma MoveKeepsPurged(c: Config, w: World, pc: Pc, r: nat, i: Input)
    requires PurgedAfterAck(w) && AckSeen(w.log, pc, r)
    ensures KeepsPurged(w, r, Move(c, w, pc, r, i))
  {
    match pc
    case AtLsRemote => if w.remote.Some? { LandKeepsPurged(w, r, w.remote.value.id); }
    case AtLsAgain => if w.remote.Some? { LandKeepsPurged(w, r, w.remote.value.id); }
    case AtPush(id) => PushKeepsPurged(c, w, r, id, i);
    case AtReview(report) => ReviewKeepsPurged(w, r, report, i);
    case AtClose(report, status) => ReportKeepsPurged(w, r, report, status, i);
    case AtPurge(k, ack) => DeleteKeepsPurged(w, r, k, ack, i);
    case _ =>
  }

  lemma PushKeepsPurged(c: Config, w: World, r: nat, id: string, i: Input)
    requires PurgedAfterAck(w)
    ensures KeepsPurged(w, r, PushStep(c, w, r, id, i))
  {
    if i.reached && w.remote.None? {
      var pushed := w.(remote := Some(Commit(id, c.patch)));
      LogKeepsPurged(pushed, BranchWritten(r, id));
      LandKeepsPurged(pushed.(log := w.log + [BranchWritten(r, id)]), r, id);
    } else {
      LandKeepsPurged(w, r, id);
    }
  }

  lemma {:induction false} AcksAreSeen(c: Config, actions: seq<Action>)
    ensures PurgedAfterAck(Run(c, INIT, actions).w)
    ensures forall r :: r in Run(c, INIT, actions).recs ==>
      AckSeen(Run(c, INIT, actions).w.log, Run(c, INIT, actions).recs[r], r)
    decreases |actions|
  {
    if actions != [] {
      var st, a := Run(c, INIT, actions[..|actions| - 1]), actions[|actions| - 1];
      AcksAreSeen(c, actions[..|actions| - 1]);
      if a.Step? { MoveKeepsPurged(c, st.w, PcOf(st, a.r), a.r, a.i); }
    }
  }

  /** In every run, an object of the job is deleted only after the hive acknowledged a result of the reconciler
      that deletes it. */
  lemma PurgeFollowsAck(c: Config, actions: seq<Action>, i: nat)
    requires i < |Run(c, INIT, actions).w.log| && Run(c, INIT, actions).w.log[i].Deleted?
    ensures
      var log := Run(c, INIT, actions).w.log;
      log[i].ack < i && IsAckBy(log, log[i].ack, log[i].r)
  {
    AcksAreSeen(c, actions);
  }

  // ---- What the hive is told ------------------------------------------------------------

  ghost predicate WasRejected(log: seq<Event>) {
    exists i :: 0 <= i < |log| && log[i].Rejected? && (log[i].code == 400 || log[i].code == 422)
  }

  /** The report and status that a job of this kind may be given; a review is closed as done only after the hive
      rejected the review status itself. */
  ghost predicate Truthful(c: Config, log: seq<Event>, status: HiveStatus, report: Report) {
    match c.kind
    case UnknownStatus => false
    case NodeFailure => status.Errored? && report.Failed?
    case Finished => status.Closed? && report.Plain?
    case Unpatched => report.Plain? && (status.InReview? || (status.Closed? && WasRejected(log)))
    case Patched => !report.Failed? && !report.Plain? && (status.InReview? || (status.Closed? && WasRejected(log)))
  }

  ghost predicate PcTruthful(c: Config, log: seq<Event>, pc: Pc) {
    match pc
    case AtLsRemote => c.kind.Patched? && c.landable
    case AtApply => c.kind.Patched? && c.landable
    case AtPush(_) => c.kind.Patched? && c.landable
    case AtLsAgain => c.kind.Patched? && c.landable
    case AtSave(_) => c.kind.Patched?
    case AtWrite(_) => c.kind.Patched?
    case AtReview(report) => Truthful(c, log, InReview, report)
    case AtClose(report, status) => Truthful(c, log, status, report)
    case _ => true
  }

  ghost predicate ToldTruly(c: Config, w: World) {
    w.stored.Some? ==> Truthful(c, w.log, w.stored.value.0, w.stored.value.1)
  }

  lemma RejectionStays(log: seq<Event>, log': seq<Event>)
    requires log <= log'
    ensures WasRejected(log) ==> WasRejected(log')
  {
    if WasRejected(log) {
      var i :| 0 <= i < |log| && log[i].Rejected? && (log[i].code == 400 || log[i].code == 422);
      assert log'[i] == log[i];
    }
  }

  lemma MoveKeepsTruth(c: Config, w: World, pc: Pc, r: nat, i: Input)
    requires PcTruthful(c, w.log, pc) && ToldTruly(c, w)
    ensures var (w1, pc1) := Move(c, w, pc, r, i); w.log <= w1.log && PcTruthful(c, w1.log, pc1) && ToldTruly(c, w1)
  {
    var w1 := Move(c, w, pc, r, i).0;
    RejectionStays(w.log, w1.log);
    if pc.AtReview? && (i.code == Some(400) || i.code == Some(422)) {
      assert w1.log[|w1.log| - 1] == Rejected(r, i.code.value);
    }
  }

  lemma {:induction false} TruthThroughout(c: Config, actions: seq<Action>)
    ensures ToldTruly(c, Run(c, INIT, actions).w)
    ensures forall r :: r in Run(c, INIT, actions).recs ==>
      PcTruthful(c, Run(c, INIT, actions).w.log, Run(c, INIT, actions).recs[r])
    decreases |actions|
  {
    if actions != [] {
      var st, a := Run(c, INIT, actions[..|actions| - 1]), actions[|actions| - 1];
      TruthThroughout(c, actions[..|actions| - 1]);
      if a.Step? {
        MoveKeepsTruth(c, st.w, PcOf(st, a.r), a.r, a.i);
        RejectionStays(st.w.log, Move(c, st.w, PcOf(st, a.r), a.r, a.i).0.log);
      }
    }
  }

  /** Whatever races and crashes there are, the hive's copy is a report of the job's own kind under its own status,
      and a review job is done without review only if the hive had answered 400 or 422 before. */
  lemma HiveIsToldTruly(c: Config, actions: seq<Action>)
    ensures ToldTruly(c, Run(c, INIT, actions).w)
  {
    TruthThroughout(c, actions);
  }

  // ---- No review patch is lost ----------------------------------------------------------

  /** The hive's copy holds the patch, or names where it is: the review branch with the commit that is there, or the
      orphan file with the whole patch in it.  And it is flagged for review. */
  ghost predicate Covers(job: Job, w: World, result: Dict) {
    && Get(result, "needs_review") == Some(Bool(true))
    && (|| Get(result, "patch") == Some(Patch(job))
        || (w.remote.Some? && w.remote.value.patch == Patch(job)
            && Get(result, "landed_branch") == Some(Str(job.branch))
            && Get(result, "landed_sha") == Some(Str(w.remote.value.id)))
        || (w.orphan == Some(Ended(job.patchText)) && Get(result, "patch_saved") == Some(Str(job.path))))
  }

  /** The patch is in the bucket, or covered by what the hive holds. */
  ghost predicate PatchIsSafe(job: Job, w: World) {
    w.terminal || (w.stored.Some? && Covers(job, w, Shown(job, w.stored.value.1)))
  }

  /** The same, as the steps see it. */
  ghost predicate Backed(c: Config, w: World, report: Report) {
    match report
    case Landed(id) => w.remote == Some(Commit(id, c.patch))
    case Saved(_) => w.orphan == Some(c.body)
    case Unlanded(err) => c.fits(err)
    case _ => false
  }

  lemma LandedIsCovered(job: Job, w: World, id: string)
    requires HasPatch(job) && w.remote == Some(Commit(id, Patch(job)))
    ensures Covers(job, w, Shown(job, Landed(id)))
  {
    LandedResultHas(job, id);
    ShrinkKeepsEssentials(LandedResult(job, id), 0);
    ShrinkKeepsEssentials(LandedResult(job, id), 5);
    ShrinkKeepsEssentials(LandedResult(job, id), 7);
  }

  lemma SavedIsCovered(job: Job, w: World, err: string)
    requires HasPatch(job) && w.orphan == Some(Ended(job.patchText))
    ensures Covers(job, w, Shown(job, Saved(err)))
  {
    UnlandedResultHas(job, err);
    ShrinkKeepsEssentials(SavedResult(job, err), 0);
    ShrinkKeepsEssentials(SavedResult(job, err), 10);
  }

  lemma UnlandedIsCovered(job: Job, w: World, err: string)
    requires HasPatch(job) && Fits(UnlandedResult(job, err))
    ensures Covers(job, w, Shown(job, Unlanded(err)))
  {
    UnlandedResultHas(job, err);
    ShrinkLeavesWhatFits(UnlandedResult(job, err));
  }

  lemma BackedIsCovered(job: Job, solo: bool, w: World, report: Report)
    requires HasPatch(job) && Backed(ConfigOf(job, solo), w, report)
    ensures Covers(job, w, Shown(job, report))
  {
    match report
    case Landed(id) => LandedIsCovered(job, w, id);
    case Saved(err) => SavedIsCovered(job, w, err);
    case Unlanded(err) => UnlandedIsCovered(job, w, err);
    case _ => assert false;
  }

  /** A report under way is backed; once purging, the one the hive holds is. */
  ghost predicate PcBacked(c: Config, w: World, pc: Pc) {
    match pc
    case AtReview(report) => Backed(c, w, report)
    case AtClose(report, _) => Backed(c, w, report)
    case AtPurge(_, _) => w.stored.Some? && Backed(c, w, w.stored.value.1)
    case _ => true
  }

  ghost predicate WorldBacked(c: Config, w: World) {
    && (w.remote.Some? ==> w.remote.value == Commit(w.remote.value.id, c.patch))
    && (w.terminal || (w.stored.Some? && Backed(c, w, w.stored.value.1)))
  }

  /** Only a purge goes on without the terminal object. */
  ghost predicate HasTerminal(w: World, pc: Pc) { pc.Idle? || pc.AtPurge? || w.terminal }

  /** While others rest, a step keeps the patch safe. */
  lemma MoveKeepsBacked(c: Config, w: World, pc: Pc, r: nat, i: Input)
    requires c.kind.Patched? && WorldBacked(c, w) && PcBacked(c, w, pc) && HasTerminal(w, pc)
    ensures var (w1, pc1) := Move(c, w, pc, r, i); WorldBacked(c, w1) && PcBacked(c, w1, pc1) && HasTerminal(w1, pc1)
  {
  }

  /** One reconciler at a time: all but one rest. */
  ghost predicate Solo(st: State) {
    forall q, r :: q in st.recs && r in st.recs && !st.recs[q].Idle? && !st.recs[r].Idle? ==> q == r
  }

  ghost predicate AllBacked(c: Config, st: State) {
    && Solo(st) && WorldBacked(c, st.w)
    && forall r :: r in st.recs ==> PcBacked(c, st.w, st.recs[r]) && HasTerminal(st.w, st.recs[r])
  }

  lemma StepKeepsBacked(c: Config, st: State, a: Action)
    requires c.kind.Patched? && c.solo && AllBacked(c, st)
    ensures AllBacked(c, Next(c, st, a))
  {
    if a.Step? && (!PcOf(st, a.r).Idle? || OthersIdle(st, a.r)) {
      MoveKeepsBacked(c, st.w, PcOf(st, a.r), a.r, a.i);
    }
  }

  lemma {:induction false} BackedThroughout(c: Config, actions: seq<Action>)
    requires c.kind.Patched? && c.solo
    ensures AllBacked(c, Run(c, INIT, actions))
    decreases |actions|
  {
    if actions != [] {
      BackedThroughout(c, actions[..|actions| - 1]);
      StepKeepsBacked(c, Run(c, INIT, actions[..|actions| - 1]), actions[|actions| - 1]);
    }
  }

  lemma PatchedMeans(job: Job)
    ensures KindOf(job).Patched? <==> HasPatch(job)
  {
    assert "failed"[0] != "done"[0] && "failed"[0] != "needs-review"[0];
  }

  /** With one reconciler at work at a time, through every sequence of hive codes, landing outcomes, disk failures
      and crashes, a review patch is in the bucket, or the hive holds it, or the hive names the branch or the file
      where it is. */
  lemma NoReviewPatchIsLost(job: Job, actions: seq<Action>)
    requires HasPatch(job)
    ensures PatchIsSafe(job, Run(ConfigOf(job, true), INIT, actions).w)
  {
    var c := ConfigOf(job, true);
    PatchedMeans(job);
    BackedThroughout(c, actions);
    var w := Run(c, INIT, actions).w;
    if !w.terminal { BackedIsCovered(job, true, w, w.stored.value.1); }
  }
}
