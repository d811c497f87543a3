/** Among many jobs, the runs that lose a patch, and so exactly when none does. */
module ReviewManyLosses {
  import opened Options
  import opened Text
  import opened Dicts
  import opened ResultCap
  import opened ReviewResults
  import opened ReviewProtocol
  import opened ReviewSafety
  import opened ReviewRaces
  import opened ReviewMany
  import opened ReviewManySafety

  // ---- One reconciler at work ------------------------------------------------------

  /** Where reconciler 0 gets with these inputs. */
  function Walk(c: Config, w: World, pc: Pc, inputs: seq<Input>): (World, Pc)
    decreases |inputs|
  {
    if inputs == [] then (w, pc)
    else
      var moved := Move(c, w, pc, 0, inputs[0]);
      Walk(c, moved.0, moved.1, inputs[1..])
  }

  lemma {:induction false} WalkOn(c: Config, w: World, pc: Pc, a: seq<Input>, b: seq<Input>)
    ensures Walk(c, w, pc, a + b) == Walk(c, Walk(c, w, pc, a).0, Walk(c, w, pc, a).1, b)
    decreases |a|
  {
    if a == [] {
      assert a + b == b;
    } else {
      assert (a + b)[1..] == a[1..] + b;
      var moved := Move(c, w, pc, 0, a[0]);
      WalkOn(c, moved.0, moved.1, a[1..], b);
    }
  }

  function Deeds(id: string, inputs: seq<Input>): seq<Deed> {
    if inputs == [] then [] else [Act(id, Step(0, inputs[0]))] + Deeds(id, inputs[1..])
  }

  /** Reconciler 0 of this job is here, and nobody else is at work on it. */
  ghost predicate Stands(jobs: Jobs, f: Fleet, id: string, w: World, pc: Pc) {
    && id in jobs
    && var v := View(jobs, f, id);
      v.w == w && PcOf(v, 0) == pc && OthersIdle(v, 0)
  }

  /** What work on one job leaves alone. */
  ghost predicate Spares(jobs: Jobs, f: Fleet, f': Fleet, id: string) {
    && (forall o :: o != id ==> OwnOf(f', o) == OwnOf(f, o))
    && OwnOf(f, id).late <= OwnOf(f', id).late
    && (id in jobs ==>
        && (forall p :: p != PlaceOf(jobs[id]) ==> Slot(f'.branches, p) == Slot(f.branches, p))
        && (forall p :: p != jobs[id].path ==> Slot(f'.files, p) == Slot(f.files, p)))
  }

  lemma NextIsMove(c: Config, st: State, i: Input)
    requires OthersIdle(st, 0)
    ensures
      var moved := Move(c, st.w, PcOf(st, 0), 0, i);
      Next(c, st, Step(0, i)) == State(moved.0, st.recs[0 := moved.1])
  {
  }

  lemma WrittenSpares(jobs: Jobs, f: Fleet, id: string, st: State, late: set<(HiveStatus, Report)>)
    requires id in jobs && OwnOf(f, id).late <= late
    ensures Spares(jobs, f, Written(jobs, f, id, st, late), id)
    ensures OwnOf(Written(jobs, f, id, st, late), id).late == late
  {
  }

  lemma StandsNext(jobs: Jobs, f: Fleet, f': Fleet, id: string, c: Config, w: World, pc: Pc, i: Input)
    requires Stands(jobs, f, id, w, pc) && View(jobs, f', id) == Next(c, View(jobs, f, id), Step(0, i))
    ensures var moved := Move(c, w, pc, 0, i); Stands(jobs, f', id, moved.0, moved.1)
  {
    NextIsMove(c, View(jobs, f, id), i);
  }

  /** One step of reconciler 0, and what it may leave under way. */
  lemma OneStep(jobs: Jobs, rules: Rules, f: Fleet, id: string, w: World, pc: Pc, i: Input) returns (f': Fleet)
    requires Stands(jobs, f, id, w, pc)
    ensures f' == Do(jobs, rules, f, Act(id, Step(0, i))) && Spares(jobs, f, f', id)
    ensures
      var moved := Move(ConfigOf(jobs[id], rules.solo), w, pc, 0, i);
      Stands(jobs, f', id, moved.0, moved.1)
    ensures OwnOf(f', id).late == OwnOf(f, id).late + if rules.prompt then {} else Delayed(pc, i)
  {
    var c, v := ConfigOf(jobs[id], rules.solo), View(jobs, f, id);
    f' := Acted(jobs, rules, f, id, Step(0, i));
    ActedIsNext(jobs, rules, f, id, Step(0, i));
    StandsNext(jobs, f, f', id, c, w, pc, i);
    WrittenSpares(jobs, f, id, Next(c, v, Step(0, i)), OwnOf(f, id).late + DelayedBy(rules, v, Step(0, i)));
  }

  lemma SparesOn(jobs: Jobs, f: Fleet, f1: Fleet, f': Fleet, id: string)
    requires Spares(jobs, f, f1, id) && Spares(jobs, f1, f', id)
    ensures Spares(jobs, f, f', id)
  {
  }

  lemma HashedSnoc(deeds: seq<Deed>, id: string, i: Input)
    requires RunHashed(deeds) && IsHash(i.id)
    ensures RunHashed(deeds + [Act(id, Step(0, i))])
  {
  }

  predicate AllHash(inputs: seq<Input>) {
    forall i :: i in inputs ==> IsHash(i.id)
  }

  /** A run so far, whose commit ids are hashes, and the fleet it leads to. */
  ghost predicate LeadsTo(jobs: Jobs, rules: Rules, deeds: seq<Deed>, f: Fleet) {
    RunHashed(deeds) && DoAll(jobs, rules, deeds) == f
  }

  /** Reconciler 0 of a job walks on, undisturbed. */
  lemma {:induction false} WalksOn(jobs: Jobs, rules: Rules, deeds: seq<Deed>, f: Fleet, id: string, w: World, pc: Pc,
        inputs: seq<Input>)
      returns (more: seq<Deed>, f': Fleet)
    requires LeadsTo(jobs, rules, deeds, f) && Stands(jobs, f, id, w, pc) && AllHash(inputs)
    ensures LeadsTo(jobs, rules, more, f') && Spares(jobs, f, f', id)
    ensures
      var walked := Walk(ConfigOf(jobs[id], rules.solo), w, pc, inputs);
      Stands(jobs, f', id, walked.0, walked.1)
    decreases |inputs|
  {
    if inputs == [] {
      more, f' := deeds, f;
    } else {
      var c, d := ConfigOf(jobs[id], rules.solo), Act(id, Step(0, inputs[0]));
      var f1 := OneStep(jobs, rules, f, id, w, pc, inputs[0]);
      DoSnoc(jobs, rules, deeds, d);
      HashedSnoc(deeds, id, inputs[0]);
      var moved := Move(c, w, pc, 0, inputs[0]);
      more, f' := WalksOn(jobs, rules, deeds + [d], f1, id, moved.0, moved.1, inputs[1..]);
      SparesOn(jobs, f, f1, f', id);
    }
  }

  // ---- The stretches of a walk ------------------------------------------------------------

  const SHORT := NO.(short := Some(0))

  lemma WalkTwo(c: Config, w: World, pc: Pc, i: Input, j: Input)
    ensures
      var moved := Move(c, w, pc, 0, i);
      Walk(c, w, pc, [i, j]) == Move(c, moved.0, moved.1, 0, j)
  {
    var moved := Move(c, w, pc, 0, i);
    assert [i, j][1..] == [j] && [j][1..] == [];
    assert Walk(c, moved.0, moved.1, [j]) == Move(c, moved.0, moved.1, 0, j);
  }

  /** Read the job, and be refused the landing. */
  lemma WalkToSave(c: Config, w: World, err: string)
    requires c.kind.Patched? && w.terminal
    ensures Walk(c, w, Idle, [READ, Refuse(err)]) == (w, AtSave(err))
  {
    WalkTwo(c, w, Idle, READ, Refuse(err));
  }

  /** Save the patch whole, or only open its file. */
  lemma WalkPastSave(c: Config, w: World, err: string)
    ensures Walk(c, w, AtSave(err), [OPENS, NO]) == (w.(orphan := Some(c.body)), AtReview(Saved(err)))
    ensures Walk(c, w, AtSave(err), [OPENS, SHORT]) == (w.(orphan := Some("")), Unsaved(c, err))
  {
    WalkTwo(c, w, AtSave(err), OPENS, NO);
    WalkTwo(c, w, AtSave(err), OPENS, SHORT);
    assert c.body[..0] == "";
  }

  /** Without the terminal object, and with this report at the Hive. */
  predicate IsClosed(w: World, w': World, report: Report) {
    !w'.terminal && w'.stored == Some((InReview, report)) && w'.remote == w.remote && w'.orphan == w.orphan
  }

  function Deletes(n: nat): seq<Input> { if n == 0 then [] else [DELETES] + Deletes(n - 1) }

  lemma {:induction false} WalkPurges(c: Config, w: World, k: nat, ack: nat)
    requires k <= 4 && (k == 4 ==> !w.terminal)
    ensures
      var walked := Walk(c, w, AtPurge(k, ack), Deletes(5 - k));
      && !walked.0.terminal && walked.0.stored == w.stored && walked.0.remote == w.remote
      && walked.0.orphan == w.orphan && walked.1 == Idle
    decreases 4 - k
  {
    var moved, inputs := Move(c, w, AtPurge(k, ack), 0, DELETES), Deletes(5 - k);
    assert inputs[0] == DELETES && inputs[1..] == Deletes(4 - k);
    if k < 4 { WalkPurges(c, moved.0, k + 1, ack); }
  }

  /** Report for review, be acknowledged, and purge. */
  lemma WalkCloses(c: Config, w: World, report: Report)
    ensures
      var walked := Walk(c, w, AtReview(report), [ACK] + Deletes(5));
      IsClosed(w, walked.0, report) && walked.1 == Idle
  {
    var inputs := [ACK] + Deletes(5);
    assert inputs[1..] == Deletes(5);
    var moved := Move(c, w, AtReview(report), 0, ACK);
    assert moved.1 == AtPurge(0, |w.log|);
    WalkPurges(c, moved.0, 0, |w.log|);
  }

  function Closing(): seq<Input> { [ACK] + Deletes(5) }

  function Refusing(err: string): seq<Input> { [READ, Refuse(err)] }

  /** The whole fault-free call: refused, saved, acknowledged, purged. */
  function SavingCall(err: string): seq<Input> { Refusing(err) + ([OPENS, NO] + Closing()) }

  lemma WalkSavingCall(c: Config, w: World, err: string)
    requires c.kind.Patched? && w.terminal
    ensures
      var walked := Walk(c, w, Idle, SavingCall(err));
      IsClosed(w.(orphan := Some(c.body)), walked.0, Saved(err)) && walked.1 == Idle
  {
    WalkToSave(c, w, err);
    WalkPastSave(c, w, err);
    WalkCloses(c, w.(orphan := Some(c.body)), Saved(err));
    WalkOn(c, w, Idle, Refusing(err), [OPENS, NO] + Closing());
    WalkOn(c, w, AtSave(err), [OPENS, NO], Closing());
  }

  lemma {:induction false} DeletesHashed(n: nat)
    ensures AllHash(Deletes(n))
  {
    if n > 0 { DeletesHashed(n - 1); }
  }

  lemma CallsHashed(err: string)
    ensures AllHash(Closing()) && AllHash(Refusing(err)) && AllHash([OPENS, NO]) && AllHash([OPENS, SHORT])
    ensures AllHash(SavingCall(err))
  {
    DeletesHashed(5);
  }

  /** A stretch of a walk whose outcome is known. */
  lemma WalksTo(jobs: Jobs, rules: Rules, deeds: seq<Deed>, f: Fleet, id: string, w: World, inputs: seq<Input>,
        c: Config, w': World, pc': Pc)
      returns (more: seq<Deed>, f': Fleet)
    requires LeadsTo(jobs, rules, deeds, f) && Stands(jobs, f, id, w, Idle) && AllHash(inputs)
    requires c == ConfigOf(jobs[id], rules.solo) && Walk(c, w, Idle, inputs) == (w', pc')
    ensures LeadsTo(jobs, rules, more, f') && Spares(jobs, f, f', id) && Stands(jobs, f', id, w', pc')
  {
    more, f' := WalksOn(jobs, rules, deeds, f, id, w, Idle, inputs);
  }

  // ---- What the Hive holds then does not do ----------------------------------------------

  lemma SavedResultElse(job: Job, err: string, k: string)
    requires k !in {"landing", "landing_error", "patch_saved", "needs_review", "claimant_urn", "_claimant_token"}
    ensures Get(SavedResult(job, err), k) == Get(job.payload, k)
  {
    var d := Del(job.payload, "claimant_urn");
    var d1 := Put(Base(job), "landing", Str("failed"));
    GetDel(job.payload, "claimant_urn", k);
    GetDel(d, "_claimant_token", k);
    GetPut(Del(d, "_claimant_token"), "needs_review", Bool(NeedsReview(job)), k);
    GetPut(Base(job), "landing", Str("failed"), k);
    GetPut(d1, "landing_error", Str(Clip(err)), k);
    GetPut(UnlandedResult(job, err), "patch_saved", Str(job.path), k);
  }

  /** A saved result above the cap has no patch in it; it covers none if the file is another's, and the branch is not
      there or is no commit that the payload names by chance. */
  lemma SavedIsUncovered(job: Job, w: World, err: string)
    requires HasPatch(job) && !Fits(SavedResult(job, err)) && w.orphan != Some(Ended(job.patchText))
    requires w.remote.Some? ==> Get(job.payload, "landed_sha") != Some(Str(w.remote.value.id))
    ensures !Covers(job, w, Shown(job, Saved(err)))
  {
    PatchStaysIfItFits(SavedResult(job, err));
    ShrinkKeepsEssentials(SavedResult(job, err), 7);
    SavedResultElse(job, err, "landed_sha");
  }

  lemma LandedIsUncovered(job: Job, w: World, id: string)
    requires HasPatch(job) && !Fits(LandedResult(job, id)) && w.orphan.None?
    requires w.remote.Some? ==> w.remote.value.patch != Patch(job)
    ensures !Covers(job, w, Shown(job, Landed(id)))
  {
    PatchStaysIfItFits(LandedResult(job, id));
  }

  // ---- Two jobs, one file ----------------------------------------------------------------

  lemma DawnStands(jobs: Jobs, rules: Rules, id: string)
    requires id in jobs
    ensures LeadsTo(jobs, rules, [], DAWN) && Stands(jobs, DAWN, id, INIT.w, Idle)
  {
  }

  /** After the first job's whole call nothing has been pushed, and the others are as at first. */
  lemma FirstIsSaved(jobs: Jobs, rules: Rules, id: string, err: string) returns (deeds: seq<Deed>, f: Fleet, w: World)
    requires id in jobs && HasPatch(jobs[id])
    ensures LeadsTo(jobs, rules, deeds, f) && Stands(jobs, f, id, w, Idle)
    ensures !w.terminal && w.stored == Some((InReview, Saved(err)))
    ensures (forall o :: o != id ==> OwnOf(f, o) == FRESH) && forall p :: p !in f.branches
  {
    var c := ConfigOf(jobs[id], rules.solo);
    PatchedMeans(jobs[id]);
    DawnStands(jobs, rules, id);
    WalkSavingCall(c, INIT.w, err);
    CallsHashed(err);
    w := Walk(c, INIT.w, Idle, SavingCall(err)).0;
    deeds, f := WalksTo(jobs, rules, [], DAWN, id, INIT.w, SavingCall(err), c, w, Idle);
    NoBranchYet(jobs, f, id);
  }

  lemma NoBranchYet(jobs: Jobs, f: Fleet, id: string)
    requires id in jobs && Spares(jobs, DAWN, f, id) && View(jobs, f, id).w.remote.None?
    ensures forall p :: p !in f.branches
  {
    forall p ensures p !in f.branches {
      if p != PlaceOf(jobs[id]) { assert Slot(f.branches, p) == Slot(DAWN.branches, p); }
    }
  }

  lemma WalkOverwrites(c: Config, w: World, last: Input) returns (w': World, pc': Pc)
    requires c.kind.Patched? && w.terminal && (last == NO || last == SHORT)
    ensures Walk(c, w, Idle, Refusing("") + [OPENS, last]) == (w', pc')
    ensures w' == w.(orphan := Some(if last == NO then c.body else ""))
  {
    WalkToSave(c, w, "");
    WalkPastSave(c, w, "");
    WalkOn(c, w, Idle, Refusing(""), [OPENS, last]);
    w', pc' := w.(orphan := Some(if last == NO then c.body else "")), Walk(c, w, AtSave(""), [OPENS, last]).1;
  }

  /** The second job, refused too, opens the file and writes its own patch to it, or nothing. */
  lemma SecondOverwrites(jobs: Jobs, rules: Rules, deeds: seq<Deed>, f: Fleet, other: string, last: Input)
      returns (more: seq<Deed>, f': Fleet)
    requires LeadsTo(jobs, rules, deeds, f) && (last == NO || last == SHORT)
    requires other in jobs && HasPatch(jobs[other]) && OwnOf(f, other) == FRESH
    ensures LeadsTo(jobs, rules, more, f') && Spares(jobs, f, f', other)
    ensures Slot(f'.files, jobs[other].path) == Some(if last == NO then Ended(jobs[other].patchText) else "")
    ensures Slot(f'.branches, PlaceOf(jobs[other])) == Slot(f.branches, PlaceOf(jobs[other]))
  {
    var c, w := ConfigOf(jobs[other], rules.solo), View(jobs, f, other).w;
    PatchedMeans(jobs[other]);
    CallsHashed("");
    var w', pc' := WalkOverwrites(c, w, last);
    more, f' := WalksTo(jobs, rules, deeds, f, other, w, Refusing("") + [OPENS, last], c, w', pc');
  }

  /** Two jobs that share an orphan file, one after the other, neither crashed nor overlapping: the second destroys the
      first one's patch if it writes another, and even if it only opens the file. */
  lemma SharedFileLosesPatch(jobs: Jobs, rules: Rules, id: string, other: string, err: string, last: Input)
      returns (deeds: seq<Deed>)
    requires SharesFile(jobs, id, other) && HasPatch(jobs[id]) && !Fits(SavedResult(jobs[id], err))
    requires last == SHORT || (last == NO && Ended(jobs[other].patchText) != Ended(jobs[id].patchText))
    ensures RunHashed(deeds) && !PatchIsSafe(jobs[id], View(jobs, DoAll(jobs, rules, deeds), id).w)
  {
    var f, w;
    deeds, f, w := FirstIsSaved(jobs, rules, id, err);
    var f';
    deeds, f' := SecondOverwrites(jobs, rules, deeds, f, other, last);
    var w' := View(jobs, f', id).w;
    assert OwnOf(f', id) == OwnOf(f, id);
    assert w'.remote.None? by {
      if PlaceOf(jobs[id]) != PlaceOf(jobs[other]) {
        assert Slot(f'.branches, PlaceOf(jobs[id])) == Slot(f.branches, PlaceOf(jobs[id]));
      }
    }
    assert Ended(jobs[id].patchText) != "";
    SavedIsUncovered(jobs[id], w', err);
  }

  // ---- Two jobs, one branch ----------------------------------------------------------------

  const GIT := NO.(git := Good)
  const PUSH := GIT.(reached := true, reported := true)

  /** A landing, from the start of a call to the report. */
  function Landing(h: string): seq<Input> { [READ, GIT] + ([GIT, GIT.(id := h)] + [PUSH]) }

  function Finding(): seq<Input> { [READ, GIT] + [GIT] }

  lemma LandingsHashed(h: string)
    requires IsHash(h)
    ensures AllHash(Landing(h)) && AllHash(Finding() + Closing()) && AllHash(Landing(h) + Closing())
  {
    DeletesHashed(5);
  }

  lemma WalkOne(c: Config, w: World, pc: Pc, i: Input)
    ensures Walk(c, w, pc, [i]) == Move(c, w, pc, 0, i)
  {
    var moved := Move(c, w, pc, 0, i);
    assert [i][1..] == [] && Walk(c, moved.0, moved.1, []) == moved;
  }

  lemma WalkToGit(c: Config, w: World)
    requires c.kind.Patched? && c.landable && w.terminal
    ensures Walk(c, w, Idle, [READ, GIT]) == (w, AtLsRemote)
  {
    WalkTwo(c, w, Idle, READ, GIT);
  }

  /** The branch is new: it gets the patch. */
  lemma WalkLands(c: Config, w: World, h: string)
    requires c.kind.Patched? && c.landable && w.terminal && w.remote.None?
    ensures
      var walked := Walk(c, w, Idle, Landing(h));
      && walked.1 == AtReview(Landed(h)) && walked.0.terminal && walked.0.orphan == w.orphan
      && walked.0.remote == Some(Commit(h, c.patch))
  {
    WalkToGit(c, w);
    WalkTwo(c, w, AtLsRemote, GIT, GIT.(id := h));
    WalkOne(c, w, AtPush(h), PUSH);
    WalkOn(c, w, Idle, [READ, GIT], [GIT, GIT.(id := h)] + [PUSH]);
    WalkOn(c, w, AtLsRemote, [GIT, GIT.(id := h)], [PUSH]);
  }

  /** The branch is there: it is taken for the job's own. */
  lemma WalkFinds(c: Config, w: World)
    requires c.kind.Patched? && c.landable && w.terminal && w.remote.Some?
    ensures
      var walked := Walk(c, w, Idle, Finding() + Closing());
      && IsClosed(w, walked.0, Landed(w.remote.value.id)) && walked.1 == Idle
  {
    var id := w.remote.value.id;
    var w1 := w.(log := w.log + [LandReturned(0, id)]);
    WalkToGit(c, w);
    WalkOne(c, w, AtLsRemote, GIT);
    WalkOn(c, w, Idle, [READ, GIT], [GIT]);
    WalkOn(c, w, Idle, Finding(), Closing());
    WalkCloses(c, w1, Landed(id));
  }

  /** After one job's landing only its branch is there, and no file. */
  lemma FirstHasLanded(jobs: Jobs, rules: Rules, id: string, h: string) returns (deeds: seq<Deed>, f: Fleet)
    requires id in jobs && HasPatch(jobs[id]) && CanLand(jobs[id]) && IsHash(h)
    ensures LeadsTo(jobs, rules, deeds, f)
    ensures Slot(f.branches, PlaceOf(jobs[id])) == Some(Commit(h, Patch(jobs[id])))
    ensures (forall o :: o != id ==> OwnOf(f, o) == FRESH) && forall p :: p !in f.files
  {
    var c := ConfigOf(jobs[id], rules.solo);
    PatchedMeans(jobs[id]);
    DawnStands(jobs, rules, id);
    WalkLands(c, INIT.w, h);
    LandingsHashed(h);
    var walked := Walk(c, INIT.w, Idle, Landing(h));
    deeds, f := WalksTo(jobs, rules, [], DAWN, id, INIT.w, Landing(h), c, walked.0, walked.1);
    NoFileYet(jobs, f, id);
  }

  lemma NoFileYet(jobs: Jobs, f: Fleet, id: string)
    requires id in jobs && Spares(jobs, DAWN, f, id) && View(jobs, f, id).w.orphan.None?
    ensures forall p :: p !in f.files
  {
    forall p ensures p !in f.files {
      if p != jobs[id].path { assert Slot(f.files, p) == Slot(DAWN.files, p); }
    }
  }

  lemma SecondFindsBranch(jobs: Jobs, rules: Rules, deeds: seq<Deed>, f: Fleet, id: string)
      returns (more: seq<Deed>, f': Fleet)
    requires LeadsTo(jobs, rules, deeds, f) && id in jobs && HasPatch(jobs[id]) && CanLand(jobs[id])
    requires OwnOf(f, id) == FRESH && View(jobs, f, id).w.remote.Some?
    ensures LeadsTo(jobs, rules, more, f')
    ensures var w := View(jobs, f, id).w; IsClosed(w, View(jobs, f', id).w, Landed(w.remote.value.id))
  {
    var c, w := ConfigOf(jobs[id], rules.solo), View(jobs, f, id).w;
    PatchedMeans(jobs[id]);
    WalkFinds(c, w);
    LandingsHashed(ZEROS);
    var walked := Walk(c, w, Idle, Finding() + Closing());
    more, f' := WalksTo(jobs, rules, deeds, f, id, w, Finding() + Closing(), c, walked.0, walked.1);
  }

  /** Two jobs that share a branch, one after the other: the second takes the first one's commit for its own, and its
      patch is nowhere if the landed result does not fit with it. */
  lemma SharedBranchLosesPatch(jobs: Jobs, rules: Rules, id: string, other: string) returns (deeds: seq<Deed>)
    requires SharesBranch(jobs, id, other) && HasPatch(jobs[id]) && CanLand(jobs[id])
    requires Patch(jobs[other]) != Patch(jobs[id]) && !Fits(LandedResult(jobs[id], ZEROS))
    ensures RunHashed(deeds) && !PatchIsSafe(jobs[id], View(jobs, DoAll(jobs, rules, deeds), id).w)
  {
    var f, f';
    deeds, f := FirstHasLanded(jobs, rules, other, ZEROS);
    deeds, f' := SecondFindsBranch(jobs, rules, deeds, f, id);
    LandedIsUncovered(jobs[id], View(jobs, f', id).w, ZEROS);
  }

  // ---- A PATCH that arrives late ----------------------------------------------------------------

  lemma WalkSaves(c: Config, w: World, err: string)
    requires c.kind.Patched? && w.terminal
    ensures
      Walk(c, w, Idle, Refusing(err) + [OPENS, NO]) == (w.(orphan := Some(c.body)), AtReview(Saved(err)))
  {
    WalkToSave(c, w, err);
    WalkPastSave(c, w, err);
    WalkOn(c, w, Idle, Refusing(err), [OPENS, NO]);
  }

  lemma NoAnswer(c: Config, w: World, report: Report)
    ensures Move(c, w, AtReview(report), 0, NO) == (w, Idle) && Delayed(AtReview(report), NO) == {(InReview, report)}
  {
  }

  /** The report goes out, no answer comes, and it is still under way. */
  lemma GoesUnanswered(jobs: Jobs, rules: Rules, deeds: seq<Deed>, f: Fleet, id: string, w: World, report: Report)
      returns (more: seq<Deed>, f': Fleet)
    requires LeadsTo(jobs, rules, deeds, f) && Stands(jobs, f, id, w, AtReview(report)) && !rules.prompt
    ensures LeadsTo(jobs, rules, more, f') && Stands(jobs, f', id, w, Idle)
    ensures (InReview, report) in OwnOf(f', id).late
  {
    NoAnswer(ConfigOf(jobs[id], rules.solo), w, report);
    f' := OneStep(jobs, rules, f, id, w, AtReview(report), NO);
    DoSnoc(jobs, rules, deeds, Act(id, Step(0, NO)));
    HashedSnoc(deeds, id, NO);
    more := deeds + [Act(id, Step(0, NO))];
  }

  /** Saved, reported without an answer: the report is still under way. */
  lemma SavedUnanswered(jobs: Jobs, rules: Rules, id: string, err: string)
      returns (deeds: seq<Deed>, f: Fleet, w: World)
    requires id in jobs && HasPatch(jobs[id]) && !rules.prompt
    ensures LeadsTo(jobs, rules, deeds, f) && Stands(jobs, f, id, w, Idle)
    ensures w.terminal && w.remote.None? && (InReview, Saved(err)) in OwnOf(f, id).late
  {
    var c := ConfigOf(jobs[id], rules.solo);
    PatchedMeans(jobs[id]);
    DawnStands(jobs, rules, id);
    WalkSaves(c, INIT.w, err);
    CallsHashed(err);
    w := INIT.w.(orphan := Some(c.body));
    deeds, f := WalksTo(jobs, rules, [], DAWN, id, INIT.w, Refusing(err) + [OPENS, NO], c, w, AtReview(Saved(err)));
    deeds, f := GoesUnanswered(jobs, rules, deeds, f, id, w, Saved(err));
  }

  /** The next call opens the file and closes the job some other way. */
  lemma WalkAwayFromFile(c: Config, w: World, h: string) returns (inputs: seq<Input>, w': World)
    requires c.kind.Patched? && w.terminal && w.remote.None? && IsHash(h) && (c.landable || c.fits(""))
    ensures AllHash(inputs) && Walk(c, w, Idle, inputs) == (w', Idle)
    ensures !w'.terminal && w'.orphan == Some("") && (w'.remote.None? || w'.remote == Some(Commit(h, c.patch)))
  {
    var w1 := w.(orphan := Some(""));
    CallsHashed("");
    LandingsHashed(h);
    WalkToSave(c, w, "");
    WalkPastSave(c, w, "");
    WalkOn(c, w, Idle, Refusing(""), [OPENS, SHORT]);
    var spoilt := Refusing("") + [OPENS, SHORT];
    if c.fits("") {
      WalkCloses(c, w1, Unlanded(""));
      WalkOn(c, w, Idle, spoilt, Closing());
      inputs := spoilt + Closing();
    } else {
      WalkLands(c, w1, h);
      var landed := Walk(c, w1, Idle, Landing(h)).0;
      WalkCloses(c, landed, Landed(h));
      WalkOn(c, w1, Idle, Landing(h), Closing());
      WalkOn(c, w, Idle, spoilt, Landing(h) + Closing());
      inputs := spoilt + (Landing(h) + Closing());
    }
    w' := Walk(c, w, Idle, inputs).0;
  }

  /** A hash that the payload does not name. */
  function Unnamed(job: Job): (h: string)
    ensures IsHash(h) && Get(job.payload, "landed_sha") != Some(Str(h))
  {
    if Get(job.payload, "landed_sha") == Some(Str(ZEROS)) then
      var h := Digits('1');
      assert h[0] != ZEROS[0];
      h
    else ZEROS
  }

  /** Without prompt PATCHes a delayed report of a saved file can replace the report that closed the job, after the
      file was spoilt again. */
  lemma LatePatchLosesPatch(jobs: Jobs, rules: Rules, id: string, err: string) returns (deeds: seq<Deed>)
    requires id in jobs && HasPatch(jobs[id]) && !rules.prompt && !Fits(SavedResult(jobs[id], err))
    requires CanLand(jobs[id]) || Fits(UnlandedResult(jobs[id], ""))
    ensures RunHashed(deeds) && !PatchIsSafe(jobs[id], View(jobs, DoAll(jobs, rules, deeds), id).w)
  {
    var f, w, f';
    deeds, f, w := SavedUnanswered(jobs, rules, id, err);
    var c := ConfigOf(jobs[id], rules.solo);
    PatchedMeans(jobs[id]);
    var inputs, w' := WalkAwayFromFile(c, w, Unnamed(jobs[id]));
    deeds, f' := WalksTo(jobs, rules, deeds, f, id, w, inputs, c, w', Idle);
    deeds := Arrives(jobs, rules, deeds, f', id, w', err);
  }

  lemma Arrives(jobs: Jobs, rules: Rules, deeds: seq<Deed>, f: Fleet, id: string, w: World, err: string)
      returns (more: seq<Deed>)
    requires LeadsTo(jobs, rules, deeds, f) && Stands(jobs, f, id, w, Idle) && HasPatch(jobs[id])
    requires (InReview, Saved(err)) in OwnOf(f, id).late && !Fits(SavedResult(jobs[id], err))
    requires !w.terminal && w.orphan == Some("")
    requires w.remote.Some? ==> Get(jobs[id].payload, "landed_sha") != Some(Str(w.remote.value.id))
    ensures RunHashed(more) && !PatchIsSafe(jobs[id], View(jobs, DoAll(jobs, rules, more), id).w)
  {
    var d := Arrive(id, InReview, Saved(err));
    DoSnoc(jobs, rules, deeds, d);
    more := deeds + [d];
    var w' := View(jobs, Do(jobs, rules, f, d), id).w;
    assert w' == w.(stored := Some((InReview, Saved(err))));
    assert Ended(jobs[id].patchText) != "";
    SavedIsUncovered(jobs[id], w', err);
  }

  // ---- Two reconcilers on one job ------------------------------------------------------------------

  function Acts(id: string, actions: seq<Action>): seq<Deed> {
    if actions == [] then [] else Acts(id, actions[..|actions| - 1]) + [Act(id, actions[|actions| - 1])]
  }

  /** A run of one job's reconcilers, while all others rest. */
  lemma {:induction false} OneJobRuns(jobs: Jobs, rules: Rules, id: string, actions: seq<Action>)
    requires id in jobs && forall a :: a in actions && a.Step? ==> IsHash(a.i.id)
    ensures RunHashed(Acts(id, actions))
    ensures View(jobs, DoAll(jobs, rules, Acts(id, actions)), id) == Run(ConfigOf(jobs[id], rules.solo), INIT, actions)
  {
    if actions != [] {
      var front, a := actions[..|actions| - 1], actions[|actions| - 1];
      OneJobRuns(jobs, rules, id, front);
      DoSnoc(jobs, rules, Acts(id, front), Act(id, a));
      ActedIsNext(jobs, rules, DoAll(jobs, rules, Acts(id, front)), id, a);
    }
  }

  lemma OverlapLosesPatch(jobs: Jobs, rules: Rules, id: string, err: string) returns (deeds: seq<Deed>)
    requires id in jobs && HasPatch(jobs[id]) && !rules.solo && !Fits(SavedResult(jobs[id], err))
    ensures RunHashed(deeds) && !PatchIsSafe(jobs[id], View(jobs, DoAll(jobs, rules, deeds), id).w)
  {
    deeds := Acts(id, Racing(0, 1, err));
    OneJobRuns(jobs, rules, id, Racing(0, 1, err));
    OverlapCanLosePatch(jobs[id], 0, 1, err);
  }
}
