/**
 * Among many jobs, when no patch is lost: what a job's reports rest on must be
 * its own, or must not be needed.
 */
module ReviewManySafety {
  import opened Dicts
  import opened Options
  import opened ResultCap
  import opened ReviewResults
  import opened ReviewProtocol
  import opened ReviewSafety
  import opened ReviewRaces
  import opened ReviewMany

  // ---- Commit ids ---------------------------------------------------------------

  /** Commits get hashes for ids. */
  predicate Hashed(d: Deed) {
    d.Act? && d.action.Step? ==> IsHash(d.action.i.id)
  }

  lemma {:induction false} HexSize(s: string)
    requires forall k :: 0 <= k < |s| ==> '0' <= s[k] <= '9' || 'a' <= s[k] <= 'f'
    ensures TextSize(s) == |s|
  {
    if s != "" { HexSize(s[1..]); }
  }

  lemma HashSize(id: string)
    requires IsHash(id)
    ensures TextSize(id) == 40
  {
    HexSize(id);
  }

  // ---- What a report rests on -----------------------------------------------------

  /** The branch is the job's own, or the landed result fits; the orphan file is the job's own and stays, or the saved
      result fits whatever the landing error. */
  datatype Shelter = Shelter(branch: bool, landed: bool, file: bool, saved: bool)

  /** What the Hive would be told covers the patch, now and after every step of anybody. */
  predicate Sure(c: Config, s: Shelter, w: World, report: Report) {
    match report
    case Landed(id) =>
      c.landable && IsHash(id) && (s.landed || (s.branch && w.remote == Some(Commit(id, c.patch))))
    case Unlanded(err) => c.fits(err)
    case Saved(_) => s.saved || (s.file && w.orphan == Some(c.body))
    case _ => false
  }

  predicate WorldSure(c: Config, s: Shelter, w: World) {
    && (w.remote.Some? ==> IsHash(w.remote.value.id) && (s.branch ==> w.remote.value.patch == c.patch))
    && (w.terminal || w.stored.Some?)
    && (w.stored.Some? && (s.saved || !w.terminal) ==> Sure(c, s, w, w.stored.value.1))
  }

  predicate PcSure(c: Config, s: Shelter, w: World, pc: Pc) {
    && MayBeAt(true, c.landable, pc)
    && (s.saved || pc.Idle? || pc.AtPurge? || w.terminal)
    && match pc
       case AtPush(id) => IsHash(id)
       case AtReview(report) => Sure(c, s, w, report)
       case AtClose(report, _) => Sure(c, s, w, report)
       case AtPurge(_, _) => w.stored.Some? && Sure(c, s, w, w.stored.value.1)
       case _ => true
  }

  /** A report that is still to arrive is sure; or, if that is left to the file, it names the file, and so do all. */
  predicate LateSure(c: Config, s: Shelter, w: World, late: set<(HiveStatus, Report)>) {
    forall x :: x in late ==> if s.saved then Sure(c, s, w, x.1) else x.1.Saved?
  }

  /** Only the file can hold the patch: it cannot land, and no result fits with the patch in it. */
  ghost predicate OnlyTheFile(c: Config) {
    !c.landable && forall err :: !c.fits(err)
  }

  ghost predicate Sheltered(c: Config, rules: Rules, s: Shelter) {
    && (c.landable ==> s.branch || s.landed)
    && (s.saved || (s.file && rules.solo && (rules.prompt || OnlyTheFile(c))))
  }

  ghost predicate AllSure(c: Config, rules: Rules, s: Shelter, st: State, late: set<(HiveStatus, Report)>) {
    && WorldSure(c, s, st.w) && LateSure(c, s, st.w, late) && (rules.prompt ==> late == {})
    && (s.saved || Solo(st))
    && forall r :: r in st.recs ==> PcSure(c, s, st.w, st.recs[r])
  }

  // ---- Every deed keeps it -----------------------------------------------------------

  /** What a step of one reconciler keeps. */
  ghost predicate StepSure(c: Config, s: Shelter, w: World, moved: (World, Pc)) {
    && WorldSure(c, s, moved.0) && PcSure(c, s, moved.0, moved.1) && KeepsShared(w, moved.0)
    && (w.stored.Some? ==> moved.0.stored.Some?)
  }

  lemma LandingKeepsSure(c: Config, s: Shelter, w: World, pc: Pc, r: nat, i: Input)
    requires c.kind.Patched? && WorldSure(c, s, w) && PcSure(c, s, w, pc) && IsHash(i.id)
    requires c.landable ==> s.branch || s.landed
    requires pc.AtLsRemote? || pc.AtApply? || pc.AtPush? || pc.AtLsAgain?
    ensures StepSure(c, s, w, Move(c, w, pc, r, i))
  {
  }

  lemma SavingKeepsSure(c: Config, s: Shelter, w: World, pc: Pc, r: nat, i: Input)
    requires c.kind.Patched? && WorldSure(c, s, w) && PcSure(c, s, w, pc) && (s.saved || s.file)
    requires pc.Idle? || pc.AtKind? || pc.AtSave? || pc.AtWrite?
    ensures StepSure(c, s, w, Move(c, w, pc, r, i))
  {
  }

  lemma ReportingKeepsSure(c: Config, s: Shelter, w: World, pc: Pc, r: nat, i: Input)
    requires c.kind.Patched? && WorldSure(c, s, w) && PcSure(c, s, w, pc)
    requires pc.AtReview? || pc.AtClose? || pc.AtPurge?
    ensures StepSure(c, s, w, Move(c, w, pc, r, i))
  {
  }

  lemma MoveKeepsSure(c: Config, s: Shelter, w: World, pc: Pc, r: nat, i: Input)
    requires c.kind.Patched? && WorldSure(c, s, w) && PcSure(c, s, w, pc) && IsHash(i.id)
    requires (c.landable ==> s.branch || s.landed) && (s.saved || s.file)
    ensures StepSure(c, s, w, Move(c, w, pc, r, i))
  {
    if pc.AtLsRemote? || pc.AtApply? || pc.AtPush? || pc.AtLsAgain? {
      LandingKeepsSure(c, s, w, pc, r, i);
    } else if pc.Idle? || pc.AtKind? || pc.AtSave? || pc.AtWrite? {
      SavingKeepsSure(c, s, w, pc, r, i);
    } else {
      ReportingKeepsSure(c, s, w, pc, r, i);
    }
  }

  /** Once sure, a report stays sure while shared things only come to be, and the file is not relied on. */
  lemma SureStays(c: Config, s: Shelter, w: World, w': World, report: Report)
    requires Sure(c, s, w, report) && KeepsShared(w, w') && (s.saved || w'.orphan == w.orphan)
    ensures Sure(c, s, w', report)
  {
  }

  /** With several reconcilers at work the saved result fits, and what is sure of the others stays so. */
  lemma PcStaysSure(c: Config, s: Shelter, w: World, w': World, pc: Pc)
    requires PcSure(c, s, w, pc) && WorldSure(c, s, w') && KeepsShared(w, w')
    requires s.saved && (w.stored.Some? ==> w'.stored.Some?)
    ensures PcSure(c, s, w', pc)
  {
  }

  lemma LateStaysSure(c: Config, s: Shelter, w: World, w': World, late: set<(HiveStatus, Report)>)
    requires LateSure(c, s, w, late) && KeepsShared(w, w')
    ensures LateSure(c, s, w', late)
  {
    forall x | x in late && s.saved ensures Sure(c, s, w', x.1) { SureStays(c, s, w, w', x.1); }
  }

  /** What a PATCH leaves under way is as sure as the report in it. */
  lemma DelayedIsSure(c: Config, rules: Rules, s: Shelter, w: World, pc: Pc, i: Input)
    requires PcSure(c, s, w, pc) && Sheltered(c, rules, s) && !rules.prompt
    ensures LateSure(c, s, w, Delayed(pc, i))
  {
  }

  lemma NextKeepsSure(c: Config, rules: Rules, s: Shelter, st: State, late: set<(HiveStatus, Report)>, a: Action)
    requires c.kind.Patched? && c.solo == rules.solo && Sheltered(c, rules, s) && AllSure(c, rules, s, st, late)
    requires a.Step? ==> IsHash(a.i.id)
    ensures AllSure(c, rules, s, Next(c, st, a), late + DelayedBy(rules, st, a))
  {
    if a.Step? {
      var pc, w := PcOf(st, a.r), st.w;
      if !rules.prompt { DelayedIsSure(c, rules, s, w, pc, a.i); }
      if c.solo && pc.Idle? && !OthersIdle(st, a.r) {
      } else {
        MoveKeepsSure(c, s, w, pc, a.r, a.i);
        var w' := Move(c, w, pc, a.r, a.i).0;
        LateStaysSure(c, s, w, w', late + DelayedBy(rules, st, a));
        forall r | r in st.recs && r != a.r ensures PcSure(c, s, w', st.recs[r]) {
          if s.saved { PcStaysSure(c, s, w, w', st.recs[r]); }
        }
      }
    }
  }

  /** A late PATCH takes effect. */
  lemma ArrivalKeepsSure(c: Config, rules: Rules, s: Shelter, st: State, late: set<(HiveStatus, Report)>,
        x: (HiveStatus, Report))
    requires Sheltered(c, rules, s) && AllSure(c, rules, s, st, late) && x in late
    ensures AllSure(c, rules, s, State(st.w.(stored := Some(x)), st.recs), late - {x})
  {
  }

  /** Others write their branches and files. */
  lemma OthersKeepSure(c: Config, rules: Rules, s: Shelter, st: State, late: set<(HiveStatus, Report)>, w': World)
    requires Sheltered(c, rules, s) && AllSure(c, rules, s, st, late)
    requires w' == st.w.(remote := w'.remote, orphan := w'.orphan) && KeepsShared(st.w, w')
    requires w'.remote != st.w.remote ==>
      w'.remote.Some? && IsHash(w'.remote.value.id) && (s.branch ==> w'.remote.value.patch == c.patch)
    requires w'.orphan != st.w.orphan ==> !s.file
    ensures AllSure(c, rules, s, State(w', st.recs), late)
  {
    LateStaysSure(c, s, st.w, w', late);
    if st.w.stored.Some? && (s.saved || !st.w.terminal) { SureStays(c, s, st.w, w', st.w.stored.value.1); }
    forall r | r in st.recs ensures PcSure(c, s, w', st.recs[r]) {
      match st.recs[r]
      case AtReview(report) => SureStays(c, s, st.w, w', report);
      case AtClose(report, _) => SureStays(c, s, st.w, w', report);
      case AtPurge(_, _) => SureStays(c, s, st.w, w', st.w.stored.value.1);
      case _ =>
    }
  }

  // ---- Commit ids are hashes everywhere ----------------------------------------------

  ghost predicate PcsHashed(recs: map<nat, Pc>) {
    forall r :: r in recs && recs[r].AtPush? ==> IsHash(recs[r].id)
  }

  ghost predicate AllHashed(jobs: Jobs, f: Fleet) {
    && (forall p :: p in f.branches ==> IsHash(f.branches[p].id))
    && (forall id :: id in jobs ==> PcsHashed(OwnOf(f, id).recs))
  }

  lemma NextIsHashed(c: Config, st: State, a: Action)
    requires PcsHashed(st.recs) && (st.w.remote.Some? ==> IsHash(st.w.remote.value.id))
    requires a.Step? ==> IsHash(a.i.id)
    ensures
      var st' := Next(c, st, a);
      PcsHashed(st'.recs) && (st'.w.remote.Some? ==> IsHash(st'.w.remote.value.id))
  {
  }

  lemma WrittenIsHashed(jobs: Jobs, f: Fleet, id: string, st: State, late: set<(HiveStatus, Report)>)
    requires AllHashed(jobs, f) && id in jobs && PcsHashed(st.recs)
    requires st.w.remote.Some? ==> IsHash(st.w.remote.value.id)
    ensures AllHashed(jobs, Written(jobs, f, id, st, late))
  {
  }

  lemma DoIsHashed(jobs: Jobs, rules: Rules, f: Fleet, d: Deed)
    requires AllHashed(jobs, f) && Hashed(d)
    ensures AllHashed(jobs, Do(jobs, rules, f, d))
  {
    if d.Act? && d.id in jobs {
      var c, v := ConfigOf(jobs[d.id], rules.solo), View(jobs, f, d.id);
      NextIsHashed(c, v, d.action);
      WrittenIsHashed(jobs, f, d.id, Next(c, v, d.action), OwnOf(f, d.id).late + DelayedBy(rules, v, d.action));
    }
  }

  ghost predicate RunHashed(deeds: seq<Deed>) {
    forall d :: d in deeds ==> Hashed(d)
  }

  // ---- Throughout a run of many -----------------------------------------------------------

  /** Whoever pushes to the same branch pushes the same patch. */
  ghost predicate OwnBranch(jobs: Jobs, id: string) {
    forall other :: SharesBranch(jobs, id, other) ==> Patch(jobs[other]) == Patch(jobs[id])
  }

  /** Nobody else saves to the same file. */
  ghost predicate OwnFile(jobs: Jobs, id: string) {
    forall other :: !SharesFile(jobs, id, other)
  }

  ghost function ShelterOf(jobs: Jobs, id: string): Shelter
    requires id in jobs
  {
    Shelter(OwnBranch(jobs, id), Fits(LandedResult(jobs[id], ZEROS)), OwnFile(jobs, id),
            Fits(SavedResult(jobs[id], LONGEST)))
  }

  ghost predicate FleetSure(jobs: Jobs, rules: Rules, f: Fleet, id: string)
    requires id in jobs
  {
    AllSure(ConfigOf(jobs[id], rules.solo), rules, ShelterOf(jobs, id), View(jobs, f, id), OwnOf(f, id).late)
  }

  lemma ActedKeepsSure(jobs: Jobs, rules: Rules, f: Fleet, id: string, a: Action)
    requires id in jobs && HasPatch(jobs[id]) && (a.Step? ==> IsHash(a.i.id))
    requires Sheltered(ConfigOf(jobs[id], rules.solo), rules, ShelterOf(jobs, id)) && FleetSure(jobs, rules, f, id)
    ensures FleetSure(jobs, rules, Acted(jobs, rules, f, id, a), id)
  {
    var c, v := ConfigOf(jobs[id], rules.solo), View(jobs, f, id);
    PatchedMeans(jobs[id]);
    ActedIsNext(jobs, rules, f, id, a);
    NextKeepsSure(c, rules, ShelterOf(jobs, id), v, OwnOf(f, id).late, a);
  }

  /** What others do is no matter to a branch and a file of the job's own. */
  ghost predicate LeavesAlone(s: Shelter, patch: Json, v: State, v': State) {
    && v' == State(v.w.(remote := v'.w.remote, orphan := v'.w.orphan), v.recs) && KeepsShared(v.w, v'.w)
    && (v'.w.remote != v.w.remote ==> v'.w.remote.Some? && (s.branch ==> v'.w.remote.value.patch == patch))
    && (v'.w.orphan != v.w.orphan ==> !s.file)
  }

  lemma OthersLeaveAlone(jobs: Jobs, id: string, other: string, v: State, v': State, s: Shelter)
    requires id in jobs && OthersMove(jobs, id, other, v, v')
    requires (s.branch ==> OwnBranch(jobs, id)) && (s.file ==> OwnFile(jobs, id))
    ensures LeavesAlone(s, Patch(jobs[id]), v, v')
  {
  }

  lemma LeftAloneStaysSure(c: Config, rules: Rules, s: Shelter, v: State, v': State, late: set<(HiveStatus, Report)>)
    requires LeavesAlone(s, c.patch, v, v') && (v'.w.remote.Some? ==> IsHash(v'.w.remote.value.id))
    requires Sheltered(c, rules, s) && AllSure(c, rules, s, v, late)
    ensures AllSure(c, rules, s, v', late)
  {
    OthersKeepSure(c, rules, s, v, late, v'.w);
  }

  lemma LeftAloneInFleet(jobs: Jobs, rules: Rules, f: Fleet, f': Fleet, id: string, other: string, c: Config,
        s: Shelter)
    requires id in jobs && OthersMove(jobs, id, other, View(jobs, f, id), View(jobs, f', id)) && AllHashed(jobs, f')
    requires c.patch == Patch(jobs[id]) && (s.branch ==> OwnBranch(jobs, id)) && (s.file ==> OwnFile(jobs, id))
    requires Sheltered(c, rules, s) && AllSure(c, rules, s, View(jobs, f, id), OwnOf(f, id).late)
    ensures AllSure(c, rules, s, View(jobs, f', id), OwnOf(f, id).late)
  {
    var v, v' := View(jobs, f, id), View(jobs, f', id);
    OthersLeaveAlone(jobs, id, other, v, v', s);
    LeftAloneStaysSure(c, rules, s, v, v', OwnOf(f, id).late);
  }

  lemma OthersDeedKeepsSure(jobs: Jobs, rules: Rules, f: Fleet, id: string, d: Deed)
    requires id in jobs && d.id != id && Lawful(jobs, f) && AllHashed(jobs, f) && Hashed(d)
    requires Sheltered(ConfigOf(jobs[id], rules.solo), rules, ShelterOf(jobs, id)) && FleetSure(jobs, rules, f, id)
    ensures FleetSure(jobs, rules, Do(jobs, rules, f, d), id)
  {
    OthersDeed(jobs, rules, f, id, d);
    DoIsHashed(jobs, rules, f, d);
    var c, s := ConfigOf(jobs[id], rules.solo), ShelterOf(jobs, id);
    LeftAloneInFleet(jobs, rules, f, Do(jobs, rules, f, d), id, d.id, c, s);
  }

  lemma ArrivedInFleet(jobs: Jobs, rules: Rules, f: Fleet, id: string, x: (HiveStatus, Report), c: Config, s: Shelter)
    requires id in jobs && Sheltered(c, rules, s) && AllSure(c, rules, s, View(jobs, f, id), OwnOf(f, id).late)
    ensures
      var f' := Do(jobs, rules, f, Arrive(id, x.0, x.1));
      AllSure(c, rules, s, View(jobs, f', id), OwnOf(f', id).late)
  {
    var late := OwnOf(f, id).late;
    if x in late {
      var v, f' := View(jobs, f, id), Do(jobs, rules, f, Arrive(id, x.0, x.1));
      ArrivalKeepsSure(c, rules, s, v, late, x);
      assert View(jobs, f', id) == State(v.w.(stored := Some(x)), v.recs) && OwnOf(f', id).late == late - {x};
    }
  }

  lemma StartIsSure(c: Config, rules: Rules, s: Shelter)
    ensures AllSure(c, rules, s, INIT, {})
  {
  }

  lemma DawnIsSure(jobs: Jobs, rules: Rules, id: string)
    requires id in jobs
    ensures FleetSure(jobs, rules, DAWN, id) && AllHashed(jobs, DAWN)
  {
    assert View(jobs, DAWN, id) == INIT;
    StartIsSure(ConfigOf(jobs[id], rules.solo), rules, ShelterOf(jobs, id));
  }

  lemma DeedKeepsSure(jobs: Jobs, rules: Rules, f: Fleet, id: string, d: Deed)
    requires id in jobs && HasPatch(jobs[id]) && Lawful(jobs, f) && AllHashed(jobs, f) && Hashed(d)
    requires Sheltered(ConfigOf(jobs[id], rules.solo), rules, ShelterOf(jobs, id)) && FleetSure(jobs, rules, f, id)
    ensures FleetSure(jobs, rules, Do(jobs, rules, f, d), id)
  {
    if d.id != id {
      OthersDeedKeepsSure(jobs, rules, f, id, d);
    } else {
      match d
      case Act(_, a) => ActedKeepsSure(jobs, rules, f, id, a);
      case Arrive(_, status, report) =>
        ArrivedInFleet(jobs, rules, f, id, (status, report), ConfigOf(jobs[id], rules.solo), ShelterOf(jobs, id));
    }
  }

  lemma {:induction false} SureThroughout(jobs: Jobs, rules: Rules, deeds: seq<Deed>, id: string)
    requires id in jobs && HasPatch(jobs[id]) && RunHashed(deeds)
    requires Sheltered(ConfigOf(jobs[id], rules.solo), rules, ShelterOf(jobs, id))
    ensures FleetSure(jobs, rules, DoAll(jobs, rules, deeds), id) && AllHashed(jobs, DoAll(jobs, rules, deeds))
  {
    if deeds == [] {
      DawnIsSure(jobs, rules, id);
    } else {
      var front, d := deeds[..|deeds| - 1], deeds[|deeds| - 1];
      SureThroughout(jobs, rules, front, id);
      AlwaysLawful(jobs, rules, front);
      DeedKeepsSure(jobs, rules, DoAll(jobs, rules, front), id, d);
      DoIsHashed(jobs, rules, DoAll(jobs, rules, front), d);
    }
  }

  // ---- So the patch is covered ---------------------------------------------------------------

  /** Landed results differ in nothing but hashes, so they fit alike. */
  lemma LandedResultsFitAlike(job: Job, id: string)
    requires IsHash(id)
    ensures Fits(LandedResult(job, id)) <==> Fits(LandedResult(job, ZEROS))
  {
    HashSize(id);
    HashSize(ZEROS);
    SameSizeFitsAlike(job, id, ZEROS);
  }

  lemma SameSizeFitsAlike(job: Job, x: string, y: string)
    requires TextSize(x) == TextSize(y)
    ensures Fits(LandedResult(job, x)) <==> Fits(LandedResult(job, y))
  {
    LandedNoLarger(job, x, y);
    LandedNoLarger(job, y, x);
  }

  lemma LandedNoLarger(job: Job, x: string, y: string)
    requires TextSize(x) == TextSize(y)
    ensures DictSize(LandedResult(job, x)) <= DictSize(LandedResult(job, y))
  {
    var node := if Get(job.payload, "commit_sha").Some? then Get(job.payload, "commit_sha").value else Null;
    var base := Put(Put(Base(job), "landed_branch", Str(job.branch)), "landed_repo", Str(RepoUrl(job)));
    var d, e := Put(base, "landed_sha", Str(x)), Put(base, "landed_sha", Str(y));
    PutNoLarger(base, base, "landed_sha", Str(x), Str(y));
    PutNoLarger(d, e, "node_commit_sha", node, node);
    d, e := Put(d, "node_commit_sha", node), Put(e, "node_commit_sha", node);
    PutNoLarger(d, e, "commit_sha", Str(x), Str(y));
    d, e := Put(d, "commit_sha", Str(x)), Put(e, "commit_sha", Str(y));
    SameListSize(x, y);
    PutNoLarger(d, e, "commits", List([Str(x)]), List([Str(y)]));
    NoLargerFits(Put(d, "commits", List([Str(x)])), Put(e, "commits", List([Str(y)])));
  }

  lemma SameListSize(x: string, y: string)
    requires TextSize(x) == TextSize(y)
    ensures Size(List([Str(x)])) == Size(List([Str(y)]))
  {
    var v, w := List([Str(x)]), List([Str(y)]);
    assert [Str(x)][1..] == [] && [Str(y)][1..] == [];
    assert ItemsSize(v, [Str(x)]) == ItemsSize(w, [Str(y)]);
  }

  lemma FittingLandedIsCovered(job: Job, w: World, id: string)
    requires HasPatch(job) && Fits(LandedResult(job, id))
    ensures Covers(job, w, Shown(job, Landed(id)))
  {
    LandedResultHas(job, id);
    BaseHas(job);
    LandedResultGet(job, id, "patch");
    LandedFieldsGet(job, Base(job), id, "patch");
    ShrinkLeavesWhatFits(LandedResult(job, id));
  }

  lemma SureIsCovered(jobs: Jobs, rules: Rules, id: string, w: World, report: Report)
    requires id in jobs && HasPatch(jobs[id])
    requires Sure(ConfigOf(jobs[id], rules.solo), ShelterOf(jobs, id), w, report)
    ensures Covers(jobs[id], w, Shown(jobs[id], report))
  {
    var job := jobs[id];
    match report
    case Landed(h) =>
      if Fits(LandedResult(job, ZEROS)) {
        LandedResultsFitAlike(job, h);
        FittingLandedIsCovered(job, w, h);
      } else {
        LandedIsCovered(job, w, h);
      }
    case Unlanded(err) => UnlandedIsCovered(job, w, err);
    case Saved(err) =>
      if Fits(SavedResult(job, LONGEST)) {
        LongestErrorDecides(job);
        FittingSavedIsCovered(job, w, err);
      } else {
        SavedIsCovered(job, w, err);
      }
    case _ => assert false;
  }

  /** Among any number of jobs, through any run, a sheltered job's patch is never lost. */
  lemma ShelteredPatchIsSafe(jobs: Jobs, rules: Rules, deeds: seq<Deed>, id: string)
    requires id in jobs && HasPatch(jobs[id]) && RunHashed(deeds)
    requires Sheltered(ConfigOf(jobs[id], rules.solo), rules, ShelterOf(jobs, id))
    ensures PatchIsSafe(jobs[id], View(jobs, DoAll(jobs, rules, deeds), id).w)
  {
    SureThroughout(jobs, rules, deeds, id);
    var w := View(jobs, DoAll(jobs, rules, deeds), id).w;
    if !w.terminal { SureIsCovered(jobs, rules, id, w, w.stored.value.1); }
  }
}
