/**
 * Many jobs on their way home at once.  Their terminal objects and what the
 * Hive holds of them are their own; review branches and orphan files are named
 * after their ids, and names may coincide.  A PATCH without an answer may take
 * effect long after its sender has gone on.
 */
module ReviewMany {
  import opened Options
  import opened ResultCap
  import opened ReviewResults
  import opened ReviewProtocol
  import opened ReviewSafety

  type Jobs = map<string, Job>

  /** `solo`: one reconciler at a time works on a job.  `prompt`: a PATCH takes effect, if at all, before its sender's
      next step. */
  datatype Rules = Rules(solo: bool, prompt: bool)

  datatype Place = Place(repo: string, branch: string)

  function PlaceOf(job: Job): Place { Place(RepoUrl(job), job.branch) }

  /** What belongs to one job alone; `late` are the PATCHes that may still take effect. */
  datatype Own = Own(
    terminal: bool,
    stored: Option<(HiveStatus, Report)>,
    log: seq<Event>,
    recs: map<nat, Pc>,
    late: set<(HiveStatus, Report)>)

  const FRESH := Own(true, None, [], map[], {})

  datatype Fleet = Fleet(own: map<string, Own>, branches: map<Place, Commit>, files: map<string, string>)

  const DAWN := Fleet(map[], map[], map[])

  datatype Deed = Act(id: string, action: Action) | Arrive(id: string, status: HiveStatus, report: Report)

  function Slot<K, V>(m: map<K, V>, k: K): Option<V> { if k in m then Some(m[k]) else None }

  function Fill<K, V>(m: map<K, V>, k: K, v: Option<V>): map<K, V> { if v.Some? then m[k := v.value] else m }

  function OwnOf(f: Fleet, id: string): Own { if id in f.own then f.own[id] else FRESH }

  /** The fleet as the reconcilers of one job see it. */
  function View(jobs: Jobs, f: Fleet, id: string): State
    requires id in jobs
  {
    var o := OwnOf(f, id);
    State(World(o.terminal, Slot(f.branches, PlaceOf(jobs[id])), Slot(f.files, jobs[id].path), o.stored, o.log), o.recs)
  }

  /** A PATCH to which no answer came, or that of a server in trouble, and that has not taken effect yet. */
  function Delayed(pc: Pc, i: Input): set<(HiveStatus, Report)> {
    if (i.code.Some? && i.code.value < 500) || i.took then {}
    else
      match pc
      case AtReview(report) => {(InReview, report)}
      case AtClose(report, status) => {(status, report)}
      case _ => {}
  }

  function DelayedBy(rules: Rules, v: State, a: Action): set<(HiveStatus, Report)> {
    if rules.prompt || a.Crash? then {} else Delayed(PcOf(v, a.r), a.i)
  }

  /** The fleet after the reconcilers of one job went on to `st`. */
  function Written(jobs: Jobs, f: Fleet, id: string, st: State, late: set<(HiveStatus, Report)>): Fleet
    requires id in jobs
  {
    Fleet(f.own[id := Own(st.w.terminal, st.w.stored, st.w.log, st.recs, late)],
          Fill(f.branches, PlaceOf(jobs[id]), st.w.remote), Fill(f.files, jobs[id].path, st.w.orphan))
  }

  ghost function Acted(jobs: Jobs, rules: Rules, f: Fleet, id: string, a: Action): Fleet
    requires id in jobs
  {
    var v := View(jobs, f, id);
    Written(jobs, f, id, Next(ConfigOf(jobs[id], rules.solo), v, a), OwnOf(f, id).late + DelayedBy(rules, v, a))
  }

  ghost function Do(jobs: Jobs, rules: Rules, f: Fleet, d: Deed): Fleet {
    if d.id !in jobs then f
    else
      match d
      case Act(id, a) => Acted(jobs, rules, f, id, a)
      case Arrive(id, status, report) =>
        var o := OwnOf(f, id);
        if (status, report) !in o.late then f
        else f.(own := f.own[id := o.(stored := Some((status, report)), late := o.late - {(status, report)})])
  }

  ghost function DoAll(jobs: Jobs, rules: Rules, deeds: seq<Deed>): Fleet {
    if deeds == [] then DAWN else Do(jobs, rules, DoAll(jobs, rules, deeds[..|deeds| - 1]), deeds[|deeds| - 1])
  }

  lemma DoSnoc(jobs: Jobs, rules: Rules, deeds: seq<Deed>, d: Deed)
    ensures DoAll(jobs, rules, deeds + [d]) == Do(jobs, rules, DoAll(jobs, rules, deeds), d)
  {
    assert (deeds + [d])[..|deeds|] == deeds;
  }

  // ---- What a deed changes for whom ------------------------------------------------

  /** A branch that is there stays; a file that is there is not removed. */
  ghost predicate KeepsShared(w: World, w': World) {
    (w.remote.Some? ==> w'.remote == w.remote) && (w.orphan.Some? ==> w'.orphan.Some?)
  }

  lemma NextKeepsShared(c: Config, st: State, a: Action)
    ensures KeepsShared(st.w, Next(c, st, a).w)
  {
  }

  lemma WrittenIsSeen(jobs: Jobs, f: Fleet, id: string, st: State, late: set<(HiveStatus, Report)>)
    requires id in jobs && KeepsShared(View(jobs, f, id).w, st.w)
    ensures View(jobs, Written(jobs, f, id, st, late), id) == st
  {
  }

  /** To its own reconcilers an action is a step of the protocol. */
  lemma ActedIsNext(jobs: Jobs, rules: Rules, f: Fleet, id: string, a: Action)
    requires id in jobs
    ensures View(jobs, Acted(jobs, rules, f, id, a), id) ==
      Next(ConfigOf(jobs[id], rules.solo), View(jobs, f, id), a)
  {
    var v := View(jobs, f, id);
    var st := Next(ConfigOf(jobs[id], rules.solo), v, a);
    NextKeepsShared(ConfigOf(jobs[id], rules.solo), v, a);
    WrittenIsSeen(jobs, f, id, st, OwnOf(f, id).late + DelayedBy(rules, v, a));
  }

  /** Where a reconciler of a job can be: only a landable patch is pushed, only a patch is saved. */
  predicate MayBeAt(patched: bool, landable: bool, pc: Pc) {
    match pc
    case AtLsRemote => patched && landable
    case AtApply => patched && landable
    case AtPush(_) => patched && landable
    case AtLsAgain => patched && landable
    case AtSave(_) => patched
    case AtWrite(_) => patched
    case _ => true
  }

  ghost predicate AllMayBe(patched: bool, landable: bool, recs: map<nat, Pc>) {
    forall r :: r in recs ==> MayBeAt(patched, landable, recs[r])
  }

  ghost predicate Lawful(jobs: Jobs, f: Fleet) {
    forall id :: id in jobs ==> AllMayBe(HasPatch(jobs[id]), CanLand(jobs[id]), OwnOf(f, id).recs)
  }

  /** What a step may change of what jobs share: a branch appears, by a push of the patch; a file is saved. */
  ghost predicate MayChange(patched: bool, landable: bool, patch: Json, w: World, w': World) {
    && KeepsShared(w, w')
    && (w'.remote != w.remote ==> patched && landable && w'.remote.Some? && w'.remote.value.patch == patch)
    && (w'.orphan != w.orphan ==> patched)
  }

  lemma MoveMayChange(c: Config, w: World, pc: Pc, r: nat, i: Input)
    requires MayBeAt(c.kind.Patched?, c.landable, pc)
    ensures
      var moved := Move(c, w, pc, r, i);
      MayBeAt(c.kind.Patched?, c.landable, moved.1) && MayChange(c.kind.Patched?, c.landable, c.patch, w, moved.0)
  {
  }

  lemma NextMayChange(c: Config, st: State, a: Action)
    requires AllMayBe(c.kind.Patched?, c.landable, st.recs)
    ensures
      var st' := Next(c, st, a);
      && AllMayBe(c.kind.Patched?, c.landable, st'.recs)
      && MayChange(c.kind.Patched?, c.landable, c.patch, st.w, st'.w)
  {
    if a.Step? { MoveMayChange(c, st.w, PcOf(st, a.r), a.r, a.i); }
  }

  /** An action writes back a state that its job may go to. */
  lemma ActedIsWritten(jobs: Jobs, rules: Rules, f: Fleet, id: string, a: Action)
      returns (st: State, late: set<(HiveStatus, Report)>)
    requires id in jobs && Lawful(jobs, f)
    ensures Acted(jobs, rules, f, id, a) == Written(jobs, f, id, st, late)
    ensures AllMayBe(HasPatch(jobs[id]), CanLand(jobs[id]), st.recs)
    ensures MayChange(HasPatch(jobs[id]), CanLand(jobs[id]), Patch(jobs[id]), View(jobs, f, id).w, st.w)
  {
    var c, v := ConfigOf(jobs[id], rules.solo), View(jobs, f, id);
    PatchedMeans(jobs[id]);
    NextMayChange(c, v, a);
    st, late := Next(c, v, a), OwnOf(f, id).late + DelayedBy(rules, v, a);
  }

  lemma WrittenIsLawful(jobs: Jobs, f: Fleet, id: string, st: State, late: set<(HiveStatus, Report)>)
    requires Lawful(jobs, f) && id in jobs && AllMayBe(HasPatch(jobs[id]), CanLand(jobs[id]), st.recs)
    ensures Lawful(jobs, Written(jobs, f, id, st, late))
  {
  }

  lemma DoIsLawful(jobs: Jobs, rules: Rules, f: Fleet, d: Deed)
    requires Lawful(jobs, f)
    ensures Lawful(jobs, Do(jobs, rules, f, d))
  {
    if d.id in jobs && d.Act? {
      var st, late := ActedIsWritten(jobs, rules, f, d.id, d.action);
      WrittenIsLawful(jobs, f, d.id, st, late);
    }
  }

  lemma {:induction false} AlwaysLawful(jobs: Jobs, rules: Rules, deeds: seq<Deed>)
    ensures Lawful(jobs, DoAll(jobs, rules, deeds))
  {
    if deeds != [] {
      AlwaysLawful(jobs, rules, deeds[..|deeds| - 1]);
      DoIsLawful(jobs, rules, DoAll(jobs, rules, deeds[..|deeds| - 1]), deeds[|deeds| - 1]);
    }
  }

  /** Another job with a patch that goes to the same branch, or to the same file. */
  predicate SharesBranch(jobs: Jobs, id: string, other: string) {
    && id in jobs && other in jobs && other != id && HasPatch(jobs[other]) && CanLand(jobs[other])
    && PlaceOf(jobs[other]) == PlaceOf(jobs[id])
  }

  predicate SharesFile(jobs: Jobs, id: string, other: string) {
    id in jobs && other in jobs && other != id && HasPatch(jobs[other]) && jobs[other].path == jobs[id].path
  }

  /** What the deed of another job may change in a job's view: its branch appears, with the other's patch, or its file
      changes. */
  ghost predicate OthersMove(jobs: Jobs, id: string, other: string, v: State, v': State) {
    && v' == v.(w := v.w.(remote := v'.w.remote, orphan := v'.w.orphan)) && KeepsShared(v.w, v'.w)
    && (v'.w.remote != v.w.remote ==>
        && SharesBranch(jobs, id, other) && v.w.remote.None? && v'.w.remote.Some?
        && v'.w.remote.value.patch == Patch(jobs[other]))
    && (v'.w.orphan != v.w.orphan ==> SharesFile(jobs, id, other))
  }

  /** What writing one job's part back does to another's view. */
  lemma WrittenElsewhere(jobs: Jobs, f: Fleet, id: string, other: string, st: State, late: set<(HiveStatus, Report)>)
    requires id in jobs && other in jobs && other != id && KeepsShared(View(jobs, f, other).w, st.w)
    ensures
      var w, seen := View(jobs, f, other).w, View(jobs, f, id);
      var f' := Written(jobs, f, other, st, late);
      && OwnOf(f', id) == OwnOf(f, id)
      && View(jobs, f', id) == seen.(w := seen.w.(
           remote := if PlaceOf(jobs[other]) == PlaceOf(jobs[id]) then st.w.remote else seen.w.remote,
           orphan := if jobs[other].path == jobs[id].path then st.w.orphan else seen.w.orphan))
      && (PlaceOf(jobs[other]) == PlaceOf(jobs[id]) ==> w.remote == seen.w.remote)
      && (jobs[other].path == jobs[id].path ==> w.orphan == seen.w.orphan)
  {
  }

  lemma OthersDeed(jobs: Jobs, rules: Rules, f: Fleet, id: string, d: Deed)
    requires id in jobs && d.id != id && Lawful(jobs, f)
    ensures OthersMove(jobs, id, d.id, View(jobs, f, id), View(jobs, Do(jobs, rules, f, d), id))
    ensures OwnOf(Do(jobs, rules, f, d), id) == OwnOf(f, id)
  {
    if d.Act? && d.id in jobs {
      var st, late := ActedIsWritten(jobs, rules, f, d.id, d.action);
      WrittenElsewhere(jobs, f, id, d.id, st, late);
    }
  }

  // ---- Jobs that share nothing ----------------------------------------------------------

  ghost predicate Apart(jobs: Jobs, id: string) {
    forall other :: other in jobs ==> !SharesBranch(jobs, id, other) && !SharesFile(jobs, id, other)
  }

  /** A job whose branch and file are its own goes through a run of its own, if PATCHes are prompt: so whatever holds
      of every run of one job holds of it. */
  lemma {:induction false} JobGoesAlone(jobs: Jobs, rules: Rules, deeds: seq<Deed>, id: string)
      returns (actions: seq<Action>)
    requires id in jobs && Apart(jobs, id) && rules.prompt
    ensures View(jobs, DoAll(jobs, rules, deeds), id) == Run(ConfigOf(jobs[id], rules.solo), INIT, actions)
    ensures OwnOf(DoAll(jobs, rules, deeds), id).late == {}
  {
    if deeds == [] {
      actions := [];
    } else {
      var before, d := DoAll(jobs, rules, deeds[..|deeds| - 1]), deeds[|deeds| - 1];
      actions := JobGoesAlone(jobs, rules, deeds[..|deeds| - 1], id);
      if d.id != id {
        AlwaysLawful(jobs, rules, deeds[..|deeds| - 1]);
        OthersDeed(jobs, rules, before, id, d);
      } else if d.Act? {
        ActedIsNext(jobs, rules, before, id, d.action);
        RunSnoc(ConfigOf(jobs[id], rules.solo), INIT, actions, d.action);
        actions := actions + [d.action];
      }
    }
  }
}
