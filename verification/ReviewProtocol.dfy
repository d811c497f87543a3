/**
 * One job's way home: reconcilers read its terminal object, land its patch as
 * a review branch, report to the hive and purge.  Any number of reconcilers
 * may race and any of them may die between two steps; git, the disk and the
 * hive answer as they like.
 */
module ReviewProtocol {
  import opened Options
  import opened Text
  import opened ResultCap
  import opened ReviewResults

  /** A commit holds the patch it was made from; its id is its hash. */
  datatype Commit = Commit(id: string, patch: Json)

  predicate IsHash(id: string) {
    |id| == 40 && forall k :: 0 <= k < 40 ==> '0' <= id[k] <= '9' || 'a' <= id[k] <= 'f'
  }

  const ZEROS := Digits('0')

  function Digits(c: char): (id: string)
    ensures |id| == 40 && forall k :: 0 <= k < 40 ==> id[k] == c
  {
    seq(40, _ => c)
  }

  datatype HiveStatus = InReview | Closed | Errored

  /** The job as the steps see it: its kind, its patch and the file body made of it, for which landing errors the
      result fits with the patch in it, and whether it can land at all.  `solo`: a reconciler starts on it only while no
      other is at work on it. */
  datatype Config =
    Config(kind: Kind, patch: Json, body: string, fits: string -> bool, landable: bool, solo: bool)

  function ConfigOf(job: Job, solo: bool): Config {
    Config(KindOf(job), Patch(job), Ended(job.patchText), err => Fits(UnlandedResult(job, err)), CanLand(job), solo)
  }

  datatype Pc =
    | Idle
    | AtKind
    | AtLsRemote
    | AtApply
    | AtPush(id: string)
    | AtLsAgain
    | AtSave(err: string)
    | AtWrite(err: string)
    | AtReview(report: Report)
    | AtClose(report: Report, status: HiveStatus)
    | AtPurge(k: nat, ack: nat)

  datatype Event =
    | BranchWritten(r: nat, id: string)
    | LandReturned(r: nat, id: string)
    | Acked(r: nat, code: int, report: Report)
    | Rejected(r: nat, code: int)
    | Deleted(r: nat, k: nat, ack: nat)

  /** The terminal object is there or not; the review branch; the orphan file; what the hive holds for the job. */
  datatype World = World(
    terminal: bool,
    remote: Option<Commit>,
    orphan: Option<string>,
    stored: Option<(HiveStatus, Report)>,
    log: seq<Event>)

  datatype State = State(w: World, recs: map<nat, Pc>)

  const INIT := State(World(true, None, None, None, []), map[])

  /** How a git command ends for the lander. */
  datatype Git = Good | Transient | Permanent

  /** Everything a step leaves to chance: git's answer and its error text, the commit id, whether a push reached the
      remote and reported success, the disk, the hive's code and whether the update took effect, the bucket. */
  datatype Input = Input(
    git: Git, err: string, id: string, reached: bool, reported: bool,
    opens: bool, short: Option<nat>,
    code: Option<int>, took: bool,
    deleted: bool, answered: bool)

  datatype Action = Step(r: nat, i: Input) | Crash(r: nat)

  // ---- The steps of one reconciler -----------------------------------------------------

  function KindStep(c: Config, w: World, i: Input): (World, Pc) {
    match c.kind
    case NodeFailure => (w, AtClose(Failed, Errored))
    case UnknownStatus => (w, Idle)
    case Finished => (w, AtClose(Plain, Closed))
    case Unpatched => (w, AtReview(Plain))
    case Patched => if i.git.Permanent? || !c.landable then (w, AtSave(i.err)) else (w, AtLsRemote)
  }

  /** The landing succeeded with the commit `id`. */
  function LandStep(w: World, r: nat, id: string): (World, Pc) {
    (w.(log := w.log + [LandReturned(r, id)]), AtReview(Landed(id)))
  }

  function LsRemoteStep(w: World, r: nat, i: Input): (World, Pc) {
    match i.git
    case Transient => (w, Idle)
    case Permanent => (w, AtSave(i.err))
    case Good => if w.remote.Some? then LandStep(w, r, w.remote.value.id) else (w, AtApply)
  }

  function ApplyStep(w: World, i: Input): (World, Pc) {
    match i.git
    case Transient => (w, Idle)
    case Permanent => (w, AtSave(i.err))
    case Good => (w, AtPush(i.id))
  }

  /** A push without force: it makes the branch, or finds it at the same commit, or is rejected. */
  function PushStep(c: Config, w: World, r: nat, id: string, i: Input): (World, Pc) {
    var w1 :=
      if i.reached && w.remote.None?
      then w.(remote := Some(Commit(id, c.patch)), log := w.log + [BranchWritten(r, id)])
      else w;
    var accepted := i.reached && w1.remote.Some? && w1.remote.value.id == id;
    if i.git.Transient? then (w1, Idle)
    else if accepted && i.reported then LandStep(w1, r, id)
    else (w1, AtLsAgain)
  }

  /** After a push that failed: the branch may be there all the same; if not, the push's error decides. */
  function LsAgainStep(w: World, r: nat, i: Input): (World, Pc) {
    match i.git
    case Transient => (w, Idle)
    case Permanent => (w, AtSave(i.err))
    case Good =>
      if w.remote.Some? then LandStep(w, r, w.remote.value.id)
      else if i.reported then (w, Idle) else (w, AtSave(i.err))
  }

  /** No copy on disk: go on only if the result itself will keep the patch. */
  function Unsaved(c: Config, err: string): Pc {
    if c.fits(err) then AtReview(Unlanded(err)) else Idle
  }

  /** Opening the orphan file truncates it. */
  function SaveStep(c: Config, w: World, err: string, i: Input): (World, Pc) {
    if i.opens then (w.(orphan := Some("")), AtWrite(err)) else (w, Unsaved(c, err))
  }

  function WriteStep(c: Config, w: World, err: string, i: Input): (World, Pc) {
    if i.short.Some? then
      (w.(orphan := Some(if i.short.value <= |c.body| then c.body[..i.short.value] else c.body)), Unsaved(c, err))
    else (w.(orphan := Some(c.body)), AtReview(Saved(err)))
  }

  predicate IsAck(code: Option<int>) { code.Some? && 200 <= code.value < 300 }

  /** One PATCH; without an acknowledgement it may have taken effect or not. */
  function Reported(w: World, r: nat, report: Report, status: HiveStatus, i: Input): World {
    var w1 := if IsAck(i.code) || i.took then w.(stored := Some((status, report))) else w;
    if IsAck(i.code) then w1.(log := w1.log + [Acked(r, i.code.value, report)]) else w1
  }

  function ReviewStep(w: World, r: nat, report: Report, i: Input): (World, Pc) {
    var w1 := Reported(w, r, report, InReview, i);
    if IsAck(i.code) then (w1, AtPurge(0, |w.log|))
    else if i.code == Some(400) || i.code == Some(422) then
      (w1.(log := w1.log + [Rejected(r, i.code.value)]), AtClose(report, Closed))
    else (w1, Idle)
  }

  function CloseStep(w: World, r: nat, report: Report, status: HiveStatus, i: Input): (World, Pc) {
    (Reported(w, r, report, status, i), if IsAck(i.code) then AtPurge(0, |w.log|) else Idle)
  }

  /** Pending, claimant, claimed, terminal, active: one delete at a time. */
  function PurgeStep(w: World, r: nat, k: nat, ack: nat, i: Input): (World, Pc) {
    if i.deleted then
      (w.(terminal := w.terminal && k != 3, log := w.log + [Deleted(r, k, ack)]),
       if i.answered && k < 4 then AtPurge(k + 1, ack) else Idle)
    else (w, Idle)
  }

  function Move(c: Config, w: World, pc: Pc, r: nat, i: Input): (World, Pc) {
    match pc
    case Idle => (w, if w.terminal && i.answered then AtKind else Idle)
    case AtKind => KindStep(c, w, i)
    case AtLsRemote => LsRemoteStep(w, r, i)
    case AtApply => ApplyStep(w, i)
    case AtPush(id) => PushStep(c, w, r, id, i)
    case AtLsAgain => LsAgainStep(w, r, i)
    case AtSave(err) => SaveStep(c, w, err, i)
    case AtWrite(err) => WriteStep(c, w, err, i)
    case AtReview(report) => ReviewStep(w, r, report, i)
    case AtClose(report, status) => CloseStep(w, r, report, status, i)
    case AtPurge(k, ack) => PurgeStep(w, r, k, ack, i)
  }

  // ---- Everybody together ------------------------------------------------------------------

  function PcOf(st: State, r: nat): Pc { if r in st.recs then st.recs[r] else Idle }

  ghost predicate OthersIdle(st: State, r: nat) {
    forall q :: q in st.recs && q != r ==> st.recs[q].Idle?
  }

  ghost function Next(c: Config, st: State, a: Action): State {
    match a
    case Crash(r) => st.(recs := st.recs[r := Idle])
    case Step(r, i) =>
      if c.solo && PcOf(st, r).Idle? && !OthersIdle(st, r) then st
      else
        var moved := Move(c, st.w, PcOf(st, r), r, i);
        State(moved.0, st.recs[r := moved.1])
  }

  /** The state after any sequence of actions. */
  ghost function Run(c: Config, st: State, actions: seq<Action>): State {
    if actions == [] then st else Next(c, Run(c, st, actions[..|actions| - 1]), actions[|actions| - 1])
  }

  lemma RunSnoc(c: Config, st: State, actions: seq<Action>, a: Action)
    ensures Run(c, st, actions + [a]) == Next(c, Run(c, st, actions), a)
  {
    assert (actions + [a])[..|actions|] == actions;
  }
}
