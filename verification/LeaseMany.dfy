/** Many jobs in one bucket: owners and their clocks are shared, objects are not. */
module LeaseMany {
  import opened Options
  import opened LeaseProtocol
  import opened LeaseSafety
  import opened LeaseSteps

  datatype World = World(jobs: map<string, State>, clocks: map<Owner, real>)
  datatype Move = Move(job: string, action: Action)

  const START := World(map[], map[])

  function JobIn(w: World, job: string): State {
    if job in w.jobs then w.jobs[job] else INIT
  }

  /** The owner whose clock this action reads, and what it reads. */
  function Reading(st: State, a: Action): Option<(Owner, real)> {
    match a
    case Begin(_, o, now) => Some((o, now))
    case RunMain(s, i) =>
      if s in st.sessions && st.sessions[s].main.AtLock? then Some((st.sessions[s].owner, i.now)) else None
    case RunRenewer(s, _, now) =>
      if s in st.sessions && st.sessions[s].renewer.RLock? then Some((st.sessions[s].owner, now)) else None
    case _ => None
  }

  /** One job moves, unless that would read an owner's clock backwards across jobs. */
  function WorldNext(c: Config, w: World, m: Move): World {
    var st := JobIn(w, m.job);
    var jobs := w.jobs[m.job := Next(c, st, m.action)];
    match Reading(st, m.action)
    case None => World(jobs, w.clocks)
    case Some((o, now)) => if o in w.clocks && now < w.clocks[o] then w else World(jobs, w.clocks[o := now])
  }

  function WorldRun(c: Config, moves: seq<Move>): World {
    if moves == [] then START else WorldNext(c, WorldRun(c, moves[..|moves| - 1]), moves[|moves| - 1])
  }

  /** Each job of a world goes through a run of its own: other jobs' moves do not touch it. */
  lemma {:induction false} JobRunsAlone(c: Config, moves: seq<Move>, job: string) returns (actions: seq<Action>)
    ensures JobIn(WorldRun(c, moves), job) == Run(c, INIT, actions)
  {
    if moves == [] {
      actions := [];
    } else {
      var m := moves[|moves| - 1];
      actions := JobRunsAlone(c, moves[..|moves| - 1], job);
      if m.job == job && WorldRun(c, moves) != WorldRun(c, moves[..|moves| - 1]) {
        var longer := actions + [m.action];
        assert longer[..|longer| - 1] == actions;
        actions := longer;
      }
    }
  }

  /** What holds of every run of one job holds of every job of every world. */
  lemma EveryJobIsSafe(c: Config, moves: seq<Move>, job: string)
    requires 0.0 < c.lease
    ensures Inv(c, JobIn(WorldRun(c, moves), job))
  {
    var actions := JobRunsAlone(c, moves, job);
    EveryRunKeeps(c, actions);
  }
}
