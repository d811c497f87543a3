/**
 * The enqueuer's sweep: drain the hive of jobs, release what the node cannot
 * do, and put the rest into the bucket, routing first.
 */
module Enqueuer {
  import opened Options
  import opened Dicts

  datatype Status = Queued | Running | Failed

  /** The hive's queue, as a sweep sees it: other workers may take jobs at any time, and only a release
      puts one back. */
  class Hive {
    var open: set<string>
    var status: map<string, Status>

    constructor (open: set<string>)
      ensures this.open == open && status == map[]
    {
      this.open := open;
      status := map[];
    }

    method ClaimNext(takenByOthers: set<string>) returns (job: Option<string>)
      modifies this`open
      ensures job.Some? ==> job.value in old(open) && job.value !in open
      ensures open <= old(open)
      ensures job.None? ==> open == {}
    {
      open := open - takenByOthers;
      if open == {} { return None; }
      var j :| j in open;
      open := open - {j};
      job := Some(j);
    }

    /** One PATCH.  Whether it takes effect is left to the Hive and the network; the sweep does not look. */
    method PatchStatus(job: string, s: Status, takesEffect: bool)
      modifies this
      ensures status == if takesEffect then old(status)[job := s] else old(status)
      ensures open == if takesEffect && s.Queued? then old(open) + {job} else old(open)
    {
      if takesEffect {
        status := status[job := s];
        if s.Queued? { open := open + {job}; }
      }
    }
  }

  /** Where offloading one job goes wrong, if it does; a call that raises may still have landed. */
  datatype Trouble = Smooth | AtPayload | AtClaimant(landed: bool) | AtPending(landed: bool) | AtStatus(landed: bool)

  datatype Fate = Enqueued | Released | FailedOver

  datatype Claim = Claim(job: string, fate: Fate)

  /** Whether the node can do a job, what goes wrong with it, and whether the PATCH that ends the turn takes effect, as
      found at each turn of a sweep. */
  datatype World = World(offload: (string, nat) -> bool, trouble: (string, nat) -> Trouble, told: (string, nat) -> bool)

  function FateOf(job: string, turn: nat, w: World): Fate {
    if !w.offload(job, turn) then Released else if w.trouble(job, turn).Smooth? then Enqueued else FailedOver
  }

  function StatusFor(f: Fate): Status {
    match f
    case Enqueued => Running
    case Released => Queued
    case FailedOver => Failed
  }

  function CountEnqueued(claims: seq<Claim>): nat {
    if claims == [] then 0
    else CountEnqueued(claims[..|claims| - 1]) + if claims[|claims| - 1].fate.Enqueued? then 1 else 0
  }

  /** The jobs among the claims that were released, or that were dealt with. */
  ghost function Picked(claims: seq<Claim>, released: bool): set<string> {
    set i | 0 <= i < |claims| && claims[i].fate.Released? == released :: claims[i].job
  }

  ghost predicate Fated(claims: seq<Claim>, universe: set<string>, w: World) {
    forall i :: 0 <= i < |claims| ==> claims[i].job in universe && claims[i].fate == FateOf(claims[i].job, i, w)
  }

  /** Only a job released before is claimed again, and then it is not released again. */
  ghost predicate Strict(claims: seq<Claim>) {
    forall i, j :: 0 <= i < j < |claims| && claims[i].job == claims[j].job ==>
      claims[i].fate.Released? && !claims[j].fate.Released?
  }

  /** The last claim releases a job a second time. */
  ghost predicate EndsOnRepeat(claims: seq<Claim>) {
    claims != [] &&
    var front, last := claims[..|claims| - 1], claims[|claims| - 1];
    Strict(front) && last.fate.Released? && last.job in Picked(front, true) && last.job !in Picked(front, false)
  }

  /** A job is claimed again only after the Hive was told of its release. */
  ghost predicate Reoffered(claims: seq<Claim>, w: World) {
    forall i, j :: 0 <= i < j < |claims| && claims[i].job == claims[j].job ==> w.told(claims[i].job, i)
  }

  /** A whole sweep: a job is claimed again only after a release, and a second release of one ends the sweep. */
  ghost predicate SweepOK(claims: seq<Claim>, universe: set<string>, w: World) {
    Fated(claims, universe, w) && Reoffered(claims, w) && (Strict(claims) || EndsOnRepeat(claims))
  }

  lemma PickedSnoc(claims: seq<Claim>, c: Claim, released: bool)
    ensures
      Picked(claims + [c], released) == Picked(claims, released) + if c.fate.Released? == released then {c.job} else {}
  {
    var all := claims + [c];
    assert all[|claims|] == c;
    forall i | 0 <= i < |claims| && claims[i].fate.Released? == released
      ensures claims[i].job in Picked(all, released)
    {
      assert all[i] == claims[i];
    }
  }

  lemma {:induction false} AsManyAsPicked(claims: seq<Claim>)
    requires Strict(claims)
    ensures |claims| == |Picked(claims, true)| + |Picked(claims, false)|
  {
    if claims != [] {
      var front, last := claims[..|claims| - 1], claims[|claims| - 1];
      assert claims == front + [last];
      AsManyAsPicked(front);
      PickedSnoc(front, last, true);
      PickedSnoc(front, last, false);
      assert last.job !in Picked(front, last.fate.Released?);
    }
  }

  lemma PickedAreJobs(claims: seq<Claim>, universe: set<string>, w: World, released: bool)
    requires Fated(claims, universe, w)
    ensures Picked(claims, released) <= universe && |Picked(claims, released)| <= |universe|
  {
    Subset(Picked(claims, released), universe);
  }

  /** So a sweep takes at most two claims for each distinct job. */
  lemma SweepIsShort(claims: seq<Claim>, universe: set<string>, w: World)
    requires SweepOK(claims, universe, w)
    ensures |claims| <= 2 * |universe|
  {
    if Strict(claims) {
      AsManyAsPicked(claims);
      PickedAreJobs(claims, universe, w, true);
      PickedAreJobs(claims, universe, w, false);
    } else {
      RepeatIsShort(claims, universe, w);
    }
  }

  lemma RepeatIsShort(claims: seq<Claim>, universe: set<string>, w: World)
    requires Fated(claims, universe, w) && EndsOnRepeat(claims)
    ensures |claims| <= 2 * |universe|
  {
    var front, job := claims[..|claims| - 1], claims[|claims| - 1].job;
    AsManyAsPicked(front);
    PickedAreJobs(front, universe, w, true);
    PickedAreJobs(front, universe, w, false);
    assert |Picked(front, false) + {job}| == |Picked(front, false)| + 1;
    Subset(Picked(front, false) + {job}, universe);
  }

  /** A job's decision is the same at every turn. */
  ghost predicate Steady(w: World) {
    forall job, i, j :: w.offload(job, i) == w.offload(job, j)
  }

  /** If nothing about the jobs changes meanwhile, it takes at most one claim more than there are jobs. */
  lemma SteadySweepIsShorter(claims: seq<Claim>, universe: set<string>, w: World)
    requires SweepOK(claims, universe, w) && Steady(w)
    ensures |claims| <= |universe| + 1
  {
    var front := if Strict(claims) then claims else claims[..|claims| - 1];
    assert Fated(front, universe, w) && |claims| <= |front| + 1;
    AsManyAsPicked(front);
    PickedAreJobs(front, universe, w, true);
    PickedAreJobs(front, universe, w, false);
    var done, released := Picked(front, false), Picked(front, true);
    forall job | job in released ensures job !in done {
      if job in done { NotBoth(front, universe, w, job); }
    }
    assert |released + done| == |released| + |done|;
    Subset(released + done, universe);
  }

  lemma NotBoth(claims: seq<Claim>, universe: set<string>, w: World, job: string)
    requires Fated(claims, universe, w) && Steady(w) && job in Picked(claims, true)
    ensures job !in Picked(claims, false)
  {
    var i :| 0 <= i < |claims| && claims[i].fate.Released? && claims[i].job == job;
    forall j | 0 <= j < |claims| && claims[j].job == job ensures claims[j].fate.Released? {
      assert w.offload(job, i) == w.offload(job, j);
    }
  }

  class Bucket {
    var claimants: set<string>
    var pending: set<string>

    constructor ()
      ensures claimants == {} && pending == {}
    {
      claimants, pending := {}, {};
    }

    /** Build, write the routing, write the job; true if nothing raised. */
    method Offload(job: string, t: Trouble) returns (ok: bool)
      modifies this
      ensures ok <==> t.Smooth? || t.AtStatus?
      ensures claimants == old(claimants) + if t.AtPayload? || t == AtClaimant(false) then {} else {job}
      ensures pending == old(pending) + if t.Smooth? || t.AtStatus? || t == AtPending(true) then {job} else {}
    {
      if t.AtPayload? { return false; }
      if t.AtClaimant? {
        if t.landed { claimants := claimants + {job}; }
        return false;
      }
      claimants := claimants + {job};
      if t.AtPending? {
        if t.landed { pending := pending + {job}; }
        return false;
      }
      pending := pending + {job};
      ok := true;
    }
  }

  /** The pending object a claim leaves behind. */
  function LeftBy(job: string, f: Fate, t: Trouble): set<string> {
    if !f.Released? && (t.Smooth? || t.AtStatus? || t == AtPending(true)) then {job} else {}
  }

  /** The pending objects after these claims. */
  function Left(pending: set<string>, claims: seq<Claim>, w: World): set<string> {
    if claims == [] then pending
    else
      var n := |claims| - 1;
      Left(pending, claims[..n], w) + LeftBy(claims[n].job, claims[n].fate, w.trouble(claims[n].job, n))
  }

  /** The status a turn leaves its job under at the Hive, if any of its PATCHes took effect. */
  function Told(c: Claim, t: Trouble, takesEffect: bool): Option<Status> {
    if takesEffect then Some(StatusFor(c.fate))
    else if c.fate.FailedOver? && t == AtStatus(true) then Some(Running)
    else None
  }

  function ToldAt(claims: seq<Claim>, i: nat, w: World): Option<Status>
    requires i < |claims|
  {
    Told(claims[i], w.trouble(claims[i].job, i), w.told(claims[i].job, i))
  }

  function Put(status: map<string, Status>, job: string, told: Option<Status>): map<string, Status> {
    if told.Some? then status[job := told.value] else status
  }

  /** What the Hive has after these claims. */
  function Reported(status: map<string, Status>, claims: seq<Claim>, w: World): map<string, Status> {
    if claims == [] then status
    else
      var n := |claims| - 1;
      Put(Reported(status, claims[..n], w), claims[n].job, ToldAt(claims, n, w))
  }

  /** That is each job under the last PATCH that took effect, or as it was if none did. */
  lemma {:induction false} HiveHasLastPatch(status: map<string, Status>, claims: seq<Claim>, w: World, job: string,
        i: nat)
    requires i <= |claims| && forall j :: i <= j < |claims| && claims[j].job == job ==> ToldAt(claims, j, w).None?
    ensures
      var after := Reported(status, claims, w);
      if i == 0 then (job in after <==> job in status) && (job in status ==> after[job] == status[job])
      else claims[i - 1].job == job && ToldAt(claims, i - 1, w).Some? ==>
        job in after && after[job] == ToldAt(claims, i - 1, w).value
    decreases |claims|
  {
    if i < |claims| {
      var n := |claims| - 1;
      assert forall j :: 0 <= j < n ==> ToldAt(claims[..n], j, w) == ToldAt(claims, j, w);
      HiveHasLastPatch(status, claims[..n], w, job, i);
    }
  }

  /** The last claim of its job. */
  predicate IsLast(claims: seq<Claim>, i: nat) {
    i < |claims| && forall j :: i < j < |claims| ==> claims[j].job != claims[i].job
  }

  /** After a sweep the Hive has each job running, queued or failed, as the last claim of it went, if the PATCH that
      said so took effect; a job that failed only because its first PATCH raised after taking effect is running; and a
      job not claimed is as it was. */
  ghost predicate HiveAgrees(before: map<string, Status>, after: map<string, Status>, claims: seq<Claim>, w: World) {
    && (forall i :: 0 <= i < |claims| && IsLast(claims, i) && w.told(claims[i].job, i) ==>
        && claims[i].job in after
        && (claims[i].fate.Enqueued? ==> after[claims[i].job] == Running)
        && (claims[i].fate.Released? ==> after[claims[i].job] == Queued)
        && (claims[i].fate.FailedOver? ==> after[claims[i].job] == Failed))
    && (forall i :: (0 <= i < |claims| && IsLast(claims, i) && !w.told(claims[i].job, i)
                     && claims[i].fate.FailedOver? && w.trouble(claims[i].job, i) == AtStatus(true)
                     ==> claims[i].job in after && after[claims[i].job] == Running))
    && (forall job :: (forall i :: 0 <= i < |claims| ==> claims[i].job != job) ==>
        (job in after <==> job in before) && (job in before ==> after[job] == before[job]))
  }

  lemma HiveAgreesAfter(status: map<string, Status>, claims: seq<Claim>, w: World)
    ensures HiveAgrees(status, Reported(status, claims, w), claims, w)
  {
    forall i | 0 <= i < |claims| && IsLast(claims, i) && ToldAt(claims, i, w).Some?
      ensures claims[i].job in Reported(status, claims, w)
        && Reported(status, claims, w)[claims[i].job] == ToldAt(claims, i, w).value
    {
      HiveHasLastPatch(status, claims, w, claims[i].job, i + 1);
    }
    forall job | forall i :: 0 <= i < |claims| ==> claims[i].job != job
      ensures var after := Reported(status, claims, w);
        (job in after <==> job in status) && (job in status ==> after[job] == status[job])
    {
      HiveHasLastPatch(status, claims, w, job, 0);
    }
  }

  /** A claimed job is released if the node cannot do it, enqueued if nothing went wrong, and failed otherwise. */
  ghost predicate FatesAgree(claims: seq<Claim>, w: World) {
    forall i :: 0 <= i < |claims| ==>
      && (claims[i].fate.Released? <==> !w.offload(claims[i].job, i))
      && (claims[i].fate.Enqueued? <==> w.offload(claims[i].job, i) && w.trouble(claims[i].job, i) == Smooth)
  }

  /** Claim `i` leaves its job in the bucket: it is enqueued, or failed once its object was there. */
  ghost predicate LeavesAt(claims: seq<Claim>, w: World, i: nat, job: string) {
    && i < |claims| && claims[i].job == job
    && (claims[i].fate.Enqueued?
        || (claims[i].fate.FailedOver?
            && (w.trouble(job, i) == AtPending(true) || w.trouble(job, i) == AtStatus(true)
                || w.trouble(job, i) == AtStatus(false))))
  }

  ghost predicate BucketAgrees(before: set<string>, after: set<string>, claims: seq<Claim>, w: World) {
    forall job :: job in after <==> job in before || exists i :: LeavesAt(claims, w, i, job)
  }

  ghost function EnqueuedAt(claims: seq<Claim>): set<nat> {
    set i: nat | i < |claims| && claims[i].fate.Enqueued?
  }

  lemma {:induction false} CountIsCardinality(claims: seq<Claim>)
    ensures CountEnqueued(claims) == |EnqueuedAt(claims)|
  {
    if claims != [] {
      var front := claims[..|claims| - 1];
      CountIsCardinality(front);
      assert EnqueuedAt(claims) == EnqueuedAt(front)
        + if claims[|claims| - 1].fate.Enqueued? then {|claims| - 1} else {};
    }
  }

  lemma {:induction false} BucketAgreesAfter(pending: set<string>, claims: seq<Claim>, w: World)
    requires FatesAgree(claims, w)
    ensures BucketAgrees(pending, Left(pending, claims, w), claims, w)
  {
    if claims != [] {
      var n := |claims| - 1;
      BucketAgreesAfter(pending, claims[..n], w);
      forall job
        ensures job in Left(pending, claims, w) <==> job in pending || exists i :: LeavesAt(claims, w, i, job)
      {
        forall i: nat | i < n ensures LeavesAt(claims, w, i, job) <==> LeavesAt(claims[..n], w, i, job) {}
        LeftByMeans(claims, w, n);
      }
    }
  }

  lemma LeftByMeans(claims: seq<Claim>, w: World, n: nat)
    requires n < |claims| && FatesAgree(claims, w)
    ensures forall job :: LeavesAt(claims, w, n, job) <==>
      job in LeftBy(claims[n].job, claims[n].fate, w.trouble(claims[n].job, n))
  {
  }

  lemma Snoc(claims: seq<Claim>, c: Claim, w: World, status: map<string, Status>, pending: set<string>)
    ensures Left(pending, claims + [c], w) == Left(pending, claims, w)
      + LeftBy(c.job, c.fate, w.trouble(c.job, |claims|))
    ensures CountEnqueued(claims + [c]) == CountEnqueued(claims) + if c.fate.Enqueued? then 1 else 0
    ensures Reported(status, claims + [c], w) ==
      Put(Reported(status, claims, w), c.job, Told(c, w.trouble(c.job, |claims|), w.told(c.job, |claims|)))
  {
    assert (claims + [c])[..|claims|] == claims;
  }

  /** Midway: whatever the Hive may offer again was only released. */
  ghost predicate SoFar(claims: seq<Claim>, universe: set<string>, open: set<string>, w: World) {
    && Fated(claims, universe, w) && Strict(claims) && Reoffered(claims, w) && open <= universe
    && open !! Picked(claims, false)
    && forall i :: 0 <= i < |claims| && claims[i].job in open ==> w.told(claims[i].job, i)
  }

  /** One more claim, of a job that is not released a second time. */
  lemma ClaimNew(claims: seq<Claim>, universe: set<string>, open: set<string>, w: World, job: string)
    requires SoFar(claims, universe, open, w) && job in open
    requires var f := FateOf(job, |claims|, w); f.Released? ==> job !in Picked(claims, true)
    ensures
      var f := FateOf(job, |claims|, w);
      SoFar(claims + [Claim(job, f)], universe, Still(open, job, f, w.told(job, |claims|)), w)
  {
    var f := FateOf(job, |claims|, w);
    var all := claims + [Claim(job, f)];
    PickedSnoc(claims, Claim(job, f), false);
    forall i | 0 <= i < |claims| && claims[i].job == job ensures claims[i].fate.Released? && !f.Released? {
      assert claims[i].job in Picked(claims, claims[i].fate.Released?);
    }
  }

  /** What the Hive may offer after a claim: a released job only if it was told so. */
  function Still(open: set<string>, job: string, f: Fate, told: bool): set<string> {
    if f.Released? && told then open else open - {job}
  }

  lemma ClaimAgain(claims: seq<Claim>, universe: set<string>, open: set<string>, w: World, job: string)
    requires SoFar(claims, universe, open, w) && job in open
    requires FateOf(job, |claims|, w).Released? && job in Picked(claims, true)
    ensures
      var all := claims + [Claim(job, Released)];
      SweepOK(all, universe, w) && EndsOnRepeat(all) && !Strict(all)
  {
    var all := claims + [Claim(job, Released)];
    assert all[..|all| - 1] == claims;
    var i :| 0 <= i < |claims| && claims[i].fate.Released? && claims[i].job == job;
    assert all[i].job == all[|claims|].job && all[|claims|].fate.Released?;
  }

  /** Whatever the Hive offers next, nothing was claimed of it but releases. */
  lemma FewerOpen(claims: seq<Claim>, universe: set<string>, open: set<string>, fewer: set<string>, w: World)
    requires SoFar(claims, universe, open, w) && fewer <= open
    ensures SoFar(claims, universe, fewer, w)
  {
  }

  /** All the books after one more claim. */
  lemma Booked(claims: seq<Claim>, c: Claim, w: World, status: map<string, Status>, pending: set<string>)
    ensures
      var all := claims + [c];
      && Left(pending, all, w) == Left(pending, claims, w) + LeftBy(c.job, c.fate, w.trouble(c.job, |claims|))
      && CountEnqueued(all) == CountEnqueued(claims) + (if c.fate.Enqueued? then 1 else 0)
      && Reported(status, all, w) ==
           Put(Reported(status, claims, w), c.job, Told(c, w.trouble(c.job, |claims|), w.told(c.job, |claims|)))
      && Picked(all, true) == Picked(claims, true) + (if c.fate.Released? then {c.job} else {})
      && Picked(all, false) == Picked(claims, false) + if c.fate.Released? then {} else {c.job}
  {
    Snoc(claims, c, w, status, pending);
    PickedSnoc(claims, c, true);
    PickedSnoc(claims, c, false);
  }

  /** Deal with one claimed job that the node can do. */
  method Take(hive: Hive, bucket: Bucket, c: Claim, t: Trouble, takesEffect: bool) returns (ok: bool)
    requires c.fate == (if t.Smooth? then Enqueued else FailedOver)
    modifies hive, bucket
    ensures hive.open == old(hive.open) && hive.status == Put(old(hive.status), c.job, Told(c, t, takesEffect))
    ensures ok <==> c.fate.Enqueued?
    ensures bucket.pending == old(bucket.pending) + LeftBy(c.job, c.fate, t)
    ensures old(bucket.pending) <= old(bucket.claimants) ==> bucket.pending <= bucket.claimants
  {
    ok := bucket.Offload(c.job, t);
    if ok && t.AtStatus? {
      hive.PatchStatus(c.job, Running, t.landed);
      ok := false;
    }
    hive.PatchStatus(c.job, if ok then Running else Failed, takesEffect);
  }

  /** The claims after a release, of a job that was not released before, or that was. */
  lemma AfterRelease(claims: seq<Claim>, universe: set<string>, open: set<string>, w: World, job: string)
    requires SoFar(claims, universe, open + {job}, w) && job !in open && !w.offload(job, |claims|)
    ensures
      var all := claims + [Claim(job, Released)];
      if job in Picked(claims, true) then SweepOK(all, universe, w) && !Strict(all)
      else SoFar(all, universe, if w.told(job, |claims|) then open + {job} else open, w)
  {
    if job in Picked(claims, true) {
      ClaimAgain(claims, universe, open + {job}, w, job);
    } else {
      ClaimNew(claims, universe, open + {job}, w, job);
      assert open + {job} - {job} == open;
    }
  }

  /** Give one claimed job back; true if that is for the second time. */
  method ReleaseTurn(hive: Hive, w: World, job: string, at: nat, released: set<string>, ghost claims: seq<Claim>,
                     ghost universe: set<string>, ghost status: map<string, Status>, ghost pending: set<string>)
      returns (again: bool)
    requires SoFar(claims, universe, hive.open + {job}, w) && job !in hive.open
    requires at == |claims| && released == Picked(claims, true) && !w.offload(job, at)
    requires hive.status == Reported(status, claims, w)
    modifies hive
    ensures
      var all := claims + [Claim(job, FateOf(job, at, w))];
      && hive.status == Reported(status, all, w) && Left(pending, all, w) == Left(pending, claims, w)
      && CountEnqueued(all) == CountEnqueued(claims)
      && again == (job in released)
      && (if again then SweepOK(all, universe, w) && !Strict(all) else SoFar(all, universe, hive.open, w))
      && Picked(all, true) == released + {job} && Picked(all, false) == Picked(claims, false)
  {
    Booked(claims, Claim(job, Released), w, status, pending);
    AfterRelease(claims, universe, hive.open, w, job);
    again := job in released;
    hive.PatchStatus(job, Queued, w.told(job, at));
  }

  /** Offload one claimed job, or fail it. */
  method TakeTurn(hive: Hive, bucket: Bucket, w: World, job: string, at: nat, ghost claims: seq<Claim>,
                  ghost universe: set<string>, ghost status: map<string, Status>, ghost pending: set<string>)
      returns (ok: bool)
    requires SoFar(claims, universe, hive.open + {job}, w) && job !in hive.open
    requires at == |claims| && w.offload(job, at) && hive.status == Reported(status, claims, w)
    requires bucket.pending == Left(pending, claims, w) && bucket.pending <= bucket.claimants
    modifies hive, bucket
    ensures
      var all := claims + [Claim(job, FateOf(job, at, w))];
      && SoFar(all, universe, hive.open, w) && hive.status == Reported(status, all, w)
      && bucket.pending == Left(pending, all, w) && bucket.pending <= bucket.claimants
      && CountEnqueued(all) == CountEnqueued(claims) + (if ok then 1 else 0)
      && Picked(all, true) == Picked(claims, true) && Picked(all, false) == Picked(claims, false) + {job}
  {
    var c := Claim(job, FateOf(job, at, w));
    Booked(claims, c, w, status, pending);
    ClaimNew(claims, universe, hive.open + {job}, w, job);
    assert hive.open + {job} - {job} == hive.open;
    ok := Take(hive, bucket, c, w.trouble(job, at), w.told(job, at));
  }

  lemma SweepAgrees(claims: seq<Claim>, universe: set<string>, w: World, status: map<string, Status>,
        pending: set<string>)
    requires Fated(claims, universe, w)
    ensures FatesAgree(claims, w) && CountEnqueued(claims) == |EnqueuedAt(claims)|
    ensures HiveAgrees(status, Reported(status, claims, w), claims, w)
    ensures BucketAgrees(pending, Left(pending, claims, w), claims, w)
  {
    CountIsCardinality(claims);
    HiveAgreesAfter(status, claims, w);
    BucketAgreesAfter(pending, claims, w);
  }

  /** Drain the hive.  Other workers take jobs at every turn; asking for one may raise, which ends the sweep. */
  method RunOnce(hive: Hive, bucket: Bucket, w: World, takes: nat -> set<string>, raises: nat -> bool)
      returns (enqueued: nat, raised: bool, ghost claims: seq<Claim>)
    requires bucket.pending <= bucket.claimants
    modifies hive, bucket
    ensures SweepOK(claims, old(hive.open), w)
    ensures if Strict(claims) then raised || hive.open == {} else !raised
    ensures enqueued == CountEnqueued(claims)
    ensures bucket.pending == Left(old(bucket.pending), claims, w) && bucket.pending <= bucket.claimants
    ensures hive.status == Reported(old(hive.status), claims, w)
    ensures FatesAgree(claims, w) && enqueued == |EnqueuedAt(claims)|
    ensures HiveAgrees(old(hive.status), hive.status, claims, w)
    ensures BucketAgrees(old(bucket.pending), bucket.pending, claims, w)
  {
    ghost var universe, status, pending := hive.open, hive.status, bucket.pending;
    enqueued, raised, claims := 0, false, [];
    var released: set<string> := {};
    var turn := 0;
    while true
      invariant SoFar(claims, universe, hive.open, w) && hive.status == Reported(status, claims, w)
      invariant turn == |claims| && released == Picked(claims, true) && enqueued == CountEnqueued(claims)
      invariant bucket.pending == Left(pending, claims, w) && bucket.pending <= bucket.claimants
      decreases universe - Picked(claims, true), universe - Picked(claims, false)
    {
      if raises(turn) {
        raised := true;
        break;
      }
      ghost var open := hive.open;
      var next := hive.ClaimNext(takes(turn));
      if next.None? {
        FewerOpen(claims, universe, open, hive.open, w);
        break;
      }
      var job, at := next.value, turn;
      turn := turn + 1;
      FewerOpen(claims, universe, open, hive.open + {job}, w);
      ghost var before := claims;
      claims := before + [Claim(job, FateOf(job, at, w))];
      if !w.offload(job, at) {
        var again := ReleaseTurn(hive, w, job, at, released, before, universe, status, pending);
        if again { break; }
        released := released + {job};
      } else {
        var ok := TakeTurn(hive, bucket, w, job, at, before, universe, status, pending);
        if ok { enqueued := enqueued + 1; }
      }
    }
    SweepAgrees(claims, universe, w, status, pending);
  }
}
