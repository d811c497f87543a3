/** Landings and reports of many jobs that may share branches and files. */
module ReviewManyLanding {
  import opened Options
  import opened ResultCap
  import opened ReviewResults
  import opened ReviewProtocol
  import opened ReviewSafety
  import opened ReviewMany
  import opened ReviewManySafety
  import opened ReviewManyLosses

  // ---- A branch is written once, by whomever -------------------------------------------

  /** What a job's log says of its branch agrees with what is there. */
  ghost predicate LogAgrees(w: World) {
    forall i :: 0 <= i < |w.log| && (w.log[i].BranchWritten? || w.log[i].LandReturned?) ==>
      w.remote.Some? && w.log[i].id == w.remote.value.id
  }

  /** Only the step that makes the branch says that it was written. */
  ghost predicate SaysWhatItWrote(patch: Json, w: World, w': World) {
    && w.log <= w'.log
    && (forall k :: |w.log| <= k < |w'.log| && w'.log[k].BranchWritten? ==> w.remote.None? && k == |w.log|)
    && (w'.remote != w.remote ==>
        && w.remote.None? && w'.remote.Some? && w'.remote.value.patch == patch
        && |w.log| < |w'.log| && w'.log[|w.log|].BranchWritten? && w'.log[|w.log|].id == w'.remote.value.id)
  }

  lemma PushAgrees(c: Config, w: World, id: string, r: nat, i: Input)
    requires LogAgrees(w)
    ensures LogAgrees(PushStep(c, w, r, id, i).0) && SaysWhatItWrote(c.patch, w, PushStep(c, w, r, id, i).0)
  {
  }

  lemma MoveAgrees(c: Config, w: World, pc: Pc, r: nat, i: Input)
    requires LogAgrees(w)
    ensures LogAgrees(Move(c, w, pc, r, i).0) && SaysWhatItWrote(c.patch, w, Move(c, w, pc, r, i).0)
  {
    if pc.AtPush? { PushAgrees(c, w, pc.id, r, i); }
  }

  lemma NextAgrees(c: Config, st: State, a: Action)
    requires LogAgrees(st.w)
    ensures LogAgrees(Next(c, st, a).w) && SaysWhatItWrote(c.patch, st.w, Next(c, st, a).w)
  {
    if a.Step? { MoveAgrees(c, st.w, PcOf(st, a.r), a.r, a.i); }
  }

  ghost predicate Writes(f: Fleet, id: string, i: nat) {
    i < |OwnOf(f, id).log| && OwnOf(f, id).log[i].BranchWritten?
  }

  ghost predicate WritesSame(jobs: Jobs, f: Fleet, a: string, i: nat, b: string, j: nat) {
    a in jobs && b in jobs && PlaceOf(jobs[a]) == PlaceOf(jobs[b]) && Writes(f, a, i) && Writes(f, b, j)
  }

  /** A job with a patch that can land wrote what is at this place, and said so. */
  ghost predicate Wrote(jobs: Jobs, f: Fleet, p: Place, id: string) {
    && id in jobs && PlaceOf(jobs[id]) == p && HasPatch(jobs[id]) && CanLand(jobs[id]) && p in f.branches
    && f.branches[p].patch == Patch(jobs[id]) && WasWritten(OwnOf(f, id).log, f.branches[p].id)
  }

  /** Of all jobs together: every branch was written once, by one of those whose branch it is, and whatever any of
      them landed is its commit. */
  ghost predicate LandedOnceEach(jobs: Jobs, f: Fleet) {
    && (forall id :: id in jobs ==> LogAgrees(View(jobs, f, id).w))
    && (forall a, b, i: nat, j: nat :: WritesSame(jobs, f, a, i, b, j) ==> a == b && i == j)
    && (forall p :: p in f.branches ==> exists id :: Wrote(jobs, f, p, id))
  }

  /** What the reconcilers of one job may write back. */
  ghost predicate MayWrite(jobs: Jobs, f: Fleet, id: string, st: State)
    requires id in jobs
  {
    var w := View(jobs, f, id).w;
    && KeepsShared(w, st.w) && LogAgrees(st.w) && SaysWhatItWrote(Patch(jobs[id]), w, st.w)
    && (st.w.remote != w.remote ==> HasPatch(jobs[id]) && CanLand(jobs[id]))
  }

  lemma LogsStillAgree(jobs: Jobs, f: Fleet, id: string, st: State, late: set<(HiveStatus, Report)>, other: string)
    requires id in jobs && other in jobs && MayWrite(jobs, f, id, st) && LogAgrees(View(jobs, f, other).w)
    ensures LogAgrees(View(jobs, Written(jobs, f, id, st, late), other).w)
  {
    if other == id {
      WrittenIsSeen(jobs, f, id, st, late);
    } else {
      WrittenElsewhere(jobs, f, other, id, st, late);
    }
  }

  /** A write in the new log was in the old one, or made the branch just now. */
  lemma WriteIsOldOrFirst(jobs: Jobs, f: Fleet, id: string, st: State, late: set<(HiveStatus, Report)>, a: string,
        i: nat)
    requires id in jobs && MayWrite(jobs, f, id, st) && Writes(Written(jobs, f, id, st, late), a, i)
    ensures
      || Writes(f, a, i)
      || (a == id && View(jobs, f, id).w.remote.None? && i == |OwnOf(f, id).log|)
  {
    if a == id && i < |OwnOf(f, id).log| { assert OwnOf(f, id).log[i] == st.w.log[i]; }
  }

  lemma NoWritesYet(jobs: Jobs, f: Fleet, id: string, b: string, j: nat)
    requires id in jobs && b in jobs && PlaceOf(jobs[b]) == PlaceOf(jobs[id])
    requires View(jobs, f, id).w.remote.None? && LogAgrees(View(jobs, f, b).w)
    ensures !Writes(f, b, j)
  {
    assert View(jobs, f, b).w.remote.None?;
  }

  lemma WritesStayOnce(jobs: Jobs, f: Fleet, id: string, st: State, late: set<(HiveStatus, Report)>, a: string, i: nat,
        b: string, j: nat)
    requires id in jobs && LandedOnceEach(jobs, f) && MayWrite(jobs, f, id, st)
    requires WritesSame(jobs, Written(jobs, f, id, st, late), a, i, b, j)
    ensures a == b && i == j
  {
    WriteIsOldOrFirst(jobs, f, id, st, late, a, i);
    WriteIsOldOrFirst(jobs, f, id, st, late, b, j);
    if Writes(f, a, i) && Writes(f, b, j) {
      assert WritesSame(jobs, f, a, i, b, j);
    } else if Writes(f, a, i) {
      NoWritesYet(jobs, f, id, a, i);
    } else if Writes(f, b, j) {
      NoWritesYet(jobs, f, id, b, j);
    }
  }

  lemma WasWrittenStays(log: seq<Event>, log': seq<Event>, id: string)
    requires log <= log' && WasWritten(log, id)
    ensures WasWritten(log', id)
  {
    var i :| 0 <= i < |log| && log[i].BranchWritten? && log[i].id == id;
    assert log'[i] == log[i];
  }

  lemma ItWrote(jobs: Jobs, f: Fleet, id: string, st: State, late: set<(HiveStatus, Report)>)
    requires id in jobs && MayWrite(jobs, f, id, st) && st.w.remote != View(jobs, f, id).w.remote
    ensures Wrote(jobs, Written(jobs, f, id, st, late), PlaceOf(jobs[id]), id)
  {
    assert st.w.log[|View(jobs, f, id).w.log|].BranchWritten?;
  }

  lemma ItWroteBefore(jobs: Jobs, f: Fleet, id: string, st: State, late: set<(HiveStatus, Report)>, p: Place,
        writer: string)
    requires id in jobs && MayWrite(jobs, f, id, st) && Wrote(jobs, f, p, writer)
    requires p == PlaceOf(jobs[id]) ==> st.w.remote == View(jobs, f, id).w.remote
    ensures Wrote(jobs, Written(jobs, f, id, st, late), p, writer)
  {
    if writer == id { WasWrittenStays(OwnOf(f, id).log, st.w.log, f.branches[p].id); }
  }

  lemma SomebodyWrote(jobs: Jobs, f: Fleet, id: string, st: State, late: set<(HiveStatus, Report)>, p: Place)
      returns (writer: string)
    requires id in jobs && LandedOnceEach(jobs, f) && MayWrite(jobs, f, id, st)
    requires p in Written(jobs, f, id, st, late).branches
    ensures Wrote(jobs, Written(jobs, f, id, st, late), p, writer)
  {
    if p == PlaceOf(jobs[id]) && st.w.remote != View(jobs, f, id).w.remote {
      writer := id;
      ItWrote(jobs, f, id, st, late);
    } else {
      assert p in f.branches;
      writer :| Wrote(jobs, f, p, writer);
      ItWroteBefore(jobs, f, id, st, late, p, writer);
    }
  }

  lemma WrittenKeepsLandedOnce(jobs: Jobs, f: Fleet, id: string, st: State, late: set<(HiveStatus, Report)>)
    requires id in jobs && LandedOnceEach(jobs, f) && MayWrite(jobs, f, id, st)
    ensures LandedOnceEach(jobs, Written(jobs, f, id, st, late))
  {
    var f' := Written(jobs, f, id, st, late);
    forall other | other in jobs ensures LogAgrees(View(jobs, f', other).w) {
      LogsStillAgree(jobs, f, id, st, late, other);
    }
    forall a, b, i: nat, j: nat | WritesSame(jobs, f', a, i, b, j) ensures a == b && i == j {
      WritesStayOnce(jobs, f, id, st, late, a, i, b, j);
    }
    forall p | p in f'.branches ensures exists writer :: Wrote(jobs, f', p, writer) {
      var writer := SomebodyWrote(jobs, f, id, st, late, p);
    }
  }

  lemma ActedKeepsLandedOnce(jobs: Jobs, rules: Rules, f: Fleet, id: string, a: Action)
    requires id in jobs && Lawful(jobs, f) && LandedOnceEach(jobs, f)
    ensures LandedOnceEach(jobs, Acted(jobs, rules, f, id, a))
  {
    var c, v := ConfigOf(jobs[id], rules.solo), View(jobs, f, id);
    PatchedMeans(jobs[id]);
    NextMayChange(c, v, a);
    NextAgrees(c, v, a);
    WrittenKeepsLandedOnce(jobs, f, id, Next(c, v, a), OwnOf(f, id).late + DelayedBy(rules, v, a));
  }

  lemma ArrivalKeepsLandedOnce(jobs: Jobs, rules: Rules, f: Fleet, id: string, x: (HiveStatus, Report))
    requires LandedOnceEach(jobs, f)
    ensures LandedOnceEach(jobs, Do(jobs, rules, f, Arrive(id, x.0, x.1)))
  {
    var f' := Do(jobs, rules, f, Arrive(id, x.0, x.1));
    assert forall o :: OwnOf(f', o).log == OwnOf(f, o).log;
    forall other | other in jobs ensures LogAgrees(View(jobs, f', other).w) {
      assert LogAgrees(View(jobs, f, other).w);
    }
    forall a, b, i: nat, j: nat | WritesSame(jobs, f', a, i, b, j) ensures a == b && i == j {
      assert WritesSame(jobs, f, a, i, b, j);
    }
    forall p | p in f'.branches ensures exists writer :: Wrote(jobs, f', p, writer) {
      var writer :| Wrote(jobs, f, p, writer);
      assert Wrote(jobs, f', p, writer);
    }
  }

  /** In every run of many jobs, whichever share a branch, each branch is written at most once, by a job whose branch it
      is, with its patch, and every landing of every job returns the commit that is there. */
  lemma {:induction false} EveryBranchIsWrittenOnce(jobs: Jobs, rules: Rules, deeds: seq<Deed>)
    ensures LandedOnceEach(jobs, DoAll(jobs, rules, deeds))
  {
    if deeds != [] {
      var front, d := deeds[..|deeds| - 1], deeds[|deeds| - 1];
      EveryBranchIsWrittenOnce(jobs, rules, front);
      AlwaysLawful(jobs, rules, front);
      if d.id in jobs {
        match d
        case Act(id, a) => ActedKeepsLandedOnce(jobs, rules, DoAll(jobs, rules, front), id, a);
        case Arrive(id, status, report) =>
          ArrivalKeepsLandedOnce(jobs, rules, DoAll(jobs, rules, front), id, (status, report));
      }
    }
  }

  /** What lands for a job is its own patch in every run, exactly when nobody lands another patch on its branch. */
  lemma LandsItsOwnExactlyWhen(jobs: Jobs, rules: Rules, id: string)
    requires id in jobs && HasPatch(jobs[id]) && CanLand(jobs[id])
    ensures
      (forall deeds :: RunHashed(deeds) ==>
        var remote := View(jobs, DoAll(jobs, rules, deeds), id).w.remote;
        remote.Some? ==> remote.value.patch == Patch(jobs[id]))
      <==> OwnBranch(jobs, id)
  {
    if OwnBranch(jobs, id) {
      forall deeds | RunHashed(deeds)
        ensures
          var remote := View(jobs, DoAll(jobs, rules, deeds), id).w.remote;
          remote.Some? ==> remote.value.patch == Patch(jobs[id])
      {
        var f := DoAll(jobs, rules, deeds);
        EveryBranchIsWrittenOnce(jobs, rules, deeds);
        if PlaceOf(jobs[id]) in f.branches {
          var writer :| Wrote(jobs, f, PlaceOf(jobs[id]), writer);
          assert writer != id ==> SharesBranch(jobs, id, writer);
        }
      }
    } else {
      var other :| SharesBranch(jobs, id, other) && Patch(jobs[other]) != Patch(jobs[id]);
      var deeds, f := FirstHasLanded(jobs, rules, other, ZEROS);
      assert View(jobs, f, id).w.remote == Some(Commit(ZEROS, Patch(jobs[other])));
    }
  }

  // ---- What needs nothing of its own ------------------------------------------------------

  /** Deletes follow acknowledgements, and every report that is made, held or under way is true of its job. */
  ghost predicate Honest(c: Config, st: State, late: set<(HiveStatus, Report)>) {
    && PurgedAfterAck(st.w) && ToldTruly(c, st.w)
    && (forall r :: r in st.recs ==> AckSeen(st.w.log, st.recs[r], r) && PcTruthful(c, st.w.log, st.recs[r]))
    && (forall x :: x in late ==> Truthful(c, st.w.log, x.0, x.1))
  }

  lemma LogGrows(c: Config, w: World, pc: Pc, r: nat, i: Input)
    requires PcTruthful(c, w.log, pc) && ToldTruly(c, w) && PurgedAfterAck(w) && AckSeen(w.log, pc, r)
    ensures
      var (w', pc') := Move(c, w, pc, r, i);
      && w.log <= w'.log && PurgedAfterAck(w') && ToldTruly(c, w')
      && AckSeen(w'.log, pc', r) && PcTruthful(c, w'.log, pc')
  {
    MoveKeepsPurged(c, w, pc, r, i);
    MoveKeepsTruth(c, w, pc, r, i);
  }

  lemma TruthStays(c: Config, log: seq<Event>, log': seq<Event>, pc: Pc, r: nat)
    requires log <= log' && AckSeen(log, pc, r) && PcTruthful(c, log, pc)
    ensures AckSeen(log', pc, r) && PcTruthful(c, log', pc)
  {
    RejectionStays(log, log');
  }

  lemma NextIsHonest(c: Config, rules: Rules, st: State, late: set<(HiveStatus, Report)>, a: Action)
    requires Honest(c, st, late)
    ensures Honest(c, Next(c, st, a), late + DelayedBy(rules, st, a))
  {
    if a.Step? {
      var pc := PcOf(st, a.r);
      var moved := Move(c, st.w, pc, a.r, a.i);
      LogGrows(c, st.w, pc, a.r, a.i);
      RejectionStays(st.w.log, moved.0.log);
      forall r | r in st.recs ensures AckSeen(moved.0.log, st.recs[r], r) && PcTruthful(c, moved.0.log, st.recs[r]) {
        TruthStays(c, st.w.log, moved.0.log, st.recs[r], r);
      }
    }
  }

  lemma SameIsHonest(c: Config, st: State, st': State, late: set<(HiveStatus, Report)>)
    requires Honest(c, st, late) && st' == st.(w := st.w.(remote := st'.w.remote, orphan := st'.w.orphan))
    ensures Honest(c, st', late)
  {
  }

  lemma ArrivalIsHonest(c: Config, st: State, late: set<(HiveStatus, Report)>, x: (HiveStatus, Report))
    requires Honest(c, st, late) && x in late
    ensures Honest(c, st.(w := st.w.(stored := Some(x))), late - {x})
  {
  }

  lemma ArrivedInFleet(jobs: Jobs, rules: Rules, f: Fleet, id: string, x: (HiveStatus, Report), c: Config)
    requires id in jobs && Honest(c, View(jobs, f, id), OwnOf(f, id).late)
    ensures
      var f' := Do(jobs, rules, f, Arrive(id, x.0, x.1));
      Honest(c, View(jobs, f', id), OwnOf(f', id).late)
  {
    var v, late, f' := View(jobs, f, id), OwnOf(f, id).late, Do(jobs, rules, f, Arrive(id, x.0, x.1));
    if x in late {
      ArrivalIsHonest(c, v, late, x);
      assert View(jobs, f', id) == v.(w := v.w.(stored := Some(x))) && OwnOf(f', id).late == late - {x};
    }
  }

  lemma DeedIsHonest(jobs: Jobs, rules: Rules, f: Fleet, d: Deed, id: string, c: Config)
    requires id in jobs && Lawful(jobs, f) && c == ConfigOf(jobs[id], rules.solo)
    requires Honest(c, View(jobs, f, id), OwnOf(f, id).late)
    ensures var f' := Do(jobs, rules, f, d); Honest(c, View(jobs, f', id), OwnOf(f', id).late)
  {
    var v, late := View(jobs, f, id), OwnOf(f, id).late;
    if d.id != id {
      OthersDeed(jobs, rules, f, id, d);
      SameIsHonest(c, v, View(jobs, Do(jobs, rules, f, d), id), late);
    } else {
      match d
      case Act(_, a) =>
        ActedIsNext(jobs, rules, f, id, a);
        NextIsHonest(c, rules, v, late, a);
      case Arrive(_, status, report) => ArrivedInFleet(jobs, rules, f, id, (status, report), c);
    }
  }

  /** In every run of many jobs, whatever they share and however late a PATCH arrives, nothing of a job is deleted
      before the Hive acknowledged it, and the Hive is told the truth about it. */
  lemma {:induction false} EveryJobIsTreatedHonestly(jobs: Jobs, rules: Rules, deeds: seq<Deed>, id: string)
    requires id in jobs
    ensures
      var f := DoAll(jobs, rules, deeds);
      Honest(ConfigOf(jobs[id], rules.solo), View(jobs, f, id), OwnOf(f, id).late)
  {
    if deeds != [] {
      var front, d := deeds[..|deeds| - 1], deeds[|deeds| - 1];
      EveryJobIsTreatedHonestly(jobs, rules, front, id);
      AlwaysLawful(jobs, rules, front);
      DeedIsHonest(jobs, rules, DoAll(jobs, rules, front), d, id, ConfigOf(jobs[id], rules.solo));
    }
  }
}
