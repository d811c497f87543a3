/** Exactly when no patch of many jobs is lost, which names keep jobs apart, and what holds of jobs that share. */
module ReviewManyTheorems {
  import opened Options
  import opened ResultCap
  import opened ReviewResults
  import opened ReviewProtocol
  import opened ReviewSafety
  import opened ReviewMany
  import opened ReviewManySafety
  import opened ReviewManyLosses
  import opened BranchName
  import opened Dicts

  // ---- No patch is lost -------------------------------------------------------------

  /** The landed result fits, or nobody lands another patch on the branch; and the saved result fits, or one reconciler
      at a time works on the job, nobody else has its file, and no late PATCH can name the file in vain. */
  ghost predicate HasShelter(jobs: Jobs, rules: Rules, id: string)
    requires id in jobs
  {
    var job := jobs[id];
    && (CanLand(job) ==> OwnBranch(jobs, id) || Fits(LandedResult(job, ZEROS)))
    && (|| Fits(SavedResult(job, LONGEST))
        || (rules.solo && OwnFile(jobs, id)
            && (rules.prompt || (!CanLand(job) && !Fits(UnlandedResult(job, ""))))))
  }

  /** If the result does not fit with an empty landing error, it fits with none. */
  lemma ShortestErrorDecides(job: Job)
    ensures Fits(UnlandedResult(job, "")) <==> exists err :: Fits(UnlandedResult(job, err))
  {
    forall err ensures Fits(UnlandedResult(job, err)) ==> Fits(UnlandedResult(job, "")) {
      var d := Put(Base(job), "landing", Str("failed"));
      PutNoLarger(d, d, "landing_error", Str(Clip("")), Str(Clip(err)));
      NoLargerFits(UnlandedResult(job, ""), UnlandedResult(job, err));
    }
  }

  lemma ShelterIsSheltered(jobs: Jobs, rules: Rules, id: string)
    requires id in jobs && HasShelter(jobs, rules, id)
    ensures Sheltered(ConfigOf(jobs[id], rules.solo), rules, ShelterOf(jobs, id))
  {
    ShortestErrorDecides(jobs[id]);
  }

  /** Without shelter some run loses the patch. */
  lemma UnshelteredPatchIsLost(jobs: Jobs, rules: Rules, id: string) returns (deeds: seq<Deed>)
    requires id in jobs && HasPatch(jobs[id]) && !HasShelter(jobs, rules, id)
    ensures RunHashed(deeds) && !PatchIsSafe(jobs[id], View(jobs, DoAll(jobs, rules, deeds), id).w)
  {
    var job := jobs[id];
    if CanLand(job) && !OwnBranch(jobs, id) && !Fits(LandedResult(job, ZEROS)) {
      var other :| SharesBranch(jobs, id, other) && Patch(jobs[other]) != Patch(job);
      deeds := SharedBranchLosesPatch(jobs, rules, id, other);
    } else if !rules.solo {
      deeds := OverlapLosesPatch(jobs, rules, id, LONGEST);
    } else if !OwnFile(jobs, id) {
      var other :| SharesFile(jobs, id, other);
      deeds := SharedFileLosesPatch(jobs, rules, id, other, LONGEST, SHORT);
    } else {
      deeds := LatePatchLosesPatch(jobs, rules, id, LONGEST);
    }
  }

  /** Among any number of jobs, under either rule for reconcilers and for PATCHes, no run at all loses a job's patch,
      exactly when the job has shelter. */
  lemma NothingIsLostExactlyWhen(jobs: Jobs, rules: Rules, id: string)
    requires id in jobs && HasPatch(jobs[id])
    ensures (forall deeds :: RunHashed(deeds) ==> PatchIsSafe(jobs[id], View(jobs, DoAll(jobs, rules, deeds), id).w))
       <==> HasShelter(jobs, rules, id)
  {
    if HasShelter(jobs, rules, id) {
      ShelterIsSheltered(jobs, rules, id);
      forall deeds | RunHashed(deeds) ensures PatchIsSafe(jobs[id], View(jobs, DoAll(jobs, rules, deeds), id).w) {
        ShelteredPatchIsSafe(jobs, rules, deeds, id);
      }
    } else {
      var deeds := UnshelteredPatchIsLost(jobs, rules, id);
    }
  }

  // ---- Names --------------------------------------------------------------------------

  /** Branches and orphan files are named after the ids. */
  ghost predicate Named(jobs: Jobs, hash: string -> string, dir: string) {
    forall id :: id in jobs ==>
      && jobs[id].branch == (match BranchForJob(id, hash) case Some(b) => b case None => "")
      && jobs[id].path == dir + OrphanName(id)
  }

  /** Jobs share a file exactly when their ids are sanitized alike, or to nothing and "unknown". */
  lemma SharesFileExactlyWhen(jobs: Jobs, hash: string -> string, dir: string, id: string, other: string)
    requires Named(jobs, hash, dir) && id in jobs && other in jobs && id != other && HasPatch(jobs[other])
    ensures SharesFile(jobs, id, other) <==>
      || Sanitized(id) == Sanitized(other)
      || (Sanitized(id) in {"", "unknown"} && Sanitized(other) in {"", "unknown"})
  {
    OrphanNamesCollideExactlyWhen(id, other);
    var a, b := OrphanName(id), OrphanName(other);
    assert (dir + a)[|dir|..] == a && (dir + b)[|dir|..] == b;
  }

  /** Ids that the sanitizer leaves alone keep their jobs apart. */
  lemma UnalteredIdsAreApart(jobs: Jobs, hash: string -> string, dir: string, id: string)
    requires Named(jobs, hash, dir) && id in jobs && forall j :: j in jobs ==> Unaltered(j)
    ensures Apart(jobs, id) && OwnBranch(jobs, id) && OwnFile(jobs, id)
  {
    forall other ensures !SharesBranch(jobs, id, other) && !SharesFile(jobs, id, other) {
      if other in jobs && other != id {
        UnalteredNamesAreDistinct(id, other, hash);
        if HasPatch(jobs[other]) { SharesFileExactlyWhen(jobs, hash, dir, id, other); }
      }
    }
  }

  /** Among jobs with such ids, one reconciler at a time on each, and prompt PATCHes: no review patch is ever lost. */
  lemma NoPatchOfManyIsLost(jobs: Jobs, hash: string -> string, dir: string, rules: Rules, deeds: seq<Deed>, id: string)
    requires Named(jobs, hash, dir) && (forall j :: j in jobs ==> Unaltered(j))
    requires id in jobs && HasPatch(jobs[id]) && rules.solo && rules.prompt && RunHashed(deeds)
    ensures PatchIsSafe(jobs[id], View(jobs, DoAll(jobs, rules, deeds), id).w)
  {
    UnalteredIdsAreApart(jobs, hash, dir, id);
    NothingIsLostExactlyWhen(jobs, rules, id);
  }
}
