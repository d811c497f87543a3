/** What a reconciler reports of a job: the payload's fields, and how its patch fared. */
module ReviewResults {
  import opened Options
  import opened Text
  import opened Dicts
  import opened ResultCap

  /** The job: its opened terminal payload, the branch (empty if it has none) and the orphan path its id gives, its
      patch as text, and whether its repository may be pushed to: an https URL without credentials, and a token. */
  datatype Job = Job(payload: Dict, branch: string, path: string, patchText: string, allowed: bool)

  // ---- Reading the payload -----------------------------------------------------

  predicate ZeroNumber(text: string) {
    text == "" || text[0] == 'e' || text[0] == 'E' || (!('1' <= text[0] <= '9') && ZeroNumber(text[1..]))
  }

  /** Python's truth value of a JSON value. */
  predicate Truthy(v: Json) {
    match v
    case Null => false
    case Bool(b) => b
    case Number(text) => !ZeroNumber(text)
    case Str(s) => s != ""
    case List(items) => items != []
    case Object(fields) => fields != []
  }

  predicate IsTruthy(d: Dict, k: string) { Get(d, k).Some? && Truthy(Get(d, k).value) }

  predicate InStatus(d: Dict, s: string) { Get(d, "status") == Some(Str(s)) }

  predicate NeedsReview(c: Job) { InStatus(c.payload, "needs-review") || IsTruthy(c.payload, "needs_review") }

  /** A review with a patch that could be lost. */
  predicate HasPatch(c: Job) {
    (InStatus(c.payload, "done") || InStatus(c.payload, "needs-review")) && NeedsReview(c)
      && IsTruthy(c.payload, "patch")
  }

  function Patch(c: Job): Json {
    if Get(c.payload, "patch").Some? then Get(c.payload, "patch").value else Null
  }

  // ---- The results reported ---------------------------------------------------------

  /** The payload without its routing fields, and with the review flag. */
  function Base(c: Job): Dict {
    Put(Del(Del(c.payload, "claimant_urn"), "_claimant_token"), "needs_review", Bool(NeedsReview(c)))
  }

  function FailureResult(c: Job): Dict {
    var d := [("error", if Get(c.payload, "error").Some? then Get(c.payload, "error").value else Str("node failure"))];
    if Fits(d) then d else [("error", TOO_LARGE)]
  }

  /** The trimmed repository URL; anything but a string is refused before git is asked. */
  function RepoUrl(c: Job): string {
    match Get(c.payload, "repo")
    case Some(Str(url)) => Strip(url)
    case _ => ""
  }

  /** The lander asks git at all. */
  predicate CanLand(c: Job) {
    c.allowed && RepoUrl(c) != "" && c.branch != ""
    && match Get(c.payload, "patch") case Some(Str(text)) => Strip(text) != "" case _ => false
  }

  function LandedFields(c: Job, d: Dict, id: string): Dict {
    Put(Put(Put(d, "landed_branch", Str(c.branch)), "landed_repo", Str(RepoUrl(c))), "landed_sha", Str(id))
  }

  function LandedResult(c: Job, id: string): Dict {
    var node := if Get(c.payload, "commit_sha").Some? then Get(c.payload, "commit_sha").value else Null;
    Put(Put(Put(LandedFields(c, Base(c), id), "node_commit_sha", node), "commit_sha", Str(id)), "commits",
      List([Str(id)]))
  }

  function Clip(s: string): string { if |s| <= 500 then s else s[..500] }

  function UnlandedResult(c: Job, err: string): Dict {
    Put(Put(Base(c), "landing", Str("failed")), "landing_error", Str(Clip(err)))
  }

  function SavedResult(c: Job, err: string): Dict {
    Put(UnlandedResult(c, err), "patch_saved", Str(c.path))
  }

  // ---- As the reconciler picks them -------------------------------------------------------

  datatype Kind = UnknownStatus | NodeFailure | Finished | Unpatched | Patched

  function KindOf(c: Job): Kind {
    if InStatus(c.payload, "failed") then NodeFailure
    else if !InStatus(c.payload, "done") && !InStatus(c.payload, "needs-review") then UnknownStatus
    else if !NeedsReview(c) then Finished
    else if !IsTruthy(c.payload, "patch") then Unpatched
    else Patched
  }

  /** Which result is reported. */
  datatype Report = Failed | Plain | Landed(id: string) | Unlanded(err: string) | Saved(err: string)

  /** The result itself, as it is sent. */
  function Shown(c: Job, report: Report): Dict {
    match report
    case Failed => FailureResult(c)
    case Plain => Shrunk(Base(c))
    case Landed(id) => Shrunk(LandedResult(c, id))
    case Unlanded(err) => Shrunk(UnlandedResult(c, err))
    case Saved(err) => Shrunk(SavedResult(c, err))
  }

  // ---- What the payload says --------------------------------------------------------------

  /** The kinds, by the payload alone: its status, whether it asks for a review, and whether there is a patch. */
  lemma KindMeans(c: Job)
    ensures
      var status := Get(c.payload, "status");
      var review := status == Some(Str("needs-review")) || IsTruthy(c.payload, "needs_review");
      var patch := IsTruthy(c.payload, "patch");
      && (KindOf(c).NodeFailure? <==> status == Some(Str("failed")))
      && (KindOf(c).UnknownStatus? <==>
          status != Some(Str("failed")) && status != Some(Str("done")) && status != Some(Str("needs-review")))
      && (KindOf(c).Finished? <==> status == Some(Str("done")) && !review)
      && (KindOf(c).Unpatched? <==>
          (status == Some(Str("done")) || status == Some(Str("needs-review"))) && review && !patch)
      && (KindOf(c).Patched? <==>
          (status == Some(Str("done")) || status == Some(Str("needs-review"))) && review && patch)
  {
    assert "failed"[0] != "done"[0] && "failed"[0] != "needs-review"[0] && "done"[0] != "needs-review"[0];
  }

  ghost predicate IsBlank(s: string) { forall k :: 0 <= k < |s| ==> IsSpace(s[k]) }

  /** A patch can land if its repository may be pushed to and has a URL, the id gives a branch, and the patch is a
      text; blanks alone are neither. */
  lemma LandableMeans(c: Job)
    ensures CanLand(c) <==>
      && c.allowed && c.branch != ""
      && (exists url :: Get(c.payload, "repo") == Some(Str(url)) && !IsBlank(url))
      && (exists text :: Get(c.payload, "patch") == Some(Str(text)) && !IsBlank(text))
  {
    match Get(c.payload, "repo")
    case Some(Str(url)) =>
      BlankMeans(url);
      match Get(c.payload, "patch") {
        case Some(Str(text)) => BlankMeans(text);
        case _ =>
      }
    case _ =>
  }

  /** A number is zero if no digit but 0 stands before its exponent. */
  lemma {:induction false} ZeroMeans(text: string)
    ensures ZeroNumber(text) <==> forall k :: 0 <= k < |text| && '1' <= text[k] <= '9' ==>
      exists j :: 0 <= j < k && (text[j] == 'e' || text[j] == 'E')
  {
    if text != "" {
      var rest := text[1..];
      ZeroMeans(rest);
      if text[0] != 'e' && text[0] != 'E' && !('1' <= text[0] <= '9') {
        if forall k :: 0 <= k < |rest| && '1' <= rest[k] <= '9' ==>
          exists j :: 0 <= j < k && (rest[j] == 'e' || rest[j] == 'E')
        {
          forall k | 0 <= k < |text| && '1' <= text[k] <= '9'
            ensures exists j :: 0 <= j < k && (text[j] == 'e' || text[j] == 'E')
          {
            var j :| 0 <= j < k - 1 && (rest[j] == 'e' || rest[j] == 'E');
            assert text[j + 1] == rest[j];
          }
        } else {
          var k :| 0 <= k < |rest| && '1' <= rest[k] <= '9'
            && forall j :: 0 <= j < k ==> rest[j] != 'e' && rest[j] != 'E';
          assert text[k + 1] == rest[k];
          forall j | 0 <= j < k + 1 ensures text[j] != 'e' && text[j] != 'E' {
            if j > 0 { assert text[j] == rest[j - 1]; }
          }
        }
      }
    }
  }

  lemma OneFieldIsAtMost(k: string, s: string)
    ensures DictSize([(k, Str(s))]) <= 7 + 12 * |k| + 12 * |s|
  {
    TextIsAtMost(k);
    TextIsAtMost(s);
    var d: Dict := [(k, Str(s))];
    var whole := Object(d);
    assert d[1..] == [];
    assert FieldsSize(whole, d) == StrSize(k) + 1 + Size(Str(s)) + FieldsSize(whole, d[1..]);
  }

  /** What is reported of a failed job: its own error unless that is too large, or that the node failed. */
  lemma FailureSays(c: Job)
    ensures
      var error := Get(c.payload, "error");
      FailureResult(c) == [("error",
        if error.None? then Str("node failure")
        else if DictSize([("error", error.value)]) <= 262144 then error.value else Str("payload_too_large"))]
  {
    OneFieldIsAtMost("error", "node failure");
  }

  // ---- What the results say ------------------------------------------------------------

  /** A result carries the payload over, without who claimed the job and with a plain review flag. */
  lemma BaseGet(c: Job, k: string)
    ensures Get(Base(c), k) ==
      if k == "needs_review" then Some(Bool(NeedsReview(c)))
      else if k == "claimant_urn" || k == "_claimant_token" then None
      else Get(c.payload, k)
  {
    var d := Del(c.payload, "claimant_urn");
    GetDel(c.payload, "claimant_urn", k);
    GetDel(d, "_claimant_token", k);
    GetPut(Del(d, "_claimant_token"), "needs_review", Bool(NeedsReview(c)), k);
  }

  lemma BaseHas(c: Job)
    requires HasPatch(c)
    ensures Get(Base(c), "needs_review") == Some(Bool(true)) && Get(Base(c), "patch") == Some(Patch(c))
  {
    BaseGet(c, "needs_review");
    BaseGet(c, "patch");
  }

  /** A result of a failed landing says so, with as much of the error from its front as 500 characters hold, and where
      the patch was saved if it was; all else is as in the payload. */
  lemma FailedLandingSays(c: Job, err: string, k: string) returns (shown: string)
    ensures shown <= err && |shown| == if |err| < 500 then |err| else 500
    ensures Get(UnlandedResult(c, err), k) ==
      if k == "landing_error" then Some(Str(shown)) else if k == "landing" then Some(Str("failed")) else Get(Base(c), k)
    ensures Get(SavedResult(c, err), k) ==
      if k == "patch_saved" then Some(Str(c.path)) else Get(UnlandedResult(c, err), k)
  {
    shown := Clip(err);
    var d1 := Put(Base(c), "landing", Str("failed"));
    GetPut(Base(c), "landing", Str("failed"), k);
    GetPut(d1, "landing_error", Str(Clip(err)), k);
    GetPut(UnlandedResult(c, err), "patch_saved", Str(c.path), k);
  }

  lemma LandedFieldsGet(c: Job, d: Dict, id: string, k: string)
    ensures Get(LandedFields(c, d, id), k) ==
      if k == "landed_sha" then Some(Str(id)) else if k == "landed_repo" then Some(Str(RepoUrl(c)))
      else if k == "landed_branch" then Some(Str(c.branch)) else Get(d, k)
  {
    var d1 := Put(d, "landed_branch", Str(c.branch));
    GetPut(d, "landed_branch", Str(c.branch), k);
    GetPut(d1, "landed_repo", Str(RepoUrl(c)), k);
    GetPut(Put(d1, "landed_repo", Str(RepoUrl(c))), "landed_sha", Str(id), k);
  }

  lemma LandedResultGet(c: Job, id: string, k: string)
    ensures Get(LandedResult(c, id), k) ==
      if k == "commits" then Some(List([Str(id)])) else if k == "commit_sha" then Some(Str(id))
      else if k == "node_commit_sha"
        then Some(if Get(c.payload, "commit_sha").Some? then Get(c.payload, "commit_sha").value else Null)
      else Get(LandedFields(c, Base(c), id), k)
  {
    var node := if Get(c.payload, "commit_sha").Some? then Get(c.payload, "commit_sha").value else Null;
    var d0 := LandedFields(c, Base(c), id);
    var d1 := Put(d0, "node_commit_sha", node);
    GetPut(d0, "node_commit_sha", node, k);
    GetPut(d1, "commit_sha", Str(id), k);
    GetPut(Put(d1, "commit_sha", Str(id)), "commits", List([Str(id)]), k);
  }

  /** A landed result names the branch and the commit that is there, in the fields the hive's guards read too. */
  lemma LandedResultHas(c: Job, id: string)
    requires HasPatch(c)
    ensures
      var d := LandedResult(c, id);
      && Get(d, "needs_review") == Some(Bool(true)) && Get(d, "landed_branch") == Some(Str(c.branch))
      && Get(d, "landed_sha") == Some(Str(id))
      && Get(d, "commit_sha") == Some(Str(id)) && Get(d, "commits") == Some(List([Str(id)]))
  {
    BaseHas(c);
    LandedResultGet(c, id, "needs_review");
    LandedFieldsGet(c, Base(c), id, "needs_review");
    LandedResultGet(c, id, "landed_branch");
    LandedFieldsGet(c, Base(c), id, "landed_branch");
    LandedResultGet(c, id, "landed_sha");
    LandedFieldsGet(c, Base(c), id, "landed_sha");
    LandedResultGet(c, id, "commit_sha");
    LandedResultGet(c, id, "commits");
  }

  lemma UnlandedResultHas(c: Job, err: string)
    requires HasPatch(c)
    ensures Get(UnlandedResult(c, err), "needs_review") == Some(Bool(true))
    ensures Get(UnlandedResult(c, err), "patch") == Some(Patch(c))
    ensures Get(SavedResult(c, err), "needs_review") == Some(Bool(true))
    ensures Get(SavedResult(c, err), "patch_saved") == Some(Str(c.path))
  {
    BaseHas(c);
    var d1 := Put(Base(c), "landing", Str("failed"));
    forall k: string ensures Get(UnlandedResult(c, err), k) ==
      if k == "landing_error" then Some(Str(Clip(err))) else if k == "landing" then Some(Str("failed"))
        else Get(Base(c), k)
    {
      GetPut(Base(c), "landing", Str("failed"), k);
      GetPut(d1, "landing_error", Str(Clip(err)), k);
    }
    GetPut(UnlandedResult(c, err), "patch_saved", Str(c.path), "needs_review");
    GetPut(UnlandedResult(c, err), "patch_saved", Str(c.path), "patch_saved");
  }

  lemma SavedResultPatch(c: Job, err: string)
    requires HasPatch(c)
    ensures Get(SavedResult(c, err), "patch") == Some(Patch(c))
  {
    UnlandedResultHas(c, err);
    GetPut(UnlandedResult(c, err), "patch_saved", Str(c.path), "patch");
  }

  /** Shrinking keeps the patch exactly when the result fits as it is: the patch is the first field to go. */
  lemma PatchStaysIfItFits(d: Dict)
    ensures Get(Shrunk(d), "patch") == if Fits(d) then Get(d, "patch") else None
  {
    ShrunkIsOneOf(d, 0);
    forall n | 1 <= n <= |DROPPABLE| ensures Get(DropFields(d, n), "patch").None? {
      PatchGoesFirst(d, n);
    }
    var least := DropFields(d, |DROPPABLE|);
    assert DROPPABLE[0] == "patch";
    DroppableIsNotKept(0);
    EssentialsHaveOnlyKept(least, |KEPT|, "patch");
    GetPut(Essentials(least, |KEPT|), "error", TOO_LARGE, "patch");
  }

  lemma {:induction false} PatchGoesFirst(d: Dict, n: nat)
    requires 1 <= n <= |DROPPABLE|
    ensures Get(DropFields(d, n), "patch").None?
  {
    var before, field := DropFields(d, n - 1), DROPPABLE[n - 1];
    NotesAre();
    assert IsDropNote(field + "_dropped");
    GetPut(before, field + "_dropped", TOO_LARGE, "patch");
    GetDel(Put(before, field + "_dropped", TOO_LARGE), field, "patch");
    if n > 1 { PatchGoesFirst(d, n - 1); }
  }

  // ---- The longest landing error ---------------------------------------------------------

  /** As many characters as are kept, each of the longest escape. */
  const LONGEST := Longest()

  function Longest(): (s: string)
    ensures |s| == 500 && forall k :: 0 <= k < |s| ==> s[k] == '\U{10FFFF}'
  {
    seq(500, _ => '\U{10FFFF}')
  }

  lemma {:induction false} TextIsAtMost(s: string)
    ensures TextSize(s) <= 12 * |s|
  {
    if s != "" { TextIsAtMost(s[1..]); }
  }

  lemma {:induction false} TextIsLongest(s: string)
    requires forall k :: 0 <= k < |s| ==> s[k] == '\U{10FFFF}'
    ensures TextSize(s) == 12 * |s|
  {
    if s != "" { TextIsLongest(s[1..]); }
  }

  /** No error makes the saved result larger than the longest one, so that one decides for all. */
  lemma LongestErrorDecides(c: Job)
    ensures Fits(SavedResult(c, LONGEST)) <==> forall err :: Fits(SavedResult(c, err))
  {
    forall err ensures Fits(SavedResult(c, LONGEST)) ==> Fits(SavedResult(c, err)) {
      var d := Put(Base(c), "landing", Str("failed"));
      TextIsAtMost(Clip(err));
      TextIsLongest(LONGEST);
      PutNoLarger(d, d, "landing_error", Str(Clip(err)), Str(LONGEST));
      PutNoLarger(UnlandedResult(c, err), UnlandedResult(c, LONGEST), "patch_saved", Str(c.path), Str(c.path));
      NoLargerFits(SavedResult(c, err), SavedResult(c, LONGEST));
    }
  }
}
