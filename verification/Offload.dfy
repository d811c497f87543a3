/**
 * Which repository a job resolves to, on the hive side before it is offloaded
 * and on the node from the payload that was built for it.
 */
module Offload {
  import opened Options
  import opened Text
  import opened Regex

  /** A field of a job: absent or null, or a string. */
  type Field = Option<string>

  /** The fields of a job record that matter here; a payload is one too. */
  datatype Job = Job(
    workspace: Field, targetWorkspace: Field, project: Field, repo: Field,
    prompt: Field, task: Field, description: Field, kind: Field, eligibleHosts: seq<string>)

  /** Allowlisted names and their clone URLs, if they have one. */
  type Aliases = map<string, Option<string>>

  predicate Truthy(f: Field) { f.Some? && f.value != "" }

  function Or(a: Field, b: Field): Field { if Truthy(a) then a else b }

  function TextOf(f: Field): string { if f.Some? then f.value else "" }

  // ---- Kinds --------------------------------------------------------------------

  const NONCOMMIT_PREFIXES := [
    "architecture", "analysis", "research", "triage", "review", "design", "docs:", "investigation",
    "track:", "ops:", "diag:", "ping:", "hive-stats", "dream-walker"]

  const KIND_WORKSPACE_MAP: seq<(seq<string>, Option<string>)> := [
    (["ic-engine:", "investorclaw:"], Some("https://gitlab.com/argonautsystems/ic-engine.git")),
    (["riskyeats:"], Some("https://gitlab.com/perlowja/riskyeats.git")),
    (["riskybiz:", "argonaut:"], None),
    (["mnemos:", "feat:knemon", "fix:knemon", "feat:oracle-backend"], Some("https://gitlab.com/mnemos-os/mnemos.git")),
    (["ncz-os-zeroclaw:"], Some("https://gitlab.com/nclawzero/zeroclaw.git")),
    (["ncz-os-"], Some("https://gitlab.com/nclawzero/ncz-installer.git")),
    (["fleet-infra:"], None)]

  predicate StartsWithAny(s: string, prefixes: seq<string>) {
    exists i :: 0 <= i < |prefixes| && prefixes[i] <= s
  }

  /** The first entry with a matching prefix decides. */
  function MappedKind(kind: string, table: seq<(seq<string>, Option<string>)>): Option<string> {
    if table == [] then None
    else if StartsWithAny(kind, table[0].0) then table[0].1
    else MappedKind(kind, table[1..])
  }

  function UpToColon(s: string): string {
    if s == "" || s[0] == ':' then "" else [s[0]] + UpToColon(s[1..])
  }

  const BUILD := "build:"

  /** The repository name in a `build:` kind. */
  function BuildToken(kind: string): Option<string> {
    if BUILD <= kind then Some(Strip(UpToColon(kind[|BUILD|..]))) else None
  }

  function RepoUrlForKind(kind: Field, aliases: Aliases): Option<string> {
    var k := TextOf(kind);
    var token := BuildToken(k);
    if token.Some? && token.value in aliases then aliases[token.value] else MappedKind(k, KIND_WORKSPACE_MAP)
  }

  // ---- The hint in a prompt --------------------------------------------------------

  const REPO_NAME := Mark(One(NonSpace, Star(NonSpace, Mark(Star(Space, LineEnd(End))))))
  const COLON := Lit(":", Star(Space, REPO_NAME))
  const REPO := One(Either('r', 'R'), One(Either('e', 'E'), One(Either('p', 'P'), One(Either('o', 'O'), COLON))))
  const REPO_HINT := LineStart(Star(Space, REPO))

  /** The first `repo:` line of a prompt. */
  function Hint(prompt: string): Option<string> {
    match FindAll(REPO_HINT, prompt, 0)
    case More(MarkAt(a, MarkAt(b, EndsAt(_))), _) => if a <= b <= |prompt| then Some(prompt[a..b]) else None
    case _ => None
  }

  lemma RepoMatches(s: string, m: Match)
    requires 4 <= |s| && s[0] == 'r' && s[1] == 'e' && s[2] == 'p' && s[3] == 'o' && M(COLON, s, 4) == Some(m)
    ensures M(REPO, s, 0) == Some(m)
  {
    assert M(One(Either('o', 'O'), COLON), s, 3) == Some(m);
    assert M(One(Either('p', 'P'), One(Either('o', 'O'), COLON)), s, 2) == Some(m);
  }

  /** After the name, blank to the line's end: some match, whatever follows. */
  lemma {:induction false} LineEndsAfter(s: string, e: nat)
    requires e <= |s|
    ensures M(Star(Space, LineEnd(End)), s, e).Some? ==> M(Star(Space, LineEnd(End)), s, e).value.EndsAt?
    ensures e == |s| || s[e] == '\n' ==> M(Star(Space, LineEnd(End)), s, e).Some?
    decreases |s| - e
  {
    assert M(End, s, e) == Some(EndsAt(e));
    assert M(LineEnd(End), s, e) == if e == |s| || s[e] == '\n' then Some(EndsAt(e)) else None;
    if e < |s| { LineEndsAfter(s, e + 1); }
  }

  /** A prompt whose first line is a `repo:` line hints at exactly the name on it. */
  lemma HintIsTheName(name: string, rest: string)
    requires name != "" && (forall k :: 0 <= k < |name| ==> !IsSpace(name[k])) && (rest == "" || rest[0] == '\n')
    ensures Hint("repo: " + name + rest) == Some(name)
  {
    var s := "repo: " + name + rest;
    var e := 6 + |name|;
    assert s[0] == 'r' && s[1] == 'e' && s[2] == 'p' && s[3] == 'o' && s[4] == ':' && s[5] == ' ' && s[6..e] == name;
    assert forall t :: 6 <= t < e ==> s[t] == name[t - 6];
    assert e < |s| ==> s[e] == rest[0];
    LineEndsAfter(s, e);
    var end := M(Star(Space, LineEnd(End)), s, e).value;
    var named := MarkAt(6, MarkAt(e, end));
    NameMatches(s, 6, e, end);
    ColonThenName(s, named);
    RepoMatches(s, named);
    StarTakesRun(Space, REPO, s, 0, 0);
  }

  lemma NameMatches(s: string, i: nat, e: nat, end: Match)
    requires i < e <= |s| && (forall t :: i <= t < e ==> !IsSpace(s[t])) && (e < |s| ==> IsSpace(s[e]))
    requires M(Star(Space, LineEnd(End)), s, e) == Some(end)
    ensures M(REPO_NAME, s, i) == Some(MarkAt(i, MarkAt(e, end)))
  {
    StarTakesRun(NonSpace, Mark(Star(Space, LineEnd(End))), s, i + 1, e);
  }

  lemma ColonThenName(s: string, named: Match)
    requires 6 < |s| && s[4] == ':' && s[5] == ' ' && !IsSpace(s[6]) && M(REPO_NAME, s, 6) == Some(named)
    ensures M(COLON, s, 4) == Some(named)
  {
    assert s[4..][0] == ':';
    StarTakesRun(Space, REPO_NAME, s, 5, 6);
  }

  // ---- Resolution --------------------------------------------------------------------

  predicate IsAliasUrl(aliases: Aliases, url: string) {
    exists name :: name in aliases && aliases[name] == Some(url)
  }

  /** Everything but the structured workspace. */
  function FallbackUrl(repo: Field, prompt: string, kind: Field, aliases: Aliases): Option<string> {
    if Truthy(repo) && IsAliasUrl(aliases, repo.value) then repo
    else
      var hint := Hint(prompt);
      if hint.Some? && hint.value in aliases && Truthy(aliases[hint.value]) then aliases[hint.value]
      else RepoUrlForKind(kind, aliases)
  }

  function RepoUrlForJob(job: Job, aliases: Aliases): Option<string> {
    var ws := Or(Or(job.workspace, job.targetWorkspace), job.project);
    if ws.Some? && ws.value in aliases then aliases[ws.value]
    else FallbackUrl(job.repo, TextOf(Or(Or(job.prompt, job.task), job.description)), job.kind, aliases)
  }

  /** The sealed payload of a job, as a record the node resolves. */
  function BuildPayload(job: Job): Job {
    Job(Or(job.targetWorkspace, job.project), None, None, job.repo,
        Or(Or(job.prompt, job.task), Some(TextOf(job.description))), None, None, job.kind, [])
  }

  function Lower(s: string): string {
    if s == "" then "" else [if 'A' <= s[0] <= 'Z' then s[0] - 'A' + 'a' else s[0]] + Lower(s[1..])
  }

  predicate HostTargeted(job: Job, host: string) {
    exists i :: 0 <= i < |job.eligibleHosts| && Lower(Strip(job.eligibleHosts[i])) == Lower(host)
  }

  predicate NodeShouldOffload(job: Job, host: string, aliases: Aliases) {
    || StartsWithAny(TextOf(job.kind), NONCOMMIT_PREFIXES)
    || RepoUrlForKind(Some(TextOf(job.kind)), aliases).Some?
    || (HostTargeted(job, host) && RepoUrlForJob(job, aliases).Some?)
  }

  // ---- Agreement ------------------------------------------------------------------------

  function FallbackOf(job: Job, aliases: Aliases): Option<string> {
    FallbackUrl(job.repo, TextOf(Or(Or(job.prompt, job.task), job.description)), job.kind, aliases)
  }

  /** A project that is the empty string, with nothing better, while the allowlist has an entry without a name. */
  predicate NamelessProject(job: Job, aliases: Aliases) {
    !Truthy(job.targetWorkspace) && job.project == Some("") && "" in aliases
  }

  lemma PayloadFallsBackAlike(job: Job, aliases: Aliases)
    ensures FallbackOf(BuildPayload(job), aliases) == FallbackOf(job, aliases)
  {
    var p := BuildPayload(job);
    assert TextOf(Or(Or(p.prompt, p.task), p.description)) == TextOf(Or(Or(job.prompt, job.task), job.description));
  }

  /** The node's answer: the alias the payload's workspace names, if it names one, or else the same fallback. */
  lemma NodeAnswer(job: Job, aliases: Aliases)
    ensures
      var ws := Or(job.targetWorkspace, job.project);
      RepoUrlForJob(BuildPayload(job), aliases)
        == if Truthy(ws) && ws.value in aliases then aliases[ws.value] else FallbackOf(job, aliases)
  {
    PayloadFallsBackAlike(job, aliases);
  }

  /** A job that carries no raw workspace resolves alike on both sides, except in one corner: an empty project,
      a nameless allowlist entry, and another answer without it. */
  lemma OffloadAgrees(job: Job, aliases: Aliases)
    requires !Truthy(job.workspace)
    ensures RepoUrlForJob(BuildPayload(job), aliases) == RepoUrlForJob(job, aliases)
       <==> !(NamelessProject(job, aliases) && aliases[""] != FallbackOf(job, aliases))
  {
    NodeAnswer(job, aliases);
  }

  lemma NoHintInNothing()
    ensures Hint("") == None
  {
    StarFails(Space, REPO, "", 0, 0);
    assert M(REPO_HINT, "", 0) == None;
    FindAllSkips(REPO_HINT, "", 0);
  }

  lemma NoKindNoUrl(aliases: Aliases)
    ensures RepoUrlForKind(None, aliases) == None
  {
    var t := KIND_WORKSPACE_MAP;
    assert BuildToken("") == None;
    forall n | 0 <= n < |t| ensures !StartsWithAny("", t[n].0) { NoPrefixOfNothing(n); }
    NothingMapped("", t);
  }

  lemma NoPrefixOfNothing(n: nat)
    requires n < |KIND_WORKSPACE_MAP|
    ensures !StartsWithAny("", KIND_WORKSPACE_MAP[n].0)
  {
  }

  lemma {:induction false} NothingMapped(kind: string, table: seq<(seq<string>, Option<string>)>)
    requires forall n :: 0 <= n < |table| ==> !StartsWithAny(kind, table[n].0)
    ensures MappedKind(kind, table) == None
  {
    if table != [] {
      assert !StartsWithAny(kind, table[0].0);
      forall n | 0 <= n < |table[1..]|
        ensures !StartsWithAny(kind, table[1..][n].0)
      {
        assert table[1..][n] == table[n + 1];
      }
      NothingMapped(kind, table[1..]);
    }
  }

  // ---- What the parts of a job resolve to -----------------------------------------------------

  /** A repository that is an allowlisted URL is taken, whatever the prompt says. */
  lemma AllowlistedRepoIsTaken(job: Job, aliases: Aliases, name: string, url: string)
    requires !Truthy(job.workspace) && !Truthy(job.targetWorkspace) && job.project.None?
    requires job.repo == Some(url) && url != "" && name in aliases && aliases[name] == Some(url)
    ensures RepoUrlForJob(job, aliases) == Some(url)
  {
  }

  /** Otherwise a `repo:` line at the head of the prompt decides, if it names an entry with a URL, and else the kind. */
  lemma HintedJobResolves(job: Job, aliases: Aliases, name: string, rest: string)
    requires !Truthy(job.workspace) && !Truthy(job.targetWorkspace) && job.project.None?
    requires job.repo.None? && job.prompt == Some("repo: " + name + rest)
    requires name != "" && (forall k :: 0 <= k < |name| ==> !IsSpace(name[k])) && (rest == "" || rest[0] == '\n')
    ensures RepoUrlForJob(job, aliases) ==
      if name in aliases && aliases[name].Some? && aliases[name] != Some("") then aliases[name]
      else RepoUrlForKind(job.kind, aliases)
  {
    HintIsTheName(name, rest);
  }

  lemma {:induction false} FirstMatchDecides(kind: string, table: seq<(seq<string>, Option<string>)>, n: nat)
    requires n < |table| && StartsWithAny(kind, table[n].0)
    requires forall j :: 0 <= j < n ==> !StartsWithAny(kind, table[j].0)
    ensures MappedKind(kind, table) == table[n].1
  {
    if n > 0 {
      assert !StartsWithAny(kind, table[0].0);
      assert forall j :: 0 <= j < n - 1 ==> table[1..][j] == table[j + 1];
      FirstMatchDecides(kind, table[1..], n - 1);
    }
  }

  lemma NotAtStart(p: string, kind: string, k: nat)
    requires k < |p| && k < |kind| && p[k] != kind[k]
    ensures !(p <= kind)
  {
  }

  /** Kinds of the other projects do not begin as those of an entry do. */
  lemma NotOfEntry(kind: string, j: nat)
    requires j < |KIND_WORKSPACE_MAP| && |kind| >= 6
    requires match j
      case 0 => kind[0] != 'i'
      case 1 => kind[0] != 'r' || kind[5] != 'e'
      case 2 => (kind[0] != 'r' || kind[5] != 'b') && kind[0] != 'a'
      case 3 => kind[0] != 'm' && (kind[0] != 'f' || (kind[1] != 'e' && kind[1] != 'i'))
      case 4 => kind[0] != 'n' || !("ncz-os-zeroclaw:" <= kind)
      case 5 => kind[0] != 'n'
      case _ => kind[0] != 'f' || kind[1] != 'l'
    ensures !StartsWithAny(kind, KIND_WORKSPACE_MAP[j].0)
  {
    var prefixes := KIND_WORKSPACE_MAP[j].0;
    forall i | 0 <= i < |prefixes| ensures !(prefixes[i] <= kind) {
      if prefixes[i][0] != kind[0] {
        NotAtStart(prefixes[i], kind, 0);
      } else if prefixes[i][1] != kind[1] {
        NotAtStart(prefixes[i], kind, 1);
      } else if j == 1 || j == 2 {
        NotAtStart(prefixes[i], kind, 5);
      }
    }
  }

  /** A kind that begins as those of entry `n` do, and where such a project lives. */
  ghost predicate IsKindOf(n: nat, kind: string, url: Option<string>) {
    || (n == 0 && ("ic-engine:" <= kind || "investorclaw:" <= kind)
        && url == Some("https://gitlab.com/argonautsystems/ic-engine.git"))
    || (n == 1 && "riskyeats:" <= kind && url == Some("https://gitlab.com/perlowja/riskyeats.git"))
    || (n == 2 && ("riskybiz:" <= kind || "argonaut:" <= kind) && url == None)
    || (n == 3 && ("mnemos:" <= kind || "feat:knemon" <= kind || "fix:knemon" <= kind || "feat:oracle-backend" <= kind)
        && url == Some("https://gitlab.com/mnemos-os/mnemos.git"))
    || (n == 4 && "ncz-os-zeroclaw:" <= kind && url == Some("https://gitlab.com/nclawzero/zeroclaw.git"))
    || (n == 5 && "ncz-os-" <= kind && !("ncz-os-zeroclaw:" <= kind)
        && url == Some("https://gitlab.com/nclawzero/ncz-installer.git"))
    || (n == 6 && "fleet-infra:" <= kind && url == None)
  }

  lemma KindBegins(n: nat, kind: string, url: Option<string>)
    requires IsKindOf(n, kind, url)
    ensures |kind| >= 6 && n < |KIND_WORKSPACE_MAP| && KIND_WORKSPACE_MAP[n].1 == url
    ensures match n
      case 0 => kind[0] == 'i'
      case 1 => kind[0] == 'r' && kind[5] == 'e'
      case 2 => (kind[0] == 'r' && kind[5] == 'b') || kind[0] == 'a'
      case 3 => kind[0] == 'm' || (kind[0] == 'f' && (kind[1] == 'e' || kind[1] == 'i'))
      case 4 => kind[0] == 'n'
      case 5 => kind[0] == 'n'
      case _ => kind[0] == 'f' && kind[1] == 'l'
  {
  }

  lemma IsOfEntry(n: nat, kind: string, url: Option<string>)
    requires IsKindOf(n, kind, url)
    ensures n < |KIND_WORKSPACE_MAP| && StartsWithAny(kind, KIND_WORKSPACE_MAP[n].0)
  {
    var prefixes := KIND_WORKSPACE_MAP[n].0;
    assert forall i :: 0 <= i < |prefixes| && prefixes[i] <= kind ==> StartsWithAny(kind, prefixes);
    match n
    case 0 => assert prefixes[0] == "ic-engine:" && prefixes[1] == "investorclaw:";
    case 1 => assert prefixes[0] == "riskyeats:";
    case 2 => assert prefixes[0] == "riskybiz:" && prefixes[1] == "argonaut:";
    case 3 =>
      assert prefixes[0] == "mnemos:" && prefixes[1] == "feat:knemon" && prefixes[2] == "fix:knemon"
        && prefixes[3] == "feat:oracle-backend";
    case 4 => assert prefixes[0] == "ncz-os-zeroclaw:";
    case 5 => assert prefixes[0] == "ncz-os-";
    case _ => assert prefixes[0] == "fleet-infra:";
  }

  /** The kinds of the known projects resolve to their repositories, and those of three of them to none. */
  lemma KnownKindsResolve(n: nat, kind: string, url: Option<string>, aliases: Aliases)
    requires IsKindOf(n, kind, url)
    ensures RepoUrlForKind(Some(kind), aliases) == url
  {
    KindBegins(n, kind, url);
    IsOfEntry(n, kind, url);
    forall j | 0 <= j < n ensures !StartsWithAny(kind, KIND_WORKSPACE_MAP[j].0) { NotOfEntry(kind, j); }
    FirstMatchDecides(kind, KIND_WORKSPACE_MAP, n);
    assert BUILD[0] == 'b';
  }

  lemma {:induction false} ColonEnds(name: string, rest: string)
    requires ':' !in name && (rest == "" || rest[0] == ':')
    ensures UpToColon(name + rest) == name
  {
    if name == "" {
      assert name + rest == rest;
    } else {
      assert (name + rest)[1..] == name[1..] + rest;
      ColonEnds(name[1..], rest);
    }
  }

  /** A `build:` kind names its repository, up to the next colon and without the space around it. */
  lemma BuildKindResolves(name: string, rest: string, aliases: Aliases)
    requires name in aliases && ':' !in name && (rest == "" || rest[0] == ':')
    requires name != "" ==> !IsSpace(name[0]) && !IsSpace(name[|name| - 1])
    ensures RepoUrlForKind(Some("build:" + name + rest), aliases) == aliases[name]
  {
    var kind := "build:" + name + rest;
    assert kind == BUILD + (name + rest) && kind[|BUILD|..] == name + rest;
    ColonEnds(name, rest);
    var i, j := StripMeans(name);
    if name != "" {
      var first, last := name[0], name[|name| - 1];
      assert i == 0 && j == |name| && name[i..j] == name;
    }
  }

  lemma {:induction false} LowerMeans(s: string)
    ensures |Lower(s)| == |s|
    ensures forall k :: 0 <= k < |s| ==>
      Lower(s)[k] as int == if 65 <= s[k] as int <= 90 then s[k] as int + 32 else s[k] as int
  {
    if s != "" { LowerMeans(s[1..]); }
  }

  /** The kinds that need no commit are offloaded, and any job that resolves if its host is named. */
  lemma OffloadedIf(job: Job, host: string, aliases: Aliases, word: string, rest: string, n: nat)
    requires word in {"architecture", "analysis", "research", "triage", "review", "design", "docs:", "investigation",
                      "track:", "ops:", "diag:", "ping:", "hive-stats", "dream-walker"}
    ensures job.kind == Some(word + rest) ==> NodeShouldOffload(job, host, aliases)
    ensures
      var named := n < |job.eligibleHosts| && Lower(Strip(job.eligibleHosts[n])) == Lower(host);
      named && RepoUrlForJob(job, aliases).Some? ==> NodeShouldOffload(job, host, aliases)
  {
    assert word in NONCOMMIT_PREFIXES;
    assert word <= word + rest;
  }

  /** The corner is real: with an entry of no name, a job of an empty project resolves, and its payload does not. */
  lemma NamelessCornerIsReal(url: string)
    ensures
      var job := Job(None, None, Some(""), None, None, None, None, None, []);
      var aliases: Aliases := map["" := Some(url)];
      && NamelessProject(job, aliases) && aliases[""] != FallbackOf(job, aliases)
      && RepoUrlForJob(job, aliases) == Some(url) && RepoUrlForJob(BuildPayload(job), aliases) == None
  {
    var job := Job(None, None, Some(""), None, None, None, None, None, []);
    var aliases: Aliases := map["" := Some(url)];
    NoHintInNothing();
    NoKindNoUrl(aliases);
    NodeAnswer(job, aliases);
  }

  /** A raw workspace is not carried over, so with one the answers can differ without any corner. */
  lemma RawWorkspaceIsLost(name: string, url: string)
    requires name != ""
    ensures
      var job := Job(Some(name), None, None, None, None, None, None, None, []);
      var aliases := map[name := Some(url)];
      RepoUrlForJob(job, aliases) == Some(url)
        && RepoUrlForJob(BuildPayload(job), aliases) == FallbackOf(job, aliases)
  {
    var job := Job(Some(name), None, None, None, None, None, None, None, []);
    NodeAnswer(job, map[name := Some(url)]);
  }

  /** An offloaded commit job resolves to a repository on the node exactly unless its workspace names an alias
      without a URL, or it was offloaded on the nameless entry alone. */
  lemma OffloadedJobResolves(job: Job, host: string, aliases: Aliases)
    requires !Truthy(job.workspace) && NodeShouldOffload(job, host, aliases)
      && !StartsWithAny(TextOf(job.kind), NONCOMMIT_PREFIXES)
    ensures
      var ws := Or(job.targetWorkspace, job.project);
      RepoUrlForJob(BuildPayload(job), aliases).None? <==>
        || (Truthy(ws) && ws.value in aliases && aliases[ws.value].None?)
        || (NamelessProject(job, aliases) && FallbackOf(job, aliases).None?)
  {
    NodeAnswer(job, aliases);
    assert RepoUrlForKind(Some(TextOf(job.kind)), aliases) == RepoUrlForKind(job.kind, aliases);
    if RepoUrlForKind(job.kind, aliases).Some? { assert FallbackOf(job, aliases).Some?; }
  }
}
