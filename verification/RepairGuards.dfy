/**
 * What the executor does with one parsed reply: the guards it runs against the
 * tree, the paths it refuses and the files it writes; and what each verdict
 * says of the texts themselves: newlines counted, names defined, path parts.
 */
module RepairGuards {
  import opened Options
  import opened Text
  import opened Regex
  import opened FileBlocks
  import opened FileRoundTrip

  type Tree = map<string, string>

  // ---- Writing changes into a tree ----------------------------------------------

  function Components(rel: string): (r: seq<string>)
    ensures |r| > 0
  {
    if rel == "" then [""]
    else
      var rest := Components(rel[1..]);
      if rel[0] == '/' then [""] + rest else [[rel[0]] + rest[0]] + rest[1..]
  }

  predicate UnsafePath(rel: string) {
    "/" <= rel || "~" <= rel || ".." in Components(rel) || ".git/" <= rel
  }

  function WriteOne(tree: Tree, path: string, change: Option<string>): Tree {
    if UnsafePath(path) then tree
    else if change.None? then tree - {path}
    else tree[path := Ended(change.value)]
  }

  function Written(tree: Tree, changes: Changes): Tree {
    if changes == [] then tree
    else
      var last := changes[|changes| - 1];
      WriteOne(Written(tree, changes[..|changes| - 1]), last.0, last.1)
  }

  function Rejected(changes: Changes): seq<string> {
    if changes == [] then []
    else
      var last := changes[|changes| - 1];
      Rejected(changes[..|changes| - 1]) + if UnsafePath(last.0) then [last.0] else []
  }

  // ---- Guards, each against the tree the clone has now --------------------------------

  function Newlines(s: string): nat {
    if s == "" then 0 else (if s[0] == '\n' then 1 else 0) + Newlines(s[1..])
  }

  function Lines(s: string): nat {
    if Newlines(s) == 0 then 1 else Newlines(s)
  }

  /** What the guards go by: the ratio, what compiles, and the files that unsafe paths name. */
  datatype Guards = Guards(ratio: real, compiles: string -> bool, outside: Tree)

  /** What a guard reads before anything is written: it looks at an unsafe path too. */
  function Seen(tree: Tree, path: string, g: Guards): Option<string> {
    var where := if UnsafePath(path) then g.outside else tree;
    if path in where then Some(Universal(where[path])) else None
  }

  /** A text of at least 40 lines, and one that keeps less than the ratio of them. */
  predicate TooShort(was: string, now: string, ratio: real) {
    Lines(was) >= 40 && (Lines(now) as real) < (Lines(was) as real) * ratio
  }

  /** A replacement of an existing file that is too short for it. */
  predicate IsTruncated(tree: Tree, path: string, change: Option<string>, g: Guards) {
    var was := Seen(tree, path, g);
    change.Some? && was.Some? && TooShort(was.value, change.value, g.ratio)
  }

  const MARKED_NAME := Mark(One(NameStart, Star(Name, Mark(End))))
  const NAME := One(Space, Star(Space, MARKED_NAME))
  const TOP_LEVEL := LineStart(Alt(Lit("def", NAME), Lit("class", NAME)))

  /** The names that top-level `def` and `class` lines introduce. */
  function Names(text: string): set<string> { NamesIn(text, FindAll(TOP_LEVEL, text, 0)) }

  function NamesIn(text: string, found: Matches): set<string> {
    if found.NoMore? then {}
    else
      (match found.first case MarkAt(a, MarkAt(b, EndsAt(_))) => {Slice(text, a, b)} case _ => {})
        + NamesIn(text, found.rest)
  }

  /** A `def` or `class` at a line start, whitespace up to `n`, and a whole name up to `e`: one match, with exactly the
      name marked. */
  lemma DefinitionIsNamed(text: string, i: nat, word: string, n: nat, e: nat)
    requires word == "def" || word == "class"
    requires i + |word| < n < e <= |text| && At(text, i, word) && (i == 0 || text[i - 1] == '\n')
    requires forall t :: i + |word| <= t < n ==> IsSpace(text[t])
    requires Has(NameStart, text[n]) && (forall t :: n + 1 <= t < e ==> Has(Name, text[t]))
    requires e < |text| ==> !Has(Name, text[e])
    ensures M(TOP_LEVEL, text, i) == Some(MarkAt(n, MarkAt(e, EndsAt(e))))
  {
    var from := i + |word|;
    NameMatches(text, n, e);
    StarTakesRun(Space, MARKED_NAME, text, from + 1, n);
    assert M(NAME, text, from) == Some(MarkAt(n, MarkAt(e, EndsAt(e))));
    assert M(Lit(word, NAME), text, i) == M(NAME, text, from);
    if word == "class" {
      assert text[i..][0] == 'c' && "def"[0] == 'd';
      assert M(Lit("def", NAME), text, i) == None;
    }
  }

  lemma NameMatches(text: string, n: nat, e: nat)
    requires n < e <= |text| && Has(NameStart, text[n]) && (forall t :: n + 1 <= t < e ==> Has(Name, text[t]))
    requires e < |text| ==> !Has(Name, text[e])
    ensures M(MARKED_NAME, text, n) == Some(MarkAt(n, MarkAt(e, EndsAt(e))))
  {
    StarTakesRun(Name, Mark(End), text, n + 1, e);
  }

  predicate IsPython(path: string) {
    3 <= |path| && path[|path| - 3..] == ".py"
  }

  predicate DropsNames(tree: Tree, path: string, change: Option<string>, g: Guards) {
    var was := Seen(tree, path, g);
    change.Some? && IsPython(path) && was.Some? && !(Names(was.value) <= Names(change.value))
  }

  predicate FailsToCompile(tree: Tree, path: string, change: Option<string>, g: Guards) {
    change.Some? && IsPython(path) && path in tree && !g.compiles(tree[path])
  }

  predicate AnyTruncated(tree: Tree, changes: Changes, g: Guards) {
    exists i :: 0 <= i < |changes| && IsTruncated(tree, changes[i].0, changes[i].1, g)
  }

  predicate AnyDropped(tree: Tree, changes: Changes, g: Guards) {
    exists i :: 0 <= i < |changes| && DropsNames(tree, changes[i].0, changes[i].1, g)
  }

  predicate AnyFails(tree: Tree, changes: Changes, g: Guards) {
    exists i :: 0 <= i < |changes| && FailsToCompile(tree, changes[i].0, changes[i].1, g)
  }

  // ---- The specification: a reply judged against HEAD alone -------------------------------

  datatype Verdict = NoBlocks | Truncated | Dropped | Unsafe | NotCompiling | Good

  function Judge(head: Tree, changes: Changes, g: Guards): Verdict {
    if changes == [] then NoBlocks
    else if AnyTruncated(head, changes, g) then Truncated
    else if AnyDropped(head, changes, g) then Dropped
    else if Rejected(changes) != [] then Unsafe
    else if AnyFails(Written(head, changes), changes, g) then NotCompiling
    else Good
  }

  lemma {:induction false} SafeWhenNoneRejected(changes: Changes)
    ensures Rejected(changes) == [] <==> forall i :: 0 <= i < |changes| ==> !UnsafePath(changes[i].0)
  {
    if changes != [] {
      var front := changes[..|changes| - 1];
      SafeWhenNoneRejected(front);
      assert forall i :: 0 <= i < |front| ==> front[i] == changes[i];
    }
  }

  /** The text is the body, with a newline added only if it had none at its end. */
  predicate EndsInNewline(text: string, body: string) {
    text != "" && text[|text| - 1] == '\n'
    && (text == body || (text == body + "\n" && (body == "" || body[|body| - 1] != '\n')))
  }

  /** A path is written by the only change that names it. */
  lemma {:induction false} WrittenAt(tree: Tree, changes: Changes, n: nat)
    requires Distinct(changes) && n < |changes| && !UnsafePath(changes[n].0)
    ensures
      var (path, change) := changes[n];
      if change.None? then path !in Written(tree, changes)
      else path in Written(tree, changes) && Written(tree, changes)[path] == Ended(change.value)
    decreases |changes|
  {
    var front := changes[..|changes| - 1];
    if n < |changes| - 1 {
      assert front[n] == changes[n];
      WrittenAt(tree, front, n);
    }
  }

  lemma {:induction false} WrittenElsewhere(tree: Tree, changes: Changes, path: string)
    requires forall n :: 0 <= n < |changes| ==> changes[n].0 != path
    ensures path in Written(tree, changes) <==> path in tree
    ensures path in tree ==> Written(tree, changes)[path] == tree[path]
    decreases |changes|
  {
    if changes != [] { WrittenElsewhere(tree, changes[..|changes| - 1], path); }
  }

  // ---- What the guards count ----------------------------------------------------------------

  lemma {:induction false} NewlinesAreCounted(s: string)
    ensures Newlines(s) == multiset(s)['\n']
  {
    if s != "" {
      NewlinesAreCounted(s[1..]);
      assert s == [s[0]] + s[1..];
      assert multiset(s) == multiset([s[0]]) + multiset(s[1..]);
    }
  }

  /** The text that the guards read at `path` of a tree. */
  predicate ReadsAs(tree: Tree, path: string, g: Guards, text: string) {
    if UnsafePath(path) then path in g.outside && text == Universal(g.outside[path])
    else path in tree && text == Universal(tree[path])
  }

  /** A text of at least 40 newlines would be replaced by one of fewer than the ratio of them; none counts as one. */
  predicate Shortens(was: string, now: string, ratio: real) {
    var n, k := multiset(was)['\n'], multiset(now)['\n'];
    40 <= n && (if k == 0 then 1 else k) as real < n as real * ratio
  }

  /** Some change shortens the file it names. */
  ghost predicate ShortensSome(tree: Tree, changes: Changes, g: Guards) {
    exists j, was :: 0 <= j < |changes| && changes[j].1.Some? && ReadsAs(tree, changes[j].0, g, was)
      && Shortens(was, changes[j].1.value, g.ratio)
  }

  lemma LinesAreCounted(was: string, now: string, ratio: real)
    ensures Shortens(was, now, ratio) <==> TooShort(was, now, ratio)
  {
    NewlinesAreCounted(was);
    NewlinesAreCounted(now);
  }

  lemma SeenIsRead(tree: Tree, path: string, g: Guards, text: string)
    ensures ReadsAs(tree, path, g, text) <==> Seen(tree, path, g) == Some(text)
  {
  }

  lemma TruncatedMeans(tree: Tree, path: string, change: Option<string>, g: Guards, was: string)
    requires change.Some? && ReadsAs(tree, path, g, was)
    ensures IsTruncated(tree, path, change, g) <==> Shortens(was, change.value, g.ratio)
  {
    SeenIsRead(tree, path, g, was);
    LinesAreCounted(was, change.value, g.ratio);
  }

  // ---- Which names the guards find --------------------------------------------------------------

  predicate NameChar(c: char) { 'a' <= c <= 'z' || 'A' <= c <= 'Z' || c == '_' || '0' <= c <= '9' }

  /** At `i`, a line start, stands `def` or `class`, whitespace up to `n`, and a whole name up to `e`. */
  predicate DefinesAt(text: string, i: nat, word: string, n: nat, e: nat) {
    && (word == "def" || word == "class") && i + |word| < n < e <= |text|
    && text[i..i + |word|] == word && (i == 0 || text[i - 1] == '\n')
    && (forall t :: i + |word| <= t < n ==> IsSpace(text[t]))
    && (forall t :: n <= t < e ==> NameChar(text[t])) && !('0' <= text[n] <= '9')
    && (e < |text| ==> !NameChar(text[e]))
  }

  /** The text defines `name` at the top level, anywhere. */
  ghost predicate Defines(text: string, name: string) {
    exists i: nat, word, n: nat, e: nat :: DefinesAt(text, i, word, n, e) && text[n..e] == name
  }

  /** At `i`, a line start, stands a bare `def` or `class`: only whitespace up to `j`. */
  predicate BareAt(text: string, i: nat, j: nat) {
    && (i == 0 || (i <= |text| && text[i - 1] == '\n'))
    && ((i + 3 <= j <= |text| && text[i..i + 3] == "def" && forall t :: i + 3 <= t < j ==> IsSpace(text[t]))
        || (i + 5 <= j <= |text| && text[i..i + 5] == "class" && forall t :: i + 5 <= t < j ==> IsSpace(text[t])))
  }

  /** The text defines `name` at the top level, and not on the line after a bare `def` or `class`, whose name the
      next word would be. */
  ghost predicate DefinesPlainly(text: string, name: string) {
    exists i: nat, word, n: nat, e: nat :: DefinesAt(text, i, word, n, e) && text[n..e] == name
      && forall t :: 0 <= t < i ==> !BareAt(text, t, i)
  }

  /** The match of a definition. */
  function Named(n: nat, e: nat): (m: Match)
    ensures Last(m) == e
  {
    var last := EndsAt(e);
    var inner := MarkAt(e, last);
    assert Last(inner) == Last(last);
    MarkAt(n, inner)
  }

  /** What a match says of its pattern, node by node. */
  lemma LitTells(word: string, q: Pat, s: string, i: nat)
    requires i <= |s| && M(Lit(word, q), s, i).Some?
    ensures i + |word| <= |s| && s[i..i + |word|] == word && M(q, s, i + |word|) == M(Lit(word, q), s, i)
  {
    assert s[i..][..|word|] == s[i..i + |word|];
  }

  lemma OneTells(cls: Class, q: Pat, s: string, i: nat)
    requires i <= |s| && M(One(cls, q), s, i).Some?
    ensures i < |s| && Has(cls, s[i]) && M(q, s, i + 1) == M(One(cls, q), s, i)
  {
  }

  lemma StartTells(q: Pat, r: Pat, s: string, i: nat)
    requires i <= |s| && M(LineStart(Alt(q, r)), s, i).Some?
    ensures i == 0 || s[i - 1] == '\n'
    ensures M(LineStart(Alt(q, r)), s, i) == if M(q, s, i).Some? then M(q, s, i) else M(r, s, i)
  {
  }

  lemma {:induction false} StarTells(cls: Class, q: Pat, s: string, i: nat) returns (n: nat)
    requires i <= |s| && M(Star(cls, q), s, i).Some?
    ensures i <= n <= |s| && (forall t :: i <= t < n ==> Has(cls, s[t])) && M(q, s, n) == M(Star(cls, q), s, i)
    decreases |s| - i
  {
    if i < |s| && Has(cls, s[i]) && M(Star(cls, q), s, i + 1).Some? {
      n := StarTells(cls, q, s, i + 1);
    } else {
      n := i;
    }
  }

  lemma MarkTells(q: Pat, s: string, i: nat)
    requires i <= |s| && M(Mark(q), s, i).Some?
    ensures M(q, s, i).Some? && M(Mark(q), s, i) == Some(MarkAt(i, M(q, s, i).value))
  {
  }

  lemma {:induction false} NameMatched(s: string, i: nat) returns (e: nat)
    requires i <= |s|
    ensures i <= e <= |s| && (forall t :: i <= t < e ==> NameChar(s[t])) && (e < |s| ==> !NameChar(s[e]))
    ensures M(Star(Name, Mark(End)), s, i) == Some(MarkAt(e, EndsAt(e)))
    decreases |s| - i
  {
    assert M(Mark(End), s, i) == Some(MarkAt(i, EndsAt(i)));
    if i < |s| && Has(Name, s[i]) {
      e := NameMatched(s, i + 1);
    } else {
      e := i;
    }
  }

  lemma MarkedNameMatched(s: string, n: nat) returns (e: nat)
    requires n <= |s| && M(MARKED_NAME, s, n).Some?
    ensures n < e <= |s| && (forall t :: n <= t < e ==> NameChar(s[t])) && !('0' <= s[n] <= '9')
    ensures e < |s| ==> !NameChar(s[e])
    ensures M(MARKED_NAME, s, n) == Some(Named(n, e))
  {
    MarkTells(One(NameStart, Star(Name, Mark(End))), s, n);
    OneTells(NameStart, Star(Name, Mark(End)), s, n);
    e := NameMatched(s, n + 1);
  }

  /** Whatever the pattern matches is a definition, with its name marked. */
  lemma MatchIsDefinition(s: string, i: nat) returns (word: string, n: nat, e: nat)
    requires i <= |s| && M(TOP_LEVEL, s, i).Some?
    ensures DefinesAt(s, i, word, n, e) && M(TOP_LEVEL, s, i) == Some(Named(n, e))
  {
    StartTells(Lit("def", NAME), Lit("class", NAME), s, i);
    word := if M(Lit("def", NAME), s, i).Some? then "def" else "class";
    LitTells(word, NAME, s, i);
    var from := i + |word|;
    OneTells(Space, Star(Space, MARKED_NAME), s, from);
    n := StarTells(Space, MARKED_NAME, s, from + 1);
    e := MarkedNameMatched(s, n);
  }

  lemma DefinitionMatches(s: string, i: nat, word: string, n: nat, e: nat)
    requires DefinesAt(s, i, word, n, e)
    ensures M(TOP_LEVEL, s, i) == Some(Named(n, e))
  {
    assert s[i..][..|word|] == s[i..i + |word|];
    DefinitionIsNamed(s, i, word, n, e);
  }

  /** Only a bare `def` or `class` reaches into a later definition. */
  lemma MatchesEndBefore(s: string, t: nat, i: nat, word: string, n: nat, e: nat)
    requires t < i && DefinesAt(s, i, word, n, e) && !BareAt(s, t, i)
    ensures M(TOP_LEVEL, s, t).Some? ==> Last(M(TOP_LEVEL, s, t).value) <= i
  {
    if M(TOP_LEVEL, s, t).Some? {
      var w, n', e' := MatchIsDefinition(s, t);
      if i < e' {
        var before, first := s[i - 1], s[i];
        assert before == '\n' && first == s[i..i + |word|][0] == word[0];
        assert n' == i;
        assert BareAt(s, t, i);
      }
    }
  }

  lemma {:induction false} FindsDefinition(s: string, from: nat, i: nat, word: string, n: nat, e: nat)
    requires from <= i && DefinesAt(s, i, word, n, e)
    requires forall t :: from <= t < i ==> !BareAt(s, t, i)
    ensures s[n..e] in NamesIn(s, FindAll(TOP_LEVEL, s, from))
    decreases i - from
  {
    if from == i {
      DefinitionMatches(s, i, word, n, e);
      FindAllTakes(TOP_LEVEL, s, i, Named(n, e), e);
    } else if M(TOP_LEVEL, s, from).Some? {
      var w, n', e' := MatchIsDefinition(s, from);
      MatchesEndBefore(s, from, i, word, n, e);
      FindAllTakes(TOP_LEVEL, s, from, Named(n', e'), e');
      FindsDefinition(s, e', i, word, n, e);
    } else {
      FindAllSkips(TOP_LEVEL, s, from);
      FindsDefinition(s, from + 1, i, word, n, e);
    }
  }

  lemma {:induction false} FoundIsDefined(s: string, from: nat, name: string)
    requires from <= |s| && name in NamesIn(s, FindAll(TOP_LEVEL, s, from))
    ensures Defines(s, name)
    decreases |s| - from
  {
    if M(TOP_LEVEL, s, from).Some? {
      var w, n, e := MatchIsDefinition(s, from);
      FindAllTakes(TOP_LEVEL, s, from, Named(n, e), e);
      if name != s[n..e] { FoundIsDefined(s, e, name); }
    } else {
      FindAllSkips(TOP_LEVEL, s, from);
      FoundIsDefined(s, from + 1, name);
    }
  }

  lemma PlainlyDefinedIsFound(text: string, name: string)
    requires DefinesPlainly(text, name)
    ensures name in Names(text)
  {
    var i: nat, word, n: nat, e: nat :| DefinesAt(text, i, word, n, e) && text[n..e] == name
      && forall t :: 0 <= t < i ==> !BareAt(text, t, i);
    FindsDefinition(text, 0, i, word, n, e);
  }

  // ---- Which paths are refused ---------------------------------------------------------------

  /** A whole part of the path, between slashes. */
  predicate PartAt(rel: string, i: nat, j: nat) {
    && i <= j <= |rel| && (i == 0 || rel[i - 1] == '/') && (j == |rel| || rel[j] == '/')
    && forall t :: i <= t < j ==> rel[t] != '/'
  }

  /** The first part, and a part further on. */
  ghost predicate Begins(rel: string, part: string) {
    exists j: nat :: PartAt(rel, 0, j) && rel[..j] == part
  }

  ghost predicate Follows(rel: string, part: string) {
    exists i: nat, j: nat :: 0 < i && PartAt(rel, i, j) && rel[i..j] == part
  }

  lemma PartOfTail(rel: string, i: nat, j: nat)
    requires 0 < i && rel != ""
    ensures PartAt(rel, i, j) <==> 0 < j && (if i == 1 then rel[0] == '/' else true) && PartAt(rel[1..], i - 1, j - 1)
  {
    if 0 < j && PartAt(rel[1..], i - 1, j - 1) {
      forall t | i <= t < j ensures rel[t] != '/' { assert rel[t] == rel[1..][t - 1]; }
    }
    if i <= j && PartAt(rel, i, j) {
      forall t | i - 1 <= t < j - 1 ensures rel[1..][t] != '/' { assert rel[1..][t] == rel[t + 1]; }
    }
  }

  /** The parts further on are those of the tail; its first part counts only behind a slash. */
  lemma FollowsInTail(rel: string, part: string)
    requires rel != ""
    ensures Follows(rel, part) <==> Follows(rel[1..], part) || (rel[0] == '/' && Begins(rel[1..], part))
  {
    if Follows(rel, part) {
      var i: nat, j: nat :| 0 < i && PartAt(rel, i, j) && rel[i..j] == part;
      PartOfTail(rel, i, j);
      assert rel[1..][i - 1..j - 1] == rel[i..j];
    }
    if Follows(rel[1..], part) {
      var i: nat, j: nat :| 0 < i && PartAt(rel[1..], i, j) && rel[1..][i..j] == part;
      PartOfTail(rel, i + 1, j + 1);
      assert rel[1..][i..j] == rel[i + 1..j + 1];
    }
    if rel[0] == '/' && Begins(rel[1..], part) {
      var j: nat :| PartAt(rel[1..], 0, j) && rel[1..][..j] == part;
      PartOfTail(rel, 1, j + 1);
      assert rel[1..][..j] == rel[1..j + 1];
    }
  }

  lemma OneFirstPart(rel: string, i: nat, j: nat)
    requires PartAt(rel, 0, i) && PartAt(rel, 0, j)
    ensures i == j
  {
  }

  lemma {:induction false} ComponentsAreParts(rel: string, part: string)
    ensures Begins(rel, part) <==> part == Components(rel)[0]
    ensures Follows(rel, part) <==> part in Components(rel)[1..]
  {
    if rel == "" {
      assert PartAt(rel, 0, 0) && rel[..0] == "";
    } else if rel[0] == '/' {
      assert PartAt(rel, 0, 0) && rel[..0] == "";
      forall j: nat | PartAt(rel, 0, j) ensures j == 0 { OneFirstPart(rel, 0, j); }
      ComponentsAreParts(rel[1..], part);
      FollowsInTail(rel, part);
      assert Components(rel)[1..] == Components(rel[1..]);
    } else {
      var rest := Components(rel[1..]);
      ComponentsAreParts(rel[1..], part);
      ComponentsAreParts(rel[1..], rest[0]);
      FirstGrows(rel, rest[0]);
      FollowsInTail(rel, part);
      assert Components(rel)[1..] == rest[1..];
      assert Begins(rel, [rel[0]] + rest[0]);
      if Begins(rel, part) {
        var i: nat :| PartAt(rel, 0, i) && rel[..i] == part;
        var j: nat :| PartAt(rel, 0, j) && rel[..j] == [rel[0]] + rest[0];
        OneFirstPart(rel, i, j);
      }
    }
  }

  lemma FirstGrows(rel: string, part: string)
    requires rel != "" && rel[0] != '/' && Begins(rel[1..], part)
    ensures Begins(rel, [rel[0]] + part)
  {
    var j: nat :| PartAt(rel[1..], 0, j) && rel[1..][..j] == part;
    forall t | 0 <= t < j + 1 ensures rel[t] != '/' {
      if t > 0 { assert rel[t] == rel[1..][t - 1]; }
    }
    assert PartAt(rel, 0, j + 1) && rel[..j + 1] == [rel[0]] + part;
  }

  /** Two dots between slashes. */
  predicate DotsAt(rel: string, i: nat) {
    && i + 2 <= |rel| && rel[i..i + 2] == ".." && (i == 0 || rel[i - 1] == '/')
    && (i + 2 == |rel| || rel[i + 2] == '/')
  }

  /** The path begins with a slash, a tilde or `.git/`, or has a part `..`. */
  ghost predicate LeadsOutside(rel: string) {
    || (rel != "" && (rel[0] == '/' || rel[0] == '~'))
    || (5 <= |rel| && rel[..5] == ".git/")
    || exists i: nat :: DotsAt(rel, i)
  }

  lemma DotsArePart(rel: string, i: nat, j: nat)
    ensures DotsAt(rel, i) ==> PartAt(rel, i, i + 2)
    ensures PartAt(rel, i, j) && rel[i..j] == ".." ==> DotsAt(rel, i)
  {
    if DotsAt(rel, i) { assert rel[i] == rel[i..i + 2][0] && rel[i + 1] == rel[i..i + 2][1]; }
  }

  lemma DotsAreComponent(rel: string)
    ensures ".." in Components(rel) <==> exists i: nat :: DotsAt(rel, i)
  {
    ComponentsAreParts(rel, "..");
    assert Components(rel) == [Components(rel)[0]] + Components(rel)[1..];
    if ".." in Components(rel) {
      var i: nat, j: nat :| PartAt(rel, i, j) && rel[i..j] == "..";
      DotsArePart(rel, i, j);
    }
    if i: nat :| DotsAt(rel, i) {
      DotsArePart(rel, i, i + 2);
      if i == 0 { assert Begins(rel, ".."); } else { assert Follows(rel, ".."); }
    }
  }

  lemma UnsafeMeans(rel: string)
    ensures UnsafePath(rel) <==> LeadsOutside(rel)
  {
    DotsAreComponent(rel);
  }

  // ---- What each verdict says ------------------------------------------------------------------

  ghost predicate IsPy(path: string) {
    exists stem :: path == stem + ".py"
  }

  /** Some Python file plainly defines a name that its replacement does not define at all. */
  ghost predicate LosesAName(tree: Tree, changes: Changes, g: Guards) {
    exists j, was, name :: 0 <= j < |changes| && changes[j].1.Some? && IsPy(changes[j].0)
      && ReadsAs(tree, changes[j].0, g, was) && DefinesPlainly(was, name) && !Defines(changes[j].1.value, name)
  }

  /** Every name that a replaced Python file defines, its replacement plainly defines. */
  ghost predicate KeepsAllNames(tree: Tree, changes: Changes, g: Guards) {
    forall j, was, name :: (0 <= j < |changes| && changes[j].1.Some? && IsPy(changes[j].0)
                            && ReadsAs(tree, changes[j].0, g, was) && Defines(was, name)
                            ==> DefinesPlainly(changes[j].1.value, name))
  }

  ghost predicate NamesOutside(changes: Changes) {
    exists j :: 0 <= j < |changes| && LeadsOutside(changes[j].0)
  }

  /** Some Python file, with a newline at its end, does not compile. */
  ghost predicate Breaks(changes: Changes, g: Guards) {
    exists j, text :: 0 <= j < |changes| && changes[j].1.Some? && IsPy(changes[j].0)
      && text == (if changes[j].1.value != "" && changes[j].1.value[|changes[j].1.value| - 1] == '\n'
                  then changes[j].1.value else changes[j].1.value + "\n")
      && !g.compiles(text)
  }

  lemma PythonMeans(path: string)
    ensures IsPython(path) <==> IsPy(path)
  {
    if IsPython(path) { assert path == path[..|path| - 3] + ".py"; }
  }

  lemma ShortenedIsTruncated(tree: Tree, changes: Changes, g: Guards)
    ensures AnyTruncated(tree, changes, g) <==> ShortensSome(tree, changes, g)
  {
    if j :| 0 <= j < |changes| && IsTruncated(tree, changes[j].0, changes[j].1, g) {
      var was := Seen(tree, changes[j].0, g).value;
      SeenIsRead(tree, changes[j].0, g, was);
      TruncatedMeans(tree, changes[j].0, changes[j].1, g, was);
    }
    if ShortensSome(tree, changes, g) {
      var j, was :| 0 <= j < |changes| && changes[j].1.Some? && ReadsAs(tree, changes[j].0, g, was)
        && Shortens(was, changes[j].1.value, g.ratio);
      TruncatedMeans(tree, changes[j].0, changes[j].1, g, was);
    }
  }

  lemma LostIsDropped(tree: Tree, changes: Changes, g: Guards)
    requires LosesAName(tree, changes, g)
    ensures AnyDropped(tree, changes, g)
  {
    var j, was, name :| 0 <= j < |changes| && changes[j].1.Some? && IsPy(changes[j].0)
      && ReadsAs(tree, changes[j].0, g, was) && DefinesPlainly(was, name) && !Defines(changes[j].1.value, name);
    PythonMeans(changes[j].0);
    SeenIsRead(tree, changes[j].0, g, was);
    PlainlyDefinedIsFound(was, name);
    if name in Names(changes[j].1.value) { FoundIsDefined(changes[j].1.value, 0, name); }
  }

  lemma KeptIsNotDropped(tree: Tree, changes: Changes, g: Guards)
    requires KeepsAllNames(tree, changes, g)
    ensures !AnyDropped(tree, changes, g)
  {
    forall j | 0 <= j < |changes| ensures !DropsNames(tree, changes[j].0, changes[j].1, g) {
      if DropsNames(tree, changes[j].0, changes[j].1, g) {
        var was := Seen(tree, changes[j].0, g).value;
        var name :| name in Names(was) && name !in Names(changes[j].1.value);
        PythonMeans(changes[j].0);
        SeenIsRead(tree, changes[j].0, g, was);
        FoundIsDefined(was, 0, name);
        PlainlyDefinedIsFound(changes[j].1.value, name);
      }
    }
  }

  lemma OutsideIsRejected(changes: Changes)
    ensures Rejected(changes) != [] <==> NamesOutside(changes)
  {
    SafeWhenNoneRejected(changes);
    forall j | 0 <= j < |changes| ensures UnsafePath(changes[j].0) <==> LeadsOutside(changes[j].0) {
      UnsafeMeans(changes[j].0);
    }
  }

  lemma BrokenFails(tree: Tree, changes: Changes, g: Guards)
    requires Distinct(changes) && Rejected(changes) == []
    ensures AnyFails(Written(tree, changes), changes, g) <==> Breaks(changes, g)
  {
    SafeWhenNoneRejected(changes);
    forall j: nat | j < |changes| && changes[j].1.Some?
      ensures FailsToCompile(Written(tree, changes), changes[j].0, changes[j].1, g) <==>
        IsPy(changes[j].0) && !g.compiles(Ended(changes[j].1.value))
    {
      WrittenAt(tree, changes, j);
      PythonMeans(changes[j].0);
    }
  }

  /** The verdict, guard by guard: a shortened file, then a lost name, then a path that leads outside, then a Python
      file that does not compile. */
  ghost predicate Deserves(head: Tree, changes: Changes, g: Guards, v: Verdict) {
    && (v.NoBlocks? <==> changes == [])
    && (v.Truncated? <==> ShortensSome(head, changes, g))
    && (changes != [] && !v.Truncated? && LosesAName(head, changes, g) ==> v.Dropped?)
    && (KeepsAllNames(head, changes, g) ==> !v.Dropped?)
    && (changes != [] && !v.Truncated? && !v.Dropped? ==>
        v == if NamesOutside(changes) then Unsafe else if Breaks(changes, g) then NotCompiling else Good)
  }

  lemma VerdictMeans(head: Tree, changes: Changes, g: Guards)
    requires Distinct(changes)
    ensures Deserves(head, changes, g, Judge(head, changes, g))
  {
    if changes != [] {
      ShortenedIsTruncated(head, changes, g);
      if LosesAName(head, changes, g) { LostIsDropped(head, changes, g); }
      if KeepsAllNames(head, changes, g) { KeptIsNotDropped(head, changes, g); }
      OutsideIsRejected(changes);
      if Rejected(changes) == [] { BrokenFails(head, changes, g); }
    }
  }
}
