/**
 * The framing in which the poller shows files to the model and reads complete
 * replacement files back.  What is printed is parsed back to the same paths
 * and bodies.
 */
module FileBlocks {
  import opened Options
  import opened Text
  import opened Regex
  import opened Dicts

  const END_MARK := Star(Blank, Lit("===", Star(Blank, Lit("END", Star(Blank, Lit("===", End))))))
  const AT_BODY_END := Opt("\n", END_MARK)
  const BODY := Mark(LazyStar(Any, Mark(AT_BODY_END)))
  const LINE_REST := Star(Blank, Lit("\n", BODY))
  const AFTER_PATH := Star(Blank, Opt("===", LINE_REST))
  const PATH := Mark(One(PathChar, LazyStar(PathChar, Mark(AFTER_PATH))))
  const FILE_TAG := Lit("FILE:", Star(Blank, PATH))
  const FILE_BLOCK := LineStart(Star(Blank, Lit("===", Star(Blank, FILE_TAG))))

  const AFTER_DELETED := Star(Blank, Opt("===", Star(Blank, LineEnd(End))))
  const DELETED := Mark(One(PathChar, LazyStar(PathChar, Mark(AFTER_DELETED))))
  const DELETE_TAG := Lit("DELETE:", Star(Blank, DELETED))
  const DELETE_BLOCK := LineStart(Star(Blank, Lit("===", Star(Blank, DELETE_TAG))))

  type Changes = seq<(string, Option<string>)>

  // ---- Printing -------------------------------------------------------------------

  /** What the clone has at a path: nothing inside it, no file, a file that cannot be read, or a text. */
  datatype FileState = Outside | Missing | Unreadable | Text(raw: string)

  /** Reading a text file turns every line end into a newline. */
  function Universal(raw: string): string {
    if raw == [] then []
    else if raw[0] == '\r' then "\n" + Universal(if |raw| > 1 && raw[1] == '\n' then raw[2..] else raw[1..])
    else [raw[0]] + Universal(raw[1..])
  }

  lemma {:induction false} NoCarriageReturns(raw: string)
    requires '\r' !in raw
    ensures Universal(raw) == raw
  {
    if raw != [] { NoCarriageReturns(raw[1..]); }
  }

  /** The first line end, of whatever form, becomes one newline; the rest is read the same way. */
  lemma {:induction false} LineEndIsNewline(line: string, brk: string, rest: string)
    requires '\r' !in line && (brk == "\r\n" || (brk == "\r" && (rest == "" || rest[0] != '\n')))
    ensures Universal(line + brk + rest) == line + "\n" + Universal(rest)
  {
    var raw := line + brk + rest;
    if line == "" {
      assert raw == brk + rest;
      assert raw[|brk|..] == rest;
    } else {
      assert raw[1..] == line[1..] + brk + rest;
      LineEndIsNewline(line[1..], brk, rest);
    }
  }

  function Take(s: string, cap: nat): string {
    if |s| <= cap then s else s[..cap]
  }

  function Block(path: string, body: string): string {
    "===FILE: " + path + "===\n" + body + "\n===END==="
  }

  const NO_SUCH_FILE := "(does not exist — you may create it)"

  /** The part shown for one path, if any. */
  function PartFor(rel: string, f: FileState, cap: nat): seq<string> {
    match f
    case Outside => []
    case Missing => [Block(rel, NO_SUCH_FILE)]
    case Unreadable => []
    case Text(raw) => [Block(rel, Take(Universal(raw), cap))]
  }

  function Parts(files: string -> FileState, paths: seq<string>, cap: nat): seq<string> {
    if paths == [] then []
    else
      var last := paths[|paths| - 1];
      Parts(files, paths[..|paths| - 1], cap) + PartFor(last, files(last), cap)
  }

  function Join(parts: seq<string>): string {
    if parts == [] then "" else if |parts| == 1 then parts[0] else parts[0] + "\n\n" + Join(parts[1..])
  }

  /** What is shown of one path: a note where there is no file, and of a text as much from its front as the cap allows,
      with its line ends read as newlines. */
  lemma PartForMeans(rel: string, f: FileState, cap: nat) returns (body: string)
    ensures f.Outside? || f.Unreadable? ==> PartFor(rel, f, cap) == []
    ensures f.Missing? || f.Text? ==> PartFor(rel, f, cap) == ["===FILE: " + rel + "===\n" + body + "\n===END==="]
    ensures f.Missing? ==> body == "(does not exist — you may create it)"
    ensures f.Text? ==> body <= Universal(f.raw)
    ensures f.Text? ==> |body| == if |Universal(f.raw)| < cap then |Universal(f.raw)| else cap
  {
    body := if f.Text? then Take(Universal(f.raw), cap) else NO_SUCH_FILE;
    assert "===FILE: " + rel + "===\n" + body + "\n===END===" == Block(rel, body);
  }

  /** The parts come in the order of the paths. */
  lemma {:induction false} PartsInOrder(files: string -> FileState, a: seq<string>, b: seq<string>, cap: nat)
    ensures Parts(files, a + b, cap) == Parts(files, a, cap) + Parts(files, b, cap)
  {
    if b == [] {
      assert a + b == a;
    } else {
      assert (a + b)[..|a + b| - 1] == a + b[..|b| - 1];
      PartsInOrder(files, a, b[..|b| - 1], cap);
    }
  }

  method FullFilesContext(files: string -> FileState, paths: seq<string>, cap: nat) returns (text: string)
    ensures text == Join(Parts(files, paths, cap))
  {
    var parts := [];
    for n := 0 to |paths|
      invariant parts == Parts(files, paths[..n], cap)
    {
      assert paths[..n + 1][..n] == paths[..n];
      match files(paths[n]) {
        case Outside =>
        case Missing => parts := parts + [Block(paths[n], NO_SUCH_FILE)];
        case Unreadable =>
        case Text(raw) => parts := parts + [Block(paths[n], Take(Universal(raw), cap))];
      }
    }
    assert paths[..|paths|] == paths;
    text := Join(parts);
  }

  // ---- Parsing ---------------------------------------------------------------------

  function Slice(text: string, i: nat, j: nat): string {
    if i <= j <= |text| then text[i..j] else ""
  }

  /** The change that one FILE match stands for. */
  function FileChange(text: string, m: Match): (string, Option<string>) {
    match m
    case MarkAt(p0, MarkAt(p1, MarkAt(b0, MarkAt(b1, EndsAt(_))))) =>
      (Strip(Slice(text, p0, p1)), Some(Slice(text, b0, b1)))
    case _ => ("", None)
  }

  function DeleteChange(text: string, m: Match): (string, Option<string>) {
    match m
    case MarkAt(p0, MarkAt(p1, EndsAt(_))) => (Strip(Slice(text, p0, p1)), None)
    case _ => ("", None)
  }

  function PutAll(d: Changes, found: Changes): Changes
    decreases |found|
  {
    if found == [] then d else PutAll(Put(d, found[0].0, found[0].1), found[1..])
  }

  function FileChanges(text: string, found: Matches): Changes {
    if found.NoMore? then [] else [FileChange(text, found.first)] + FileChanges(text, found.rest)
  }

  function DeleteChanges(text: string, found: Matches): Changes {
    if found.NoMore? then [] else [DeleteChange(text, found.first)] + DeleteChanges(text, found.rest)
  }

  /** All FILE blocks in order, then all DELETE lines; the last word on a path wins. */
  function Extracted(text: string): Changes {
    PutAll(PutAll([], FileChanges(text, FindAll(FILE_BLOCK, text, 0))),
      DeleteChanges(text, FindAll(DELETE_BLOCK, text, 0)))
  }

  method ExtractFileBlocks(text: string) returns (changes: Changes)
    ensures changes == Extracted(text)
  {
    changes := [];
    var files, deletes := FindAll(FILE_BLOCK, text, 0), FindAll(DELETE_BLOCK, text, 0);
    ghost var all := PutAll([], FileChanges(text, files));
    while files.More?
      invariant PutAll(changes, FileChanges(text, files)) == all
      decreases files
    {
      var c := FileChange(text, files.first);
      assert FileChanges(text, files)[1..] == FileChanges(text, files.rest);
      changes := Put(changes, c.0, c.1);
      files := files.rest;
    }
    ghost var final := Extracted(text);
    while deletes.More?
      invariant PutAll(changes, DeleteChanges(text, deletes)) == final
      decreases deletes
    {
      var c := DeleteChange(text, deletes.first);
      assert DeleteChanges(text, deletes)[1..] == DeleteChanges(text, deletes.rest);
      changes := Put(changes, c.0, c.1);
      deletes := deletes.rest;
    }
  }

  // ---- One printed block is one match -------------------------------------------------

  /** Non-empty, trimmed, and free of `=` and newlines. */
  predicate PlainPath(p: string) {
    p != "" && !IsSpace(p[0]) && !IsSpace(p[|p| - 1]) && '=' !in p && '\n' !in p
  }

  /** No END marker and no DELETE line anywhere. */
  ghost predicate PlainBody(b: string) {
    Absent(END_MARK, b) && Absent(DELETE_BLOCK, b)
  }

  lemma Drop(s: string, i: nat, a: string, x: string)
    requires i <= |s| && a + x <= s[i..]
    ensures i + |a| <= |s| && x <= s[i + |a|..] && a <= s[i..]
  {
    assert s[i..] == a + s[i + |a|..];
    assert (a + x)[..|a|] == a;
    assert forall k :: 0 <= k < |x| ==> x[k] == (a + x)[|a| + k];
  }

  /** The end marker, printed, matches. */
  lemma EndMarkMatches(s: string, i: nat)
    requires i <= |s| && "===END===" <= s[i..]
    ensures M(END_MARK, s, i) == Some(EndsAt(i + 9))
  {
    assert "===END===" == "===" + "END===" && "END===" == "END" + "===";
    Drop(s, i, "===", "END===");
    Drop(s, i + 3, "END", "===");
    StarTakesRun(Blank, Lit("===", End), s, i + 6, i + 6);
    StarTakesRun(Blank, Lit("END", Star(Blank, Lit("===", End))), s, i + 3, i + 3);
    StarTakesRun(Blank, Lit("===", Star(Blank, Lit("END", Star(Blank, Lit("===", End))))), s, i, i);
  }

  lemma NoNewlineInTags()
    ensures '\n' !in "===" && '\n' !in "END" && '\n' !in "DELETE:"
  {
  }

  lemma EndIsInline()
    ensures Inline(END_MARK)
  {
    NoNewlineInTags();
    assert Inline(Star(Blank, Lit("===", End)));
    assert Inline(Star(Blank, Lit("END", Star(Blank, Lit("===", End)))));
  }

  lemma DeleteIsInline()
    ensures Inline(DELETE_BLOCK)
  {
    NoNewlineInTags();
    assert Inline(Mark(AFTER_DELETED));
    assert Inline(DELETE_TAG);
  }

  lemma StandsThere(s: string, bs: nat, b: string, rest: string)
    requires bs <= |s| && b + ("\n" + rest) <= s[bs..] && (bs == 0 || s[bs - 1] == '\n')
    ensures Embedded(s, bs, b) && bs + |b| < |s| && s[bs + |b|] == '\n' && rest <= s[bs + |b| + 1..]
  {
    Drop(s, bs, b, "\n" + rest);
    Drop(s, bs + |b|, "\n", rest);
    assert s[bs + |b|] == s[bs + |b|..][0];
    assert forall k :: 0 <= k < |b| ==> s[bs + k] == s[bs..][k] == b[k];
  }

  /** Within the body its end does not match, with or without a newline before the marker. */
  lemma NoBodyEndInside(s: string, bs: nat, b: string)
    requires Absent(END_MARK, b) && Embedded(s, bs, b)
    ensures forall t :: bs <= t < bs + |b| ==> M(Mark(AT_BODY_END), s, t) == None
  {
    EndIsInline();
    AbsentWhereEmbedded(END_MARK, s, bs, b);
    forall t | bs <= t < bs + |b| ensures M(Mark(AT_BODY_END), s, t) == None {
      assert M(END_MARK, s, t) == None && M(END_MARK, s, t + 1) == None;
    }
  }

  lemma BodyEndMatches(s: string, be: nat)
    requires be < |s| && s[be] == '\n' && "===END===" <= s[be + 1..]
    ensures M(Mark(AT_BODY_END), s, be) == Some(MarkAt(be, EndsAt(be + 10)))
  {
    EndMarkMatches(s, be + 1);
    assert "\n" <= s[be..];
  }

  /** So the lazy body ends exactly there. */
  lemma BodyEndsThere(s: string, bs: nat, b: string)
    requires PlainBody(b) && bs <= |s| && b + "\n===END===" <= s[bs..] && (bs == 0 || s[bs - 1] == '\n')
    ensures M(BODY, s, bs) == Some(MarkAt(bs, MarkAt(bs + |b|, EndsAt(bs + |b| + 10))))
  {
    var be := bs + |b|;
    assert "\n===END===" == "\n" + "===END===";
    StandsThere(s, bs, b, "===END===");
    NoBodyEndInside(s, bs, b);
    BodyEndMatches(s, be);
    LazyStopsFirst(Any, Mark(AT_BODY_END), s, bs, be);
  }

  /** Inside a plain path what must follow it does not match, so the lazy path goes on to its end. */
  lemma PathGoesOn(s: string, ps: nat, p: string, t: nat)
    requires PlainPath(p) && ps <= |s| && p <= s[ps..] && ps <= t < ps + |p|
    ensures M(AFTER_PATH, s, t) == None
  {
    var r := RunEnd(s, ps, p, t);
    assert forall k :: 0 <= k < |p| ==> s[ps + k] == p[k] && p[k] in p;
    forall u | t <= u <= r ensures M(Opt("===", LINE_REST), s, u) == None {
      assert s[u] == p[u - ps];
      assert !At(s, u, "===") by { assert s[u..][0] == s[u]; }
      forall v | u <= v <= r ensures M(Lit("\n", BODY), s, v) == None {
        assert s[v] == p[v - ps] && s[v..][0] == s[v];
      }
      StarFails(Blank, Lit("\n", BODY), s, u, r);
    }
    StarFails(Blank, Opt("===", LINE_REST), s, t, r);
  }

  /** The first character from `t` on that is not blank is still in the path. */
  lemma RunEnd(s: string, ps: nat, p: string, t: nat) returns (r: nat)
    requires PlainPath(p) && ps <= |s| && p <= s[ps..] && ps <= t < ps + |p|
    ensures t <= r < ps + |p| <= |s| && !Has(Blank, s[r])
    decreases ps + |p| - t
  {
    assert s[t] == s[ps..][t - ps] == p[t - ps];
    if Has(Blank, s[t]) {
      r := RunEnd(s, ps, p, t + 1);
    } else {
      r := t;
    }
  }

  /** From the end of a path on, a printed block matches to its end. */
  lemma AfterPathMatches(s: string, pe: nat, b: string)
    requires PlainBody(b) && pe <= |s| && "===\n" + (b + "\n===END===") <= s[pe..]
    ensures var bs := pe + 4;
      M(Mark(AFTER_PATH), s, pe) == Some(MarkAt(pe, MarkAt(bs, MarkAt(bs + |b|, EndsAt(bs + |b| + 10)))))
  {
    var rest, bs := b + "\n===END===", pe + 4;
    assert "===\n" + rest == "===" + ("\n" + rest);
    Drop(s, pe, "===", "\n" + rest);
    Drop(s, pe + 3, "\n", rest);
    assert s[pe] == s[pe..][0] == '=' && s[pe + 3] == s[pe + 3..][0] == '\n';
    BodyEndsThere(s, bs, b);
    assert M(Lit("\n", BODY), s, pe + 3) == M(BODY, s, bs);
    StarTakesRun(Blank, Lit("\n", BODY), s, pe + 3, pe + 3);
    assert M(LINE_REST, s, pe + 3) == M(BODY, s, bs);
    assert M(Opt("===", LINE_REST), s, pe) == M(BODY, s, bs);
    StarTakesRun(Blank, Opt("===", LINE_REST), s, pe, pe);
  }

  /** A header may lack its closing marks. */
  lemma AfterLoosePathMatches(s: string, pe: nat, b: string)
    requires PlainBody(b) && pe <= |s| && "\n" + (b + "\n===END===") <= s[pe..]
    ensures var bs := pe + 1;
      M(Mark(AFTER_PATH), s, pe) == Some(MarkAt(pe, MarkAt(bs, MarkAt(bs + |b|, EndsAt(bs + |b| + 10)))))
  {
    Drop(s, pe, "\n", b + "\n===END===");
    assert s[pe] == s[pe..][0] == '\n';
    BodyEndsThere(s, pe + 1, b);
    assert M(Lit("\n", BODY), s, pe) == M(BODY, s, pe + 1);
    StarTakesRun(Blank, Lit("\n", BODY), s, pe, pe);
    assert M(Opt("===", LINE_REST), s, pe) == M(LINE_REST, s, pe);
    StarTakesRun(Blank, Opt("===", LINE_REST), s, pe, pe);
  }

  lemma PathChars(s: string, ps: nat, p: string)
    requires PlainPath(p) && ps <= |s| && p <= s[ps..]
    ensures ps + |p| <= |s| && forall t :: ps <= t < ps + |p| ==> Has(PathChar, s[t])
  {
    forall t | ps <= t < ps + |p| ensures Has(PathChar, s[t]) {
      assert s[t] == s[ps..][t - ps] == p[t - ps] && p[t - ps] in p;
    }
  }

  lemma MarkedOne(cls: Class, q: Pat, s: string, i: nat, m: Match)
    requires i < |s| && Has(cls, s[i]) && M(q, s, i + 1) == Some(m)
    ensures M(Mark(One(cls, q)), s, i) == Some(MarkAt(i, m))
  {
  }

  /** A lazy path goes on to its end if what must follow matches there and nowhere inside. */
  lemma LazyPath(rest: Pat, s: string, ps: nat, pe: nat, m: Match)
    requires ps < pe <= |s| && Has(PathChar, s[ps]) && M(rest, s, pe) == Some(m)
    requires forall t :: ps < t < pe ==> Has(PathChar, s[t]) && M(rest, s, t) == None
    ensures M(Mark(One(PathChar, LazyStar(PathChar, rest))), s, ps) == Some(MarkAt(ps, m))
  {
    LazyStopsFirst(PathChar, rest, s, ps + 1, pe);
    MarkedOne(PathChar, LazyStar(PathChar, rest), s, ps, m);
  }

  lemma PathGoesOnThroughout(s: string, ps: nat, p: string)
    requires PlainPath(p) && ps <= |s| && p <= s[ps..]
    ensures ps + |p| <= |s|
    ensures forall t :: ps <= t < ps + |p| ==> Has(PathChar, s[t]) && M(Mark(AFTER_PATH), s, t) == None
  {
    PathChars(s, ps, p);
    forall t | ps <= t < ps + |p| ensures M(Mark(AFTER_PATH), s, t) == None {
      PathGoesOn(s, ps, p, t);
      NoneMarked(AFTER_PATH, s, t);
    }
  }

  lemma NoneMarked(q: Pat, s: string, t: nat)
    requires t <= |s| && M(q, s, t) == None
    ensures M(Mark(q), s, t) == None
  {
  }

  /** The path is marked from end to end, whatever matches after it. */
  lemma PathMatches(s: string, ps: nat, p: string, m: Match)
    requires PlainPath(p) && ps <= |s| && p <= s[ps..] && ps + |p| <= |s| && M(Mark(AFTER_PATH), s, ps + |p|) == Some(m)
    ensures M(PATH, s, ps) == Some(MarkAt(ps, m))
  {
    PathGoesOnThroughout(s, ps, p);
    LazyPath(Mark(AFTER_PATH), s, ps, ps + |p|, m);
  }

  /** A word, one space, and then `q`. */
  lemma WordThen(word: string, q: Pat, s: string, i: nat, m: Match)
    requires i + |word| + 1 < |s| && At(s, i, word) && s[i + |word|] == ' ' && !Has(Blank, s[i + |word| + 1])
    requires M(q, s, i + |word| + 1) == Some(m)
    ensures M(Lit(word, Star(Blank, q)), s, i) == Some(m)
  {
    StarTakesRun(Blank, q, s, i + |word|, i + |word| + 1);
  }

  /** Three marks at a line start, and then `tag`. */
  lemma LineOf(tag: Pat, s: string, i: nat, m: Match)
    requires i + 3 < |s| && At(s, i, "===") && !Has(Blank, s[i + 3]) && (i == 0 || s[i - 1] == '\n')
    requires M(tag, s, i + 3) == Some(m)
    ensures M(LineStart(Star(Blank, Lit("===", Star(Blank, tag)))), s, i) == Some(m)
  {
    assert s[i] == s[i..][0] == '=';
    StarTakesRun(Blank, tag, s, i + 3, i + 3);
    StarTakesRun(Blank, Lit("===", Star(Blank, tag)), s, i, i);
  }

  lemma TagLayout(s: string, i: nat, word: string, p: string)
    requires i <= |s| && word != "" && p != "" && "===" + (word + (" " + p)) <= s[i..]
    ensures var j := i + 4 + |word|;
      && j < |s| && At(s, i, "===") && At(s, i + 3, word) && p <= s[j..]
      && s[i + 3] == word[0] && s[j - 1] == ' ' && s[j] == p[0]
  {
    Drop(s, i, "===", word + (" " + p));
    Drop(s, i + 3, word, " " + p);
    Drop(s, i + 3 + |word|, " ", p);
    assert s[i + 3] == s[i + 3..][0] && s[i + 3 + |word|] == s[i + 3 + |word|..][0]
      && s[i + 4 + |word|] == s[i + 4 + |word|..][0];
  }

  /** Three marks, a word, one space, and then what `q` matches. */
  lemma TagMatches(s: string, i: nat, word: string, q: Pat, m: Match)
    requires word != "" && i + 4 + |word| < |s| && At(s, i, "===") && At(s, i + 3, word) && (i == 0 || s[i - 1] == '\n')
    requires !Has(Blank, s[i + 3]) && s[i + 3 + |word|] == ' ' && !Has(Blank, s[i + 4 + |word|])
    requires M(q, s, i + 4 + |word|) == Some(m)
    ensures M(LineStart(Star(Blank, Lit("===", Star(Blank, Lit(word, Star(Blank, q)))))), s, i) == Some(m)
  {
    WordThen(word, q, s, i + 3, m);
    LineOf(Lit(word, Star(Blank, q)), s, i, m);
  }

  lemma FileTagMatches(s: string, i: nat, p: string, m: Match)
    requires p != "" && !Has(Blank, p[0]) && i <= |s| && "===" + ("FILE:" + (" " + p)) <= s[i..]
      && (i == 0 || s[i - 1] == '\n')
    requires i + 9 <= |s| && M(PATH, s, i + 9) == Some(m)
    ensures M(FILE_BLOCK, s, i) == Some(m)
  {
    TagLayout(s, i, "FILE:", p);
    TagMatches(s, i, "FILE:", PATH, m);
  }

  lemma PathBehindTag(s: string, i: nat, p: string)
    requires i <= |s| && "===" + ("FILE:" + (" " + p)) <= s[i..]
    ensures i + 9 <= |s| && p <= s[i + 9..]
  {
    Drop(s, i, "===", "FILE:" + (" " + p));
    Drop(s, i + 3, "FILE:", " " + p);
    Drop(s, i + 8, " ", p);
  }

  lemma PlainPathsAreNotBlank(p: string)
    requires PlainPath(p)
    ensures !Has(Blank, p[0])
  {
  }

  lemma HeaderMatches(s: string, i: nat, p: string, m: Match)
    requires PlainPath(p) && i <= |s| && "===" + ("FILE:" + (" " + p)) <= s[i..] && i + 9 + |p| <= |s|
      && (i == 0 || s[i - 1] == '\n')
    requires M(Mark(AFTER_PATH), s, i + 9 + |p|) == Some(m)
    ensures M(FILE_BLOCK, s, i) == Some(MarkAt(i + 9, m))
  {
    var ps := i + 9;
    PlainPathsAreNotBlank(p);
    PathBehindTag(s, i, p);
    PathMatches(s, ps, p, m);
    FileTagMatches(s, i, p, MarkAt(i + 9, m));
  }

  const OPEN := "===FILE: "

  lemma OpenWithPath(s: string, i: nat, p: string, rest: string)
    requires i <= |s| && OPEN + (p + rest) <= s[i..]
    ensures "===" + ("FILE:" + (" " + p)) <= s[i..] && i + 9 + |p| <= |s| && rest <= s[i + 9 + |p|..]
  {
    Drop(s, i, OPEN, p + rest);
    Drop(s, i + 9, p, rest);
    assert OPEN == "===" + ("FILE:" + " ");
    assert "===" + ("FILE:" + (" " + p)) == OPEN + p;
    assert OPEN + (p + rest) == (OPEN + p) + rest;
  }

  lemma BlockIsOpened(p: string, b: string)
    ensures Block(p, b) == OPEN + (p + ("===\n" + (b + "\n===END===")))
  {
  }

  /** A printed block at a line start is one match, with exactly its path and body marked. */
  lemma BlockMatches(s: string, i: nat, p: string, b: string)
    requires PlainPath(p) && PlainBody(b) && i <= |s| && Block(p, b) <= s[i..] && (i == 0 || s[i - 1] == '\n')
    ensures
      var (pe, bs) := (i + 9 + |p|, i + 13 + |p|);
      M(FILE_BLOCK, s, i) == Some(MarkAt(i + 9, MarkAt(pe, MarkAt(bs, MarkAt(bs + |b|, EndsAt(bs + |b| + 10))))))
  {
    BlockIsOpened(p, b);
    OpenWithPath(s, i, p, "===\n" + (b + "\n===END==="));
    AfterPathMatches(s, i + 9 + |p|, b);
    var pe := i + 9 + |p|;
    HeaderMatches(s, i, p, MarkAt(pe, MarkAt(pe + 4, MarkAt(pe + 4 + |b|, EndsAt(pe + 4 + |b| + 10)))));
  }

  /** A block whose header lost its closing marks is one match, with the same path and body marked. */
  lemma LooseBlockMatches(s: string, i: nat, p: string, b: string)
    requires PlainPath(p) && PlainBody(b) && i <= |s| && OPEN + (p + ("\n" + (b + "\n===END==="))) <= s[i..]
      && (i == 0 || s[i - 1] == '\n')
    ensures
      var (pe, bs) := (i + 9 + |p|, i + 10 + |p|);
      M(FILE_BLOCK, s, i) == Some(MarkAt(i + 9, MarkAt(pe, MarkAt(bs, MarkAt(bs + |b|, EndsAt(bs + |b| + 10))))))
  {
    OpenWithPath(s, i, p, "\n" + (b + "\n===END==="));
    var pe := i + 9 + |p|;
    AfterLoosePathMatches(s, pe, b);
    HeaderMatches(s, i, p, MarkAt(pe, MarkAt(pe + 1, MarkAt(pe + 1 + |b|, EndsAt(pe + 1 + |b| + 10)))));
  }

  lemma SliceThere(s: string, i: nat, x: string)
    requires i <= |s| && x <= s[i..]
    ensures i + |x| <= |s| && Slice(s, i, i + |x|) == x
  {
    assert s[i..i + |x|] == s[i..][..|x|];
  }

  // ---- One DELETE line is one match ----------------------------------------------------

  lemma DeletedPathGoesOn(s: string, ps: nat, p: string, t: nat)
    requires PlainPath(p) && ps <= |s| && p <= s[ps..] && ps <= t < ps + |p|
    ensures M(AFTER_DELETED, s, t) == None
  {
    var r := RunEnd(s, ps, p, t);
    assert forall k :: 0 <= k < |p| ==> s[ps + k] == p[k] && p[k] in p;
    forall u | t <= u <= r ensures M(Opt("===", Star(Blank, LineEnd(End))), s, u) == None {
      assert s[u] == p[u - ps];
      assert !At(s, u, "===") by { assert s[u..][0] == s[u]; }
      forall v | u <= v <= r ensures M(LineEnd(End), s, v) == None {
        assert s[v] == p[v - ps];
      }
      StarFails(Blank, LineEnd(End), s, u, r);
    }
    StarFails(Blank, Opt("===", Star(Blank, LineEnd(End))), s, t, r);
  }

  lemma AfterDeletedMatches(s: string, pe: nat)
    requires pe + 3 <= |s| && At(s, pe, "===") && (pe + 3 == |s| || s[pe + 3] == '\n')
    ensures M(Mark(AFTER_DELETED), s, pe) == Some(MarkAt(pe, EndsAt(pe + 3)))
  {
    assert s[pe] == s[pe..][0] == '=';
    StarTakesRun(Blank, LineEnd(End), s, pe + 3, pe + 3);
    assert M(Opt("===", Star(Blank, LineEnd(End))), s, pe) == Some(EndsAt(pe + 3));
    StarTakesRun(Blank, Opt("===", Star(Blank, LineEnd(End))), s, pe, pe);
  }

  lemma DeletedPathMatches(s: string, ps: nat, p: string)
    requires PlainPath(p) && ps <= |s| && p + "===" <= s[ps..] && ps + |p| + 3 <= |s|
    requires ps + |p| + 3 == |s| || s[ps + |p| + 3] == '\n'
    ensures M(DELETED, s, ps) == Some(MarkAt(ps, MarkAt(ps + |p|, EndsAt(ps + |p| + 3))))
  {
    Drop(s, ps, p, "===");
    AfterDeletedMatches(s, ps + |p|);
    PathChars(s, ps, p);
    forall t | ps < t < ps + |p| ensures Has(PathChar, s[t]) && M(Mark(AFTER_DELETED), s, t) == None {
      DeletedPathGoesOn(s, ps, p, t);
    }
    LazyPath(Mark(AFTER_DELETED), s, ps, ps + |p|, MarkAt(ps + |p|, EndsAt(ps + |p| + 3)));
  }

  lemma DeletedAfterTag(s: string, j: nat, p: string)
    requires PlainPath(p) && j <= |s| && p + "===" <= s[j..]
    requires j + 3 + |p| == |s| || (j + 3 + |p| < |s| && s[j + 3 + |p|] == '\n')
    ensures M(DELETED, s, j) == Some(MarkAt(j, MarkAt(j + |p|, EndsAt(j + 3 + |p|)))) && Slice(s, j, j + |p|) == p
  {
    Drop(s, j, p, "===");
    DeletedPathMatches(s, j, p);
    SliceThere(s, j, p);
  }

  /** A DELETE line of its own is one match, with exactly its path marked. */
  lemma DeleteMatches(s: string, i: nat, p: string)
    requires PlainPath(p) && i <= |s| && "===" + ("DELETE:" + (" " + (p + "==="))) <= s[i..]
      && (i == 0 || s[i - 1] == '\n')
    requires i + 14 + |p| == |s| || (i + 14 + |p| < |s| && s[i + 14 + |p|] == '\n')
    ensures M(DELETE_BLOCK, s, i) == Some(MarkAt(i + 11, MarkAt(i + 11 + |p|, EndsAt(i + 14 + |p|))))
    ensures Slice(s, i + 11, i + 11 + |p|) == p
  {
    TagLayout(s, i, "DELETE:", p + "===");
    DeletedAfterTag(s, i + 11, p);
    var m := MarkAt(i + 11, MarkAt(i + 11 + |p|, EndsAt(i + 14 + |p|)));
    TagMatches(s, i, "DELETE:", DELETED, m);
  }

  // ---- The last word on a path -------------------------------------------------------------

  function Lookup(d: Changes, path: string): Option<Option<string>> {
    if d == [] then None else if d[0].0 == path then Some(d[0].1) else Lookup(d[1..], path)
  }

  /** What the last of these changes says about a path. */
  function LastWord(found: Changes, path: string): Option<Option<string>>
    decreases |found|
  {
    if found == [] then None
    else
      var later := LastWord(found[1..], path);
      if later.Some? then later else if found[0].0 == path then Some(found[0].1) else None
  }

  lemma {:induction false} LookupPut(d: Changes, key: string, value: Option<string>, path: string)
    ensures Lookup(Put(d, key, value), path) == if path == key then Some(value) else Lookup(d, path)
  {
    if d != [] && d[0].0 != key { LookupPut(d[1..], key, value, path); }
  }

  lemma {:induction false} LookupPutAll(d: Changes, found: Changes, path: string)
    ensures
      Lookup(PutAll(d, found), path) ==
        if LastWord(found, path).Some? then LastWord(found, path) else Lookup(d, path)
    decreases |found|
  {
    if found != [] {
      LookupPut(d, found[0].0, found[0].1, path);
      LookupPutAll(Put(d, found[0].0, found[0].1), found[1..], path);
    }
  }

  /** A DELETE line has the last word on its path, wherever it stands; otherwise the last FILE block has. */
  lemma LastWordWins(text: string, path: string)
    ensures
      var deleted := LastWord(DeleteChanges(text, FindAll(DELETE_BLOCK, text, 0)), path);
      var filed := LastWord(FileChanges(text, FindAll(FILE_BLOCK, text, 0)), path);
      Lookup(Extracted(text), path) == if deleted.Some? then deleted else filed
  {
    LookupPutAll([], FileChanges(text, FindAll(FILE_BLOCK, text, 0)), path);
    LookupPutAll(PutAll([], FileChanges(text, FindAll(FILE_BLOCK, text, 0))),
      DeleteChanges(text, FindAll(DELETE_BLOCK, text, 0)), path);
  }
}
