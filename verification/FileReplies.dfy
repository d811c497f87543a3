/**
 * What ExtractFileBlocks makes of a whole reply: prose, complete blocks, blocks
 * whose header lost its closing marks, and DELETE lines, in any order.
 */
module FileReplies {
  import opened Options
  import opened Regex
  import opened FileBlocks
  import opened FileRoundTrip

  /** The front of a FILE block, up to its tag. */
  const FILE_HEAD := LineStart(Star(Blank, Lit("===", Star(Blank, Lit("FILE:", End)))))

  datatype Item =
    | Prose(text: string)
    | Complete(path: string, body: string)
    | Loose(path: string, body: string)
    | Deletion(path: string)

  /** A block whose header lost its closing marks. */
  function LooseBlock(p: string, b: string): string {
    OPEN + (p + ("\n" + (b + "\n===END===")))
  }

  function DeleteLine(p: string): string {
    "===" + ("DELETE:" + (" " + (p + "===")))
  }

  function Written(item: Item): string {
    match item
    case Prose(text) => text
    case Complete(p, b) => Block(p, b)
    case Loose(p, b) => LooseBlock(p, b)
    case Deletion(p) => DeleteLine(p)
  }

  /** The items, each on lines of its own. */
  function Reply(items: seq<Item>): string {
    if items == [] then ""
    else if |items| == 1 then Written(items[0])
    else Written(items[0]) + ("\n" + Reply(items[1..]))
  }

  /** Prose opens no block and holds no DELETE line; paths and bodies are plain. */
  ghost predicate Clear(item: Item) {
    match item
    case Prose(text) => Absent(FILE_HEAD, text) && Absent(DELETE_BLOCK, text)
    case Complete(p, b) => PlainPath(p) && PlainBody(b)
    case Loose(p, b) => PlainPath(p) && PlainBody(b)
    case Deletion(p) => PlainPath(p)
  }

  /** What a FILE search should find in an item, and a DELETE search. */
  function Replacing(item: Item): Changes {
    if item.Complete? || item.Loose? then [(item.path, Some(item.body))] else []
  }

  function Deleting(item: Item): Changes {
    if item.Deletion? then [(item.path, None)] else []
  }

  function Collected(what: Item -> Changes, items: seq<Item>): Changes {
    if items == [] then [] else what(items[0]) + Collected(what, items[1..])
  }

  // ---- A pattern matches only where its front does -----------------------------------

  lemma {:induction false} StarFront(cls: Class, front: Pat, p: Pat, s: string, i: nat)
    requires i <= |s| && M(Star(cls, front), s, i) == None
    requires forall t :: i <= t <= |s| && M(front, s, t) == None ==> M(p, s, t) == None
    ensures M(Star(cls, p), s, i) == None
    decreases |s| - i
  {
    if i < |s| && Has(cls, s[i]) { StarFront(cls, front, p, s, i + 1); }
  }

  lemma NoBlockWithoutHead(s: string, i: nat)
    requires i <= |s| && M(FILE_HEAD, s, i) == None
    ensures M(FILE_BLOCK, s, i) == None
  {
    var tagged, tag := Star(Blank, FILE_TAG), Star(Blank, Lit("FILE:", End));
    forall t | i <= t <= |s| && M(Lit("===", tag), s, t) == None ensures M(Lit("===", tagged), s, t) == None {
      if At(s, t, "===") { StarFront(Blank, Lit("FILE:", End), FILE_TAG, s, t + 3); }
    }
    if i == 0 || s[i - 1] == '\n' { StarFront(Blank, Lit("===", tag), Lit("===", tagged), s, i); }
  }

  lemma HeadIsInline()
    ensures Inline(FILE_HEAD)
  {
    NoNewlineInTags();
    assert '\n' !in "FILE:";
    assert Inline(Star(Blank, Lit("FILE:", End)));
  }

  // ---- Where an item stands ------------------------------------------------------------

  /** `x` stands at `i` on lines of its own. */
  ghost predicate OnLines(s: string, i: nat, x: string) {
    && i + |x| <= |s| && x <= s[i..]
    && (i == 0 || s[i - 1] == '\n') && (i + |x| == |s| || s[i + |x|] == '\n')
  }

  /** The pattern matches nowhere from `i` to `j`. */
  ghost predicate NoMatch(pat: Pat, s: string, i: nat, j: nat) {
    j <= |s| && forall t :: i <= t <= j ==> M(pat, s, t) == None
  }

  /** The rest of a search, after a stretch of lines that ends at `e`. */
  function After(pat: Pat, s: string, e: nat): Matches
    requires e <= |s|
  {
    if e == |s| then NoMore else FindAll(pat, s, e + 1)
  }

  lemma {:induction false} SearchSkips(pat: Pat, s: string, i: nat, e: nat)
    requires i <= e && NoMatch(pat, s, i, e)
    ensures FindAll(pat, s, i) == After(pat, s, e)
    decreases e - i
  {
    FindAllSkips(pat, s, i);
    if i < e { SearchSkips(pat, s, i + 1, e); }
  }

  lemma SearchTakes(pat: Pat, s: string, i: nat, m: Match, e: nat)
    requires i < e <= |s| && M(pat, s, i) == Some(m) && Last(m) == e && M(pat, s, e) == None
    ensures FindAll(pat, s, i) == More(m, After(pat, s, e))
  {
    FindAllTakes(pat, s, i, m, e);
    FindAllSkips(pat, s, e);
  }

  /** Nothing begins inside a line. */
  lemma NotAfterMarks(s: string, e: nat)
    requires 0 < e <= |s| && s[e - 1] == '='
    ensures M(FILE_BLOCK, s, e) == None && M(DELETE_BLOCK, s, e) == None
  {
  }

  lemma EndsInMarks(s: string, i: nat, x: string)
    requires OnLines(s, i, x) && x != "" && x[|x| - 1] == '='
    ensures M(FILE_BLOCK, s, i + |x|) == None && M(DELETE_BLOCK, s, i + |x|) == None
  {
    assert s[i + |x| - 1] == s[i..][|x| - 1];
    NotAfterMarks(s, i + |x|);
  }

  // ---- Items without a FILE block ---------------------------------------------------------

  lemma NoBlockOnLines(s: string, i: nat, x: string)
    requires OnLines(s, i, x) && Absent(FILE_HEAD, x)
    ensures NoMatch(FILE_BLOCK, s, i, i + |x|)
  {
    LastLineStands(s, i, x);
    HeadIsInline();
    AbsentWhereEmbedded(FILE_HEAD, s, i, x);
    forall t | i <= t <= i + |x| ensures M(FILE_BLOCK, s, t) == None { NoBlockWithoutHead(s, t); }
  }

  lemma NoHeadOnDeletion(p: string)
    requires PlainPath(p)
    ensures Absent(FILE_HEAD, DeleteLine(p))
  {
    var line := DeleteLine(p);
    assert line[..3] == "===" && line[3..][0] == 'D' && "FILE:"[0] == 'F';
    assert line == "===DELETE: " + p + "===" && '\n' !in "===DELETE: " && '\n' !in "===";
    forall j | 0 <= j <= |line| ensures M(FILE_HEAD, line, j) == None {
      if j > 0 {
        assert line[j - 1] in line;
      } else {
        StarFails(Blank, Lit("FILE:", End), line, 3, 3);
        StarFails(Blank, Lit("===", Star(Blank, Lit("FILE:", End))), line, 0, 0);
      }
    }
  }

  // ---- Items without a DELETE line ---------------------------------------------------------

  lemma NoDeleteOnLines(s: string, i: nat, x: string)
    requires OnLines(s, i, x) && Absent(DELETE_BLOCK, x)
    ensures NoMatch(DELETE_BLOCK, s, i, i + |x|)
  {
    LastLineStands(s, i, x);
    DeleteIsInline();
    AbsentWhereEmbedded(DELETE_BLOCK, s, i, x);
  }

  lemma NoDeleteInLoose(s: string, i: nat, p: string, b: string)
    requires PlainPath(p) && PlainBody(b) && OnLines(s, i, LooseBlock(p, b))
    ensures NoMatch(DELETE_BLOCK, s, i, i + |LooseBlock(p, b)|)
  {
    var line := OPEN + p;
    assert line[..3] == "===" && line[3] == 'F';
    assert '\n' !in line by { assert '\n' !in OPEN; }
    NoDeleteOnLine(line);
    NoDeleteOnClose();
    assert LooseBlock(p, b) == line + ("\n" + (b + ("\n" + CLOSE)));
    NoDeleteInLines(s, i, line, b, CLOSE);
  }

  // ---- Items and what is found of them ---------------------------------------------------------

  /** The FILE match of a block at `i`: a complete header is three marks longer than a loose one. */
  function BlockMarks(i: nat, item: Item): Match
    requires item.Complete? || item.Loose?
  {
    var bs := i + 9 + |item.path| + if item.Complete? then 4 else 1;
    MarkAt(i + 9, MarkAt(i + 9 + |item.path|, MarkAt(bs, MarkAt(bs + |item.body|, EndsAt(bs + |item.body| + 10)))))
  }

  lemma LastOfBlock(i: nat, item: Item)
    requires item.Complete? || item.Loose?
    ensures Last(BlockMarks(i, item)) == i + |Written(item)|
  {
    var m := BlockMarks(i, item);
    assert Last(m.rest.rest.rest.rest) == i + |Written(item)|;
    assert Last(m.rest.rest.rest) == Last(m.rest.rest) == Last(m.rest) == Last(m);
  }

  /** What stands between two known texts. */
  lemma StandsBetween(s: string, j: nat, before: string, b: string, tail: string)
    requires j <= |s| && before + (b + tail) <= s[j..]
    ensures Slice(s, j + |before|, j + |before| + |b|) == b
  {
    Drop(s, j, before, b + tail);
    Drop(s, j + |before|, b, tail);
    SliceThere(s, j + |before|, b);
  }

  lemma LoosePathAndBody(s: string, i: nat, p: string, b: string)
    requires i <= |s| && LooseBlock(p, b) <= s[i..]
    ensures Slice(s, i + 9, i + 9 + |p|) == p && Slice(s, i + 10 + |p|, i + 10 + |p| + |b|) == b
  {
    var rest := "\n" + (b + "\n===END===");
    OpenWithPath(s, i, p, rest);
    PathBehindTag(s, i, p);
    SliceThere(s, i + 9, p);
    StandsBetween(s, i + 9 + |p|, "\n", b, "\n===END===");
  }

  lemma LooseChange(s: string, i: nat, p: string, b: string)
    requires PlainPath(p) && i <= |s| && LooseBlock(p, b) <= s[i..]
    ensures FileChange(s, BlockMarks(i, Loose(p, b))) == (p, Some(b))
  {
    LoosePathAndBody(s, i, p, b);
    StripPlain(p);
  }

  lemma WrittenEndsInMarks(item: Item)
    requires !item.Prose?
    ensures var x := Written(item); x != "" && x[|x| - 1] == '='
  {
  }

  lemma MarksAreFound(pat: Pat, s: string, i: nat, x: string, m: Match)
    requires x != "" && i + |x| <= |s| && M(pat, s, i + |x|) == None
    requires M(pat, s, i) == Some(m) && Last(m) == i + |x|
    ensures FindAll(pat, s, i) == More(m, After(pat, s, i + |x|))
  {
    SearchTakes(pat, s, i, m, i + |x|);
  }

  /** A block that is one match with these marks is found, and the search goes on after it. */
  lemma MatchIsFound(pat: Pat, s: string, i: nat, item: Item)
    requires (item.Complete? || item.Loose?) && OnLines(s, i, Written(item))
    requires M(pat, s, i) == Some(BlockMarks(i, item)) && M(pat, s, i + |Written(item)|) == None
    ensures FindAll(pat, s, i) == More(BlockMarks(i, item), After(pat, s, i + |Written(item)|))
  {
    WrittenEndsInMarks(item);
    LastOfBlock(i, item);
    MarksAreFound(pat, s, i, Written(item), BlockMarks(i, item));
  }

  lemma CompleteIsMatched(s: string, i: nat, p: string, b: string)
    requires Clear(Complete(p, b)) && OnLines(s, i, Block(p, b))
    ensures M(FILE_BLOCK, s, i) == Some(BlockMarks(i, Complete(p, b)))
  {
    BlockMatches(s, i, p, b);
  }

  lemma LooseIsMatched(s: string, i: nat, p: string, b: string)
    requires Clear(Loose(p, b)) && OnLines(s, i, LooseBlock(p, b))
    ensures M(FILE_BLOCK, s, i) == Some(BlockMarks(i, Loose(p, b)))
  {
    LooseBlockMatches(s, i, p, b);
  }

  lemma BlockIsMatched(s: string, i: nat, item: Item)
    requires (item.Complete? || item.Loose?) && Clear(item) && OnLines(s, i, Written(item))
    ensures M(FILE_BLOCK, s, i) == Some(BlockMarks(i, item))
  {
    if item.Complete? {
      CompleteIsMatched(s, i, item.path, item.body);
    } else {
      LooseIsMatched(s, i, item.path, item.body);
    }
  }

  lemma CompleteIsChange(s: string, i: nat, p: string, b: string)
    requires Clear(Complete(p, b)) && OnLines(s, i, Block(p, b))
    ensures FileChange(s, BlockMarks(i, Complete(p, b))) == (p, Some(b))
  {
    MarkedChange(s, i, p, b);
  }

  lemma BlockIsChange(s: string, i: nat, item: Item)
    requires (item.Complete? || item.Loose?) && Clear(item) && OnLines(s, i, Written(item))
    ensures FileChange(s, BlockMarks(i, item)) == (item.path, Some(item.body))
  {
    if item.Complete? {
      CompleteIsChange(s, i, item.path, item.body);
    } else {
      LooseChange(s, i, item.path, item.body);
    }
  }

  function DeletionMarks(i: nat, p: string): Match {
    MarkAt(i + 11, MarkAt(i + 11 + |p|, EndsAt(i + 14 + |p|)))
  }

  lemma DeletionIsFound(s: string, i: nat, p: string)
    requires PlainPath(p) && OnLines(s, i, DeleteLine(p))
    ensures FindAll(DELETE_BLOCK, s, i) == More(DeletionMarks(i, p), After(DELETE_BLOCK, s, i + 14 + |p|))
    ensures DeleteChange(s, DeletionMarks(i, p)) == (p, None)
  {
    var m := DeletionMarks(i, p);
    DeleteMatches(s, i, p);
    StripPlain(p);
    EndsInMarks(s, i, DeleteLine(p));
    assert Last(m.rest.rest) == Last(m.rest) == Last(m);
    SearchTakes(DELETE_BLOCK, s, i, m, i + 14 + |p|);
  }

  type Change = (string, Option<string>)

  function Mapped(change: Match -> Change, found: Matches): Changes {
    if found.NoMore? then [] else [change(found.first)] + Mapped(change, found.rest)
  }

  function FileAt(s: string): Match -> Change { (m: Match) => FileChange(s, m) }

  function DeletionAt(s: string): Match -> Change { (m: Match) => DeleteChange(s, m) }

  lemma {:induction false} MappedChanges(s: string, found: Matches)
    ensures FileChanges(s, found) == Mapped(FileAt(s), found)
    ensures DeleteChanges(s, found) == Mapped(DeletionAt(s), found)
  {
    if found.More? { MappedChanges(s, found.rest); }
  }

  /** From `i` on a search finds these changes, and then what follows the line end at `e`. */
  ghost predicate Gathers(pat: Pat, change: Match -> Change, s: string, i: nat, e: nat, found: Changes) {
    i <= |s| && e <= |s| && Mapped(change, FindAll(pat, s, i)) == found + Mapped(change, After(pat, s, e))
  }

  lemma NothingGathered(pat: Pat, change: Match -> Change, s: string, i: nat, e: nat)
    requires i <= e && NoMatch(pat, s, i, e)
    ensures Gathers(pat, change, s, i, e, [])
  {
    SearchSkips(pat, s, i, e);
  }

  lemma OneGathered(pat: Pat, change: Match -> Change, s: string, i: nat, e: nat, m: Match)
    requires i <= |s| && e <= |s| && FindAll(pat, s, i) == More(m, After(pat, s, e))
    ensures Gathers(pat, change, s, i, e, [change(m)])
  {
  }

  lemma BlockIsFound(s: string, i: nat, item: Item)
    requires (item.Complete? || item.Loose?) && Clear(item) && OnLines(s, i, Written(item))
    ensures FindAll(FILE_BLOCK, s, i) == More(BlockMarks(i, item), After(FILE_BLOCK, s, i + |Written(item)|))
  {
    BlockIsMatched(s, i, item);
    WrittenEndsInMarks(item);
    EndsInMarks(s, i, Written(item));
    MatchIsFound(FILE_BLOCK, s, i, item);
  }

  lemma BlockGathered(s: string, i: nat, item: Item)
    requires (item.Complete? || item.Loose?) && Clear(item) && OnLines(s, i, Written(item))
    ensures Gathers(FILE_BLOCK, FileAt(s), s, i, i + |Written(item)|, Replacing(item))
  {
    BlockIsFound(s, i, item);
    BlockIsChange(s, i, item);
    OneGathered(FILE_BLOCK, FileAt(s), s, i, i + |Written(item)|, BlockMarks(i, item));
  }

  lemma DeletionGathered(s: string, i: nat, p: string)
    requires PlainPath(p) && OnLines(s, i, DeleteLine(p))
    ensures Gathers(DELETE_BLOCK, DeletionAt(s), s, i, i + |DeleteLine(p)|, [(p, None)])
  {
    DeletionIsFound(s, i, p);
    OneGathered(DELETE_BLOCK, DeletionAt(s), s, i, i + |DeleteLine(p)|, DeletionMarks(i, p));
  }

  lemma FilesFromItem(s: string, i: nat, item: Item)
    requires Clear(item) && OnLines(s, i, Written(item))
    ensures Gathers(FILE_BLOCK, FileAt(s), s, i, i + |Written(item)|, Replacing(item))
  {
    var e := i + |Written(item)|;
    match item
    case Prose(text) =>
      NoBlockOnLines(s, i, text);
      NothingGathered(FILE_BLOCK, FileAt(s), s, i, e);
    case Deletion(p) =>
      NoHeadOnDeletion(p);
      NoBlockOnLines(s, i, Written(item));
      NothingGathered(FILE_BLOCK, FileAt(s), s, i, e);
    case _ => BlockGathered(s, i, item);
  }

  lemma BlockDeletesNothing(s: string, i: nat, p: string, b: string)
    requires PlainPath(p) && PlainBody(b) && OnLines(s, i, Block(p, b))
    ensures Gathers(DELETE_BLOCK, DeletionAt(s), s, i, i + |Block(p, b)|, [])
  {
    BlockEnds(p, b);
    NoDeleteInBlock(s, i, p, b);
    NothingGathered(DELETE_BLOCK, DeletionAt(s), s, i, i + |Block(p, b)|);
  }

  lemma ProseDeletesNothing(s: string, i: nat, text: string)
    requires Absent(DELETE_BLOCK, text) && OnLines(s, i, text)
    ensures Gathers(DELETE_BLOCK, DeletionAt(s), s, i, i + |text|, [])
  {
    NoDeleteOnLines(s, i, text);
    NothingGathered(DELETE_BLOCK, DeletionAt(s), s, i, i + |text|);
  }

  lemma LooseDeletesNothing(s: string, i: nat, p: string, b: string)
    requires PlainPath(p) && PlainBody(b) && OnLines(s, i, LooseBlock(p, b))
    ensures Gathers(DELETE_BLOCK, DeletionAt(s), s, i, i + |LooseBlock(p, b)|, [])
  {
    NoDeleteInLoose(s, i, p, b);
    NothingGathered(DELETE_BLOCK, DeletionAt(s), s, i, i + |LooseBlock(p, b)|);
  }

  lemma DeletionsFromItem(s: string, i: nat, item: Item)
    requires Clear(item) && OnLines(s, i, Written(item))
    ensures Gathers(DELETE_BLOCK, DeletionAt(s), s, i, i + |Written(item)|, Deleting(item))
  {
    match item
    case Deletion(p) => DeletionGathered(s, i, p);
    case Prose(text) => ProseDeletesNothing(s, i, text);
    case Complete(p, b) => BlockDeletesNothing(s, i, p, b);
    case Loose(p, b) => LooseDeletesNothing(s, i, p, b);
  }

  lemma CutAtNewline(s: string, i: nat, x: string, rest: string)
    requires i <= |s| && s[i..] == x + ("\n" + rest)
    ensures i + |x| < |s| && s[i + |x|] == '\n' && x <= s[i..] && s[i + |x| + 1..] == rest
  {
    assert s[i + |x|] == s[i..][|x|] == '\n';
    assert s[i + |x| + 1..] == s[i..][|x| + 1..];
  }

  /** Where the text goes on as these items. */
  ghost predicate GoesOn(s: string, i: nat, items: seq<Item>) {
    items != [] && i <= |s| && s[i..] == Reply(items) && (i == 0 || s[i - 1] == '\n')
  }

  lemma FirstItem(s: string, i: nat, items: seq<Item>)
    requires GoesOn(s, i, items)
    ensures
      var x := Written(items[0]);
      && OnLines(s, i, x)
      && if |items| == 1 then i + |x| == |s| else i + |x| < |s| && GoesOn(s, i + |x| + 1, items[1..])
  {
    var x := Written(items[0]);
    if |items| == 1 {
      assert s[i..] == x;
    } else {
      assert s[i..] == x + ("\n" + Reply(items[1..]));
      CutAtNewline(s, i, x, Reply(items[1..]));
    }
  }

  ghost predicate AllClear(items: seq<Item>) {
    forall n :: 0 <= n < |items| ==> Clear(items[n])
  }

  lemma GathersOn(pat: Pat, change: Match -> Change, s: string, i: nat, e: nat, found: Changes, rest: Changes)
    requires Gathers(pat, change, s, i, e, found)
    requires if e == |s| then rest == [] else rest == Mapped(change, FindAll(pat, s, e + 1))
    ensures Mapped(change, FindAll(pat, s, i)) == found + rest
  {
  }

  ghost predicate Sits(s: string, i: nat, item: Item) {
    Clear(item) && OnLines(s, i, Written(item))
  }

  /** Item after item, from `i` to the end of the text. */
  ghost predicate Seated(s: string, i: nat, items: seq<Item>)
    decreases |items|
  {
    items != [] ==>
      var e := i + |Written(items[0])|;
      && Sits(s, i, items[0])
      && (if |items| == 1 then e == |s| else e < |s| && Seated(s, e + 1, items[1..]))
  }

  lemma {:induction false} ReplyIsSeated(s: string, i: nat, items: seq<Item>)
    requires GoesOn(s, i, items) && AllClear(items)
    ensures Seated(s, i, items)
    decreases |items|
  {
    FirstItem(s, i, items);
    assert Clear(items[0]);
    if |items| > 1 { ReplyIsSeated(s, i + |Written(items[0])| + 1, items[1..]); }
  }

  /** A search that gathers item by item gathers all of them. */
  lemma {:induction false} GathersAll(
      pat: Pat, change: Match -> Change, what: Item -> Changes, s: string, i: nat, items: seq<Item>)
    requires items != [] && i <= |s| && Seated(s, i, items)
    requires forall j: nat, item :: Sits(s, j, item) ==> Gathers(pat, change, s, j, j + |Written(item)|, what(item))
    ensures Mapped(change, FindAll(pat, s, i)) == Collected(what, items)
    decreases |items|
  {
    var e, rest := i + |Written(items[0])|, Collected(what, items[1..]);
    assert Sits(s, i, items[0]);
    if |items| > 1 { GathersAll(pat, change, what, s, e + 1, items[1..]); }
    GathersOn(pat, change, s, i, e, what(items[0]), rest);
  }

  /** A reply of such items parses to its FILE blocks in order, and then its DELETE lines. */
  lemma ReplyParses(items: seq<Item>)
    requires AllClear(items)
    ensures Extracted(Reply(items)) == PutAll(PutAll([], Collected(Replacing, items)), Collected(Deleting, items))
  {
    var s := Reply(items);
    if items == [] {
      EmptyTextHasNothing();
    } else {
      assert s[0..] == s;
      ReplyIsSeated(s, 0, items);
      forall j: nat, item | Sits(s, j, item)
        ensures Gathers(FILE_BLOCK, FileAt(s), s, j, j + |Written(item)|, Replacing(item))
        ensures Gathers(DELETE_BLOCK, DeletionAt(s), s, j, j + |Written(item)|, Deleting(item))
      {
        FilesFromItem(s, j, item);
        DeletionsFromItem(s, j, item);
      }
      GathersAll(FILE_BLOCK, FileAt(s), Replacing, s, 0, items);
      GathersAll(DELETE_BLOCK, DeletionAt(s), Deleting, s, 0, items);
      MappedChanges(s, FindAll(FILE_BLOCK, s, 0));
      MappedChanges(s, FindAll(DELETE_BLOCK, s, 0));
    }
  }

  lemma {:induction false} DeletedWord(items: seq<Item>, path: string)
    ensures LastWord(Collected(Deleting, items), path) == if Deletion(path) in items then Some(None) else None
  {
    if items != [] {
      DeletedWord(items[1..], path);
      var rest := Collected(Deleting, items[1..]);
      match items[0] {
        case Deletion(p) =>
          assert ([(p, None)] + rest)[1..] == rest;
          assert LastWord([(p, None)] + rest, path).Some? <==> p == path || LastWord(rest, path).Some?;
        case _ => assert Deleting(items[0]) + rest == rest;
      }
    }
  }

  /** So a path is deleted if any line says so, and otherwise has the body of its last block. */
  lemma LastItemWins(items: seq<Item>, path: string)
    requires AllClear(items)
    ensures
      Lookup(Extracted(Reply(items)), path) ==
        if Deletion(path) in items then Some(None) else LastWord(Collected(Replacing, items), path)
  {
    ReplyParses(items);
    LookupPutAll([], Collected(Replacing, items), path);
    LookupPutAll(PutAll([], Collected(Replacing, items)), Collected(Deleting, items), path);
    DeletedWord(items, path);
  }
}
