/** What FullFilesContext prints, ExtractFileBlocks reads back. */
module FileRoundTrip {
  import opened Options
  import opened Text
  import opened Regex
  import opened Dicts
  import opened FileBlocks

  type Blocks = seq<(string, string)>

  ghost predicate Plain(blocks: Blocks) {
    forall n :: 0 <= n < |blocks| ==> PlainPath(blocks[n].0) && PlainBody(blocks[n].1)
  }

  function Printed(blocks: Blocks): seq<string> {
    if blocks == [] then [] else [Block(blocks[0].0, blocks[0].1)] + Printed(blocks[1..])
  }

  function Framed(blocks: Blocks): string { Join(Printed(blocks)) }

  /** A framed text is its first block, then two newlines and the rest, if there is a rest. */
  lemma FramedSplits(blocks: Blocks)
    requires blocks != []
    ensures |blocks| == 1 ==> Framed(blocks) == Block(blocks[0].0, blocks[0].1)
    ensures |blocks| > 1 ==> Framed(blocks) == Block(blocks[0].0, blocks[0].1) + ("\n\n" + Framed(blocks[1..]))
  {
    assert Printed(blocks)[1..] == Printed(blocks[1..]);
    if |blocks| == 1 { assert blocks[1..] == []; }
  }

  function BlockLength(p: string, b: string): nat { |p| + |b| + 23 }

  function Marks(i: nat, p: string, b: string): Match {
    MarkAt(i + 9, MarkAt(i + 9 + |p|, MarkAt(i + 13 + |p|, MarkAt(i + 13 + |p| + |b|, EndsAt(i + 23 + |p| + |b|)))))
  }

  function NextAt(i: nat, blocks: Blocks): nat
    requires blocks != []
  {
    i + BlockLength(blocks[0].0, blocks[0].1) + 2
  }

  function AllMarks(i: nat, blocks: Blocks): Matches
    decreases |blocks|
  {
    if blocks == [] then NoMore
    else More(Marks(i, blocks[0].0, blocks[0].1), AllMarks(NextAt(i, blocks), blocks[1..]))
  }

  lemma AfterBlock(s: string, i: nat, block: string, tail: string)
    requires i <= |s| && s[i..] == block + tail && block != ""
    ensures i + |block| <= |s| && block <= s[i..] && s[i + |block|..] == tail
      && s[i + |block| - 1] == block[|block| - 1]
  {
    assert s[i + |block|..] == s[i..][|block|..];
    assert s[i + |block| - 1] == s[i..][|block| - 1];
  }

  lemma AfterBlank(s: string, e: nat, rest: string)
    requires e <= |s| && s[e..] == "\n\n" + rest
    ensures e + 2 <= |s| && s[e] == '\n' && s[e + 1] == '\n' && s[e + 2..] == rest
  {
    assert s[e] == s[e..][0] && s[e + 1] == s[e..][1] && s[e + 2..] == s[e..][2..];
  }

  lemma BlockEnds(p: string, b: string)
    ensures |Block(p, b)| == BlockLength(p, b) && Block(p, b)[|Block(p, b)| - 1] == '='
  {
  }

  /** Where block 0 ends in a text that goes on as framed, and what follows it. */
  lemma Layout(s: string, i: nat, blocks: Blocks)
    requires blocks != [] && i <= |s| && s[i..] == Framed(blocks)
    ensures
      var e := i + BlockLength(blocks[0].0, blocks[0].1);
      && 0 < e <= |s| && s[e - 1] == '=' && Block(blocks[0].0, blocks[0].1) <= s[i..]
      && (|blocks| == 1 ==> e == |s|)
      && (|blocks| > 1 ==> e + 2 <= |s| && s[e] == '\n' && s[e + 1] == '\n' && s[e + 2..] == Framed(blocks[1..]))
  {
    FramedSplits(blocks);
    var block := Block(blocks[0].0, blocks[0].1);
    BlockEnds(blocks[0].0, blocks[0].1);
    if |blocks| == 1 {
      assert block + "" == block;
      AfterBlock(s, i, block, "");
    } else {
      AfterBlock(s, i, block, "\n\n" + Framed(blocks[1..]));
      AfterBlank(s, i + |block|, Framed(blocks[1..]));
    }
  }

  /** Nothing begins at the end of a block or on a blank line. */
  lemma NoBlockInGap(s: string, e: nat)
    requires 0 < e <= |s| && s[e - 1] == '='
    ensures M(FILE_BLOCK, s, e) == None
    ensures e + 2 <= |s| && s[e] == '\n' && s[e + 1] == '\n' ==> M(FILE_BLOCK, s, e + 1) == None
  {
    if e + 2 <= |s| && s[e] == '\n' && s[e + 1] == '\n' {
      assert s[e + 1..][0] == '\n';
      StarFails(Blank, Lit("===", Star(Blank, FILE_TAG)), s, e + 1, e + 1);
    }
  }

  /** Where the rest of the text is framed blocks. */
  ghost predicate Opens(s: string, i: nat, blocks: Blocks) {
    blocks != [] && Plain(blocks) && i <= |s| && s[i..] == Framed(blocks) && (i == 0 || s[i - 1] == '\n')
  }

  /** A printed block stands at `i`: the last thing in the text, or before a blank line. */
  ghost predicate Stands(s: string, i: nat, p: string, b: string, last: bool) {
    var e := i + BlockLength(p, b);
    && PlainPath(p) && PlainBody(b) && e <= |s| && Block(p, b) <= s[i..] && (i == 0 || s[i - 1] == '\n')
      && s[e - 1] == '='
    && (if last then e == |s| else e + 2 <= |s| && s[e] == '\n' && s[e + 1] == '\n')
  }

  /** The pattern matches that block, and nothing before the next one. */
  ghost predicate MatchedOnce(pat: Pat, s: string, i: nat, p: string, b: string, last: bool) {
    var e := i + BlockLength(p, b);
    && e <= |s| && M(pat, s, i) == Some(Marks(i, p, b)) && M(pat, s, e) == None
    && (!last ==> e + 2 <= |s| && M(pat, s, e + 1) == None)
  }

  lemma StandingIsMatched(s: string, i: nat, p: string, b: string, last: bool)
    requires Stands(s, i, p, b, last)
    ensures MatchedOnce(FILE_BLOCK, s, i, p, b, last)
  {
    BlockMatches(s, i, p, b);
    NoBlockInGap(s, i + BlockLength(p, b));
  }

  lemma FirstStands(s: string, i: nat, blocks: Blocks)
    requires Opens(s, i, blocks)
    ensures Stands(s, i, blocks[0].0, blocks[0].1, |blocks| == 1)
    ensures |blocks| > 1 ==> Opens(s, NextAt(i, blocks), blocks[1..])
  {
    Layout(s, i, blocks);
  }

  lemma LastOfMarks(i: nat, p: string, b: string)
    ensures Last(Marks(i, p, b)) == i + BlockLength(p, b)
  {
    var m := Marks(i, p, b);
    assert Last(m.rest.rest.rest.rest) == i + BlockLength(p, b);
    assert Last(m.rest.rest.rest) == Last(m.rest.rest) == Last(m.rest) == Last(m);
  }

  lemma SearchGoesOn(pat: Pat, s: string, i: nat, p: string, b: string, last: bool)
    requires MatchedOnce(pat, s, i, p, b, last) && (last ==> i + BlockLength(p, b) == |s|)
    ensures FindAll(pat, s, i)
      == More(Marks(i, p, b), if last then NoMore else FindAll(pat, s, i + BlockLength(p, b) + 2))
  {
    var e := i + BlockLength(p, b);
    LastOfMarks(i, p, b);
    FindAllTakes(pat, s, i, Marks(i, p, b), e);
    FindAllSkips(pat, s, e);
    if !last { FindAllSkips(pat, s, e + 1); }
  }

  /** Block after block stands in the text, from `i` to its end. */
  ghost predicate Laid(s: string, i: nat, blocks: Blocks)
    decreases |blocks|
  {
    blocks != [] ==>
      && Stands(s, i, blocks[0].0, blocks[0].1, |blocks| == 1)
      && (|blocks| > 1 ==> Laid(s, NextAt(i, blocks), blocks[1..]))
  }

  lemma {:induction false} FramedIsLaid(s: string, i: nat, blocks: Blocks)
    requires Opens(s, i, blocks)
    ensures Laid(s, i, blocks)
    decreases |blocks|
  {
    FirstStands(s, i, blocks);
    if |blocks| > 1 { FramedIsLaid(s, NextAt(i, blocks), blocks[1..]); }
  }

  /** A search that finds the block that stands at a place, and goes on past it. */
  ghost predicate Finds(found: nat -> Matches, i: nat, p: string, b: string, last: bool) {
    found(i) == More(Marks(i, p, b), if last then NoMore else found(i + BlockLength(p, b) + 2))
  }

  lemma {:induction false} FindsEveryBlock(found: nat -> Matches, s: string, i: nat, blocks: Blocks)
    requires blocks != [] && Laid(s, i, blocks)
    requires forall j: nat, p, b, last :: Stands(s, j, p, b, last) ==> Finds(found, j, p, b, last)
    ensures found(i) == AllMarks(i, blocks)
    decreases |blocks|
  {
    assert Finds(found, i, blocks[0].0, blocks[0].1, |blocks| == 1);
    if |blocks| > 1 {
      FindsEveryBlock(found, s, NextAt(i, blocks), blocks[1..]);
    } else {
      assert blocks[1..] == [];
    }
  }

  function Search(s: string): nat -> Matches {
    (j: nat) => if j <= |s| then FindAll(FILE_BLOCK, s, j) else NoMore
  }

  lemma SearchFinds(s: string, i: nat, p: string, b: string, last: bool)
    requires Stands(s, i, p, b, last)
    ensures Finds(Search(s), i, p, b, last)
  {
    StandingIsMatched(s, i, p, b, last);
    SearchGoesOn(FILE_BLOCK, s, i, p, b, last);
  }

  // ---- No DELETE line ---------------------------------------------------------------

  /** A line that does not begin with a DELETE tag holds no match. */
  lemma NoDeleteOnLine(line: string)
    requires '\n' !in line
    requires line == "" || (|line| >= 4 && line[..3] == "===" && line[3] != 'D' && line[3] != ' ' && line[3] != '\t')
    ensures Absent(DELETE_BLOCK, line)
  {
    forall j | 0 <= j <= |line| ensures M(DELETE_BLOCK, line, j) == None {
      if j > 0 {
        assert line[j - 1] in line;
      } else {
        if line != "" {
          assert line[0] == line[..3][0] == '=' && line[3..][0] == line[3] && "DELETE:"[0] == 'D';
          StarFails(Blank, DELETE_TAG, line, 3, 3);
        }
        StarFails(Blank, Lit("===", Star(Blank, DELETE_TAG)), line, 0, 0);
      }
    }
  }

  /** No DELETE line begins from `i` to `j`. */
  ghost predicate NoneFrom(s: string, i: nat, j: nat) {
    j <= |s| && forall t :: i <= t <= j ==> M(DELETE_BLOCK, s, t) == None
  }

  lemma NoneJoins(s: string, i: nat, j: nat, k: nat)
    requires NoneFrom(s, i, j) && NoneFrom(s, j + 1, k)
    ensures NoneFrom(s, i, k)
  {
  }

  lemma NoneWhereEmbedded(s: string, d: nat, mid: string)
    requires Embedded(s, d, mid) && Absent(DELETE_BLOCK, mid)
    ensures NoneFrom(s, d, d + |mid|)
  {
    DeleteIsInline();
    AbsentWhereEmbedded(DELETE_BLOCK, s, d, mid);
  }

  function Header(p: string): (h: string)
    ensures |h| == |p| + 12
  {
    "===FILE: " + p + "==="
  }

  const CLOSE := "===END==="

  lemma BlockIsLines(p: string, b: string)
    ensures Block(p, b) == Header(p) + ("\n" + (b + ("\n" + CLOSE)))
  {
  }

  lemma LastLineStands(s: string, d: nat, c: string)
    requires d <= |s| && c <= s[d..] && (d == 0 || s[d - 1] == '\n') && (d + |c| == |s| || s[d + |c|] == '\n')
    ensures Embedded(s, d, c)
  {
    assert forall k :: 0 <= k < |c| ==> s[d + k] == s[d..][k] == c[k];
  }

  /** Three stretches of lines in a row, none with a DELETE line. */
  lemma NoDeleteInLines(s: string, i: nat, a: string, b: string, c: string)
    requires i <= |s| && a + ("\n" + (b + ("\n" + c))) <= s[i..] && (i == 0 || s[i - 1] == '\n')
    requires i + |a| + |b| + |c| + 2 == |s| || (i + |a| + |b| + |c| + 2 < |s| && s[i + |a| + |b| + |c| + 2] == '\n')
    requires Absent(DELETE_BLOCK, a) && Absent(DELETE_BLOCK, b) && Absent(DELETE_BLOCK, c)
    ensures NoneFrom(s, i, i + |a| + |b| + |c| + 2)
  {
    StandsThere(s, i, a, b + ("\n" + c));
    StandsThere(s, i + |a| + 1, b, c);
    LastLineStands(s, i + |a| + |b| + 2, c);
    NoneWhereEmbedded(s, i, a);
    NoneWhereEmbedded(s, i + |a| + 1, b);
    NoneWhereEmbedded(s, i + |a| + |b| + 2, c);
    NoneJoins(s, i, i + |a|, i + |a| + |b| + 1);
    NoneJoins(s, i, i + |a| + |b| + 1, i + |a| + |b| + |c| + 2);
  }

  lemma NoDeleteOnHeader(p: string)
    requires PlainPath(p)
    ensures Absent(DELETE_BLOCK, Header(p))
  {
    var header := Header(p);
    assert header[..3] == "===" && header[3] == 'F';
    assert forall k :: 0 <= k < |header| ==> header[k] != '\n';
    NoDeleteOnLine(header);
  }

  lemma NoDeleteOnClose()
    ensures Absent(DELETE_BLOCK, CLOSE)
  {
    assert CLOSE[..3] == "===" && CLOSE[3] == 'E';
    NoDeleteOnLine(CLOSE);
  }

  lemma NoDeleteInBlock(s: string, i: nat, p: string, b: string)
    requires PlainPath(p) && PlainBody(b) && i <= |s| && Block(p, b) <= s[i..] && (i == 0 || s[i - 1] == '\n')
    requires i + BlockLength(p, b) <= |s|
    requires i + BlockLength(p, b) == |s| || s[i + BlockLength(p, b)] == '\n'
    ensures NoneFrom(s, i, i + BlockLength(p, b))
  {
    BlockIsLines(p, b);
    NoDeleteOnHeader(p);
    NoDeleteOnClose();
    NoDeleteInLines(s, i, Header(p), b, CLOSE);
  }

  lemma {:induction false} NoDeleteAnywhere(s: string, i: nat, blocks: Blocks)
    requires blocks != [] && Laid(s, i, blocks)
    ensures NoneFrom(s, i, |s|)
    decreases |blocks|
  {
    var (p, b) := blocks[0];
    var e := i + BlockLength(p, b);
    NoDeleteInBlock(s, i, p, b);
    if |blocks| > 1 {
      NoDeleteOnLine("");
      NoneWhereEmbedded(s, e + 1, "");
      NoDeleteAnywhere(s, e + 2, blocks[1..]);
      NoneJoins(s, i, e, e + 1);
      NoneJoins(s, i, e + 1, |s|);
    }
  }

  // ---- The dictionary -----------------------------------------------------------------

  function Pairs(blocks: Blocks): Changes {
    if blocks == [] then [] else [(blocks[0].0, Some(blocks[0].1))] + Pairs(blocks[1..])
  }

  lemma StripPlain(p: string)
    requires PlainPath(p)
    ensures Strip(p) == p
  {
  }

  lemma MarkedPathAndBody(s: string, i: nat, p: string, b: string)
    requires i <= |s| && Block(p, b) <= s[i..]
    ensures Slice(s, i + 9, i + 9 + |p|) == p && Slice(s, i + 13 + |p|, i + 13 + |p| + |b|) == b
  {
    var rest := "===\n" + (b + "\n===END===");
    BlockIsOpened(p, b);
    OpenWithPath(s, i, p, rest);
    PathBehindTag(s, i, p);
    SliceThere(s, i + 9, p);
    Drop(s, i + 9 + |p|, "===\n", b + "\n===END===");
    Drop(s, i + 13 + |p|, b, "\n===END===");
    SliceThere(s, i + 13 + |p|, b);
  }

  lemma MarkedChange(s: string, i: nat, p: string, b: string)
    requires PlainPath(p) && i <= |s| && Block(p, b) <= s[i..]
    ensures FileChange(s, Marks(i, p, b)) == (p, Some(b))
  {
    MarkedPathAndBody(s, i, p, b);
    StripPlain(p);
  }

  lemma {:induction false} ChangesArePairs(s: string, i: nat, blocks: Blocks)
    requires blocks != [] && Laid(s, i, blocks)
    ensures FileChanges(s, AllMarks(i, blocks)) == Pairs(blocks)
    decreases |blocks|
  {
    MarkedChange(s, i, blocks[0].0, blocks[0].1);
    if |blocks| > 1 {
      ChangesArePairs(s, NextAt(i, blocks), blocks[1..]);
    } else {
      assert blocks[1..] == [];
    }
  }

  ghost predicate Distinct(changes: Changes) {
    forall i, j :: 0 <= i < j < |changes| ==> changes[i].0 != changes[j].0
  }

  lemma {:induction false} PutNew(d: Changes, path: string, change: Option<string>)
    requires forall i :: 0 <= i < |d| ==> d[i].0 != path
    ensures Put(d, path, change) == d + [(path, change)]
  {
    if d != [] { PutNew(d[1..], path, change); }
  }

  lemma {:induction false} PutAllDistinct(d: Changes, found: Changes)
    requires Distinct(d + found)
    ensures PutAll(d, found) == d + found
    decreases |found|
  {
    if found != [] {
      forall i | 0 <= i < |d| ensures d[i].0 != found[0].0 {
        assert (d + found)[i] == d[i] && (d + found)[|d|] == found[0];
      }
      PutNew(d, found[0].0, found[0].1);
      assert d + [found[0]] + found[1..] == d + found;
      PutAllDistinct(d + [found[0]], found[1..]);
    } else {
      assert d + found == d;
    }
  }

  lemma {:induction false} PairsAt(blocks: Blocks)
    ensures |Pairs(blocks)| == |blocks|
    ensures forall n :: 0 <= n < |blocks| ==> Pairs(blocks)[n] == (blocks[n].0, Some(blocks[n].1))
  {
    if blocks != [] { PairsAt(blocks[1..]); }
  }

  /** Framed blocks with distinct plain paths and plain bodies parse back to exactly those pairs, in order. */
  lemma FramedParsesBack(blocks: Blocks)
    requires Plain(blocks) && Distinct(Pairs(blocks))
    ensures Extracted(Framed(blocks)) == Pairs(blocks)
  {
    var s := Framed(blocks);
    assert s[0..] == s;
    if blocks == [] {
      EmptyTextHasNothing();
    } else {
      FramedIsLaid(s, 0, blocks);
      forall j: nat, p, b, last | Stands(s, j, p, b, last) ensures Finds(Search(s), j, p, b, last) {
        SearchFinds(s, j, p, b, last);
      }
      FindsEveryBlock(Search(s), s, 0, blocks);
      ChangesArePairs(s, 0, blocks);
      assert [] + Pairs(blocks) == Pairs(blocks);
      PutAllDistinct([], Pairs(blocks));
      NoDeleteAnywhere(s, 0, blocks);
      AbsentFindsNothing(DELETE_BLOCK, s, 0);
    }
  }

  lemma EmptyTextHasNothing()
    ensures Extracted("") == []
  {
    StarFails(Blank, Lit("===", Star(Blank, FILE_TAG)), "", 0, 0);
    NoDeleteOnLine("");
    AbsentFindsNothing(DELETE_BLOCK, "", 0);
    AbsentFindsNothing(FILE_BLOCK, "", 0);
  }

  // ---- From the clone and back ------------------------------------------------------------

  function Texts(files: string -> FileState, paths: seq<string>): Blocks {
    if paths == [] then []
    else
      var last := paths[|paths| - 1];
      Texts(files, paths[..|paths| - 1]) + (match files(last) case Text(raw) => [(last, raw)] case _ => [])
  }

  /** Existing, readable, under the cap, and free of carriage returns. */
  ghost predicate Showable(files: string -> FileState, paths: seq<string>, cap: nat) {
    forall n :: 0 <= n < |paths| ==>
      && PlainPath(paths[n]) && files(paths[n]).Text?
      && PlainBody(files(paths[n]).raw) && '\r' !in files(paths[n]).raw && |files(paths[n]).raw| <= cap
  }

  lemma {:induction false} PrintedSnoc(blocks: Blocks, block: (string, string))
    ensures Printed(blocks + [block]) == Printed(blocks) + [Block(block.0, block.1)]
  {
    if blocks != [] {
      PrintedSnoc(blocks[1..], block);
      assert (blocks + [block])[1..] == blocks[1..] + [block];
    }
  }

  lemma {:induction false} TextsAt(files: string -> FileState, paths: seq<string>)
    requires forall n :: 0 <= n < |paths| ==> files(paths[n]).Text?
    ensures |Texts(files, paths)| == |paths|
    ensures forall n :: 0 <= n < |paths| ==> Texts(files, paths)[n] == (paths[n], files(paths[n]).raw)
  {
    if paths != [] { TextsAt(files, paths[..|paths| - 1]); }
  }

  lemma {:induction false} ShownAsBlocks(files: string -> FileState, paths: seq<string>, cap: nat)
    requires Showable(files, paths, cap)
    ensures Parts(files, paths, cap) == Printed(Texts(files, paths))
  {
    if paths != [] {
      var last := paths[|paths| - 1];
      assert Showable(files, paths[..|paths| - 1], cap);
      ShownAsBlocks(files, paths[..|paths| - 1], cap);
      NoCarriageReturns(files(last).raw);
      PrintedSnoc(Texts(files, paths[..|paths| - 1]), (last, files(last).raw));
    }
  }

  /** The context shown for distinct files of this kind parses back to exactly those paths and texts. */
  lemma ContextParsesBack(files: string -> FileState, paths: seq<string>, cap: nat)
    requires Showable(files, paths, cap) && (forall i, j :: 0 <= i < j < |paths| ==> paths[i] != paths[j])
    ensures
      var changes := Extracted(Join(Parts(files, paths, cap)));
      && |changes| == |paths|
      && forall n :: 0 <= n < |paths| ==> changes[n] == (paths[n], Some(files(paths[n]).raw))
  {
    ShownAsBlocks(files, paths, cap);
    TextsAt(files, paths);
    var blocks := Texts(files, paths);
    PairsAt(blocks);
    FramedParsesBack(blocks);
  }
}
