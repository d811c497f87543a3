/**
 * The executor's loop of model replies over one clone: reset, guard, write,
 * compile, commit.  However many replies fail, what is committed is HEAD
 * overwritten by one reply that passed every guard against HEAD itself.
 */
module RepairLoop {
  import opened Options
  import opened Text
  import opened Regex
  import opened Dicts
  import opened FileBlocks
  import opened FileRoundTrip
  import opened RepairGuards

  /** A reply read and judged: the verdict, and the tree it would make of HEAD. */
  datatype Review = Review(verdict: Verdict, tree: Tree)

  function ReviewOf(head: Tree, reply: string, g: Guards): Review {
    var changes := Extracted(reply);
    Review(Judge(head, changes, g), Written(head, changes))
  }

  datatype Outcome = Committed(tree: Tree) | Identical | UnsafePaths | NotApplicable

  /** The outcome from attempt `n` on, and the requests made: the first reply that is not sent back decides. */
  function Decide(head: Tree, review: string -> Review, replies: nat -> string, n: nat, retries: int): (Outcome, nat)
    decreases retries - n
  {
    if n > retries then (NotApplicable, n)
    else
      var r := review(replies(n));
      if r.verdict.Good? then (if r.tree == head then Identical else Committed(r.tree), n + 1)
      else if r.verdict.Unsafe? then (UnsafePaths, n + 1)
      else Decide(head, review, replies, n + 1, retries)
  }

  /** The reviewing of replies against HEAD, as a function of the reply. */
  ghost function Reviewer(head: Tree, g: Guards): string -> Review {
    (reply: string) => ReviewOf(head, reply, g)
  }

  ghost predicate Reviews(review: string -> Review, head: Tree, g: Guards) {
    forall reply {:trigger ReviewOf(head, reply, g)} :: review(reply) == ReviewOf(head, reply, g)
  }

  lemma ReviewerReviews(head: Tree, g: Guards)
    ensures Reviews(Reviewer(head, g), head, g)
  {
  }

  // ---- The loop ----------------------------------------------------------------------------

  class Clone {
    const head: Tree
    var tree: Tree
    var commits: seq<Tree>

    constructor (head: Tree)
      ensures this.head == head && tree == head && commits == []
    {
      this.head := head;
      tree := head;
      commits := [];
    }

    /** git checkout and git clean. */
    method Reset()
      modifies this`tree
      ensures tree == head
    {
      tree := head;
    }

    method WriteFileChanges(changes: Changes) returns (bad: seq<string>)
      modifies this`tree
      ensures tree == Written(old(tree), changes) && bad == Rejected(changes)
    {
      bad := [];
      for n := 0 to |changes|
        invariant tree == Written(old(tree), changes[..n]) && bad == Rejected(changes[..n])
      {
        assert changes[..n + 1][..n] == changes[..n];
        var (path, change) := changes[n];
        if UnsafePath(path) {
          bad := bad + [path];
        } else if change.None? {
          tree := tree - {path};
        } else {
          var body := change.value;
          tree := tree[path := if body != "" && body[|body| - 1] == '\n' then body else body + "\n"];
        }
      }
      assert changes[..|changes|] == changes;
    }

    /** One parsed reply: reset, guard, write, compile.  The guards read the tree as it is, which the
        reset has made HEAD again. */
    method Attempt(changes: Changes, g: Guards) returns (v: Verdict)
      modifies this`tree
      ensures v == Judge(head, changes, g)
      ensures Distinct(changes) ==> Deserves(head, changes, g, v)
      ensures v.Good? ==> tree == Written(head, changes)
    {
      if Distinct(changes) { VerdictMeans(head, changes, g); }
      if changes == [] { return NoBlocks; }
      Reset();
      if AnyTruncated(tree, changes, g) { return Truncated; }
      if AnyDropped(tree, changes, g) { return Dropped; }
      var bad := WriteFileChanges(changes);
      if bad != [] { return Unsafe; }
      if AnyFails(tree, changes, g) { return NotCompiling; }
      v := Good;
    }

    /** Read one reply and try it. */
    method TryReply(reply: string, g: Guards, ghost review: string -> Review) returns (v: Verdict)
      requires Reviews(review, head, g)
      modifies this`tree
      ensures v == review(reply).verdict && (v.Good? ==> tree == review(reply).tree)
    {
      assert review(reply) == ReviewOf(head, reply, g);
      var changes := ExtractFileBlocks(reply);
      v := Attempt(changes, g);
    }

    /** Ask for changes until a reply is good or unsafe, at most retries + 1 times. */
    method Ask(replies: nat -> string, retries: int, g: Guards, ghost review: string -> Review)
        returns (v: Verdict, requests: nat)
      requires Reviews(review, head, g)
      modifies this`tree
      ensures Settled(head, v, tree, requests) == Decide(head, review, replies, 0, retries)
      ensures requests == 0 || requests <= retries + 1
    {
      v, requests := NoBlocks, 0;
      while requests <= retries && !v.Good? && !v.Unsafe?
        invariant requests == 0 || requests <= retries + 1
        invariant (if v.Good? || v.Unsafe? then Settled(head, v, tree, requests)
          else Decide(head, review, replies, requests, retries))
               == Decide(head, review, replies, 0, retries)
        decreases retries - requests
      {
        v := TryReply(replies(requests), g, review);
        requests := requests + 1;
      }
    }

    /** Then commit, or hand over for review. */
    method Repair(replies: nat -> string, retries: int, g: Guards)
        returns (outcome: Outcome, requests: nat)
      modifies this
      ensures (outcome, requests) == Decide(head, Reviewer(head, g), replies, 0, retries)
      ensures requests == 0 || requests <= retries + 1
      ensures commits == old(commits) + if outcome.Committed? then [outcome.tree] else []
      ensures outcome.Committed? ==> tree == outcome.tree
    {
      ghost var review := Reviewer(head, g);
      ReviewerReviews(head, g);
      var v;
      v, requests := Ask(replies, retries, g, review);
      if v.Unsafe? {
        outcome := UnsafePaths;
      } else if !v.Good? {
        outcome := NotApplicable;
      } else if tree == head {
        outcome := Identical;
      } else {
        commits := commits + [tree];
        outcome := Committed(tree);
      }
    }
  }

  /** What the last verdict makes of the loop. */
  function Settled(head: Tree, v: Verdict, tree: Tree, requests: nat): (Outcome, nat) {
    if v.Unsafe? then (UnsafePaths, requests)
    else if !v.Good? then (NotApplicable, requests)
    else (if tree == head then Identical else Committed(tree), requests)
  }

  // ---- What a commit is ---------------------------------------------------------------------

  /** A tree is committed exactly when, within the budget, some reply is good and changes HEAD, and every
      reply before it was sent back. */
  ghost predicate DecidesToCommit(head: Tree, review: string -> Review, replies: nat -> string, n: nat, retries: int,
        k: nat)
  {
    && n <= k <= retries && review(replies(k)).verdict.Good? && review(replies(k)).tree != head
    && forall j :: n <= j < k ==> !review(replies(j)).verdict.Good? && !review(replies(j)).verdict.Unsafe?
  }

  lemma {:induction false} CommitIsOneReply(head: Tree, review: string -> Review, replies: nat -> string, n: nat,
        retries: int)
    ensures Decide(head, review, replies, n, retries).0.Committed? <==>
      exists k :: DecidesToCommit(head, review, replies, n, retries, k)
    ensures forall k :: (DecidesToCommit(head, review, replies, n, retries, k)
                         ==> Decide(head, review, replies, n, retries) == (Committed(review(replies(k)).tree), k + 1))
    decreases retries - n
  {
    if n <= retries {
      var r := review(replies(n));
      if r.verdict.Good? {
        if r.tree != head { assert DecidesToCommit(head, review, replies, n, retries, n); }
      } else if !r.verdict.Unsafe? {
        CommitIsOneReply(head, review, replies, n + 1, retries);
        CommitsLater(head, review, replies, n, n + 1, retries);
      }
    }
  }

  /** Reply `k` is the first, from `n` on and within the budget, that is not sent back. */
  ghost predicate Decides(review: string -> Review, replies: nat -> string, n: nat, retries: int, k: nat) {
    && n <= k <= retries && (review(replies(k)).verdict.Good? || review(replies(k)).verdict.Unsafe?)
    && forall j :: n <= j < k ==> !review(replies(j)).verdict.Good? && !review(replies(j)).verdict.Unsafe?
  }

  /** The outcome, whichever it is, is that of the first reply not sent back; if all are, the budget is spent. */
  lemma {:induction false} FirstDecisionStands(head: Tree, review: string -> Review, replies: nat -> string, n: nat,
        retries: int)
    ensures forall k :: Decides(review, replies, n, retries, k) ==>
      var r := review(replies(k));
      Decide(head, review, replies, n, retries) ==
        (if r.verdict.Unsafe? then UnsafePaths else if r.tree == head then Identical else Committed(r.tree), k + 1)
    ensures (forall k :: !Decides(review, replies, n, retries, k)) ==>
      Decide(head, review, replies, n, retries) == (NotApplicable, if n <= retries then retries + 1 else n)
    decreases retries - n
  {
    if n <= retries {
      var v := review(replies(n)).verdict;
      if v.Good? || v.Unsafe? {
        assert Decides(review, replies, n, retries, n);
      } else {
        FirstDecisionStands(head, review, replies, n + 1, retries);
        DecidesLater(review, replies, n, n + 1, retries);
      }
    }
  }

  lemma DecidesLater(review: string -> Review, replies: nat -> string, n: nat, m: nat, retries: int)
    requires m == n + 1 && n <= retries && !review(replies(n)).verdict.Good? && !review(replies(n)).verdict.Unsafe?
    ensures forall k :: Decides(review, replies, n, retries, k) <==> Decides(review, replies, m, retries, k)
  {
  }

  lemma CommitsLater(head: Tree, review: string -> Review, replies: nat -> string, n: nat, m: nat, retries: int)
    requires m == n + 1 && n <= retries && !review(replies(n)).verdict.Good? && !review(replies(n)).verdict.Unsafe?
    ensures forall k :: DecidesToCommit(head, review, replies, n, retries, k) <==>
      DecidesToCommit(head, review, replies, m, retries, k)
  {
  }

  /** What a good reply is: blocks were found, and against HEAD itself no file is shortened too much, no top-level
      name is lost, no path leads outside, and every Python file it leaves behind compiles. */
  lemma GoodMeans(head: Tree, reply: string, g: Guards)
    requires ReviewOf(head, reply, g).verdict.Good?
    ensures
      var changes := Extracted(reply);
      && changes != [] && Distinct(changes)
      && !ShortensSome(head, changes, g) && !LosesAName(head, changes, g)
      && !NamesOutside(changes) && !Breaks(changes, g)
      && (forall i :: 0 <= i < |changes| ==> !UnsafePath(changes[i].0))
  {
    ExtractedIsDistinct(reply);
    VerdictMeans(head, Extracted(reply), g);
    SafeWhenNoneRejected(Extracted(reply));
  }

  /** What the loop commits is HEAD overwritten by one reply within the budget: every reply before it was sent back,
      and it passed each guard against HEAD itself, however many replies had been written and reset before. */
  lemma CommittedIsOneGoodReply(head: Tree, replies: nat -> string, retries: int, g: Guards) returns (k: nat)
    requires Decide(head, Reviewer(head, g), replies, 0, retries).0.Committed?
    ensures k <= retries && Decide(head, Reviewer(head, g), replies, 0, retries).1 == k + 1
    ensures
      var tree, changes := Decide(head, Reviewer(head, g), replies, 0, retries).0.tree, Extracted(replies(k));
      && tree == Written(head, changes) != head && changes != [] && Distinct(changes)
      && !ShortensSome(head, changes, g) && !LosesAName(head, changes, g)
      && !NamesOutside(changes) && !Breaks(changes, g)
    ensures forall j :: 0 <= j < k ==> var v := ReviewOf(head, replies(j), g).verdict; !v.Good? && !v.Unsafe?
  {
    var review := Reviewer(head, g);
    CommitIsOneReply(head, review, replies, 0, retries);
    k :| DecidesToCommit(head, review, replies, 0, retries, k);
    GoodMeans(head, replies(k), g);
    forall j | 0 <= j < k ensures var v := ReviewOf(head, replies(j), g).verdict; !v.Good? && !v.Unsafe? {
      assert review(replies(j)) == ReviewOf(head, replies(j), g);
    }
  }

  lemma {:induction false} PutKeepsDistinct(d: Changes, path: string, change: Option<string>)
    requires Distinct(d)
    ensures Distinct(Put(d, path, change))
    ensures forall i :: 0 <= i < |Put(d, path, change)| ==>
      Put(d, path, change)[i].0 == path || exists j :: 0 <= j < |d| && d[j].0 == Put(d, path, change)[i].0
  {
    if d != [] && d[0].0 != path {
      assert Distinct(d[1..]);
      PutKeepsDistinct(d[1..], path, change);
      var rest := Put(d[1..], path, change);
      forall i | 0 <= i < |rest| ensures rest[i].0 == path || exists j :: 0 <= j < |d| && d[j].0 == rest[i].0 {
        if rest[i].0 != path {
          var j :| 0 <= j < |d[1..]| && d[1..][j].0 == rest[i].0;
          assert d[j + 1] == d[1..][j];
        }
      }
      forall i | 0 <= i < |rest| ensures rest[i].0 != d[0].0 {
        if rest[i].0 != path {
          var j :| 0 <= j < |d[1..]| && d[1..][j].0 == rest[i].0;
          assert d[j + 1] == d[1..][j];
        }
      }
    }
  }

  lemma {:induction false} PutAllKeepsDistinct(d: Changes, found: Changes)
    requires Distinct(d)
    ensures Distinct(PutAll(d, found))
    decreases |found|
  {
    if found != [] {
      PutKeepsDistinct(d, found[0].0, found[0].1);
      PutAllKeepsDistinct(Put(d, found[0].0, found[0].1), found[1..]);
    }
  }

  /** The tree a good reply makes: HEAD, overwritten at exactly the paths the reply names, path by path. */
  lemma GoodTreeIsHeadOverwritten(head: Tree, reply: string, g: Guards)
    requires ReviewOf(head, reply, g).verdict.Good?
    ensures
      var changes, tree := Extracted(reply), ReviewOf(head, reply, g).tree;
      && Distinct(changes)
      && (forall n :: 0 <= n < |changes| ==>
            if changes[n].1.None? then changes[n].0 !in tree
            else changes[n].0 in tree && EndsInNewline(tree[changes[n].0], changes[n].1.value))
      && (forall p :: (forall n :: 0 <= n < |changes| ==> changes[n].0 != p)
            ==> (p in tree <==> p in head) && (p in head ==> tree[p] == head[p]))
  {
    var changes := Extracted(reply);
    GoodMeans(head, reply, g);
    forall n | 0 <= n < |changes|
      ensures var tree := Written(head, changes);
        if changes[n].1.None? then changes[n].0 !in tree
        else changes[n].0 in tree && EndsInNewline(tree[changes[n].0], changes[n].1.value)
    {
      WrittenAt(head, changes, n);
    }
    forall p | forall n :: 0 <= n < |changes| ==> changes[n].0 != p
      ensures var tree := Written(head, changes); (p in tree <==> p in head) && (p in head ==> tree[p] == head[p])
    {
      WrittenElsewhere(head, changes, p);
    }
  }

  lemma ExtractedIsDistinct(text: string)
    ensures Distinct(Extracted(text))
  {
    PutAllKeepsDistinct([], FileChanges(text, FindAll(FILE_BLOCK, text, 0)));
    PutAllKeepsDistinct(PutAll([], FileChanges(text, FindAll(FILE_BLOCK, text, 0))),
      DeleteChanges(text, FindAll(DELETE_BLOCK, text, 0)));
  }

  /** Writing files of a tree back to it, whole. */
  lemma OverwrittenWithItself(tree: Tree, changes: Changes)
    requires Distinct(changes)
    requires forall n :: 0 <= n < |changes| ==>
      changes[n].0 in tree && !UnsafePath(changes[n].0) && changes[n].1 == Some(tree[changes[n].0])
    ensures Written(tree, changes).Keys == tree.Keys
    ensures forall p :: p in tree ==>
      (if exists n :: 0 <= n < |changes| && changes[n].0 == p then Written(tree, changes)[p] == Ended(tree[p])
        else Written(tree, changes)[p] == tree[p])
  {
    var tree' := Written(tree, changes);
    forall p ensures p in tree' <==> p in tree
             ensures p in tree ==>
               (if exists n :: 0 <= n < |changes| && changes[n].0 == p
                then tree'[p] == Ended(tree[p])
                else tree'[p] == tree[p])
    {
      if n :| 0 <= n < |changes| && changes[n].0 == p {
        WrittenAt(tree, changes, n);
      } else {
        WrittenElsewhere(tree, changes, p);
      }
    }
  }

  lemma WritingBackEnds(tree: Tree, paths: seq<string>, cap: nat)
    requires forall i, j :: 0 <= i < j < |paths| ==> paths[i] != paths[j]
    requires forall n :: 0 <= n < |paths| ==> paths[n] in tree && !UnsafePath(paths[n])
    requires Showable(FilesOf(tree), paths, cap)
    ensures
      var tree' := Written(tree, Extracted(Join(Parts(FilesOf(tree), paths, cap))));
      && tree'.Keys == tree.Keys
      && (forall p :: p in tree ==> tree'[p] == if p in paths then Ended(tree[p]) else tree[p])
  {
    var changes := Extracted(Join(Parts(FilesOf(tree), paths, cap)));
    ContextParsesBack(FilesOf(tree), paths, cap);
    OverwrittenWithItself(tree, changes);
    forall p | p in tree ensures p in paths <==> exists n :: 0 <= n < |changes| && changes[n].0 == p {
      if p in paths {
        var n :| 0 <= n < |paths| && paths[n] == p;
        assert changes[n].0 == p;
      }
    }
  }

  lemma EndedEnds(body: string)
    ensures EndsInNewline(Ended(body), body)
  {
  }

  /** Show some files of a tree, parse the showing as if it were the reply, and write it back: a non-empty
      file that ends in a newline is as before, any other has exactly one newline more, and nothing else moved. */
  lemma WritingBackIsIdentity(tree: Tree, paths: seq<string>, cap: nat)
    requires forall i, j :: 0 <= i < j < |paths| ==> paths[i] != paths[j]
    requires forall n :: 0 <= n < |paths| ==> paths[n] in tree && !UnsafePath(paths[n])
    requires Showable(FilesOf(tree), paths, cap)
    ensures
      var tree' := Written(tree, Extracted(Join(Parts(FilesOf(tree), paths, cap))));
      && tree'.Keys == tree.Keys
      && (forall p :: p in tree ==> if p in paths then EndsInNewline(tree'[p], tree[p]) else tree'[p] == tree[p])
  {
    WritingBackEnds(tree, paths, cap);
    forall p | p in tree ensures EndsInNewline(Ended(tree[p]), tree[p]) { EndedEnds(tree[p]); }
  }

  function FilesOf(tree: Tree): string -> FileState {
    (p: string) => if p in tree then Text(tree[p]) else Missing
  }
}
