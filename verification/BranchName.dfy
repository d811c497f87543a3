/** Review branch names and orphan file names, made from job ids by a sanitizer that is not injective. */
module BranchName {
  import opened Options

  predicate PlainChar(c: char) {
    'A' <= c <= 'Z' || 'a' <= c <= 'z' || '0' <= c <= '9' || c == '.' || c == '_' || c == '-'
  }

  predicate PlainText(s: string) { forall c :: c in s ==> PlainChar(c) }

  /** Each run of other characters becomes one dash; `inRun` when the character before was one. */
  function Collapse(s: string, inRun: bool): string {
    if s == "" then ""
    else if PlainChar(s[0]) then [s[0]] + Collapse(s[1..], false)
    else (if inRun then "" else "-") + Collapse(s[1..], true)
  }

  function TrimLeft(s: string): string {
    if s != "" && s[0] == '-' then TrimLeft(s[1..]) else s
  }

  function TrimRight(s: string): string {
    if s != "" && s[|s| - 1] == '-' then TrimRight(s[..|s| - 1]) else s
  }

  function Sanitized(raw: string): string { TrimRight(TrimLeft(Collapse(raw, false))) }

  const PREFIX := "hive/node-"

  /** The branch of a job, or None if the id is unusable; `hash` gives the first 8 hex digits of the digest. */
  function BranchForJob(raw: string, hash: string -> string): Option<string> {
    var safe := Sanitized(raw);
    if safe == "" then None
    else if safe != raw then Some(PREFIX + (safe + "-" + hash(raw)))
    else Some(PREFIX + safe)
  }

  /** The orphan file of a job carries no hash. */
  function OrphanName(raw: string): string {
    (if Sanitized(raw) == "" then "unknown" else Sanitized(raw)) + ".patch"
  }

  /** Left as it is by the sanitizer. */
  predicate Unaltered(raw: string) { raw != "" && Sanitized(raw) == raw }

  lemma {:induction false} CollapsePlain(s: string, inRun: bool)
    ensures PlainText(Collapse(s, inRun))
    ensures PlainText(s) ==> Collapse(s, inRun) == s
  {
    if s != "" {
      CollapsePlain(s[1..], !PlainChar(s[0]));
      if PlainText(s) {
        assert s[0] in s && forall c :: c in s[1..] ==> c in s;
        assert s == [s[0]] + s[1..];
      }
    }
  }

  lemma {:induction false} TrimLeftIs(s: string)
    ensures |TrimLeft(s)| <= |s| && forall c :: c in TrimLeft(s) ==> c in s
    ensures TrimLeft(s) == s <==> s == "" || s[0] != '-'
    ensures |TrimLeft(s)| == |s| ==> TrimLeft(s) == s
  {
    if s != "" && s[0] == '-' { TrimLeftIs(s[1..]); }
  }

  lemma {:induction false} TrimRightIs(s: string)
    ensures |TrimRight(s)| <= |s| && forall c :: c in TrimRight(s) ==> c in s
    ensures TrimRight(s) == s <==> s == "" || s[|s| - 1] != '-'
  {
    if s != "" && s[|s| - 1] == '-' { TrimRightIs(s[..|s| - 1]); }
  }

  /** Plain characters stay, and a whole run of others becomes one dash. */
  lemma {:induction false} RunBecomesDash(plain: string, run: string, rest: string)
    requires PlainText(plain) && (forall c :: c in run ==> !PlainChar(c)) && (rest == "" || PlainChar(rest[0]))
    ensures run != "" ==> Collapse(plain + run + rest, false) == plain + "-" + Collapse(rest, false)
    ensures Collapse(run + rest, true) == Collapse(rest, false)
  {
    RunIsSwallowed(run, rest);
    if run != "" {
      if plain == "" {
        assert plain + run + rest == run + rest && (run + rest)[1..] == run[1..] + rest;
        RunIsSwallowed(run[1..], rest);
      } else {
        assert (plain + run + rest)[1..] == plain[1..] + run + rest;
        RunBecomesDash(plain[1..], run, rest);
      }
    }
  }

  lemma {:induction false} RunIsSwallowed(run: string, rest: string)
    requires (forall c :: c in run ==> !PlainChar(c)) && (rest == "" || PlainChar(rest[0]))
    ensures Collapse(run + rest, true) == Collapse(rest, false)
  {
    if run == "" {
      assert run + rest == rest;
    } else {
      assert (run + rest)[1..] == run[1..] + rest;
      RunIsSwallowed(run[1..], rest);
    }
  }

  /** Dashes are cut off at both ends, all of them and nothing else. */
  lemma TrimMeans(s: string) returns (i: nat, j: nat)
    ensures i <= j <= |s| && TrimRight(TrimLeft(s)) == s[i..j]
    ensures forall k :: 0 <= k < i || j <= k < |s| ==> s[k] == '-'
    ensures i < j ==> s[i] != '-' && s[j - 1] != '-'
  {
    i := TrimLeftMeans(s);
    var rest := s[i..];
    var n := TrimRightMeans(rest);
    j := i + n;
    assert rest[..n] == s[i..j];
    forall k | j <= k < |s| ensures s[k] == '-' { assert s[k] == rest[k - i]; }
  }

  lemma {:induction false} TrimLeftMeans(s: string) returns (i: nat)
    ensures i <= |s| && TrimLeft(s) == s[i..] && (forall k :: 0 <= k < i ==> s[k] == '-') && (i < |s| ==> s[i] != '-')
  {
    if s != "" && s[0] == '-' {
      i := TrimLeftMeans(s[1..]);
      i := i + 1;
    } else {
      i := 0;
    }
  }

  lemma {:induction false} TrimRightMeans(s: string) returns (j: nat)
    ensures j <= |s| && TrimRight(s) == s[..j] && (forall k :: j <= k < |s| ==> s[k] == '-')
    ensures 0 < j ==> s[j - 1] != '-'
  {
    if s != "" && s[|s| - 1] == '-' {
      j := TrimRightMeans(s[..|s| - 1]);
    } else {
      j := |s|;
    }
  }

  /** The branch of an unaltered id is its name behind the prefix; an altered one carries eight digits more. */
  lemma BranchIsNamed(raw: string, hash: string -> string)
    ensures BranchForJob(raw, hash) == None <==> Sanitized(raw) == ""
    ensures Unaltered(raw) ==> BranchForJob(raw, hash) == Some("hive/node-" + raw)
    ensures Sanitized(raw) !in {"", raw} ==>
      BranchForJob(raw, hash) == Some("hive/node-" + Sanitized(raw) + "-" + hash(raw))
  {
    assert PREFIX + (Sanitized(raw) + "-" + hash(raw)) == "hive/node-" + Sanitized(raw) + "-" + hash(raw);
  }

  /** The ids left unaltered are exactly the non-empty ones of plain characters that neither begin nor end in a dash. */
  lemma UnalteredMeans(raw: string)
    ensures Unaltered(raw) <==> raw != "" && PlainText(raw) && raw[0] != '-' && raw[|raw| - 1] != '-'
  {
    var c := Collapse(raw, false);
    CollapsePlain(raw, false);
    TrimLeftIs(c);
    TrimRightIs(TrimLeft(c));
    if raw != "" && Sanitized(raw) == raw {
      forall x | x in raw ensures PlainChar(x) {
        assert x in Sanitized(raw);
      }
    }
  }

  /** Unaltered ids keep their branches and their orphan files apart. */
  lemma UnalteredNamesAreDistinct(a: string, b: string, hash: string -> string)
    requires Unaltered(a) && Unaltered(b)
    ensures BranchForJob(a, hash) == BranchForJob(b, hash) ==> a == b
    ensures OrphanName(a) == OrphanName(b) ==> a == b
  {
    assert (PREFIX + a)[|PREFIX|..] == a && (PREFIX + b)[|PREFIX|..] == b;
    assert OrphanName(a)[..|OrphanName(a)| - 6] == a && OrphanName(b)[..|OrphanName(b)| - 6] == b;
  }

  lemma SuffixSplits(a: string, b: string, x: string, y: string)
    requires |x| == |y| && a + "-" + x == b + "-" + y
    ensures a == b && x == y
  {
    assert |a| == |b|;
    assert (a + "-" + x)[..|a|] == a && (b + "-" + y)[..|a|] == b;
    assert (a + "-" + x)[|a| + 1..] == x && (b + "-" + y)[|a| + 1..] == y;
  }

  /** What is behind the prefix of a branch. */
  function BranchTail(raw: string, hash: string -> string): string {
    if Sanitized(raw) != raw then Sanitized(raw) + "-" + hash(raw) else raw
  }

  lemma TailsDecide(a: string, b: string, hash: string -> string)
    requires Sanitized(a) != "" && Sanitized(b) != ""
    ensures BranchForJob(a, hash) == BranchForJob(b, hash) <==> BranchTail(a, hash) == BranchTail(b, hash)
  {
    var x, y := BranchTail(a, hash), BranchTail(b, hash);
    assert BranchForJob(a, hash) == Some(PREFIX + x) && BranchForJob(b, hash) == Some(PREFIX + y);
    assert (PREFIX + x)[|PREFIX|..] == x && (PREFIX + y)[|PREFIX|..] == y;
  }

  /** Two different usable ids share a branch exactly when both are altered alike with the same hash, or one of them,
      unaltered, spells out what the other becomes. */
  lemma BranchesCollideExactlyWhen(a: string, b: string, hash: string -> string)
    requires a != b && Sanitized(a) != "" && Sanitized(b) != "" && |hash(a)| == 8 && |hash(b)| == 8
    ensures BranchForJob(a, hash) == BranchForJob(b, hash) <==>
      || (Sanitized(a) != a && Sanitized(b) != b && Sanitized(a) == Sanitized(b) && hash(a) == hash(b))
      || (Sanitized(a) != a && Sanitized(b) == b && b == Sanitized(a) + "-" + hash(a))
      || (Sanitized(b) != b && Sanitized(a) == a && a == Sanitized(b) + "-" + hash(b))
  {
    TailsDecide(a, b, hash);
    if Sanitized(a) != a && Sanitized(b) != b && BranchTail(a, hash) == BranchTail(b, hash) {
      SuffixSplits(Sanitized(a), Sanitized(b), hash(a), hash(b));
    }
  }

  /** Two ids share an orphan file exactly when the sanitizer makes the same of both, or nothing of one or both and
      "unknown" of the other. */
  lemma OrphanNamesCollideExactlyWhen(a: string, b: string)
    ensures OrphanName(a) == OrphanName(b) <==>
      Sanitized(a) == Sanitized(b) || (Sanitized(a) in {"", "unknown"} && Sanitized(b) in {"", "unknown"})
  {
    assert OrphanName(a)[..|OrphanName(a)| - 6] == if Sanitized(a) == "" then "unknown" else Sanitized(a);
    assert OrphanName(b)[..|OrphanName(b)| - 6] == if Sanitized(b) == "" then "unknown" else Sanitized(b);
  }

  /** Altered ids do not: two of them can share an orphan file, and the branch of one can be that of an
      unaltered id that spells out its hash. */
  lemma AlteredNamesCollide(hash: string -> string)
    requires PlainText(hash("a b")) && |hash("a b")| == 8 && hash("a b")[7] != '-'
    ensures OrphanName("a b") == OrphanName("a/b")
    ensures
      var twin := "a-b-" + hash("a b");
      Unaltered(twin) && BranchForJob("a b", hash) == BranchForJob(twin, hash)
  {
    CollapseSpaced(' ');
    CollapseSpaced('/');
    assert ['a', ' ', 'b'] == "a b" && ['a', '/', 'b'] == "a/b";
    TrimLeftIs("a-b");
    TrimRightIs("a-b");
    var twin := "a-b-" + hash("a b");
    forall c | c in twin ensures PlainChar(c) {
      if c !in hash("a b") { assert c in "a-b-"; }
    }
    UnalteredMeans(twin);
    assert "a-b" + "-" + hash("a b") == twin;
  }

  lemma CollapseSpaced(c: char)
    requires !PlainChar(c)
    ensures Collapse(['a', c, 'b'], false) == "a-b"
  {
    var s := ['a', c, 'b'];
    assert s[1..] == [c, 'b'] && [c, 'b'][1..] == "b" && "b"[1..] == "";
    assert Collapse("b", true) == "b";
    assert Collapse([c, 'b'], false) == "-" + "b";
  }
}
