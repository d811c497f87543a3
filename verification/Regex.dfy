/**
 * The backtracking matcher behind the poller's block patterns, for patterns
 * that repeat only character classes.  A match is the first one in the order
 * in which Python's `re` tries alternatives: greedy repetition longest first,
 * lazy repetition shortest first, an optional text present first.
 */
module Regex {
  import opened Options
  import opened Text

  /** Blank is [ \t]; PathChar is [^\n=]; Space and NonSpace are \s and \S; Name is [A-Za-z0-9_]. */
  datatype Class = Blank | PathChar | Any | Space | NonSpace | NameStart | Name | Either(a: char, b: char)

  predicate Has(cls: Class, c: char) {
    match cls
    case Blank => c == ' ' || c == '\t'
    case PathChar => c != '\n' && c != '='
    case Any => true
    case Space => IsSpace(c)
    case NonSpace => !IsSpace(c)
    case NameStart => 'a' <= c <= 'z' || 'A' <= c <= 'Z' || c == '_'
    case Name => 'a' <= c <= 'z' || 'A' <= c <= 'Z' || c == '_' || '0' <= c <= '9'
    case Either(a, b) => c == a || c == b
  }

  /** A pattern; each node says what comes next. Mark records a position: the edge of a group. */
  datatype Pat =
    | End
    | LineStart(next: Pat)
    | LineEnd(next: Pat)
    | Lit(text: string, next: Pat)
    | Opt(text: string, next: Pat)
    | One(cls: Class, next: Pat)
    | Star(cls: Class, next: Pat)
    | LazyStar(cls: Class, next: Pat)
    | Mark(next: Pat)
    | Alt(first: Pat, second: Pat)

  predicate At(s: string, i: nat, text: string)
    requires i <= |s|
  {
    text <= s[i..]
  }

  /** The marked positions of a match in order, and where it ends. */
  datatype Match = EndsAt(at: nat) | MarkAt(at: nat, rest: Match)

  function Last(m: Match): nat {
    if m.EndsAt? then m.at else Last(m.rest)
  }

  /** The first match of `p` at `i`. */
  function M(p: Pat, s: string, i: nat): (r: Option<Match>)
    requires i <= |s|
    ensures r.Some? ==> i <= Last(r.value) <= |s|
    decreases |s| - i, p
  {
    match p
    case End => Some(EndsAt(i))
    case LineStart(q) => if i == 0 || s[i - 1] == '\n' then M(q, s, i) else None
    case LineEnd(q) => if i == |s| || s[i] == '\n' then M(q, s, i) else None
    case Lit(t, q) => if At(s, i, t) then M(q, s, i + |t|) else None
    case Opt(t, q) =>
      if At(s, i, t) && M(q, s, i + |t|).Some? then M(q, s, i + |t|) else M(q, s, i)
    case One(cls, q) => if i < |s| && Has(cls, s[i]) then M(q, s, i + 1) else None
    case Star(cls, q) =>
      if i < |s| && Has(cls, s[i]) && M(p, s, i + 1).Some? then M(p, s, i + 1) else M(q, s, i)
    case LazyStar(cls, q) =>
      if M(q, s, i).Some? then M(q, s, i)
      else if i < |s| && Has(cls, s[i]) then M(p, s, i + 1) else None
    case Mark(q) =>
      var r := M(q, s, i);
      if r.Some? then Some(MarkAt(i, r.value)) else None
    case Alt(q, r) => if M(q, s, i).Some? then M(q, s, i) else M(r, s, i)
  }

  /** Successive matches. */
  datatype Matches = NoMore | More(first: Match, rest: Matches)

  /** All matches from `i` on, left to right, each starting where the one before ended or later. */
  function FindAll(p: Pat, s: string, i: nat): Matches
    requires i <= |s|
    decreases |s| - i
  {
    var r := M(p, s, i);
    if r.Some? && i < Last(r.value) then More(r.value, FindAll(p, s, Last(r.value)))
    else
      var rest := if i < |s| then FindAll(p, s, i + 1) else NoMore;
      if r.Some? then More(r.value, rest) else rest
  }

  /** After a match up to `e` the search goes on at `e`. */
  lemma FindAllTakes(p: Pat, s: string, i: nat, m: Match, e: nat)
    requires i < e <= |s| && M(p, s, i) == Some(m) && Last(m) == e
    ensures FindAll(p, s, i) == More(m, FindAll(p, s, e))
  {
  }

  lemma FindAllSkips(p: Pat, s: string, i: nat)
    requires i <= |s| && M(p, s, i) == None
    ensures FindAll(p, s, i) == if i < |s| then FindAll(p, s, i + 1) else NoMore
  {
  }

  // ---- How repetitions choose -----------------------------------------------------

  /** A greedy repetition takes the whole run if what follows matches there. */
  lemma {:induction false} StarTakesRun(cls: Class, q: Pat, s: string, i: nat, e: nat)
    requires i <= e <= |s| && (forall t :: i <= t < e ==> Has(cls, s[t])) && (e < |s| ==> !Has(cls, s[e]))
    requires M(q, s, e).Some?
    ensures M(Star(cls, q), s, i) == M(q, s, e)
    decreases e - i
  {
    if i < e { StarTakesRun(cls, q, s, i + 1, e); }
  }

  /** It fails if what follows matches nowhere along the run. */
  lemma {:induction false} StarFails(cls: Class, q: Pat, s: string, i: nat, e: nat)
    requires i <= e <= |s| && (e < |s| ==> !Has(cls, s[e]))
    requires forall t :: i <= t <= e ==> M(q, s, t) == None
    ensures M(Star(cls, q), s, i) == None
    decreases e - i
  {
    if i < e { StarFails(cls, q, s, i + 1, e); }
  }

  /** A lazy repetition stops at the first place where what follows matches. */
  lemma {:induction false} LazyStopsFirst(cls: Class, q: Pat, s: string, i: nat, e: nat)
    requires i <= e <= |s| && (forall t :: i <= t < e ==> Has(cls, s[t]) && M(q, s, t) == None)
    requires M(q, s, e).Some?
    ensures M(LazyStar(cls, q), s, i) == M(q, s, e)
    decreases e - i
  {
    if i < e { LazyStopsFirst(cls, q, s, i + 1, e); }
  }

  // ---- Patterns that never cross a line end ------------------------------------------

  /** No node of the pattern consumes a newline. */
  predicate Inline(p: Pat) {
    match p
    case End => true
    case LineStart(q) => Inline(q)
    case LineEnd(q) => Inline(q)
    case Lit(t, q) => '\n' !in t && Inline(q)
    case Opt(t, q) => '\n' !in t && Inline(q)
    case One(cls, q) => !Has(cls, '\n') && Inline(q)
    case Star(cls, q) => !Has(cls, '\n') && Inline(q)
    case LazyStar(cls, q) => !Has(cls, '\n') && Inline(q)
    case Mark(q) => Inline(q)
    case Alt(q, r) => Inline(q) && Inline(r)
  }

  function ShiftMatch(m: Match, d: nat): Match {
    match m
    case EndsAt(at) => EndsAt(at + d)
    case MarkAt(at, rest) => MarkAt(at + d, ShiftMatch(rest, d))
  }

  function Shift(r: Option<Match>, d: nat): Option<Match> {
    if r.None? then None else Some(ShiftMatch(r.value, d))
  }

  /** `mid` stands in `s` at `d`, as a stretch of whole lines. */
  ghost predicate Embedded(s: string, d: nat, mid: string) {
    && d + |mid| <= |s|
    && (forall k :: 0 <= k < |mid| ==> s[d + k] == mid[k])
    && (d == 0 || s[d - 1] == '\n')
    && (d + |mid| == |s| || s[d + |mid|] == '\n')
  }

  lemma AtInside(s: string, d: nat, mid: string, j: nat, t: string)
    requires Embedded(s, d, mid) && j <= |mid| && '\n' !in t
    ensures At(s, d + j, t) <==> At(mid, j, t)
  {
    assert forall k :: 0 <= k < |mid| - j ==> s[d + j..][k] == mid[j..][k];
    assert d + |mid| < |s| ==> s[d + j..][|mid| - j] == '\n';
    if At(s, d + j, t) {
      assert forall k :: 0 <= k < |t| ==> t[k] == s[d + j..][k];
      assert |t| <= |mid| - j;
    }
  }

  /** What the pattern sees at `j` of a stretch of lines is what it sees there in the text. */
  ghost predicate Local(p: Pat, s: string, d: nat, mid: string, j: nat)
    requires Embedded(s, d, mid) && j <= |mid|
  {
    M(p, s, d + j) == Shift(M(p, mid, j), d)
  }

  lemma OptIsLocal(t: string, q: Pat, s: string, d: nat, mid: string, j: nat)
    requires Embedded(s, d, mid) && j <= |mid| && '\n' !in t && Local(q, s, d, mid, j)
    requires At(mid, j, t) ==> Local(q, s, d, mid, j + |t|)
    ensures Local(Opt(t, q), s, d, mid, j)
  {
    AtInside(s, d, mid, j, t);
  }

  lemma LitIsLocal(t: string, q: Pat, s: string, d: nat, mid: string, j: nat)
    requires Embedded(s, d, mid) && j <= |mid| && '\n' !in t
    requires At(mid, j, t) ==> Local(q, s, d, mid, j + |t|)
    ensures Local(Lit(t, q), s, d, mid, j)
  {
    AtInside(s, d, mid, j, t);
  }

  lemma OneIsLocal(cls: Class, q: Pat, s: string, d: nat, mid: string, j: nat)
    requires Embedded(s, d, mid) && j <= |mid| && !Has(cls, '\n') && (j < |mid| ==> Local(q, s, d, mid, j + 1))
    ensures Local(One(cls, q), s, d, mid, j)
  {
  }

  lemma StarIsLocal(cls: Class, q: Pat, s: string, d: nat, mid: string, j: nat)
    requires Embedded(s, d, mid) && j <= |mid| && !Has(cls, '\n') && Local(q, s, d, mid, j)
    requires j < |mid| ==> Local(Star(cls, q), s, d, mid, j + 1)
    ensures Local(Star(cls, q), s, d, mid, j)
  {
  }

  lemma LazyStarIsLocal(cls: Class, q: Pat, s: string, d: nat, mid: string, j: nat)
    requires Embedded(s, d, mid) && j <= |mid| && !Has(cls, '\n') && Local(q, s, d, mid, j)
    requires j < |mid| ==> Local(LazyStar(cls, q), s, d, mid, j + 1)
    ensures Local(LazyStar(cls, q), s, d, mid, j)
  {
  }

  lemma EdgeIsLocal(q: Pat, s: string, d: nat, mid: string, j: nat)
    requires Embedded(s, d, mid) && j <= |mid| && Local(q, s, d, mid, j)
    ensures Local(LineStart(q), s, d, mid, j) && Local(LineEnd(q), s, d, mid, j) && Local(Mark(q), s, d, mid, j)
  {
  }

  lemma AltIsLocal(q: Pat, r: Pat, s: string, d: nat, mid: string, j: nat)
    requires Embedded(s, d, mid) && j <= |mid| && Local(q, s, d, mid, j) && Local(r, s, d, mid, j)
    ensures Local(Alt(q, r), s, d, mid, j)
  {
  }

  /** Such a pattern sees a stretch of lines the same way in the middle of a text as on its own. */
  lemma {:induction false} LinesAreLocal(p: Pat, s: string, d: nat, mid: string, j: nat)
    requires Inline(p) && Embedded(s, d, mid) && j <= |mid|
    ensures Local(p, s, d, mid, j)
    decreases |mid| - j, p
  {
    match p
    case End =>
    case LineStart(q) =>
      LinesAreLocal(q, s, d, mid, j);
      EdgeIsLocal(q, s, d, mid, j);
    case LineEnd(q) =>
      LinesAreLocal(q, s, d, mid, j);
      EdgeIsLocal(q, s, d, mid, j);
    case Lit(t, q) =>
      if At(mid, j, t) { LinesAreLocal(q, s, d, mid, j + |t|); }
      LitIsLocal(t, q, s, d, mid, j);
    case Opt(t, q) =>
      if At(mid, j, t) { LinesAreLocal(q, s, d, mid, j + |t|); }
      LinesAreLocal(q, s, d, mid, j);
      OptIsLocal(t, q, s, d, mid, j);
    case One(cls, q) =>
      if j < |mid| { LinesAreLocal(q, s, d, mid, j + 1); }
      OneIsLocal(cls, q, s, d, mid, j);
    case Star(cls, q) =>
      if j < |mid| { LinesAreLocal(p, s, d, mid, j + 1); }
      LinesAreLocal(q, s, d, mid, j);
      StarIsLocal(cls, q, s, d, mid, j);
    case LazyStar(cls, q) =>
      if j < |mid| { LinesAreLocal(p, s, d, mid, j + 1); }
      LinesAreLocal(q, s, d, mid, j);
      LazyStarIsLocal(cls, q, s, d, mid, j);
    case Mark(q) =>
      LinesAreLocal(q, s, d, mid, j);
      EdgeIsLocal(q, s, d, mid, j);
    case Alt(q, r) =>
      LinesAreLocal(q, s, d, mid, j);
      LinesAreLocal(r, s, d, mid, j);
      AltIsLocal(q, r, s, d, mid, j);
  }

  /** `p` matches nowhere in `s`. */
  ghost predicate Absent(p: Pat, s: string) {
    forall i :: 0 <= i <= |s| ==> M(p, s, i) == None
  }

  /** Where such a stretch of lines stands in a text, `p` matches nowhere from its beginning to its end. */
  lemma AbsentWhereEmbedded(p: Pat, s: string, d: nat, mid: string)
    requires Inline(p) && Embedded(s, d, mid) && Absent(p, mid)
    ensures forall t :: d <= t <= d + |mid| ==> M(p, s, t) == None
  {
    forall t | d <= t <= d + |mid| ensures M(p, s, t) == None {
      LinesAreLocal(p, s, d, mid, t - d);
      assert M(p, mid, t - d) == None;
    }
  }

  lemma {:induction false} AbsentFindsNothing(p: Pat, s: string, i: nat)
    requires i <= |s| && forall t :: i <= t <= |s| ==> M(p, s, t) == None
    ensures FindAll(p, s, i) == NoMore
    decreases |s| - i
  {
    if i < |s| { AbsentFindsNothing(p, s, i + 1); }
  }
}
