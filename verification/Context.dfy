/**
 * Packing the memories a job carries: the ones it names, in order, then search
 * results that are not among them, all within a byte limit that is checked as
 * the list grows.
 */
module Context {
  import opened Options

  datatype Memory = Memory(id: Option<string>, content: string)

  datatype Mode = Semantic | Fts | Exact | Off | Other

  /** The job's list of references: missing or falsy, not a list, or a list of ids. */
  datatype RefField = NoRefs | NotAList | Refs(ids: seq<string>)

  datatype Settings = Settings(mode: Mode, maxRefs: int, maxBytes: int, skipCount: int, skipBytes: int)

  datatype Error =
    | BadMode | RefsNotAList | NegativeMaxRefs | TooManyRefs | NonPositiveMaxBytes | LookupFailed | ContextTooLarge

  datatype Result = Ok(context: seq<Memory>) | Err(error: Error)

  /** UTF-8 bytes of a text. */
  function Bytes(s: string): nat {
    if s == "" then 0 else Bytes(s[..|s| - 1]) + CharBytes(s[|s| - 1])
  }

  function CharBytes(c: char): nat {
    if c as int < 0x80 then 1 else if c as int < 0x800 then 2 else if c as int < 0x1_0000 then 3 else 4
  }

  function Total(ms: seq<Memory>): nat {
    if ms == [] then 0 else Total(ms[..|ms| - 1]) + Bytes(ms[|ms| - 1].content)
  }

  /** A character in UTF-8, section 3 of RFC 3629: a lead byte that says how many follow, six bits in each of them. */
  function Utf8(c: char): seq<int> {
    var n := c as int;
    var h := n / 64;
    var t := h / 64;
    if n < 0x80 then [n]
    else if n < 0x800 then [0xC0 + h, 0x80 + n % 64]
    else if n < 0x1_0000 then [0xE0 + t, 0x80 + h % 64, 0x80 + n % 64]
    else [0xF0 + t / 64, 0x80 + t % 64, 0x80 + h % 64, 0x80 + n % 64]
  }

  function Encoded(s: string): seq<int> {
    if s == "" then [] else Utf8(s[0]) + Encoded(s[1..])
  }

  /** Read back: the bits of the lead byte, then six of each that follows. */
  function Decoded(b: seq<int>): int
    requires 1 <= |b| <= 4
  {
    if |b| == 1 then b[0]
    else if |b| == 2 then (b[0] - 0xC0) * 64 + (b[1] - 0x80)
    else if |b| == 3 then ((b[0] - 0xE0) * 64 + (b[1] - 0x80)) * 64 + (b[2] - 0x80)
    else (((b[0] - 0xF0) * 64 + (b[1] - 0x80)) * 64 + (b[2] - 0x80)) * 64 + (b[3] - 0x80)
  }

  /** The bytes read back as the character, and the lead byte says how many there are. */
  lemma Utf8Decodes(c: char)
    ensures 1 <= |Utf8(c)| <= 4 && Decoded(Utf8(c)) == c as int
    ensures forall k :: 1 <= k < |Utf8(c)| ==> 0x80 <= Utf8(c)[k] < 0xC0
    ensures
      var lead := Utf8(c)[0];
      |Utf8(c)| == if lead < 0x80 then 1 else if lead < 0xE0 then 2 else if lead < 0xF0 then 3 else 4
  {
    var n := c as int;
    assert n == n / 64 * 64 + n % 64;
    assert n / 64 == n / 64 / 64 * 64 + n / 64 % 64;
    assert n / 64 / 64 == n / 64 / 64 / 64 * 64 + n / 64 / 64 % 64;
  }

  lemma {:induction false} BytesConcat(a: string, b: string)
    ensures Bytes(a + b) == Bytes(a) + Bytes(b)
  {
    if b == "" {
      assert a + b == a;
    } else {
      assert (a + b)[..|a + b| - 1] == a + b[..|b| - 1];
      BytesConcat(a, b[..|b| - 1]);
    }
  }

  lemma {:induction false} BytesAreUtf8(s: string)
    ensures Bytes(s) == |Encoded(s)|
  {
    if s != "" {
      BytesAreUtf8(s[1..]);
      BytesConcat([s[0]], s[1..]);
      assert s == [s[0]] + s[1..] && [s[0]][..0] == "";
      assert Bytes([s[0]]) == CharBytes(s[0]);
    }
  }

  function Contents(ms: seq<Memory>): string {
    if ms == [] then "" else ms[0].content + Contents(ms[1..])
  }

  /** The total of a list is the length in bytes of all its contents put together. */
  lemma {:induction false} TotalIsEncoded(ms: seq<Memory>)
    ensures Total(ms) == |Encoded(Contents(ms))|
  {
    BytesAreUtf8(Contents(ms));
    if ms != [] {
      TotalIsEncoded(ms[1..]);
      BytesAreUtf8(Contents(ms[1..]));
      BytesConcat(ms[0].content, Contents(ms[1..]));
      TotalConcat([ms[0]], ms[1..]);
      assert ms == [ms[0]] + ms[1..] && [ms[0]][..0] == [];
      assert Total([ms[0]]) == Bytes(ms[0].content);
    }
  }

  // ---- The one-shot specification --------------------------------------------------

  function WantedRefs(s: Settings, refs: RefField): seq<string> {
    if s.mode.Off? || !refs.Refs? then [] else refs.ids
  }

  function SettingsError(s: Settings, refs: RefField): Option<Error> {
    if s.mode.Other? then Some(BadMode)
    else if refs.NotAList? && !s.mode.Off? then Some(RefsNotAList)
    else if s.maxRefs < 0 then Some(NegativeMaxRefs)
    else if |WantedRefs(s, refs)| > s.maxRefs then Some(TooManyRefs)
    else if s.maxBytes <= 0 then Some(NonPositiveMaxBytes)
    else None
  }

  /** Every lookup that succeeds, in order. */
  function Fetched(get: string -> Option<Memory>, ids: seq<string>): seq<Memory> {
    if ids == [] then []
    else Fetched(get, ids[..|ids| - 1]) + match get(ids[|ids| - 1]) case Some(m) => [m] case None => []
  }

  function Ids(ms: seq<Memory>): set<Option<string>> {
    set m | m in ms :: m.id
  }

  /** The results whose id is not among `ids`, in order. */
  function Others(found: seq<Memory>, ids: set<Option<string>>): seq<Memory> {
    if found == [] then []
    else Others(found[..|found| - 1], ids) + if found[|found| - 1].id in ids then [] else [found[|found| - 1]]
  }

  predicate Searches(s: Settings, exact: seq<Memory>) {
    (s.mode.Semantic? || s.mode.Fts?)
    && !((s.skipCount > 0 && |exact| >= s.skipCount) || (s.skipBytes > 0 && Total(exact) >= s.skipBytes))
  }

  /** The whole context, as filter and concatenate. */
  function Whole(s: Settings, exact: seq<Memory>, found: seq<Memory>): seq<Memory> {
    exact + if Searches(s, exact) then Others(found, Ids(exact)) else []
  }

  function AllFound(get: string -> Option<Memory>, ids: seq<string>): bool {
    forall n :: 0 <= n < |ids| ==> get(ids[n]).Some?
  }

  // ---- Packing, with the limit checked as it goes --------------------------------------

  method PackExact(get: string -> Option<Memory>, ids: seq<string>, maxBytes: int) returns (r: Result, bytes: nat)
    requires maxBytes > 0
    ensures r.Ok? ==> r.context == Fetched(get, ids) && AllFound(get, ids) && bytes == Total(r.context) <= maxBytes
    ensures r.Err? ==> exists n :: IsVerdictAt(get, ids, maxBytes, n, r.error)
  {
    var exact := [];
    bytes := 0;
    for n := 0 to |ids|
      invariant exact == Fetched(get, ids[..n]) && bytes == Total(exact) <= maxBytes
      invariant AllFound(get, ids[..n])
    {
      assert ids[..n + 1][..n] == ids[..n];
      var memory := get(ids[n]);
      if memory.None? {
        assert IsVerdictAt(get, ids, maxBytes, n, LookupFailed);
        return Err(LookupFailed), bytes;
      }
      bytes := bytes + Bytes(memory.value.content);
      assert Fetched(get, ids[..n + 1]) == exact + [memory.value];
      if bytes > maxBytes {
        assert IsVerdictAt(get, ids, maxBytes, n, ContextTooLarge);
        return Err(ContextTooLarge), bytes;
      }
      exact := exact + [memory.value];
    }
    assert ids[..|ids|] == ids;
    r := Ok(exact);
  }

  /** What stops the lookups at position `n`: a missing memory, or the first sum above the limit. */
  ghost predicate IsVerdictAt(get: string -> Option<Memory>, ids: seq<string>, maxBytes: int, n: nat, e: Error) {
    && n < |ids| && AllFound(get, ids[..n]) && Total(Fetched(get, ids[..n])) <= maxBytes
    && (e.LookupFailed? <==> get(ids[n]).None?)
    && (!e.LookupFailed? ==> e.ContextTooLarge? && Total(Fetched(get, ids[..n + 1])) > maxBytes)
  }

  /** With every memory found, only the whole sum can have stopped the lookups. */
  lemma VerdictMeans(get: string -> Option<Memory>, ids: seq<string>, maxBytes: int, n: nat, e: Error)
    requires IsVerdictAt(get, ids, maxBytes, n, e) && AllFound(get, ids)
    ensures e == ContextTooLarge && Total(Fetched(get, ids)) > maxBytes
  {
    TotalGrows(get, ids, n + 1);
  }

  /** Sums never fall as the list grows. */
  lemma {:induction false} TotalGrows(get: string -> Option<Memory>, ids: seq<string>, n: nat)
    requires n <= |ids|
    ensures Total(Fetched(get, ids[..n])) <= Total(Fetched(get, ids))
    decreases |ids|
  {
    if n < |ids| {
      var front := ids[..|ids| - 1];
      assert front[..n] == ids[..n];
      TotalGrows(get, front, n);
      TotalConcat(Fetched(get, front), match get(ids[|ids| - 1]) case Some(m) => [m] case None => []);
    } else {
      assert ids[..n] == ids;
    }
  }

  lemma {:induction false} TotalConcat(a: seq<Memory>, b: seq<Memory>)
    ensures Total(a + b) == Total(a) + Total(b)
  {
    if b == [] {
      assert a + b == a;
    } else {
      assert (a + b)[..|a + b| - 1] == a + b[..|b| - 1];
      TotalConcat(a, b[..|b| - 1]);
    }
  }

  lemma {:induction false} OthersGrow(found: seq<Memory>, ids: set<Option<string>>, n: nat)
    requires n <= |found|
    ensures Total(Others(found[..n], ids)) <= Total(Others(found, ids))
    decreases |found|
  {
    if n < |found| {
      var front := found[..|found| - 1];
      assert front[..n] == found[..n];
      OthersGrow(front, ids, n);
      TotalConcat(Others(front, ids), if found[|found| - 1].id in ids then [] else [found[|found| - 1]]);
    } else {
      assert found[..n] == found;
    }
  }

  method PackFound(exact: seq<Memory>, exactBytes: nat, found: seq<Memory>, maxBytes: int) returns (r: Result)
    requires exactBytes == Total(exact) <= maxBytes
    ensures
      r == if Total(exact + Others(found, Ids(exact))) > maxBytes
           then Err(ContextTooLarge)
           else Ok(exact + Others(found, Ids(exact)))
  {
    var ids := Ids(exact);
    var others, bytes := [], exactBytes;
    TotalConcat(exact, Others(found, ids));
    for n := 0 to |found|
      invariant others == Others(found[..n], ids) && bytes == Total(exact) + Total(others) <= maxBytes
    {
      assert found[..n + 1][..n] == found[..n];
      OthersGrow(found, ids, n + 1);
      if found[n].id in ids { continue; }
      bytes := bytes + Bytes(found[n].content);
      assert Others(found[..n + 1], ids) == others + [found[n]];
      if bytes > maxBytes { return Err(ContextTooLarge); }
      others := others + [found[n]];
    }
    assert found[..|found|] == found;
    r := Ok(exact + others);
  }

  /** The context of a job.  With valid settings and successful lookups, exactly the whole filtered concatenation,
      and an error for the byte limit exactly when the whole exceeds it. */
  method BuildContext(s: Settings, refs: RefField, get: string -> Option<Memory>, search: bool -> Option<seq<Memory>>)
        returns (r: Result)
    ensures SettingsError(s, refs).Some? ==> r == Err(SettingsError(s, refs).value)
    ensures SettingsError(s, refs).None? && AllFound(get, WantedRefs(s, refs)) ==>
      var exact := Fetched(get, WantedRefs(s, refs));
      var found := search(s.mode.Semantic?);
      if Searches(s, exact) && found.None? then
        r == Err(if Total(exact) > s.maxBytes then ContextTooLarge else LookupFailed)
      else
        var whole := Whole(s, exact, if found.Some? then found.value else []);
        r == if Total(whole) > s.maxBytes then Err(ContextTooLarge) else Ok(whole)
    ensures SettingsError(s, refs).None? && !AllFound(get, WantedRefs(s, refs)) ==>
      r.Err? && exists n :: IsVerdictAt(get, WantedRefs(s, refs), s.maxBytes, n, r.error)
  {
    if s.mode.Other? { return Err(BadMode); }
    if refs.NotAList? && !s.mode.Off? { return Err(RefsNotAList); }
    var ids := WantedRefs(s, refs);
    if s.maxRefs < 0 { return Err(NegativeMaxRefs); }
    if |ids| > s.maxRefs { return Err(TooManyRefs); }
    if s.maxBytes <= 0 { return Err(NonPositiveMaxBytes); }
    var bytes;
    r, bytes := PackExact(get, ids, s.maxBytes);
    ghost var exact := Fetched(get, ids);
    ghost var found := search(s.mode.Semantic?);
    TotalConcat(exact, if Searches(s, exact) && found.Some? then Others(found.value, Ids(exact)) else []);
    assert exact + [] == exact;
    if r.Err? {
      ghost var n :| IsVerdictAt(get, ids, s.maxBytes, n, r.error);
      if AllFound(get, ids) { VerdictMeans(get, ids, s.maxBytes, n, r.error); }
      return;
    }
    var enough := (s.skipCount > 0 && |r.context| >= s.skipCount) || (s.skipBytes > 0 && bytes >= s.skipBytes);
    if (s.mode.Semantic? || s.mode.Fts?) && !enough {
      var results := search(s.mode.Semantic?);
      if results.None? { return Err(LookupFailed); }
      r := PackFound(r.context, bytes, results.value, s.maxBytes);
    }
  }

  // ---- What the parts are ------------------------------------------------------------------

  /** The named memories, one for each id that is found, in the order in which they are named. */
  lemma {:induction false} FetchedAre(get: string -> Option<Memory>, ids: seq<string>)
    requires AllFound(get, ids)
    ensures |Fetched(get, ids)| == |ids| && forall n :: 0 <= n < |ids| ==> Some(Fetched(get, ids)[n]) == get(ids[n])
  {
    if ids != [] { FetchedAre(get, ids[..|ids| - 1]); }
  }

  /** The settings are in order exactly if the mode is known, the references are a list unless none are wanted, there
      are not too many of them, and there is room; and each error names what is not. */
  lemma SettingsAreInOrder(s: Settings, refs: RefField)
    ensures SettingsError(s, refs).None? <==>
      && !s.mode.Other? && (s.mode.Off? || !refs.NotAList?) && 0 < s.maxBytes
      && 0 <= s.maxRefs && (!s.mode.Off? && refs.Refs? ==> |refs.ids| <= s.maxRefs)
    ensures SettingsError(s, refs) == Some(BadMode) <==> s.mode.Other?
    ensures SettingsError(s, refs) == Some(RefsNotAList) ==> refs.NotAList? && !s.mode.Off?
    ensures SettingsError(s, refs) == Some(NegativeMaxRefs) ==> s.maxRefs < 0
    ensures SettingsError(s, refs) == Some(TooManyRefs) ==> refs.Refs? && 0 <= s.maxRefs < |refs.ids|
    ensures SettingsError(s, refs) == Some(NonPositiveMaxBytes) ==> s.maxBytes <= 0
    ensures SettingsError(s, refs) !in {Some(LookupFailed), Some(ContextTooLarge)}
  {
  }

  /** Search results are appended only in the two searching modes, and not once the named memories are many enough or
      long enough. */
  lemma SearchIsSkipped(s: Settings, exact: seq<Memory>, found: seq<Memory>)
    ensures !s.mode.Semantic? && !s.mode.Fts? ==> Whole(s, exact, found) == exact
    ensures 0 < s.skipCount <= |exact| ==> Whole(s, exact, found) == exact
    ensures 0 < s.skipBytes <= |Encoded(Contents(exact))| ==> Whole(s, exact, found) == exact
    ensures
      var enough := 0 < s.skipCount <= |exact| || 0 < s.skipBytes <= |Encoded(Contents(exact))|;
      (s.mode.Semantic? || s.mode.Fts?) && !enough ==>
        forall m :: m in Whole(s, exact, found) <==>
          m in exact || (m in found && forall e :: e in exact ==> e.id != m.id)
  {
    TotalIsEncoded(exact);
    OthersAre(found, Ids(exact));
    forall m: Memory ensures m.id in Ids(exact) <==> exists e :: e in exact && e.id == m.id {}
  }

  // ---- What the whole is -------------------------------------------------------------------

  /** What follows the exact memories is the results with other ids, all of them, and in their order. */
  lemma {:induction false} OthersAre(found: seq<Memory>, ids: set<Option<string>>)
    ensures forall m :: m in Others(found, ids) <==> m in found && m.id !in ids
    ensures forall a, b :: a + b == found ==> Others(found, ids) == Others(a, ids) + Others(b, ids)
  {
    forall a, b | a + b == found ensures Others(found, ids) == Others(a, ids) + Others(b, ids) {
      OthersConcat(a, b, ids);
    }
    if found != [] {
      OthersAre(found[..|found| - 1], ids);
      assert found == found[..|found| - 1] + [found[|found| - 1]];
    }
  }

  lemma {:induction false} OthersConcat(a: seq<Memory>, b: seq<Memory>, ids: set<Option<string>>)
    ensures Others(a + b, ids) == Others(a, ids) + Others(b, ids)
  {
    if b == [] {
      assert a + b == a;
    } else {
      assert (a + b)[..|a + b| - 1] == a + b[..|b| - 1];
      OthersConcat(a, b[..|b| - 1], ids);
    }
  }

  /** So no named memory appears twice for being found again. */
  lemma NamedOnce(s: Settings, exact: seq<Memory>, found: seq<Memory>)
    ensures exact <= Whole(s, exact, found)
    ensures forall i, j :: 0 <= i < |exact| <= j < |Whole(s, exact, found)| ==>
      Whole(s, exact, found)[j].id != exact[i].id
  {
    OthersAre(found, Ids(exact));
    var others := Others(found, Ids(exact));
    forall i, j | 0 <= i < |exact| <= j < |Whole(s, exact, found)| ensures Whole(s, exact, found)[j].id != exact[i].id {
      assert Whole(s, exact, found)[j] in others;
      assert exact[i] in exact;
    }
  }
}
