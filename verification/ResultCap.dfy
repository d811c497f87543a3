/** Fitting a job result under the size the hive accepts, field by field. */
module ResultCap {
  import opened Options
  import opened Dicts

  datatype Json =
    | Null
    | Bool(b: bool)
    | Number(text: string)
    | Str(s: string)
    | List(items: seq<Json>)
    | Object(fields: seq<(string, Json)>)

  /** A dict: keys in insertion order, each once. */
  type Dict = seq<(string, Json)>

  // ---- Size of the compact JSON text, with non-ASCII characters escaped ----------------

  function CharSize(c: char): nat {
    if c == '"' || c == '\\' || c == '\n' || c == '\r' || c == '\t' || c == 8 as char || c == 12 as char then 2
    else if 32 <= c as int <= 126 then 1
    else if c as int <= 0xFFFF then 6
    else 12
  }

  function TextSize(s: string): nat {
    if s == "" then 0 else CharSize(s[0]) + TextSize(s[1..])
  }

  function StrSize(s: string): nat { 2 + TextSize(s) }

  function Size(v: Json): nat
    decreases v
  {
    match v
    case Null => 4
    case Bool(b) => if b then 4 else 5
    case Number(text) => |text|
    case Str(s) => StrSize(s)
    case List(items) => 2 + ItemsSize(v, items) + if items == [] then 0 else |items| - 1
    case Object(fields) => 2 + FieldsSize(v, fields) + if fields == [] then 0 else |fields| - 1
  }

  function ItemsSize(v: Json, items: seq<Json>): nat
    requires forall i :: 0 <= i < |items| ==> items[i] < v
    decreases v, |items|
  {
    if items == [] then 0 else Size(items[0]) + ItemsSize(v, items[1..])
  }

  function FieldsSize(v: Json, fields: seq<(string, Json)>): nat
    requires forall i :: 0 <= i < |fields| ==> fields[i].1 < v
    decreases v, |fields|
  {
    if fields == [] then 0 else StrSize(fields[0].0) + 1 + Size(fields[0].1) + FieldsSize(v, fields[1..])
  }

  function DictSize(d: Dict): nat { Size(Object(d)) }

  // ---- Dict operations ----------------------------------------------------------------

  function Get(d: Dict, key: string): Option<Json> {
    if d == [] then None else if d[0].0 == key then Some(d[0].1) else Get(d[1..], key)
  }

  function Del(d: Dict, key: string): Dict {
    if d == [] then [] else if d[0].0 == key then Del(d[1..], key) else [d[0]] + Del(d[1..], key)
  }

  lemma {:induction false} GetPut(d: Dict, key: string, value: Json, k: string)
    ensures Get(Put(d, key, value), k) == if k == key then Some(value) else Get(d, k)
  {
    if d != [] && d[0].0 != key { GetPut(d[1..], key, value, k); }
  }

  lemma {:induction false} GetDel(d: Dict, key: string, k: string)
    ensures Get(Del(d, key), k) == if k == key then None else Get(d, k)
  {
    if d != [] { GetDel(d[1..], key, k); }
  }

  // ---- Shrinking ------------------------------------------------------------------------

  const MAX_RESULT_BYTES := 256 * 1024
  const TOO_LARGE := Str("payload_too_large")
  const DROPPABLE := ["patch", "suggestion", "metrics", "files_changed"]
  const KEPT := [
    "needs_review", "commit_sha", "node_commit_sha", "commits", "branch",
    "landed_branch", "landed_repo", "landed_sha", "landing", "landing_error", "patch_saved"]

  predicate Fits(d: Dict) { DictSize(d) <= MAX_RESULT_BYTES }

  /** A dict without one payload field, and with a note that it was dropped. */
  function DropField(d: Dict, field: string): Dict {
    if Get(d, field).None? then d else Del(Put(d, field + "_dropped", TOO_LARGE), field)
  }

  function DropFields(d: Dict, n: nat): Dict
    requires n <= |DROPPABLE|
  {
    if n == 0 then d else DropField(DropFields(d, n - 1), DROPPABLE[n - 1])
  }

  /** Only the routing and review fields, from the `n` first of KEPT. */
  function Essentials(d: Dict, n: nat): Dict
    requires n <= |KEPT|
  {
    if n == 0 then []
    else Essentials(d, n - 1) + match Get(d, KEPT[n - 1]) case Some(v) => [(KEPT[n - 1], v)] case None => []
  }

  function Fallback(d: Dict): Dict { Put(Essentials(d, |KEPT|), "error", TOO_LARGE) }

  /** The shortest run of drops that fits, or else the essentials. */
  function Shrunk(d: Dict): Dict { ShrunkFrom(d, 0) }

  function ShrunkFrom(d: Dict, n: nat): Dict
    requires n <= |DROPPABLE|
    decreases |DROPPABLE| - n
  {
    if Fits(DropFields(d, n)) then DropFields(d, n)
    else if n == |DROPPABLE| then Fallback(DropFields(d, n))
    else ShrunkFrom(d, n + 1)
  }

  method ShrinkResult(input: Dict) returns (result: Dict)
    ensures result == Shrunk(input)
  {
    result := input;
    for n := 0 to |DROPPABLE|
      invariant result == DropFields(input, n) && Shrunk(input) == ShrunkFrom(input, n)
    {
      if DictSize(result) <= MAX_RESULT_BYTES { return; }
      var field := DROPPABLE[n];
      if Get(result, field).Some? {
        result := Put(result, field + "_dropped", TOO_LARGE);
        result := Del(result, field);
      }
    }
    if DictSize(result) > MAX_RESULT_BYTES {
      var keep := [];
      for n := 0 to |KEPT|
        invariant keep == Essentials(result, n)
      {
        if Get(result, KEPT[n]).Some? {
          keep := keep + [(KEPT[n], Get(result, KEPT[n]).value)];
        }
      }
      result := Put(keep, "error", TOO_LARGE);
    }
  }

  // ---- What every outcome keeps ------------------------------------------------------------

  predicate IsDropNote(k: string) {
    exists i :: 0 <= i < |DROPPABLE| && k == DROPPABLE[i] + "_dropped"
  }

  /** Dropping touches only payload fields and their notes. */
  lemma {:induction false} DropsNothingElse(d: Dict, n: nat, k: string)
    requires n <= |DROPPABLE| && k !in DROPPABLE && !IsDropNote(k)
    ensures Get(DropFields(d, n), k) == Get(d, k)
  {
    if n > 0 {
      DropsNothingElse(d, n - 1, k);
      var field := DROPPABLE[n - 1];
      GetPut(DropFields(d, n - 1), field + "_dropped", TOO_LARGE, k);
      GetDel(Put(DropFields(d, n - 1), field + "_dropped", TOO_LARGE), field, k);
    }
  }

  lemma NotesAre()
    ensures forall k :: IsDropNote(k) ==>
      k in ["patch_dropped", "suggestion_dropped", "metrics_dropped", "files_changed_dropped"]
  {
    assert DROPPABLE[0] + "_dropped" == "patch_dropped" && DROPPABLE[1] + "_dropped" == "suggestion_dropped";
    assert DROPPABLE[2] + "_dropped" == "metrics_dropped" && DROPPABLE[3] + "_dropped" == "files_changed_dropped";
  }

  /** The kept names are distinct, and none of them is a payload field, a note, or the error. */
  lemma KeptIsNeitherPayloadNorNote(i: nat)
    requires i < |KEPT|
    ensures KEPT[i] !in DROPPABLE && !IsDropNote(KEPT[i]) && KEPT[i] != "error"
    ensures forall j :: 0 <= j < |KEPT| && j != i ==> KEPT[j] != KEPT[i]
  {
    NotesAre();
    assert "landed_branch"[5] != "landing_error"[5];
  }

  lemma {:induction false} GetConcat(a: Dict, b: Dict, k: string)
    ensures Get(a + b, k) == if Get(a, k).Some? then Get(a, k) else Get(b, k)
  {
    if a == [] {
      assert a + b == b;
    } else {
      assert (a + b)[1..] == a[1..] + b;
      GetConcat(a[1..], b, k);
    }
  }

  lemma {:induction false} EssentialsHold(d: Dict, n: nat, i: nat)
    requires n <= |KEPT| && i < |KEPT|
    ensures Get(Essentials(d, n), KEPT[i]) == if i < n then Get(d, KEPT[i]) else None
  {
    if n > 0 {
      EssentialsHold(d, n - 1, i);
      KeptIsNeitherPayloadNorNote(i);
      var last := match Get(d, KEPT[n - 1]) case Some(v) => [(KEPT[n - 1], v)] case None => [];
      GetConcat(Essentials(d, n - 1), last, KEPT[i]);
    }
  }

  /** Exactly `m` drops are needed, counting from `n`. */
  ghost predicate FirstFit(d: Dict, n: nat, m: nat) {
    n <= m <= |DROPPABLE| && Fits(DropFields(d, m)) && forall j :: n <= j < m ==> !Fits(DropFields(d, j))
  }

  ghost predicate NoFit(d: Dict, n: nat) {
    forall j :: n <= j <= |DROPPABLE| ==> !Fits(DropFields(d, j))
  }

  /** What Shrunk is: the shortest run of drops that fits, or the essentials when even all drops are too large. */
  lemma {:induction false} ShrunkIsOneOf(d: Dict, n: nat)
    requires n <= |DROPPABLE|
    ensures NoFit(d, n) ==> ShrunkFrom(d, n) == Fallback(DropFields(d, |DROPPABLE|))
    ensures NoFit(d, n) || exists m :: FirstFit(d, n, m) && ShrunkFrom(d, n) == DropFields(d, m)
    decreases |DROPPABLE| - n
  {
    if Fits(DropFields(d, n)) {
      assert FirstFit(d, n, n);
    } else if n < |DROPPABLE| {
      ShrunkIsOneOf(d, n + 1);
      if !NoFit(d, n + 1) {
        var next := n + 1;
        var m :| FirstFit(d, next, m) && ShrunkFrom(d, next) == DropFields(d, m);
        assert FirstFit(d, n, m);
      }
    }
  }

  predicate IsPayloadField(i: nat, field: string, note: string) {
    || (i == 0 && field == "patch" && note == "patch_dropped")
    || (i == 1 && field == "suggestion" && note == "suggestion_dropped")
    || (i == 2 && field == "metrics" && note == "metrics_dropped")
    || (i == 3 && field == "files_changed" && note == "files_changed_dropped")
  }

  lemma PayloadFieldsAre(i: nat, field: string, note: string)
    requires IsPayloadField(i, field, note)
    ensures i < |DROPPABLE| && DROPPABLE[i] == field && field + "_dropped" == note
    ensures forall j :: 0 <= j < |DROPPABLE| ==> DROPPABLE[j] != note && DROPPABLE[j] + "_dropped" != field
    ensures forall j :: 0 <= j < |DROPPABLE| && j != i ==> DROPPABLE[j] != field && DROPPABLE[j] + "_dropped" != note
  {
    NotesAre();
    assert DROPPABLE[0] + "_dropped" == "patch_dropped" && DROPPABLE[1] + "_dropped" == "suggestion_dropped";
    assert DROPPABLE[2] + "_dropped" == "metrics_dropped" && DROPPABLE[3] + "_dropped" == "files_changed_dropped";
  }

  /** The first `n` drops take away the first `n` of patch, suggestion, metrics and files_changed, each with a note if
      it was there, and leave the others and their notes as they were. */
  lemma {:induction false} DropsAreNoted(d: Dict, n: nat, i: nat, field: string, note: string)
    requires n <= |DROPPABLE| && IsPayloadField(i, field, note)
    ensures Get(DropFields(d, n), field) == if i < n then None else Get(d, field)
    ensures Get(DropFields(d, n), note) ==
      if i < n && Get(d, field).Some? then Some(Str("payload_too_large")) else Get(d, note)
  {
    PayloadFieldsAre(i, field, note);
    if n > 0 {
      DropsAreNoted(d, n - 1, i, field, note);
      var before, dropped := DropFields(d, n - 1), DROPPABLE[n - 1];
      var noted := Put(before, dropped + "_dropped", TOO_LARGE);
      GetPut(before, dropped + "_dropped", TOO_LARGE, field);
      GetPut(before, dropped + "_dropped", TOO_LARGE, note);
      GetDel(noted, dropped, field);
      GetDel(noted, dropped, note);
    }
  }

  /** The essentials are the eleven routing and review fields, as they were, and the error. */
  lemma FallbackHolds(d: Dict, k: string)
    ensures Get(Fallback(d), k) ==
      if k == "error" then Some(Str("payload_too_large"))
      else if k in {"needs_review", "commit_sha", "node_commit_sha", "commits", "branch", "landed_branch",
                    "landed_repo", "landed_sha", "landing", "landing_error", "patch_saved"} then Get(d, k)
      else None
  {
    GetPut(Essentials(d, |KEPT|), "error", TOO_LARGE, k);
    if k in KEPT {
      var i :| 0 <= i < |KEPT| && KEPT[i] == k;
      EssentialsHold(d, |KEPT|, i);
    } else {
      EssentialsHaveOnlyKept(d, |KEPT|, k);
    }
  }

  /** In every outcome each routing and review field is as it was, present or absent. */
  lemma ShrinkKeepsEssentials(d: Dict, i: nat)
    requires i < |KEPT|
    ensures Get(Shrunk(d), KEPT[i]) == Get(d, KEPT[i])
  {
    ShrunkIsOneOf(d, 0);
    KeptIsNeitherPayloadNorNote(i);
    forall m | 0 <= m <= |DROPPABLE| ensures Get(DropFields(d, m), KEPT[i]) == Get(d, KEPT[i]) {
      DropsNothingElse(d, m, KEPT[i]);
    }
    var least := DropFields(d, |DROPPABLE|);
    EssentialsHold(least, |KEPT|, i);
    GetPut(Essentials(least, |KEPT|), "error", TOO_LARGE, KEPT[i]);
  }

  /** A result that fits is returned as it is. */
  lemma ShrinkLeavesWhatFits(d: Dict)
    ensures Fits(d) ==> Shrunk(d) == d
  {
    ShrunkIsOneOf(d, 0);
  }

  lemma {:induction false} SameEssentials(d: Dict, e: Dict, n: nat)
    requires n <= |KEPT| && forall i :: 0 <= i < |KEPT| ==> Get(d, KEPT[i]) == Get(e, KEPT[i])
    ensures Essentials(d, n) == Essentials(e, n)
  {
    if n > 0 { SameEssentials(d, e, n - 1); }
  }

  /** Dropping changes no essentials. */
  lemma DropsKeepEssentials(d: Dict)
    ensures Fallback(DropFields(d, |DROPPABLE|)) == Fallback(d)
  {
    forall i | 0 <= i < |KEPT| ensures Get(DropFields(d, |DROPPABLE|), KEPT[i]) == Get(d, KEPT[i]) {
      KeptIsNeitherPayloadNorNote(i);
      DropsNothingElse(d, |DROPPABLE|, KEPT[i]);
    }
    SameEssentials(DropFields(d, |DROPPABLE|), d, |KEPT|);
  }

  /** However large the result, the outcome fits or is exactly its essentials: it is no larger than the cap or they. */
  lemma ShrinkIsBounded(d: Dict)
    ensures !Fits(Shrunk(d)) ==> Shrunk(d) == Fallback(d)
    ensures DictSize(Shrunk(d)) <= if Fits(Fallback(d)) then MAX_RESULT_BYTES else DictSize(Fallback(d))
  {
    ShrunkIsOneOf(d, 0);
    DropsKeepEssentials(d);
  }

  lemma {:induction false} NothingToDrop(d: Dict, n: nat)
    requires n <= |DROPPABLE| && forall i :: 0 <= i < |DROPPABLE| ==> Get(d, DROPPABLE[i]).None?
    ensures DropFields(d, n) == d
  {
    if n > 0 { NothingToDrop(d, n - 1); }
  }

  lemma {:induction false} EssentialsHaveOnlyKept(d: Dict, n: nat, k: string)
    requires n <= |KEPT| && k !in KEPT
    ensures Get(Essentials(d, n), k).None?
  {
    if n > 0 {
      EssentialsHaveOnlyKept(d, n - 1, k);
      var last := match Get(d, KEPT[n - 1]) case Some(v) => [(KEPT[n - 1], v)] case None => [];
      GetConcat(Essentials(d, n - 1), last, k);
    }
  }

  lemma DroppableIsNotKept(i: nat)
    requires i < |DROPPABLE|
    ensures DROPPABLE[i] !in KEPT && DROPPABLE[i] != "error"
  {
    forall j | 0 <= j < |KEPT| ensures KEPT[j] != DROPPABLE[i] { KeptIsNeitherPayloadNorNote(j); }
  }

  /** The essentials of a dict have nothing to drop, and are their own essentials. */
  lemma FallbackIsFixed(d: Dict)
    ensures Fallback(Fallback(d)) == Fallback(d)
    ensures forall i :: 0 <= i < |DROPPABLE| ==> Get(Fallback(d), DROPPABLE[i]).None?
  {
    var all := Essentials(d, |KEPT|);
    forall i | 0 <= i < |KEPT| ensures Get(Fallback(d), KEPT[i]) == Get(d, KEPT[i]) {
      EssentialsHold(d, |KEPT|, i);
      KeptIsNeitherPayloadNorNote(i);
      GetPut(all, "error", TOO_LARGE, KEPT[i]);
    }
    SameEssentials(Fallback(d), d, |KEPT|);
    forall i | 0 <= i < |DROPPABLE| ensures Get(Fallback(d), DROPPABLE[i]).None? {
      DroppableIsNotKept(i);
      EssentialsHaveOnlyKept(d, |KEPT|, DROPPABLE[i]);
      GetPut(all, "error", TOO_LARGE, DROPPABLE[i]);
    }
  }

  /** Shrinking what was shrunk changes nothing, whether it fits or not. */
  lemma ShrinkIsIdempotent(d: Dict)
    ensures Shrunk(Shrunk(d)) == Shrunk(d)
  {
    var e := Shrunk(d);
    ShrinkIsBounded(d);
    if Fits(e) {
      ShrinkLeavesWhatFits(e);
    } else {
      FallbackIsFixed(d);
      forall n | 0 <= n <= |DROPPABLE| ensures !Fits(DropFields(e, n)) { NothingToDrop(e, n); }
      ShrunkIsOneOf(e, 0);
      NothingToDrop(e, |DROPPABLE|);
    }
  }

  /** The outcome is within the cap exactly when some run of drops is, or the essentials are. */
  lemma ShrinkFits(d: Dict)
    ensures Fits(Shrunk(d)) <==>
      || Fits(d)
      || (exists m :: 1 <= m <= |DROPPABLE| && Fits(DropFields(d, m)))
      || Fits(Fallback(DropFields(d, |DROPPABLE|)))
  {
    ShrunkIsOneOf(d, 0);
  }

  lemma {:induction false} TextIsAtLeastItsLength(s: string)
    ensures |s| <= TextSize(s)
  {
    if s != "" { TextIsAtLeastItsLength(s[1..]); }
  }

  /** A field the node chose freely can keep it above the cap: a branch name as long as the cap survives every drop. */
  lemma LongBranchExceedsTheCap(d: Dict, name: string)
    requires Get(d, "branch") == Some(Str(name)) && |name| >= MAX_RESULT_BYTES
    ensures !Fits(Shrunk(d))
  {
    assert KEPT[4] == "branch";
    ShrinkKeepsEssentials(d, 4);
    HoldingIsLarge(Shrunk(d), "branch", Str(name));
    TextIsAtLeastItsLength(name);
  }

  /** A dict is larger than any value it holds. */
  lemma HoldingIsLarge(d: Dict, k: string, v: Json)
    requires Get(d, k) == Some(v)
    ensures DictSize(d) > Size(v)
  {
    HoldingIsLargeIn(Object(d), d, k, v);
  }

  lemma {:induction false} HoldingIsLargeIn(whole: Json, fields: Dict, k: string, v: Json)
    requires Get(fields, k) == Some(v) && forall i :: 0 <= i < |fields| ==> fields[i].1 < whole
    ensures FieldsSize(whole, fields) > Size(v)
    decreases |fields|
  {
    if fields[0].0 != k { HoldingIsLargeIn(whole, fields[1..], k, v); }
  }

  // ---- Comparing sizes -----------------------------------------------------------------

  /** The same keys in the same order, with values no larger. */
  ghost predicate NoLarger(d: Dict, e: Dict) {
    |d| == |e| && forall i :: 0 <= i < |d| ==> d[i].0 == e[i].0 && Size(d[i].1) <= Size(e[i].1)
  }

  lemma {:induction false} FieldsNoLarger(v: Json, w: Json, d: Dict, e: Dict)
    requires NoLarger(d, e)
    requires forall i :: 0 <= i < |d| ==> d[i].1 < v
    requires forall i :: 0 <= i < |e| ==> e[i].1 < w
    ensures FieldsSize(v, d) <= FieldsSize(w, e)
    decreases |d|
  {
    if d != [] {
      assert NoLarger(d[1..], e[1..]);
      FieldsNoLarger(v, w, d[1..], e[1..]);
    }
  }

  lemma NoLargerFits(d: Dict, e: Dict)
    requires NoLarger(d, e)
    ensures DictSize(d) <= DictSize(e)
  {
    FieldsNoLarger(Object(d), Object(e), d, e);
  }

  lemma {:induction false} PutNoLarger(d: Dict, e: Dict, key: string, v: Json, w: Json)
    requires NoLarger(d, e) && Size(v) <= Size(w)
    ensures NoLarger(Put(d, key, v), Put(e, key, w))
  {
    if d != [] && d[0].0 != key {
      assert NoLarger(d[1..], e[1..]);
      PutNoLarger(d[1..], e[1..], key, v, w);
    }
  }
}
