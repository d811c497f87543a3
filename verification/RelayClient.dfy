/**
 * The relay client over one bucket: claims, renewals, terminal objects, purge,
 * the three backends' listings and the rotating scan.  Each method runs here
 * without interference; LeaseProtocol interleaves their single store calls.
 */
module RelayClient {
  import opened Options
  import opened ObjectStore
  import opened Scan

  const PENDING := "pending/"
  const CLAIMED := "claimed/"
  const CLAIMANT := "claimant/"
  const TERMINAL := "terminal/"
  const ACTIVE := "status/active/"
  const SUFFIX := ".json.enc"

  /** The `claimed_at` of a marker, as `float` finds it. */
  datatype ClaimedAt = Absent | Number(value: real) | NotANumber

  /** A body as the JSON parser sees it, or a sealed blob. */
  datatype Body =
    | MarkerText(owner: Option<string>, claimedAt: ClaimedAt)
    | NotAnObject
    | Unparseable
    | Blob(bytes: seq<bv8>)

  /** What a call answers, or that it raises. */
  datatype Answer = Yes | No | Raises

  function MarkerOf(owner: string, now: real): Body {
    MarkerText(Some(owner), Number(now))
  }

  /** When an existing marker says it was claimed; None if looking it up raises. */
  function ClaimTime(b: Body): Option<real> {
    match b
    case MarkerText(_, Number(t)) => Some(t)
    case NotAnObject => None
    case _ => Some(0.0)
  }

  function BodyIn(slot: Slot<Body>): Option<Body> {
    if slot.None? then None else Some(slot.value.body)
  }

  /** What an uninterrupted claim answers to the marker it finds. */
  function ClaimAnswer(was: Option<Body>, lease: real, now: real): Answer {
    if was.None? then Yes
    else if ClaimTime(was.value).None? then Raises
    else if now - ClaimTime(was.value).value < lease then No
    else Yes
  }

  /** What an uninterrupted renewal answers to the marker it finds. */
  function RenewAnswer(was: Option<Body>, owner: string): Answer {
    if was.Some? && was.value.NotAnObject? then Raises
    else if was.Some? && was.value.MarkerText? && was.value.owner == Some(owner) then Yes
    else No
  }

  class Bucket {
    const scheme: Scheme
    var objs: map<string, Obj<Body>>
    var writes: nat

    ghost predicate Valid()
      reads this
    {
      forall k :: k in objs ==> Stamped(scheme, objs[k], writes)
    }

    function SlotAt(key: string): Slot<Body>
      reads this
    {
      if key in objs then Some(objs[key]) else None
    }

    constructor (scheme: Scheme)
      ensures Valid() && objs == map[] && this.scheme == scheme
    {
      this.scheme := scheme;
      objs := map[];
      writes := 0;
    }

    method CreateOnly(key: string, body: Body) returns (ok: bool)
      requires Valid()
      modifies this
      ensures Valid() && writes >= old(writes)
      ensures (SlotAt(key), ok) == ObjectStore.CreateOnly(old(SlotAt(key)), scheme, body, old(writes))
      ensures forall k :: k != key ==> SlotAt(k) == old(SlotAt(k))
    {
      ok := key !in objs;
      if ok {
        objs := objs[key := Obj(body, Stamp(scheme, body, writes))];
        writes := writes + 1;
      }
    }

    method CasWrite(key: string, body: Body, version: Version<Body>) returns (ok: bool)
      requires Valid()
      modifies this
      ensures Valid() && writes >= old(writes)
      ensures (SlotAt(key), ok) == ObjectStore.CasWrite(old(SlotAt(key)), scheme, body, old(writes), version)
      ensures forall k :: k != key ==> SlotAt(k) == old(SlotAt(k))
    {
      ok := key in objs && objs[key].version == version;
      if ok {
        objs := objs[key := Obj(body, Stamp(scheme, body, writes))];
        writes := writes + 1;
      }
    }

    method Put(key: string, body: Body)
      requires Valid()
      modifies this
      ensures Valid() && SlotAt(key) == Some(Obj(body, Stamp(scheme, body, old(writes))))
      ensures forall k :: k != key ==> SlotAt(k) == old(SlotAt(k))
    {
      objs := objs[key := Obj(body, Stamp(scheme, body, writes))];
      writes := writes + 1;
    }

    method Delete(key: string)
      requires Valid()
      modifies this
      ensures Valid() && objs == old(objs) - {key}
    {
      objs := objs - {key};
    }
  }

  // ---- Names --------------------------------------------------------------------

  function JobKeys(uuid: string): seq<string> {
    [PENDING + uuid + SUFFIX, CLAIMANT + uuid + SUFFIX, CLAIMED + uuid,
     TERMINAL + uuid + SUFFIX, ACTIVE + uuid + SUFFIX]
  }

  lemma SameTail(a: string, x: string, y: string, b: string)
    requires a + x + b == a + y + b
    ensures x == y
  {
    assert |a + x + b| == |a + y + b|;
    assert x == (a + x + b)[|a|..|a| + |x|];
    assert y == (a + y + b)[|a|..|a| + |y|];
  }

  /** Two jobs share no object, whatever their ids. */
  lemma JobsShareNoKey(u: string, v: string, i: nat, j: nat)
    requires u != v && i < 5 && j < 5
    ensures JobKeys(u)[i] != JobKeys(v)[j]
  {
    var a, b := JobKeys(u)[i], JobKeys(v)[j];
    if i == j {
      if a == b {
        var prefix := [PENDING, CLAIMANT, CLAIMED, TERMINAL, ACTIVE][i];
        var suffix := if i == 2 then "" else SUFFIX;
        assert a == prefix + u + suffix && b == prefix + v + suffix;
        SameTail(prefix, u, v, suffix);
      }
    } else {
      // The prefixes differ among their first six characters.
      assert JobKeys(u)[0][..6] == "pendin" && JobKeys(u)[1][..6] == "claima" && JobKeys(u)[2][..6] == "claime";
      assert JobKeys(u)[3][..6] == "termin" && JobKeys(u)[4][..6] == "status";
      assert JobKeys(v)[0][..6] == "pendin" && JobKeys(v)[1][..6] == "claima" && JobKeys(v)[2][..6] == "claime";
      assert JobKeys(v)[3][..6] == "termin" && JobKeys(v)[4][..6] == "status";
      assert "claima"[5] != "claime"[5];
    }
  }

  // ---- Listings -------------------------------------------------------------------

  /** The reference listing: the keys after `start`. */
  function IterKeys(listing: seq<string>, start: Option<string>): seq<string> {
    if listing == [] then []
    else (if start.None? || Less(start.value, listing[0]) then [listing[0]] else []) + IterKeys(listing[1..], start)
  }

  lemma {:induction false} IterKeysIsSuffix(listing: seq<string>, start: Option<string>)
    requires Ascending(listing)
    ensures IterKeys(listing, start) == listing[Position(listing, start)..]
  {
    if listing != [] {
      var p := Position(listing, start);
      IterKeysIsSuffix(listing[1..], start);
      if start.None? || Less(start.value, listing[0]) {
        if start.Some? && |listing| > 1 { LessTransitive(start.value, listing[0], listing[1]); }
        assert p == Position(listing[1..], start) == 0 && listing == [listing[0]] + listing[1..];
      } else {
        assert listing[p..] == listing[1..][p - 1..];
      }
    }
  }

  /** What GCS lists from an inclusive start offset. */
  function FromOffset(listing: seq<string>, start: Option<string>): seq<string> {
    if listing == [] then []
    else (if start.None? || !Less(listing[0], start.value) then [listing[0]] else []) + FromOffset(listing[1..], start)
  }

  /** The GCS backend drops the start key again, and so agrees with the reference. */
  lemma {:induction false} GcsAgrees(listing: seq<string>, start: Option<string>)
    ensures IterKeys(FromOffset(listing, start), start) == IterKeys(listing, start)
  {
    if listing != [] {
      GcsAgrees(listing[1..], start);
      var head, rest := listing[0], FromOffset(listing[1..], start);
      if start.None? || !Less(head, start.value) {
        assert FromOffset(listing, start) == [head] + rest;
        assert ([head] + rest)[1..] == rest;
      } else {
        assert FromOffset(listing, start) == rest;
        if Less(start.value, head) {
          LessTransitive(start.value, head, start.value);
          LessIrreflexive(start.value);
        }
      }
    }
  }

  /** After the last key of a page the listing goes on with what the page left. */
  lemma PageGoesOn(listing: seq<string>, at: Option<string>, k: nat)
    requires Ascending(listing) && 1 <= k <= |IterKeys(listing, at)|
    ensures IterKeys(listing, Some(IterKeys(listing, at)[k - 1])) == IterKeys(listing, at)[k..]
  {
    var q := Position(listing, at);
    IterKeysIsSuffix(listing, at);
    PositionOfKey(listing, q + k - 1);
    IterKeysIsSuffix(listing, Some(listing[q + k - 1]));
  }

  lemma Continues(out: seq<string>, rest: seq<string>, k: nat)
    requires k <= |rest|
    ensures (out + rest[..k]) + rest[k..] == out + rest
  {
  }

  /** The S3 backend asks for pages, each after the last key of the one before, until one is not truncated. */
  method S3IterKeys(listing: seq<string>, start: Option<string>, pageSize: nat) returns (out: seq<string>)
    requires Ascending(listing) && pageSize >= 1
    ensures out == IterKeys(listing, start)
  {
    out := [];
    var at, truncated := start, true;
    ghost var left := IterKeys(listing, start);
    while truncated
      invariant truncated ==> left == IterKeys(listing, at)
      invariant out + left == IterKeys(listing, start) && (!truncated ==> left == [])
      decreases truncated, |left|
    {
      var rest := IterKeys(listing, at);
      var k := Min(pageSize, |rest|);
      truncated := k < |rest|;
      if k > 0 {
        PageGoesOn(listing, at, k);
        Continues(out, rest, k);
        out := out + rest[..k];
        at := Some(rest[k - 1]);
        left := rest[k..];
      }
    }
  }

  predicate EndsWith(key: string, suffix: string) {
    |suffix| <= |key| && key[|key| - |suffix|..] == suffix
  }

  /** The uuid in a key: what is left between prefix and suffix. */
  function UuidOf(prefix: string, key: string): string {
    if |prefix| + |SUFFIX| <= |key| then key[|prefix|..|key| - |SUFFIX|] else ""
  }

  lemma UuidRoundTrip(prefix: string, uuid: string)
    ensures EndsWith(prefix + uuid + SUFFIX, SUFFIX) && UuidOf(prefix, prefix + uuid + SUFFIX) == uuid
  {
    var key := prefix + uuid + SUFFIX;
    assert key[|key| - |SUFFIX|..] == SUFFIX;
    assert key[|prefix|..|key| - |SUFFIX|] == uuid;
  }

  function Uuids(prefix: string, keys: seq<string>): (u: seq<string>)
    ensures |u| == |keys| && forall k :: 0 <= k < |keys| ==> u[k] == UuidOf(prefix, keys[k])
  {
    if keys == [] then [] else [UuidOf(prefix, keys[0])] + Uuids(prefix, keys[1..])
  }

  /** The listing without keys that are not sealed objects. */
  function SealedOnly(keys: seq<string>): (s: seq<string>)
    ensures |s| <= |keys|
  {
    if keys == [] then [] else (if EndsWith(keys[0], SUFFIX) then [keys[0]] else []) + SealedOnly(keys[1..])
  }

  lemma {:induction false} SealedConcat(a: seq<string>, b: seq<string>)
    ensures SealedOnly(a + b) == SealedOnly(a) + SealedOnly(b)
  {
    if a == [] {
      assert a + b == b;
    } else {
      assert (a + b)[1..] == a[1..] + b;
      var head := if EndsWith(a[0], SUFFIX) then [a[0]] else [];
      SealedConcat(a[1..], b);
      assert head + (SealedOnly(a[1..]) + SealedOnly(b)) == (head + SealedOnly(a[1..])) + SealedOnly(b);
    }
  }

  lemma {:induction false} SealedMembers(keys: seq<string>)
    ensures forall k :: k in SealedOnly(keys) ==> k in keys
  {
    if keys != [] { SealedMembers(keys[1..]); }
  }

  /** The sealed objects are those whose names end so. */
  lemma {:induction false} SealedAre(keys: seq<string>)
    ensures forall k :: k in SealedOnly(keys) <==> k in keys && exists stem :: k == stem + ".json.enc"
  {
    if keys != [] {
      SealedAre(keys[1..]);
      EndsWithMeans(keys[0], SUFFIX);
    }
  }

  lemma EndsWithMeans(key: string, suffix: string)
    ensures EndsWith(key, suffix) <==> exists stem :: key == stem + suffix
  {
    if EndsWith(key, suffix) { assert key == key[..|key| - |suffix|] + suffix; }
  }

  /** Dropping the other keys and cutting at a cursor commute. */
  lemma {:induction false} SealedPosition(keys: seq<string>, cursor: Option<string>)
    requires Ascending(keys)
    ensures Position(SealedOnly(keys), cursor) == |SealedOnly(keys[..Position(keys, cursor)])|
  {
    if keys != [] && cursor.Some? {
      var p := Position(keys, cursor);
      if Less(cursor.value, keys[0]) {
        PositionSplits(keys, cursor.value);
        SealedMembers(keys);
        if SealedOnly(keys) != [] { assert SealedOnly(keys)[0] in keys; }
      } else {
        SealedPosition(keys[1..], cursor);
        assert keys[..p][1..] == keys[1..][..p - 1];
        if !EndsWith(keys[0], SUFFIX) {
          assert SealedOnly(keys) == SealedOnly(keys[1..]);
        } else {
          assert SealedOnly(keys)[1..] == SealedOnly(keys[1..]);
        }
      }
    }
  }

  lemma RotationOfSealed(keys: seq<string>, cursor: Option<string>)
    requires Ascending(keys)
    ensures Rotated(SealedOnly(keys), cursor) == SealedOnly(Rotated(keys, cursor))
  {
    var p := Position(keys, cursor);
    SealedPosition(keys, cursor);
    SealedConcat(keys[p..], keys[..p]);
    SealedConcat(keys[..p], keys[p..]);
    assert keys == keys[..p] + keys[p..];
  }

  /** The bound on a sweep; without one, more than there are keys. */
  function Bound(maxItems: Option<int>, n: nat): nat {
    if maxItems.None? then n + 1 else if maxItems.value <= 0 then 0 else maxItems.value
  }

  /** The part of a listing that a range with this stop reads. */
  function Before(keys: seq<string>, stopAt: Option<string>): seq<string> {
    if stopAt.None? then keys else keys[..Position(keys, stopAt)]
  }

  /** The part is read from the front up to the first key past the stop. */
  lemma BeforeAt(keys: seq<string>, stopAt: Option<string>, i: nat)
    requires Ascending(keys) && i < |keys|
    ensures i < |Before(keys, stopAt)| <==> !(stopAt.Some? && Less(stopAt.value, keys[i]))
    ensures i < |Before(keys, stopAt)| ==> Before(keys, stopAt)[i] == keys[i]
  {
    if stopAt.Some? { PositionSplits(keys, stopAt.value); }
  }

  lemma SealedSnoc(keys: seq<string>, i: nat)
    requires i < |keys|
    ensures SealedOnly(keys[..i + 1]) == SealedOnly(keys[..i]) + if EndsWith(keys[i], SUFFIX) then [keys[i]] else []
  {
    assert keys[..i + 1] == keys[..i] + [keys[i]];
    SealedConcat(keys[..i], [keys[i]]);
  }

  /** The first `n` of two parts: of the first part, or all of it and some of the second. */
  lemma TakeOfConcat<T>(a: seq<T>, b: seq<T>, n: nat)
    ensures n <= |a| ==> (a + b)[..n] == a[..n]
    ensures |a| <= n ==> (a + b)[..Min(n, |a + b|)] == a + b[..Min(n - |a|, |b|)]
  {
  }

  lemma SealedPrefix(keys: seq<string>, i: nat)
    requires i <= |keys|
    ensures SealedOnly(keys[..i]) <= SealedOnly(keys)
    ensures i == |keys| ==> SealedOnly(keys[..i]) == SealedOnly(keys)
  {
    assert keys == keys[..i] + keys[i..];
    SealedConcat(keys[..i], keys[i..]);
  }

  /** What a sweep hands out up to `limit`, if the first range streams `first` and the second `second`. */
  function Handed(first: seq<string>, second: seq<string>, cursor: Option<string>, limit: nat): seq<string> {
    var h := SealedOnly(first);
    var t := if cursor.None? then [] else SealedOnly(Before(second, cursor));
    if limit <= |h| then h[..limit] else h + t[..Min(limit - |h|, |t|)]
  }

  /** At most `n` from the front; none if `n` is not positive. */
  function FirstFew(keys: seq<string>, n: int): seq<string> {
    if n <= 0 then [] else if n < |keys| then keys[..n] else keys
  }

  lemma FewOfConcat(a: seq<string>, b: seq<string>, n: nat)
    ensures FirstFew(a + b, n) == if n <= |a| then a[..n] else a + b[..Min(n - |a|, |b|)]
  {
    TakeOfConcat(a, b, n);
  }

  lemma FewOfFew(all: seq<string>, maxItems: Option<int>, take: nat, n: nat)
    requires |all| <= n
    ensures FirstFew(all, Min(Bound(maxItems, n), take))
      == if maxItems.None? then FirstFew(all, take) else FirstFew(FirstFew(all, take), maxItems.value)
  {
  }

  /** The sealed keys of both ranges. */
  function BothSealed(first: seq<string>, second: seq<string>, cursor: Option<string>): (all: seq<string>)
    ensures |all| <= |first| + |second|
  {
    SealedOnly(first) + if cursor.None? then [] else SealedOnly(Before(second, cursor))
  }

  lemma HandedAreFew(first: seq<string>, second: seq<string>, cursor: Option<string>, limit: nat)
    ensures Handed(first, second, cursor, limit) == FirstFew(BothSealed(first, second, cursor), limit)
  {
    FewOfConcat(SealedOnly(first), if cursor.None? then [] else SealedOnly(Before(second, cursor)), limit);
  }

  /** So that is as many sealed keys of the two ranges as the bound and the consumer allow. */
  lemma HandedAreFirst(first: seq<string>, second: seq<string>, cursor: Option<string>, maxItems: Option<int>,
        take: nat)
    ensures
      var asked := FirstFew(BothSealed(first, second, cursor), take);
      Handed(first, second, cursor, Min(Bound(maxItems, |first| + |second|), take))
        == if maxItems.None? then asked else FirstFew(asked, maxItems.value)
  {
    HandedAreFew(first, second, cursor, Min(Bound(maxItems, |first| + |second|), take));
    FewOfFew(BothSealed(first, second, cursor), maxItems, take, |first| + |second|);
  }

  /** If both stream the same listing, that is a stretch of the rotated sealed listing. */
  lemma HandedIsYielded(listing: seq<string>, cursor: Option<string>, bound: nat, take: nat)
    requires Ascending(listing)
    ensures
      Handed(IterKeys(listing, cursor), listing, cursor, Min(bound, take)) ==
        Yielded(SealedOnly(listing), cursor, bound, take)
  {
    var p, limit := Position(listing, cursor), Min(bound, take);
    IterKeysIsSuffix(listing, cursor);
    RotationOfSealed(listing, cursor);
    SealedConcat(listing[p..], listing[..p]);
    TakeOfConcat(SealedOnly(listing[p..]), SealedOnly(listing[..p]), limit);
  }

  /** The first `n` pages of a range, each read from the listing of its own time, after the last key of the one
      before. */
  function Streamed(listings: nat -> seq<string>, start: Option<string>, size: nat, t: nat, n: nat): seq<string>
    decreases n
  {
    var rest := IterKeys(listings(t), start);
    if n == 0 || rest == [] || size == 0 then []
    else
      var k := Min(size, |rest|);
      rest[..k] + Streamed(listings, Some(rest[k - 1]), size, t + 1, n - 1)
  }

  lemma OnePageMore(listings: nat -> seq<string>, start: Option<string>, size: nat, t: nat, n: nat, rest: seq<string>,
        k: nat)
    requires rest == IterKeys(listings(t), start) && n > 0 && rest != [] && size > 0 && k == Min(size, |rest|)
    ensures Streamed(listings, start, size, t, n)
      == rest[..k] + Streamed(listings, Some(rest[k - 1]), size, t + 1, n - 1)
  {
  }

  /** While the listing stays as it is, enough pages stream all of it from the start on. */
  lemma {:induction false} StreamOfOneListing(listings: nat -> seq<string>, listing: seq<string>, start: Option<string>,
        size: nat, t: nat, n: nat)
    requires forall m :: listings(m) == listing
    requires Ascending(listing) && size >= 1 && n >= |IterKeys(listing, start)|
    ensures Streamed(listings, start, size, t, n) == IterKeys(listing, start)
    decreases n
  {
    var rest := IterKeys(listing, start);
    if n > 0 && rest != [] {
      var k := Min(size, |rest|);
      OnePageMore(listings, start, size, t, n, rest, k);
      PageGoesOn(listing, start, k);
      StreamOfOneListing(listings, listing, Some(rest[k - 1]), size, t + 1, n - 1);
    }
  }

  ghost predicate GoesAfter(keys: seq<string>, start: Option<string>) {
    Ascending(keys) && (start.Some? ==> forall i :: 0 <= i < |keys| ==> Less(start.value, keys[i]))
  }

  lemma RestIsAfter(listing: seq<string>, start: Option<string>)
    requires Ascending(listing)
    ensures GoesAfter(IterKeys(listing, start), start)
  {
    IterKeysIsSuffix(listing, start);
    if start.Some? { PositionSplits(listing, start.value); }
  }

  /** A page, and then keys after its last one. */
  lemma PageThenMore(rest: seq<string>, k: nat, more: seq<string>, start: Option<string>)
    requires 1 <= k <= |rest| && GoesAfter(rest, start) && GoesAfter(more, Some(rest[k - 1]))
    ensures GoesAfter(rest[..k] + more, start)
  {
    forall j | 0 <= j < |more| ensures forall i :: 0 <= i < k ==> Less(rest[i], more[j]) {
      forall i | 0 <= i < k ensures Less(rest[i], more[j]) {
        if i < k - 1 { LessTransitive(rest[i], rest[k - 1], more[j]); }
      }
    }
    if start.Some? {
      forall j | 0 <= j < |more| ensures Less(start.value, more[j]) {
        LessTransitive(start.value, rest[k - 1], more[j]);
      }
    }
  }

  /** However the store changes between the pages, a range streams ascending keys after its start. */
  lemma {:induction false} StreamAscends(listings: nat -> seq<string>, start: Option<string>, size: nat, t: nat, n: nat)
    requires forall m :: Ascending(listings(m))
    ensures GoesAfter(Streamed(listings, start, size, t, n), start)
    decreases n
  {
    var rest := IterKeys(listings(t), start);
    if n > 0 && rest != [] && size > 0 {
      var k := Min(size, |rest|);
      StreamAscends(listings, Some(rest[k - 1]), size, t + 1, n - 1);
      RestIsAfter(listings(t), start);
      PageThenMore(rest, k, Streamed(listings, Some(rest[k - 1]), size, t + 1, n - 1), start);
    }
  }

  /** The cursors after a scan has handed out these keys. */
  function CursorsWith(cursors: map<string, string>, prefix: string, rotate: bool, yielded: seq<string>)
        : map<string, string>
  {
    if rotate && yielded != [] then cursors[prefix := yielded[|yielded| - 1]] else cursors
  }

  lemma CursorsWithBoth(cursors: map<string, string>, prefix: string, rotate: bool, a: seq<string>, b: seq<string>)
    ensures CursorsWith(CursorsWith(cursors, prefix, rotate, a), prefix, rotate, b)
      == CursorsWith(cursors, prefix, rotate, a + b)
  {
    if b == [] { assert a + b == a; }
  }

  lemma TakenPrefix(all: seq<string>, found: seq<string>, n: nat)
    requires found <= all && |found| <= n && (found == all || |found| == n)
    ensures found == all[..Min(n, |all|)]
  {
  }

  /** A range is left either at its end or when the bound is reached. */
  lemma RangeEnds(range: seq<string>, i: nat, found: seq<string>, n: nat, stopped: bool)
    requires i <= |range| && found == SealedOnly(range[..i])
    requires if stopped then |found| == n else i == |range| && |found| < n
    ensures found == SealedOnly(range)[..Min(n, |SealedOnly(range)|)] && stopped == (|SealedOnly(range)| >= n)
  {
    SealedPrefix(range, i);
    TakenPrefix(SealedOnly(range), found, n);
  }

  // ---- The client ------------------------------------------------------------------

  class Client {
    const bucket: Bucket
    var cursors: map<string, string>

    constructor (bucket: Bucket)
      ensures this.bucket == bucket && cursors == map[]
    {
      this.bucket := bucket;
      cursors := map[];
    }

    /** Without interference a claim is refused only by a live marker, and a marker that is not JSON, or
        carries no usable time, counts as expired.  The CAS never fails. */
    method Claim(uuid: string, owner: string, lease: real, now: real) returns (r: Answer)
      requires bucket.Valid()
      modifies bucket
      ensures bucket.Valid()
      ensures r == ClaimAnswer(BodyIn(old(bucket.SlotAt(CLAIMED + uuid))), lease, now)
      ensures
        match BodyIn(old(bucket.SlotAt(CLAIMED + uuid)))
        case None => r.Yes?
        case Some(NotAnObject) => r.Raises?
        case Some(MarkerText(_, Number(at))) => r == if now - at < lease then No else Yes
        case Some(_) => r == if now < lease then No else Yes
      ensures r.Yes? ==> BodyIn(bucket.SlotAt(CLAIMED + uuid)) == Some(MarkerOf(owner, now))
      ensures !r.Yes? ==> bucket.SlotAt(CLAIMED + uuid) == old(bucket.SlotAt(CLAIMED + uuid))
      ensures forall k :: k != CLAIMED + uuid ==> bucket.SlotAt(k) == old(bucket.SlotAt(k))
    {
      var key, body := CLAIMED + uuid, MarkerOf(owner, now);
      var created := bucket.CreateOnly(key, body);
      if created { return Yes; }
      var existing := bucket.SlotAt(key);
      if existing.None? { return No; }
      var claimedAt := ClaimTime(existing.value.body);
      if claimedAt.None? { return Raises; }
      if now - claimedAt.value < lease { return No; }
      var taken := bucket.CasWrite(key, body, existing.value.version);
      return if taken then Yes else No;
    }

    /** Only a marker that carries the owner's name is renewed; a missing one is not recreated. */
    method RenewClaim(uuid: string, owner: string, now: real) returns (r: Answer)
      requires bucket.Valid()
      modifies bucket
      ensures bucket.Valid()
      ensures r == RenewAnswer(BodyIn(old(bucket.SlotAt(CLAIMED + uuid))), owner)
      ensures
        match BodyIn(old(bucket.SlotAt(CLAIMED + uuid)))
        case Some(NotAnObject) => r.Raises?
        case Some(MarkerText(Some(name), _)) => r == if name == owner then Yes else No
        case _ => r.No?
      ensures r.Yes? ==> BodyIn(bucket.SlotAt(CLAIMED + uuid)) == Some(MarkerOf(owner, now))
      ensures !r.Yes? ==> bucket.SlotAt(CLAIMED + uuid) == old(bucket.SlotAt(CLAIMED + uuid))
      ensures forall k :: k != CLAIMED + uuid ==> bucket.SlotAt(k) == old(bucket.SlotAt(k))
    {
      var existing := bucket.SlotAt(CLAIMED + uuid);
      if existing.None? { return No; }
      match existing.value.body {
        case MarkerText(o, _) =>
          if o != Some(owner) { return No; }
        case NotAnObject => return Raises;
        case Unparseable => return No;
        case Blob(_) => return No;
      }
      var renewed := bucket.CasWrite(CLAIMED + uuid, MarkerOf(owner, now), existing.value.version);
      return if renewed then Yes else No;
    }

    /** The first terminal object wins; a later one changes nothing. */
    method PutTerminal(uuid: string, sealed: Body) returns (ok: bool)
      requires bucket.Valid()
      modifies bucket
      ensures bucket.Valid()
      ensures ok <==> old(bucket.SlotAt(TERMINAL + uuid + SUFFIX)).None?
      ensures bucket.SlotAt(TERMINAL + uuid + SUFFIX).Some?
      ensures bucket.SlotAt(TERMINAL + uuid + SUFFIX).value.body ==
              if ok then sealed else old(bucket.SlotAt(TERMINAL + uuid + SUFFIX)).value.body
      ensures forall k :: k != TERMINAL + uuid + SUFFIX ==> bucket.SlotAt(k) == old(bucket.SlotAt(k))
    {
      ok := bucket.CreateOnly(TERMINAL + uuid + SUFFIX, sealed);
    }

    /** Five deletes, one at a time; nothing of another job goes with them. */
    method Purge(uuid: string)
      requires bucket.Valid()
      modifies bucket
      ensures bucket.Valid()
      ensures bucket.objs == old(bucket.objs) - (set i | 0 <= i < 5 :: JobKeys(uuid)[i])
      ensures forall v, j :: v != uuid && 0 <= j < 5 ==>
        bucket.SlotAt(JobKeys(v)[j]) == old(bucket.SlotAt(JobKeys(v)[j]))
    {
      var names := JobKeys(uuid);
      for n := 0 to 5
        invariant bucket.Valid() && bucket.objs == old(bucket.objs) - (set i | 0 <= i < n :: names[i])
      {
        bucket.Delete(names[n]);
      }
      forall v, j | v != uuid && 0 <= j < 5
        ensures bucket.SlotAt(JobKeys(v)[j]) == old(bucket.SlotAt(JobKeys(v)[j]))
      {
        forall i | 0 <= i < 5 ensures JobKeys(uuid)[i] != JobKeys(v)[j] { JobsShareNoKey(uuid, v, i, j); }
      }
    }

    /** One range of the scan, after `already` was handed out; `stopped` when the bound or the consumer ended it. */
    method ScanRange(prefix: string, keys: seq<string>, stopAt: Option<string>, rotate: bool, limit: nat,
          already: seq<string>)
        returns (found: seq<string>, stopped: bool)
      requires Ascending(keys) && |already| < limit
      modifies this`cursors
      ensures
        var all := SealedOnly(Before(keys, stopAt));
        && stopped == (|already| + |all| >= limit)
        && found == all[..Min(limit - |already|, |all|)]
        && cursors == CursorsWith(old(cursors), prefix, rotate, found)
    {
      ghost var range := Before(keys, stopAt);
      assert |range| <= |keys|;
      found, stopped := [], false;
      var i := 0;
      while i < |keys| && !stopped
        invariant i <= |range| <= |keys| && found == SealedOnly(range[..i])
        invariant if stopped then |already| + |found| == limit else |already| + |found| < limit
        invariant cursors == CursorsWith(old(cursors), prefix, rotate, found)
      {
        BeforeAt(keys, stopAt, i);
        if stopAt.Some? && Less(stopAt.value, keys[i]) { break; }
        SealedSnoc(range, i);
        if EndsWith(keys[i], SUFFIX) {
          CursorsWithBoth(old(cursors), prefix, rotate, found, [keys[i]]);
          if rotate { cursors := cursors[prefix := keys[i]]; }
          found := found + [keys[i]];
          stopped := |already| + |found| >= limit;
        }
        i := i + 1;
      }
      RangeEnds(range, i, found, limit - |already|, stopped);
    }

    /** The two ranges of a sweep: what streams after the cursor, then what streams up to it. */
    method ScanRanges(prefix: string, first: seq<string>, second: seq<string>, cursor: Option<string>, rotate: bool,
          limit: nat)
        returns (yielded: seq<string>)
      requires Ascending(first) && Ascending(second) && limit > 0
      modifies this`cursors
      ensures yielded == Handed(first, second, cursor, limit)
      ensures cursors == CursorsWith(old(cursors), prefix, rotate, yielded)
    {
      var stopped;
      yielded, stopped := ScanRange(prefix, first, None, rotate, limit, []);
      if cursor.Some? && !stopped {
        var more, over := ScanRange(prefix, second, cursor, rotate, limit, yielded);
        CursorsWithBoth(old(cursors), prefix, rotate, yielded, more);
        yielded := yielded + more;
      }
    }

    /** Stream the sealed objects' names.  The consumer asks for `take` of them and then drops the
        generator; a rotating scan resumes after the last key it handed out. */
    method IterUuids(prefix: string, first: seq<string>, second: seq<string>, maxItems: Option<int>, rotate: bool,
          take: nat)
        returns (out: seq<string>)
      requires Ascending(first) && Ascending(second)
      modifies this`cursors
      ensures
        var start := if rotate && prefix in old(cursors) then Some(old(cursors)[prefix]) else None;
        var bound := Bound(maxItems, |first| + |second|);
        var y := Handed(first, second, start, Min(bound, take));
        && out == Uuids(prefix, y)
        && (var asked := FirstFew(BothSealed(first, second, start), take);
          y == if maxItems.None? then asked else FirstFew(asked, maxItems.value))
        && cursors == if rotate && y != [] then old(cursors)[prefix := y[|y| - 1]] else old(cursors)
    {
      var cursor := if rotate && prefix in cursors then Some(cursors[prefix]) else None;
      var limit := Min(Bound(maxItems, |first| + |second|), take);
      var yielded: seq<string> := [];
      if limit > 0 {
        yielded := ScanRanges(prefix, first, second, cursor, rotate, limit);
      }
      HandedAreFirst(first, second, cursor, maxItems, take);
      out := Uuids(prefix, yielded);
    }
  }
}
