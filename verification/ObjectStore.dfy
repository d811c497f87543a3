/**
 * Conditional writes on one object of the bucket: If-None-Match and If-Match,
 * sections 13.1.2 and 13.1.1 of RFC 9110.  A version is either a fresh
 * generation number (GCS) or a function of the body (an S3 ETag).
 */
module ObjectStore {
  import opened Options

  datatype Scheme = Generations | BodyTags
  datatype Version<+B> = Gen(n: nat) | Tag(body: B)
  datatype Obj<+B> = Obj(body: B, version: Version<B>)
  type Slot<+B> = Option<Obj<B>>

  /** The version the store gives to a body written as its `gen`-th write. */
  function Stamp<B>(scheme: Scheme, body: B, gen: nat): Version<B> {
    if scheme.Generations? then Gen(gen) else Tag(body)
  }

  function CreateOnly<B>(slot: Slot<B>, scheme: Scheme, body: B, gen: nat): (Slot<B>, bool) {
    if slot.None? then (Some(Obj(body, Stamp(scheme, body, gen))), true) else (slot, false)
  }

  function CasWrite<B(==)>(slot: Slot<B>, scheme: Scheme, body: B, gen: nat, expected: Version<B>): (Slot<B>, bool) {
    if slot.Some? && slot.value.version == expected
    then (Some(Obj(body, Stamp(scheme, body, gen))), true)
    else (slot, false)
  }

  /** Every object's version was given to it by the store, before its `gen`-th write. */
  ghost predicate Stamped<B>(scheme: Scheme, o: Obj<B>, gen: nat) {
    match scheme
    case Generations => o.version.Gen? && o.version.n < gen
    case BodyTags => o.version == Tag(o.body)
  }

  /** What was read, `seen`, is still what is stored if the versions agree. */
  ghost predicate Identifies<B(!new)>(scheme: Scheme, slot: Slot<B>, seen: Obj<B>, gen: nat) {
    && Stamped(scheme, seen, gen)
    && (slot.Some? ==> Stamped(scheme, slot.value, gen))
    && (slot.Some? && slot.value.version == seen.version ==> slot.value.body == seen.body)
  }
}
