/**
 What storage nodes hold, and what a read makes of it. Encryption is ideal: a
 sealed shard opens under its own DEK and index and under nothing else.
 */
module Shards {
  import opened Wrappers
  import opened ErasureCodec
  import opened ErasureDecode
  import opened KeyRing
  import opened MetadataStore
  import opened ShardKeys

  datatype Location = Location(node: string, key: ShardKey)

  /** A ciphertext: what was sealed, or bytes that no longer pass the integrity check. */
  datatype Box = Sealed(dek: Dek, index: nat, plain: Bytes) | Scrambled

  datatype EncryptedShard = EncryptedShard(index: nat, box: Box)

  datatype Manifest = Manifest(objectId: string, version: string, meta: Meta, writtenAt: nat)

  datatype StoredShard = StoredShard(manifest: Manifest, shard: EncryptedShard)

  /** What all nodes together hold. */
  type ShardStore = map<Location, StoredShard>

  /** The library and the checksum function in use. */
  datatype Env = Env(isal: Isal, checksum: Bytes -> string)

  /** One put: what was stored, and the keys it was stored under. */
  datatype PutRecord = PutRecord(objectId: string, data: Bytes, spec: ErasureSpec, dek: Dek, key: Key, kekId: string)

  function MetaOf(env: Env, p: PutRecord): Meta {
    Meta(|p.data|, env.checksum(p.data), p.spec, WrappedDek(p.key, p.dek), p.kekId)
  }

  function Seal(dek: Dek, shard: PlainShard): EncryptedShard {
    EncryptedShard(shard.index, Sealed(dek, shard.index, shard.bytes))
  }

  function Open(e: EncryptedShard, dek: Dek): Option<PlainShard> {
    if e.box.Sealed? && e.box.dek == dek && e.box.index == e.index then Some(PlainShard(e.index, e.box.plain)) else None
  }

  /** Shard i of a put, encrypted. */
  function PutShard(env: Env, p: PutRecord, i: nat): EncryptedShard
    requires i < p.spec.Total()
  {
    Seal(p.dek, PlainShard(i, CodeShard(env.isal, p.data, p.spec, i)))
  }

  /** decrypt_shards, best effort: what does not open is skipped. */
  function OpenAll(es: seq<EncryptedShard>, dek: Dek): seq<PlainShard> {
    if es == [] then []
    else
      var last := Open(es[|es| - 1], dek);
      OpenAll(es[..|es| - 1], dek) + (if last.Some? then [last.value] else [])
  }

  method DecryptShards(es: seq<EncryptedShard>, dek: Dek) returns (plain: seq<PlainShard>)
    ensures plain == OpenAll(es, dek)
  {
    plain := [];
    for i := 0 to |es|
      invariant plain == OpenAll(es[..i], dek)
    {
      assert es[..i + 1][..i] == es[..i];
      var clear := Open(es[i], dek);
      if clear.Some? {
        plain := plain + [clear.value];
      }
    }
    assert es[..|es|] == es;
  }

  datatype ReadError =
    | NotEnoughShards
    | KeyUnavailable
    | NotEnoughValidShards
    | CodecFailure(error: CodecError)
    | ChecksumMismatch

  /** From fetched shards to bytes: recover the DEK, decrypt, decode, compare the checksum. */
  ghost function ReadOutcome(env: Env, ring: Ring, meta: Meta, fetched: seq<EncryptedShard>): Result<Bytes, ReadError> {
    if |fetched| < meta.erasure.dataShards then Err(NotEnoughShards)
    else
      match RecoveredDek(ring, meta.encryptedDek)
      case None => Err(KeyUnavailable)
      case Some(dek) =>
        var plain := OpenAll(fetched, dek);
        if |plain| < meta.erasure.dataShards then Err(NotEnoughValidShards)
        else
          match Decoded(env.isal, plain, meta.erasure, meta.size)
          case Err(e) => Err(CodecFailure(e))
          case Ok(bytes) => if env.checksum(bytes) != meta.checksum then Err(ChecksumMismatch) else Ok(bytes)
  }

  /** If e opens under the DEK of p, it is a shard of p. */
  ghost predicate Genuine(env: Env, p: PutRecord, e: EncryptedShard) {
    var plain := Open(e, p.dek);
    plain.Some? ==> e.index < p.spec.Total() && plain.value.bytes == CodeShard(env.isal, p.data, p.spec, e.index)
  }

  lemma {:induction false} OpenAllGenuine(env: Env, p: PutRecord, es: seq<EncryptedShard>)
    requires forall j :: 0 <= j < |es| ==> Genuine(env, p, es[j])
    ensures DrawnFrom(env.isal, p.data, p.spec, OpenAll(es, p.dek))
  {
    if es != [] {
      OpenAllGenuine(env, p, es[..|es| - 1]);
      assert Genuine(env, p, es[|es| - 1]);
    }
  }

  lemma {:induction false} OpenAllMembers(es: seq<EncryptedShard>, dek: Dek)
    ensures forall j :: 0 <= j < |es| && Open(es[j], dek).Some? ==> Open(es[j], dek).value in OpenAll(es, dek)
  {
    if es != [] {
      OpenAllMembers(es[..|es| - 1], dek);
      forall j | 0 <= j < |es| && Open(es[j], dek).Some?
        ensures Open(es[j], dek).value in OpenAll(es, dek)
      {
        if j < |es| - 1 {
          assert es[..|es| - 1][j] == es[j];
        }
      }
    }
  }

  /** The indices of the fetched shards that open. */
  ghost function OpenIndices(es: seq<EncryptedShard>, dek: Dek): set<nat> {
    Indices(OpenAll(es, dek))
  }

  /**
   Reading with the metadata of put p, from any shards among which those that open are
   genuine: the result is the data of p or an error, and the checksum never disagrees.
   With k distinct genuine shards the only possible error is a failed inversion.
   */
  lemma ReadReturnsThePut(env: Env, ring: Ring, p: PutRecord, fetched: seq<EncryptedShard>)
    requires Fits(p.data, p.spec)
    requires p.key in ring.Values
    requires forall j :: 0 <= j < |fetched| ==> Genuine(env, p, fetched[j])
    ensures var r := ReadOutcome(env, ring, MetaOf(env, p), fetched);
      && (r.Ok? ==> r.value == p.data)
      && r != Err(ChecksumMismatch)
      && (|OpenIndices(fetched, p.dek)| >= p.spec.dataShards ==> r == Ok(p.data) || r == Err(CodecFailure(InversionFailed)))
  {
    var plain := OpenAll(fetched, p.dek);
    OpenAllGenuine(env, p, fetched);
    RoundTrip(env.isal, p.data, p.spec, plain);
    PresentCount(plain, p.spec.Total());
    OpenAllLength(fetched, p.dek);
  }

  lemma {:induction false} OpenAllLength(es: seq<EncryptedShard>, dek: Dek)
    ensures |OpenAll(es, dek)| <= |es|
  {
    if es != [] {
      OpenAllLength(es[..|es| - 1], dek);
    }
  }

  /** The ciphertext was sealed under this DEK for the index that the shard carries. */
  ghost predicate SealedFor(e: EncryptedShard, dek: Dek) {
    e.box.Sealed? && e.box.dek == dek && e.box.index == e.index
  }

  /** One shard more opens, or not. */
  lemma OpenOneMore(es: seq<EncryptedShard>, dek: Dek)
    requires es != []
    ensures var front, last := es[..|es| - 1], es[|es| - 1];
      && OpenAll(es, dek) == OpenAll(front, dek) + (if SealedFor(last, dek) then [PlainShard(last.index, last.box.plain)] else [])
      && OpenIndices(es, dek) == OpenIndices(front, dek) + (if SealedFor(last, dek) then {last.index} else {})
  {
    var front, last := es[..|es| - 1], es[|es| - 1];
    if SealedFor(last, dek) {
      var shard := PlainShard(last.index, last.box.plain);
      assert OpenAll(es, dek) == OpenAll(front, dek) + [shard];
      IndicesAppend(OpenAll(front, dek), shard);
    } else {
      assert OpenAll(es, dek) == OpenAll(front, dek);
    }
  }

  /** What opens is exactly what was sealed under the DEK for its own index, in order, with its bytes. */
  lemma {:induction false} OpensWhatWasSealed(es: seq<EncryptedShard>, dek: Dek)
    ensures forall i :: i in OpenIndices(es, dek) <==> exists j :: 0 <= j < |es| && es[j].index == i && SealedFor(es[j], dek)
    ensures (forall j :: 0 <= j < |es| ==> SealedFor(es[j], dek)) ==>
      |OpenAll(es, dek)| == |es| && forall j :: 0 <= j < |es| ==> OpenAll(es, dek)[j] == PlainShard(es[j].index, es[j].box.plain)
  {
    if es != [] {
      var front := es[..|es| - 1];
      OpensWhatWasSealed(front, dek);
      OpenOneMore(es, dek);
      hide OpenAll, OpenIndices;
      assert forall j :: 0 <= j < |front| ==> es[j] == front[j];
    }
  }

  lemma IndicesAppend(shards: seq<PlainShard>, shard: PlainShard)
    ensures Indices(shards + [shard]) == Indices(shards) + {shard.index}
  {
    var all := shards + [shard];
    forall i | i in Indices(shards) + {shard.index}
      ensures i in Indices(all)
    {
      if i == shard.index {
        assert all[|shards|].index == i;
      } else {
        var j :| 0 <= j < |shards| && shards[j].index == i;
        assert all[j].index == i;
      }
    }
  }

  /** What a read checks, for any metadata: its result has the size and the checksum that the row records. */
  lemma {:induction false} ReadChecks(env: Env, ring: Ring, meta: Meta, fetched: seq<EncryptedShard>)
    ensures var r := ReadOutcome(env, ring, meta, fetched);
      var k, dek := meta.erasure.dataShards, meta.encryptedDek.dek;
      var plain := OpenAll(fetched, dek);
      var decoded := Decoded(env.isal, plain, meta.erasure, meta.size);
      var known := |fetched| >= k && meta.encryptedDek.key in ring.Values;
      && (r == Err(NotEnoughShards) <==> |fetched| < k)
      && (r == Err(KeyUnavailable) <==> |fetched| >= k && meta.encryptedDek.key !in ring.Values)
      && (r == Err(NotEnoughValidShards) <==> known && |plain| < k)
      && (r.Err? && r.error.CodecFailure? <==> known && |plain| >= k && decoded.Err?)
      && (r.Err? && r.error.CodecFailure? ==> decoded == Err(r.error.error))
      && (r == Err(ChecksumMismatch) <==> known && |plain| >= k && decoded.Ok? && env.checksum(decoded.value) != meta.checksum)
      && (r.Ok? <==> known && |plain| >= k && decoded.Ok? && env.checksum(decoded.value) == meta.checksum)
      && (r.Ok? ==> decoded == Ok(r.value) && |r.value| == meta.size && env.checksum(r.value) == meta.checksum)
  {
    hide OpenAll, Decoded;
    DecodedSize(env.isal, OpenAll(fetched, meta.encryptedDek.dek), meta.erasure, meta.size);
  }

  /**
   Exactly when a read with the metadata of put p returns its data, said of the library: when its
   key is known, k distinct shards open, and either all data shards are among them or the generator
   rows of the k least of them can be inverted. Of the other cases each has its error.
   */
  lemma {:induction false} ReadExactly(env: Env, ring: Ring, p: PutRecord, fetched: seq<EncryptedShard>, chosen: seq<nat>)
    requires Fits(p.data, p.spec) && p.key in ring.Values
    requires forall j :: 0 <= j < |fetched| ==> Genuine(env, p, fetched[j])
    requires LeastPresent(OpenAll(fetched, p.dek), chosen, p.spec.dataShards)
    ensures forall j :: 0 <= j < |chosen| ==> chosen[j] < p.spec.Total()
    ensures var r := ReadOutcome(env, ring, MetaOf(env, p), fetched);
      var inverted := env.isal.invert(ChosenRows(env.isal, p.spec, chosen));
      var dataThere := forall i: nat :: i < p.spec.dataShards ==> i in OpenIndices(fetched, p.dek);
      && (r == Ok(p.data) <==> inverted.Some? || dataThere)
      && (r == Err(CodecFailure(InversionFailed)) <==> inverted == None && !dataThere)
  {
    var plain := OpenAll(fetched, p.dek);
    hide Decoded, OpenAll, LeastPresent, Genuine, DrawnFrom, Indices;
    OpenAllGenuine(env, p, fetched);
    OpenAllLength(fetched, p.dek);
    DrawnInRange(env, p, plain);
    EnoughChosen(plain, p.spec, chosen);
    DecodesWhenInvertible(env.isal, p.data, p.spec, plain, chosen, |p.data|);
    DecodeShardErrors(env.isal, plain, p.spec, |p.data|);
    assert Padded(p.data, |p.data|) == p.data;
    assert OpenIndices(fetched, p.dek) == Indices(plain);
    EnoughReadDecodes(env, ring, p, fetched);
  }

  /** With k shards that open, a read of a known key is the decoding of what opens. */
  lemma {:induction false} EnoughReadDecodes(env: Env, ring: Ring, p: PutRecord, fetched: seq<EncryptedShard>)
    requires p.key in ring.Values
    requires |fetched| >= |OpenAll(fetched, p.dek)| >= p.spec.dataShards
    ensures var decoded := Decoded(env.isal, OpenAll(fetched, p.dek), p.spec, |p.data|);
      && (decoded == Ok(p.data) ==> ReadOutcome(env, ring, MetaOf(env, p), fetched) == Ok(p.data))
      && (decoded.Err? ==> ReadOutcome(env, ring, MetaOf(env, p), fetched) == Err(CodecFailure(decoded.error)))
  {
    hide Decoded, OpenAll;
  }

  lemma DrawnInRange(env: Env, p: PutRecord, plain: seq<PlainShard>)
    requires DrawnFrom(env.isal, p.data, p.spec, plain)
    ensures forall j :: 0 <= j < |plain| ==> plain[j].index < p.spec.Total()
  {
  }

  /** With fewer than k distinct shards that open, a read always fails, and says at which stage. */
  lemma {:induction false} ReadTooFew(env: Env, ring: Ring, p: PutRecord, fetched: seq<EncryptedShard>)
    requires Fits(p.data, p.spec) && p.key in ring.Values
    requires forall j :: 0 <= j < |fetched| ==> Genuine(env, p, fetched[j])
    requires |OpenIndices(fetched, p.dek)| < p.spec.dataShards
    ensures ReadOutcome(env, ring, MetaOf(env, p), fetched) == Err(
      if |fetched| < p.spec.dataShards then NotEnoughShards
      else if |OpenAll(fetched, p.dek)| < p.spec.dataShards then NotEnoughValidShards
      else CodecFailure(NotEnoughUniqueShards))
  {
    var plain := OpenAll(fetched, p.dek);
    OpenAllGenuine(env, p, fetched);
    ReadChecks(env, ring, MetaOf(env, p), fetched);
    RoundTrip(env.isal, p.data, p.spec, plain);
    if |plain| >= p.spec.dataShards {
      DecodeInputErrors(env.isal, plain, p.spec, |p.data|);
    }
    hide ReadOutcome, Decoded, OpenAll;
  }
}
