/**
 What each stored shard, catalog row and location list has to do with the puts
 that were ever begun. Puts are recorded under their version token, which is
 fresh, and DEKs under the token of the put that drew them.
 */
module History {
  import opened Wrappers
  import opened ErasureCodec
  import opened KeyRing
  import opened MetadataStore
  import opened ShardKeys
  import opened Shards

  datatype History = History(puts: map<string, PutRecord>, deks: map<Dek, string>)

  ghost predicate Extends(before: History, after: History) {
    && (forall t :: t in before.puts ==> t in after.puts && after.puts[t] == before.puts[t])
    && (forall d :: d in before.deks ==> d in after.deks && after.deks[d] == before.deks[d])
  }

  /** Every put has an id and data, fits its specification, and can still be decrypted; DEKs belong to one put each. */
  ghost predicate HistoryOk(h: History, ring: Ring) {
    && (forall t :: t in h.puts ==>
          var p := h.puts[t];
          p.objectId != "" && p.data != [] && Fits(p.data, p.spec) && p.kekId in ring && ring[p.kekId] == p.key && p.dek in h.deks && h.deks[p.dek] == t)
    && (forall d :: d in h.deks ==> h.deks[d] in h.puts && h.puts[h.deks[d]].dek == d)
  }

  /** The encrypted shard is shard i of the put, unless it no longer opens at all. */
  ghost predicate ShardOf(env: Env, p: PutRecord, i: nat, e: EncryptedShard) {
    e.index == i < p.spec.Total() && (e.box.Scrambled? || e == PutShard(env, p, i))
  }

  /** What is stored under object/version/index is that shard of that version's put, with its manifest. */
  ghost predicate StoredOk(env: Env, h: History, key: ShardKey, s: StoredShard) {
    key.version in h.puts &&
    var p := h.puts[key.version];
    && p.objectId == key.objectId
    && ShardOf(env, p, key.index, s.shard)
    && s.manifest.objectId == key.objectId
    && s.manifest.version == key.version
    && s.manifest.meta == MetaOf(env, p)
  }

  /** Size, checksum, specification and DEK all come from one put of the object. */
  ghost predicate MetaOk(env: Env, h: History, id: string, meta: Meta) {
    meta.encryptedDek.dek in h.deks &&
    var t := h.deks[meta.encryptedDek.dek];
    t in h.puts && h.puts[t].objectId == id && meta == MetaOf(env, h.puts[t])
  }

  /** The locations are one for each shard of one put of the object, in index order. */
  ghost predicate LocationsOk(h: History, id: string, locations: seq<Location>) {
    locations != [] &&
    var v := locations[0].key.version;
    && v in h.puts && h.puts[v].objectId == id && |locations| == h.puts[v].spec.Total()
    && forall i {:trigger locations[i]} :: 0 <= i < |locations| ==> locations[i].key == ShardKey(id, v, i)
  }

  ghost predicate RowOk(env: Env, h: History, id: string, row: Row<Location>) {
    MetaOk(env, h, id, row.meta) && LocationsOk(h, id, row.locations)
  }

  /** Every shard fetched from the locations is a shard of the put they name. */
  ghost predicate FetchedOk(env: Env, h: History, version: string, fetched: seq<EncryptedShard>) {
    fetched != [] ==>
      version in h.puts &&
      forall j {:trigger fetched[j]} :: 0 <= j < |fetched| ==> ShardOf(env, h.puts[version], fetched[j].index, fetched[j])
  }

  lemma MetaOkExtends(env: Env, before: History, after: History, id: string, meta: Meta)
    requires Extends(before, after) && MetaOk(env, before, id, meta)
    ensures MetaOk(env, after, id, meta)
  {
  }

  lemma LocationsOkExtends(before: History, after: History, id: string, locations: seq<Location>)
    requires Extends(before, after) && LocationsOk(before, id, locations)
    ensures LocationsOk(after, id, locations)
  {
  }

  lemma StoredOkExtends(env: Env, before: History, after: History, key: ShardKey, s: StoredShard)
    requires Extends(before, after) && StoredOk(env, before, key, s)
    ensures StoredOk(env, after, key, s)
  {
  }

  /** Shards of another put do not open under this put's DEK; shards of this one are genuine. */
  lemma {:induction false} FetchedGenuine(env: Env, h: History, ring: Ring, t: string, version: string, fetched: seq<EncryptedShard>)
    requires HistoryOk(h, ring) && t in h.puts && FetchedOk(env, h, version, fetched)
    ensures forall j :: 0 <= j < |fetched| ==> Genuine(env, h.puts[t], fetched[j])
    ensures version != t ==> OpenAll(fetched, h.puts[t].dek) == []
  {
    forall j | 0 <= j < |fetched|
      ensures Genuine(env, h.puts[t], fetched[j])
      ensures version != t ==> Open(fetched[j], h.puts[t].dek) == None
    {
      assert ShardOf(env, h.puts[version], fetched[j].index, fetched[j]);
      if version != t {
        assert h.deks[h.puts[version].dek] == version && h.deks[h.puts[t].dek] == t;
      }
    }
    if version != t {
      NothingOpens(fetched, h.puts[t].dek);
    }
  }

  lemma {:induction false} NothingOpens(es: seq<EncryptedShard>, dek: Dek)
    requires forall j :: 0 <= j < |es| ==> Open(es[j], dek) == None
    ensures OpenAll(es, dek) == []
  {
    if es != [] {
      NothingOpens(es[..|es| - 1], dek);
      assert Open(es[|es| - 1], dek) == None;
    }
  }

  /**
   A read with metadata from one put and shards from the locations of any put of the object
   returns the bytes of the put whose metadata it has, or an error other than a checksum
   mismatch; and it can return bytes only when the locations belong to that same put.
   */
  lemma ReadIsSafe(env: Env, h: History, ring: Ring, id: string, meta: Meta, version: string, fetched: seq<EncryptedShard>)
    requires HistoryOk(h, ring) && MetaOk(env, h, id, meta) && FetchedOk(env, h, version, fetched)
    ensures var r := ReadOutcome(env, ring, meta, fetched);
      var t := h.deks[meta.encryptedDek.dek];
      && r != Err(ChecksumMismatch)
      && (r.Ok? ==> r.value == h.puts[t].data && version == t && fetched != [])
  {
    var t := h.deks[meta.encryptedDek.dek];
    var p := h.puts[t];
    FetchedGenuine(env, h, ring, t, version, fetched);
    assert ring[p.kekId] in ring.Values;
    ReadReturnsThePut(env, ring, p, fetched);
  }
}
