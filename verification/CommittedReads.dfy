/**
 What a committed row is worth: as long as no shard is lost or deleted and no
 rebalance commits over a removed row, fetching everything the row names gives
 the bytes of its put. All its data shards are there, so no inversion is needed.
 */
module CommittedReads {
  import opened Wrappers
  import opened ErasureCodec
  import opened ErasureDecode
  import opened KeyRing
  import opened Shards
  import opened History
  import opened Reindex
  import opened Protocol
  import opened Invariant
  import opened RebuildResults
  import opened RowUnity
  import opened Durability

  /** Every shard of the put, in index order. */
  function PutShards(env: Env, p: PutRecord, n: nat): (shards: seq<EncryptedShard>)
    requires n <= p.spec.Total()
    ensures |shards| == n
  {
    seq(n, i requires 0 <= i < n => PutShard(env, p, i))
  }

  lemma {:induction false} PutShardsOpen(env: Env, p: PutRecord, n: nat)
    requires n <= p.spec.Total()
    ensures OpenAll(PutShards(env, p, n), p.dek) == CodeWord(env.isal, p.data, p.spec)[..n]
  {
    hide CodeShard;
    if n > 0 {
      PutShardsOpen(env, p, n - 1);
      assert PutShards(env, p, n)[..n - 1] == PutShards(env, p, n - 1);
      assert Open(PutShard(env, p, n - 1), p.dek) == Some(CodeWord(env.isal, p.data, p.spec)[n - 1]);
    }
  }

  /** The data shards of the code word, with any that follow, decode to the data on the fast path. */
  lemma CodeWordDecodes(isal: Isal, data: Bytes, spec: ErasureSpec, n: nat)
    requires Fits(data, spec) && spec.dataShards <= n <= spec.Total()
    ensures Decoded(isal, CodeWord(isal, data, spec)[..n], spec, |data|) == Ok(data)
  {
    hide CodeShard, Decoded;
    var word := CodeWord(isal, data, spec)[..n];
    forall i | 0 <= i < spec.dataShards
      ensures FirstCopy(word, i).Some?
    {
      FirstCopyMember(word, i);
      assert word[i].index == i;
    }
    RoundTrip(isal, data, spec, word);
  }

  /** A read that gets all data shards of the put, and any that follow, returns its data and cannot fail. */
  lemma DataShardsReadBack(env: Env, ring: Ring, p: PutRecord, n: nat)
    requires Fits(p.data, p.spec) && p.key in ring.Values && p.spec.dataShards <= n <= p.spec.Total()
    ensures ReadOutcome(env, ring, MetaOf(env, p), PutShards(env, p, n)) == Ok(p.data)
  {
    hide Decoded, CodeShard, OpenAll;
    PutShardsOpen(env, p, n);
    CodeWordDecodes(env.isal, p.data, p.spec, n);
  }

  lemma {:induction false} FetchAll(env: Env, store: ShardStore, p: PutRecord, locations: seq<Location>)
    requires |locations| <= p.spec.Total()
    requires forall i :: 0 <= i < |locations| ==> locations[i] in store && store[locations[i]].shard == PutShard(env, p, i)
    ensures FetchRow(store, locations) == PutShards(env, p, |locations|)
  {
    hide CodeShard;
    if locations != [] {
      FetchAll(env, store, p, locations[..|locations| - 1]);
    }
  }

  lemma WholeRowReadsBack(env: Env, w: World, id: string)
    requires Inv(env, w) && id in w.catalog && Undamaged(w.store, id)
    requires var row := w.catalog[id];
      OfOnePut(w.history, row.meta, row.locations) && forall i :: 0 <= i < |row.locations| ==> row.locations[i] in w.store
    ensures var row := w.catalog[id];
      var t := row.locations[0].key.version;
      && t in w.history.puts && w.history.puts[t].objectId == id
      && ReadOutcome(env, w.ring, row.meta, FetchRow(w.store, row.locations)) == Ok(w.history.puts[t].data)
  {
    var row := w.catalog[id];
    assert RowOk(env, w.history, id, row);
    var t := row.locations[0].key.version;
    var p := w.history.puts[t];
    forall i | 0 <= i < |row.locations|
      ensures w.store[row.locations[i]].shard == PutShard(env, p, i)
    {
      assert StoredOk(env, w.history, row.locations[i].key, w.store[row.locations[i]]);
    }
    hide StoreOk, CatalogOk, OpsOk, Undamaged, ReadOutcome, FetchRow, PutShard, PutShards;
    FetchAll(env, w.store, p, row.locations);
    assert w.ring[p.kekId] in w.ring.Values;
    DataShardsReadBack(env, w.ring, p, p.spec.Total());
  }

  /**
   End to end: in every run without shard loss or deletion and without a rebalance commit over a
   removed row, each committed row names one put of its object, and as long as none of the
   object's shards is damaged, fetching all its locations and decoding returns that put's bytes.
   Rows that a rebuild left with gaps are covered by RebuildAfterAnyRun.
   */
  lemma CommittedRowReadsBack(env: Env, worlds: seq<World>, steps: seq<Step>, n: nat, id: string)
    requires IsRun(env, worlds, steps) && Init(worlds[0]) && n <= |steps|
    requires forall i :: 0 <= i < n ==> !Lossy(steps[i]) && NoStaleMove(worlds[i], steps[i])
    requires id in worlds[n].catalog && Undamaged(worlds[n].store, id)
    requires forall at :: at in worlds[n].catalog[id].locations ==> at.node != UNKNOWN_NODE
    ensures var w, row := worlds[n], worlds[n].catalog[id];
      && row.locations != []
      && row.locations[0].key.version in w.history.puts
      && w.history.puts[row.locations[0].key.version].objectId == id
      && ReadOutcome(env, w.ring, row.meta, FetchRow(w.store, row.locations))
         == Ok(w.history.puts[row.locations[0].key.version].data)
  {
    hide Enabled, Apply, Lossy, NoStaleMove, Inv, Undamaged, RowOk, OpsPresent, ReadOutcome, FetchRow;
    var w := worlds[n];
    var locations := w.catalog[id].locations;
    RunKeepsInvariant(env, worlds, steps, n);
    RowsComeFromOnePut(env, worlds, steps, n);
    CommittedShardsPresent(env, worlds, steps, n);
    assert AllHeld(w.store, locations);
    forall i | 0 <= i < |locations|
      ensures locations[i] in w.store
    {
      assert locations[i] in locations && Held(w.store, locations[i]);
    }
    WholeRowReadsBack(env, w, id);
  }
}
