/**
 The undisturbed run: from any world, a put followed by a get. It exists for
 every object, specification and choice of nodes, and the get returns the bytes.
 */
module PutThenGet {
  import opened Wrappers
  import opened ErasureCodec
  import opened Shards
  import opened Protocol
  import opened Runs
  import opened CommittedReads

  /** The get when it has fetched the first n shards. */
  ghost function Fetching(env: Env, w: World, op: nat, u: Upload, n: nat): World
    requires u.put.objectId in w.catalog && n <= u.put.spec.Total()
  {
    SetOp(w, op, Getting(ReadRow(w, u.put.objectId), Below(n), PutShards(env, u.put, n)))
  }

  /** The object's row and shards are the put's. */
  ghost predicate Stored(env: Env, w: World, u: Upload) {
    && |u.nodes| == u.put.spec.Total()
    && u.put.objectId in w.catalog
    && w.catalog[u.put.objectId].meta == MetaOf(env, u.put)
    && w.catalog[u.put.objectId].locations == Locations(u)
    && forall i :: 0 <= i < |u.nodes| ==> Locations(u)[i] in w.store && w.store[Locations(u)[i]].shard == PutShard(env, u.put, i)
  }

  lemma FetchStep(env: Env, w: World, op: nat, u: Upload, n: nat)
    requires Stored(env, w, u) && n < |u.nodes|
    ensures var before := Fetching(env, w, op, u, n);
      Enabled(env, before, GetFetch(op, n)) && Apply(env, before, GetFetch(op, n)) == Fetching(env, w, op, u, n + 1)
  {
    hide PutShard, MetaOf;
    BelowMembers(n);
    assert PutShards(env, u.put, n + 1) == PutShards(env, u.put, n) + [PutShard(env, u.put, n)];
  }

  lemma {:induction false} FetchRun(env: Env, w: World, op: nat, u: Upload, n: nat) returns (worlds: seq<World>, steps: seq<Step>)
    requires Stored(env, w, u) && n <= |u.nodes|
    ensures Leads(env, worlds, steps, Fetching(env, w, op, u, 0), Fetching(env, w, op, u, n))
  {
    hide Enabled, Apply, Leads, Fetching;
    if n == 0 {
      worlds, steps := NoSteps(env, Fetching(env, w, op, u, 0));
    } else {
      worlds, steps := FetchRun(env, w, op, u, n - 1);
      FetchStep(env, w, op, u, n - 1);
      worlds, steps := OneMore(env, worlds, steps, Fetching(env, w, op, u, 0), Fetching(env, w, op, u, n - 1), GetFetch(op, n - 1));
    }
  }

  ghost function Finished(env: Env, w: World, op: nat, u: Upload): World {
    SetOp(w, op, Got(u.put.objectId, MetaOf(env, u.put), Ok(u.put.data)))
  }

  lemma FinishStep(env: Env, w: World, op: nat, u: Upload)
    requires Stored(env, w, u) && Fits(u.put.data, u.put.spec) && u.put.key in w.ring.Values
    ensures var before := Fetching(env, w, op, u, |u.nodes|);
      Enabled(env, before, GetFinish(op)) && Apply(env, before, GetFinish(op)) == Finished(env, w, op, u)
  {
    DataShardsReadBack(env, w.ring, u.put, u.put.spec.Total());
    hide ReadOutcome, PutShards, MetaOf, Below;
  }

  lemma GetRun(env: Env, w: World, op: nat, u: Upload) returns (worlds: seq<World>, steps: seq<Step>)
    requires op !in w.ops && Stored(env, w, u) && Fits(u.put.data, u.put.spec) && u.put.key in w.ring.Values
    ensures Leads(env, worlds, steps, w, Finished(env, w, op, u))
  {
    assert SetOp(w, op, AfterSelect(ForGet, ReadRow(w, u.put.objectId))) == Fetching(env, w, op, u, 0);
    hide Enabled, Apply, Leads, Fetching, Finished;
    var a, s := SelectRun(env, w, op, ForGet, u.put.objectId);
    var b, t := FetchRun(env, w, op, u, |u.nodes|);
    worlds, steps := Joined(env, a, s, b, t, w, Fetching(env, w, op, u, 0), Fetching(env, w, op, u, |u.nodes|));
    FinishStep(env, w, op, u);
    worlds, steps := OneMore(env, worlds, steps, w, Fetching(env, w, op, u, |u.nodes|), GetFinish(op));
  }

  lemma PutIsStored(env: Env, w: World, u: Upload)
    requires CanBegin(w, u)
    ensures Stored(env, AfterPut(env, w, u), u) && u.put.key in w.ring.Values
  {
    UploadedShards(env, w.store, u, |u.nodes|);
    assert w.ring[w.active] in w.ring.Values;
  }

  /**
   Put, then get: in any world, for any non-empty data that fits, any nodes and fresh tokens,
   there is a run in which the put completes and a get then returns exactly the data.
   */
  lemma PutThenGetReturnsData(env: Env, w: World, op: nat, u: Upload) returns (worlds: seq<World>, steps: seq<Step>)
    requires op !in w.ops && CanBegin(w, u)
    ensures Leads(env, worlds, steps, w, Finished(env, AfterPut(env, w, u), op, u))
  {
    PutIsStored(env, w, u);
    hide Leads, Stored, Finished;
    var a, s := PutRun(env, w, op, u);
    var b, t := GetRun(env, AfterPut(env, w, u), op, u);
    worlds, steps := Joined(env, a, s, b, t, w, AfterPut(env, w, u), Finished(env, AfterPut(env, w, u), op, u));
  }
}
