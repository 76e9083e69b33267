/**
 The run in which a rebuild gives back an overwritten version. One object is put
 twice:
   - the first put completes, and its last parity shard is lost;
   - a repair reads the row, probes, fetches, decodes and restores that shard;
   - the second put overwrites the row;
   - the repair writes its shard, with a stamp later than the second put's, and
     is fenced off.
 Both versions are then reconstructable. A rebuild that reads the first version's
 manifest from the repaired shard makes a row of the first.
 */
module LateRepair {
  import opened Wrappers
  import opened Collections
  import opened KeyRing
  import opened MetadataStore
  import opened ShardKeys
  import opened Shards
  import opened Reindex
  import opened Protocol
  import opened Invariant
  import opened Runs
  import opened FenceLimits
  import opened CommittedReads
  import opened History
  import opened Rebuild
  import opened RebuildResults
  import opened RebuildRuns
  import opened RepairRuns
  import opened PassChoice

  /* ---------- The repair, up to its write ---------- */

  function Last(u: Upload): nat
    requires u.nodes != []
  {
    |u.nodes| - 1
  }

  /** The put has completed, and its last parity shard is lost. */
  ghost predicate LastLost(env: Env, w: World, u: Upload) {
    && FittingUpload(u) && u.put.key in w.ring.Values
    && RowOfUpload(env, w, u)
    && Locations(u)[Last(u)] !in w.store
    && forall i :: 0 <= i < Last(u) ==> Locations(u)[i] in w.store && w.store[Locations(u)[i]].shard == PutShard(env, u.put, i)
  }

  ghost function Snap(w: World, u: Upload): Snapshot
    requires u.put.objectId in w.catalog
  {
    ReadRow(w, u.put.objectId)
  }

  /** All data shards survive. */
  lemma {:induction false} WithoutLastReadsBack(env: Env, ring: Ring, u: Upload)
    requires FittingUpload(u) && u.nodes != [] && u.put.key in ring.Values
    ensures ReadOutcome(env, ring, MetaOf(env, u.put), Survivors(env, u.put, {Last(u)}, |u.nodes|)) == Ok(u.put.data)
  {
    SurvivorsBelow(env, u.put, Last(u), Last(u));
    assert Survivors(env, u.put, {Last(u)}, |u.nodes|) == PutShards(env, u.put, Last(u)) + [] == PutShards(env, u.put, Last(u));
    DataShardsReadBack(env, ring, u.put, Last(u));
    hide ReadOutcome, PutShards, PutShard, MetaOf, Survivors;
  }

  lemma LastIsSomeLost(env: Env, w: World, u: Upload)
    requires LastLost(env, w, u)
    ensures SomeLost(env, w, u, {Last(u)})
  {
    hide ReadOutcome, PutShard, MetaOf, Survivors, Locations;
    WithoutLastReadsBack(env, w.ring, u);
    assert Last(u) in {Last(u)};
  }

  lemma {:induction false} SurvivorsBelow(env: Env, p: PutRecord, last: nat, j: nat)
    requires j <= last < p.spec.Total()
    ensures Survivors(env, p, {last}, j) == PutShards(env, p, j)
  {
    hide PutShard;
    if j > 0 {
      SurvivorsBelow(env, p, last, j - 1);
      assert PutShards(env, p, j) == PutShards(env, p, j - 1) + [PutShard(env, p, j - 1)];
    }
  }

  /** The missing shard has been restored and has a target; nothing has been written. */
  ghost function Waiting(env: Env, w: World, op: nat, u: Upload, target: string): World
    requires FittingUpload(u) && u.put.objectId in w.catalog
  {
    SetOp(w, op, RepairOp(env, u, Snap(w, u), target, {}))
  }

  /** A repair that nothing disturbs, from its first SELECT to the shard it has restored. */
  lemma WaitRun(env: Env, w: World, op: nat, u: Upload, target: string) returns (worlds: seq<World>, steps: seq<Step>)
    requires op !in w.ops && LastLost(env, w, u)
    ensures Leads(env, worlds, steps, w, Waiting(env, w, op, u, target))
  {
    LastIsSomeLost(env, w, u);
    var targets: map<nat, string> := map[Last(u) := target];
    assert targets.Keys == {Last(u)};
    assert LostShards(env, u.put, {Last(u)}) == map[Last(u) := PutShard(env, u.put, Last(u))];
    hide Leads, SomeLost, LastLost, LostShards, PutShard;
    worlds, steps := RestoreRun(env, w, op, u, {Last(u)}, targets);
  }

  /* ---------- The rebuild ---------- */

  /** Two versions of one object: u with its first shards and one stamped at a later time, and all of v. */
  ghost predicate LateStore(env: Env, store: ShardStore, u: Upload, v: Upload, at: Location, time: nat) {
    && FittingUpload(u) && FittingUpload(v) && u.put.objectId == v.put.objectId && u.token != v.token && v.writtenAt < time
    && HoldsUpload(env, store, v, |v.nodes|)
    && (forall x :: x in store && x.key.objectId == u.put.objectId ==> IdOf(x.key) in {GroupOf(u), GroupOf(v)})
    && at.key == ShardKey(u.put.objectId, u.token, Last(u)) && at in store
    && store[at].manifest == Manifest(u.put.objectId, u.token, MetaOf(env, u.put), time)
    && (forall i :: 0 <= i < Last(u) ==> Locations(u)[i] in store)
  }

  ghost function NodesOf(u: Upload, v: Upload, at: Location): set<string> {
    Elems(u.nodes) + Elems(v.nodes) + {at.node}
  }

  /** The old version is reconstructable. */
  lemma OldVersionEnough(env: Env, h: History, store: ShardStore, u: Upload, v: Upload, at: Location, time: nat)
    requires LateStore(env, store, u, v, at, time) && u.token in h.puts && h.puts[u.token] == u.put
    ensures Enough(h, store, NodesOf(u, v, at), GroupOf(u))
  {
    var nodes := NodesOf(u, v, at);
    BelowMembers(Last(u));
    BelowSize(Last(u));
    hide HoldsUpload, MetaOf, Locations;
    forall i | 0 <= i < Last(u)
      ensures i in StoredIndices(store, nodes, GroupOf(u))
    {
      UploadLocation(u, i);
      assert u.nodes[i] in Elems(u.nodes);
      assert Locations(u)[i] in Visible(store, nodes);
    }
    SubsetCardinality(Below(Last(u)), StoredIndices(store, nodes, GroupOf(u)));
  }

  /** Versions of the object that are seen at all are these two. */
  lemma SeenIsOneOfTwo(env: Env, store: ShardStore, u: Upload, v: Upload, at: Location, time: nat, nodes: set<string>, g: GroupId)
    requires LateStore(env, store, u, v, at, time) && g.objectId == u.put.objectId
    requires exists x :: ShardSeen(store, nodes, g, x)
    ensures g == GroupOf(u) || g == GroupOf(v)
  {
    hide HoldsUpload, MetaOf, Locations;
    var x :| ShardSeen(store, nodes, g, x);
  }

  lemma LateShardSeen(env: Env, store: ShardStore, u: Upload, v: Upload, at: Location, time: nat)
    requires LateStore(env, store, u, v, at, time)
    ensures ShardSeen(store, NodesOf(u, v, at), GroupOf(u), at) && store[at].manifest.writtenAt == time
    ensures SeenBy(store, NodesOf(u, v, at), GroupOf(v), time)
  {
    FirstOfUpload(env, store, v, NodesOf(u, v, at));
    hide HoldsUpload, MetaOf, Locations;
  }

  /** The late shard is not outdone: the only other version has a shard stamped before. */
  lemma LateShardNotOutdone(env: Env, w: World, u: Upload, v: Upload, at: Location, time: nat)
    requires Inv(env, w) && (forall data :: env.checksum(data) != "") && LateStore(env, w.store, u, v, at, time)
    ensures var nodes := NodesOf(u, v, at);
      ShardSeen(w.store, nodes, GroupOf(u), at) && NotOutdone(w.history, w.store, nodes, GroupOf(u), w.store[at].manifest.writtenAt)
  {
    var nodes := NodesOf(u, v, at);
    hide Inv, Sound, LateStore, Enough, ShardSeen, SeenBy, NodesOf;
    InvSound(env, w);
    LateShardSeen(env, w.store, u, v, at, time);
    forall g | Enough(w.history, w.store, nodes, g) && g.objectId == u.put.objectId && g != GroupOf(u)
      ensures SeenBy(w.store, nodes, g, time)
    {
      EnoughIsSeen(env, w.history, w.ring, w.store, nodes, g);
      SeenIsOneOfTwo(env, w.store, u, v, at, time, nodes, g);
    }
  }

  lemma FirstOfUpload(env: Env, store: ShardStore, v: Upload, nodes: set<string>)
    requires FittingUpload(v) && HoldsUpload(env, store, v, |v.nodes|) && Elems(v.nodes) <= nodes
    ensures SeenBy(store, nodes, GroupOf(v), v.writtenAt)
  {
    UploadLocation(v, 0);
    assert v.nodes[0] in Elems(v.nodes);
    assert ShardSeen(store, nodes, GroupOf(v), Locations(v)[0]);
  }

  lemma LateStampComesBack(env: Env, w: World, u: Upload, v: Upload, at: Location, time: nat) returns (pass: Pass, after: Catalog<Location>)
    requires Inv(env, w) && (forall data :: env.checksum(data) != "") && LateStore(env, w.store, u, v, at, time)
    requires u.token in w.history.puts && w.history.puts[u.token] == u.put
    ensures AllNodes(pass, u, v) && Rebuilds(w.store, pass, map[], after)
    ensures u.put.objectId in after && NamesVersion(env, w.history, after[u.put.objectId], u.token)
  {
    InvSound(env, w);
    OldVersionEnough(env, w.history, w.store, u, v, at, time);
    LateShardNotOutdone(env, w, u, v, at, time);
    hide Inv, Sound, LateStore, Enough, NotOutdone, ShardSeen, NamesVersion, Rebuilds;
    pass, after := UndoneComesBack(env, w.history, w.ring, w.store, NodesOf(u, v, at), map[], GroupOf(u), at);
  }

  /* ---------- The run ---------- */

  /** The put of u with its last shard lost. */
  ghost function Broken(env: Env, w: World, u: Upload): World
    requires FittingUpload(u) && u.nodes != []
  {
    var done := AfterPut(env, w, u);
    done.(store := done.store - {Locations(u)[Last(u)]})
  }

  ghost function LateTarget(u: Upload, target: string): Location
    requires u.nodes != []
  {
    Location(target, ShardKey(u.put.objectId, u.token, Last(u)))
  }

  function LateShard(env: Env, u: Upload, time: nat): StoredShard
    requires FittingUpload(u) && u.nodes != []
  {
    StoredShard(Manifest(u.put.objectId, u.token, MetaOf(env, u.put), time), PutShard(env, u.put, Last(u)))
  }

  function RepairOp(env: Env, u: Upload, snap: Snapshot, target: string, done: set<nat>): Op
    requires FittingUpload(u) && u.nodes != []
  {
    RepairWriting(snap, map[Last(u) := PutShard(env, u.put, Last(u))], map[Last(u) := target], done)
  }

  /** The world in which the repair has written its shard. */
  ghost function LateWritten(env: Env, before: World, op: nat, u: Upload, snap: Snapshot, target: string, time: nat): World
    requires FittingUpload(u) && u.nodes != []
  {
    SetOp(before, op, RepairOp(env, u, snap, target, {Last(u)})).(store := before.store[LateTarget(u, target) := LateShard(env, u, time)])
  }

  lemma RepairWriteStep(env: Env, before: World, op: nat, u: Upload, snap: Snapshot, target: string, time: nat)
    requires FittingUpload(u) && u.nodes != [] && op in before.ops && before.ops[op] == RepairOp(env, u, snap, target, {})
    requires snap.id == u.put.objectId && snap.row.meta == MetaOf(env, u.put) && snap.row.locations == Locations(u)
    ensures Enabled(env, before, RepairWrite(op, Last(u), time))
    ensures Apply(env, before, RepairWrite(op, Last(u), time)) == LateWritten(env, before, op, u, snap, target, time)
  {
    UploadLocation(u, 0);
    var done: set<nat> := {};
    assert done + {Last(u)} == {Last(u)};
    hide MetaOf, PutShard, Locations;
  }

  /** v was put while the repair of u waited to write. */
  ghost function Overwritten(env: Env, w: World, op: nat, u: Upload, v: Upload, target: string): World
    requires CanBegin(w, u) && FittingUpload(v)
  {
    AfterPut(env, Waiting(env, Broken(env, w, u), op, u, target), v)
  }

  ghost function Late(env: Env, w: World, op: nat, u: Upload, v: Upload, target: string, time: nat): World
    requires CanBegin(w, u) && FittingUpload(v)
  {
    LateWritten(env, Overwritten(env, w, op, u, v, target), op, u, Snap(Broken(env, w, u), u), target, time)
  }

  /** The store with u put and its last shard lost. */
  lemma {:induction false} BrokenStore(env: Env, store: ShardStore, u: Upload)
    requires FittingUpload(u) && u.nodes != []
    ensures var broken := Uploaded(env, store, u, |u.nodes|) - {Locations(u)[Last(u)]};
      && Locations(u)[Last(u)] !in broken
      && forall i :: 0 <= i < Last(u) ==> Locations(u)[i] in broken && broken[Locations(u)[i]].shard == PutShard(env, u.put, i)
  {
    UploadedShards(env, store, u, |u.nodes|);
    ShardsStored(env, u);
    hide Uploaded, PutStored, Locations, PutShard;
    forall i | 0 <= i < |u.nodes| {
      UploadLocation(u, i);
    }
  }

  lemma ShardsStored(env: Env, u: Upload)
    requires |u.nodes| == u.put.spec.Total()
    ensures forall i :: 0 <= i < |u.nodes| ==> PutStored(env, u.token, u.put, u.writtenAt, i).shard == PutShard(env, u.put, i)
  {
  }

  lemma LoseLast(env: Env, w: World, u: Upload)
    requires CanBegin(w, u)
    ensures Enabled(env, AfterPut(env, w, u), LoseShard(Locations(u)[Last(u)]))
    ensures Apply(env, AfterPut(env, w, u), LoseShard(Locations(u)[Last(u)])) == Broken(env, w, u)
  {
    UploadedShards(env, w.store, u, |u.nodes|);
    hide Uploaded, PutStored, Locations, PutRow, MetaOf;
  }

  lemma BrokenFacts(env: Env, w: World, u: Upload)
    requires CanBegin(w, u)
    ensures LastLost(env, Broken(env, w, u), u)
  {
    BrokenStore(env, w.store, u);
    assert w.ring[w.active] in w.ring.Values;
    hide Uploaded, Locations, PutShard, MetaOf;
  }

  lemma LateWriteStep(env: Env, w: World, op: nat, u: Upload, v: Upload, target: string, time: nat)
    requires CanBegin(w, u) && FittingUpload(v)
    ensures Enabled(env, Overwritten(env, w, op, u, v, target), RepairWrite(op, Last(u), time))
    ensures Apply(env, Overwritten(env, w, op, u, v, target), RepairWrite(op, Last(u), time)) == Late(env, w, op, u, v, target, time)
  {
    hide Uploaded, MetaOf, PutShard, Locations, Enabled, Apply, LateWritten;
    RepairWriteStep(env, Overwritten(env, w, op, u, v, target), op, u, Snap(Broken(env, w, u), u), target, time);
  }

  /** Put u, lose a shard, repair up to the write, put v, and then write. */
  lemma LateRun(env: Env, w: World, op: nat, other: nat, u: Upload, v: Upload, target: string, time: nat)
    returns (worlds: seq<World>, steps: seq<Step>)
    requires op !in w.ops && other !in w.ops && op != other && CanFollow(w, [u, v], u.put.objectId)
    ensures CanBegin(w, u) && FittingUpload(v) && u.token != v.token
    ensures Leads(env, worlds, steps, w, Late(env, w, op, u, v, target, time))
  {
    BothCanBegin(env, w, u, v);
    BrokenFacts(env, w, u);
    LoseLast(env, w, u);
    LateWriteStep(env, w, op, u, v, target, time);
    var broken := Broken(env, w, u);
    var waiting := Waiting(env, broken, op, u, target);
    assert CanBegin(waiting, v) && broken.ops == w.ops && other !in waiting.ops;
    assert AfterPut(env, waiting, v) == Overwritten(env, w, op, u, v, target);
    hide Leads, Enabled, Apply, AfterPut, Broken, Waiting, Late, CanBegin, LastLost, CanFollow, Overwritten;
    worlds, steps := PutRun(env, w, op, u);
    worlds, steps := OneMore(env, worlds, steps, w, AfterPut(env, w, u), LoseShard(Locations(u)[Last(u)]));
    var b, t := WaitRun(env, broken, op, u, target);
    worlds, steps := Joined(env, worlds, steps, b, t, w, broken, waiting);
    b, t := PutRun(env, waiting, other, v);
    worlds, steps := Joined(env, worlds, steps, b, t, w, waiting, AfterPut(env, waiting, v));
    worlds, steps := OneMore(env, worlds, steps, w, AfterPut(env, waiting, v), RepairWrite(op, Last(u), time));
  }

  lemma BrokenGroups(env: Env, w: World, u: Upload)
    requires CanBegin(w, u) && Unstored(w.store, u.put.objectId)
    ensures forall at :: at in Broken(env, w, u).store && at.key.objectId == u.put.objectId ==> IdOf(at.key) == GroupOf(u)
  {
    UploadGroups(env, w.store, u, |u.nodes|, {});
    hide Uploaded, Locations;
  }

  /** The store after v was put over the broken u. */
  lemma {:induction false} OverwrittenStore(env: Env, store: ShardStore, u: Upload, v: Upload)
    requires FittingUpload(u) && u.nodes != [] && FittingUpload(v) && u.put.objectId == v.put.objectId && u.token != v.token
    requires forall i :: 0 <= i < Last(u) ==> Locations(u)[i] in store
    requires forall at :: at in store && at.key.objectId == u.put.objectId ==> IdOf(at.key) == GroupOf(u)
    ensures var after := Uploaded(env, store, v, |v.nodes|);
      && HoldsUpload(env, after, v, |v.nodes|)
      && (forall at :: at in after && at.key.objectId == u.put.objectId ==> IdOf(at.key) in {GroupOf(u), GroupOf(v)})
      && (forall i :: 0 <= i < Last(u) ==> Locations(u)[i] in after)
  {
    NewUpload(env, store, v, |v.nodes|);
    UploadGroups(env, store, v, |v.nodes|, {GroupOf(u)});
    UploadedShards(env, store, v, |v.nodes|);
    hide Uploaded, PutStored, Locations, HoldsUpload;
    forall i | 0 <= i < |u.nodes| {
      UploadLocation(u, i);
    }
  }

  /** One more shard of u, stamped later, leaves v as it is. */
  lemma LateShardStored(env: Env, store: ShardStore, u: Upload, v: Upload, target: string, time: nat)
    requires FittingUpload(u) && u.nodes != [] && FittingUpload(v) && u.put.objectId == v.put.objectId && u.token != v.token && v.writtenAt < time
    requires HoldsUpload(env, store, v, |v.nodes|)
    requires forall at :: at in store && at.key.objectId == u.put.objectId ==> IdOf(at.key) in {GroupOf(u), GroupOf(v)}
    requires forall i :: 0 <= i < Last(u) ==> Locations(u)[i] in store
    ensures LateStore(env, store[LateTarget(u, target) := LateShard(env, u, time)], u, v, LateTarget(u, target), time)
  {
    hide PutStored, Locations, MetaOf, PutShard;
    forall i | 0 <= i < |v.nodes| {
      UploadLocation(v, i);
    }
  }

  /** What is stored after the run. */
  lemma LateStored(env: Env, w: World, op: nat, u: Upload, v: Upload, target: string, time: nat)
    requires CanBegin(w, u) && FittingUpload(v) && Unstored(w.store, u.put.objectId)
    requires u.put.objectId == v.put.objectId && u.token != v.token && v.writtenAt < time
    ensures LateStore(env, Late(env, w, op, u, v, target, time).store, u, v, LateTarget(u, target), time)
  {
    var broken := Broken(env, w, u).store;
    BrokenFacts(env, w, u);
    BrokenGroups(env, w, u);
    assert Overwritten(env, w, op, u, v, target).store == Uploaded(env, broken, v, |v.nodes|);
    hide Uploaded, Locations, MetaOf, PutShard, Broken, HoldsUpload, LateStore, LateShard, Overwritten;
    OverwrittenStore(env, broken, u, v);
    LateShardStored(env, Uploaded(env, broken, v, |v.nodes|), u, v, target, time);
  }

  /** The row is v's, at the next version. */
  lemma OverwrittenRow(env: Env, w: World, op: nat, u: Upload, v: Upload, target: string)
    requires CanBegin(w, u) && FittingUpload(v) && u.put.objectId == v.put.objectId
    ensures RowOfUpload(env, Overwritten(env, w, op, u, v, target), v)
    ensures var before := Snap(Broken(env, w, u), u).row.version;
      Overwritten(env, w, op, u, v, target).catalog[u.put.objectId].version == before + 1
  {
    hide Uploaded, MetaOf, PutShard, Locations;
  }

  lemma FencedOff(env: Env, last: World, op: nat, u: Upload, snap: Snapshot, target: string)
    requires FittingUpload(u) && u.nodes != [] && op in last.ops && last.ops[op] == RepairOp(env, u, snap, target, {Last(u)})
    requires snap.row.locations != [] && snap.id in last.catalog && last.catalog[snap.id].version == snap.row.version + 1
    ensures Enabled(env, last, RepairCommit(op)) && !CommitSucceeds(last, RepairCommit(op))
  {
    var targets: map<nat, string> := map[Last(u) := target];
    assert targets.Keys == {Last(u)};
    hide PutShard;
  }

  lemma LateCatalog(env: Env, w: World, op: nat, u: Upload, v: Upload, target: string, time: nat)
    requires CanBegin(w, u) && FittingUpload(v) && u.put.objectId == v.put.objectId
    ensures var last := Late(env, w, op, u, v, target, time);
      RowOfUpload(env, last, v) && Enabled(env, last, RepairCommit(op)) && !CommitSucceeds(last, RepairCommit(op))
  {
    OverwrittenRow(env, w, op, u, v, target);
    hide Enabled, Overwritten, Uploaded, MetaOf, PutShard, CommitSucceeds, RepairOp, Locations;
    FencedOff(env, Late(env, w, op, u, v, target, time), op, u, Snap(Broken(env, w, u), u), target);
  }

  lemma LateHistory(env: Env, w: World, op: nat, u: Upload, v: Upload, target: string, time: nat)
    requires CanBegin(w, u) && FittingUpload(v) && u.token != v.token
    ensures var h := Late(env, w, op, u, v, target, time).history;
      u.token in h.puts && h.puts[u.token] == u.put
  {
    hide Uploaded, MetaOf, PutShard, Locations;
  }

  /**
   An overwritten put comes back: in any reachable world with nothing of the object stored, for any
   two puts of it, the run in which a repair of the first restores a shard, the second overwrites the
   row, and the repair then writes its shard and is fenced off. The row names the second put, both
   are reconstructable, and a rebuild from all nodes makes a row that names the first.
   */
  lemma OverwrittenPutComesBack(env: Env, w: World, op: nat, other: nat, u: Upload, v: Upload, target: string, time: nat)
    returns (worlds: seq<World>, steps: seq<Step>, last: World, pass: Pass, after: Catalog<Location>)
    requires Inv(env, w) && (forall data :: env.checksum(data) != "") && Unstored(w.store, u.put.objectId)
    requires op !in w.ops && other !in w.ops && op != other && CanFollow(w, [u, v], u.put.objectId) && v.writtenAt < time
    ensures Leads(env, worlds, steps, w, last) && RowOfUpload(env, last, v) && HoldsUpload(env, last.store, v, |v.nodes|)
    ensures Enabled(env, last, RepairCommit(op)) && !CommitSucceeds(last, RepairCommit(op))
    ensures AllNodes(pass, u, v) && Rebuilds(last.store, pass, map[], after)
    ensures u.put.objectId in after && NamesVersion(env, last.history, after[u.put.objectId], u.token)
  {
    BothCanBegin(env, w, u, v);
    hide Inv, Leads, Enabled, CommitSucceeds, RowOfUpload, NamesVersion, Rebuilds, AllNodes, CanFollow, CanBegin, Late, HoldsUpload;
    worlds, steps := LateRun(env, w, op, other, u, v, target, time);
    last := Late(env, w, op, u, v, target, time);
    LeadsKeepsInvariant(env, worlds, steps, w, last);
    LateStored(env, w, op, u, v, target, time);
    LateCatalog(env, w, op, u, v, target, time);
    LateHistory(env, w, op, u, v, target, time);
    pass, after := LateStampComesBack(env, last, u, v, LateTarget(u, target), time);
  }
}
