/**
 Runs that exist: a put, a remove, a reading and a move that nothing disturbs.

 Each is given with exactly the world it leaves, from any world in which it can
 begin, so that runs can be put together and facts about the world they end in
 read off its definition. A remove is the one whose requests to the nodes all
 fail, and a move that of the row's first shard.
 */
module Runs {
  import opened ErasureCodec
  import opened MetadataStore
  import opened Shards
  import opened History
  import opened Protocol

  /* ---------- Putting ---------- */

  function Below(n: nat): set<nat> {
    if n == 0 then {} else Below(n - 1) + {n - 1}
  }

  lemma {:induction false} BelowMembers(n: nat)
    ensures forall i: nat :: i in Below(n) <==> i < n
  {
    if n > 0 {
      BelowMembers(n - 1);
    }
  }

  /** What a put writes, apart from where the object's row will be. */
  datatype Upload = Upload(token: string, put: PutRecord, writtenAt: nat, nodes: seq<string>)

  /** The put can begin in this world, under its active key and with a fresh token and DEK. */
  ghost predicate CanBegin(w: World, u: Upload) {
    && w.active in w.ring && u.put.key == w.ring[w.active] && u.put.kekId == w.active
    && u.put.objectId != "" && u.put.data != [] && Fits(u.put.data, u.put.spec) && |u.nodes| == u.put.spec.Total()
    && u.token !in w.history.puts && u.put.dek !in w.history.deks
  }

  function Locations(u: Upload): (locations: seq<Location>)
    ensures |locations| == |u.nodes|
  {
    PutLocations(u.put.objectId, u.token, u.nodes)
  }

  /** The store with the first n shards of the put. */
  function Uploaded(env: Env, store: ShardStore, u: Upload, n: nat): ShardStore
    requires n <= |u.nodes| == u.put.spec.Total()
  {
    if n == 0 then store
    else Uploaded(env, store, u, n - 1)[Locations(u)[n - 1] := PutStored(env, u.token, u.put, u.writtenAt, n - 1)]
  }

  function Recorded(h: History, u: Upload): History {
    History(h.puts[u.token := u.put], h.deks[u.put.dek := u.token])
  }

  function Writing(u: Upload, n: nat): Op {
    Putting(u.token, u.put, u.writtenAt, u.nodes, Below(n))
  }

  /** The world when the put has written its first n shards. */
  ghost function Underway(env: Env, w: World, op: nat, u: Upload, n: nat): World
    requires n <= |u.nodes| == u.put.spec.Total()
  {
    w.(store := Uploaded(env, w.store, u, n), history := Recorded(w.history, u), ops := w.ops[op := Writing(u, n)])
  }

  /** The world when the put has completed. */
  ghost function AfterPut(env: Env, w: World, u: Upload): World
    requires |u.nodes| == u.put.spec.Total()
  {
    w.(store := Uploaded(env, w.store, u, |u.nodes|), history := Recorded(w.history, u),
       catalog := PutRow(w.catalog, u.put.objectId, MetaOf(env, u.put), Locations(u)))
  }

  lemma BeginStep(env: Env, w: World, op: nat, u: Upload) returns (s: Step)
    requires op !in w.ops && CanBegin(w, u)
    ensures Enabled(env, w, s) && Apply(env, w, s) == Underway(env, w, op, u, 0)
  {
    s := PutBegin(op, u.put.objectId, u.put.data, u.put.spec, u.token, u.put.dek, u.writtenAt, u.nodes);
  }

  lemma WriteStep(env: Env, w: World, op: nat, u: Upload, n: nat)
    requires n < |u.nodes| == u.put.spec.Total()
    ensures var before := Underway(env, w, op, u, n);
      Enabled(env, before, PutWrite(op, n)) && Apply(env, before, PutWrite(op, n)) == Underway(env, w, op, u, n + 1)
  {
    hide PutStored;
  }

  lemma CommitStep(env: Env, w: World, op: nat, u: Upload)
    requires op !in w.ops && |u.nodes| == u.put.spec.Total()
    ensures var before := Underway(env, w, op, u, |u.nodes|);
      Enabled(env, before, PutCommit(op)) && Apply(env, before, PutCommit(op)) == AfterPut(env, w, u)
  {
    hide Uploaded, PutRow, MetaOf;
    BelowMembers(|u.nodes|);
    assert w.ops[op := Writing(u, |u.nodes|)] - {op} == w.ops;
  }

  /** A put up to its first n shards. */
  lemma {:induction false} UploadRun(env: Env, w: World, op: nat, u: Upload, n: nat) returns (worlds: seq<World>, steps: seq<Step>)
    requires op !in w.ops && CanBegin(w, u) && n <= |u.nodes|
    ensures Leads(env, worlds, steps, w, Underway(env, w, op, u, n)) && |steps| == n + 1
  {
    hide Enabled, Apply, Leads, Underway;
    if n == 0 {
      var s := BeginStep(env, w, op, u);
      worlds, steps := NoSteps(env, w);
      worlds, steps := OneMore(env, worlds, steps, w, w, s);
    } else {
      worlds, steps := UploadRun(env, w, op, u, n - 1);
      WriteStep(env, w, op, u, n - 1);
      worlds, steps := OneMore(env, worlds, steps, w, Underway(env, w, op, u, n - 1), PutWrite(op, n - 1));
    }
  }

  /** A whole put: all its shards are stored, and the row names them. */
  lemma PutRun(env: Env, w: World, op: nat, u: Upload) returns (worlds: seq<World>, steps: seq<Step>)
    requires op !in w.ops && CanBegin(w, u)
    ensures Leads(env, worlds, steps, w, AfterPut(env, w, u)) && |steps| == |u.nodes| + 2
  {
    hide Enabled, Apply, Leads, Underway;
    worlds, steps := UploadRun(env, w, op, u, |u.nodes|);
    CommitStep(env, w, op, u);
    worlds, steps := OneMore(env, worlds, steps, w, Underway(env, w, op, u, |u.nodes|), PutCommit(op));
  }

  /** The put's shards are at their locations, and no other shard has changed. */
  lemma {:induction false} UploadedShards(env: Env, store: ShardStore, u: Upload, n: nat)
    requires n <= |u.nodes| == u.put.spec.Total()
    ensures var after := Uploaded(env, store, u, n);
      && (forall i :: 0 <= i < n ==> Locations(u)[i] in after && after[Locations(u)[i]] == PutStored(env, u.token, u.put, u.writtenAt, i))
      && (forall at :: at in after ==> at in store || exists i :: 0 <= i < n && at == Locations(u)[i])
      && (forall at :: at in store && at.key.version != u.token ==> at in after && after[at] == store[at])
  {
    hide PutStored;
    if n > 0 {
      UploadedShards(env, store, u, n - 1);
    }
  }

  /* ---------- Reading, removing, moving ---------- */

  ghost function ReadRow(w: World, id: string): Snapshot
    requires id in w.catalog
  {
    Snapshot(id, w.catalog[id], w.catalog[id], |w.removed|)
  }

  /** Both SELECTs, with nothing in between. */
  lemma SelectRun(env: Env, w: World, op: nat, purpose: Purpose, id: string) returns (worlds: seq<World>, steps: seq<Step>)
    requires op !in w.ops && id in w.catalog
    ensures Leads(env, worlds, steps, w, SetOp(w, op, AfterSelect(purpose, ReadRow(w, id))))
    ensures steps == [SelectRow(op, purpose, id), SelectLocations(op)]
  {
    hide AfterSelect;
    var w1 := Apply(env, w, SelectRow(op, purpose, id));
    var w2 := Apply(env, w1, SelectLocations(op));
    assert w2.ops == w.ops[op := w2.ops[op]];
    worlds, steps := [w, w1, w2], [SelectRow(op, purpose, id), SelectLocations(op)];
  }

  ghost function AfterRemove(w: World, id: string): World {
    w.(catalog := RemoveRow(w.catalog, id), removed := w.removed + [id])
  }

  lemma RemoveStep(env: Env, w: World, op: nat, id: string)
    requires op !in w.ops && id in w.catalog
    ensures var before := SetOp(w, op, Removing(ReadRow(w, id)));
      Enabled(env, before, RemoveCommit(op)) && Apply(env, before, RemoveCommit(op)) == AfterRemove(w, id)
  {
    hide RemoveRow;
    assert w.ops[op := Removing(ReadRow(w, id))] - {op} == w.ops;
  }

  /** A remove whose requests to the nodes all fail: the row goes, the shards stay. */
  lemma RemoveRun(env: Env, w: World, op: nat, id: string) returns (worlds: seq<World>, steps: seq<Step>)
    requires op !in w.ops && id in w.catalog
    ensures Leads(env, worlds, steps, w, AfterRemove(w, id)) && |steps| == 3
  {
    hide Enabled, Apply, Leads, AfterRemove;
    var before := SetOp(w, op, Removing(ReadRow(w, id)));
    worlds, steps := SelectRun(env, w, op, ForRemove, id);
    RemoveStep(env, w, op, id);
    worlds, steps := OneMore(env, worlds, steps, w, before, RemoveCommit(op));
  }

  /** A rebalance that has read its row and moved nothing yet. */
  function Fresh(snap: Snapshot): Op {
    Moving(snap, map[], map[], {})
  }

  /** The rebalance with the first shard planned for a target, and whether it has been written. */
  function FirstMove(snap: Snapshot, target: string, copy: StoredShard, written: bool): Op {
    Moving(snap, map[0 := target], map[0 := copy], if written then {0} else {})
  }

  ghost predicate FullRow(snap: Snapshot) {
    0 < |snap.row.locations| == snap.row.meta.erasure.Total()
  }

  ghost function MovedFirst(w: World, op: nat, snap: Snapshot, target: string): World
    requires FullRow(snap) && snap.row.locations[0] in w.store
  {
    var copy := w.store[snap.row.locations[0]];
    SetOp(w, op, FirstMove(snap, target, copy, true)).(store := w.store[Location(target, snap.row.locations[0].key) := copy])
  }

  lemma MoveFetchStep(env: Env, w: World, op: nat, snap: Snapshot, target: string)
    requires op in w.ops && w.ops[op] == Fresh(snap) && FullRow(snap) && snap.row.locations[0] in w.store
    ensures Enabled(env, w, MoveFetch(op, 0, target))
    ensures Apply(env, w, MoveFetch(op, 0, target)) == SetOp(w, op, FirstMove(snap, target, w.store[snap.row.locations[0]], false))
  {
  }

  lemma MoveWriteStep(env: Env, w: World, op: nat, snap: Snapshot, target: string)
    requires FullRow(snap) && snap.row.locations[0] in w.store
    ensures var before := SetOp(w, op, FirstMove(snap, target, w.store[snap.row.locations[0]], false));
      Enabled(env, before, MoveWrite(op, 0)) && Apply(env, before, MoveWrite(op, 0)) == MovedFirst(w, op, snap, target)
  {
    var before := SetOp(w, op, FirstMove(snap, target, w.store[snap.row.locations[0]], false));
    assert FirstMove(snap, target, w.store[snap.row.locations[0]], false).done + {0} == {0};
    assert Apply(env, before, MoveWrite(op, 0)).ops == MovedFirst(w, op, snap, target).ops;
  }

  lemma MoveCommitEnabled(env: Env, w: World, op: nat, snap: Snapshot, target: string)
    requires FullRow(snap) && snap.row.locations[0] in w.store
    ensures Enabled(env, MovedFirst(w, op, snap, target), MoveCommit(op))
  {
    var targets: map<nat, string> := map[0 := target];
    assert 0 in targets && targets.Keys == {0};
  }

  /** The first shard is copied and written; the commit is next. */
  lemma MoveRun(env: Env, w: World, op: nat, snap: Snapshot, target: string) returns (worlds: seq<World>, steps: seq<Step>)
    requires op in w.ops && w.ops[op] == Fresh(snap) && FullRow(snap) && snap.row.locations[0] in w.store
    ensures Leads(env, worlds, steps, w, MovedFirst(w, op, snap, target))
    ensures steps == [MoveFetch(op, 0, target), MoveWrite(op, 0)]
    ensures Enabled(env, MovedFirst(w, op, snap, target), MoveCommit(op))
  {
    MoveCommitEnabled(env, w, op, snap, target);
    hide Enabled, Apply, Leads, MovedFirst, Fresh, FirstMove;
    worlds, steps := NoSteps(env, w);
    MoveFetchStep(env, w, op, snap, target);
    worlds, steps := OneMore(env, worlds, steps, w, w, MoveFetch(op, 0, target));
    MoveWriteStep(env, w, op, snap, target);
    worlds, steps := OneMore(env, worlds, steps, w,
                             SetOp(w, op, FirstMove(snap, target, w.store[snap.row.locations[0]], false)), MoveWrite(op, 0));
  }
}
