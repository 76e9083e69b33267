/** A rebalance, a remove, a degraded get and a rotation that nothing disturbs, each with the world it leaves. */
module MoveRuns {
  import opened Wrappers
  import opened Collections
  import opened ErasureCodec
  import opened ErasureDecode
  import opened KeyRing
  import opened MetadataStore
  import opened ShardKeys
  import opened Shards
  import opened Protocol
  import opened Runs
  import opened RebuildRuns
  import opened RepairRuns
  import opened PutThenGet

  /* ---------- A rebalance of any shards ---------- */

  /** The object's row is the put's, and the shards to be moved are where it says. */
  ghost predicate CanMoveThese(env: Env, w: World, u: Upload, targets: map<nat, string>) {
    && FittingUpload(u) && RowOfUpload(env, w, u)
    && targets != map[] && forall i :: i in targets ==> i < |u.nodes| && Locations(u)[i] in w.store
  }

  /** The targets of the first j shards. */
  function TargetsFront(targets: map<nat, string>, j: nat): map<nat, string> {
    map i | i in targets && i < j :: targets[i]
  }

  /** Their copies. */
  function CopiesFront(store: ShardStore, u: Upload, targets: map<nat, string>, j: nat): map<nat, StoredShard> {
    map i | i in targets && i < j && i < |u.nodes| && Locations(u)[i] in store :: store[Locations(u)[i]]
  }

  /** The rebalance has read the moving ones of the first j shards. */
  ghost function Copying(w: World, op: nat, u: Upload, targets: map<nat, string>, j: nat): World
    requires u.put.objectId in w.catalog
  {
    SetOp(w, op, Moving(Read(w, u), TargetsFront(targets, j), CopiesFront(w.store, u, targets, j), {}))
  }

  lemma FetchAt(env: Env, w: World, op: nat, snap: Snapshot, targets: map<nat, string>, copies: map<nat, StoredShard>, i: nat, target: string)
    requires op in w.ops && w.ops[op] == Moving(snap, targets, copies, {}) && i !in targets
    requires i < |snap.row.locations| == snap.row.meta.erasure.Total() && snap.row.locations[i] in w.store
    ensures Enabled(env, w, MoveFetch(op, i, target))
    ensures Apply(env, w, MoveFetch(op, i, target)) ==
      SetOp(w, op, Moving(snap, targets[i := target], copies[i := w.store[snap.row.locations[i]]], {}))
  {
  }

  lemma FrontsOneMore(store: ShardStore, u: Upload, targets: map<nat, string>, j: nat)
    ensures TargetsFront(targets, j + 1) == if j in targets then TargetsFront(targets, j)[j := targets[j]] else TargetsFront(targets, j)
    ensures j in targets && j < |u.nodes| && Locations(u)[j] in store ==>
      CopiesFront(store, u, targets, j + 1) == CopiesFront(store, u, targets, j)[j := store[Locations(u)[j]]]
    ensures j !in targets ==> CopiesFront(store, u, targets, j + 1) == CopiesFront(store, u, targets, j)
    ensures j !in TargetsFront(targets, j)
  {
    hide Locations;
  }

  lemma CopyStep(env: Env, w: World, op: nat, u: Upload, targets: map<nat, string>, j: nat)
    requires CanMoveThese(env, w, u, targets) && j < |u.nodes| && j in targets
    ensures var before, s := Copying(w, op, u, targets, j), MoveFetch(op, j, targets[j]);
      Enabled(env, before, s) && Apply(env, before, s) == Copying(w, op, u, targets, j + 1)
  {
    hide Enabled, Apply, TargetsFront, CopiesFront, Locations;
    ReadRowOf(env, w, u);
    FrontsOneMore(w.store, u, targets, j);
    FetchAt(env, Copying(w, op, u, targets, j), op, Read(w, u), TargetsFront(targets, j), CopiesFront(w.store, u, targets, j), j, targets[j]);
  }

  lemma NothingCopied(w: World, op: nat, u: Upload, targets: map<nat, string>, j: nat)
    requires u.put.objectId in w.catalog && j !in targets
    ensures Copying(w, op, u, targets, j) == Copying(w, op, u, targets, j + 1)
  {
    FrontsOneMore(w.store, u, targets, j);
    hide TargetsFront, CopiesFront;
  }

  lemma {:induction false} CopyingRun(env: Env, w: World, op: nat, u: Upload, targets: map<nat, string>, j: nat)
    returns (worlds: seq<World>, steps: seq<Step>)
    requires CanMoveThese(env, w, u, targets) && j <= |u.nodes|
    ensures Leads(env, worlds, steps, Copying(w, op, u, targets, 0), Copying(w, op, u, targets, j))
  {
    hide Leads, Enabled, Apply, MetaOf, Locations, TargetsFront, CopiesFront, ReadRow;
    var first := Copying(w, op, u, targets, 0);
    if j == 0 {
      worlds, steps := NoSteps(env, first);
    } else {
      worlds, steps := CopyingRun(env, w, op, u, targets, j - 1);
      if j - 1 in targets {
        CopyStep(env, w, op, u, targets, j - 1);
        worlds, steps := OneMore(env, worlds, steps, first, Copying(w, op, u, targets, j - 1), MoveFetch(op, j - 1, targets[j - 1]));
      } else {
        NothingCopied(w, op, u, targets, j - 1);
      }
    }
  }

  /** The store when the moving ones of the first j shards have been written; what is copied is what was read. */
  function Copied(store: ShardStore, u: Upload, targets: map<nat, string>, j: nat): ShardStore {
    if j == 0 then store
    else
      var before := Copied(store, u, targets, j - 1);
      if j - 1 in targets && j - 1 < |u.nodes| && Locations(u)[j - 1] in store
      then before[TargetOf(u, targets, j - 1) := store[Locations(u)[j - 1]]]
      else before
  }

  ghost function Moved(w: World, op: nat, u: Upload, targets: map<nat, string>, j: nat): World
    requires u.put.objectId in w.catalog
  {
    SetOp(w, op, Moving(Read(w, u), targets, CopiesFront(w.store, u, targets, |u.nodes|), Front(targets.Keys, j))).(
      store := Copied(w.store, u, targets, j))
  }

  lemma CopyAt(env: Env, w: World, op: nat, snap: Snapshot, targets: map<nat, string>, copies: map<nat, StoredShard>, done: set<nat>, i: nat)
    requires op in w.ops && w.ops[op] == Moving(snap, targets, copies, done) && i in targets && i in copies && i < |snap.row.locations|
    ensures Enabled(env, w, MoveWrite(op, i))
    ensures Apply(env, w, MoveWrite(op, i)) ==
      SetOp(w, op, Moving(snap, targets, copies, done + {i})).(
        store := w.store[Location(targets[i], snap.row.locations[i].key) := copies[i]])
  {
  }

  lemma {:induction false} CopyThere(store: ShardStore, u: Upload, targets: map<nat, string>, i: nat)
    requires i in targets && i < |u.nodes| && Locations(u)[i] in store
    ensures var copies := CopiesFront(store, u, targets, |u.nodes|);
      i in copies && copies[i] == store[Locations(u)[i]]
    ensures Copied(store, u, targets, i + 1) == Copied(store, u, targets, i)[TargetOf(u, targets, i) := store[Locations(u)[i]]]
  {
    hide Locations;
  }

  lemma MoveStep(env: Env, w: World, op: nat, u: Upload, targets: map<nat, string>, j: nat)
    requires CanMoveThese(env, w, u, targets) && j < |u.nodes| && j in targets
    ensures var before := Moved(w, op, u, targets, j);
      Enabled(env, before, MoveWrite(op, j)) && Apply(env, before, MoveWrite(op, j)) == Moved(w, op, u, targets, j + 1)
  {
    assert u.put.objectId in w.catalog;
    hide Enabled, Apply, CopiesFront, Copied, Locations, Front, RowOfUpload, Read, SetOp;
    var keys, copies := targets.Keys, CopiesFront(w.store, u, targets, |u.nodes|);
    UploadLocation(u, j);
    FrontOneMore(keys, j);
    ReadRowOf(env, w, u);
    CopyThere(w.store, u, targets, j);
    SetAndStore(w, op, Moving(Read(w, u), targets, copies, Front(keys, j)), Moving(Read(w, u), targets, copies, Front(keys, j + 1)),
                Copied(w.store, u, targets, j), Copied(w.store, u, targets, j + 1));
    CopyAt(env, Moved(w, op, u, targets, j), op, Read(w, u), targets, copies, Front(keys, j), j);
  }

  lemma NothingMoved(w: World, op: nat, u: Upload, targets: map<nat, string>, j: nat)
    requires u.put.objectId in w.catalog && j !in targets
    ensures Moved(w, op, u, targets, j) == Moved(w, op, u, targets, j + 1)
  {
    FrontOneMore(targets.Keys, j);
    hide Front, CopiesFront;
  }

  lemma {:induction false} MovingRun(env: Env, w: World, op: nat, u: Upload, targets: map<nat, string>, j: nat)
    returns (worlds: seq<World>, steps: seq<Step>)
    requires CanMoveThese(env, w, u, targets) && j <= |u.nodes|
    ensures Leads(env, worlds, steps, Moved(w, op, u, targets, 0), Moved(w, op, u, targets, j))
  {
    hide Leads, Enabled, Apply, MetaOf, Locations, CopiesFront, Copied, Front, ReadRow;
    var first := Moved(w, op, u, targets, 0);
    if j == 0 {
      worlds, steps := NoSteps(env, first);
    } else {
      worlds, steps := MovingRun(env, w, op, u, targets, j - 1);
      if j - 1 in targets {
        MoveStep(env, w, op, u, targets, j - 1);
        worlds, steps := OneMore(env, worlds, steps, first, Moved(w, op, u, targets, j - 1), MoveWrite(op, j - 1));
      } else {
        NothingMoved(w, op, u, targets, j - 1);
      }
    }
  }

  lemma AllCopied(env: Env, w: World, op: nat, u: Upload, targets: map<nat, string>)
    requires CanMoveThese(env, w, u, targets)
    ensures Copying(w, op, u, targets, |u.nodes|) == Moved(w, op, u, targets, 0)
  {
    assert TargetsFront(targets, |u.nodes|) == targets;
    NoFront(targets.Keys);
    hide CopiesFront, Locations, Front;
  }

  /** The world after the rebalance. */
  ghost function Rebalanced(env: Env, w: World, u: Upload, targets: map<nat, string>): World {
    w.(store := Copied(w.store, u, targets, |u.nodes|),
       catalog := PutRow(w.catalog, u.put.objectId, MetaOf(env, u.put), NewLocations(u, targets)))
  }

  lemma MoveCommitAt(env: Env, w: World, op: nat, snap: Snapshot, targets: map<nat, string>, copies: map<nat, StoredShard>)
    requires op in w.ops && w.ops[op] == Moving(snap, targets, copies, targets.Keys) && targets != map[]
    requires snap.id in w.catalog && w.catalog[snap.id].version == snap.row.version
    ensures Enabled(env, w, MoveCommit(op))
    ensures Apply(env, w, MoveCommit(op)) ==
      w.(ops := w.ops - {op}, catalog := PutRow(w.catalog, snap.id, snap.row.meta, MovedLocations(snap, targets)))
  {
    hide MovedLocations, PutRow;
  }

  lemma {:induction false} MovedThere(env: Env, w: World, u: Upload, targets: map<nat, string>)
    requires RowOfUpload(env, w, u)
    ensures MovedLocations(Read(w, u), targets) == NewLocations(u, targets)
  {
    ReadRowOf(env, w, u);
    var read := Read(w, u);
    hide RowOfUpload, Read, Locations;
    forall i: nat | i < |u.nodes| {
      UploadLocation(u, i);
    }
  }

  lemma MoveCommitStep(env: Env, w: World, op: nat, u: Upload, targets: map<nat, string>)
    requires op !in w.ops && CanMoveThese(env, w, u, targets)
    ensures var before := Moved(w, op, u, targets, |u.nodes|);
      Enabled(env, before, MoveCommit(op)) && Apply(env, before, MoveCommit(op)) == Rebalanced(env, w, u, targets)
  {
    FrontWhole(targets.Keys, |u.nodes|);
    MovedThere(env, w, u, targets);
    ReadRowOf(env, w, u);
    hide Enabled, Apply, MetaOf, Locations, Front, CopiesFront, Copied, MovedLocations, NewLocations;
    MoveCommitAt(env, Moved(w, op, u, targets, |u.nodes|), op, Read(w, u), targets, CopiesFront(w.store, u, targets, |u.nodes|));
    var o := Moved(w, op, u, targets, |u.nodes|).ops[op];
    assert w.ops[op := o] - {op} == w.ops;
  }

  lemma {:induction false} CopiedNext(store: ShardStore, u: Upload, targets: map<nat, string>, j: nat)
    requires j < |u.nodes| ==> forall i :: i in targets ==> i < |u.nodes| && Locations(u)[i] in store
    ensures Copied(store, u, targets, 0) == store
    ensures j < |u.nodes| ==>
      Copied(store, u, targets, j + 1) ==
      if j in targets then Copied(store, u, targets, j)[TargetOf(u, targets, j) := store[Locations(u)[j]]] else Copied(store, u, targets, j)
  {
    hide Locations, TargetOf;
  }

  /** What is at the targets is what was at the locations, and nothing else has changed. */
  lemma {:induction false} CopiedShards(store: ShardStore, u: Upload, targets: map<nat, string>, j: nat)
    requires j <= |u.nodes| && forall i :: i in targets ==> i < |u.nodes| && Locations(u)[i] in store
    ensures var after := Copied(store, u, targets, j);
      && (forall i :: i in targets && i < j ==> TargetOf(u, targets, i) in after && after[TargetOf(u, targets, i)] == store[Locations(u)[i]])
      && (forall at :: at in store && (forall i :: i in targets && i < j ==> at != TargetOf(u, targets, i)) ==> at in after && after[at] == store[at])
      && (forall at :: at in after ==> at in store || exists i :: i in targets && i < j && at == TargetOf(u, targets, i))
  {
    hide Locations, Copied, TargetOf;
    if j == 0 {
      assert Copied(store, u, targets, 0) == store by { CopiedNext(store, u, targets, 0); }
    } else {
      CopiedShards(store, u, targets, j - 1);
      CopiedNext(store, u, targets, j - 1);
      forall i | i in targets && i < j - 1 && j - 1 in targets
        ensures TargetOf(u, targets, i) != TargetOf(u, targets, j - 1)
      {
        TargetsApart(u, targets, i, j - 1);
      }
    }
  }

  /**
   A rebalance that nothing disturbs, for any non-empty set of shards that are there, and any
   targets: it ends with the row at its next version and every moved shard's location at its target
   under the key it had; the shard there is the one that was read, and no shard disappears.
   */
  lemma RebalanceRun(env: Env, w: World, op: nat, u: Upload, targets: map<nat, string>)
    returns (worlds: seq<World>, steps: seq<Step>, last: World)
    requires op !in w.ops && CanMoveThese(env, w, u, targets)
    ensures Leads(env, worlds, steps, w, last) && last.ops == w.ops
    ensures var id := u.put.objectId;
      && last.catalog.Keys == w.catalog.Keys && (forall x :: x in w.catalog && x != id ==> last.catalog[x] == w.catalog[x])
      && last.catalog[id].meta == w.catalog[id].meta && last.catalog[id].version == w.catalog[id].version + 1
      && |last.catalog[id].locations| == |u.nodes|
      && (forall i :: 0 <= i < |u.nodes| ==>
            last.catalog[id].locations[i] == Location(if i in targets then targets[i] else u.nodes[i], ShardKey(id, u.token, i)))
    ensures forall i :: i in targets ==>
      TargetOf(u, targets, i) in last.store && last.store[TargetOf(u, targets, i)] == w.store[Locations(u)[i]]
    ensures w.store.Keys <= last.store.Keys
  {
    last := Rebalanced(env, w, u, targets);
    RebalancedWorld(env, w, u, targets);
    assert u.put.objectId in w.catalog;
    hide Leads, Enabled, Apply, CanMoveThese, Moved, Rebalanced, Locations, Copying, AfterSelect;
    NothingYet(w, op, u, targets);
    AllCopied(env, w, op, u, targets);
    MoveCommitStep(env, w, op, u, targets);
    worlds, steps := SelectRun(env, w, op, ForRebalance, u.put.objectId);
    var b, t := CopyingRun(env, w, op, u, targets, |u.nodes|);
    worlds, steps := Joined(env, worlds, steps, b, t, w, Copying(w, op, u, targets, 0), Copying(w, op, u, targets, |u.nodes|));
    b, t := MovingRun(env, w, op, u, targets, |u.nodes|);
    worlds, steps := Joined(env, worlds, steps, b, t, w, Moved(w, op, u, targets, 0), Moved(w, op, u, targets, |u.nodes|));
    worlds, steps := OneMore(env, worlds, steps, w, Moved(w, op, u, targets, |u.nodes|), MoveCommit(op));
  }

  lemma NothingYet(w: World, op: nat, u: Upload, targets: map<nat, string>)
    requires u.put.objectId in w.catalog
    ensures SetOp(w, op, AfterSelect(ForRebalance, ReadRow(w, u.put.objectId))) == Copying(w, op, u, targets, 0)
  {
    hide Locations;
    assert TargetsFront(targets, 0) == map[] && CopiesFront(w.store, u, targets, 0) == map[];
  }

  /** What the rebalance leaves. */
  lemma RebalancedWorld(env: Env, w: World, u: Upload, targets: map<nat, string>)
    requires CanMoveThese(env, w, u, targets)
    ensures var last, id := Rebalanced(env, w, u, targets), u.put.objectId;
      && last.ops == w.ops
      && last.catalog.Keys == w.catalog.Keys && (forall x :: x in w.catalog && x != id ==> last.catalog[x] == w.catalog[x])
      && last.catalog[id].meta == w.catalog[id].meta && last.catalog[id].version == w.catalog[id].version + 1
      && |last.catalog[id].locations| == |u.nodes|
      && (forall i :: 0 <= i < |u.nodes| ==>
            last.catalog[id].locations[i] == Location(if i in targets then targets[i] else u.nodes[i], ShardKey(id, u.token, i)))
      && (forall i :: i in targets ==>
            TargetOf(u, targets, i) in last.store && last.store[TargetOf(u, targets, i)] == w.store[Locations(u)[i]])
      && w.store.Keys <= last.store.Keys
  {
    NewRow(env, w.catalog, u, targets);
    CopiedShards(w.store, u, targets, |u.nodes|);
    hide MetaOf, Locations, Copied, NewLocations, PutRow, TargetOf;
  }

  /* ---------- A remove that reaches every node ---------- */

  ghost function Deleted(w: World, op: nat, id: string, j: nat): World
    requires id in w.catalog && j <= |w.catalog[id].locations|
  {
    SetOp(w, op, Removing(ReadRow(w, id))).(store := w.store - Elems(w.catalog[id].locations[..j]))
  }

  lemma DeleteStep(env: Env, w: World, op: nat, id: string, j: nat)
    requires id in w.catalog && j < |w.catalog[id].locations|
    ensures var before := Deleted(w, op, id, j);
      Enabled(env, before, RemoveShard(op, j)) && Apply(env, before, RemoveShard(op, j)) == Deleted(w, op, id, j + 1)
  {
    var locations := w.catalog[id].locations;
    assert locations[..j + 1] == locations[..j] + [locations[j]];
    ElemsAppend(locations[..j], locations[j]);
    assert w.store - Elems(locations[..j + 1]) == (w.store - Elems(locations[..j])) - {locations[j]};
  }

  lemma {:induction false} DeletingRun(env: Env, w: World, op: nat, id: string, j: nat) returns (worlds: seq<World>, steps: seq<Step>)
    requires id in w.catalog && j <= |w.catalog[id].locations|
    ensures Leads(env, worlds, steps, Deleted(w, op, id, 0), Deleted(w, op, id, j))
  {
    hide Leads, Enabled, Apply, Deleted;
    if j == 0 {
      worlds, steps := NoSteps(env, Deleted(w, op, id, 0));
    } else {
      worlds, steps := DeletingRun(env, w, op, id, j - 1);
      DeleteStep(env, w, op, id, j - 1);
      worlds, steps := OneMore(env, worlds, steps, Deleted(w, op, id, 0), Deleted(w, op, id, j - 1), RemoveShard(op, j - 1));
    }
  }

  /**
   A remove that nothing disturbs and whose requests all arrive, from any world with a row: the
   row is gone, exactly the shards at its locations are gone, and everything else is as it was.
   */
  lemma RemoveAllRun(env: Env, w: World, op: nat, id: string) returns (worlds: seq<World>, steps: seq<Step>, last: World)
    requires op !in w.ops && id in w.catalog
    ensures Leads(env, worlds, steps, w, last) && last.ops == w.ops
    ensures last.catalog == w.catalog - {id} && last.removed == w.removed + [id]
    ensures forall at :: at in last.store <==> at in w.store && at !in w.catalog[id].locations
    ensures forall at :: at in last.store ==> last.store[at] == w.store[at]
  {
    var n := |w.catalog[id].locations|;
    assert w.catalog[id].locations[..n] == w.catalog[id].locations;
    last := w.(store := Deleted(w, op, id, n).store, catalog := w.catalog - {id}, removed := w.removed + [id]);
    var before := Deleted(w, op, id, n);
    assert SetOp(w, op, AfterSelect(ForRemove, ReadRow(w, id))) == Deleted(w, op, id, 0);
    assert Enabled(env, before, RemoveCommit(op)) && Apply(env, before, RemoveCommit(op)) == last by {
      assert w.ops[op := before.ops[op]] - {op} == w.ops;
    }
    hide Leads, Enabled, Apply, Deleted;
    var a, s := SelectRun(env, w, op, ForRemove, id);
    var b, t := DeletingRun(env, w, op, id, n);
    worlds, steps := Joined(env, a, s, b, t, w, Deleted(w, op, id, 0), before);
    worlds, steps := OneMore(env, worlds, steps, w, before, RemoveCommit(op));
  }

  /* ---------- A get with shards missing ---------- */

  /** The object's row is the put's, and the shards that are not lost are there. */
  ghost predicate Degraded(env: Env, w: World, u: Upload, lost: set<nat>) {
    && FittingUpload(u) && RowOfUpload(env, w, u)
    && forall i: nat :: i < |u.nodes| && i !in lost ==> Locations(u)[i] in w.store && w.store[Locations(u)[i]].shard == PutShard(env, u.put, i)
  }

  /** What is not lost of the first j shards has been fetched. */
  ghost function Gathering(env: Env, w: World, op: nat, u: Upload, lost: set<nat>, j: nat): World
    requires u.put.objectId in w.catalog && j <= u.put.spec.Total()
  {
    SetOp(w, op, Getting(Read(w, u), Below(j) - lost, Survivors(env, u.put, lost, j)))
  }

  lemma GetAt(env: Env, w: World, op: nat, snap: Snapshot, asked: set<nat>, fetched: seq<EncryptedShard>, i: nat)
    requires op in w.ops && w.ops[op] == Getting(snap, asked, fetched) && i !in asked
    requires i < |snap.row.locations| && snap.row.locations[i] in w.store
    ensures Enabled(env, w, GetFetch(op, i))
    ensures Apply(env, w, GetFetch(op, i)) ==
      SetOp(w, op, Getting(snap, asked + {i}, fetched + [w.store[snap.row.locations[i]].shard]))
  {
  }

  lemma {:induction false} GatherStep(env: Env, w: World, op: nat, u: Upload, lost: set<nat>, j: nat)
    requires Degraded(env, w, u, lost) && j < |u.nodes| && j !in lost
    ensures var before := Gathering(env, w, op, u, lost, j);
      Enabled(env, before, GetFetch(op, j)) && Apply(env, before, GetFetch(op, j)) == Gathering(env, w, op, u, lost, j + 1)
  {
    ReadRowOf(env, w, u);
    BelowMembers(j);
    assert Survivors(env, u.put, lost, j + 1) == Survivors(env, u.put, lost, j) + [PutShard(env, u.put, j)];
    assert Below(j + 1) - lost == (Below(j) - lost) + {j};
    hide Enabled, Apply, PutShard, Locations, Survivors, Below;
    GetAt(env, Gathering(env, w, op, u, lost, j), op, Read(w, u), Below(j) - lost, Survivors(env, u.put, lost, j), j);
  }

  lemma {:induction false} NothingGathered(env: Env, w: World, op: nat, u: Upload, lost: set<nat>, j: nat)
    requires FittingUpload(u) && u.put.objectId in w.catalog && j < |u.nodes| && j in lost
    ensures Gathering(env, w, op, u, lost, j) == Gathering(env, w, op, u, lost, j + 1)
  {
    assert Survivors(env, u.put, lost, j + 1) == Survivors(env, u.put, lost, j) + [] == Survivors(env, u.put, lost, j);
    hide PutShard, Survivors;
    assert Below(j + 1) - lost == Below(j) - lost;
  }

  lemma {:induction false} GatherRun(env: Env, w: World, op: nat, u: Upload, lost: set<nat>, j: nat) returns (worlds: seq<World>, steps: seq<Step>)
    requires Degraded(env, w, u, lost) && j <= |u.nodes|
    ensures Leads(env, worlds, steps, Gathering(env, w, op, u, lost, 0), Gathering(env, w, op, u, lost, j))
  {
    hide Leads, Enabled, Apply, MetaOf, PutShard, Locations, Survivors, Below, ReadRow;
    var first := Gathering(env, w, op, u, lost, 0);
    if j == 0 {
      worlds, steps := NoSteps(env, first);
    } else {
      worlds, steps := GatherRun(env, w, op, u, lost, j - 1);
      if j - 1 in lost {
        NothingGathered(env, w, op, u, lost, j - 1);
      } else {
        GatherStep(env, w, op, u, lost, j - 1);
        worlds, steps := OneMore(env, worlds, steps, first, Gathering(env, w, op, u, lost, j - 1), GetFetch(op, j - 1));
      }
    }
  }

  lemma FinishAt(env: Env, w: World, op: nat, snap: Snapshot, asked: set<nat>, fetched: seq<EncryptedShard>)
    requires op in w.ops && w.ops[op] == Getting(snap, asked, fetched)
    ensures Enabled(env, w, GetFinish(op))
    ensures Apply(env, w, GetFinish(op)) == SetOp(w, op, Got(snap.id, snap.row.meta, ReadOutcome(env, w.ring, snap.row.meta, fetched)))
  {
    hide ReadOutcome;
  }

  /** What survives opens, at the indices that are not lost. */
  lemma {:induction false} SurvivorsOpen(env: Env, p: PutRecord, lost: set<nat>, j: nat)
    requires j <= p.spec.Total()
    ensures OpenIndices(Survivors(env, p, lost, j), p.dek) == Below(j) - lost
    ensures forall q :: 0 <= q < |Survivors(env, p, lost, j)| ==> Genuine(env, p, Survivors(env, p, lost, j)[q])
  {
    hide CodeShard;
    if j > 0 {
      var es, front := Survivors(env, p, lost, j), Survivors(env, p, lost, j - 1);
      SurvivorsOpen(env, p, lost, j - 1);
      if j - 1 in lost {
        assert es == front + [] == front;
      } else {
        assert es == front + [PutShard(env, p, j - 1)] && es[..|es| - 1] == front;
        OpenOneMore(es, p.dek);
      }
    }
  }

  /** The k least positions that are not lost. */
  ghost predicate LeastKept(lost: set<nat>, n: nat, chosen: seq<nat>, k: nat) {
    && |chosen| == k && Ascending(chosen)
    && (forall j :: 0 <= j < k ==> chosen[j] < n && chosen[j] !in lost)
    && (k > 0 ==> forall i: nat :: i <= chosen[k - 1] && i !in lost ==> i in chosen)
  }

  /** What a read makes of the survivors, said of the library. */
  lemma {:induction false} SurvivorsRead(env: Env, ring: Ring, p: PutRecord, lost: set<nat>, chosen: seq<nat>)
    requires Fits(p.data, p.spec) && p.key in ring.Values && LeastKept(lost, p.spec.Total(), chosen, p.spec.dataShards)
    ensures var r := ReadOutcome(env, ring, MetaOf(env, p), Survivors(env, p, lost, p.spec.Total()));
      var inverted := env.isal.invert(ChosenRows(env.isal, p.spec, chosen));
      var dataKept := forall i: nat :: i < p.spec.dataShards ==> i !in lost;
      && (r == Ok(p.data) <==> inverted.Some? || dataKept)
      && (r == Err(CodecFailure(InversionFailed)) <==> inverted == None && !dataKept)
  {
    var n, k := p.spec.Total(), p.spec.dataShards;
    var es := Survivors(env, p, lost, n);
    SurvivorsOpen(env, p, lost, n);
    BelowMembers(n);
    assert OpenIndices(es, p.dek) == Indices(OpenAll(es, p.dek));
    hide ReadOutcome, Survivors, Genuine, OpenAll, Below, Indices, OpenIndices;
    assert LeastPresent(OpenAll(es, p.dek), chosen, k);
    ReadExactly(env, ring, p, es, chosen);
  }

  /**
   A get that nothing disturbs, of an object of which any shards are missing: it gives the data if
   and only if no data shard is missing or the library can invert the generator rows of the k least
   that are there, and the inversion error otherwise; with fewer than k there, the error for that.
   */
  lemma DegradedGetRun(env: Env, w: World, op: nat, u: Upload, lost: set<nat>)
    returns (worlds: seq<World>, steps: seq<Step>, last: World, result: Result<Bytes, ReadError>)
    requires op !in w.ops && Degraded(env, w, u, lost) && u.put.key in w.ring.Values
    ensures Leads(env, worlds, steps, w, last) && last == w.(ops := last.ops)
    ensures op in last.ops && last.ops[op] == Got(u.put.objectId, MetaOf(env, u.put), result)
    ensures |Below(|u.nodes|) - lost| < u.put.spec.dataShards ==> result == Err(NotEnoughShards)
    ensures forall chosen :: LeastKept(lost, |u.nodes|, chosen, u.put.spec.dataShards) ==>
      var inverted := env.isal.invert(ChosenRows(env.isal, u.put.spec, chosen));
      var dataKept := forall i: nat :: i < u.put.spec.dataShards ==> i !in lost;
      && (result == Ok(u.put.data) <==> inverted.Some? || dataKept)
      && (result == Err(CodecFailure(InversionFailed)) <==> inverted == None && !dataKept)
  {
    var n, p, id := |u.nodes|, u.put, u.put.objectId;
    var es := Survivors(env, p, lost, n);
    result := ReadOutcome(env, w.ring, MetaOf(env, p), es);
    last := SetOp(w, op, Got(id, MetaOf(env, p), result));
    if |Below(n) - lost| < p.spec.dataShards {
      TooFewSurvivors(env, w.ring, p, lost);
    }
    forall chosen | LeastKept(lost, n, chosen, p.spec.dataShards) {
      SurvivorsRead(env, w.ring, p, lost, chosen);
    }
    worlds, steps := DegradedGetSteps(env, w, op, u, lost);
  }

  lemma {:induction false} TooFewSurvivors(env: Env, ring: Ring, p: PutRecord, lost: set<nat>)
    requires |Below(p.spec.Total()) - lost| < p.spec.dataShards
    ensures ReadOutcome(env, ring, MetaOf(env, p), Survivors(env, p, lost, p.spec.Total())) == Err(NotEnoughShards)
  {
    var n := p.spec.Total();
    BelowSize(n);
    SurvivorCount(env, p, lost, n);
    assert |Below(n)| == |Below(n) - lost| + |Front(lost, n)| by {
      assert Below(n) == (Below(n) - lost) + Front(lost, n) && (Below(n) - lost) !! Front(lost, n);
    }
    hide Survivors, Below, Front;
  }

  lemma DegradedGetSteps(env: Env, w: World, op: nat, u: Upload, lost: set<nat>) returns (worlds: seq<World>, steps: seq<Step>)
    requires op !in w.ops && Degraded(env, w, u, lost)
    ensures Leads(env, worlds, steps, w,
                  SetOp(w, op, Got(u.put.objectId, MetaOf(env, u.put),
                                   ReadOutcome(env, w.ring, MetaOf(env, u.put), Survivors(env, u.put, lost, |u.nodes|)))))
  {
    var n := |u.nodes|;
    GatheringBegins(env, w, op, u, lost);
    GatheringEnds(env, w, op, u, lost);
    assert u.put.objectId in w.catalog;
    hide Leads, Enabled, Apply, Gathering, Degraded, AfterSelect, ReadOutcome, Survivors, MetaOf;
    worlds, steps := SelectRun(env, w, op, ForGet, u.put.objectId);
    var b, t := GatherRun(env, w, op, u, lost, n);
    worlds, steps := Joined(env, worlds, steps, b, t, w, Gathering(env, w, op, u, lost, 0), Gathering(env, w, op, u, lost, n));
    worlds, steps := OneMore(env, worlds, steps, w, Gathering(env, w, op, u, lost, n), GetFinish(op));
  }

  lemma {:induction false} GatheringBegins(env: Env, w: World, op: nat, u: Upload, lost: set<nat>)
    requires u.put.objectId in w.catalog
    ensures SetOp(w, op, AfterSelect(ForGet, ReadRow(w, u.put.objectId))) == Gathering(env, w, op, u, lost, 0)
  {
    assert Below(0) - lost == {} && Survivors(env, u.put, lost, 0) == [];
  }

  lemma {:induction false} GatheringEnds(env: Env, w: World, op: nat, u: Upload, lost: set<nat>)
    requires FittingUpload(u) && RowOfUpload(env, w, u)
    ensures var before := Gathering(env, w, op, u, lost, |u.nodes|);
      && Enabled(env, before, GetFinish(op))
      && Apply(env, before, GetFinish(op)) ==
        SetOp(w, op, Got(u.put.objectId, MetaOf(env, u.put),
                         ReadOutcome(env, w.ring, MetaOf(env, u.put), Survivors(env, u.put, lost, |u.nodes|))))
  {
    hide Enabled, Apply, MetaOf, ReadOutcome, Survivors, Below;
    ReadRowOf(env, w, u);
    FinishAt(env, Gathering(env, w, op, u, lost, |u.nodes|), op, Read(w, u), Below(|u.nodes|) - lost, Survivors(env, u.put, lost, |u.nodes|));
  }

  /* ---------- A rotation between a put and a get ---------- */

  /**
   A put, then a rotation, then a get: the get returns the data, although the active key is another
   one by then; and a put that begins after the rotation is one under the new key.
   */
  lemma RotationKeepsData(env: Env, w: World, op: nat, u: Upload, keyId: string, key: Key, v: Upload)
    returns (worlds: seq<World>, steps: seq<Step>, middle: World)
    requires op !in w.ops && CanBegin(w, u) && keyId !in w.ring
    ensures middle.active == keyId && middle.ring == w.ring[keyId := key] && middle.store == AfterPut(env, w, u).store
    ensures Leads(env, worlds, steps, w, Finished(env, middle, op, u))
    ensures CanBegin(middle, v) ==> v.put.key == key && v.put.kekId == keyId
  {
    var done := AfterPut(env, w, u);
    middle := Apply(env, done, Rotate(keyId, key));
    PutIsStored(env, w, u);
    assert Stored(env, middle, u) && Enabled(env, done, Rotate(keyId, key)) && middle.ops == w.ops;
    StillInRing(w.ring, w.active, keyId, key);
    hide Leads, Enabled, Apply, Stored, Finished, AfterPut;
    worlds, steps := PutRun(env, w, op, u);
    worlds, steps := OneMore(env, worlds, steps, w, done, Rotate(keyId, key));
    var b, t := GetRun(env, middle, op, u);
    worlds, steps := Joined(env, worlds, steps, b, t, w, middle, Finished(env, middle, op, u));
  }

  lemma StillInRing(ring: Ring, active: string, keyId: string, key: Key)
    requires active in ring && keyId !in ring
    ensures ring[active] in ring[keyId := key].Values
  {
    assert ring[keyId := key][active] == ring[active];
  }
}
