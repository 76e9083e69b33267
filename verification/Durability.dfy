/**
 Copy before commit: as long as no shard is lost and no remove deletes shards,
 every location that a committed row names is present at every step.
 */
module Durability {
  import opened MetadataStore
  import opened ShardKeys
  import opened Shards
  import opened Reindex
  import opened Protocol

  /** A location that a rebuild recorded for a shard it did not find need not be there. */
  ghost predicate Held(store: ShardStore, at: Location) {
    at.node == UNKNOWN_NODE || at in store
  }

  ghost predicate AllHeld(store: ShardStore, locations: seq<Location>) {
    forall i {:trigger locations[i]} :: 0 <= i < |locations| ==> Held(store, locations[i])
  }

  ghost predicate CatalogPresent(store: ShardStore, catalog: Catalog<Location>) {
    forall id :: id in catalog ==> AllHeld(store, catalog[id].locations)
  }

  /** The shards recorded for a version were seen where they are recorded. */
  ghost predicate FoundPresent(store: ShardStore, id: GroupId, found: map<nat, string>) {
    forall i :: i in found ==> Location(found[i], ShardKey(id.objectId, id.version, i)) in store
  }

  ghost predicate GroupsPresent(store: ShardStore, groups: map<GroupId, Group>) {
    forall g :: g in groups ==> FoundPresent(store, g, groups[g].found)
  }

  ghost predicate WinnersPresent(store: ShardStore, winners: map<string, Candidate>) {
    forall o :: o in winners ==> FoundPresent(store, winners[o].id, winners[o].found)
  }

  /** What an operation has written, and what it has read to write later, is there. */
  ghost predicate OpPresent(store: ShardStore, o: Op) {
    match o
    case Putting(token, put, _, nodes, done) =>
      forall i :: i in done && i < |nodes| ==> PutLocations(put.objectId, token, nodes)[i] in store
    case Probing(snap, _, _) => AllHeld(store, snap.row.locations)
    case RepairFetching(snap, _, _, _) => AllHeld(store, snap.row.locations)
    case RepairWriting(snap, _, targets, done) =>
      && AllHeld(store, snap.row.locations)
      && (snap.row.locations != [] ==> forall i :: i in done && i in targets ==> RepairTarget(snap, targets, i) in store)
    case Moving(snap, targets, _, done) =>
      && AllHeld(store, snap.row.locations)
      && done <= targets.Keys
      && forall i :: i in done && i in targets && i < |snap.row.locations| ==> MoveTarget(snap, targets, i) in store
    case Scanning(groups) => GroupsPresent(store, groups)
    case Choosing(groups, _, winners) => GroupsPresent(store, groups) && WinnersPresent(store, winners)
    case _ => true
  }

  ghost predicate OpsPresent(store: ShardStore, ops: map<nat, Op>) {
    forall op :: op in ops ==> OpPresent(store, ops[op])
  }

  ghost predicate Anchored(w: World) {
    CatalogPresent(w.store, w.catalog) && OpsPresent(w.store, w.ops)
  }

  /** Steps that take shards away. */
  predicate Lossy(s: Step) {
    s.LoseShard? || s.RemoveShard?
  }

  lemma StepKeepsStore(env: Env, w: World, s: Step)
    requires Enabled(env, w, s) && !Lossy(s) && !ScanStep(s)
    ensures w.store.Keys <= Apply(env, w, s).store.Keys
  {
    hide Reencoded, ReadOutcome, MovedLocations, RepairedLocations, PutRow, ConditionalPutRow, RemoveRow;
  }

  lemma OpPresentGrows(before: ShardStore, after: ShardStore, o: Op)
    requires before.Keys <= after.Keys && OpPresent(before, o)
    ensures OpPresent(after, o)
  {
  }

  /** A step that may write shards, replaces one operation's state and leaves the catalog. */
  lemma OpStep(w: World, w': World, op: nat, o: Op)
    requires Anchored(w) && w.store.Keys <= w'.store.Keys && w'.catalog == w.catalog
    requires w'.ops == w.ops[op := o] && OpPresent(w'.store, o)
    ensures Anchored(w')
  {
    hide OpPresent;
    forall x | x in w'.ops
      ensures OpPresent(w'.store, w'.ops[x])
    {
      if x != op {
        OpPresentGrows(w.store, w'.store, w.ops[x]);
      }
    }
  }

  /** A step that writes a whole row, or none, and ends no or one operation. */
  lemma RowStep(w: World, w': World, id: string, meta: Meta, locations: seq<Location>, expected: nat)
    requires Anchored(w) && w.store == w'.store
    requires AllHeld(w.store, locations)
    requires forall op :: op in w'.ops ==> op in w.ops && w'.ops[op] == w.ops[op]
    requires w'.catalog == PutRow(w.catalog, id, meta, locations)
          || w'.catalog == ConditionalPutRow(w.catalog, id, meta, locations, expected)
          || w'.catalog == InsertRow(w.catalog, id, meta, locations)
    ensures Anchored(w')
  {
    hide OpPresent, AllHeld;
  }

  /* ---------- Put, repair and rebalance ---------- */

  lemma PutCommitAnchored(env: Env, w: World, op: nat)
    requires Anchored(w) && Enabled(env, w, PutCommit(op))
    ensures Anchored(Apply(env, w, PutCommit(op)))
  {
    var o := w.ops[op];
    assert OpPresent(w.store, o);
    RowStep(w, Apply(env, w, PutCommit(op)), o.put.objectId, MetaOf(env, o.put),
            PutLocations(o.put.objectId, o.token, o.nodes), 0);
  }

  lemma RepairCommitAnchored(env: Env, w: World, op: nat)
    requires Anchored(w) && Enabled(env, w, RepairCommit(op))
    ensures Anchored(Apply(env, w, RepairCommit(op)))
  {
    var o := w.ops[op];
    assert OpPresent(w.store, o);
    var locations := RepairedLocations(o.snap, o.targets);
    assert AllHeld(w.store, locations) by {
      forall i | 0 <= i < |locations|
        ensures Held(w.store, locations[i])
      {
        assert i in o.targets ==> locations[i] == RepairTarget(o.snap, o.targets, i);
      }
    }
    RowStep(w, Apply(env, w, RepairCommit(op)), o.snap.id, o.snap.row.meta, locations, o.snap.row.version);
  }

  lemma MoveCommitAnchored(env: Env, w: World, op: nat)
    requires Anchored(w) && Enabled(env, w, MoveCommit(op))
    ensures Anchored(Apply(env, w, MoveCommit(op)))
  {
    var o := w.ops[op];
    assert OpPresent(w.store, o);
    var locations := MovedLocations(o.snap, o.targets);
    assert AllHeld(w.store, locations) by {
      forall i | 0 <= i < |locations|
        ensures Held(w.store, locations[i])
      {
        assert i in o.targets ==> locations[i] == MoveTarget(o.snap, o.targets, i);
      }
    }
    RowStep(w, Apply(env, w, MoveCommit(op)), o.snap.id, o.snap.row.meta, locations, o.snap.row.version);
  }

  lemma PutWriteAnchored(env: Env, w: World, op: nat, i: nat)
    requires Anchored(w) && Enabled(env, w, PutWrite(op, i))
    ensures Anchored(ApplyPutWrite(env, w, op, i))
  {
    var o := w.ops[op];
    assert OpPresent(w.store, o);
    OpStep(w, ApplyPutWrite(env, w, op, i), op, Putting(o.token, o.put, o.writtenAt, o.nodes, o.done + {i}));
  }

  lemma RepairWriteAnchored(env: Env, w: World, op: nat, i: nat, writtenAt: nat)
    requires Anchored(w) && Enabled(env, w, RepairWrite(op, i, writtenAt))
    ensures Anchored(ApplyRepairWrite(w, op, i, writtenAt))
  {
    var o := w.ops[op];
    assert OpPresent(w.store, o);
    OpStep(w, ApplyRepairWrite(w, op, i, writtenAt), op, RepairWriting(o.snap, o.shards, o.targets, o.done + {i}));
  }

  /** A newly planned move is not written yet. */
  lemma MoveFetchAnchored(env: Env, w: World, op: nat, i: nat, target: string)
    requires Anchored(w) && Enabled(env, w, MoveFetch(op, i, target))
    ensures Anchored(ApplyMoveFetch(w, op, i, target))
  {
    var o := w.ops[op];
    assert OpPresent(w.store, o);
    var o' := Moving(o.snap, o.targets[i := target], o.copies[i := w.store[o.snap.row.locations[i]]], o.done);
    forall j | j in o'.done && j in o'.targets && j < |o.snap.row.locations|
      ensures MoveTarget(o.snap, o'.targets, j) in w.store
    {
      assert MoveTarget(o.snap, o'.targets, j) == MoveTarget(o.snap, o.targets, j);
    }
    OpStep(w, ApplyMoveFetch(w, op, i, target), op, o');
  }

  lemma MoveWriteAnchored(env: Env, w: World, op: nat, i: nat)
    requires Anchored(w) && Enabled(env, w, MoveWrite(op, i))
    ensures Anchored(ApplyMoveWrite(w, op, i))
  {
    var o := w.ops[op];
    assert OpPresent(w.store, o);
    OpStep(w, ApplyMoveWrite(w, op, i), op, Moving(o.snap, o.targets, o.copies, o.done + {i}));
  }

  /* ---------- Reading and reindexing ---------- */

  lemma SelectLocationsAnchored(env: Env, w: World, op: nat)
    requires Anchored(w) && Enabled(env, w, SelectLocations(op))
    ensures Anchored(ApplySelectLocations(w, op))
  {
    var o := w.ops[op];
    var locations := if o.id in w.catalog then w.catalog[o.id].locations else [];
    assert AllHeld(w.store, locations);
    hide CatalogPresent, AllHeld;
    OpStep(w, ApplySelectLocations(w, op), op, AfterSelect(o.purpose, Snapshot(o.id, o.seen.(locations := locations), o.seen, o.mark)));
  }

  /** Probing and fetching keep the snapshot. */
  lemma RepairReadAnchored(env: Env, w: World, s: Step)
    requires Anchored(w) && Enabled(env, w, s)
    requires s.Probe? || s.RepairStart? || s.RepairFetch? || s.RepairReencode?
    ensures Anchored(Apply(env, w, s))
  {
    assert OpPresent(w.store, w.ops[s.op]);
    hide ReadOutcome, Reencoded, AllHeld;
    OpStep(w, Apply(env, w, s), s.op, Apply(env, w, s).ops[s.op]);
  }

  lemma ScanKeyAnchored(env: Env, w: World, op: nat, at: Location)
    requires Anchored(w) && Enabled(env, w, ScanKey(op, at))
    ensures Anchored(Apply(env, w, ScanKey(op, at)))
  {
    assert OpPresent(w.store, w.ops[op]);
    var groups := AddToGroups(w.ops[op].groups, at);
    assert GroupsPresent(w.store, groups) by {
      assert at == Location(at.node, ShardKey(IdOf(at.key).objectId, IdOf(at.key).version, at.key.index));
    }
    OpStep(w, Apply(env, w, ScanKey(op, at)), op, Scanning(groups));
  }

  lemma ScanBeginAnchored(env: Env, w: World, op: nat)
    requires Anchored(w) && Enabled(env, w, ScanBegin(op))
    ensures Anchored(SetOp(w, op, Scanning(map[])))
  {
    hide CatalogPresent;
    OpStep(w, SetOp(w, op, Scanning(map[])), op, Scanning(map[]));
  }

  lemma ScanEndAnchored(env: Env, w: World, op: nat)
    requires Anchored(w) && Enabled(env, w, ScanEnd(op))
    ensures Anchored(SetOp(w, op, Choosing(w.ops[op].groups, w.ops[op].groups.Keys, map[])))
  {
    assert OpPresent(w.store, w.ops[op]);
    hide FoundPresent, CatalogPresent, OpsPresent;
    OpStep(w, SetOp(w, op, Choosing(w.ops[op].groups, w.ops[op].groups.Keys, map[])), op,
           Choosing(w.ops[op].groups, w.ops[op].groups.Keys, map[]));
  }

  lemma ReadManifestAnchored(env: Env, w: World, op: nat, group: GroupId, found: bool)
    requires Anchored(w) && Enabled(env, w, ReadManifest(op, group, found))
    ensures Anchored(ApplyReadManifest(w, op, group, found))
  {
    var o := w.ops[op];
    assert OpPresent(w.store, o);
    hide FoundPresent, CatalogPresent, OpsPresent, Plausible, Better;
    OpStep(w, ApplyReadManifest(w, op, group, found), op, ApplyReadManifest(w, op, group, found).ops[op]);
  }

  lemma InsertWinnerAnchored(env: Env, w: World, op: nat, objectId: string)
    requires Anchored(w) && Enabled(env, w, InsertWinner(op, objectId))
    ensures Anchored(ApplyInsertWinner(w, op, objectId))
  {
    assert OpPresent(w.store, w.ops[op]);
    var c := w.ops[op].winners[objectId];
    var locations := RebuiltLocations(c);
    assert AllHeld(w.store, locations) by {
      forall i | 0 <= i < |locations|
        ensures Held(w.store, locations[i])
      {
        if i in c.found {
          assert locations[i] == Location(c.found[i], ShardKey(c.id.objectId, c.id.version, i));
        }
      }
    }
    RowStep(w, ApplyInsertWinner(w, op, objectId), objectId, c.manifest.meta, locations, 0);
  }

  /** Steps that begin or end an operation, read, or concern only keys or ciphertexts. */
  lemma OtherStepAnchored(env: Env, w: World, s: Step)
    requires Anchored(w) && Enabled(env, w, s)
    requires s.Rotate? || s.ScrambleShard? || s.Abort? || s.PutBegin? || s.SelectRow? || s.GetFetch? || s.GetFinish? || s.RemoveCommit?
    ensures Anchored(Apply(env, w, s))
  {
    var w' := Apply(env, w, s);
    StepKeepsStore(env, w, s);
    OtherStepOps(env, w, s);
    OtherStepRows(env, w, s);
    hide Enabled, Apply, OpPresent, AllHeld;
    forall op | op in w'.ops
      ensures OpPresent(w'.store, w'.ops[op])
    {
      if op in w.ops && w'.ops[op] == w.ops[op] {
        OpPresentGrows(w.store, w'.store, w.ops[op]);
      }
    }
    forall id | id in w'.catalog
      ensures AllHeld(w'.store, w'.catalog[id].locations)
    {
      AllHeldGrows(w.store, w'.store, w.catalog[id].locations);
    }
  }

  /** Such a step adds no operation that has written or seen shards. */
  lemma OtherStepOps(env: Env, w: World, s: Step)
    requires Enabled(env, w, s)
    requires s.Rotate? || s.ScrambleShard? || s.Abort? || s.PutBegin? || s.SelectRow? || s.GetFetch? || s.GetFinish? || s.RemoveCommit?
    ensures forall op :: op in Apply(env, w, s).ops ==>
      (op in w.ops && Apply(env, w, s).ops[op] == w.ops[op]) || OpPresent(Apply(env, w, s).store, Apply(env, w, s).ops[op])
  {
    hide AllHeld, ReadOutcome, RemoveRow;
  }

  /** Nor does it add a row or change one. */
  lemma OtherStepRows(env: Env, w: World, s: Step)
    requires Enabled(env, w, s)
    requires s.Rotate? || s.ScrambleShard? || s.Abort? || s.PutBegin? || s.SelectRow? || s.GetFetch? || s.GetFinish? || s.RemoveCommit?
    ensures forall id :: id in Apply(env, w, s).catalog ==> id in w.catalog && Apply(env, w, s).catalog[id] == w.catalog[id]
  {
    hide ReadOutcome;
  }

  lemma AllHeldGrows(before: ShardStore, after: ShardStore, locations: seq<Location>)
    requires before.Keys <= after.Keys && AllHeld(before, locations)
    ensures AllHeld(after, locations)
  {
  }

  /* ---------- Every step, every run ---------- */

  /** Steps of puts, gets, removes, repairs and rebalances, and of the environment. */
  lemma WorkStepKeepsAnchored(env: Env, w: World, s: Step)
    requires Anchored(w) && Enabled(env, w, s) && !Lossy(s) && !ScanStep(s)
    ensures Anchored(Apply(env, w, s))
  {
    hide Anchored;
    match s
    case PutWrite(op, i) => PutWriteAnchored(env, w, op, i);
    case PutCommit(op) => PutCommitAnchored(env, w, op);
    case SelectLocations(op) => SelectLocationsAnchored(env, w, op);
    case Probe(_, _) => RepairReadAnchored(env, w, s);
    case RepairStart(_) => RepairReadAnchored(env, w, s);
    case RepairFetch(_, _) => RepairReadAnchored(env, w, s);
    case RepairReencode(_, _) => RepairReadAnchored(env, w, s);
    case RepairWrite(op, i, writtenAt) => RepairWriteAnchored(env, w, op, i, writtenAt);
    case RepairCommit(op) => RepairCommitAnchored(env, w, op);
    case MoveFetch(op, i, target) => MoveFetchAnchored(env, w, op, i, target);
    case MoveWrite(op, i) => MoveWriteAnchored(env, w, op, i);
    case MoveCommit(op) => MoveCommitAnchored(env, w, op);
    case _ => OtherStepAnchored(env, w, s);
  }

  lemma ScanStepKeepsAnchored(env: Env, w: World, s: Step)
    requires Anchored(w) && Enabled(env, w, s) && ScanStep(s)
    ensures Anchored(Apply(env, w, s))
  {
    hide Anchored;
    match s
    case ScanBegin(op) => ScanBeginAnchored(env, w, op);
    case ScanKey(op, at) => ScanKeyAnchored(env, w, op, at);
    case ScanEnd(op) => ScanEndAnchored(env, w, op);
    case ReadManifest(op, group, found) => ReadManifestAnchored(env, w, op, group, found);
    case InsertWinner(op, objectId) => InsertWinnerAnchored(env, w, op, objectId);
  }

  lemma StepKeepsAnchored(env: Env, w: World, s: Step)
    requires Anchored(w) && Enabled(env, w, s) && !Lossy(s)
    ensures Anchored(Apply(env, w, s))
  {
    hide Anchored, Enabled, Apply;
    if ScanStep(s) {
      ScanStepKeepsAnchored(env, w, s);
    } else {
      WorkStepKeepsAnchored(env, w, s);
    }
  }

  /**
   Copy before commit: in every run without shard loss and without deletion, at every step every
   location of every committed row is present, unless it records a shard that a rebuild did not find.
   */
  lemma {:induction false} CommittedShardsPresent(env: Env, worlds: seq<World>, steps: seq<Step>, n: nat)
    requires IsRun(env, worlds, steps) && Init(worlds[0]) && n <= |steps|
    requires forall i :: 0 <= i < n ==> !Lossy(steps[i])
    ensures Anchored(worlds[n])
  {
    hide Apply, Enabled;
    if n > 0 {
      CommittedShardsPresent(env, worlds, steps, n - 1);
      assert Enabled(env, worlds[n - 1], steps[n - 1]);
      StepKeepsAnchored(env, worlds[n - 1], steps[n - 1]);
    }
  }
}
