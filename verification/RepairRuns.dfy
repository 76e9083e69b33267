/** One repair among everything else that runs, and one that nothing disturbs. */
module RepairRuns {
  import opened Wrappers
  import opened ErasureCodec
  import opened ErasureDecode
  import opened MetadataStore
  import opened ShardKeys
  import opened Shards
  import opened Protocol
  import opened Runs
  import opened RebuildRuns
  import opened RebalanceRuns

  /* ---------- What a repair finds missing ---------- */

  /** A repair ends with its commit, or when it is aborted. */
  predicate EndsRepair(s: Step, op: nat) {
    s == Abort(op) || s == RepairCommit(op)
  }

  /** A repair begins with the step at i and has not ended before the step at j. */
  ghost predicate IsRepair(steps: seq<Step>, op: nat, id: string, i: nat, j: nat) {
    && i < j <= |steps|
    && steps[i] == SelectRow(op, ForRepair, id)
    && forall r {:trigger steps[r]} :: i < r < j ==> !EndsRepair(steps[r], op)
  }

  /** What the probes of the operation found, in order, from the step at i up to the step at j. */
  function Found(steps: seq<Step>, op: nat, i: nat, j: nat): seq<bool>
    requires i <= j <= |steps|
    decreases j
  {
    if i == j then []
    else
      var s := steps[j - 1];
      Found(steps, op, i, j - 1) + (if s.Probe? && s.op == op then [s.found] else [])
  }

  /** The positions whose probe failed. */
  ghost function Failed(found: seq<bool>): set<nat> {
    set q: nat | q < |found| && !found[q]
  }

  lemma FailedOneMore(found: seq<bool>, f: bool)
    ensures Failed(found + [f]) == Failed(found) + (if f then {} else {|found|})
  {
  }

  /** Some probe failed, and at least k did not. */
  ghost predicate WorthRepair(snap: Snapshot, found: seq<bool>) {
    Failed(found) != {} && |found| - |Failed(found)| >= snap.row.meta.erasure.dataShards
  }

  /** The repair's state says exactly what its probes found. */
  ghost predicate TellsFound(o: Op, found: seq<bool>) {
    match o
    case Reading(purpose, _, _, _) => purpose == ForRepair && found == []
    case Probing(snap, next, missing) => next == |found| <= |snap.row.locations| && missing == Failed(found)
    case RepairFetching(snap, missing, asked, _) =>
      |snap.row.locations| == |found| && missing == Failed(found) && asked !! missing && WorthRepair(snap, found)
    case RepairWriting(snap, _, targets, _) => |snap.row.locations| == |found| && targets.Keys == Failed(found) && WorthRepair(snap, found)
    case _ => false
  }

  lemma OwnProbe(env: Env, w: World, op: nat, found: seq<bool>, f: bool)
    requires Enabled(env, w, Probe(op, f)) && TellsFound(w.ops[op], found)
    ensures var after := Apply(env, w, Probe(op, f));
      op in after.ops && TellsFound(after.ops[op], found + [f])
  {
    hide Failed;
    FailedOneMore(found, f);
  }

  lemma OwnRepairStep(env: Env, w: World, s: Step, op: nat, found: seq<bool>)
    requires Enabled(env, w, s) && StepOf(s, op) && !EndsRepair(s, op) && !s.Probe?
    requires op in w.ops && TellsFound(w.ops[op], found)
    ensures op in Apply(env, w, s).ops && TellsFound(Apply(env, w, s).ops[op], found)
  {
    hide Failed, ReadOutcome, Reencoded;
    if s.SelectLocations? {
      assert Failed([]) == {} by { NoneFailed(); }
    }
  }

  lemma NoneFailed()
    ensures Failed([]) == {}
  {
  }

  lemma RepairBegins(env: Env, w: World, op: nat, id: string)
    requires Enabled(env, w, SelectRow(op, ForRepair, id))
    ensures var after := Apply(env, w, SelectRow(op, ForRepair, id));
      op in after.ops && TellsFound(after.ops[op], [])
  {
  }

  lemma FoundStays(env: Env, w: World, s: Step, op: nat, found: seq<bool>)
    requires Enabled(env, w, s) && !EndsRepair(s, op) && op in w.ops && TellsFound(w.ops[op], found)
    ensures var more := if s.Probe? && s.op == op then [s.found] else [];
      op in Apply(env, w, s).ops && TellsFound(Apply(env, w, s).ops[op], found + more)
  {
    hide Enabled, Apply, TellsFound;
    if !StepOf(s, op) {
      OtherStep(env, w, s, op);
    } else if s.Probe? {
      OwnProbe(env, w, op, found, s.found);
    } else {
      OwnRepairStep(env, w, s, op, found);
    }
    assert found + [] == found;
  }

  /**
   Over every run, whatever else runs: while a repair probes, what it holds as missing is exactly
   the set of positions whose probe failed; when it goes on, every location of the row has been
   probed, some failed and at least k did not, it asks for none that failed, and what it restores,
   and gives targets to, is exactly the set of those that failed.
   */
  lemma {:induction false} MissingAreTheFailedProbes(env: Env, worlds: seq<World>, steps: seq<Step>, op: nat, id: string, i: nat, j: nat)
    requires IsRun(env, worlds, steps) && IsRepair(steps, op, id, i, j)
    ensures op in worlds[j].ops
    ensures match worlds[j].ops[op]
      case Reading(purpose, _, _, _) => purpose == ForRepair && Found(steps, op, i, j) == []
      case Probing(snap, next, missing) =>
        next == |Found(steps, op, i, j)| <= |snap.row.locations| && missing == Failed(Found(steps, op, i, j))
      case RepairFetching(snap, missing, asked, _) =>
        && |snap.row.locations| == |Found(steps, op, i, j)| && missing == Failed(Found(steps, op, i, j))
        && asked !! missing && WorthRepair(snap, Found(steps, op, i, j))
      case RepairWriting(snap, _, targets, _) =>
        && |snap.row.locations| == |Found(steps, op, i, j)| && targets.Keys == Failed(Found(steps, op, i, j))
        && WorthRepair(snap, Found(steps, op, i, j))
      case _ => false
  {
    FoundThroughout(env, worlds, steps, op, id, i, j, j);
    hide Failed, Found;
  }

  lemma {:induction false} FoundThroughout(env: Env, worlds: seq<World>, steps: seq<Step>, op: nat, id: string, i: nat, j: nat, r: nat)
    requires IsRun(env, worlds, steps) && IsRepair(steps, op, id, i, j) && i < r <= j
    ensures op in worlds[r].ops && TellsFound(worlds[r].ops[op], Found(steps, op, i, r))
    decreases r
  {
    hide Enabled, Apply, TellsFound;
    var w, s := worlds[r - 1], steps[r - 1];
    assert Enabled(env, w, s) && worlds[r] == Apply(env, w, s);
    if r == i + 1 {
      RepairBegins(env, w, op, id);
      assert Found(steps, op, i, i) == [] && Found(steps, op, i, r) == [];
    } else {
      FoundThroughout(env, worlds, steps, op, id, i, j, r - 1);
      FoundStays(env, w, s, op, Found(steps, op, i, r - 1));
    }
  }

  lemma RepairCommitRow(env: Env, w: World, op: nat, found: seq<bool>)
    requires Enabled(env, w, RepairCommit(op)) && TellsFound(w.ops[op], found) && CommitSucceeds(w, RepairCommit(op))
    ensures CommittedRow(w, op, found, Apply(env, w, RepairCommit(op)))
  {
    hide Failed;
    FailedMeaning(found);
  }

  lemma FailedMeaning(found: seq<bool>)
    ensures forall q :: q in Failed(found) <==> 0 <= q < |found| && !found[q]
  {
  }

  /** The row after the commit: the locations that failed are at their targets, the others are as read, and no other row has changed. */
  ghost predicate CommittedRow(w: World, op: nat, found: seq<bool>, after: World)
    requires op in w.ops && w.ops[op].RepairWriting?
  {
    var o := w.ops[op];
    var id, read := o.snap.id, o.snap.row;
    && after.catalog.Keys == w.catalog.Keys
    && (forall x :: x in w.catalog && x != id ==> after.catalog[x] == w.catalog[x])
    && id in after.catalog && after.catalog[id].meta == read.meta && after.catalog[id].version == read.version + 1
    && |after.catalog[id].locations| == |read.locations| == |found|
    && (forall q :: 0 <= q < |found| && found[q] ==> after.catalog[id].locations[q] == read.locations[q])
    && (forall q: nat :: q < |found| && !found[q] ==>
          q in o.targets && q in o.done
          && after.catalog[id].locations[q] == Location(o.targets[q], ShardKey(id, read.locations[0].key.version, q)))
  }

  /**
   Over every run, a repair that commits leaves the row it read at its next version, with the
   locations whose probe failed replaced by those it wrote to, and with all others as they were.
   */
  lemma {:induction false} RepairReplacesTheFailed(env: Env, worlds: seq<World>, steps: seq<Step>, op: nat, id: string, i: nat, j: nat)
    requires IsRun(env, worlds, steps) && IsRepair(steps, op, id, i, j) && j < |steps|
    requires steps[j] == RepairCommit(op) && CommitSucceeds(worlds[j], steps[j])
    ensures op in worlds[j].ops && worlds[j].ops[op].RepairWriting?
    ensures CommittedRow(worlds[j], op, Found(steps, op, i, j), worlds[j + 1])
  {
    FoundThroughout(env, worlds, steps, op, id, i, j, j);
    hide Apply, TellsFound, CommittedRow, Found;
    assert Enabled(env, worlds[j], steps[j]) && worlds[j + 1] == Apply(env, worlds[j], steps[j]);
    RepairCommitRow(env, worlds[j], op, Found(steps, op, i, j));
  }

  /* ---------- A repair that nothing disturbs ---------- */

  /** The first j shards of the put without the lost ones. */
  function Survivors(env: Env, p: PutRecord, lost: set<nat>, j: nat): seq<EncryptedShard>
    requires j <= p.spec.Total()
  {
    if j == 0 then []
    else Survivors(env, p, lost, j - 1) + (if j - 1 in lost then [] else [PutShard(env, p, j - 1)])
  }

  /** The object's row is the put's, some of its shards are lost, the others are intact and can be decoded. */
  ghost predicate SomeLost(env: Env, w: World, u: Upload, lost: set<nat>) {
    && FittingUpload(u) && RowOfUpload(env, w, u)
    && lost != {} && (forall i :: i in lost ==> i < |u.nodes| && Locations(u)[i] !in w.store)
    && (forall i: nat :: i < |u.nodes| && i !in lost ==> Locations(u)[i] in w.store && w.store[Locations(u)[i]].shard == PutShard(env, u.put, i))
    && ReadOutcome(env, w.ring, MetaOf(env, u.put), Survivors(env, u.put, lost, |u.nodes|)) == Ok(u.put.data)
  }

  function Front(of: set<nat>, j: nat): set<nat> {
    Below(j) * of
  }

  lemma FrontOneMore(of: set<nat>, j: nat)
    ensures Front(of, j + 1) == if j in of then Front(of, j) + {j} else Front(of, j)
    ensures j !in Front(of, j)
  {
    BelowMembers(j);
  }

  lemma FrontWhole(of: set<nat>, n: nat)
    requires forall i :: i in of ==> i < n
    ensures Front(of, n) == of
  {
    BelowMembers(n);
  }

  ghost function Read(w: World, u: Upload): Snapshot
    requires u.put.objectId in w.catalog
  {
    ReadRow(w, u.put.objectId)
  }

  /** The first j shards have been probed. */
  ghost function Probed(w: World, op: nat, u: Upload, lost: set<nat>, j: nat): World
    requires u.put.objectId in w.catalog
  {
    SetOp(w, op, Probing(Read(w, u), j, Front(lost, j)))
  }

  lemma ProbeStep(env: Env, w: World, op: nat, u: Upload, lost: set<nat>, j: nat)
    requires SomeLost(env, w, u, lost) && j < |u.nodes|
    ensures var before, s := Probed(w, op, u, lost, j), Probe(op, j !in lost);
      Enabled(env, before, s) && Apply(env, before, s) == Probed(w, op, u, lost, j + 1)
  {
    hide PutShard, MetaOf, Survivors, ReadOutcome, Front, Locations;
    FrontOneMore(lost, j);
  }

  lemma {:induction false} ProbeRun(env: Env, w: World, op: nat, u: Upload, lost: set<nat>, j: nat) returns (worlds: seq<World>, steps: seq<Step>)
    requires SomeLost(env, w, u, lost) && j <= |u.nodes|
    ensures Leads(env, worlds, steps, Probed(w, op, u, lost, 0), Probed(w, op, u, lost, j))
  {
    hide Leads, Enabled, Apply, MetaOf, PutShard, Locations, Survivors, ReadOutcome, Front, ReadRow;
    var first := Probed(w, op, u, lost, 0);
    if j == 0 {
      worlds, steps := NoSteps(env, first);
    } else {
      worlds, steps := ProbeRun(env, w, op, u, lost, j - 1);
      ProbeStep(env, w, op, u, lost, j - 1);
      var before := Probed(w, op, u, lost, j - 1);
      worlds, steps := OneMore(env, worlds, steps, first, before, Probe(op, j - 1 !in lost));
    }
  }

  /** The surviving ones of the first j shards have been fetched. */
  ghost function Fetched(env: Env, w: World, op: nat, u: Upload, lost: set<nat>, j: nat): World
    requires u.put.objectId in w.catalog && j <= u.put.spec.Total()
  {
    SetOp(w, op, RepairFetching(Read(w, u), lost, Below(j) - lost, Survivors(env, u.put, lost, j)))
  }

  lemma {:induction false} SurvivorCount(env: Env, p: PutRecord, lost: set<nat>, j: nat)
    requires j <= p.spec.Total()
    ensures |Survivors(env, p, lost, j)| == j - |Front(lost, j)|
  {
    hide PutShard, Front;
    if j == 0 {
      assert Front(lost, 0) == {} by { NoFront(lost); }
    } else {
      SurvivorCount(env, p, lost, j - 1);
      FrontOneMore(lost, j - 1);
    }
  }

  lemma NoFront(of: set<nat>)
    ensures Front(of, 0) == {}
  {
  }

  lemma EnoughKept(env: Env, w: World, u: Upload, lost: set<nat>)
    requires SomeLost(env, w, u, lost)
    ensures |u.nodes| - |lost| >= u.put.spec.dataShards
  {
    SurvivorCount(env, u.put, lost, |u.nodes|);
    FrontWhole(lost, |u.nodes|);
    hide PutShard, Front, Locations, Survivors, Decoded, OpenAll;
  }

  lemma StartStep(env: Env, w: World, op: nat, u: Upload, lost: set<nat>)
    requires FittingUpload(u) && RowOfUpload(env, w, u) && lost != {} && (forall i :: i in lost ==> i < |u.nodes|)
    requires |u.nodes| - |lost| >= u.put.spec.dataShards
    ensures var before := Probed(w, op, u, lost, |u.nodes|);
      Enabled(env, before, RepairStart(op)) && Apply(env, before, RepairStart(op)) == Fetched(env, w, op, u, lost, 0)
  {
    FrontWhole(lost, |u.nodes|);
    assert Survivors(env, u.put, lost, 0) == [];
    assert Below(0) - lost == {};
    hide PutShard, MetaOf, Front, Locations, Survivors, Below;
  }

  lemma FetchStep(env: Env, w: World, op: nat, u: Upload, lost: set<nat>, j: nat)
    requires SomeLost(env, w, u, lost) && j < |u.nodes| && j !in lost
    ensures var before := Fetched(env, w, op, u, lost, j);
      Enabled(env, before, RepairFetch(op, j)) && Apply(env, before, RepairFetch(op, j)) == Fetched(env, w, op, u, lost, j + 1)
  {
    hide PutShard, MetaOf, ReadOutcome, Locations;
    BelowMembers(j);
    assert Below(j + 1) - lost == (Below(j) - lost) + {j};
  }

  /** A lost shard is not asked for. */
  lemma NothingFetched(env: Env, w: World, op: nat, u: Upload, lost: set<nat>, j: nat)
    requires FittingUpload(u) && u.put.objectId in w.catalog && j < |u.nodes| && j in lost
    ensures Fetched(env, w, op, u, lost, j) == Fetched(env, w, op, u, lost, j + 1)
  {
    assert Survivors(env, u.put, lost, j + 1) == Survivors(env, u.put, lost, j) + [] == Survivors(env, u.put, lost, j);
    hide PutShard, Survivors;
    assert Below(j + 1) - lost == Below(j) - lost;
  }

  lemma {:induction false} FetchRun(env: Env, w: World, op: nat, u: Upload, lost: set<nat>, j: nat) returns (worlds: seq<World>, steps: seq<Step>)
    requires SomeLost(env, w, u, lost) && j <= |u.nodes|
    ensures Leads(env, worlds, steps, Fetched(env, w, op, u, lost, 0), Fetched(env, w, op, u, lost, j))
  {
    hide Leads, Enabled, Apply, MetaOf, PutShard, Locations, Survivors, ReadOutcome, Below, ReadRow;
    var first := Fetched(env, w, op, u, lost, 0);
    if j == 0 {
      worlds, steps := NoSteps(env, first);
    } else {
      worlds, steps := FetchRun(env, w, op, u, lost, j - 1);
      var before := Fetched(env, w, op, u, lost, j - 1);
      if j - 1 in lost {
        NothingFetched(env, w, op, u, lost, j - 1);
      } else {
        FetchStep(env, w, op, u, lost, j - 1);
        worlds, steps := OneMore(env, worlds, steps, first, before, RepairFetch(op, j - 1));
      }
    }
  }

  /** The put's own shards at the lost positions. */
  function LostShards(env: Env, p: PutRecord, lost: set<nat>): map<nat, EncryptedShard> {
    map i | i in lost && i < p.spec.Total() :: PutShard(env, p, i)
  }

  /** All lost shards have been restored and have targets; nothing has been written. */
  ghost function Restored(env: Env, w: World, op: nat, u: Upload, targets: map<nat, string>): World
    requires u.put.objectId in w.catalog
  {
    SetOp(w, op, RepairWriting(Read(w, u), LostShards(env, u.put, targets.Keys), targets, {}))
  }

  lemma ReencodedShards(env: Env, p: PutRecord, lost: set<nat>)
    ensures Reencoded(env, MetaOf(env, p).encryptedDek.dek, p.data, MetaOf(env, p).erasure, lost) == LostShards(env, p, lost)
  {
    hide CodeShard;
  }

  lemma RestoreStep(env: Env, w: World, op: nat, u: Upload, lost: set<nat>, targets: map<nat, string>)
    requires SomeLost(env, w, u, lost) && targets.Keys == lost
    ensures var before := Fetched(env, w, op, u, lost, |u.nodes|);
      Enabled(env, before, RepairReencode(op, targets)) && Apply(env, before, RepairReencode(op, targets)) == Restored(env, w, op, u, targets)
  {
    hide ReadOutcome, PutShard, MetaOf, Reencoded, Locations, LostShards, Survivors, Below;
    ReencodedShards(env, u.put, lost);
  }

  /** A repair that nothing disturbs, from its first SELECT to the shards it has restored. */
  lemma RestoreRun(env: Env, w: World, op: nat, u: Upload, lost: set<nat>, targets: map<nat, string>) returns (worlds: seq<World>, steps: seq<Step>)
    requires op !in w.ops && SomeLost(env, w, u, lost) && targets.Keys == lost
    ensures Leads(env, worlds, steps, w, Restored(env, w, op, u, targets))
  {
    var n, id := |u.nodes|, u.put.objectId;
    assert SetOp(w, op, AfterSelect(ForRepair, ReadRow(w, id))) == Probed(w, op, u, lost, 0) by { NoFront(lost); }
    EnoughKept(env, w, u, lost);
    hide Leads, Enabled, Apply, SomeLost, Probed, Fetched, Restored;
    worlds, steps := SelectRun(env, w, op, ForRepair, id);
    var b, t := ProbeRun(env, w, op, u, lost, n);
    worlds, steps := Joined(env, worlds, steps, b, t, w, Probed(w, op, u, lost, 0), Probed(w, op, u, lost, n));
    StartStep(env, w, op, u, lost);
    worlds, steps := OneMore(env, worlds, steps, w, Probed(w, op, u, lost, n), RepairStart(op));
    b, t := FetchRun(env, w, op, u, lost, n);
    worlds, steps := Joined(env, worlds, steps, b, t, w, Fetched(env, w, op, u, lost, 0), Fetched(env, w, op, u, lost, n));
    RestoreStep(env, w, op, u, lost, targets);
    worlds, steps := OneMore(env, worlds, steps, w, Fetched(env, w, op, u, lost, n), RepairReencode(op, targets));
  }

  /* ---------- Its writes and its commit ---------- */

  function TargetOf(u: Upload, targets: map<nat, string>, i: nat): Location
    requires i in targets
  {
    Location(targets[i], ShardKey(u.put.objectId, u.token, i))
  }

  /** What is written at the target of shard i. */
  function RestoredShard(env: Env, u: Upload, time: nat, i: nat): StoredShard
    requires i < u.put.spec.Total()
  {
    StoredShard(Manifest(u.put.objectId, u.token, MetaOf(env, u.put), time), PutShard(env, u.put, i))
  }

  /** The store when the lost ones of the first j shards have been written. */
  function Rewritten(env: Env, store: ShardStore, u: Upload, targets: map<nat, string>, time: nat, j: nat): ShardStore
    requires j <= u.put.spec.Total()
  {
    if j == 0 then store
    else
      var before := Rewritten(env, store, u, targets, time, j - 1);
      if j - 1 in targets then before[TargetOf(u, targets, j - 1) := RestoredShard(env, u, time, j - 1)] else before
  }

  ghost function Writing(env: Env, w: World, op: nat, u: Upload, targets: map<nat, string>, time: nat, j: nat): World
    requires u.put.objectId in w.catalog && j <= u.put.spec.Total()
  {
    SetOp(w, op, RepairWriting(Read(w, u), LostShards(env, u.put, targets.Keys), targets, Front(targets.Keys, j))).(
      store := Rewritten(env, w.store, u, targets, time, j))
  }

  lemma ReadRowOf(env: Env, w: World, u: Upload)
    requires RowOfUpload(env, w, u)
    ensures Read(w, u).id == u.put.objectId && Read(w, u).row.locations == Locations(u) && Read(w, u).row.meta == MetaOf(env, u.put)
  {
    hide Locations, MetaOf;
  }

  lemma RewrittenOneMore(env: Env, store: ShardStore, u: Upload, targets: map<nat, string>, time: nat, j: nat)
    requires j < u.put.spec.Total() && j in targets
    ensures Rewritten(env, store, u, targets, time, j + 1) ==
      Rewritten(env, store, u, targets, time, j)[TargetOf(u, targets, j) := RestoredShard(env, u, time, j)]
  {
  }

  lemma LostShardThere(env: Env, p: PutRecord, lost: set<nat>, i: nat)
    requires i in lost && i < p.spec.Total()
    ensures i in LostShards(env, p, lost) && LostShards(env, p, lost)[i] == PutShard(env, p, i)
  {
  }

  lemma WriteAt(env: Env, w: World, op: nat, snap: Snapshot, shards: map<nat, EncryptedShard>, targets: map<nat, string>, done: set<nat>, i: nat, time: nat)
    requires op in w.ops && w.ops[op] == RepairWriting(snap, shards, targets, done) && i in shards && i in targets && snap.row.locations != []
    ensures Enabled(env, w, RepairWrite(op, i, time))
    ensures Apply(env, w, RepairWrite(op, i, time)) ==
      SetOp(w, op, RepairWriting(snap, shards, targets, done + {i})).(
        store := w.store[Location(targets[i], ShardKey(snap.id, snap.Version(), i)) :=
          StoredShard(Manifest(snap.id, snap.Version(), snap.row.meta, time), shards[i])])
  {
  }

  lemma CommitAt(env: Env, w: World, op: nat, snap: Snapshot, shards: map<nat, EncryptedShard>, targets: map<nat, string>)
    requires op in w.ops && w.ops[op] == RepairWriting(snap, shards, targets, targets.Keys) && snap.row.locations != []
    requires snap.id in w.catalog && w.catalog[snap.id].version == snap.row.version
    ensures Enabled(env, w, RepairCommit(op))
    ensures Apply(env, w, RepairCommit(op)) ==
      w.(ops := w.ops - {op}, catalog := PutRow(w.catalog, snap.id, snap.row.meta, RepairedLocations(snap, targets)))
  {
    hide RepairedLocations, PutRow;
  }

  lemma WriteStep(env: Env, w: World, op: nat, u: Upload, targets: map<nat, string>, time: nat, j: nat)
    requires FittingUpload(u) && RowOfUpload(env, w, u) && j < |u.nodes| && j in targets
    ensures var before := Writing(env, w, op, u, targets, time, j);
      && Enabled(env, before, RepairWrite(op, j, time))
      && Apply(env, before, RepairWrite(op, j, time)) == Writing(env, w, op, u, targets, time, j + 1)
  {
    var shards, keys := LostShards(env, u.put, targets.Keys), targets.Keys;
    ReadRowOf(env, w, u);
    UploadLocation(u, 0);
    FrontOneMore(keys, j);
    RewrittenOneMore(env, w.store, u, targets, time, j);
    LostShardThere(env, u.put, keys, j);
    hide Enabled, Apply, PutShard, MetaOf, Locations, Front, Rewritten, LostShards, RowOfUpload, Read, SetOp;
    SetAndStore(w, op, RepairWriting(Read(w, u), shards, targets, Front(keys, j)), RepairWriting(Read(w, u), shards, targets, Front(keys, j + 1)),
                Rewritten(env, w.store, u, targets, time, j), Rewritten(env, w.store, u, targets, time, j + 1));
    WriteAt(env, Writing(env, w, op, u, targets, time, j), op, Read(w, u), shards, targets, Front(keys, j), j, time);
  }

  /** A new state of an operation and a new store replace earlier ones. */
  lemma SetAndStore(w: World, op: nat, x: Op, y: Op, s: ShardStore, t: ShardStore)
    ensures var before := SetOp(w, op, x).(store := s);
      && op in before.ops && before.ops[op] == x && before.store == s
      && SetOp(before, op, y).(store := t) == SetOp(w, op, y).(store := t)
  {
  }

  lemma NothingWritten(env: Env, w: World, op: nat, u: Upload, targets: map<nat, string>, time: nat, j: nat)
    requires FittingUpload(u) && u.put.objectId in w.catalog && j < |u.nodes| && j !in targets
    ensures Writing(env, w, op, u, targets, time, j) == Writing(env, w, op, u, targets, time, j + 1)
  {
    FrontOneMore(targets.Keys, j);
    hide PutShard, MetaOf, Front, LostShards;
  }

  lemma {:induction false} WriteRun(env: Env, w: World, op: nat, u: Upload, lost: set<nat>, targets: map<nat, string>, time: nat, j: nat)
    returns (worlds: seq<World>, steps: seq<Step>)
    requires SomeLost(env, w, u, lost) && targets.Keys == lost && j <= |u.nodes|
    ensures Leads(env, worlds, steps, Writing(env, w, op, u, targets, time, 0), Writing(env, w, op, u, targets, time, j))
  {
    hide Leads, Enabled, Apply, MetaOf, PutShard, Locations, Survivors, ReadOutcome, Front, ReadRow, Rewritten, LostShards;
    var first := Writing(env, w, op, u, targets, time, 0);
    if j == 0 {
      worlds, steps := NoSteps(env, first);
    } else {
      worlds, steps := WriteRun(env, w, op, u, lost, targets, time, j - 1);
      var before := Writing(env, w, op, u, targets, time, j - 1);
      if j - 1 in lost {
        WriteStep(env, w, op, u, targets, time, j - 1);
        worlds, steps := OneMore(env, worlds, steps, first, before, RepairWrite(op, j - 1, time));
      } else {
        NothingWritten(env, w, op, u, targets, time, j - 1);
      }
    }
  }

  /** The row's locations with the lost ones at their targets. */
  function NewLocations(u: Upload, targets: map<nat, string>): seq<Location> {
    seq(|u.nodes|, i requires 0 <= i < |u.nodes| => if i in targets then TargetOf(u, targets, i) else Locations(u)[i])
  }

  ghost function Repaired(env: Env, w: World, u: Upload, targets: map<nat, string>, time: nat): World
    requires FittingUpload(u)
  {
    w.(store := Rewritten(env, w.store, u, targets, time, |u.nodes|),
       catalog := PutRow(w.catalog, u.put.objectId, MetaOf(env, u.put), NewLocations(u, targets)))
  }

  lemma LocationsReplaced(env: Env, w: World, u: Upload, targets: map<nat, string>)
    requires RowOfUpload(env, w, u) && u.nodes != []
    ensures Read(w, u).row.locations != [] && RepairedLocations(Read(w, u), targets) == NewLocations(u, targets)
  {
    hide MetaOf;
  }

  lemma CommitStep(env: Env, w: World, op: nat, u: Upload, targets: map<nat, string>, time: nat)
    requires op !in w.ops && FittingUpload(u) && RowOfUpload(env, w, u) && u.nodes != []
    requires forall i :: i in targets ==> i < |u.nodes|
    ensures var before := Writing(env, w, op, u, targets, time, |u.nodes|);
      Enabled(env, before, RepairCommit(op)) && Apply(env, before, RepairCommit(op)) == Repaired(env, w, u, targets, time)
  {
    FrontWhole(targets.Keys, |u.nodes|);
    LocationsReplaced(env, w, u, targets);
    ReadRowOf(env, w, u);
    hide Enabled, Apply, PutShard, MetaOf, Locations, Front, LostShards, RepairedLocations, NewLocations, Rewritten;
    CommitAt(env, Writing(env, w, op, u, targets, time, |u.nodes|), op, Read(w, u), LostShards(env, u.put, targets.Keys), targets);
    var o := Writing(env, w, op, u, targets, time, |u.nodes|).ops[op];
    assert w.ops[op := o] - {op} == w.ops;
  }

  /** The locations of the repaired row all hold the put's own shards. */
  ghost predicate AllPresent(env: Env, w: World, u: Upload)
    requires u.put.objectId in w.catalog
  {
    var locations := w.catalog[u.put.objectId].locations;
    && |locations| == u.put.spec.Total()
    && forall i :: 0 <= i < |locations| ==> locations[i] in w.store && w.store[locations[i]].shard == PutShard(env, u.put, i)
  }

  lemma {:induction false} RewrittenShards(env: Env, store: ShardStore, u: Upload, targets: map<nat, string>, time: nat, j: nat)
    requires FittingUpload(u) && j <= |u.nodes|
    ensures var after := Rewritten(env, store, u, targets, time, j);
      && (forall i: nat :: i < j && i in targets ==>
            TargetOf(u, targets, i) in after && after[TargetOf(u, targets, i)] == RestoredShard(env, u, time, i))
      && (forall at :: at in after ==> at in store || exists i: nat :: i < j && i in targets && at == TargetOf(u, targets, i))
      && (forall at :: at in store && (forall i: nat :: i < j && i in targets ==> at != TargetOf(u, targets, i)) ==> at in after && after[at] == store[at])
  {
    hide RestoredShard, Rewritten, TargetOf;
    if j == 0 {
      assert Rewritten(env, store, u, targets, time, 0) == store by { RewrittenNext(env, store, u, targets, time, 0); }
    } else {
      RewrittenShards(env, store, u, targets, time, j - 1);
      RewrittenNext(env, store, u, targets, time, j - 1);
      forall i: nat | i in targets && i < j - 1 && j - 1 in targets
        ensures TargetOf(u, targets, i) != TargetOf(u, targets, j - 1)
      {
        TargetsApart(u, targets, i, j - 1);
      }
    }
  }

  lemma {:induction false} RewrittenNext(env: Env, store: ShardStore, u: Upload, targets: map<nat, string>, time: nat, j: nat)
    ensures Rewritten(env, store, u, targets, time, 0) == store
    ensures j < u.put.spec.Total() ==>
      Rewritten(env, store, u, targets, time, j + 1) ==
      if j in targets then Rewritten(env, store, u, targets, time, j)[TargetOf(u, targets, j) := RestoredShard(env, u, time, j)]
      else Rewritten(env, store, u, targets, time, j)
  {
    hide RestoredShard, TargetOf;
  }

  lemma TargetsApart(u: Upload, targets: map<nat, string>, i: nat, j: nat)
    requires i in targets && j in targets && i != j
    ensures TargetOf(u, targets, i) != TargetOf(u, targets, j)
  {
  }

  /**
   A repair that nothing disturbs, for any non-empty set of lost shards whose survivors can be
   decoded, and any targets: it ends with the row at its next version, the lost locations at their
   targets, the others as they were, and the put's own shard at every one of them.
   */
  lemma RepairRun(env: Env, w: World, op: nat, u: Upload, lost: set<nat>, targets: map<nat, string>, time: nat)
    returns (worlds: seq<World>, steps: seq<Step>, last: World)
    requires op !in w.ops && SomeLost(env, w, u, lost) && targets.Keys == lost
    ensures Leads(env, worlds, steps, w, last) && last.ops == w.ops
    ensures var id := u.put.objectId;
      && last.catalog.Keys == w.catalog.Keys && (forall x :: x in w.catalog && x != id ==> last.catalog[x] == w.catalog[x])
      && last.catalog[id].meta == w.catalog[id].meta && last.catalog[id].version == w.catalog[id].version + 1
      && |last.catalog[id].locations| == |u.nodes|
      && (forall i :: 0 <= i < |u.nodes| ==>
            last.catalog[id].locations[i] ==
              Location(if i in lost then targets[i] else u.nodes[i], ShardKey(id, u.token, i)))
      && AllPresent(env, last, u)
    ensures forall i :: i in lost ==>
      TargetOf(u, targets, i) in last.store
      && last.store[TargetOf(u, targets, i)] ==
           StoredShard(Manifest(u.put.objectId, u.token, MetaOf(env, u.put), time), PutShard(env, u.put, i))
  {
    last := Repaired(env, w, u, targets, time);
    var n := |u.nodes|;
    RepairedRow(env, w, u, lost, targets, time);
    assert Restored(env, w, op, u, targets) == Writing(env, w, op, u, targets, time, 0) by { NoFront(targets.Keys); }
    CommitStep(env, w, op, u, targets, time);
    hide Leads, Enabled, Apply, SomeLost, Restored, Writing, Repaired, AllPresent;
    worlds, steps := RestoreRun(env, w, op, u, lost, targets);
    var b, t := WriteRun(env, w, op, u, lost, targets, time, n);
    worlds, steps := Joined(env, worlds, steps, b, t, w, Writing(env, w, op, u, targets, time, 0), Writing(env, w, op, u, targets, time, n));
    worlds, steps := OneMore(env, worlds, steps, w, Writing(env, w, op, u, targets, time, n), RepairCommit(op));
  }

  /** The new row, and the rest of the catalog as it was. */
  lemma NewRow(env: Env, catalog: Catalog<Location>, u: Upload, targets: map<nat, string>)
    requires u.put.objectId in catalog
    ensures var after, id := PutRow(catalog, u.put.objectId, MetaOf(env, u.put), NewLocations(u, targets)), u.put.objectId;
      && after.Keys == catalog.Keys && (forall x :: x in catalog && x != id ==> after[x] == catalog[x])
      && after[id].meta == MetaOf(env, u.put) && after[id].version == catalog[id].version + 1
      && |after[id].locations| == |u.nodes|
      && (forall i :: 0 <= i < |u.nodes| ==>
            after[id].locations[i] == Location(if i in targets then targets[i] else u.nodes[i], ShardKey(id, u.token, i)))
  {
    hide MetaOf, Locations;
    forall i: nat | i < |u.nodes| {
      NewLocation(u, targets, i);
    }
    hide NewLocations;
  }

  lemma NewLocation(u: Upload, targets: map<nat, string>, i: nat)
    requires i < |u.nodes|
    ensures NewLocations(u, targets)[i] == Location(if i in targets then targets[i] else u.nodes[i], ShardKey(u.put.objectId, u.token, i))
  {
    UploadLocation(u, i);
  }

  /** After the writes the put's own shards are at all the new locations. */
  lemma {:induction false} AllWritten(env: Env, store: ShardStore, u: Upload, targets: map<nat, string>, time: nat)
    requires FittingUpload(u)
    requires forall i: nat :: i < |u.nodes| && i !in targets ==> Locations(u)[i] in store && store[Locations(u)[i]].shard == PutShard(env, u.put, i)
    ensures var after := Rewritten(env, store, u, targets, time, |u.nodes|);
      forall i :: 0 <= i < |u.nodes| ==>
        NewLocations(u, targets)[i] in after && after[NewLocations(u, targets)[i]].shard == PutShard(env, u.put, i)
    ensures forall i :: i in targets && i < |u.nodes| ==>
      var after := Rewritten(env, store, u, targets, time, |u.nodes|);
      TargetOf(u, targets, i) in after && after[TargetOf(u, targets, i)] == RestoredShard(env, u, time, i)
  {
    RewrittenShards(env, store, u, targets, time, |u.nodes|);
    hide PutShard, MetaOf, Locations, Rewritten, NewLocations;
    forall i: nat | i < |u.nodes|
      ensures var after := Rewritten(env, store, u, targets, time, |u.nodes|);
        NewLocations(u, targets)[i] in after && after[NewLocations(u, targets)[i]].shard == PutShard(env, u.put, i)
    {
      NewLocation(u, targets, i);
      UploadLocation(u, i);
    }
  }

  lemma RepairedRow(env: Env, w: World, u: Upload, lost: set<nat>, targets: map<nat, string>, time: nat)
    requires SomeLost(env, w, u, lost) && targets.Keys == lost
    ensures var last, id := Repaired(env, w, u, targets, time), u.put.objectId;
      && last.ops == w.ops
      && last.catalog.Keys == w.catalog.Keys && (forall x :: x in w.catalog && x != id ==> last.catalog[x] == w.catalog[x])
      && last.catalog[id].meta == w.catalog[id].meta && last.catalog[id].version == w.catalog[id].version + 1
      && |last.catalog[id].locations| == |u.nodes|
      && (forall i :: 0 <= i < |u.nodes| ==>
            last.catalog[id].locations[i] ==
              Location(if i in lost then targets[i] else u.nodes[i], ShardKey(id, u.token, i)))
      && AllPresent(env, last, u)
      && forall i :: i in lost ==>
           TargetOf(u, targets, i) in last.store
           && last.store[TargetOf(u, targets, i)] ==
                StoredShard(Manifest(u.put.objectId, u.token, MetaOf(env, u.put), time), PutShard(env, u.put, i))
  {
    NewRow(env, w.catalog, u, targets);
    AllWritten(env, w.store, u, targets, time);
    assert w.catalog[u.put.objectId].meta == MetaOf(env, u.put);
    assert Repaired(env, w, u, targets, time).catalog[u.put.objectId].locations == NewLocations(u, targets);
    hide PutShard, MetaOf, ReadOutcome, Locations, Rewritten, Survivors, NewLocations, SomeLost, RowOfUpload, PutRow;
  }
}
