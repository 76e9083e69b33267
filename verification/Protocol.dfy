/**
 The client operations as interleaved steps over nodes and catalog. Each request
 to a node and each SQL statement or transaction is one step; an operation may
 stop at any point. Where a step's outcome depends on timeouts, health probes or
 placement, every outcome is allowed.
 */
module Protocol {
  import opened Wrappers
  import opened ErasureCodec
  import opened KeyRing
  import opened MetadataStore
  import opened ShardKeys
  import opened Shards
  import opened History
  import opened Reindex

  /** What an operation goes on after reading a row. */
  datatype Purpose = ForGet | ForRemove | ForRepair | ForRebalance

  /**
   The row an operation works from: the columns come from the first SELECT and the locations
   from the second. seen is the whole row at the first SELECT and mark the number of removes
   by then; the operation itself does not use them.
   */
  datatype Snapshot = Snapshot(id: string, row: Row<Location>, seen: Row<Location>, mark: nat) {
    function Version(): string
      requires row.locations != []
    {
      row.locations[0].key.version
    }
  }

  datatype Op =
    | Putting(token: string, put: PutRecord, writtenAt: nat, nodes: seq<string>, done: set<nat>)
    | Reading(purpose: Purpose, id: string, seen: Row<Location>, mark: nat)
    | Getting(snap: Snapshot, asked: set<nat>, fetched: seq<EncryptedShard>)
    | Got(id: string, meta: Meta, result: Result<Bytes, ReadError>)
    | Removing(snap: Snapshot)
    | Probing(snap: Snapshot, next: nat, missing: set<nat>)
    | RepairFetching(snap: Snapshot, missing: set<nat>, asked: set<nat>, fetched: seq<EncryptedShard>)
    | RepairWriting(snap: Snapshot, shards: map<nat, EncryptedShard>, targets: map<nat, string>, done: set<nat>)
    | Moving(snap: Snapshot, targets: map<nat, string>, copies: map<nat, StoredShard>, done: set<nat>)
    | Scanning(groups: map<GroupId, Group>)
    | Choosing(groups: map<GroupId, Group>, pending: set<GroupId>, winners: map<string, Candidate>)

  /** removed lists the ids of all rows removed so far, in order; no operation reads it. */
  datatype World = World(
    store: ShardStore,
    catalog: Catalog<Location>,
    ring: Ring,
    active: string,
    history: History,
    ops: map<nat, Op>,
    removed: seq<string>)

  datatype Step =
    | Rotate(keyId: string, key: Key)
    | LoseShard(at: Location)
    | ScrambleShard(at: Location)
    | Abort(op: nat)
    | PutBegin(op: nat, objectId: string, data: Bytes, spec: ErasureSpec, token: string, dek: Dek, writtenAt: nat, nodes: seq<string>)
    | PutWrite(op: nat, i: nat)
    | PutCommit(op: nat)
    | SelectRow(op: nat, purpose: Purpose, id: string)
    | SelectLocations(op: nat)
    | GetFetch(op: nat, i: nat)
    | GetFinish(op: nat)
    | RemoveShard(op: nat, i: nat)
    | RemoveCommit(op: nat)
    | Probe(op: nat, found: bool)
    | RepairStart(op: nat)
    | RepairFetch(op: nat, i: nat)
    | RepairReencode(op: nat, targets: map<nat, string>)
    | RepairWrite(op: nat, i: nat, writtenAt: nat)
    | RepairCommit(op: nat)
    | MoveFetch(op: nat, i: nat, target: string)
    | MoveWrite(op: nat, i: nat)
    | MoveCommit(op: nat)
    | ScanBegin(op: nat)
    | ScanKey(op: nat, at: Location)
    | ScanEnd(op: nat)
    | ReadManifest(op: nat, group: GroupId, found: bool)
    | InsertWinner(op: nat, objectId: string)

  /** A step of a repair or a rebalance, after the row has been read. */
  predicate HealStep(s: Step) {
    s.Probe? || s.RepairStart? || s.RepairFetch? || s.RepairReencode? || s.RepairWrite? || s.RepairCommit?
    || s.MoveFetch? || s.MoveWrite? || s.MoveCommit?
  }

  /** A step of a reindex. */
  predicate ScanStep(s: Step) {
    s.ScanBegin? || s.ScanKey? || s.ScanEnd? || s.ReadManifest? || s.InsertWinner?
  }

  ghost predicate Init(w: World) {
    && w.store == map[] && w.catalog == map[]
    && w.active in w.ring
    && w.history == History(map[], map[])
    && w.ops == map[] && w.removed == []
  }

  /* ---------- What operations write ---------- */

  function PutLocations(objectId: string, token: string, nodes: seq<string>): (locations: seq<Location>)
    ensures |locations| == |nodes|
  {
    seq(|nodes|, i requires 0 <= i < |nodes| => Location(nodes[i], ShardKey(objectId, token, i)))
  }

  function PutStored(env: Env, token: string, p: PutRecord, writtenAt: nat, i: nat): StoredShard
    requires i < p.spec.Total()
  {
    StoredShard(Manifest(p.objectId, token, MetaOf(env, p), writtenAt), PutShard(env, p, i))
  }

  /** The encoding of the decoded bytes, encrypted again, for the missing indices. */
  function Reencoded(env: Env, dek: Dek, data: Bytes, spec: ErasureSpec, missing: set<nat>): map<nat, EncryptedShard> {
    map i | i in missing && i < spec.Total() :: Seal(dek, PlainShard(i, CodeShard(env.isal, data, spec, i)))
  }

  function RepairTarget(snap: Snapshot, targets: map<nat, string>, i: nat): Location
    requires snap.row.locations != [] && i in targets
  {
    Location(targets[i], ShardKey(snap.id, snap.Version(), i))
  }

  function RepairedLocations(snap: Snapshot, targets: map<nat, string>): seq<Location>
    requires snap.row.locations != []
  {
    var locations := snap.row.locations;
    seq(|locations|, i requires 0 <= i < |locations| => if i in targets then RepairTarget(snap, targets, i) else locations[i])
  }

  /** A moved shard keeps its key. */
  function MoveTarget(snap: Snapshot, targets: map<nat, string>, i: nat): Location
    requires i < |snap.row.locations| && i in targets
  {
    Location(targets[i], snap.row.locations[i].key)
  }

  function MovedLocations(snap: Snapshot, targets: map<nat, string>): seq<Location> {
    var locations := snap.row.locations;
    seq(|locations|, i requires 0 <= i < |locations| => if i in targets then MoveTarget(snap, targets, i) else locations[i])
  }

  function AfterSelect(purpose: Purpose, snap: Snapshot): Op {
    match purpose
    case ForGet => Getting(snap, {}, [])
    case ForRemove => Removing(snap)
    case ForRepair => Probing(snap, 0, {})
    case ForRebalance => Moving(snap, map[], map[], {})
  }

  /** The row a step commits over, if it is a version-fenced commit. */
  function CommitSnapshot(w: World, s: Step): Option<Snapshot> {
    if s.RepairCommit? && s.op in w.ops && w.ops[s.op].RepairWriting? then Some(w.ops[s.op].snap)
    else if s.MoveCommit? && s.op in w.ops && w.ops[s.op].Moving? then Some(w.ops[s.op].snap)
    else None
  }

  /** The commit step finds the version that its operation read. */
  ghost predicate CommitSucceeds(w: World, s: Step) {
    var snap := CommitSnapshot(w, s);
    snap.Some? && VersionMatches(w.catalog, snap.value.id, snap.value.row.version)
  }

  /** The step removes the row of this object. */
  predicate Removes(w: World, s: Step, id: string) {
    s.RemoveCommit? && s.op in w.ops && w.ops[s.op].Removing? && w.ops[s.op].snap.id == id
  }

  /* ---------- Steps ---------- */

  ghost predicate Enabled(env: Env, w: World, s: Step) {
    match s
    case Rotate(keyId, _) => keyId !in w.ring
    case LoseShard(at) => at in w.store
    case ScrambleShard(at) => at in w.store
    case Abort(op) => op in w.ops
    case PutBegin(op, objectId, data, spec, token, dek, _, nodes) =>
      && op !in w.ops && w.active in w.ring && objectId != "" && data != [] && Fits(data, spec)
      && token !in w.history.puts && dek !in w.history.deks && |nodes| == spec.Total()
    case PutWrite(op, i) => op in w.ops && w.ops[op].Putting? && i < |w.ops[op].nodes| == w.ops[op].put.spec.Total()
    case PutCommit(op) =>
      op in w.ops && w.ops[op].Putting? && forall i :: 0 <= i < |w.ops[op].nodes| ==> i in w.ops[op].done
    case SelectRow(op, _, id) => op !in w.ops && id in w.catalog
    case SelectLocations(op) => op in w.ops && w.ops[op].Reading?
    case GetFetch(op, i) =>
      && op in w.ops && w.ops[op].Getting? && i < |w.ops[op].snap.row.locations|
      && i !in w.ops[op].asked && w.ops[op].snap.row.locations[i] in w.store
    case GetFinish(op) => op in w.ops && w.ops[op].Getting?
    case RemoveShard(op, i) => op in w.ops && w.ops[op].Removing? && i < |w.ops[op].snap.row.locations|
    case RemoveCommit(op) => op in w.ops && w.ops[op].Removing?
    case Probe(op, found) =>
      && op in w.ops && w.ops[op].Probing? && w.ops[op].next < |w.ops[op].snap.row.locations|
      && (found ==> w.ops[op].snap.row.locations[w.ops[op].next] in w.store)
    case RepairStart(op) =>
      && op in w.ops && w.ops[op].Probing? && w.ops[op].next == |w.ops[op].snap.row.locations|
      && w.ops[op].missing != {}
      && w.ops[op].next - |w.ops[op].missing| >= w.ops[op].snap.row.meta.erasure.dataShards
    case RepairFetch(op, i) =>
      && op in w.ops && w.ops[op].RepairFetching? && i < |w.ops[op].snap.row.locations|
      && i !in w.ops[op].missing && i !in w.ops[op].asked && w.ops[op].snap.row.locations[i] in w.store
    case RepairReencode(op, targets) =>
      && op in w.ops && w.ops[op].RepairFetching? && targets.Keys == w.ops[op].missing
      && ReadOutcome(env, w.ring, w.ops[op].snap.row.meta, w.ops[op].fetched).Ok?
    case RepairWrite(op, i, _) =>
      op in w.ops && w.ops[op].RepairWriting? && i in w.ops[op].shards && i in w.ops[op].targets
      && w.ops[op].snap.row.locations != []
    case RepairCommit(op) =>
      op in w.ops && w.ops[op].RepairWriting? && w.ops[op].done == w.ops[op].targets.Keys
      && w.ops[op].snap.row.locations != []
    case MoveFetch(op, i, _) =>
      && op in w.ops && w.ops[op].Moving? && i !in w.ops[op].targets
      && i < |w.ops[op].snap.row.locations| == w.ops[op].snap.row.meta.erasure.Total()
      && w.ops[op].snap.row.locations[i] in w.store
    case MoveWrite(op, i) =>
      && op in w.ops && w.ops[op].Moving? && i in w.ops[op].targets && i in w.ops[op].copies
      && i < |w.ops[op].snap.row.locations|
    case MoveCommit(op) =>
      op in w.ops && w.ops[op].Moving? && w.ops[op].targets != map[] && w.ops[op].done == w.ops[op].targets.Keys
    case ScanBegin(op) => op !in w.ops
    case ScanKey(op, at) => op in w.ops && w.ops[op].Scanning? && at in w.store
    case ScanEnd(op) => op in w.ops && w.ops[op].Scanning?
    case ReadManifest(op, group, found) =>
      && op in w.ops && w.ops[op].Choosing? && group in w.ops[op].pending && group in w.ops[op].groups
      && (found ==> w.ops[op].groups[group].representative in w.store)
    case InsertWinner(op, objectId) =>
      op in w.ops && w.ops[op].Choosing? && w.ops[op].pending == {} && objectId in w.ops[op].winners
  }

  ghost function SetOp(w: World, op: nat, o: Op): World {
    w.(ops := w.ops[op := o])
  }

  ghost function EndOp(w: World, op: nat): World {
    w.(ops := w.ops - {op})
  }

  /** The manifest of a group's representative shard, considered if it is plausible. */
  function WithManifest(store: ShardStore, groups: map<GroupId, Group>, group: GroupId, winners: map<string, Candidate>): map<string, Candidate>
    requires group in groups && groups[group].representative in store
  {
    var at := groups[group].representative;
    if Plausible(store[at].manifest.meta.erasure)
    then Consider(winners, Candidate(group, store[at].manifest, groups[group].found))
    else winners
  }

  /** A step that is not enabled changes nothing. */
  ghost function Apply(env: Env, w: World, s: Step): World {
    if !Enabled(env, w, s) then w else
    match s
    case Rotate(keyId, key) => w.(ring := w.ring[keyId := key], active := keyId)
    case LoseShard(at) => w.(store := w.store - {at})
    case ScrambleShard(at) => w.(store := w.store[at := Scramble(w.store[at])])
    case Abort(op) => EndOp(w, op)
    case PutBegin(_, _, _, _, _, _, _, _) => ApplyPutBegin(w, s)
    case PutWrite(op, i) => ApplyPutWrite(env, w, op, i)
    case PutCommit(op) => ApplyPutCommit(env, w, op)
    case SelectRow(op, purpose, id) => SetOp(w, op, Reading(purpose, id, w.catalog[id], |w.removed|))
    case SelectLocations(op) => ApplySelectLocations(w, op)
    case GetFetch(op, i) => ApplyGetFetch(w, op, i)
    case GetFinish(op) => ApplyGetFinish(env, w, op)
    case RemoveShard(op, i) => w.(store := w.store - {w.ops[op].snap.row.locations[i]})
    case RemoveCommit(op) => ApplyRemoveCommit(w, op)
    case Probe(op, found) => ApplyProbe(w, op, found)
    case RepairStart(op) => SetOp(w, op, RepairFetching(w.ops[op].snap, w.ops[op].missing, {}, []))
    case RepairFetch(op, i) => ApplyRepairFetch(w, op, i)
    case RepairReencode(op, targets) => ApplyRepairReencode(env, w, op, targets)
    case RepairWrite(op, i, writtenAt) => ApplyRepairWrite(w, op, i, writtenAt)
    case RepairCommit(op) => ApplyRepairCommit(w, op)
    case MoveFetch(op, i, target) => ApplyMoveFetch(w, op, i, target)
    case MoveWrite(op, i) => ApplyMoveWrite(w, op, i)
    case MoveCommit(op) => ApplyMoveCommit(w, op)
    case ScanBegin(op) => SetOp(w, op, Scanning(map[]))
    case ScanKey(op, at) => SetOp(w, op, Scanning(AddToGroups(w.ops[op].groups, at)))
    case ScanEnd(op) => SetOp(w, op, Choosing(w.ops[op].groups, w.ops[op].groups.Keys, map[]))
    case ReadManifest(op, group, found) => ApplyReadManifest(w, op, group, found)
    case InsertWinner(op, objectId) => ApplyInsertWinner(w, op, objectId)
  }

  /** The ciphertext no longer passes its integrity check; the envelope is still readable. */
  function Scramble(s: StoredShard): StoredShard {
    StoredShard(s.manifest, EncryptedShard(s.shard.index, Scrambled))
  }

  ghost function ApplyPutBegin(w: World, s: Step): World
    requires s.PutBegin? && w.active in w.ring
  {
    var p := PutRecord(s.objectId, s.data, s.spec, s.dek, w.ring[w.active], w.active);
    SetOp(w, s.op, Putting(s.token, p, s.writtenAt, s.nodes, {})).(
      history := History(w.history.puts[s.token := p], w.history.deks[s.dek := s.token]))
  }

  ghost function ApplyPutWrite(env: Env, w: World, op: nat, i: nat): World
    requires op in w.ops && w.ops[op].Putting? && i < |w.ops[op].nodes| == w.ops[op].put.spec.Total()
  {
    var o := w.ops[op];
    SetOp(w, op, Putting(o.token, o.put, o.writtenAt, o.nodes, o.done + {i})).(
      store := w.store[PutLocations(o.put.objectId, o.token, o.nodes)[i] := PutStored(env, o.token, o.put, o.writtenAt, i)])
  }

  ghost function ApplyPutCommit(env: Env, w: World, op: nat): World
    requires op in w.ops && w.ops[op].Putting?
  {
    var o := w.ops[op];
    EndOp(w, op).(catalog := PutRow(w.catalog, o.put.objectId, MetaOf(env, o.put), PutLocations(o.put.objectId, o.token, o.nodes)))
  }

  ghost function ApplySelectLocations(w: World, op: nat): World
    requires op in w.ops && w.ops[op].Reading?
  {
    var o := w.ops[op];
    var locations := if o.id in w.catalog then w.catalog[o.id].locations else [];
    SetOp(w, op, AfterSelect(o.purpose, Snapshot(o.id, o.seen.(locations := locations), o.seen, o.mark)))
  }

  ghost function ApplyGetFetch(w: World, op: nat, i: nat): World
    requires op in w.ops && w.ops[op].Getting?
    requires i < |w.ops[op].snap.row.locations| && w.ops[op].snap.row.locations[i] in w.store
  {
    var o := w.ops[op];
    SetOp(w, op, Getting(o.snap, o.asked + {i}, o.fetched + [w.store[o.snap.row.locations[i]].shard]))
  }

  ghost function ApplyGetFinish(env: Env, w: World, op: nat): World
    requires op in w.ops && w.ops[op].Getting?
  {
    var o := w.ops[op];
    SetOp(w, op, Got(o.snap.id, o.snap.row.meta, ReadOutcome(env, w.ring, o.snap.row.meta, o.fetched)))
  }

  ghost function ApplyRemoveCommit(w: World, op: nat): World
    requires op in w.ops && w.ops[op].Removing?
  {
    var id := w.ops[op].snap.id;
    EndOp(w, op).(catalog := RemoveRow(w.catalog, id), removed := w.removed + [id])
  }

  ghost function ApplyProbe(w: World, op: nat, found: bool): World
    requires op in w.ops && w.ops[op].Probing?
  {
    var o := w.ops[op];
    SetOp(w, op, Probing(o.snap, o.next + 1, if found then o.missing else o.missing + {o.next}))
  }

  ghost function ApplyRepairFetch(w: World, op: nat, i: nat): World
    requires op in w.ops && w.ops[op].RepairFetching?
    requires i < |w.ops[op].snap.row.locations| && w.ops[op].snap.row.locations[i] in w.store
  {
    var o := w.ops[op];
    SetOp(w, op, RepairFetching(o.snap, o.missing, o.asked + {i}, o.fetched + [w.store[o.snap.row.locations[i]].shard]))
  }

  ghost function ApplyRepairReencode(env: Env, w: World, op: nat, targets: map<nat, string>): World
    requires op in w.ops && w.ops[op].RepairFetching?
    requires ReadOutcome(env, w.ring, w.ops[op].snap.row.meta, w.ops[op].fetched).Ok?
  {
    var o := w.ops[op];
    var meta := o.snap.row.meta;
    var data := ReadOutcome(env, w.ring, meta, o.fetched).value;
    SetOp(w, op, RepairWriting(o.snap, Reencoded(env, meta.encryptedDek.dek, data, meta.erasure, o.missing), targets, {}))
  }

  ghost function ApplyRepairWrite(w: World, op: nat, i: nat, writtenAt: nat): World
    requires op in w.ops && w.ops[op].RepairWriting? && i in w.ops[op].shards && i in w.ops[op].targets
    requires w.ops[op].snap.row.locations != []
  {
    var o := w.ops[op];
    var manifest := Manifest(o.snap.id, o.snap.Version(), o.snap.row.meta, writtenAt);
    SetOp(w, op, RepairWriting(o.snap, o.shards, o.targets, o.done + {i})).(
      store := w.store[RepairTarget(o.snap, o.targets, i) := StoredShard(manifest, o.shards[i])])
  }

  ghost function ApplyRepairCommit(w: World, op: nat): World
    requires op in w.ops && w.ops[op].RepairWriting? && w.ops[op].snap.row.locations != []
  {
    var o := w.ops[op];
    EndOp(w, op).(catalog := ConditionalPutRow(w.catalog, o.snap.id, o.snap.row.meta,
                                               RepairedLocations(o.snap, o.targets), o.snap.row.version))
  }

  ghost function ApplyMoveFetch(w: World, op: nat, i: nat, target: string): World
    requires op in w.ops && w.ops[op].Moving?
    requires i < |w.ops[op].snap.row.locations| && w.ops[op].snap.row.locations[i] in w.store
  {
    var o := w.ops[op];
    SetOp(w, op, Moving(o.snap, o.targets[i := target], o.copies[i := w.store[o.snap.row.locations[i]]], o.done))
  }

  ghost function ApplyMoveWrite(w: World, op: nat, i: nat): World
    requires op in w.ops && w.ops[op].Moving? && i in w.ops[op].targets && i in w.ops[op].copies
    requires i < |w.ops[op].snap.row.locations|
  {
    var o := w.ops[op];
    SetOp(w, op, Moving(o.snap, o.targets, o.copies, o.done + {i})).(
      store := w.store[MoveTarget(o.snap, o.targets, i) := o.copies[i]])
  }

  ghost function ApplyMoveCommit(w: World, op: nat): World
    requires op in w.ops && w.ops[op].Moving?
  {
    var o := w.ops[op];
    EndOp(w, op).(catalog := ConditionalPutRow(w.catalog, o.snap.id, o.snap.row.meta,
                                               MovedLocations(o.snap, o.targets), o.snap.row.version))
  }

  ghost function ApplyReadManifest(w: World, op: nat, group: GroupId, found: bool): World
    requires op in w.ops && w.ops[op].Choosing? && group in w.ops[op].groups
    requires found ==> w.ops[op].groups[group].representative in w.store
  {
    var o := w.ops[op];
    var winners := if found then WithManifest(w.store, o.groups, group, o.winners) else o.winners;
    SetOp(w, op, Choosing(o.groups, o.pending - {group}, winners))
  }

  ghost function ApplyInsertWinner(w: World, op: nat, objectId: string): World
    requires op in w.ops && w.ops[op].Choosing? && objectId in w.ops[op].winners
  {
    var c := w.ops[op].winners[objectId];
    w.(catalog := InsertRow(w.catalog, objectId, c.manifest.meta, RebuiltLocations(c)))
  }

  /* ---------- Runs ---------- */

  /** The worlds of a run, one more than its steps. */
  ghost predicate IsRun(env: Env, worlds: seq<World>, steps: seq<Step>) {
    && |worlds| == |steps| + 1
    && forall i {:trigger steps[i]} :: 0 <= i < |steps| ==>
         Enabled(env, worlds[i], steps[i]) && worlds[i + 1] == Apply(env, worlds[i], steps[i])
  }

  /** A run from one world to another. */
  ghost predicate Leads(env: Env, worlds: seq<World>, steps: seq<Step>, first: World, last: World) {
    IsRun(env, worlds, steps) && worlds[0] == first && worlds[|steps|] == last
  }

  lemma NoSteps(env: Env, w: World) returns (worlds: seq<World>, steps: seq<Step>)
    ensures Leads(env, worlds, steps, w, w) && steps == []
  {
    worlds, steps := [w], [];
  }

  /** One more step at the end of a run. */
  lemma OneMore(env: Env, a: seq<World>, t: seq<Step>, first: World, last: World, s: Step) returns (worlds: seq<World>, steps: seq<Step>)
    requires Leads(env, a, t, first, last) && Enabled(env, last, s)
    ensures Leads(env, worlds, steps, first, Apply(env, last, s)) && steps == t + [s]
  {
    hide Enabled, Apply;
    worlds, steps := a + [Apply(env, last, s)], t + [s];
  }

  /** A run continued by a run from where it ended. */
  lemma Joined(env: Env, a: seq<World>, s: seq<Step>, b: seq<World>, t: seq<Step>, first: World, middle: World, last: World)
    returns (worlds: seq<World>, steps: seq<Step>)
    requires Leads(env, a, s, first, middle) && Leads(env, b, t, middle, last)
    ensures Leads(env, worlds, steps, first, last) && steps == s + t
  {
    hide Enabled, Apply;
    worlds, steps := a + b[1..], s + t;
    forall i | 0 <= i < |steps|
      ensures Enabled(env, worlds[i], steps[i]) && worlds[i + 1] == Apply(env, worlds[i], steps[i])
    {
      if i < |s| {
        assert steps[i] == s[i] && worlds[i] == a[i] && worlds[i + 1] == a[i + 1];
      } else {
        assert steps[i] == t[i - |s|] && worlds[i] == b[i - |s|] && worlds[i + 1] == b[i - |s| + 1];
      }
    }
  }
}
