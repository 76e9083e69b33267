/** The invariant of the protocol: every step of every operation keeps it, whatever the interleaving. */
module Invariant {
  import opened Wrappers
  import opened ErasureCodec
  import opened KeyRing
  import opened MetadataStore
  import opened Shards
  import opened History
  import opened Reindex
  import opened Protocol

  ghost predicate SnapshotOk(env: Env, h: History, snap: Snapshot) {
    && MetaOk(env, h, snap.id, snap.row.meta)
    && (snap.row.locations != [] ==> LocationsOk(h, snap.id, snap.row.locations))
  }

  /** Fetched shards come from the snapshot's locations. */
  ghost predicate FetchOk(env: Env, h: History, snap: Snapshot, fetched: seq<EncryptedShard>) {
    && SnapshotOk(env, h, snap)
    && (fetched != [] ==> snap.row.locations != [] && FetchedOk(env, h, snap.Version(), fetched))
  }

  /** The repaired shards are the put's own, and the locations name that put. */
  ghost predicate RepairOk(env: Env, h: History, snap: Snapshot, shards: map<nat, EncryptedShard>, targets: map<nat, string>) {
    && SnapshotOk(env, h, snap) && snap.row.locations != []
    && h.deks[snap.row.meta.encryptedDek.dek] == snap.Version()
    && shards.Keys == targets.Keys
    && forall i :: i in shards ==> i < |snap.row.locations| && shards[i] == PutShard(env, h.puts[snap.Version()], i)
  }

  ghost predicate MoveOk(env: Env, h: History, snap: Snapshot, targets: map<nat, string>, copies: map<nat, StoredShard>) {
    && SnapshotOk(env, h, snap) && targets.Keys == copies.Keys
    && forall i :: i in copies ==> i < |snap.row.locations| && StoredOk(env, h, snap.row.locations[i].key, copies[i])
  }

  ghost predicate GroupsOk(groups: map<GroupId, Group>) {
    forall g :: g in groups ==> IdOf(groups[g].representative.key) == g
  }

  ghost predicate CandidateOk(env: Env, h: History, o: string, c: Candidate) {
    && c.id.objectId == o && c.manifest.version == c.id.version && c.id.version in h.puts
    && h.puts[c.id.version].objectId == o && c.manifest.meta == MetaOf(env, h.puts[c.id.version])
  }

  ghost predicate WinnersOk(env: Env, h: History, winners: map<string, Candidate>) {
    forall o :: o in winners ==> CandidateOk(env, h, o, winners[o])
  }

  /** What a finished get returned: bytes of the put whose metadata it read, or an error other than a checksum mismatch. */
  ghost predicate GotOk(env: Env, h: History, id: string, meta: Meta, result: Result<Bytes, ReadError>) {
    && MetaOk(env, h, id, meta)
    && result != Err(ChecksumMismatch)
    && (result.Ok? ==> result.value == h.puts[h.deks[meta.encryptedDek.dek]].data)
  }

  ghost predicate OpOk(env: Env, h: History, o: Op) {
    match o
    case Putting(token, put, _, nodes, _) => token in h.puts && h.puts[token] == put && |nodes| == put.spec.Total()
    case Reading(_, id, seen, _) => RowOk(env, h, id, seen)
    case Getting(snap, _, fetched) => FetchOk(env, h, snap, fetched)
    case Got(id, meta, result) => GotOk(env, h, id, meta, result)
    case Removing(snap) => SnapshotOk(env, h, snap)
    case Probing(snap, next, missing) =>
      SnapshotOk(env, h, snap) && next <= |snap.row.locations| && forall i :: i in missing ==> i < next
    case RepairFetching(snap, missing, _, fetched) =>
      FetchOk(env, h, snap, fetched) && forall i :: i in missing ==> i < |snap.row.locations|
    case RepairWriting(snap, shards, targets, _) => RepairOk(env, h, snap, shards, targets)
    case Moving(snap, targets, copies, _) => MoveOk(env, h, snap, targets, copies)
    case Scanning(groups) => GroupsOk(groups)
    case Choosing(groups, _, winners) => GroupsOk(groups) && WinnersOk(env, h, winners)
  }

  ghost predicate StoreOk(env: Env, h: History, store: ShardStore) {
    forall at :: at in store ==> StoredOk(env, h, at.key, store[at])
  }

  ghost predicate CatalogOk(env: Env, h: History, catalog: Catalog<Location>) {
    forall id :: id in catalog ==> RowOk(env, h, id, catalog[id])
  }

  ghost predicate OpsOk(env: Env, h: History, ops: map<nat, Op>) {
    forall op :: op in ops ==> OpOk(env, h, ops[op])
  }

  ghost predicate Inv(env: Env, w: World) {
    && w.active in w.ring
    && HistoryOk(w.history, w.ring)
    && StoreOk(env, w.history, w.store)
    && CatalogOk(env, w.history, w.catalog)
    && OpsOk(env, w.history, w.ops)
  }

  /* ---------- What happens to the parts ---------- */

  lemma OpsUpdate(env: Env, h: History, ops: map<nat, Op>, op: nat, o: Op)
    requires OpsOk(env, h, ops) && OpOk(env, h, o)
    ensures OpsOk(env, h, ops[op := o])
  {
    hide OpOk;
  }

  lemma OpsEnd(env: Env, h: History, ops: map<nat, Op>, op: nat)
    requires OpsOk(env, h, ops)
    ensures OpsOk(env, h, ops - {op})
  {
    hide OpOk;
  }

  lemma StoreUpdate(env: Env, h: History, store: ShardStore, at: Location, s: StoredShard)
    requires StoreOk(env, h, store) && StoredOk(env, h, at.key, s)
    ensures StoreOk(env, h, store[at := s])
  {
    hide StoredOk;
  }

  lemma StoreRemove(env: Env, h: History, store: ShardStore, at: Location)
    requires StoreOk(env, h, store)
    ensures StoreOk(env, h, store - {at})
  {
    hide StoredOk;
  }

  /** Every catalog transaction writes a whole row, or none. */
  lemma CatalogUpdate(env: Env, h: History, catalog: Catalog<Location>, id: string, meta: Meta, locations: seq<Location>, expected: nat)
    requires CatalogOk(env, h, catalog) && MetaOk(env, h, id, meta) && LocationsOk(h, id, locations)
    ensures CatalogOk(env, h, PutRow(catalog, id, meta, locations))
    ensures CatalogOk(env, h, ConditionalPutRow(catalog, id, meta, locations, expected))
    ensures CatalogOk(env, h, InsertRow(catalog, id, meta, locations))
  {
    hide MetaOk, LocationsOk;
  }

  lemma OpOkExtends(env: Env, before: History, after: History, o: Op)
    requires Extends(before, after) && OpOk(env, before, o)
    ensures OpOk(env, after, o)
  {
    match o
    case Putting(_, _, _, _, _) =>
    case Reading(_, id, seen, _) =>
      RowOkExtends(env, before, after, id, seen);
    case Getting(snap, _, fetched) =>
      FetchOkExtends(env, before, after, snap, fetched);
    case Got(id, meta, result) =>
      MetaOkExtends(env, before, after, id, meta);
    case Removing(snap) =>
      SnapshotOkExtends(env, before, after, snap);
    case Probing(snap, _, _) =>
      SnapshotOkExtends(env, before, after, snap);
    case RepairFetching(snap, _, _, fetched) =>
      FetchOkExtends(env, before, after, snap, fetched);
    case RepairWriting(snap, _, _, _) =>
      SnapshotOkExtends(env, before, after, snap);
    case Moving(snap, _, copies, _) =>
      SnapshotOkExtends(env, before, after, snap);
      forall i | i in copies
        ensures StoredOk(env, after, snap.row.locations[i].key, copies[i])
      {
        StoredOkExtends(env, before, after, snap.row.locations[i].key, copies[i]);
      }
    case Scanning(_) =>
    case Choosing(_, _, _) =>
  }

  lemma RowOkExtends(env: Env, before: History, after: History, id: string, row: Row<Location>)
    requires Extends(before, after) && RowOk(env, before, id, row)
    ensures RowOk(env, after, id, row)
  {
    MetaOkExtends(env, before, after, id, row.meta);
    LocationsOkExtends(before, after, id, row.locations);
  }

  lemma SnapshotOkExtends(env: Env, before: History, after: History, snap: Snapshot)
    requires Extends(before, after) && SnapshotOk(env, before, snap)
    ensures SnapshotOk(env, after, snap)
  {
    MetaOkExtends(env, before, after, snap.id, snap.row.meta);
    if snap.row.locations != [] {
      LocationsOkExtends(before, after, snap.id, snap.row.locations);
    }
  }

  lemma FetchOkExtends(env: Env, before: History, after: History, snap: Snapshot, fetched: seq<EncryptedShard>)
    requires Extends(before, after) && FetchOk(env, before, snap, fetched)
    ensures FetchOk(env, after, snap, fetched)
  {
    SnapshotOkExtends(env, before, after, snap);
  }

  /** A new put leaves what was there as it was. */
  lemma HistoryUpdate(env: Env, w: World, h: History)
    requires StoreOk(env, w.history, w.store) && CatalogOk(env, w.history, w.catalog) && OpsOk(env, w.history, w.ops)
    requires Extends(w.history, h)
    ensures StoreOk(env, h, w.store) && CatalogOk(env, h, w.catalog) && OpsOk(env, h, w.ops)
  {
    hide StoredOk, RowOk, OpOk, Extends;
    forall at | at in w.store
      ensures StoredOk(env, h, at.key, w.store[at])
    {
      StoredOkExtends(env, w.history, h, at.key, w.store[at]);
    }
    forall id | id in w.catalog
      ensures RowOk(env, h, id, w.catalog[id])
    {
      RowOkExtends(env, w.history, h, id, w.catalog[id]);
    }
    forall op | op in w.ops
      ensures OpOk(env, h, w.ops[op])
    {
      OpOkExtends(env, w.history, h, w.ops[op]);
    }
  }

  lemma HistoryGrows(h: History, ring: Ring, token: string, p: PutRecord, h': History)
    requires HistoryOk(h, ring) && token !in h.puts && p.dek !in h.deks
    requires p.objectId != "" && p.data != [] && Fits(p.data, p.spec) && p.kekId in ring && ring[p.kekId] == p.key
    requires h' == History(h.puts[token := p], h.deks[p.dek := token])
    ensures HistoryOk(h', ring) && Extends(h, h')
  {
  }

  /** A step that gives one operation a new state and changes nothing else. */
  lemma OpKeeps(env: Env, w: World, op: nat, o: Op)
    requires Inv(env, w) && OpOk(env, w.history, o)
    ensures Inv(env, SetOp(w, op, o))
  {
    hide OpsOk, StoreOk, CatalogOk, HistoryOk, OpOk;
    OpsUpdate(env, w.history, w.ops, op, o);
  }

  lemma StoreFacts(env: Env, w: World, at: Location)
    requires Inv(env, w) && at in w.store
    ensures StoredOk(env, w.history, at.key, w.store[at])
  {
    hide CatalogOk, OpsOk, HistoryOk, StoredOk;
  }

  /** What the invariant says of one operation. */
  lemma OpFacts(env: Env, w: World, op: nat)
    requires Inv(env, w) && op in w.ops
    ensures match w.ops[op]
      case Getting(snap, _, fetched) => FetchOk(env, w.history, snap, fetched)
      case Probing(snap, next, missing) =>
        SnapshotOk(env, w.history, snap) && next <= |snap.row.locations| && forall i :: i in missing ==> i < next
      case RepairFetching(snap, missing, _, fetched) =>
        FetchOk(env, w.history, snap, fetched) && forall i :: i in missing ==> i < |snap.row.locations|
      case RepairWriting(snap, shards, targets, _) => RepairOk(env, w.history, snap, shards, targets)
      case Moving(snap, targets, copies, _) => MoveOk(env, w.history, snap, targets, copies)
      case Choosing(groups, _, winners) => GroupsOk(groups) && WinnersOk(env, w.history, winners)
      case _ => OpOk(env, w.history, w.ops[op])
  {
    hide StoreOk, CatalogOk, HistoryOk, FetchOk, SnapshotOk, RepairOk, MoveOk, GroupsOk, WinnersOk;
    assert OpOk(env, w.history, w.ops[op]);
  }

  lemma MovingOk(env: Env, h: History, snap: Snapshot, targets: map<nat, string>, copies: map<nat, StoredShard>, done: set<nat>)
    ensures OpOk(env, h, Moving(snap, targets, copies, done)) <==> MoveOk(env, h, snap, targets, copies)
  {
    hide MoveOk;
  }

  lemma RepairWritingOk(env: Env, h: History, snap: Snapshot, shards: map<nat, EncryptedShard>, targets: map<nat, string>, done: set<nat>)
    ensures OpOk(env, h, RepairWriting(snap, shards, targets, done)) <==> RepairOk(env, h, snap, shards, targets)
  {
    hide RepairOk;
  }

  /* ---------- Put ---------- */

  lemma PutBeginKeeps(env: Env, w: World, s: Step)
    requires Inv(env, w) && s.PutBegin? && Enabled(env, w, s)
    ensures Inv(env, ApplyPutBegin(w, s))
  {
    hide StoreOk, CatalogOk, OpsOk, HistoryOk, Extends;
    var p := PutRecord(s.objectId, s.data, s.spec, s.dek, w.ring[w.active], w.active);
    var h := History(w.history.puts[s.token := p], w.history.deks[s.dek := s.token]);
    HistoryGrows(w.history, w.ring, s.token, p, h);
    HistoryUpdate(env, w, h);
    OpsUpdate(env, h, w.ops, s.op, Putting(s.token, p, s.writtenAt, s.nodes, {}));
  }

  lemma PutLocationsOk(env: Env, h: History, ring: Ring, token: string, p: PutRecord, nodes: seq<string>)
    requires HistoryOk(h, ring) && token in h.puts && h.puts[token] == p && |nodes| == p.spec.Total()
    ensures MetaOk(env, h, p.objectId, MetaOf(env, p))
    ensures LocationsOk(h, p.objectId, PutLocations(p.objectId, token, nodes))
  {
    assert ValidSpec(p.spec);
    assert PutLocations(p.objectId, token, nodes)[0].key.version == token;
  }

  lemma PutWriteKeeps(env: Env, w: World, op: nat, i: nat)
    requires Inv(env, w)
    requires op in w.ops && w.ops[op].Putting? && i < |w.ops[op].nodes| == w.ops[op].put.spec.Total()
    ensures Inv(env, ApplyPutWrite(env, w, op, i))
  {
    var o := w.ops[op];
    assert OpOk(env, w.history, o);
    hide StoreOk, CatalogOk, OpsOk, HistoryOk;
    StoreUpdate(env, w.history, w.store, PutLocations(o.put.objectId, o.token, o.nodes)[i],
                PutStored(env, o.token, o.put, o.writtenAt, i));
    OpsUpdate(env, w.history, w.ops, op, Putting(o.token, o.put, o.writtenAt, o.nodes, o.done + {i}));
  }

  lemma PutCommitKeeps(env: Env, w: World, op: nat)
    requires Inv(env, w) && op in w.ops && w.ops[op].Putting?
    ensures Inv(env, ApplyPutCommit(env, w, op))
  {
    var o := w.ops[op];
    assert OpOk(env, w.history, o);
    hide StoreOk, CatalogOk, OpsOk, HistoryOk, MetaOk, LocationsOk;
    PutLocationsOk(env, w.history, w.ring, o.token, o.put, o.nodes);
    CatalogUpdate(env, w.history, w.catalog, o.put.objectId, MetaOf(env, o.put), PutLocations(o.put.objectId, o.token, o.nodes), 0);
    OpsEnd(env, w.history, w.ops, op);
  }

  /* ---------- Reading a row ---------- */

  lemma SelectRowKeeps(env: Env, w: World, op: nat, purpose: Purpose, id: string)
    requires Inv(env, w) && id in w.catalog
    ensures Inv(env, SetOp(w, op, Reading(purpose, id, w.catalog[id], |w.removed|)))
  {
    OpKeeps(env, w, op, Reading(purpose, id, w.catalog[id], |w.removed|));
  }

  lemma AfterSelectOk(env: Env, h: History, purpose: Purpose, snap: Snapshot)
    requires SnapshotOk(env, h, snap)
    ensures OpOk(env, h, AfterSelect(purpose, snap))
  {
    hide SnapshotOk;
  }

  lemma SelectLocationsKeeps(env: Env, w: World, op: nat)
    requires Inv(env, w) && op in w.ops && w.ops[op].Reading?
    ensures Inv(env, ApplySelectLocations(w, op))
  {
    hide StoreOk, OpsOk, HistoryOk, MetaOk, LocationsOk;
    var o := w.ops[op];
    OpFacts(env, w, op);
    var locations := if o.id in w.catalog then w.catalog[o.id].locations else [];
    var snap := Snapshot(o.id, o.seen.(locations := locations), o.seen, o.mark);
    assert o.id in w.catalog ==> RowOk(env, w.history, o.id, w.catalog[o.id]);
    AfterSelectOk(env, w.history, o.purpose, snap);
    hide CatalogOk, RowOk, OpOk, SnapshotOk;
    OpKeeps(env, w, op, AfterSelect(o.purpose, snap));
  }

  /* ---------- Get ---------- */

  /** One more shard, taken from a location of the snapshot. */
  lemma FetchOne(env: Env, w: World, snap: Snapshot, fetched: seq<EncryptedShard>, i: nat)
    requires Inv(env, w) && FetchOk(env, w.history, snap, fetched)
    requires i < |snap.row.locations| && snap.row.locations[i] in w.store
    ensures FetchOk(env, w.history, snap, fetched + [w.store[snap.row.locations[i]].shard])
  {
    hide StoreOk, CatalogOk, OpsOk, HistoryOk;
    StoreFacts(env, w, snap.row.locations[i]);
  }

  lemma GetFetchKeeps(env: Env, w: World, op: nat, i: nat)
    requires Inv(env, w) && op in w.ops && w.ops[op].Getting?
    requires i < |w.ops[op].snap.row.locations| && w.ops[op].snap.row.locations[i] in w.store
    ensures Inv(env, ApplyGetFetch(w, op, i))
  {
    hide StoreOk, CatalogOk, OpsOk, HistoryOk, FetchOk;
    var o := w.ops[op];
    OpFacts(env, w, op);
    FetchOne(env, w, o.snap, o.fetched, i);
    OpKeeps(env, w, op, Getting(o.snap, o.asked + {i}, o.fetched + [w.store[o.snap.row.locations[i]].shard]));
  }

  /** The outcome of a read from a snapshot, by any operation. */
  lemma OutcomeOk(env: Env, w: World, snap: Snapshot, fetched: seq<EncryptedShard>)
    requires Inv(env, w) && FetchOk(env, w.history, snap, fetched)
    ensures var r := ReadOutcome(env, w.ring, snap.row.meta, fetched);
      && GotOk(env, w.history, snap.id, snap.row.meta, r)
      && (r.Ok? ==> snap.row.locations != [] && w.history.deks[snap.row.meta.encryptedDek.dek] == snap.Version())
  {
    hide StoreOk, CatalogOk, OpsOk, HistoryOk;
    var version := if fetched != [] then snap.Version() else "";
    ReadIsSafe(env, w.history, w.ring, snap.id, snap.row.meta, version, fetched);
  }

  lemma GetFinishKeeps(env: Env, w: World, op: nat)
    requires Inv(env, w) && op in w.ops && w.ops[op].Getting?
    ensures Inv(env, ApplyGetFinish(env, w, op))
  {
    hide StoreOk, CatalogOk, OpsOk, HistoryOk, FetchOk, ReadOutcome, GotOk;
    var o := w.ops[op];
    OpFacts(env, w, op);
    OutcomeOk(env, w, o.snap, o.fetched);
    OpKeeps(env, w, op, Got(o.snap.id, o.snap.row.meta, ReadOutcome(env, w.ring, o.snap.row.meta, o.fetched)));
  }

  /* ---------- Remove ---------- */

  lemma RemoveCommitKeeps(env: Env, w: World, op: nat)
    requires Inv(env, w) && op in w.ops && w.ops[op].Removing?
    ensures Inv(env, ApplyRemoveCommit(w, op))
  {
    hide StoreOk, OpsOk, HistoryOk, RowOk;
    OpsEnd(env, w.history, w.ops, op);
  }

  /* ---------- Repair ---------- */

  lemma ProbeKeeps(env: Env, w: World, op: nat, found: bool)
    requires Inv(env, w) && op in w.ops && w.ops[op].Probing? && w.ops[op].next < |w.ops[op].snap.row.locations|
    ensures Inv(env, ApplyProbe(w, op, found))
  {
    hide StoreOk, CatalogOk, OpsOk, HistoryOk, SnapshotOk;
    var o := w.ops[op];
    OpFacts(env, w, op);
    OpKeeps(env, w, op, Probing(o.snap, o.next + 1, if found then o.missing else o.missing + {o.next}));
  }

  lemma RepairStartKeeps(env: Env, w: World, op: nat)
    requires Inv(env, w) && op in w.ops && w.ops[op].Probing?
    ensures Inv(env, SetOp(w, op, RepairFetching(w.ops[op].snap, w.ops[op].missing, {}, [])))
  {
    var o := w.ops[op];
    assert OpOk(env, w.history, o);
    hide StoreOk, CatalogOk, OpsOk, HistoryOk, SnapshotOk;
    OpKeeps(env, w, op, RepairFetching(o.snap, o.missing, {}, []));
  }

  lemma RepairFetchKeeps(env: Env, w: World, op: nat, i: nat)
    requires Inv(env, w) && op in w.ops && w.ops[op].RepairFetching?
    requires i < |w.ops[op].snap.row.locations| && w.ops[op].snap.row.locations[i] in w.store
    ensures Inv(env, ApplyRepairFetch(w, op, i))
  {
    hide StoreOk, CatalogOk, OpsOk, HistoryOk, FetchOk;
    var o := w.ops[op];
    OpFacts(env, w, op);
    FetchOne(env, w, o.snap, o.fetched, i);
    OpKeeps(env, w, op, RepairFetching(o.snap, o.missing, o.asked + {i}, o.fetched + [w.store[o.snap.row.locations[i]].shard]));
  }

  /**
   Repair restores the original code word: a repair that gets as far as re-encoding holds, for
   every missing index, exactly the shard that the put wrote.
   */
  lemma ReencodedIsOriginal(env: Env, w: World, snap: Snapshot, missing: set<nat>, fetched: seq<EncryptedShard>, targets: map<nat, string>)
    requires Inv(env, w) && FetchOk(env, w.history, snap, fetched)
    requires forall i :: i in missing ==> i < |snap.row.locations|
    requires ReadOutcome(env, w.ring, snap.row.meta, fetched).Ok? && targets.Keys == missing
    ensures var meta := snap.row.meta;
      var data := ReadOutcome(env, w.ring, meta, fetched).value;
      RepairOk(env, w.history, snap, Reencoded(env, meta.encryptedDek.dek, data, meta.erasure, missing), targets)
  {
    hide StoreOk, CatalogOk, OpsOk, ReadOutcome;
    OutcomeOk(env, w, snap, fetched);
    var p := w.history.puts[snap.Version()];
    var data := ReadOutcome(env, w.ring, snap.row.meta, fetched).value;
    var shards := Reencoded(env, p.dek, data, p.spec, missing);
    assert snap.row.meta == MetaOf(env, p) && data == p.data;
    assert shards.Keys == missing;
  }

  lemma RepairReencodeKeeps(env: Env, w: World, op: nat, targets: map<nat, string>)
    requires Inv(env, w) && op in w.ops && w.ops[op].RepairFetching? && targets.Keys == w.ops[op].missing
    requires ReadOutcome(env, w.ring, w.ops[op].snap.row.meta, w.ops[op].fetched).Ok?
    ensures Inv(env, ApplyRepairReencode(env, w, op, targets))
  {
    hide StoreOk, CatalogOk, OpsOk, HistoryOk, FetchOk, ReadOutcome, RepairOk, Reencoded, OpOk;
    var o := w.ops[op];
    OpFacts(env, w, op);
    ReencodedIsOriginal(env, w, o.snap, o.missing, o.fetched, targets);
    var data := ReadOutcome(env, w.ring, o.snap.row.meta, o.fetched).value;
    var shards := Reencoded(env, o.snap.row.meta.encryptedDek.dek, data, o.snap.row.meta.erasure, o.missing);
    RepairWritingOk(env, w.history, o.snap, shards, targets, {});
    OpKeeps(env, w, op, RepairWriting(o.snap, shards, targets, {}));
  }

  lemma RepairStoredOk(env: Env, h: History, ring: Ring, snap: Snapshot, shards: map<nat, EncryptedShard>, targets: map<nat, string>, i: nat, writtenAt: nat)
    requires RepairOk(env, h, snap, shards, targets) && i in shards
    ensures StoredOk(env, h, RepairTarget(snap, targets, i).key,
                     StoredShard(Manifest(snap.id, snap.Version(), snap.row.meta, writtenAt), shards[i]))
  {
  }

  lemma RepairWriteKeeps(env: Env, w: World, op: nat, i: nat, writtenAt: nat)
    requires Inv(env, w) && op in w.ops && w.ops[op].RepairWriting? && i in w.ops[op].shards && i in w.ops[op].targets
    requires w.ops[op].snap.row.locations != []
    ensures Inv(env, ApplyRepairWrite(w, op, i, writtenAt))
  {
    hide StoreOk, CatalogOk, OpsOk, HistoryOk, RepairOk, StoredOk, OpOk;
    var o := w.ops[op];
    OpFacts(env, w, op);
    RepairStoredOk(env, w.history, w.ring, o.snap, o.shards, o.targets, i, writtenAt);
    StoreUpdate(env, w.history, w.store, RepairTarget(o.snap, o.targets, i),
                StoredShard(Manifest(o.snap.id, o.snap.Version(), o.snap.row.meta, writtenAt), o.shards[i]));
    RepairWritingOk(env, w.history, o.snap, o.shards, o.targets, o.done + {i});
    OpsUpdate(env, w.history, w.ops, op, RepairWriting(o.snap, o.shards, o.targets, o.done + {i}));
  }

  lemma RepairedLocationsOk(env: Env, h: History, snap: Snapshot, shards: map<nat, EncryptedShard>, targets: map<nat, string>)
    requires RepairOk(env, h, snap, shards, targets)
    ensures MetaOk(env, h, snap.id, snap.row.meta) && LocationsOk(h, snap.id, RepairedLocations(snap, targets))
  {
    hide MetaOk;
  }

  lemma RepairCommitKeeps(env: Env, w: World, op: nat)
    requires Inv(env, w) && op in w.ops && w.ops[op].RepairWriting? && w.ops[op].snap.row.locations != []
    ensures Inv(env, ApplyRepairCommit(w, op))
  {
    hide StoreOk, CatalogOk, OpsOk, HistoryOk, MetaOk, LocationsOk, RepairOk, OpOk;
    var o := w.ops[op];
    OpFacts(env, w, op);
    RepairedLocationsOk(env, w.history, o.snap, o.shards, o.targets);
    CatalogUpdate(env, w.history, w.catalog, o.snap.id, o.snap.row.meta, RepairedLocations(o.snap, o.targets), o.snap.row.version);
    OpsEnd(env, w.history, w.ops, op);
  }

  /* ---------- Rebalance ---------- */

  lemma MoveFetchKeeps(env: Env, w: World, op: nat, i: nat, target: string)
    requires Inv(env, w) && op in w.ops && w.ops[op].Moving?
    requires i < |w.ops[op].snap.row.locations| && w.ops[op].snap.row.locations[i] in w.store
    ensures Inv(env, ApplyMoveFetch(w, op, i, target))
  {
    hide StoreOk, CatalogOk, OpsOk, HistoryOk, StoredOk, SnapshotOk, OpOk;
    var o := w.ops[op];
    OpFacts(env, w, op);
    StoreFacts(env, w, o.snap.row.locations[i]);
    MovingOk(env, w.history, o.snap, o.targets[i := target], o.copies[i := w.store[o.snap.row.locations[i]]], o.done);
    OpKeeps(env, w, op, Moving(o.snap, o.targets[i := target], o.copies[i := w.store[o.snap.row.locations[i]]], o.done));
  }

  lemma MoveWriteKeeps(env: Env, w: World, op: nat, i: nat)
    requires Inv(env, w) && op in w.ops && w.ops[op].Moving? && i in w.ops[op].targets && i in w.ops[op].copies
    requires i < |w.ops[op].snap.row.locations|
    ensures Inv(env, ApplyMoveWrite(w, op, i))
  {
    hide StoreOk, CatalogOk, OpsOk, HistoryOk, StoredOk, SnapshotOk, OpOk;
    var o := w.ops[op];
    OpFacts(env, w, op);
    MovingOk(env, w.history, o.snap, o.targets, o.copies, o.done + {i});
    StoreUpdate(env, w.history, w.store, MoveTarget(o.snap, o.targets, i), o.copies[i]);
    OpsUpdate(env, w.history, w.ops, op, Moving(o.snap, o.targets, o.copies, o.done + {i}));
  }

  lemma MovedLocationsOk(env: Env, h: History, snap: Snapshot, targets: map<nat, string>, copies: map<nat, StoredShard>)
    requires MoveOk(env, h, snap, targets, copies) && targets != map[]
    ensures MetaOk(env, h, snap.id, snap.row.meta) && LocationsOk(h, snap.id, MovedLocations(snap, targets))
  {
    hide MetaOk, StoredOk;
    var i :| i in targets;
    assert i in copies;
  }

  lemma MoveCommitKeeps(env: Env, w: World, op: nat)
    requires Inv(env, w) && op in w.ops && w.ops[op].Moving? && w.ops[op].targets != map[]
    ensures Inv(env, ApplyMoveCommit(w, op))
  {
    hide StoreOk, CatalogOk, OpsOk, HistoryOk, MetaOk, LocationsOk, MoveOk, OpOk;
    var o := w.ops[op];
    OpFacts(env, w, op);
    MovedLocationsOk(env, w.history, o.snap, o.targets, o.copies);
    CatalogUpdate(env, w.history, w.catalog, o.snap.id, o.snap.row.meta, MovedLocations(o.snap, o.targets), o.snap.row.version);
    OpsEnd(env, w.history, w.ops, op);
  }

  /* ---------- Reindex ---------- */

  lemma ScanKeyKeeps(env: Env, w: World, op: nat, at: Location)
    requires Inv(env, w) && op in w.ops && w.ops[op].Scanning?
    ensures Inv(env, SetOp(w, op, Scanning(AddToGroups(w.ops[op].groups, at))))
  {
    hide StoreOk, CatalogOk, OpsOk, HistoryOk;
    OpFacts(env, w, op);
    OpKeeps(env, w, op, Scanning(AddToGroups(w.ops[op].groups, at)));
  }

  /** A manifest read from a stored shard describes that version's put. */
  lemma ManifestOk(env: Env, w: World, groups: map<GroupId, Group>, group: GroupId, winners: map<string, Candidate>)
    requires Inv(env, w) && GroupsOk(groups) && WinnersOk(env, w.history, winners)
    requires group in groups && groups[group].representative in w.store
    ensures WinnersOk(env, w.history, WithManifest(w.store, groups, group, winners))
  {
    hide CatalogOk, OpsOk, HistoryOk;
    var at := groups[group].representative;
    assert StoredOk(env, w.history, at.key, w.store[at]);
    assert IdOf(at.key) == group;
  }

  lemma ReadManifestKeeps(env: Env, w: World, op: nat, group: GroupId, found: bool)
    requires Inv(env, w) && op in w.ops && w.ops[op].Choosing? && group in w.ops[op].groups
    requires found ==> w.ops[op].groups[group].representative in w.store
    ensures Inv(env, ApplyReadManifest(w, op, group, found))
  {
    hide StoreOk, CatalogOk, OpsOk, HistoryOk, GroupsOk, WinnersOk, WithManifest;
    var o := w.ops[op];
    OpFacts(env, w, op);
    if found {
      ManifestOk(env, w, o.groups, group, o.winners);
    }
    OpKeeps(env, w, op, ApplyReadManifest(w, op, group, found).ops[op]);
  }

  lemma RebuiltOk(env: Env, h: History, ring: Ring, o: string, c: Candidate)
    requires HistoryOk(h, ring) && CandidateOk(env, h, o, c)
    ensures MetaOk(env, h, o, c.manifest.meta) && LocationsOk(h, o, RebuiltLocations(c))
  {
    var p := h.puts[c.id.version];
    assert Fits(p.data, p.spec);
    assert RebuiltLocations(c)[0].key.version == c.id.version;
  }

  lemma InsertWinnerKeeps(env: Env, w: World, op: nat, objectId: string)
    requires Inv(env, w) && op in w.ops && w.ops[op].Choosing? && objectId in w.ops[op].winners
    ensures Inv(env, ApplyInsertWinner(w, op, objectId))
  {
    var o := w.ops[op];
    var c := o.winners[objectId];
    assert OpOk(env, w.history, o);
    assert CandidateOk(env, w.history, objectId, c);
    hide StoreOk, CatalogOk, OpsOk, HistoryOk, MetaOk, LocationsOk, CandidateOk;
    RebuiltOk(env, w.history, w.ring, objectId, c);
    CatalogUpdate(env, w.history, w.catalog, objectId, c.manifest.meta, RebuiltLocations(c), 0);
  }

  /* ---------- The environment ---------- */

  lemma RotateKeeps(env: Env, w: World, keyId: string, key: Key)
    requires Inv(env, w) && keyId !in w.ring
    ensures Inv(env, w.(ring := w.ring[keyId := key], active := keyId))
  {
    hide StoreOk, CatalogOk, OpsOk;
  }

  lemma ScrambleKeeps(env: Env, w: World, at: Location)
    requires Inv(env, w) && at in w.store
    ensures Inv(env, w.(store := w.store[at := Scramble(w.store[at])]))
  {
    assert StoredOk(env, w.history, at.key, w.store[at]);
    assert StoredOk(env, w.history, at.key, Scramble(w.store[at]));
    hide StoreOk, CatalogOk, OpsOk, HistoryOk, StoredOk;
    StoreUpdate(env, w.history, w.store, at, Scramble(w.store[at]));
  }

  /* ---------- Every step, every run ---------- */

  lemma RemovalKeeps(env: Env, w: World, at: Location)
    requires Inv(env, w)
    ensures Inv(env, w.(store := w.store - {at}))
  {
    hide StoreOk, CatalogOk, OpsOk, HistoryOk;
    StoreRemove(env, w.history, w.store, at);
  }

  lemma EndKeeps(env: Env, w: World, op: nat)
    requires Inv(env, w)
    ensures Inv(env, EndOp(w, op))
  {
    hide StoreOk, CatalogOk, OpsOk, HistoryOk;
    OpsEnd(env, w.history, w.ops, op);
  }

  lemma ScanEndKeeps(env: Env, w: World, op: nat)
    requires Inv(env, w) && op in w.ops && w.ops[op].Scanning?
    ensures Inv(env, SetOp(w, op, Choosing(w.ops[op].groups, w.ops[op].groups.Keys, map[])))
    ensures Inv(env, SetOp(w, op, Scanning(map[])))
  {
    hide StoreOk, CatalogOk, OpsOk, HistoryOk;
    OpFacts(env, w, op);
    OpKeeps(env, w, op, Choosing(w.ops[op].groups, w.ops[op].groups.Keys, map[]));
    OpKeeps(env, w, op, Scanning(map[]));
  }

  lemma HealStepKeeps(env: Env, w: World, s: Step)
    requires Inv(env, w) && Enabled(env, w, s) && HealStep(s)
    ensures Inv(env, Apply(env, w, s))
  {
    hide Inv;
    match s
    case Probe(op, found) => ProbeKeeps(env, w, op, found);
    case RepairStart(op) => RepairStartKeeps(env, w, op);
    case RepairFetch(op, i) => RepairFetchKeeps(env, w, op, i);
    case RepairReencode(op, targets) => RepairReencodeKeeps(env, w, op, targets);
    case RepairWrite(op, i, writtenAt) => RepairWriteKeeps(env, w, op, i, writtenAt);
    case RepairCommit(op) => RepairCommitKeeps(env, w, op);
    case MoveFetch(op, i, target) => MoveFetchKeeps(env, w, op, i, target);
    case MoveWrite(op, i) => MoveWriteKeeps(env, w, op, i);
    case MoveCommit(op) => MoveCommitKeeps(env, w, op);
  }

  lemma ScanStepKeeps(env: Env, w: World, s: Step)
    requires Inv(env, w) && Enabled(env, w, s) && ScanStep(s)
    ensures Inv(env, Apply(env, w, s))
  {
    hide Inv;
    match s
    case ScanBegin(op) => ScanBeginKeeps(env, w, op);
    case ScanKey(op, at) => ScanKeyKeeps(env, w, op, at);
    case ScanEnd(op) => ScanEndKeeps(env, w, op);
    case ReadManifest(op, group, found) => ReadManifestKeeps(env, w, op, group, found);
    case InsertWinner(op, objectId) => InsertWinnerKeeps(env, w, op, objectId);
  }

  lemma UserStepKeeps(env: Env, w: World, s: Step)
    requires Inv(env, w) && Enabled(env, w, s) && !HealStep(s) && !ScanStep(s)
    ensures Inv(env, Apply(env, w, s))
  {
    hide Inv;
    match s
    case Rotate(keyId, key) => RotateKeeps(env, w, keyId, key);
    case LoseShard(at) => RemovalKeeps(env, w, at);
    case ScrambleShard(at) => ScrambleKeeps(env, w, at);
    case Abort(op) => EndKeeps(env, w, op);
    case PutBegin(_, _, _, _, _, _, _, _) => PutBeginKeeps(env, w, s);
    case PutWrite(op, i) => PutWriteKeeps(env, w, op, i);
    case PutCommit(op) => PutCommitKeeps(env, w, op);
    case SelectRow(op, purpose, id) => SelectRowKeeps(env, w, op, purpose, id);
    case SelectLocations(op) => SelectLocationsKeeps(env, w, op);
    case GetFetch(op, i) => GetFetchKeeps(env, w, op, i);
    case GetFinish(op) => GetFinishKeeps(env, w, op);
    case RemoveShard(op, i) => RemovalKeeps(env, w, w.ops[op].snap.row.locations[i]);
    case RemoveCommit(op) => RemoveCommitKeeps(env, w, op);
  }

  lemma StepKeepsInvariant(env: Env, w: World, s: Step)
    requires Inv(env, w) && Enabled(env, w, s)
    ensures Inv(env, Apply(env, w, s))
  {
    hide Inv, Enabled, Apply;
    if HealStep(s) {
      HealStepKeeps(env, w, s);
    } else if ScanStep(s) {
      ScanStepKeeps(env, w, s);
    } else {
      UserStepKeeps(env, w, s);
    }
  }

  lemma ScanBeginKeeps(env: Env, w: World, op: nat)
    requires Inv(env, w)
    ensures Inv(env, SetOp(w, op, Scanning(map[])))
  {
    hide StoreOk, CatalogOk, OpsOk, HistoryOk;
    OpKeeps(env, w, op, Scanning(map[]));
  }

  /** A run from a world that satisfies the invariant keeps it. */
  lemma {:induction false} InvariantAlong(env: Env, worlds: seq<World>, steps: seq<Step>, n: nat)
    requires IsRun(env, worlds, steps) && Inv(env, worlds[0]) && n <= |steps|
    ensures Inv(env, worlds[n])
  {
    hide Apply, Enabled, Inv;
    if n > 0 {
      InvariantAlong(env, worlds, steps, n - 1);
      assert Enabled(env, worlds[n - 1], steps[n - 1]);
      StepKeepsInvariant(env, worlds[n - 1], steps[n - 1]);
    }
  }

  lemma LeadsKeepsInvariant(env: Env, worlds: seq<World>, steps: seq<Step>, first: World, last: World)
    requires Leads(env, worlds, steps, first, last) && Inv(env, first)
    ensures Inv(env, last)
  {
    hide Inv, Enabled, Apply;
    InvariantAlong(env, worlds, steps, |steps|);
  }

  /** Every world of every run satisfies the invariant. */
  lemma RunKeepsInvariant(env: Env, worlds: seq<World>, steps: seq<Step>, n: nat)
    requires IsRun(env, worlds, steps) && Init(worlds[0]) && n <= |steps|
    ensures Inv(env, worlds[n])
  {
    hide Enabled, Apply;
    InvariantAlong(env, worlds, steps, n);
  }

  /** The metadata and the bytes are those of put p of the object. */
  ghost predicate IsReadOf(env: Env, p: PutRecord, id: string, meta: Meta, bytes: Bytes) {
    p.objectId == id && meta == MetaOf(env, p) && bytes == p.data
  }

  /**
   Get safety, over every interleaving of puts, gets, removes, repairs, rebalances, reindexes and
   rotations, and any loss or damage of shards: a get that returns bytes returns those of one
   put of the object, the one whose metadata it read, and never fails with a checksum mismatch.
   */
  lemma GetReturnsOnePut(env: Env, worlds: seq<World>, steps: seq<Step>, n: nat, op: nat)
    requires IsRun(env, worlds, steps) && Init(worlds[0]) && n <= |steps|
    requires op in worlds[n].ops && worlds[n].ops[op].Got?
    ensures var h, got := worlds[n].history, worlds[n].ops[op];
      && got.result != Err(ChecksumMismatch)
      && (got.result.Ok? ==> exists t :: t in h.puts && IsReadOf(env, h.puts[t], got.id, got.meta, got.result.value))
  {
    RunKeepsInvariant(env, worlds, steps, n);
    OpFacts(env, worlds[n], op);
    var h, got := worlds[n].history, worlds[n].ops[op];
    assert GotOk(env, h, got.id, got.meta, got.result);
    if got.result.Ok? {
      assert IsReadOf(env, h.puts[h.deks[got.meta.encryptedDek.dek]], got.id, got.meta, got.result.value);
    }
  }

  /** A repair's own checksum test never fires either, and it re-encodes only the bytes of the put it read. */
  lemma RepairDecodesThePut(env: Env, worlds: seq<World>, steps: seq<Step>, n: nat, op: nat)
    requires IsRun(env, worlds, steps) && Init(worlds[0]) && n <= |steps|
    requires op in worlds[n].ops && worlds[n].ops[op].RepairFetching?
    ensures var w, o := worlds[n], worlds[n].ops[op];
      var r := ReadOutcome(env, w.ring, o.snap.row.meta, o.fetched);
      && r != Err(ChecksumMismatch)
      && (r.Ok? ==> o.snap.row.locations != [] && o.snap.Version() in w.history.puts)
      && (r.Ok? ==> IsReadOf(env, w.history.puts[o.snap.Version()], o.snap.id, o.snap.row.meta, r.value))
  {
    RunKeepsInvariant(env, worlds, steps, n);
    OpFacts(env, worlds[n], op);
    hide ReadOutcome, Inv;
    OutcomeOk(env, worlds[n], worlds[n].ops[op].snap, worlds[n].ops[op].fetched);
  }

  /**
   After any run, any shards of one version with k distinct indices that still open, original,
   moved or repaired in any mixture, read back as the bytes of that version's put, unless their
   generator rows cannot be inverted.
   */
  lemma MixedShardsReadBack(env: Env, w: World, t: string, at: seq<Location>)
    requires Inv(env, w) && t in w.history.puts
    requires forall j :: 0 <= j < |at| ==> at[j] in w.store && at[j].key.version == t
    requires var p := w.history.puts[t];
      |OpenIndices(seq(|at|, j requires 0 <= j < |at| => w.store[at[j]].shard), p.dek)| >= p.spec.dataShards
    ensures var p := w.history.puts[t];
      var r := ReadOutcome(env, w.ring, MetaOf(env, p), seq(|at|, j requires 0 <= j < |at| => w.store[at[j]].shard));
      r == Ok(p.data) || r == Err(CodecFailure(InversionFailed))
  {
    var p := w.history.puts[t];
    var fetched := seq(|at|, j requires 0 <= j < |at| => w.store[at[j]].shard);
    assert FetchedOk(env, w.history, t, fetched) by {
      forall j | 0 <= j < |fetched|
        ensures ShardOf(env, p, fetched[j].index, fetched[j])
      {
        StoreFacts(env, w, at[j]);
      }
    }
    FetchedGenuine(env, w.history, w.ring, t, t, fetched);
    assert w.ring[p.kekId] in w.ring.Values;
    ReadReturnsThePut(env, w.ring, p, fetched);
  }

  /**
   Key recovery, over all rotations: in every reachable world the active key is in the ring, and
   the DEK of every committed row and of every stored manifest is recovered, with the key id that
   it records still in the ring.
   */
  lemma KeysStayRecoverable(env: Env, worlds: seq<World>, steps: seq<Step>, n: nat)
    requires IsRun(env, worlds, steps) && Init(worlds[0]) && n <= |steps|
    ensures var w := worlds[n];
      && w.active in w.ring
      && (forall id :: id in w.catalog ==> DekRecoverable(w.ring, w.catalog[id].meta))
      && (forall at :: at in w.store ==> DekRecoverable(w.ring, w.store[at].manifest.meta))
  {
    RunKeepsInvariant(env, worlds, steps, n);
    var w := worlds[n];
    forall id | id in w.catalog
      ensures DekRecoverable(w.ring, w.catalog[id].meta)
    {
      assert RowOk(env, w.history, id, w.catalog[id]);
      PutRecoverable(env, w.history, w.ring, w.history.deks[w.catalog[id].meta.encryptedDek.dek]);
    }
    forall at | at in w.store
      ensures DekRecoverable(w.ring, w.store[at].manifest.meta)
    {
      StoreFacts(env, w, at);
      PutRecoverable(env, w.history, w.ring, at.key.version);
    }
  }

  ghost predicate DekRecoverable(ring: Ring, meta: Meta) {
    meta.kekId in ring && RecoveredDek(ring, meta.encryptedDek) == Some(meta.encryptedDek.dek)
  }

  lemma PutRecoverable(env: Env, h: History, ring: Ring, t: string)
    requires HistoryOk(h, ring) && t in h.puts
    ensures DekRecoverable(ring, MetaOf(env, h.puts[t]))
  {
    assert ring[h.puts[t].kekId] in ring.Values;
  }
}
