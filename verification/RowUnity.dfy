/**
 A row of one put: the metadata and every location come from the same put. All
 steps keep rows so, except a rebalance that commits over a mixed reading; and
 that takes a remove between its reading and its commit.
 */
module RowUnity {
  import opened ErasureCodec
  import opened MetadataStore
  import opened Shards
  import opened History
  import opened Reindex
  import opened Protocol
  import opened CatalogChanges
  import opened Invariant
  import opened Fence
  import opened Runs
  import opened FenceLimits

  /** The locations are those of the put that drew the DEK. */
  ghost predicate OfOnePut(h: History, meta: Meta, locations: seq<Location>) {
    && locations != [] && meta.encryptedDek.dek in h.deks
    && h.deks[meta.encryptedDek.dek] == locations[0].key.version
  }

  ghost predicate RowsOfOnePut(h: History, catalog: Catalog<Location>) {
    forall id :: id in catalog ==> OfOnePut(h, catalog[id].meta, catalog[id].locations)
  }

  /** A rebalance is about to store metadata of one put with locations of another. */
  ghost predicate Mixes(w: World, s: Step) {
    && s.MoveCommit? && CommitSucceeds(w, s)
    && !OfOnePut(w.history, w.ops[s.op].snap.row.meta, w.ops[s.op].snap.row.locations)
  }

  lemma RowWrittenOfOnePut(h: History, catalog: Catalog<Location>, id: string, meta: Meta, locations: seq<Location>, expected: nat)
    requires RowsOfOnePut(h, catalog) && OfOnePut(h, meta, locations)
    ensures RowsOfOnePut(h, PutRow(catalog, id, meta, locations))
    ensures RowsOfOnePut(h, ConditionalPutRow(catalog, id, meta, locations, expected))
    ensures RowsOfOnePut(h, InsertRow(catalog, id, meta, locations))
  {
    hide OfOnePut;
  }

  lemma PutBeginUnity(env: Env, w: World, s: Step)
    requires RowsOfOnePut(w.history, w.catalog) && s.PutBegin? && Enabled(env, w, s)
    ensures var w' := Apply(env, w, s); RowsOfOnePut(w'.history, w'.catalog)
  {
  }

  lemma PutCommitUnity(env: Env, w: World, op: nat)
    requires Inv(env, w) && RowsOfOnePut(w.history, w.catalog) && Enabled(env, w, PutCommit(op))
    ensures var w' := Apply(env, w, PutCommit(op)); RowsOfOnePut(w'.history, w'.catalog)
  {
    hide StoreOk, CatalogOk, OpsOk, RowsOfOnePut, PutRow;
    OpFacts(env, w, op);
    var o := w.ops[op];
    RowWrittenOfOnePut(w.history, w.catalog, o.put.objectId, MetaOf(env, o.put), PutLocations(o.put.objectId, o.token, o.nodes), 0);
  }

  /** A repair has decoded the shards of the locations with the row's own DEK, so both come from one put. */
  lemma RepairCommitUnity(env: Env, w: World, op: nat)
    requires Inv(env, w) && RowsOfOnePut(w.history, w.catalog) && Enabled(env, w, RepairCommit(op))
    ensures var w' := Apply(env, w, RepairCommit(op)); RowsOfOnePut(w'.history, w'.catalog)
  {
    hide StoreOk, CatalogOk, OpsOk, HistoryOk, RowsOfOnePut, ConditionalPutRow, LocationsOk;
    OpFacts(env, w, op);
    var o := w.ops[op];
    RowWrittenOfOnePut(w.history, w.catalog, o.snap.id, o.snap.row.meta, RepairedLocations(o.snap, o.targets), o.snap.row.version);
  }

  lemma MoveCommitUnity(env: Env, w: World, op: nat)
    requires Enabled(env, w, MoveCommit(op))
    ensures var w' := Apply(env, w, MoveCommit(op));
      && (Mixes(w, MoveCommit(op)) ==> !RowsOfOnePut(w'.history, w'.catalog))
      && (RowsOfOnePut(w.history, w.catalog) && !Mixes(w, MoveCommit(op)) ==> RowsOfOnePut(w'.history, w'.catalog))
  {
    var snap := w.ops[op].snap;
    var locations := MovedLocations(snap, w.ops[op].targets);
    assert OfOnePut(w.history, snap.row.meta, locations) <==> OfOnePut(w.history, snap.row.meta, snap.row.locations);
    hide OfOnePut, MovedLocations;
    var after := Apply(env, w, MoveCommit(op)).catalog;
    if CommitSucceeds(w, MoveCommit(op)) {
      assert snap.id in after && after[snap.id].meta == snap.row.meta && after[snap.id].locations == locations;
    }
  }

  lemma RebuiltUnity(env: Env, w: World, objectId: string, c: Candidate)
    requires Inv(env, w) && CandidateOk(env, w.history, objectId, c)
    ensures OfOnePut(w.history, c.manifest.meta, RebuiltLocations(c))
  {
  }

  lemma InsertWinnerUnity(env: Env, w: World, op: nat, objectId: string)
    requires Inv(env, w) && RowsOfOnePut(w.history, w.catalog) && Enabled(env, w, InsertWinner(op, objectId))
    ensures var w' := Apply(env, w, InsertWinner(op, objectId)); RowsOfOnePut(w'.history, w'.catalog)
  {
    hide Inv, CandidateOk, RowsOfOnePut, InsertRow, OfOnePut;
    OpFacts(env, w, op);
    var c := w.ops[op].winners[objectId];
    assert CandidateOk(env, w.history, objectId, c) by { assert WinnersOk(env, w.history, w.ops[op].winners); }
    RebuiltUnity(env, w, objectId, c);
    RowWrittenOfOnePut(w.history, w.catalog, objectId, c.manifest.meta, RebuiltLocations(c), 0);
  }

  lemma RemoveCommitUnity(env: Env, w: World, op: nat)
    requires RowsOfOnePut(w.history, w.catalog) && Enabled(env, w, RemoveCommit(op))
    ensures var w' := Apply(env, w, RemoveCommit(op)); RowsOfOnePut(w'.history, w'.catalog)
  {
  }

  /** All other steps leave the history and the catalog as they are. */
  lemma OtherStepUnity(env: Env, w: World, s: Step)
    requires Enabled(env, w, s)
    requires !s.PutBegin? && !s.PutCommit? && !s.RepairCommit? && !s.MoveCommit? && !s.InsertWinner? && !s.RemoveCommit?
    ensures Apply(env, w, s).history == w.history && Apply(env, w, s).catalog == w.catalog
  {
    hide Reencoded, ReadOutcome, AddToGroups, WithManifest;
  }

  /** Which step stores a mixed row: a rebalance's commit over a mixed reading, and nothing else. */
  lemma MixedExactlyByStaleMove(env: Env, w: World, s: Step)
    requires Inv(env, w) && RowsOfOnePut(w.history, w.catalog) && Enabled(env, w, s)
    ensures var w' := Apply(env, w, s);
      RowsOfOnePut(w'.history, w'.catalog) <==> !Mixes(w, s)
  {
    hide Inv, RowsOfOnePut, OfOnePut, Enabled, Apply, CommitSucceeds;
    match s
    case PutBegin(_, _, _, _, _, _, _, _) => PutBeginUnity(env, w, s);
    case PutCommit(op) => PutCommitUnity(env, w, op);
    case RepairCommit(op) => RepairCommitUnity(env, w, op);
    case MoveCommit(op) => MoveCommitUnity(env, w, op);
    case InsertWinner(op, objectId) => InsertWinnerUnity(env, w, op, objectId);
    case RemoveCommit(op) => RemoveCommitUnity(env, w, op);
    case _ => OtherStepUnity(env, w, s);
  }

  /** No rebalance commits over a row that was removed since it was read. */
  ghost predicate NoStaleMove(w: World, s: Step) {
    s.MoveCommit? && CommitSucceeds(w, s) ==>
      var snap := CommitSnapshot(w, s).value; !RemovedSince(w.removed, snap.mark, snap.id)
  }

  /** In every such run each row's size, checksum, specification, DEK and locations come from one put of the object. */
  lemma {:induction false} RowsComeFromOnePut(env: Env, worlds: seq<World>, steps: seq<Step>, n: nat)
    requires IsRun(env, worlds, steps) && Init(worlds[0]) && n <= |steps|
    requires forall i :: 0 <= i < n ==> NoStaleMove(worlds[i], steps[i])
    ensures RowsOfOnePut(worlds[n].history, worlds[n].catalog)
    ensures forall id :: id in worlds[n].catalog ==> RowOk(env, worlds[n].history, id, worlds[n].catalog[id])
  {
    hide Apply, Enabled, CommitSucceeds, OfOnePut, RowOk, Mixes, NoStaleMove;
    RunKeepsInvariant(env, worlds, steps, n);
    if n > 0 {
      var w, s := worlds[n - 1], steps[n - 1];
      RowsComeFromOnePut(env, worlds, steps, n - 1);
      RunKeepsInvariant(env, worlds, steps, n - 1);
      assert Enabled(env, w, s) && NoStaleMove(w, s);
      MixedExactlyByStaleMove(env, w, s);
      if Mixes(w, s) {
        MoveNotMixed(env, worlds, steps, n - 1);
      }
    }
  }

  lemma MoveNotMixed(env: Env, worlds: seq<World>, steps: seq<Step>, n: nat)
    requires IsRun(env, worlds, steps) && Init(worlds[0]) && n < |steps|
    requires RowsOfOnePut(worlds[n].history, worlds[n].catalog) && NoStaleMove(worlds[n], steps[n])
    ensures !Mixes(worlds[n], steps[n])
  {
    hide Apply, Enabled, OfOnePut;
    if Mixes(worlds[n], steps[n]) {
      CommitOverRowAsRead(env, worlds, steps, n);
    }
  }

  /* ---------- Mixed readings by their two SELECTs ---------- */

  /** What an operation saw first was a row of one put. */
  ghost predicate SeenOfOnePut(h: History, o: Op) {
    && (o.Reading? ==> OfOnePut(h, o.seen.meta, o.seen.locations))
    && (SnapOf(o).Some? ==> OfOnePut(h, SnapOf(o).value.seen.meta, SnapOf(o).value.seen.locations))
  }

  ghost predicate ReadingsOfOnePut(w: World) {
    forall op :: op in w.ops ==> SeenOfOnePut(w.history, w.ops[op])
  }

  lemma HistoryStep(env: Env, w: World, s: Step)
    requires Enabled(env, w, s)
    ensures forall d :: d in w.history.deks ==> d in Apply(env, w, s).history.deks && Apply(env, w, s).history.deks[d] == w.history.deks[d]
  {
    if s.PutBegin? {
    } else {
      StepActs(env, w, s);
    }
  }

  lemma SelectRowUnity(env: Env, w: World, s: Step)
    requires s.SelectRow? && Enabled(env, w, s) && RowsOfOnePut(w.history, w.catalog) && ReadingsOfOnePut(w)
    ensures ReadingsOfOnePut(Apply(env, w, s))
  {
    assert SeenOfOnePut(w.history, Reading(s.purpose, s.id, w.catalog[s.id], |w.removed|));
    hide SeenOfOnePut;
  }

  lemma SelectLocationsUnity(env: Env, w: World, s: Step)
    requires s.SelectLocations? && Enabled(env, w, s) && ReadingsOfOnePut(w)
    ensures ReadingsOfOnePut(Apply(env, w, s))
  {
    assert SeenOfOnePut(w.history, w.ops[s.op]);
    assert SeenOfOnePut(w.history, Apply(env, w, s).ops[s.op]);
    hide SeenOfOnePut;
  }

  lemma ReadingsStayOfOnePut(env: Env, w: World, s: Step)
    requires Enabled(env, w, s) && RowsOfOnePut(w.history, w.catalog) && ReadingsOfOnePut(w)
    ensures ReadingsOfOnePut(Apply(env, w, s))
  {
    hide Enabled, Apply, OfOnePut, RowsOfOnePut;
    if s.SelectRow? {
      SelectRowUnity(env, w, s);
    } else if s.SelectLocations? {
      SelectLocationsUnity(env, w, s);
    } else {
      HistoryStep(env, w, s);
      StepKeepsReadings(env, w, s);
      var w' := Apply(env, w, s);
      forall op | op in w'.ops
        ensures SeenOfOnePut(w'.history, w'.ops[op])
      {
        if !NoReading(w'.ops[op]) {
          assert SeenOfOnePut(w.history, w.ops[op]);
          SeenLater(w.history, w'.history, w.ops[op]);
        }
      }
    }
  }

  lemma SeenLater(h: History, h': History, o: Op)
    requires SeenOfOnePut(h, o) && forall d :: d in h.deks ==> d in h'.deks && h'.deks[d] == h.deks[d]
    ensures SeenOfOnePut(h', o)
  {
  }

  /** While no commit has mixed, every reading began with a row of one put. */
  lemma {:induction false} ReadingsComeFromOnePut(env: Env, worlds: seq<World>, steps: seq<Step>, n: nat)
    requires IsRun(env, worlds, steps) && Init(worlds[0]) && n <= |steps|
    requires forall i :: 0 <= i < n ==> !Mixes(worlds[i], steps[i])
    ensures RowsOfOnePut(worlds[n].history, worlds[n].catalog) && ReadingsOfOnePut(worlds[n])
  {
    hide Apply, Enabled, Mixes, SeenOfOnePut, OfOnePut;
    if n > 0 {
      var w, s := worlds[n - 1], steps[n - 1];
      ReadingsComeFromOnePut(env, worlds, steps, n - 1);
      RunKeepsInvariant(env, worlds, steps, n - 1);
      assert Enabled(env, w, s) && !Mixes(w, s);
      MixedExactlyByStaleMove(env, w, s);
      ReadingsStayOfOnePut(env, w, s);
    }
  }

  /** The two SELECTs of a rebalance that is about to commit named different puts. */
  ghost predicate SelectsDiffer(w: World, s: Step) {
    && s.MoveCommit? && CommitSucceeds(w, s)
    && w.ops[s.op].snap.row.locations != [] && w.ops[s.op].snap.seen.locations != []
    && w.ops[s.op].snap.seen.locations[0].key.version != w.ops[s.op].snap.row.locations[0].key.version
  }

  /**
   The first commit of a run that mixes is one whose two SELECTs returned locations of different
   versions: something the rebalance could have compared before it committed.
   */
  lemma MixesExactlyWhenSelectsDiffer(env: Env, worlds: seq<World>, steps: seq<Step>, n: nat)
    requires IsRun(env, worlds, steps) && Init(worlds[0]) && n < |steps|
    requires forall i :: 0 <= i < n ==> !Mixes(worlds[i], steps[i])
    ensures Mixes(worlds[n], steps[n]) <==> SelectsDiffer(worlds[n], steps[n])
  {
    var w, s := worlds[n], steps[n];
    ReadingsComeFromOnePut(env, worlds, steps, n);
    RunKeepsFence(env, worlds, steps, n);
    RunKeepsInvariant(env, worlds, steps, n);
    assert Enabled(env, w, s);
    if s.MoveCommit? && CommitSucceeds(w, s) {
      assert SeenOfOnePut(w.history, w.ops[s.op]) && OpFenced(w.catalog, w.removed, w.ops[s.op]);
      MovesSomething(env, w, s.op);
    }
  }

  lemma MovesSomething(env: Env, w: World, op: nat)
    requires Inv(env, w) && Enabled(env, w, MoveCommit(op))
    ensures w.ops[op].snap.row.locations != []
  {
    OpFacts(env, w, op);
    var i :| i in w.ops[op].targets;
    assert i in w.ops[op].copies;
  }

  /* ---------- How a mixed row comes about ---------- */

  /** The DEK of a committed row was drawn by an earlier put. */
  lemma OldDek(env: Env, w: World, id: string)
    requires Inv(env, w) && id in w.catalog
    ensures w.catalog[id].meta.encryptedDek.dek in w.history.deks
    ensures w.history.deks[w.catalog[id].meta.encryptedDek.dek] in w.history.puts
  {
    assert RowOk(env, w.history, id, w.catalog[id]);
  }

  /** Metadata from before a put, with the locations of that put. */
  lemma NotOfOnePut(h: History, meta: Meta, u: Upload)
    requires meta.encryptedDek.dek in h.deks && h.deks[meta.encryptedDek.dek] != u.token
    ensures !OfOnePut(h, meta, Locations(u))
  {
  }

  /**
   From any reachable world and any of its rows, a run in which a rebalance stores a row that is
   not of one put: a remove and as many puts as the version counted fall between its two SELECTs,
   and the last of them has as many shards.
   */
  lemma TornReadMixes(env: Env, w: World, op: nat, other: nat, us: seq<Upload>, id: string) returns (worlds: seq<World>, steps: seq<Step>, last: World)
    requires Inv(env, w) && op !in w.ops && other !in w.ops && op != other
    requires id in w.catalog && CanFollow(w, us, id) && |us| == w.catalog[id].version > 0
    requires |us[|us| - 1].nodes| == w.catalog[id].meta.erasure.Total()
    ensures Leads(env, worlds, steps, w, last)
    ensures !RowsOfOnePut(last.history, last.catalog)
  {
    var snap, torn := TornSnapshot(w, us, id), Torn(env, w, op, us, id);
    TornIsMixed(env, w, op, other, us, id);
    UploadPresent(env, w, op, us, id);
    hide Inv, RowsOfOnePut, OfOnePut, Leads, Torn, CanFollow, TornSnapshot, FullRow, Fresh;
    var a, s := TornRead(env, w, op, other, us, id);
    var b, t;
    b, t, last := MixedCommitRun(env, torn, op, snap);
    worlds, steps := Joined(env, a, s, b, t, w, torn, last);
  }

  /** A rebalance with a mixed reading at a current version copies a shard and stores the mixture. */
  lemma MixedCommitRun(env: Env, w: World, op: nat, snap: Snapshot) returns (worlds: seq<World>, steps: seq<Step>, last: World)
    requires op in w.ops && w.ops[op] == Fresh(snap) && FullRow(snap) && snap.row.locations[0] in w.store
    requires VersionMatches(w.catalog, snap.id, snap.row.version) && !OfOnePut(w.history, snap.row.meta, snap.row.locations)
    ensures Leads(env, worlds, steps, w, last)
    ensures !RowsOfOnePut(last.history, last.catalog)
  {
    var moved := MovedFirst(w, op, snap, "c");
    MovedFacts(w, op, snap, "c");
    hide Enabled, Apply, RowsOfOnePut, OfOnePut, Leads, MovedFirst, Fresh;
    worlds, steps := MoveRun(env, w, op, snap, "c");
    MoveCommitUnity(env, moved, op);
    worlds, steps := OneMore(env, worlds, steps, w, moved, MoveCommit(op));
    last := Apply(env, moved, MoveCommit(op));
  }

  lemma {:induction false} TornIsMixed(env: Env, w: World, op: nat, other: nat, us: seq<Upload>, id: string)
    requires Inv(env, w) && op !in w.ops && other !in w.ops && op != other
    requires id in w.catalog && CanFollow(w, us, id) && |us| == w.catalog[id].version > 0
    ensures var snap := TornSnapshot(w, us, id); !OfOnePut(Torn(env, w, op, us, id).history, snap.row.meta, snap.row.locations)
  {
    OldDek(env, w, id);
    assert CanBegin(w, us[|us| - 1]);
    hide Inv, CanFollow, Torn, Leads, Locations;
    var worlds, steps := TornRead(env, w, op, other, us, id);
    NotOfOnePut(Torn(env, w, op, us, id).history, w.catalog[id].meta, us[|us| - 1]);
  }

  lemma MovedFacts(w: World, op: nat, snap: Snapshot, target: string)
    requires FullRow(snap) && snap.row.locations[0] in w.store
    ensures var w' := MovedFirst(w, op, snap, target);
      w'.history == w.history && w'.catalog == w.catalog && op in w'.ops && w'.ops[op].Moving? && w'.ops[op].snap == snap
  {
  }

  /** The torn reading can be moved: its row is full and its first shard is there. */
  lemma UploadPresent(env: Env, w: World, op: nat, us: seq<Upload>, id: string)
    requires id in w.catalog && CanFollow(w, us, id) && us != []
    requires |us[|us| - 1].nodes| == w.catalog[id].meta.erasure.Total()
    ensures var torn, snap := Torn(env, w, op, us, id), TornSnapshot(w, us, id);
      && op in torn.ops && torn.ops[op] == Fresh(snap) && FullRow(snap)
      && snap.row.locations[0] in torn.store && snap.id == id
  {
    var u := us[|us| - 1];
    var w1 := ReadingRow(w, op, id);
    StillFollow(w, w1, us, id);
    StillFollow(w1, AfterRemove(w1, id), us, id);
    assert CanBegin(w, u);
    UploadedShards(env, AfterPuts(env, AfterRemove(w1, id), us[..|us| - 1], id).store, u, |u.nodes|);
  }

  /** The puts that the run needs exist for every row, whatever its specification. */
  lemma PutsLikeRow(env: Env, w: World, id: string, n: nat) returns (us: seq<Upload>)
    requires Inv(env, w) && id in w.catalog
    ensures CanFollow(w, us, id) && |us| == n
    ensures forall i :: 0 <= i < n ==> |us[i].nodes| == w.catalog[id].meta.erasure.Total()
  {
    assert RowOk(env, w.history, id, w.catalog[id]);
    var spec := w.catalog[id].meta.erasure;
    var p := w.history.puts[w.history.deks[w.catalog[id].meta.encryptedDek.dek]];
    assert Fits(p.data, p.spec) && p.spec == spec && p.objectId == id != "";
    OneByteFits(spec);
    us := PutsCanFollow(w, id, n, [0], spec, seq(spec.Total(), i => "a"));
  }

  lemma OneByteFits(spec: ErasureSpec)
    requires ValidSpec(spec)
    ensures Fits([0], spec)
  {
    assert spec.dataShards * spec.shardSize >= 1 * spec.shardSize by {
      assert (spec.dataShards - 1) * spec.shardSize >= 0;
    }
  }

  /** Hence every row of every world that is reached can come to be of two puts. */
  lemma EveryRowCanBeMixed(env: Env, before: seq<World>, taken: seq<Step>, n: nat, op: nat, other: nat, id: string)
    returns (worlds: seq<World>, steps: seq<Step>, last: World)
    requires IsRun(env, before, taken) && Init(before[0]) && n <= |taken|
    requires op !in before[n].ops && other !in before[n].ops && op != other && id in before[n].catalog
    ensures Leads(env, worlds, steps, before[n], last)
    ensures !RowsOfOnePut(last.history, last.catalog)
  {
    var w := before[n];
    RunKeepsInvariant(env, before, taken, n);
    VersionsStartAtOne(env, before, taken, n);
    hide Inv, IsRun, Init, Leads, RowsOfOnePut, CanFollow;
    var us := PutsLikeRow(env, w, id, w.catalog[id].version);
    worlds, steps, last := TornReadMixes(env, w, op, other, us, id);
  }
}
