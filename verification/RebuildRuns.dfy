/**
 Runs after which a rebuild gives back another put than the lost row named, or
 an object although it has no row, and one after which the report counts an
 object as degraded that the documentation would not.
 */
module RebuildRuns {
  import opened Collections
  import opened ErasureCodec
  import opened MetadataStore
  import opened ShardKeys
  import opened Shards
  import opened Reindex
  import opened Protocol
  import opened Invariant
  import opened Runs
  import opened FenceLimits
  import opened Rebuild
  import opened RebuildResults

  function GroupOf(u: Upload): GroupId {
    GroupId(u.put.objectId, u.token)
  }

  /** The shards of the put's version are its first n, as it wrote them. */
  ghost predicate HoldsUpload(env: Env, store: ShardStore, u: Upload, n: nat) {
    && n <= |u.nodes| == u.put.spec.Total()
    && (forall i :: 0 <= i < n ==> Locations(u)[i] in store && store[Locations(u)[i]] == PutStored(env, u.token, u.put, u.writtenAt, i))
    && (forall at :: at in store && IdOf(at.key) == GroupOf(u) ==> exists i :: 0 <= i < n && at == Locations(u)[i])
  }

  lemma UploadLocation(u: Upload, i: nat)
    requires i < |u.nodes|
    ensures Locations(u)[i] == Location(u.nodes[i], ShardKey(u.put.objectId, u.token, i)) && IdOf(Locations(u)[i].key) == GroupOf(u)
  {
  }

  /** The indices found of a version that was put and never touched again. */
  lemma {:induction false} UploadIndices(env: Env, store: ShardStore, pass: Pass, u: Upload, n: nat)
    requires HoldsUpload(env, store, u, n) && Elems(u.nodes) <= pass.nodes
    ensures StoredIndices(store, pass.nodes, GroupOf(u)) == Below(n)
  {
    hide PutStored, Locations;
    BelowMembers(n);
    forall i | 0 <= i < n
      ensures i in StoredIndices(store, pass.nodes, GroupOf(u))
    {
      UploadLocation(u, i);
      assert u.nodes[i] in Elems(u.nodes);
      assert Locations(u)[i] in Visible(store, pass.nodes);
    }
    forall i | i in StoredIndices(store, pass.nodes, GroupOf(u))
      ensures i < n
    {
      var at :| at in Visible(store, pass.nodes) && IdOf(at.key) == GroupOf(u) && at.key.index == i;
      var j :| 0 <= j < n && at == Locations(u)[j];
      UploadLocation(u, j);
    }
  }

  /** Its candidate. */
  lemma UploadCandidate(env: Env, store: ShardStore, pass: Pass, u: Upload, n: nat)
    requires HoldsUpload(env, store, u, n) && n > 0
    requires Finds(store, pass) && Elems(u.nodes) <= pass.nodes
    ensures GroupOf(u) in pass.groups
    ensures var c := CandidateOf(store, pass.groups, GroupOf(u));
      c.manifest == Manifest(u.put.objectId, u.token, MetaOf(env, u.put), u.writtenAt) && c.Count() == n
  {
    var g := GroupOf(u);
    UploadIndices(env, store, pass, u, n);
    BelowMembers(n);
    BelowSize(n);
    hide MetaOf, PutShard, Locations, Elems;
    assert 0 in StoredIndices(store, pass.nodes, g);
    FoundIndices(store, pass.nodes, pass.groups, g);
    var found := pass.groups[g].found;
    assert |found| == |found.Keys|;
    assert pass.groups[g].representative in store;
  }

  lemma {:induction false} BelowSize(n: nat)
    ensures |Below(n)| == n
  {
    BelowMembers(n);
    if n > 0 {
      BelowMembers(n - 1);
      BelowSize(n - 1);
    }
  }

  /** No shard of the object is stored. */
  ghost predicate Unstored(store: ShardStore, id: string) {
    forall at :: at in store ==> at.key.objectId != id
  }

  /** A version of which nothing was stored is, once put, as the put wrote it. */
  lemma {:induction false} NewUpload(env: Env, store: ShardStore, u: Upload, n: nat)
    requires n <= |u.nodes| == u.put.spec.Total() && forall at :: at in store ==> IdOf(at.key) != GroupOf(u)
    ensures HoldsUpload(env, Uploaded(env, store, u, n), u, n)
  {
    UploadedShards(env, store, u, n);
    hide PutStored, Uploaded, Locations;
  }

  /** Another put of the object leaves it so. */
  lemma {:induction false} OldUpload(env: Env, store: ShardStore, u: Upload, n: nat, v: Upload, m: nat)
    requires HoldsUpload(env, store, u, n) && u.token != v.token && m <= |v.nodes| == v.put.spec.Total()
    ensures HoldsUpload(env, Uploaded(env, store, v, m), u, n)
  {
    UploadedShards(env, store, v, m);
    hide PutStored, Uploaded, Locations;
    forall i | 0 <= i < |u.nodes| {
      UploadLocation(u, i);
    }
    forall i | 0 <= i < |v.nodes| {
      UploadLocation(v, i);
    }
  }

  /** Shards of the object are those that were there, and those of the put. */
  lemma {:induction false} UploadGroups(env: Env, store: ShardStore, u: Upload, n: nat, ids: set<GroupId>)
    requires n <= |u.nodes| == u.put.spec.Total()
    requires forall at :: at in store && at.key.objectId == u.put.objectId ==> IdOf(at.key) in ids
    ensures forall at :: at in Uploaded(env, store, u, n) && at.key.objectId == u.put.objectId ==> IdOf(at.key) in ids + {GroupOf(u)}
  {
    UploadedShards(env, store, u, n);
    hide PutStored, Uploaded, Locations;
    forall i | 0 <= i < |u.nodes| {
      UploadLocation(u, i);
    }
  }

  /** The store after two puts of an object of which nothing was stored. */
  lemma TwoUploads(env: Env, store: ShardStore, u: Upload, v: Upload) returns (after: ShardStore)
    requires Unstored(store, u.put.objectId) && u.put.objectId == v.put.objectId && u.token != v.token
    requires |u.nodes| == u.put.spec.Total() && |v.nodes| == v.put.spec.Total()
    ensures after == Uploaded(env, Uploaded(env, store, u, |u.nodes|), v, |v.nodes|)
    ensures HoldsUpload(env, after, u, |u.nodes|) && HoldsUpload(env, after, v, |v.nodes|)
    ensures forall at :: at in after && at.key.objectId == u.put.objectId ==> IdOf(at.key) in {GroupOf(u), GroupOf(v)}
  {
    hide HoldsUpload, Uploaded;
    var first := Uploaded(env, store, u, |u.nodes|);
    after := Uploaded(env, first, v, |v.nodes|);
    NewUpload(env, store, u, |u.nodes|);
    UploadGroups(env, store, u, |u.nodes|, {});
    NewUpload(env, first, v, |v.nodes|);
    OldUpload(env, first, u, |u.nodes|, v, |v.nodes|);
    UploadGroups(env, first, v, |v.nodes|, {GroupOf(u)});
  }

  /** Of two complete puts of an object a rebuild gives back the one with the later stamp. */
  lemma {:induction false} LaterStampComesBack(env: Env, w: World, before: ShardStore, u: Upload, v: Upload, pass: Pass, after: Catalog<Location>)
    requires Inv(env, w) && (forall data :: env.checksum(data) != "")
    requires Unstored(before, u.put.objectId) && u.put.objectId == v.put.objectId && u.token != v.token
    requires |u.nodes| == u.put.spec.Total() && |v.nodes| == v.put.spec.Total() && Fits(u.put.data, u.put.spec) && Fits(v.put.data, v.put.spec)
    requires w.store == Uploaded(env, Uploaded(env, before, u, |u.nodes|), v, |v.nodes|)
    requires Rebuilds(w.store, pass, map[], after) && AllNodes(pass, u, v)
    requires u.writtenAt != v.writtenAt
    ensures u.put.objectId in after
    ensures NamesVersion(env, w.history, after[u.put.objectId], if u.writtenAt < v.writtenAt then v.token else u.token)
  {
    InvSound(env, w);
    var g := if u.writtenAt < v.writtenAt then GroupOf(v) else GroupOf(u);
    LaterStampWins(env, before, u, v, pass);
    hide Inv, Sound, Uploaded, NamesVersion, Inserted;
    RebuiltIsVersion(env, w.history, w.ring, w.store, pass, map[], after, g);
  }

  lemma {:induction false} LaterStampWins(env: Env, before: ShardStore, u: Upload, v: Upload, pass: Pass)
    requires Unstored(before, u.put.objectId) && u.put.objectId == v.put.objectId && u.token != v.token
    requires |u.nodes| == u.put.spec.Total() && |v.nodes| == v.put.spec.Total() && Fits(u.put.data, u.put.spec) && Fits(v.put.data, v.put.spec)
    requires Finds(Uploaded(env, Uploaded(env, before, u, |u.nodes|), v, |v.nodes|), pass) && AllNodes(pass, u, v)
    requires u.writtenAt != v.writtenAt
    ensures var store := Uploaded(env, Uploaded(env, before, u, |u.nodes|), v, |v.nodes|);
      var g := if u.writtenAt < v.writtenAt then GroupOf(v) else GroupOf(u);
      Served(pass, g) && !Beaten(store, pass, g) && Decided(store, pass, g)
  {
    var store := TwoUploads(env, before, u, v);
    hide HoldsUpload, Uploaded, Finds, Beaten, Decided, MetaOf, CandidateOf;
    UploadCandidate(env, store, pass, u, |u.nodes|);
    UploadCandidate(env, store, pass, v, |v.nodes|);
    MetaSpec(env, u.put);
    MetaSpec(env, v.put);
    OnlyTwoGroups(store, pass, u, v);
    if u.writtenAt < v.writtenAt {
      LaterOfTwo(store, pass, GroupOf(u), GroupOf(v));
    } else {
      LaterOfTwo(store, pass, GroupOf(v), GroupOf(u));
    }
  }

  lemma LaterOfTwo(store: ShardStore, pass: Pass, g: GroupId, g': GroupId)
    requires Finds(store, pass) && pass.unserved == {} && g in pass.groups && g' in pass.groups && g.objectId == g'.objectId
    requires forall x :: x in pass.groups && x.objectId == g.objectId ==> x == g || x == g'
    requires var a, b := CandidateOf(store, pass.groups, g), CandidateOf(store, pass.groups, g');
      a.Recoverable() && b.Recoverable() && a.manifest.writtenAt < b.manifest.writtenAt
    ensures !Beaten(store, pass, g') && Decided(store, pass, g')
  {
  }

  lemma MetaSpec(env: Env, p: PutRecord)
    ensures MetaOf(env, p).erasure == p.spec
  {
  }

  lemma OnlyTwoGroups(store: ShardStore, pass: Pass, u: Upload, v: Upload)
    requires Finds(store, pass)
    requires forall at :: at in store && at.key.objectId == u.put.objectId ==> IdOf(at.key) in {GroupOf(u), GroupOf(v)}
    ensures forall g :: g in pass.groups && g.objectId == u.put.objectId ==> g in {GroupOf(u), GroupOf(v)}
  {
    forall g | g in pass.groups && g.objectId == u.put.objectId
      ensures g in {GroupOf(u), GroupOf(v)}
    {
      assert pass.groups[g].representative in Visible(store, pass.nodes);
    }
  }

  /* ---------- The runs ---------- */

  /** The row names the put. */
  ghost predicate RowOfUpload(env: Env, w: World, u: Upload) {
    && u.put.objectId in w.catalog
    && w.catalog[u.put.objectId].meta == MetaOf(env, u.put) && w.catalog[u.put.objectId].locations == Locations(u)
  }

  /**
   A put that never committed comes back: after one put of an object and all writes of a later one,
   the row names the first, and every rebuild from all nodes makes one that names the second.
   */
  lemma UncommittedPutComesBack(env: Env, w: World, op: nat, u: Upload, v: Upload)
    returns (worlds: seq<World>, steps: seq<Step>, last: World)
    requires Inv(env, w) && (forall data :: env.checksum(data) != "")
    requires op !in w.ops && CanFollow(w, [u, v], u.put.objectId) && Unstored(w.store, u.put.objectId) && u.writtenAt < v.writtenAt
    ensures Leads(env, worlds, steps, w, last) && RowOfUpload(env, last, u)
    ensures forall pass: Pass, after :: AllNodes(pass, u, v) && Rebuilds(last.store, pass, map[], after) ==>
      u.put.objectId in after && NamesVersion(env, last.history, after[u.put.objectId], v.token)
  {
    BothCanBegin(env, w, u, v);
    last := Runs.Underway(env, AfterPut(env, w, u), op, v, |v.nodes|);
    UnderwayFacts(env, w, op, u, v);
    hide Leads, CanFollow, Inv, RowOfUpload, NamesVersion, Rebuilds, Runs.Underway, CanBegin, Uploaded, AllNodes, AfterPut, Unstored;
    worlds, steps := PutAndUploadRun(env, w, op, u, v);
    forall pass: Pass, after | AllNodes(pass, u, v) && Rebuilds(last.store, pass, map[], after)
      ensures u.put.objectId in after && NamesVersion(env, last.history, after[u.put.objectId], v.token)
    {
      LaterStampComesBack(env, last, w.store, u, v, pass, after);
    }
  }

  ghost predicate FittingUpload(u: Upload) {
    |u.nodes| == u.put.spec.Total() && Fits(u.put.data, u.put.spec)
  }

  lemma {:induction false} UnderwayFacts(env: Env, w: World, op: nat, u: Upload, v: Upload)
    requires CanBegin(w, u) && CanBegin(AfterPut(env, w, u), v)
    ensures var last := Runs.Underway(env, AfterPut(env, w, u), op, v, |v.nodes|);
      && RowOfUpload(env, last, u) && FittingUpload(u) && FittingUpload(v)
      && last.store == Uploaded(env, Uploaded(env, w.store, u, |u.nodes|), v, |v.nodes|)
  {
    hide Uploaded, MetaOf, Locations;
  }

  lemma {:induction false} AfterBothFacts(env: Env, w: World, u: Upload, v: Upload)
    requires CanBegin(w, u) && CanBegin(AfterPut(env, w, u), v)
    ensures var last := AfterPut(env, AfterPut(env, w, u), v);
      && RowOfUpload(env, last, v) && FittingUpload(u) && FittingUpload(v)
      && last.store == Uploaded(env, Uploaded(env, w.store, u, |u.nodes|), v, |v.nodes|)
  {
    hide Uploaded, MetaOf, Locations;
  }

  lemma PutAndUploadRun(env: Env, w: World, op: nat, u: Upload, v: Upload) returns (worlds: seq<World>, steps: seq<Step>)
    requires Inv(env, w) && op !in w.ops && CanBegin(w, u) && CanBegin(AfterPut(env, w, u), v)
    ensures var last := Runs.Underway(env, AfterPut(env, w, u), op, v, |v.nodes|);
      Leads(env, worlds, steps, w, last) && Inv(env, last)
  {
    var last := Runs.Underway(env, AfterPut(env, w, u), op, v, |v.nodes|);
    assert AfterPut(env, w, u).ops == w.ops;
    hide Leads, Inv, AfterPut, Runs.Underway, CanBegin;
    var a, s := PutRun(env, w, op, u);
    var b, t := UploadRun(env, AfterPut(env, w, u), op, v, |v.nodes|);
    worlds, steps := Joined(env, a, s, b, t, w, AfterPut(env, w, u), last);
    LeadsKeepsInvariant(env, worlds, steps, w, last);
  }

  lemma TwoPutsRun(env: Env, w: World, op: nat, u: Upload, v: Upload) returns (worlds: seq<World>, steps: seq<Step>)
    requires Inv(env, w) && op !in w.ops && CanBegin(w, u) && CanBegin(AfterPut(env, w, u), v)
    ensures Leads(env, worlds, steps, w, AfterPut(env, AfterPut(env, w, u), v)) && Inv(env, AfterPut(env, AfterPut(env, w, u), v))
  {
    var last := AfterPut(env, AfterPut(env, w, u), v);
    assert AfterPut(env, w, u).ops == w.ops;
    hide Leads, Inv, AfterPut, CanBegin;
    var a, s := PutRun(env, w, op, u);
    var b, t := PutRun(env, AfterPut(env, w, u), op, v);
    worlds, steps := Joined(env, a, s, b, t, w, AfterPut(env, w, u), last);
    LeadsKeepsInvariant(env, worlds, steps, w, last);
  }

  lemma PutAndRemoveRun(env: Env, w: World, op: nat, u: Upload) returns (worlds: seq<World>, steps: seq<Step>)
    requires Inv(env, w) && op !in w.ops && CanBegin(w, u)
    ensures var last := AfterRemove(AfterPut(env, w, u), u.put.objectId);
      Leads(env, worlds, steps, w, last) && Inv(env, last)
  {
    var middle := AfterPut(env, w, u);
    var last := AfterRemove(middle, u.put.objectId);
    assert middle.ops == w.ops && u.put.objectId in middle.catalog;
    hide Leads, Inv, AfterPut, AfterRemove, CanBegin;
    var a, s := PutRun(env, w, op, u);
    var b, t := RemoveRun(env, middle, op, u.put.objectId);
    worlds, steps := Joined(env, a, s, b, t, w, middle, last);
    LeadsKeepsInvariant(env, worlds, steps, w, last);
  }

  /** All nodes of both puts answer, and every manifest comes. */
  ghost predicate AllNodes(pass: Pass, u: Upload, v: Upload) {
    pass.unserved == {} && Elems(u.nodes) + Elems(v.nodes) <= pass.nodes
  }

  /**
   An older put comes back: after two puts of an object of which the second ran on a slower clock,
   the row names the second, and every rebuild from all nodes makes one that names the first.
   */
  lemma OlderPutComesBack(env: Env, w: World, op: nat, u: Upload, v: Upload)
    returns (worlds: seq<World>, steps: seq<Step>, last: World)
    requires Inv(env, w) && (forall data :: env.checksum(data) != "")
    requires op !in w.ops && CanFollow(w, [u, v], u.put.objectId) && Unstored(w.store, u.put.objectId) && v.writtenAt < u.writtenAt
    ensures Leads(env, worlds, steps, w, last) && RowOfUpload(env, last, v)
    ensures forall pass: Pass, after :: AllNodes(pass, u, v) && Rebuilds(last.store, pass, map[], after) ==>
      u.put.objectId in after && NamesVersion(env, last.history, after[u.put.objectId], u.token)
  {
    BothCanBegin(env, w, u, v);
    last := AfterPut(env, AfterPut(env, w, u), v);
    AfterBothFacts(env, w, u, v);
    hide Leads, CanFollow, Inv, RowOfUpload, NamesVersion, Rebuilds, AfterPut, CanBegin, Uploaded, AllNodes, Unstored;
    worlds, steps := TwoPutsRun(env, w, op, u, v);
    forall pass: Pass, after | AllNodes(pass, u, v) && Rebuilds(last.store, pass, map[], after)
      ensures u.put.objectId in after && NamesVersion(env, last.history, after[u.put.objectId], u.token)
    {
      LaterStampComesBack(env, last, w.store, u, v, pass, after);
    }
  }

  /**
   A removed object comes back: after a put and a remove whose requests to the nodes all failed
   there is no row, and every rebuild from all nodes makes one again.
   */
  lemma RemovedPutComesBack(env: Env, w: World, op: nat, u: Upload)
    returns (worlds: seq<World>, steps: seq<Step>, last: World)
    requires Inv(env, w) && (forall data :: env.checksum(data) != "")
    requires op !in w.ops && CanBegin(w, u) && Unstored(w.store, u.put.objectId)
    ensures Leads(env, worlds, steps, w, last) && u.put.objectId !in last.catalog
    ensures forall pass: Pass, after :: AllNodes(pass, u, u) && Rebuilds(last.store, pass, map[], after) ==>
      u.put.objectId in after && NamesVersion(env, last.history, after[u.put.objectId], u.token)
  {
    last := AfterRemove(AfterPut(env, w, u), u.put.objectId);
    assert last.store == Uploaded(env, w.store, u, |u.nodes|);
    worlds, steps := PutAndRemoveRun(env, w, op, u);
    hide Leads, CanBegin, Inv, AfterPut, AfterRemove, Rebuilds, NamesVersion, Uploaded;
    forall pass: Pass, after | AllNodes(pass, u, u) && Rebuilds(last.store, pass, map[], after)
      ensures u.put.objectId in after && NamesVersion(env, last.history, after[u.put.objectId], u.token)
    {
      OnlyPutComesBack(env, last, w.store, u, pass, after);
    }
  }

  lemma {:induction false} OnlyPutComesBack(env: Env, w: World, before: ShardStore, u: Upload, pass: Pass, after: Catalog<Location>)
    requires Inv(env, w) && (forall data :: env.checksum(data) != "")
    requires Unstored(before, u.put.objectId) && |u.nodes| == u.put.spec.Total() && Fits(u.put.data, u.put.spec)
    requires w.store == Uploaded(env, before, u, |u.nodes|)
    requires Rebuilds(w.store, pass, map[], after) && AllNodes(pass, u, u)
    ensures u.put.objectId in after && NamesVersion(env, w.history, after[u.put.objectId], u.token)
  {
    InvSound(env, w);
    OneUpload(env, before, u, |u.nodes|);
    hide Inv, Uploaded, NamesVersion, HoldsUpload, Sound;
    UploadCandidate(env, w.store, pass, u, |u.nodes|);
    OnlyTwoGroups(w.store, pass, u, u);
    assert !Beaten(w.store, pass, GroupOf(u)) && Decided(w.store, pass, GroupOf(u));
    hide Rebuilds;
    RebuiltIsVersion(env, w.history, w.ring, w.store, pass, map[], after, GroupOf(u));
  }

  lemma {:induction false} OneUpload(env: Env, store: ShardStore, u: Upload, n: nat)
    requires Unstored(store, u.put.objectId) && n <= |u.nodes| == u.put.spec.Total()
    ensures var after := Uploaded(env, store, u, n);
      && HoldsUpload(env, after, u, n)
      && forall at :: at in after && at.key.objectId == u.put.objectId ==> IdOf(at.key) == GroupOf(u)
  {
    hide HoldsUpload, Uploaded;
    NewUpload(env, store, u, n);
    UploadGroups(env, store, u, n, {});
  }

  lemma {:induction false} BothCanBegin(env: Env, w: World, u: Upload, v: Upload)
    requires CanFollow(w, [u, v], u.put.objectId)
    ensures CanBegin(w, u) && CanBegin(AfterPut(env, w, u), v) && u.token != v.token && u.put.objectId == v.put.objectId
  {
    assert [u, v][..1] == [u] && [u][..0] == [];
    assert Tokens([u]) == {u.token} && Deks([u]) == {u.put.dek};
    assert CanFollow(w, [u], u.put.objectId);
  }

  /* ---------- Degraded ---------- */

  /** Every group found is the put's version. */
  lemma OnlyGroup(store: ShardStore, u: Upload, pass: Pass)
    requires Finds(store, pass) && forall at :: at in store ==> IdOf(at.key) == GroupOf(u)
    ensures forall g :: g in pass.groups ==> g == GroupOf(u)
  {
    forall g | g in pass.groups
      ensures g == GroupOf(u)
    {
      assert pass.groups[g].representative in store;
    }
  }

  /** If one group is all there is, its candidate is the only winner. */
  lemma SoleWinner(env: Env, w: World, pass: Pass, g: GroupId)
    requires Inv(env, w) && (forall data :: env.checksum(data) != "")
    requires Finds(w.store, pass) && Served(pass, g) && forall g' :: g' in pass.groups ==> g' == g
    ensures var o, ws := g.objectId, pass.Winners();
      ws.Keys == {o} && ws[o] == CandidateOf(w.store, pass.groups, g) && Storable(o, ws[o].manifest.meta)
  {
    hide Inv, Sound, CandidateOk, RebuiltRow, IsWinner, Storable, Inserted, Finds, CandidateOf;
    InvSound(env, w);
    WinnersAreServed(w.store, pass);
    WinnerOf(env, w.history, w.ring, w.store, pass, map[], Inserted(map[], pass.Winners(), pass.Winners().Keys), g);
  }

  /** The only object found is the put's, and its winner is the put. */
  lemma OnlyWinner(env: Env, w: World, u: Upload, n: nat, pass: Pass)
    requires Inv(env, w) && (forall data :: env.checksum(data) != "")
    requires HoldsUpload(env, w.store, u, n) && 0 < n && Elems(u.nodes) <= pass.nodes && Finds(w.store, pass) && pass.unserved == {}
    requires forall at :: at in w.store ==> IdOf(at.key) == GroupOf(u)
    ensures var o, ws := u.put.objectId, pass.Winners();
      && ws.Keys == {o} && ws[o].Count() == n && ws[o].manifest.meta.erasure == u.put.spec && Storable(o, ws[o].manifest.meta)
  {
    UploadCandidate(env, w.store, pass, u, n);
    MetaSpec(env, u.put);
    OnlyGroup(w.store, u, pass);
    hide Inv, HoldsUpload, MetaOf, Storable, Finds, Elems;
    SoleWinner(env, w, pass, GroupOf(u));
  }

  /** The report counts the one recovered object as degraded; the documented count is zero. */
  ghost predicate CountsFullEnough(winners: map<string, Candidate>, r: Report) {
    r.objectsRecovered == 1 && r.degradedObjects == 1 && |Filtered(winners.Keys, IsShort(map[], winners))| == 0
  }

  lemma DegradedCount(winners: map<string, Candidate>, o: string, r: Report)
    requires winners.Keys == {o} && Storable(o, winners[o].manifest.meta)
    requires winners[o].manifest.meta.erasure.dataShards <= winners[o].Count() < winners[o].manifest.meta.erasure.Total()
    requires Counts(map[], winners, winners.Keys, r)
    ensures CountsFullEnough(winners, r)
  {
    hide Storable;
    assert Filtered(winners.Keys, IsRecovered(map[], winners)) == {o};
    assert Filtered(winners.Keys, IsDegraded(map[], winners)) == {o};
    assert Filtered(winners.Keys, IsShort(map[], winners)) == {};
  }

  /**
   From any world without shards, the first n shards of a put, at least k and not all: the report
   of every rebuild counts the object as degraded, though it was recovered with k shards or more.
   */
  lemma DegradedWithEnoughShards(env: Env, w: World, op: nat, u: Upload, n: nat) returns (worlds: seq<World>, steps: seq<Step>, last: World)
    requires Inv(env, w) && w.store == map[] && (forall data :: env.checksum(data) != "")
    requires op !in w.ops && CanBegin(w, u) && u.put.spec.dataShards <= n < u.put.spec.Total()
    ensures Leads(env, worlds, steps, w, last)
    ensures forall pass: Pass, r ::
      AllNodes(pass, u, u) && Finds(last.store, pass) && Counts(map[], pass.Winners(), pass.Winners().Keys, r) ==>
      CountsFullEnough(pass.Winners(), r)
  {
    last := Runs.Underway(env, w, op, u, n);
    assert last.store == Uploaded(env, w.store, u, n) && u.put.spec.dataShards > 0 && FittingUpload(u);
    hide CanBegin, Inv, Runs.Underway, Counts, CountsFullEnough, Uploaded, Finds, Leads, AllNodes, HoldsUpload;
    worlds, steps := UploadRun(env, w, op, u, n);
    LeadsKeepsInvariant(env, worlds, steps, w, last);
    NewUpload(env, w.store, u, n);
    FirstShards(env, u, n);
    forall pass: Pass, r | AllNodes(pass, u, u) && Finds(last.store, pass) && Counts(map[], pass.Winners(), pass.Winners().Keys, r)
      ensures CountsFullEnough(pass.Winners(), r)
    {
      DegradedIn(env, last, u, n, pass, r);
    }
  }

  lemma DegradedIn(env: Env, w: World, u: Upload, n: nat, pass: Pass, r: Report)
    requires Inv(env, w) && (forall data :: env.checksum(data) != "")
    requires HoldsUpload(env, w.store, u, n) && 0 < u.put.spec.dataShards <= n < u.put.spec.Total()
    requires AllNodes(pass, u, u) && Finds(w.store, pass)
    requires forall at :: at in w.store ==> IdOf(at.key) == GroupOf(u)
    requires Counts(map[], pass.Winners(), pass.Winners().Keys, r)
    ensures CountsFullEnough(pass.Winners(), r)
  {
    hide Inv, Counts, CountsFullEnough, Finds, HoldsUpload, Storable;
    OnlyWinner(env, w, u, n, pass);
    DegradedCount(pass.Winners(), u.put.objectId, r);
  }

  lemma {:induction false} FirstShards(env: Env, u: Upload, n: nat)
    requires n <= |u.nodes| == u.put.spec.Total()
    ensures forall at :: at in Uploaded(env, map[], u, n) ==> IdOf(at.key) == GroupOf(u)
  {
    UploadedShards(env, map[], u, n);
    hide Uploaded, PutStored, Locations;
    forall i | 0 <= i < |u.nodes| {
      UploadLocation(u, i);
    }
  }
}
