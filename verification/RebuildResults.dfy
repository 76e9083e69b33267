/**
 What a reindex pass achieves: every object whose manifest comes gets a row, a
 second pass adds nothing, rebuilt rows read back, and which version they name.
 */
module RebuildResults {
  import opened Wrappers
  import opened Collections
  import opened ErasureCodec
  import opened KeyRing
  import opened MetadataStore
  import opened ShardKeys
  import opened Shards
  import opened History
  import opened Reindex
  import opened Protocol
  import opened Invariant
  import opened Rebuild

  /** What the invariant says of stored shards, and a checksum is never the empty text. */
  ghost predicate Sound(env: Env, h: History, ring: Ring, store: ShardStore) {
    HistoryOk(h, ring) && StoreOk(env, h, store) && forall data :: env.checksum(data) != ""
  }

  lemma InvSound(env: Env, w: World)
    requires Inv(env, w) && forall data :: env.checksum(data) != ""
    ensures Sound(env, w.history, w.ring, w.store)
  {
  }

  /** The manifest of this shard's group came. */
  predicate Served(pass: Pass, g: GroupId) {
    g in pass.groups && g !in pass.unserved
  }

  lemma MaxObjectSize(k: nat, size: nat)
    requires k <= MAX_TOTAL_SHARDS && size <= INT_MAX
    ensures k * size <= INT64_MAX
  {
    assert 0 <= (MAX_TOTAL_SHARDS - k) * size;
    assert k * size == MAX_TOTAL_SHARDS * size - (MAX_TOTAL_SHARDS - k) * size;
  }

  /** Every stored manifest describes a put, so every group served gives a candidate that can be stored. */
  lemma CandidatesAreOk(env: Env, h: History, ring: Ring, store: ShardStore, pass: Pass, g: GroupId)
    requires Sound(env, h, ring, store) && Finds(store, pass) && Served(pass, g)
    ensures CandidateOf(store, pass.groups, g) in pass.cs
    ensures CandidateOk(env, h, g.objectId, CandidateOf(store, pass.groups, g))
    ensures Storable(g.objectId, store[pass.groups[g].representative].manifest.meta)
  {
    var at := pass.groups[g].representative;
    assert StoredOk(env, h, at.key, store[at]);
    var p := h.puts[g.version];
    assert IdOf(at.key) == g && Fits(p.data, p.spec);
    MaxObjectSize(p.spec.dataShards, p.spec.shardSize);
    assert CandidateOf(store, pass.groups, g).id in pass.groups.Keys;
  }

  /** The winner of an object with a served group. */
  lemma WinnerOf(env: Env, h: History, ring: Ring, store: ShardStore, pass: Pass, before: Catalog<Location>, after: Catalog<Location>, g: GroupId)
    requires Sound(env, h, ring, store) && Rebuilds(store, pass, before, after) && Served(pass, g)
    ensures var o, ws := g.objectId, pass.Winners();
      && o in ws && Served(pass, ws[o].id) && ws[o] == CandidateOf(store, pass.groups, ws[o].id)
      && CandidateOk(env, h, o, ws[o]) && Storable(o, ws[o].manifest.meta) && IsWinner(pass.cs, o, ws[o])
      && (o !in before ==> o in after && after[o] == RebuiltRow(ws[o]))
      && (o in before ==> o in after && after[o] == before[o])
  {
    hide RebuiltRow, MetaOf, StoredOk, Storable, CandidateOk, Sound;
    var o, ws := g.objectId, pass.Winners();
    CandidatesAreOk(env, h, ring, store, pass, g);
    WinnersAreBest(pass.cs);
    assert CandidateOf(store, pass.groups, g).id.objectId == o;
    assert ws[o] in pass.cs;
    CandidatesAreOk(env, h, ring, store, pass, ws[o].id);
  }

  /** Every object with a served group has a row afterwards, rows that were there are unchanged, and no other row appears. */
  lemma EveryStoredObjectHasRow(env: Env, h: History, ring: Ring, store: ShardStore, pass: Pass, before: Catalog<Location>, after: Catalog<Location>)
    requires Sound(env, h, ring, store) && Rebuilds(store, pass, before, after)
    ensures forall at :: at in Visible(store, pass.nodes) && IdOf(at.key) !in pass.unserved ==> at.key.objectId in after
    ensures forall id :: id in before ==> id in after && after[id] == before[id]
    ensures forall id :: id in after ==> id in before || exists g :: Served(pass, g) && g.objectId == id
  {
    forall at | at in Visible(store, pass.nodes) && IdOf(at.key) !in pass.unserved
      ensures at.key.objectId in after
    {
      WinnerOf(env, h, ring, store, pass, before, after, IdOf(at.key));
    }
    WinnersAreServed(store, pass);
  }

  lemma WinnersAreServed(store: ShardStore, pass: Pass)
    requires Finds(store, pass)
    ensures forall o :: o in pass.Winners() ==> Served(pass, pass.Winners()[o].id) && pass.Winners()[o].id.objectId == o
  {
    WinnersAreBest(pass.cs);
    forall o | o in pass.Winners()
      ensures Served(pass, pass.Winners()[o].id)
    {
      assert pass.Winners()[o] in pass.cs;
    }
  }

  lemma NothingToInsert(catalog: Catalog<Location>, winners: map<string, Candidate>)
    requires forall o :: o in winners ==> o in catalog
    ensures Inserted(catalog, winners, winners.Keys) == catalog
  {
    hide RebuiltRow;
  }

  /** A second pass that gets no manifest the first did not get, in any order, inserts nothing. */
  lemma SecondPassInsertsNothing(env: Env, h: History, ring: Ring, store: ShardStore, first: Pass, second: Pass,
                                 before: Catalog<Location>, after: Catalog<Location>, again: Catalog<Location>)
    requires Sound(env, h, ring, store)
    requires Rebuilds(store, first, before, after) && Rebuilds(store, second, after, again)
    requires second.nodes <= first.nodes && first.unserved <= second.unserved
    ensures again == after
  {
    EveryStoredObjectHasRow(env, h, ring, store, first, before, after);
    WinnersAreServed(store, second);
    forall o | o in second.Winners()
      ensures o in after
    {
      var g := second.Winners()[o].id;
      assert second.groups[g].representative in Visible(store, first.nodes);
    }
    NothingToInsert(after, second.Winners());
  }

  /* ---------- Which version ---------- */

  /** The row is the put's, with locations of its version alone. */
  ghost predicate NamesVersion(env: Env, h: History, row: Row<Location>, t: string) {
    && t in h.puts && row.meta == MetaOf(env, h.puts[t]) && row.locations != []
    && forall i {:trigger row.locations[i]} :: 0 <= i < |row.locations| ==> row.locations[i].key.version == t
  }

  lemma RebuiltNames(env: Env, h: History, ring: Ring, o: string, c: Candidate, t: string)
    requires HistoryOk(h, ring) && CandidateOk(env, h, o, c)
    ensures NamesVersion(env, h, RebuiltRow(c), t) <==> t == c.id.version
  {
    var p := h.puts[c.id.version];
    assert Fits(p.data, p.spec);
    var row := RebuiltRow(c);
    assert row.locations[0].key.version == c.id.version;
    forall i | 0 <= i < |row.locations|
      ensures row.locations[i].key.version == c.id.version
    {
    }
  }

  /** A better candidate of the same object. */
  ghost predicate Beaten(store: ShardStore, pass: Pass, g: GroupId)
    requires Finds(store, pass) && g in pass.groups
  {
    exists g' :: Served(pass, g') && g'.objectId == g.objectId
      && Better(CandidateOf(store, pass.groups, g'), CandidateOf(store, pass.groups, g))
  }

  /** The policy decides between this group and every other of its object. */
  ghost predicate Decided(store: ShardStore, pass: Pass, g: GroupId)
    requires Finds(store, pass) && g in pass.groups
  {
    forall g' :: Served(pass, g') && g'.objectId == g.objectId && g' != g ==>
      Better(CandidateOf(store, pass.groups, g'), CandidateOf(store, pass.groups, g))
      || Better(CandidateOf(store, pass.groups, g), CandidateOf(store, pass.groups, g'))
  }

  /**
   Which put a rebuild gives back. A row of version g needs that no version of the object is better
   under the selection policy, and where the policy leaves no tie that is all it needs.
   */
  lemma RebuiltIsVersion(env: Env, h: History, ring: Ring, store: ShardStore, pass: Pass, before: Catalog<Location>, after: Catalog<Location>, g: GroupId)
    requires Sound(env, h, ring, store) && Rebuilds(store, pass, before, after) && Served(pass, g) && g.objectId !in before
    ensures g.objectId in after
    ensures NamesVersion(env, h, after[g.objectId], g.version) ==> !Beaten(store, pass, g)
    ensures Decided(store, pass, g) ==> (NamesVersion(env, h, after[g.objectId], g.version) <==> !Beaten(store, pass, g))
  {
    WinnerOf(env, h, ring, store, pass, before, after, g);
    var w := pass.Winners()[g.objectId];
    RebuiltNames(env, h, ring, g.objectId, w, g.version);
    hide Sound, NamesVersion, RebuiltRow, CandidateOk, Storable, Better;
    WinnerUnbeaten(env, h, ring, store, pass, before, after, g);
  }

  /** The winner is not beaten, and a group that it is not is beaten by it or tied with it. */
  lemma WinnerUnbeaten(env: Env, h: History, ring: Ring, store: ShardStore, pass: Pass, before: Catalog<Location>, after: Catalog<Location>, g: GroupId)
    requires Sound(env, h, ring, store) && Rebuilds(store, pass, before, after) && Served(pass, g)
    ensures g.objectId in pass.Winners()
    ensures pass.Winners()[g.objectId].id == g ==> !Beaten(store, pass, g)
    ensures pass.Winners()[g.objectId].id != g && Decided(store, pass, g) ==> Beaten(store, pass, g)
  {
    WinnerOf(env, h, ring, store, pass, before, after, g);
    var w := pass.Winners()[g.objectId];
    hide Sound, CandidateOk, Storable, Better, RebuiltRow;
    forall g' | Served(pass, g') && g'.objectId == g.objectId
      ensures !Better(CandidateOf(store, pass.groups, g'), w)
    {
      CandidatesAreOk(env, h, ring, store, pass, g');
      assert CandidateOf(store, pass.groups, g').id.objectId == g.objectId;
    }
    assert w.id.objectId == g.objectId;
  }

  /* ---------- Reading rebuilt rows ---------- */

  /** A get's fetch: the shards that are at the row's locations. */
  function FetchRow(store: ShardStore, locations: seq<Location>): seq<EncryptedShard> {
    if locations == [] then []
    else
      var last := locations[|locations| - 1];
      FetchRow(store, locations[..|locations| - 1]) + (if last in store then [store[last].shard] else [])
  }

  lemma {:induction false} FetchRowMembers(store: ShardStore, locations: seq<Location>)
    ensures forall e :: e in FetchRow(store, locations) ==> exists at :: at in locations && at in store && e == store[at].shard
    ensures forall at :: at in locations && at in store ==> store[at].shard in FetchRow(store, locations)
  {
    if locations != [] {
      var front, last := locations[..|locations| - 1], locations[|locations| - 1];
      FetchRowMembers(store, front);
      assert locations == front + [last];
    }
  }

  /** The distinct indices at which shards of a version are stored. */
  function StoredIndices(store: ShardStore, nodes: set<string>, g: GroupId): set<nat> {
    set at | at in Visible(store, nodes) && IdOf(at.key) == g :: at.key.index
  }

  lemma FoundIndices(store: ShardStore, nodes: set<string>, groups: map<GroupId, Group>, g: GroupId)
    requires GroupsOf(Visible(store, nodes), groups) && g in groups
    ensures groups[g].found.Keys == StoredIndices(store, nodes, g)
  {
    forall i | i in groups[g].found
      ensures i in StoredIndices(store, nodes, g)
    {
      var at := Location(groups[g].found[i], ShardKey(g.objectId, g.version, i));
      assert at in Visible(store, nodes) && IdOf(at.key) == g;
    }
  }

  /** None of the object's shards is damaged. */
  ghost predicate Undamaged(store: ShardStore, o: string) {
    forall at :: at in store && at.key.objectId == o ==> store[at].shard.box.Sealed?
  }

  /** What a rebuilt row points at, fetched: shards of one put, one for each index found. */
  lemma {:induction false} RebuiltRowFetch(env: Env, h: History, store: ShardStore, o: string, c: Candidate)
    requires StoreOk(env, h, store) && CandidateOk(env, h, o, c) && Undamaged(store, o)
    requires forall i :: i in c.found ==> Location(c.found[i], ShardKey(o, c.id.version, i)) in store
    ensures FetchedOk(env, h, c.id.version, FetchRow(store, RebuiltLocations(c)))
    ensures c.found.Keys <= OpenIndices(FetchRow(store, RebuiltLocations(c)), h.puts[c.id.version].dek)
  {
    var locations := RebuiltLocations(c);
    var fetched := FetchRow(store, locations);
    var p := h.puts[c.id.version];
    forall j | 0 <= j < |fetched|
      ensures ShardOf(env, p, fetched[j].index, fetched[j])
    {
      FetchedShardOf(env, h, store, o, c, j);
    }
    hide RebuiltLocations, FetchRow;
    forall i | i in c.found
      ensures i in OpenIndices(fetched, p.dek)
    {
      FoundIndexOpens(env, h, store, o, c, i);
    }
  }

  lemma {:induction false} FetchedShardOf(env: Env, h: History, store: ShardStore, o: string, c: Candidate, j: nat)
    requires StoreOk(env, h, store) && CandidateOk(env, h, o, c) && j < |FetchRow(store, RebuiltLocations(c))|
    ensures var e := FetchRow(store, RebuiltLocations(c))[j];
      ShardOf(env, h.puts[c.id.version], e.index, e)
  {
    var fetched := FetchRow(store, RebuiltLocations(c));
    FetchRowMembers(store, RebuiltLocations(c));
    assert fetched[j] in fetched;
    var at :| at in RebuiltLocations(c) && at in store && fetched[j] == store[at].shard;
    assert StoredOk(env, h, at.key, store[at]);
  }

  lemma {:induction false} FoundIndexOpens(env: Env, h: History, store: ShardStore, o: string, c: Candidate, i: nat)
    requires StoreOk(env, h, store) && CandidateOk(env, h, o, c) && Undamaged(store, o)
    requires i in c.found && Location(c.found[i], ShardKey(o, c.id.version, i)) in store
    ensures i in OpenIndices(FetchRow(store, RebuiltLocations(c)), h.puts[c.id.version].dek)
  {
    var at := Location(c.found[i], ShardKey(o, c.id.version, i));
    var dek := h.puts[c.id.version].dek;
    var fetched := FetchRow(store, RebuiltLocations(c));
    assert StoredOk(env, h, at.key, store[at]);
    assert RebuiltLocations(c)[i] == at;
    FetchRowMembers(store, RebuiltLocations(c));
    var j :| 0 <= j < |fetched| && fetched[j] == store[at].shard;
    OpenAllMembers(fetched, dek);
    assert Open(fetched[j], dek).value.index == i;
  }

  /**
   Catalog rebuild: if an object without a row has some version with k distinct undamaged shards
   on the nodes that answer, and its manifest comes, the rebuilt row reads back as the bytes of
   some put of the object, unless the generator rows of the shards found cannot be inverted.
   */
  lemma RebuiltRowReadsBack(env: Env, h: History, ring: Ring, store: ShardStore, pass: Pass, before: Catalog<Location>, after: Catalog<Location>, g: GroupId)
    returns (t: string)
    requires Sound(env, h, ring, store) && Rebuilds(store, pass, before, after) && g.objectId !in before && Undamaged(store, g.objectId)
    requires g !in pass.unserved && g.version in h.puts
    requires |StoredIndices(store, pass.nodes, g)| >= h.puts[g.version].spec.dataShards
    ensures g.objectId in after && t in h.puts && h.puts[t].objectId == g.objectId
    ensures var row := after[g.objectId];
      var r := ReadOutcome(env, ring, row.meta, FetchRow(store, row.locations));
      r == Ok(h.puts[t].data) || r == Err(CodecFailure(InversionFailed))
  {
    hide RebuiltLocations, ReadOutcome;
    VersionIsFound(env, h, ring, store, pass, g);
    WinnerOf(env, h, ring, store, pass, before, after, g);
    var o, c := g.objectId, pass.Winners()[g.objectId];
    WinnerHasEnough(env, h, ring, store, pass, g);
    t := c.id.version;
    RebuiltRowFetch(env, h, store, o, c);
    FetchedReadBack(env, h, ring, t, FetchRow(store, RebuiltLocations(c)), c.found.Keys);
  }

  lemma VersionIsFound(env: Env, h: History, ring: Ring, store: ShardStore, pass: Pass, g: GroupId)
    requires Sound(env, h, ring, store) && Finds(store, pass) && g.version in h.puts
    requires |StoredIndices(store, pass.nodes, g)| >= h.puts[g.version].spec.dataShards
    ensures g in pass.groups
  {
    assert ValidSpec(h.puts[g.version].spec) by { assert Fits(h.puts[g.version].data, h.puts[g.version].spec); }
    assert StoredIndices(store, pass.nodes, g) != {};
    var i :| i in StoredIndices(store, pass.nodes, g);
  }

  lemma WinnerHasEnough(env: Env, h: History, ring: Ring, store: ShardStore, pass: Pass, g: GroupId)
    requires Sound(env, h, ring, store) && Finds(store, pass) && Served(pass, g) && g.version in h.puts
    requires |StoredIndices(store, pass.nodes, g)| >= h.puts[g.version].spec.dataShards
    ensures CandidateOf(store, pass.groups, g).Recoverable()
    ensures g.objectId in pass.Winners() && pass.Winners()[g.objectId].Recoverable()
  {
    CandidatesAreOk(env, h, ring, store, pass, g);
    FoundIndices(store, pass.nodes, pass.groups, g);
    assert |pass.groups[g].found| == |pass.groups[g].found.Keys|;
    WinnerRecoverable(pass.cs, g.objectId, CandidateOf(store, pass.groups, g));
  }

  lemma FetchedReadBack(env: Env, h: History, ring: Ring, t: string, fetched: seq<EncryptedShard>, indices: set<nat>)
    requires HistoryOk(h, ring) && t in h.puts && FetchedOk(env, h, t, fetched)
    requires indices <= OpenIndices(fetched, h.puts[t].dek) && |indices| >= h.puts[t].spec.dataShards
    ensures var r := ReadOutcome(env, ring, MetaOf(env, h.puts[t]), fetched);
      r == Ok(h.puts[t].data) || r == Err(CodecFailure(InversionFailed))
  {
    var p := h.puts[t];
    SubsetCardinality(indices, OpenIndices(fetched, p.dek));
    FetchedGenuine(env, h, ring, t, t, fetched);
    assert ring[p.kekId] in ring.Values;
    ReadReturnsThePut(env, ring, p, fetched);
  }

  /** The version has shards with k distinct indices on the nodes, and none of the object's shards is damaged. */
  ghost predicate Reconstructable(w: World, nodes: set<string>, g: GroupId) {
    && g.version in w.history.puts && Undamaged(w.store, g.objectId)
    && |StoredIndices(w.store, nodes, g)| >= w.history.puts[g.version].spec.dataShards
  }

  /**
   The same from any reachable world, with the catalog dropped: every object with a shard on a
   node that answers and a manifest that comes gets a row, and an object with such a version of k
   distinct undamaged shards reads back, from its new row, as one of its puts, unless the rows
   cannot be inverted.
   */
  lemma RebuildAfterAnyRun(env: Env, worlds: seq<World>, steps: seq<Step>, n: nat, pass: Pass, after: Catalog<Location>)
    requires IsRun(env, worlds, steps) && Init(worlds[0]) && n <= |steps| && (forall data :: env.checksum(data) != "")
    requires Rebuilds(worlds[n].store, pass, map[], after)
    ensures forall at :: at in Visible(worlds[n].store, pass.nodes) && IdOf(at.key) !in pass.unserved ==> at.key.objectId in after
    ensures forall g: GroupId :: Reconstructable(worlds[n], pass.nodes, g) && g !in pass.unserved ==>
      g.objectId in after && ReadsBack(env, worlds[n], after[g.objectId], g.objectId)
  {
    RunKeepsInvariant(env, worlds, steps, n);
    var w := worlds[n];
    InvSound(env, w);
    hide Inv, IsRun, Sound;
    EveryStoredObjectHasRow(env, w.history, w.ring, w.store, pass, map[], after);
    forall g: GroupId | Reconstructable(w, pass.nodes, g) && g !in pass.unserved
      ensures g.objectId in after && ReadsBack(env, w, after[g.objectId], g.objectId)
    {
      var t := RebuiltRowReadsBack(env, w.history, w.ring, w.store, pass, map[], after, g);
    }
  }

  /** Fetching the row's locations and decoding gives the bytes of a put of the object, or an inversion fails. */
  ghost predicate ReadsBack(env: Env, w: World, row: Row<Location>, o: string) {
    var r := ReadOutcome(env, w.ring, row.meta, FetchRow(w.store, row.locations));
    exists t :: t in w.history.puts && w.history.puts[t].objectId == o
      && (r == Ok(w.history.puts[t].data) || r == Err(CodecFailure(InversionFailed)))
  }
}
