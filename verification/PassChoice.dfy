/**
 Which version a rebuild may give back, whatever order its pass takes. A pass
 reads one manifest for each version, from any of its shards, and meets versions
 in any order; so what comes back can depend on the stamp of a single shard.
 */
module PassChoice {
  import opened ErasureCodec
  import opened KeyRing
  import opened MetadataStore
  import opened ShardKeys
  import opened Shards
  import opened History
  import opened Reindex
  import opened Invariant
  import opened Rebuild
  import opened RebuildResults

  /** The nodes hold shards of this version with k distinct indices. */
  ghost predicate Enough(h: History, store: ShardStore, nodes: set<string>, g: GroupId) {
    g.version in h.puts && |StoredIndices(store, nodes, g)| >= h.puts[g.version].spec.dataShards
  }

  ghost predicate ShardSeen(store: ShardStore, nodes: set<string>, g: GroupId, at: Location) {
    at in Visible(store, nodes) && IdOf(at.key) == g
  }

  /** A shard of the version with a stamp no later than this time. */
  ghost predicate SeenBy(store: ShardStore, nodes: set<string>, g: GroupId, time: nat) {
    exists at :: ShardSeen(store, nodes, g, at) && store[at].manifest.writtenAt <= time
  }

  /** Every other version of the object that has k shards has one that was stamped no later. */
  ghost predicate NotOutdone(h: History, store: ShardStore, nodes: set<string>, g: GroupId, time: nat) {
    forall g' :: Enough(h, store, nodes, g') && g'.objectId == g.objectId && g' != g ==> SeenBy(store, nodes, g', time)
  }

  /** Some shard of the version is not outdone by the shards of the others. */
  ghost predicate MayComeBack(h: History, store: ShardStore, nodes: set<string>, g: GroupId) {
    exists at :: ShardSeen(store, nodes, g, at) && NotOutdone(h, store, nodes, g, store[at].manifest.writtenAt)
  }

  /** The pass reaches all these nodes and manifests, and its row for the object names this version. */
  ghost predicate BringsBack(env: Env, h: History, store: ShardStore, nodes: set<string>, before: Catalog<Location>, g: GroupId,
                             pass: Pass, after: Catalog<Location>) {
    && pass.nodes == nodes && pass.unserved == {} && Rebuilds(store, pass, before, after)
    && g.objectId in after && NamesVersion(env, h, after[g.objectId], g.version)
  }

  /* ---------- A pass of our choice ---------- */

  ghost function SomeNode(store: ShardStore, nodes: set<string>, g: GroupId, i: nat): (node: string)
    requires i in StoredIndices(store, nodes, g)
    ensures Location(node, ShardKey(g.objectId, g.version, i)) in Visible(store, nodes)
  {
    var at :| at in Visible(store, nodes) && IdOf(at.key) == g && at.key.index == i;
    at.node
  }

  /** The shard of version g that the manifest is read from: the given one, an early one, or any. */
  ghost function ChosenShard(store: ShardStore, nodes: set<string>, first: Location, g: GroupId): (at: Location)
    requires first in Visible(store, nodes) && exists at :: ShardSeen(store, nodes, g, at)
    ensures ShardSeen(store, nodes, g, at) && (g == IdOf(first.key) ==> at == first)
    ensures SeenBy(store, nodes, g, store[first].manifest.writtenAt) ==> store[at].manifest.writtenAt <= store[first].manifest.writtenAt
  {
    if g == IdOf(first.key) then first
    else if SeenBy(store, nodes, g, store[first].manifest.writtenAt) then
      var at :| ShardSeen(store, nodes, g, at) && store[at].manifest.writtenAt <= store[first].manifest.writtenAt;
      at
    else
      var at :| ShardSeen(store, nodes, g, at);
      at
  }

  ghost function ChosenGroups(store: ShardStore, nodes: set<string>, first: Location): map<GroupId, Group>
    requires first in Visible(store, nodes)
  {
    var ids := set at | at in Visible(store, nodes) :: IdOf(at.key);
    map g | g in ids ::
      assert exists at :: ShardSeen(store, nodes, g, at) by {
        var at :| at in Visible(store, nodes) && IdOf(at.key) == g;
        assert ShardSeen(store, nodes, g, at);
      }
      Group(map i | i in StoredIndices(store, nodes, g) :: SomeNode(store, nodes, g, i), ChosenShard(store, nodes, first, g))
  }

  lemma ChosenGroupsFacts(store: ShardStore, nodes: set<string>, first: Location)
    requires first in Visible(store, nodes)
    ensures var groups, time := ChosenGroups(store, nodes, first), store[first].manifest.writtenAt;
      && GroupsOf(Visible(store, nodes), groups) && RepresentativesStored(store, groups)
      && IdOf(first.key) in groups && groups[IdOf(first.key)].representative == first
      && forall g :: g in groups && SeenBy(store, nodes, g, time) ==> store[groups[g].representative].manifest.writtenAt <= time
  {
  }

  /** The candidates of these groups can be listed. */
  lemma {:induction false} ListCandidates(store: ShardStore, groups: map<GroupId, Group>, ids: set<GroupId>) returns (cs: seq<Candidate>)
    requires RepresentativesStored(store, groups) && ids <= groups.Keys
    ensures CandidatesOf(store, {}, groups, ids, cs)
    decreases |ids|
  {
    if ids == {} {
      cs := [];
    } else {
      var g :| g in ids;
      var rest := ListCandidates(store, groups, ids - {g});
      hide CandidatesOf, Usable, CandidateOf, RepresentativesStored;
      CandidatesOneMore(store, {}, groups, ids - {g}, rest, g);
      cs := if Usable(store, {}, groups, g) then rest + [CandidateOf(store, groups, g)] else rest;
      assert ids - {g} + {g} == ids;
    }
  }

  /** They can be listed with a given one first. */
  lemma ListFrom(store: ShardStore, groups: map<GroupId, Group>, g: GroupId) returns (cs: seq<Candidate>)
    requires RepresentativesStored(store, groups) && g in groups && Usable(store, {}, groups, g)
    ensures CandidatesOf(store, {}, groups, groups.Keys, cs)
    ensures cs != [] && cs[0] == CandidateOf(store, groups, g)
  {
    var rest := ListCandidates(store, groups, groups.Keys - {g});
    cs := [CandidateOf(store, groups, g)] + rest;
  }

  /** The first of an object's candidates wins if none is better. */
  lemma {:induction false} FirstUnbeatenWins(cs: seq<Candidate>)
    requires cs != [] && forall c :: c in cs && c.id.objectId == cs[0].id.objectId ==> !Better(c, cs[0])
    ensures cs[0].id.objectId in Winners(cs) && Winners(cs)[cs[0].id.objectId] == cs[0]
  {
    var front, last := cs[..|cs| - 1], cs[|cs| - 1];
    assert cs == front + [last];
    if front != [] {
      FirstUnbeatenWins(front);
      assert last in cs;
    } else {
      assert Winners(front) == map[];
    }
  }

  /** A pass that reads version g's manifest from the given shard, meets g first, and reads others' from early shards. */
  lemma PassFrom(store: ShardStore, nodes: set<string>, first: Location) returns (pass: Pass)
    requires first in Visible(store, nodes) && Plausible(store[first].manifest.meta.erasure)
    ensures var g, time := IdOf(first.key), store[first].manifest.writtenAt;
      && Finds(store, pass) && pass.nodes == nodes && pass.unserved == {}
      && g in pass.groups && pass.groups[g].representative == first
      && pass.cs != [] && pass.cs[0] == CandidateOf(store, pass.groups, g)
      && forall g' :: g' in pass.groups && SeenBy(store, nodes, g', time) ==>
           store[pass.groups[g'].representative].manifest.writtenAt <= time
  {
    var groups := ChosenGroups(store, nodes, first);
    ChosenGroupsFacts(store, nodes, first);
    hide ChosenGroups, SeenBy;
    var cs := ListFrom(store, groups, IdOf(first.key));
    pass := Pass(nodes, {}, groups, cs);
  }

  /* ---------- When a version may come back ---------- */

  /** A candidate is recoverable exactly when its version has k shards on the nodes. */
  lemma RecoverableIsEnough(env: Env, h: History, ring: Ring, store: ShardStore, pass: Pass, g: GroupId)
    requires Sound(env, h, ring, store) && Finds(store, pass) && Served(pass, g)
    ensures CandidateOf(store, pass.groups, g).Recoverable() <==> Enough(h, store, pass.nodes, g)
  {
    CandidatesAreOk(env, h, ring, store, pass, g);
    FoundIndices(store, pass.nodes, pass.groups, g);
    assert |pass.groups[g].found| == |pass.groups[g].found.Keys|;
  }

  lemma StoredIsPlausible(env: Env, h: History, ring: Ring, store: ShardStore, at: Location)
    requires Sound(env, h, ring, store) && at in store
    ensures Plausible(store[at].manifest.meta.erasure)
  {
    assert StoredOk(env, h, at.key, store[at]);
    assert Fits(h.puts[at.key.version].data, h.puts[at.key.version].spec);
  }

  /** A shard that is not outdone: some pass brings its version back. */
  lemma UndoneComesBack(env: Env, h: History, ring: Ring, store: ShardStore, nodes: set<string>, before: Catalog<Location>, g: GroupId, first: Location)
    returns (pass: Pass, after: Catalog<Location>)
    requires Sound(env, h, ring, store) && Enough(h, store, nodes, g) && g.objectId !in before
    requires ShardSeen(store, nodes, g, first) && NotOutdone(h, store, nodes, g, store[first].manifest.writtenAt)
    ensures BringsBack(env, h, store, nodes, before, g, pass, after)
  {
    StoredIsPlausible(env, h, ring, store, first);
    pass := PassFrom(store, nodes, first);
    after := Inserted(before, pass.Winners(), pass.Winners().Keys);
    var c := pass.cs[0];
    hide Sound, Enough, CandidateOk, NamesVersion, RebuiltRow, Inserted, SeenBy, Storable;
    RecoverableIsEnough(env, h, ring, store, pass, g);
    forall d | d in pass.cs && d.id.objectId == g.objectId
      ensures !Better(d, c)
    {
      RecoverableIsEnough(env, h, ring, store, pass, d.id);
    }
    FirstUnbeatenWins(pass.cs);
    WinnerOf(env, h, ring, store, pass, before, after, g);
    SoundHistory(env, h, ring, store);
    RebuiltNames(env, h, ring, g.objectId, c, g.version);
  }

  lemma SoundHistory(env: Env, h: History, ring: Ring, store: ShardStore)
    requires Sound(env, h, ring, store)
    ensures HistoryOk(h, ring)
  {
  }

  /** A version that a pass brings back has a shard that is not outdone: the one its manifest came from. */
  lemma BroughtBackIsUndone(env: Env, h: History, ring: Ring, store: ShardStore, nodes: set<string>, before: Catalog<Location>, g: GroupId,
                            pass: Pass, after: Catalog<Location>)
    requires Sound(env, h, ring, store) && Enough(h, store, nodes, g) && g.objectId !in before
    requires BringsBack(env, h, store, nodes, before, g, pass, after)
    ensures MayComeBack(h, store, nodes, g)
  {
    hide Sound, NamesVersion, Inserted;
    VersionIsFound(env, h, ring, store, pass, g);
    var first := pass.groups[g].representative;
    assert ShardSeen(store, nodes, g, first);
    RecoverableIsEnough(env, h, ring, store, pass, g);
    RebuiltIsVersion(env, h, ring, store, pass, before, after, g);
    forall g' | Enough(h, store, nodes, g') && g'.objectId == g.objectId && g' != g
      ensures SeenBy(store, nodes, g', store[first].manifest.writtenAt)
    {
      VersionIsFound(env, h, ring, store, pass, g');
      RecoverableIsEnough(env, h, ring, store, pass, g');
      assert !Better(CandidateOf(store, pass.groups, g'), CandidateOf(store, pass.groups, g));
      assert ShardSeen(store, nodes, g', pass.groups[g'].representative);
    }
  }

  /**
   Exactly when a reconstructable version may come back: some pass over the nodes makes a row of it
   if and only if one of its shards there carries a stamp that no other reconstructable version of
   the object exceeds with all of its shards. An older version is thus safe from coming back if and
   only if each of its shards was stamped before every shard of some newer reconstructable one.
   */
  lemma ComesBackExactlyWhenUndone(env: Env, h: History, ring: Ring, store: ShardStore, nodes: set<string>, before: Catalog<Location>, g: GroupId)
    requires Sound(env, h, ring, store) && Enough(h, store, nodes, g) && g.objectId !in before
    ensures MayComeBack(h, store, nodes, g) <==> exists pass, after :: BringsBack(env, h, store, nodes, before, g, pass, after)
  {
    hide Sound, Enough, BringsBack, NotOutdone;
    if MayComeBack(h, store, nodes, g) {
      var first :| ShardSeen(store, nodes, g, first) && NotOutdone(h, store, nodes, g, store[first].manifest.writtenAt);
      var pass, after := UndoneComesBack(env, h, ring, store, nodes, before, g, first);
    }
    if pass, after :| BringsBack(env, h, store, nodes, before, g, pass, after) {
      BroughtBackIsUndone(env, h, ring, store, nodes, before, g, pass, after);
    }
  }

  /**
   Of two reconstructable versions that are all there is of an object on the nodes, a pass may bring
   back the older if and only if some shard of the older was stamped at or after some shard of the newer.
   */
  lemma OlderOfTwoComesBack(env: Env, h: History, ring: Ring, store: ShardStore, nodes: set<string>, before: Catalog<Location>,
                            older: GroupId, newer: GroupId)
    requires Sound(env, h, ring, store) && older.objectId == newer.objectId && older.objectId !in before && older != newer
    requires Enough(h, store, nodes, older) && Enough(h, store, nodes, newer)
    requires forall g, at :: ShardSeen(store, nodes, g, at) && g.objectId == older.objectId ==> g == older || g == newer
    ensures (exists pass, after :: BringsBack(env, h, store, nodes, before, older, pass, after)) <==>
      exists x, y :: ShardSeen(store, nodes, older, x) && ShardSeen(store, nodes, newer, y)
        && store[y].manifest.writtenAt <= store[x].manifest.writtenAt
  {
    ComesBackExactlyWhenUndone(env, h, ring, store, nodes, before, older);
    hide Sound, BringsBack;
    forall g | Enough(h, store, nodes, g) && g.objectId == older.objectId
      ensures g == older || g == newer
    {
      EnoughIsSeen(env, h, ring, store, nodes, g);
    }
    hide Enough, ShardSeen;
    assert forall x :: ShardSeen(store, nodes, older, x) ==>
      (NotOutdone(h, store, nodes, older, store[x].manifest.writtenAt) <==> SeenBy(store, nodes, newer, store[x].manifest.writtenAt));
  }

  lemma EnoughIsSeen(env: Env, h: History, ring: Ring, store: ShardStore, nodes: set<string>, g: GroupId)
    requires Sound(env, h, ring, store) && Enough(h, store, nodes, g)
    ensures exists at :: ShardSeen(store, nodes, g, at)
  {
    assert ValidSpec(h.puts[g.version].spec) by { assert Fits(h.puts[g.version].data, h.puts[g.version].spec); }
    assert StoredIndices(store, nodes, g) != {};
    var i :| i in StoredIndices(store, nodes, g);
    var at :| at in Visible(store, nodes) && IdOf(at.key) == g && at.key.index == i;
    assert ShardSeen(store, nodes, g, at);
  }
}
