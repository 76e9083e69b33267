/**
 One whole reindex pass with nothing else running: scan, choice and insertion,
 with its report. Nodes may fail to answer and manifests may fail to come.
 */
module Rebuild {
  import opened Wrappers
  import opened Collections
  import opened ErasureCodec
  import opened MetadataStore
  import opened ShardKeys
  import opened Shards
  import opened Reindex

  datatype Report = Report(
    versionsScanned: nat,
    objectsRecovered: nat,
    objectsSkippedExisting: nat,
    degradedObjects: nat,
    unreadableVersions: nat,
    errors: nat)

  /* ---------- Scanning ---------- */

  /** The shards on the registered nodes. */
  function Visible(store: ShardStore, nodes: set<string>): set<Location> {
    set at | at in store && at.node in nodes
  }

  /** The groups describe exactly the shards seen. */
  ghost predicate GroupsOf(seen: set<Location>, groups: map<GroupId, Group>) {
    && (forall at :: at in seen ==> IdOf(at.key) in groups && at.key.index in groups[IdOf(at.key)].found)
    && (forall g :: g in groups ==> groups[g].representative in seen && IdOf(groups[g].representative.key) == g)
    && (forall g, i :: g in groups && i in groups[g].found ==>
          Location(groups[g].found[i], ShardKey(g.objectId, g.version, i)) in seen)
  }

  lemma AddedToGroups(seen: set<Location>, groups: map<GroupId, Group>, at: Location)
    requires GroupsOf(seen, groups)
    ensures GroupsOf(seen + {at}, AddToGroups(groups, at))
  {
    assert at == Location(at.node, ShardKey(IdOf(at.key).objectId, IdOf(at.key).version, at.key.index));
  }

  function KeyOf(g: GroupId, index: nat): ShardKey {
    ShardKey(g.objectId, g.version, index)
  }

  ghost predicate Records(groups: map<GroupId, Group>, g: GroupId, index: nat) {
    g in groups && index in groups[g].found
  }

  ghost function FoundAt(groups: map<GroupId, Group>, g: GroupId, index: nat): string
    requires Records(groups, g, index)
  {
    groups[g].found[index]
  }

  /** These shards of one node have been added: they count as on this node, whatever was recorded before. */
  ghost predicate NodeAdded(added: set<Location>, node: string, before: map<GroupId, Group>, groups: map<GroupId, Group>) {
    && (forall g, index: nat :: Location(node, KeyOf(g, index)) in added ==> Records(groups, g, index) && FoundAt(groups, g, index) == node)
    && (forall g, index: nat :: Location(node, KeyOf(g, index)) !in added ==>
          (Records(groups, g, index) <==> Records(before, g, index))
          && (Records(before, g, index) ==> FoundAt(groups, g, index) == FoundAt(before, g, index)))
    && (forall g :: g in before ==> g in groups && groups[g].representative == before[g].representative)
    && (forall g :: g in groups && g !in before ==>
          groups[g].representative.node == node && exists index: nat :: Records(groups, g, index))
  }

  lemma OneMoreAdded(added: set<Location>, node: string, before: map<GroupId, Group>, groups: map<GroupId, Group>, at: Location)
    requires NodeAdded(added, node, before, groups) && at.node == node
    ensures NodeAdded(added + {at}, node, before, AddToGroups(groups, at))
  {
    assert at == Location(node, KeyOf(IdOf(at.key), at.key.index));
  }

  lemma NothingAdded(node: string, before: map<GroupId, Group>)
    ensures NodeAdded({}, node, before, before)
  {
  }

  lemma VisibleNode(store: ShardStore, node: string, at: Location)
    ensures at in Visible(store, {node}) <==> at in store && at.node == node
  {
  }

  /** The listing of one node, in whatever order it comes. */
  method ScanNode(store: ShardStore, node: string, before: map<GroupId, Group>, ghost seen: set<Location>)
    returns (groups: map<GroupId, Group>)
    requires GroupsOf(seen, before)
    ensures GroupsOf(seen + Visible(store, {node}), groups)
    ensures NodeAdded(Visible(store, {node}), node, before, groups)
  {
    groups := before;
    NothingAdded(node, before);
    hide GroupsOf, AddToGroups, NodeAdded, Visible;
    var todo := Visible(store, {node});
    ghost var added: set<Location> := {};
    assert seen + added == seen;
    while todo != {}
      invariant todo <= Visible(store, {node}) && added + todo == Visible(store, {node})
      invariant GroupsOf(seen + added, groups) && NodeAdded(added, node, before, groups)
      decreases todo
    {
      var at :| at in todo;
      assert at.node == node by { VisibleNode(store, node, at); }
      AddedToGroups(seen + added, groups, at);
      OneMoreAdded(added, node, before, groups, at);
      groups := AddToGroups(groups, at);
      assert seen + added + {at} == seen + (added + {at});
      added := added + {at};
      todo := todo - {at};
    }
    assert added == Visible(store, {node});
  }

  ghost predicate Holds(store: ShardStore, node: string, answering: set<string>, key: ShardKey) {
    node in answering && Location(node, key) in store
  }

  /** Of the first n nodes, the one at q is the last to hold a shard under this key. */
  ghost predicate IsLastHolder(store: ShardStore, nodes: seq<string>, answering: set<string>, key: ShardKey, n: nat, q: nat) {
    q < n <= |nodes| && Holds(store, nodes[q], answering, key) && forall r :: q < r < n ==> !Holds(store, nodes[r], answering, key)
  }

  ghost predicate HoldsAny(store: ShardStore, node: string, answering: set<string>, g: GroupId) {
    exists index: nat :: Holds(store, node, answering, KeyOf(g, index))
  }

  /** Of the first n nodes, the one at q is the first to hold a shard of the version. */
  ghost predicate IsFirstHolder(store: ShardStore, nodes: seq<string>, answering: set<string>, g: GroupId, n: nat, q: nat) {
    q < n <= |nodes| && HoldsAny(store, nodes[q], answering, g) && forall r :: 0 <= r < q ==> !HoldsAny(store, nodes[r], answering, g)
  }

  /** A shard on several nodes counts as on the last one listed; the manifest is read from the first one with any shard. */
  ghost predicate InListOrder(store: ShardStore, nodes: seq<string>, answering: set<string>, n: nat, groups: map<GroupId, Group>) {
    && (forall g, index: nat :: Records(groups, g, index) ==>
          exists q: nat :: IsLastHolder(store, nodes, answering, KeyOf(g, index), n, q) && nodes[q] == FoundAt(groups, g, index))
    && (forall g, index: nat, q: nat :: q < n && q < |nodes| && Holds(store, nodes[q], answering, KeyOf(g, index)) ==> Records(groups, g, index))
    && (forall g :: g in groups ==>
          exists q: nat :: IsFirstHolder(store, nodes, answering, g, n, q) && nodes[q] == groups[g].representative.node)
  }

  lemma StillLast(store: ShardStore, nodes: seq<string>, answering: set<string>, key: ShardKey, n: nat, q: nat)
    requires n < |nodes| && IsLastHolder(store, nodes, answering, key, n, q) && !Holds(store, nodes[n], answering, key)
    ensures IsLastHolder(store, nodes, answering, key, n + 1, q)
  {
  }

  lemma SkippedInOrder(store: ShardStore, nodes: seq<string>, answering: set<string>, n: nat, groups: map<GroupId, Group>)
    requires n < |nodes| && nodes[n] !in answering && InListOrder(store, nodes, answering, n, groups)
    ensures InListOrder(store, nodes, answering, n + 1, groups)
  {
    hide KeyOf, Records, HoldsAny;
    forall g, index: nat | Records(groups, g, index)
      ensures exists q: nat :: IsLastHolder(store, nodes, answering, KeyOf(g, index), n + 1, q) && nodes[q] == FoundAt(groups, g, index)
    {
      var q: nat :| IsLastHolder(store, nodes, answering, KeyOf(g, index), n, q) && nodes[q] == FoundAt(groups, g, index);
      StillLast(store, nodes, answering, KeyOf(g, index), n, q);
    }
    forall g | g in groups
      ensures exists q: nat :: IsFirstHolder(store, nodes, answering, g, n + 1, q) && nodes[q] == groups[g].representative.node
    {
      var q: nat :| IsFirstHolder(store, nodes, answering, g, n, q) && nodes[q] == groups[g].representative.node;
      assert IsFirstHolder(store, nodes, answering, g, n + 1, q);
    }
  }

  lemma AddedInOrder(store: ShardStore, nodes: seq<string>, answering: set<string>, n: nat, before: map<GroupId, Group>, groups: map<GroupId, Group>)
    requires n < |nodes| && nodes[n] in answering && InListOrder(store, nodes, answering, n, before)
    requires NodeAdded(Visible(store, {nodes[n]}), nodes[n], before, groups)
    ensures InListOrder(store, nodes, answering, n + 1, groups)
  {
    hide KeyOf, Records, HoldsAny;
    forall g, index: nat | Records(groups, g, index)
      ensures exists q: nat :: IsLastHolder(store, nodes, answering, KeyOf(g, index), n + 1, q) && nodes[q] == FoundAt(groups, g, index)
    {
      AddedLast(store, nodes, answering, n, before, groups, g, index);
    }
    forall g, index: nat, q: nat | q < n + 1 && q < |nodes| && Holds(store, nodes[q], answering, KeyOf(g, index))
      ensures Records(groups, g, index)
    {
      VisibleNode(store, nodes[n], Location(nodes[n], KeyOf(g, index)));
    }
    forall g | g in groups
      ensures exists q: nat :: IsFirstHolder(store, nodes, answering, g, n + 1, q) && nodes[q] == groups[g].representative.node
    {
      AddedFirst(store, nodes, answering, n, before, groups, g);
    }
  }

  lemma AddedLast(store: ShardStore, nodes: seq<string>, answering: set<string>, n: nat, before: map<GroupId, Group>, groups: map<GroupId, Group>,
                  g: GroupId, index: nat)
    requires n < |nodes| && nodes[n] in answering && InListOrder(store, nodes, answering, n, before)
    requires NodeAdded(Visible(store, {nodes[n]}), nodes[n], before, groups) && Records(groups, g, index)
    ensures exists q: nat :: IsLastHolder(store, nodes, answering, KeyOf(g, index), n + 1, q) && nodes[q] == FoundAt(groups, g, index)
  {
    var at := Location(nodes[n], KeyOf(g, index));
    VisibleNode(store, nodes[n], at);
    hide KeyOf, HoldsAny, IsFirstHolder, Visible;
    if at in store {
      assert IsLastHolder(store, nodes, answering, KeyOf(g, index), n + 1, n);
    } else {
      assert Records(before, g, index);
      var q: nat :| IsLastHolder(store, nodes, answering, KeyOf(g, index), n, q) && nodes[q] == FoundAt(before, g, index);
      StillLast(store, nodes, answering, KeyOf(g, index), n, q);
    }
  }

  lemma AddedFirst(store: ShardStore, nodes: seq<string>, answering: set<string>, n: nat, before: map<GroupId, Group>, groups: map<GroupId, Group>, g: GroupId)
    requires n < |nodes| && nodes[n] in answering && InListOrder(store, nodes, answering, n, before)
    requires NodeAdded(Visible(store, {nodes[n]}), nodes[n], before, groups) && g in groups
    ensures exists q: nat :: IsFirstHolder(store, nodes, answering, g, n + 1, q) && nodes[q] == groups[g].representative.node
  {
    hide KeyOf, Visible;
    if g in before {
      var q: nat :| IsFirstHolder(store, nodes, answering, g, n, q) && nodes[q] == before[g].representative.node;
      assert IsFirstHolder(store, nodes, answering, g, n + 1, q);
    } else {
      var index: nat :| Records(groups, g, index);
      assert Records(groups, g, index) && !Records(before, g, index);
      VisibleNode(store, nodes[n], Location(nodes[n], KeyOf(g, index)));
      assert Holds(store, nodes[n], answering, KeyOf(g, index));
      assert IsFirstHolder(store, nodes, answering, g, n + 1, n);
    }
  }

  lemma NothingScanned(store: ShardStore, nodes: seq<string>, answering: set<string>)
    ensures GroupsOf(Visible(store, Elems(nodes[..0]) * answering), map[]) && InListOrder(store, nodes, answering, 0, map[])
  {
    assert Visible(store, Elems(nodes[..0]) * answering) == {};
  }

  /** All registered nodes; one that does not answer contributes nothing. */
  method ScanNodes(store: ShardStore, nodes: seq<string>, answering: set<string>) returns (groups: map<GroupId, Group>)
    ensures GroupsOf(Visible(store, Elems(nodes) * answering), groups)
    ensures InListOrder(store, nodes, answering, |nodes|, groups)
  {
    hide GroupsOf, InListOrder, NodeAdded, Visible, Elems, AddToGroups, Holds, HoldsAny;
    groups := map[];
    NothingScanned(store, nodes, answering);
    for i := 0 to |nodes|
      invariant GroupsOf(Visible(store, Elems(nodes[..i]) * answering), groups)
      invariant InListOrder(store, nodes, answering, i, groups)
    {
      VisibleOneMore(store, nodes, answering, i);
      if nodes[i] in answering {
        ghost var before := groups;
        groups := ScanNode(store, nodes[i], groups, Visible(store, Elems(nodes[..i]) * answering));
        AddedInOrder(store, nodes, answering, i, before, groups);
      } else {
        SkippedInOrder(store, nodes, answering, i, groups);
      }
    }
    assert nodes[..|nodes|] == nodes;
  }

  lemma VisibleOneMore(store: ShardStore, nodes: seq<string>, answering: set<string>, i: nat)
    requires i < |nodes|
    ensures nodes[i] in answering ==>
      Visible(store, Elems(nodes[..i + 1]) * answering) == Visible(store, Elems(nodes[..i]) * answering) + Visible(store, {nodes[i]})
    ensures nodes[i] !in answering ==> Visible(store, Elems(nodes[..i + 1]) * answering) == Visible(store, Elems(nodes[..i]) * answering)
  {
    assert nodes[..i + 1] == nodes[..i] + [nodes[i]];
    ElemsAppend(nodes[..i], nodes[i]);
  }

  /* ---------- Choosing ---------- */

  function CandidateOf(store: ShardStore, groups: map<GroupId, Group>, g: GroupId): Candidate
    requires g in groups && groups[g].representative in store
  {
    Candidate(g, store[groups[g].representative].manifest, groups[g].found)
  }

  /** The group's manifest comes, and it is within bounds. */
  predicate Usable(store: ShardStore, unserved: set<GroupId>, groups: map<GroupId, Group>, g: GroupId)
    requires g in groups && groups[g].representative in store
  {
    g !in unserved && Plausible(store[groups[g].representative].manifest.meta.erasure)
  }

  ghost predicate RepresentativesStored(store: ShardStore, groups: map<GroupId, Group>) {
    forall g :: g in groups ==> groups[g].representative in store
  }

  /** The candidates: one for each usable group. */
  ghost predicate CandidatesOf(store: ShardStore, unserved: set<GroupId>, groups: map<GroupId, Group>, ids: set<GroupId>, cs: seq<Candidate>)
    requires RepresentativesStored(store, groups) && ids <= groups.Keys
  {
    forall c :: c in cs <==> c.id in ids && Usable(store, unserved, groups, c.id) && c == CandidateOf(store, groups, c.id)
  }

  /** The groups whose manifest does not come or is outside the bounds. */
  ghost function Unusable(store: ShardStore, unserved: set<GroupId>, groups: map<GroupId, Group>, ids: set<GroupId>): set<GroupId>
    requires RepresentativesStored(store, groups) && ids <= groups.Keys
  {
    set g | g in ids && !Usable(store, unserved, groups, g)
  }

  /** Each object's winner is one of its usable groups, and none of its other usable groups is better. */
  ghost predicate BestOfGroups(store: ShardStore, unserved: set<GroupId>, groups: map<GroupId, Group>, winners: map<string, Candidate>)
    requires RepresentativesStored(store, groups)
  {
    && (forall o :: o in winners ==>
          var g := winners[o].id;
          g.objectId == o && g in groups && Usable(store, unserved, groups, g) && winners[o] == CandidateOf(store, groups, g))
    && (forall g :: g in groups && Usable(store, unserved, groups, g) ==>
          g.objectId in winners && !Better(CandidateOf(store, groups, g), winners[g.objectId]))
  }

  lemma {:induction false} WinnersAreBestOfGroups(store: ShardStore, unserved: set<GroupId>, groups: map<GroupId, Group>, cs: seq<Candidate>)
    requires RepresentativesStored(store, groups) && CandidatesOf(store, unserved, groups, groups.Keys, cs)
    ensures BestOfGroups(store, unserved, groups, Winners(cs))
  {
    hide Better, Usable;
    WinnersAreBest(cs);
    forall g | g in groups && Usable(store, unserved, groups, g)
      ensures g.objectId in Winners(cs) && !Better(CandidateOf(store, groups, g), Winners(cs)[g.objectId])
    {
      assert CandidateOf(store, groups, g) in cs by { assert CandidateOf(store, groups, g).id in groups.Keys; }
    }
  }

  lemma UnusableOneMore(store: ShardStore, unserved: set<GroupId>, groups: map<GroupId, Group>, ids: set<GroupId>, g: GroupId)
    requires RepresentativesStored(store, groups) && ids <= groups.Keys && g in groups && g !in ids
    ensures |Unusable(store, unserved, groups, ids + {g})|
         == |Unusable(store, unserved, groups, ids)| + (if Usable(store, unserved, groups, g) then 0 else 1)
  {
    hide Usable;
    assert Unusable(store, unserved, groups, ids + {g})
        == Unusable(store, unserved, groups, ids) + (if Usable(store, unserved, groups, g) then {} else {g});
  }

  lemma CandidatesOneMore(store: ShardStore, unserved: set<GroupId>, groups: map<GroupId, Group>, ids: set<GroupId>, cs: seq<Candidate>, g: GroupId)
    requires RepresentativesStored(store, groups) && ids <= groups.Keys && g in groups && g !in ids
    requires CandidatesOf(store, unserved, groups, ids, cs)
    ensures CandidatesOf(store, unserved, groups, ids + {g},
                         if Usable(store, unserved, groups, g) then cs + [CandidateOf(store, groups, g)] else cs)
  {
    hide Usable;
  }

  ghost predicate OutOfBounds(spec: ErasureSpec) {
    spec.dataShards == 0 || spec.parityShards == 0 || spec.dataShards + spec.parityShards > 255 || spec.shardSize == 0
  }

  method ChooseWinners(store: ShardStore, unserved: set<GroupId>, groups: map<GroupId, Group>)
    returns (winners: map<string, Candidate>, unreadable: nat, ghost cs: seq<Candidate>)
    requires RepresentativesStored(store, groups)
    ensures CandidatesOf(store, unserved, groups, groups.Keys, cs) && winners == Winners(cs)
    ensures BestOfGroups(store, unserved, groups, winners)
    ensures unreadable == |Unusable(store, unserved, groups, groups.Keys)|
    ensures forall g :: g in Unusable(store, unserved, groups, groups.Keys) <==>
      g in groups && (g in unserved || OutOfBounds(store[groups[g].representative].manifest.meta.erasure))
  {
    winners, unreadable, cs := map[], 0, [];
    var ids: set<GroupId> := {};
    assert CandidatesOf(store, unserved, groups, ids, cs) && |Unusable(store, unserved, groups, ids)| == 0;
    hide CandidatesOf, Unusable, Usable, Consider;
    while groups.Keys - ids != {}
      invariant ids <= groups.Keys && CandidatesOf(store, unserved, groups, ids, cs)
      invariant winners == Winners(cs) && unreadable == |Unusable(store, unserved, groups, ids)|
      decreases groups.Keys - ids
    {
      var g :| g in groups.Keys - ids;
      CandidatesOneMore(store, unserved, groups, ids, cs, g);
      UnusableOneMore(store, unserved, groups, ids, g);
      if Usable(store, unserved, groups, g) {
        var c := CandidateOf(store, groups, g);
        winners := Consider(winners, c);
        cs := cs + [c];
      } else {
        unreadable := unreadable + 1;
      }
      ids := ids + {g};
    }
    assert ids == groups.Keys;
    WinnersAreBestOfGroups(store, unserved, groups, cs);
    UnusableMeaning(store, unserved, groups);
  }

  lemma UnusableMeaning(store: ShardStore, unserved: set<GroupId>, groups: map<GroupId, Group>)
    requires RepresentativesStored(store, groups)
    ensures forall g :: g in Unusable(store, unserved, groups, groups.Keys) <==>
      g in groups && (g in unserved || OutOfBounds(store[groups[g].representative].manifest.meta.erasure))
  {
  }

  /* ---------- Inserting ---------- */

  /** What validate_metadata and the size check accept. */
  predicate Storable(id: string, meta: Meta) {
    id != "" && meta.checksum != "" && meta.size <= INT64_MAX
  }

  predicate Inserts(catalog: Catalog<Location>, winners: map<string, Candidate>, o: string) {
    o in winners && o !in catalog && Storable(o, winners[o].manifest.meta)
  }

  function RebuiltRow(c: Candidate): Row<Location> {
    Row(c.manifest.meta, RebuiltLocations(c), 1)
  }

  /** A row for every winner that has none, among the given objects. */
  function Inserted(catalog: Catalog<Location>, winners: map<string, Candidate>, objects: set<string>): Catalog<Location> {
    catalog + map o | o in objects && Inserts(catalog, winners, o) :: RebuiltRow(winners[o])
  }

  /** The store would take the row: these are the validations of insert_if_absent. */
  lemma StorableMeaning(c: Candidate, locations: seq<string>)
    requires "" !in locations
    ensures Storable(c.id.objectId, c.manifest.meta) <==> ValidationError(c.id.objectId, c.manifest.meta, locations) == None
  {
  }

  /**
   A row made from what was found: the manifest's columns, version 1, and for each index the
   location found, or one on the address that nobody has.
   */
  ghost predicate MadeFrom(c: Candidate, row: Row<Location>) {
    var k, m := c.manifest.meta.erasure.dataShards, c.manifest.meta.erasure.parityShards;
    && row.meta == c.manifest.meta && row.version == 1 && |row.locations| == k + m
    && forall i: nat :: i < k + m ==>
         row.locations[i] ==
           if i in c.found then Location(c.found[i], ShardKey(c.id.objectId, c.id.version, i))
           else Location("0.0.0.0:0", ShardKey(c.id.objectId, c.manifest.version, i))
  }

  /** Exactly the winners that can be stored and have no row get one. */
  lemma InsertedExactly(catalog: Catalog<Location>, winners: map<string, Candidate>)
    ensures var after := Inserted(catalog, winners, winners.Keys);
      && (forall o :: o in catalog ==> o in after && after[o] == catalog[o])
      && (forall o :: o in after && o !in catalog ==> o in winners && MadeFrom(winners[o], after[o]))
      && (forall o :: o in winners ==>
            (o in after <==> o in catalog || (o != "" && winners[o].manifest.meta.checksum != "" && winners[o].manifest.meta.size < 0x8000_0000_0000_0000)))
  {
    forall o | o in winners
      ensures MadeFrom(winners[o], RebuiltRow(winners[o]))
    {
    }
    hide MadeFrom, RebuiltRow;
  }

  /** The objects of a set that satisfy p. */
  ghost function Filtered(objects: set<string>, p: string -> bool): set<string> {
    set o | o in objects && p(o)
  }

  function IsRecovered(catalog: Catalog<Location>, winners: map<string, Candidate>): string -> bool {
    o => Inserts(catalog, winners, o)
  }

  /** Recovered with fewer shards than k + m. */
  function IsDegraded(catalog: Catalog<Location>, winners: map<string, Candidate>): string -> bool {
    o => Inserts(catalog, winners, o) && |winners[o].found| < winners[o].manifest.meta.erasure.dataShards + winners[o].manifest.meta.erasure.parityShards
  }

  function IsExisting(catalog: Catalog<Location>, winners: map<string, Candidate>): string -> bool {
    o => o in winners && Storable(o, winners[o].manifest.meta) && o in catalog
  }

  /** What the report says of the objects dealt with. */
  ghost predicate Counts(catalog: Catalog<Location>, winners: map<string, Candidate>, objects: set<string>, r: Report) {
    && r.objectsRecovered == |Filtered(objects, IsRecovered(catalog, winners))|
    && r.degradedObjects == |Filtered(objects, IsDegraded(catalog, winners))|
    && r.objectsSkippedExisting == |Filtered(objects, IsExisting(catalog, winners))|
    && r.objectsRecovered + r.objectsSkippedExisting + r.errors == |objects|
  }

  lemma FilteredOneMore(objects: set<string>, p: string -> bool, o: string)
    requires o !in objects
    ensures |Filtered(objects + {o}, p)| == |Filtered(objects, p)| + (if p(o) then 1 else 0)
  {
    assert Filtered(objects + {o}, p) == Filtered(objects, p) + (if p(o) then {o} else {});
  }

  lemma OneMoreRow(catalog: Catalog<Location>, winners: map<string, Candidate>, objects: set<string>, o: string)
    requires o in winners && o !in objects
    ensures o in Inserted(catalog, winners, objects) <==> o in catalog
    ensures Inserted(catalog, winners, objects + {o}) ==
      if Storable(o, winners[o].manifest.meta)
      then InsertRow(Inserted(catalog, winners, objects), o, winners[o].manifest.meta, RebuiltLocations(winners[o]))
      else Inserted(catalog, winners, objects)
  {
    hide RebuiltLocations, Storable;
  }

  /** What one object adds to the report. */
  function CountOne(catalog: Catalog<Location>, o: string, c: Candidate, r: Report): Report {
    if !Storable(o, c.manifest.meta) then r.(errors := r.errors + 1)
    else if o in catalog then r.(objectsSkippedExisting := r.objectsSkippedExisting + 1)
    else
      var degraded := if c.Count() < c.manifest.meta.erasure.Total() then 1 else 0;
      r.(objectsRecovered := r.objectsRecovered + 1, degradedObjects := r.degradedObjects + degraded)
  }

  lemma CountsOneMore(catalog: Catalog<Location>, winners: map<string, Candidate>, objects: set<string>, o: string, r: Report)
    requires o in winners && o !in objects && Counts(catalog, winners, objects, r)
    ensures Counts(catalog, winners, objects + {o}, CountOne(catalog, o, winners[o], r))
  {
    hide Filtered, Storable;
    FilteredOneMore(objects, IsRecovered(catalog, winners), o);
    FilteredOneMore(objects, IsDegraded(catalog, winners), o);
    FilteredOneMore(objects, IsExisting(catalog, winners), o);
  }

  lemma NothingInserted(catalog: Catalog<Location>, winners: map<string, Candidate>, r: Report)
    requires r.objectsRecovered == r.objectsSkippedExisting == r.degradedObjects == r.errors == 0
    ensures Inserted(catalog, winners, {}) == catalog && Counts(catalog, winners, {}, r)
  {
  }

  /** One winner: validated, and inserted unless the catalog has a row for the object. */
  method InsertOne(o: string, c: Candidate, before: Catalog<Location>, count: Report)
    returns (after: Catalog<Location>, r: Report)
    ensures r == CountOne(before, o, c, count)
    ensures after == if Storable(o, c.manifest.meta) then InsertRow(before, o, c.manifest.meta, RebuiltLocations(c)) else before
  {
    after, r := before, count;
    if !Storable(o, c.manifest.meta) {
      r := r.(errors := r.errors + 1);
    } else if o in before {
      r := r.(objectsSkippedExisting := r.objectsSkippedExisting + 1);
    } else {
      after := InsertRow(before, o, c.manifest.meta, RebuiltLocations(c));
      r := r.(objectsRecovered := r.objectsRecovered + 1);
      if c.Count() < c.manifest.meta.erasure.Total() {
        r := r.(degradedObjects := r.degradedObjects + 1);
      }
    }
  }

  /** Whether an object counts as existing is the same before the pass and in the middle of it. */
  lemma CountOneInMiddle(catalog: Catalog<Location>, winners: map<string, Candidate>, objects: set<string>, o: string, r: Report)
    requires o in winners && o !in objects
    ensures CountOne(Inserted(catalog, winners, objects), o, winners[o], r) == CountOne(catalog, o, winners[o], r)
  {
    hide Storable;
  }

  method InsertWinners(catalog: Catalog<Location>, winners: map<string, Candidate>, scanned: nat, unreadable: nat)
    returns (after: Catalog<Location>, r: Report)
    ensures after == Inserted(catalog, winners, winners.Keys) && Counts(catalog, winners, winners.Keys, r)
    ensures forall o :: o in catalog ==> o in after && after[o] == catalog[o]
    ensures forall o :: o in after && o !in catalog ==> o in winners && MadeFrom(winners[o], after[o])
    ensures forall o :: o in winners ==>
      (o in after <==> o in catalog || (o != "" && winners[o].manifest.meta.checksum != "" && winners[o].manifest.meta.size < 0x8000_0000_0000_0000))
    ensures r.versionsScanned == scanned && r.unreadableVersions == unreadable
  {
    InsertedExactly(catalog, winners);
    hide Counts, Inserted, InsertRow, RebuiltLocations, Storable, Inserts, MadeFrom;
    after, r := catalog, Report(scanned, 0, 0, 0, unreadable, 0);
    NothingInserted(catalog, winners, r);
    var done: set<string> := {};
    while winners.Keys - done != {}
      invariant done <= winners.Keys
      invariant after == Inserted(catalog, winners, done) && Counts(catalog, winners, done, r)
      invariant r.versionsScanned == scanned && r.unreadableVersions == unreadable
      decreases winners.Keys - done
    {
      var o :| o in winners.Keys - done;
      CountsOneMore(catalog, winners, done, o, r);
      CountOneInMiddle(catalog, winners, done, o, r);
      OneMoreRow(catalog, winners, done, o);
      after, r := InsertOne(o, winners[o], after, r);
      done := done + {o};
    }
    assert done == winners.Keys;
  }

  /** Recovered with fewer than k shards: what the documentation says is counted as degraded. */
  function IsShort(catalog: Catalog<Location>, winners: map<string, Candidate>): string -> bool {
    o => Inserts(catalog, winners, o) && |winners[o].found| < winners[o].manifest.meta.erasure.dataShards
  }

  /** Recovered with at least k shards, but not all. */
  predicate IsBetween(catalog: Catalog<Location>, winners: map<string, Candidate>, o: string) {
    Inserts(catalog, winners, o)
    && winners[o].manifest.meta.erasure.dataShards <= |winners[o].found|
    && |winners[o].found| < winners[o].manifest.meta.erasure.dataShards + winners[o].manifest.meta.erasure.parityShards
  }

  /**
   The reported number of degraded objects is the documented one if and only if no recovered
   object has at least k shards without having them all.
   */
  lemma DegradedAsDocumented(catalog: Catalog<Location>, winners: map<string, Candidate>, r: Report)
    requires Counts(catalog, winners, winners.Keys, r)
    ensures r.degradedObjects == |Filtered(winners.Keys, IsShort(catalog, winners))| <==>
      forall o :: o in winners ==> !IsBetween(catalog, winners, o)
  {
    hide Storable;
    var counted := Filtered(winners.Keys, IsDegraded(catalog, winners));
    var documented := Filtered(winners.Keys, IsShort(catalog, winners));
    assert documented <= counted;
    if forall o :: o in winners ==> !IsBetween(catalog, winners, o) {
      assert documented == counted;
    } else {
      var o :| o in winners && IsBetween(catalog, winners, o);
      assert o in counted - documented;
      SubsetCardinality(documented, counted - {o});
    }
  }

  /* ---------- A pass ---------- */

  /** One pass: the nodes that answered, the manifests that did not come, the groups and candidates it found, in its own order. */
  datatype Pass = Pass(nodes: set<string>, unserved: set<GroupId>, groups: map<GroupId, Group>, cs: seq<Candidate>) {
    function Winners(): map<string, Candidate> {
      Reindex.Winners(cs)
    }
  }

  /** The pass is one over these shards. */
  ghost predicate Finds(store: ShardStore, pass: Pass) {
    && GroupsOf(Visible(store, pass.nodes), pass.groups)
    && RepresentativesStored(store, pass.groups)
    && CandidatesOf(store, pass.unserved, pass.groups, pass.groups.Keys, pass.cs)
  }

  /** Over these shards and this catalog the pass ends with that catalog. */
  ghost predicate Rebuilds(store: ShardStore, pass: Pass, before: Catalog<Location>, after: Catalog<Location>) {
    Finds(store, pass) && after == Inserted(before, pass.Winners(), pass.Winners().Keys)
  }

  /** New rows are those of the objects counted as recovered, so the report accounts for the growth of the catalog. */
  lemma InsertedCount(catalog: Catalog<Location>, winners: map<string, Candidate>)
    ensures |Inserted(catalog, winners, winners.Keys)| == |catalog| + |Filtered(winners.Keys, IsRecovered(catalog, winners))|
    ensures forall id :: id in catalog ==>
      id in Inserted(catalog, winners, winners.Keys) && Inserted(catalog, winners, winners.Keys)[id] == catalog[id]
  {
    InsertedRows(catalog, winners);
    hide Inserted, Filtered;
    var added := Filtered(winners.Keys, IsRecovered(catalog, winners));
    var after := Inserted(catalog, winners, winners.Keys);
    assert |catalog.Keys + added| == |catalog.Keys| + |added|;
    assert |after| == |after.Keys| && |catalog| == |catalog.Keys|;
  }

  lemma InsertedRows(catalog: Catalog<Location>, winners: map<string, Candidate>)
    ensures var added := Filtered(winners.Keys, IsRecovered(catalog, winners));
      added !! catalog.Keys && Inserted(catalog, winners, winners.Keys).Keys == catalog.Keys + added
    ensures forall id :: id in catalog ==>
      id in Inserted(catalog, winners, winners.Keys) && Inserted(catalog, winners, winners.Keys)[id] == catalog[id]
  {
    hide RebuiltRow, Storable;
  }

  method ReindexPass(store: ShardStore, nodes: seq<string>, answering: set<string>, unserved: set<GroupId>, before: Catalog<Location>)
    returns (after: Catalog<Location>, r: Report, ghost pass: Pass)
    ensures Rebuilds(store, pass, before, after)
    ensures pass.nodes == Elems(nodes) * answering && pass.unserved == unserved
    ensures InListOrder(store, nodes, answering, |nodes|, pass.groups)
    ensures r.versionsScanned == |pass.groups| && r.unreadableVersions == |Unusable(store, unserved, pass.groups, pass.groups.Keys)|
    ensures Counts(before, pass.Winners(), pass.Winners().Keys, r)
    ensures forall id :: id in before ==> id in after && after[id] == before[id]
    ensures |after| == |before| + r.objectsRecovered
  {
    var groups := ScanNodes(store, nodes, answering);
    ghost var cs;
    var winners, unreadable;
    winners, unreadable, cs := ChooseWinners(store, unserved, groups);
    pass := Pass(Elems(nodes) * answering, unserved, groups, cs);
    hide Counts, Inserted, InListOrder, MadeFrom;
    after, r := InsertWinners(before, winners, |groups|, unreadable);
    InsertedCount(before, winners);
    CountsRecovered(before, winners, r);
  }

  lemma CountsRecovered(catalog: Catalog<Location>, winners: map<string, Candidate>, r: Report)
    requires Counts(catalog, winners, winners.Keys, r)
    ensures r.objectsRecovered == |Filtered(winners.Keys, IsRecovered(catalog, winners))|
  {
  }
}
