/**
 From a list of target nodes to a placement (what to write to each node), from a
 placement to the location list of the catalog, and back to what is on each node.
 */
module Placement {
  import opened Wrappers
  import opened Collections
  import opened ShardKeys

  datatype Entry<P> = Entry(location: string, payload: P)

  type PlacementMap<P> = map<string, seq<Entry<P>>>

  datatype TransportError = NotEnoughNodes | InvalidKey(error: KeyError) | InvalidLocation | IndexOutOfRange

  /** The shards placed on a node, in index order, looking at shards 0..n-1. */
  function PlacedOn(nodes: seq<string>, n: nat, node: string): (list: seq<nat>)
    requires n <= |nodes|
    ensures forall j {:trigger list[j]} :: 0 <= j < |list| ==> list[j] < n && nodes[list[j]] == node
  {
    if n == 0 then []
    else PlacedOn(nodes, n - 1, node) + (if nodes[n - 1] == node then [n - 1] else [])
  }

  function ShardText(objectId: string, version: string, i: nat): string {
    KeyText(ShardKey(objectId, version, i))
  }

  function Entries<P>(objectId: string, version: string, shards: seq<P>, list: seq<nat>): seq<Entry<P>>
    requires forall j :: 0 <= j < |list| ==> list[j] < |shards|
  {
    seq(|list|, j requires 0 <= j < |list| => Entry(ShardText(objectId, version, list[j]), shards[list[j]]))
  }

  function Keys(objectId: string, version: string, list: seq<nat>): seq<string> {
    seq(|list|, j requires 0 <= j < |list| => ShardText(objectId, version, list[j]))
  }

  /** The placement that puts shard i on nodes[i], for i < n. */
  ghost predicate Places<P>(placement: PlacementMap<P>, objectId: string, version: string, shards: seq<P>, nodes: seq<string>, n: nat)
    requires n <= |shards| && n <= |nodes|
  {
    && (forall node :: node in placement <==> PlacedOn(nodes, n, node) != [])
    && (forall node :: node in placement ==>
          placement[node] == Entries(objectId, version, shards, PlacedOn(nodes, n, node)))
  }

  /** placement_strategy: shard i goes to node i. */
  method PlacementStrategy<P>(objectId: string, version: string, shards: seq<P>, nodes: seq<string>)
    returns (r: Result<PlacementMap<P>, TransportError>)
    ensures |shards| > |nodes| ==> r == Err(NotEnoughNodes)
    ensures |shards| <= |nodes| ==>
      if shards == [] || MakeShardKey(objectId, version, 0).Ok?
      then r.Ok? && Places(r.value, objectId, version, shards, nodes, |shards|)
      else r == Err(InvalidKey(MakeShardKey(objectId, version, 0).error))
    ensures r.Ok? ==> PlacesEach(r.value, objectId, version, shards, nodes) && PlacesOnly(r.value, objectId, version, shards, nodes)
  {
    if |shards| > |nodes| {
      return Err(NotEnoughNodes);
    }
    var placement: PlacementMap<P> := map[];
    for i := 0 to |shards|
      invariant Places(placement, objectId, version, shards, nodes, i)
      invariant i > 0 ==> MakeShardKey(objectId, version, 0).Ok?
    {
      var location := MakeShardKey(objectId, version, i);
      if location.Err? {
        return Err(InvalidKey(location.error));
      }
      var node := nodes[i];
      var entry := Entry(location.value, shards[i]);
      PlacesOneMore(placement, objectId, version, shards, nodes, i);
      placement := placement[node := (if node in placement then placement[node] else []) + [entry]];
    }
    EachIsPlaced(placement, objectId, version, shards, nodes);
    NothingElseIsPlaced(placement, objectId, version, shards, nodes);
    return Ok(placement);
  }

  /** Every shard is written to its node under its key. */
  ghost predicate PlacesEach<P>(placement: PlacementMap<P>, objectId: string, version: string, shards: seq<P>, nodes: seq<string>) {
    |shards| <= |nodes| && forall i :: 0 <= i < |shards| ==>
      nodes[i] in placement && Entry(objectId + "/" + version + "/" + Decimal(i), shards[i]) in placement[nodes[i]]
  }

  /** The entry writes shard i, which belongs on this node, under its key. */
  ghost predicate IsShardEntry<P>(entry: Entry<P>, node: string, objectId: string, version: string, shards: seq<P>, nodes: seq<string>, i: nat) {
    i < |shards| <= |nodes| && nodes[i] == node && entry == Entry(objectId + "/" + version + "/" + Decimal(i), shards[i])
  }

  /** Nothing else is written. */
  ghost predicate PlacesOnly<P>(placement: PlacementMap<P>, objectId: string, version: string, shards: seq<P>, nodes: seq<string>) {
    forall node, entry :: node in placement && entry in placement[node] ==>
      exists i: nat :: IsShardEntry(entry, node, objectId, version, shards, nodes, i)
  }

  lemma {:induction false} EachIsPlaced<P>(placement: PlacementMap<P>, objectId: string, version: string, shards: seq<P>, nodes: seq<string>)
    requires |shards| <= |nodes| && Places(placement, objectId, version, shards, nodes, |shards|)
    ensures PlacesEach(placement, objectId, version, shards, nodes)
  {
    hide PlacedOn, Decimal;
    forall i: nat | i < |shards|
      ensures nodes[i] in placement && Entry(objectId + "/" + version + "/" + Decimal(i), shards[i]) in placement[nodes[i]]
    {
      var list := PlacedOn(nodes, |shards|, nodes[i]);
      PlacedOnMeaning(nodes, |shards|, nodes[i]);
      var j :| 0 <= j < |list| && list[j] == i;
      assert Entries(objectId, version, shards, list)[j] == Entry(ShardText(objectId, version, i), shards[i]);
    }
  }

  lemma {:induction false} NothingElseIsPlaced<P>(placement: PlacementMap<P>, objectId: string, version: string, shards: seq<P>, nodes: seq<string>)
    requires |shards| <= |nodes| && Places(placement, objectId, version, shards, nodes, |shards|)
    ensures PlacesOnly(placement, objectId, version, shards, nodes)
  {
    hide PlacedOn, Decimal;
    forall node, entry | node in placement && entry in placement[node]
      ensures exists i: nat :: IsShardEntry(entry, node, objectId, version, shards, nodes, i)
    {
      var list := PlacedOn(nodes, |shards|, node);
      var j :| 0 <= j < |placement[node]| && placement[node][j] == entry;
      assert placement[node][j] == Entries(objectId, version, shards, list)[j];
      assert IsShardEntry(entry, node, objectId, version, shards, nodes, list[j]);
    }
  }

  /** The next shard's entry, added to its node, places one shard more. */
  lemma PlacesOneMore<P>(placement: PlacementMap<P>, objectId: string, version: string, shards: seq<P>, nodes: seq<string>, i: nat)
    requires i < |shards| <= |nodes| && Places(placement, objectId, version, shards, nodes, i)
    ensures var entry := Entry(ShardText(objectId, version, i), shards[i]);
      Places(placement[nodes[i] := (if nodes[i] in placement then placement[nodes[i]] else []) + [entry]],
             objectId, version, shards, nodes, i + 1)
  {
    var entry := Entry(ShardText(objectId, version, i), shards[i]);
    var after := placement[nodes[i] := (if nodes[i] in placement then placement[nodes[i]] else []) + [entry]];
    hide ShardText, Entries;
    forall x | x in after
      ensures after[x] == Entries(objectId, version, shards, PlacedOn(nodes, i + 1, x))
    {
      EntriesAppend(objectId, version, shards, PlacedOn(nodes, i, x), i);
      NoEntries(objectId, version, shards);
    }
  }

  lemma NoEntries<P>(objectId: string, version: string, shards: seq<P>)
    ensures Entries(objectId, version, shards, []) == []
  {
  }

  lemma EntriesAppend<P>(objectId: string, version: string, shards: seq<P>, list: seq<nat>, i: nat)
    requires forall j :: 0 <= j < |list| ==> list[j] < |shards|
    requires i < |shards|
    ensures Entries(objectId, version, shards, list + [i]) ==
      Entries(objectId, version, shards, list) + [Entry(ShardText(objectId, version, i), shards[i])]
  {
  }

  /** The locations of the shards of one object version: node i and key i at position i. */
  function Locations(objectId: string, version: string, nodes: seq<string>): seq<string> {
    seq(|nodes|, i requires 0 <= i < |nodes| => LocationText(nodes[i], ShardText(objectId, version, i)))
  }

  lemma {:induction false} PlacedOnMeaning(nodes: seq<string>, n: nat, node: string)
    requires n <= |nodes|
    ensures forall i :: i in PlacedOn(nodes, n, node) <==> 0 <= i < n && nodes[i] == node
    ensures NoDup(PlacedOn(nodes, n, node))
  {
    if n > 0 {
      PlacedOnMeaning(nodes, n - 1, node);
    }
  }

  /* ---------- The location list of any placement ---------- */

  /** Entry number `at` of a node. */
  datatype EntryId = EntryId(node: string, at: nat)

  ghost function EntryIds<P>(placement: PlacementMap<P>, nodes: set<string>): set<EntryId>
    requires nodes <= placement.Keys
  {
    set node, at | node in nodes && 0 <= at < |placement[node]| :: EntryId(node, at)
  }

  /** The first n entries of one node. */
  ghost function NodeIds(node: string, n: nat): set<EntryId> {
    set at | 0 <= at < n :: EntryId(node, at)
  }

  predicate IsEntry<P>(placement: PlacementMap<P>, e: EntryId) {
    e.node in placement && e.at < |placement[e.node]|
  }

  /** The index that the entry's key names. */
  function IndexOf<P>(placement: PlacementMap<P>, e: EntryId): Result<nat, KeyError>
    requires IsEntry(placement, e)
  {
    match ParseShardKey(placement[e.node][e.at].location)
    case Ok(key) => Ok(key.index)
    case Err(error) => Err(error)
  }

  function TextOf<P>(placement: PlacementMap<P>, e: EntryId): string
    requires IsEntry(placement, e)
  {
    LocationText(e.node, placement[e.node][e.at].location)
  }

  ghost predicate AreEntries<P>(placement: PlacementMap<P>, ids: set<EntryId>) {
    forall e :: e in ids ==> IsEntry(placement, e)
  }

  /** The entry's key parses, and its index is one of the list's. */
  ghost predicate Fitting<P>(placement: PlacementMap<P>, e: EntryId, total: nat)
    requires IsEntry(placement, e)
  {
    IndexOf(placement, e).Ok? && IndexOf(placement, e).value < total
  }

  /** Some entry with this index is what the list holds there. */
  ghost predicate HeldAt<P>(placement: PlacementMap<P>, ids: set<EntryId>, locations: seq<string>, i: nat)
    requires AreEntries(placement, ids)
  {
    i < |locations| && exists e :: e in ids && IndexOf(placement, e) == Ok(i) && locations[i] == TextOf(placement, e)
  }

  /** Each position named by an entry holds an entry that names it; the others are empty. */
  ghost predicate Holds<P>(placement: PlacementMap<P>, ids: set<EntryId>, locations: seq<string>)
    requires AreEntries(placement, ids)
  {
    && (forall e :: e in ids ==> Fitting(placement, e, |locations|) && HeldAt(placement, ids, locations, IndexOf(placement, e).value))
    && (forall i :: 0 <= i < |locations| ==> HeldAt(placement, ids, locations, i) || locations[i] == "")
  }

  lemma HoldsOneMore<P>(placement: PlacementMap<P>, ids: set<EntryId>, locations: seq<string>, e: EntryId)
    requires AreEntries(placement, ids) && Holds(placement, ids, locations)
    requires IsEntry(placement, e) && Fitting(placement, e, |locations|)
    ensures Holds(placement, ids + {e}, locations[IndexOf(placement, e).value := TextOf(placement, e)])
  {
    hide IndexOf, TextOf;
    var after := locations[IndexOf(placement, e).value := TextOf(placement, e)];
    assert HeldAt(placement, ids + {e}, after, IndexOf(placement, e).value);
    forall i | 0 <= i < |locations| && i != IndexOf(placement, e).value
      ensures HeldAt(placement, ids, locations, i) ==> HeldAt(placement, ids + {e}, after, i)
    {
    }
  }

  lemma NodeIdsSize(node: string, n: nat)
    ensures |NodeIds(node, n)| == n
  {
    var list := seq(n, at requires 0 <= at < n => EntryId(node, at));
    NoDupCardinality(list);
    assert Elems(list) == NodeIds(node, n) by {
      forall e | e in NodeIds(node, n)
        ensures e in list
      {
        assert list[e.at] == e;
      }
    }
  }

  lemma EntryIdsOneMore<P>(placement: PlacementMap<P>, nodes: set<string>, node: string)
    requires nodes <= placement.Keys && node in placement && node !in nodes
    ensures EntryIds(placement, nodes + {node}) == EntryIds(placement, nodes) + NodeIds(node, |placement[node]|)
    ensures |EntryIds(placement, nodes + {node})| == |EntryIds(placement, nodes)| + |placement[node]|
  {
    NodeIdsSize(node, |placement[node]|);
  }

  lemma AllVisited(keys: set<string>, visited: set<string>)
    requires visited <= keys && keys - visited == {}
    ensures visited == keys
  {
    forall key | key in keys
      ensures key in visited
    {
      assert key !in keys - visited;
    }
  }

  /** The size of the location list: the entries of all nodes together. */
  method CountEntries<P>(placement: PlacementMap<P>) returns (total: nat)
    ensures total == |EntryIds(placement, placement.Keys)|
  {
    total := 0;
    var visited: set<string> := {};
    assert EntryIds(placement, visited) == {};
    while placement.Keys - visited != {}
      invariant visited <= placement.Keys
      invariant total == |EntryIds(placement, visited)|
      decreases placement.Keys - visited
    {
      var node :| node in placement.Keys - visited;
      EntryIdsOneMore(placement, visited, node);
      total := total + |placement[node]|;
      visited := visited + {node};
    }
    AllVisited(placement.Keys, visited);
  }

  /** The entries of one node, written into the location list at the indices of their keys. */
  method FillFromNode<P>(placement: PlacementMap<P>, node: string, locations: array<string>, ghost before: set<EntryId>)
    returns (error: Option<TransportError>)
    requires node in placement && AreEntries(placement, before) && Holds(placement, before, locations[..])
    modifies locations
    ensures AreEntries(placement, before + NodeIds(node, |placement[node]|))
    ensures error == None ==> Holds(placement, before + NodeIds(node, |placement[node]|), locations[..])
    ensures error.Some? ==> exists e :: e in NodeIds(node, |placement[node]|) && IsError(placement, e, locations.Length, error.value)
  {
    hide Holds, IndexOf, TextOf, Fitting;
    assert before + NodeIds(node, 0) == before;
    for j := 0 to |placement[node]|
      invariant AreEntries(placement, before + NodeIds(node, j)) && Holds(placement, before + NodeIds(node, j), locations[..])
    {
      ghost var e := EntryId(node, j);
      IndexParsed(placement, e, locations.Length);
      var parsed := ParseShardKey(placement[node][j].location);
      if parsed.Err? {
        return Some(InvalidKey(parsed.error));
      }
      if parsed.value.index >= locations.Length {
        return Some(IndexOutOfRange);
      }
      HoldsOneMore(placement, before + NodeIds(node, j), locations[..], e);
      locations[parsed.value.index] := LocationText(node, placement[node][j].location);
      assert before + NodeIds(node, j + 1) == before + NodeIds(node, j) + {e};
    }
    error := None;
  }

  /** The error that this entry gives. */
  ghost predicate IsError<P>(placement: PlacementMap<P>, e: EntryId, total: nat, error: TransportError) {
    IsEntry(placement, e) &&
    match IndexOf(placement, e)
    case Err(why) => error == InvalidKey(why)
    case Ok(i) => i >= total && error == IndexOutOfRange
  }

  lemma IndexParsed<P>(placement: PlacementMap<P>, e: EntryId, total: nat)
    requires IsEntry(placement, e)
    ensures var parsed := ParseShardKey(placement[e.node][e.at].location);
      && (parsed.Err? ==> IsError(placement, e, total, InvalidKey(parsed.error)))
      && (parsed.Ok? && parsed.value.index >= total ==> IsError(placement, e, total, IndexOutOfRange))
      && (parsed.Ok? ==> IndexOf(placement, e) == Ok(parsed.value.index))
      && (parsed.Ok? && parsed.value.index < total ==> Fitting(placement, e, total))
      && TextOf(placement, e) == LocationText(e.node, placement[e.node][e.at].location)
  {
  }

  /**
   build_shard_locations, for any placement and any order of its map: it fails exactly when some
   key does not parse or names an index that the list does not have; otherwise each position that
   a key names holds the location of an entry with that key's index, and the others are empty.
   */
  method BuildShardLocations<P>(placement: PlacementMap<P>) returns (r: Result<seq<string>, TransportError>)
    ensures var ids := EntryIds(placement, placement.Keys);
      && AreEntries(placement, ids)
      && (r.Ok? <==> forall e :: e in ids ==> Fitting(placement, e, |ids|))
      && (r.Ok? ==> |r.value| == |ids| && Holds(placement, ids, r.value))
      && (r.Err? ==> exists e :: e in ids && IsError(placement, e, |ids|, r.error))
  {
    var total := CountEntries(placement);
    var locations := new string[total](_ => "");
    var visited: set<string> := {};
    assert EntryIds(placement, visited) == {};
    assert Holds(placement, EntryIds(placement, visited), locations[..]);
    while placement.Keys - visited != {}
      invariant visited <= placement.Keys && AreEntries(placement, EntryIds(placement, visited))
      invariant Holds(placement, EntryIds(placement, visited), locations[..])
      decreases placement.Keys - visited
    {
      hide Holds, Fitting, IsError;
      var node :| node in placement.Keys - visited;
      EntryIdsOneMore(placement, visited, node);
      var error := FillFromNode(placement, node, locations, EntryIds(placement, visited));
      if error.Some? {
        ErrorNotFitting(placement, NodeIds(node, |placement[node]|), total, error.value);
        return Err(error.value);
      }
      visited := visited + {node};
    }
    AllVisited(placement.Keys, visited);
    return Ok(locations[..]);
  }

  lemma ErrorNotFitting<P>(placement: PlacementMap<P>, ids: set<EntryId>, total: nat, error: TransportError)
    requires AreEntries(placement, ids) && exists e :: e in ids && IsError(placement, e, total, error)
    ensures exists e :: e in ids && !Fitting(placement, e, total)
  {
  }

  /* ---------- The location list of an object's placement ---------- */

  /** Every entry of the placement is a shard: its index, and its node and key. */
  lemma PlacedEntry<P>(placement: PlacementMap<P>, objectId: string, version: string, shards: seq<P>, nodes: seq<string>, e: EntryId)
    requires |shards| == |nodes| <= UINT32_MAX && Places(placement, objectId, version, shards, nodes, |nodes|)
    requires ValidKey(ShardKey(objectId, version, 0)) && IsEntry(placement, e)
    ensures IndexOf(placement, e).Ok?
    ensures var i := IndexOf(placement, e).value;
      i < |nodes| && nodes[i] == e.node && TextOf(placement, e) == LocationText(nodes[i], ShardText(objectId, version, i))
  {
    var i := PlacedOn(nodes, |nodes|, e.node)[e.at];
    KeyRoundTrip(ShardKey(objectId, version, i));
  }

  /** Every shard is an entry. */
  lemma ShardPlaced<P>(placement: PlacementMap<P>, objectId: string, version: string, shards: seq<P>, nodes: seq<string>, i: nat) returns (e: EntryId)
    requires |shards| == |nodes| <= UINT32_MAX && Places(placement, objectId, version, shards, nodes, |nodes|)
    requires ValidKey(ShardKey(objectId, version, 0)) && i < |nodes|
    ensures e in EntryIds(placement, placement.Keys) && IsEntry(placement, e) && IndexOf(placement, e) == Ok(i)
  {
    var list := PlacedOn(nodes, |nodes|, nodes[i]);
    PlacedOnMeaning(nodes, |nodes|, nodes[i]);
    var at :| 0 <= at < |list| && list[at] == i;
    e := EntryId(nodes[i], at);
    KeyRoundTrip(ShardKey(objectId, version, i));
  }

  /** There are as many entries as shards. */
  lemma EntryCount<P>(placement: PlacementMap<P>, objectId: string, version: string, shards: seq<P>, nodes: seq<string>)
    requires |shards| == |nodes| <= UINT32_MAX && Places(placement, objectId, version, shards, nodes, |nodes|)
    requires ValidKey(ShardKey(objectId, version, 0))
    ensures |EntryIds(placement, placement.Keys)| == |nodes|
  {
    var ids := EntryIds(placement, placement.Keys);
    var list := EntryList(placement, objectId, version, shards, nodes, |nodes|);
    NoDupCardinality(list);
    forall e | e in ids
      ensures e in list
    {
      PlacedEntry(placement, objectId, version, shards, nodes, e);
      var i := IndexOf(placement, e).value;
      PlacedOnMeaning(nodes, |nodes|, nodes[i]);
      SameEntry(placement, objectId, version, shards, nodes, e, list[i]);
    }
    assert Elems(list) == ids;
  }

  /** The entries of the first n shards, in index order. */
  lemma {:induction false} EntryList<P>(placement: PlacementMap<P>, objectId: string, version: string, shards: seq<P>, nodes: seq<string>, n: nat)
    returns (list: seq<EntryId>)
    requires |shards| == |nodes| <= UINT32_MAX && Places(placement, objectId, version, shards, nodes, |nodes|)
    requires ValidKey(ShardKey(objectId, version, 0)) && n <= |nodes|
    ensures |list| == n && NoDup(list)
    ensures forall i :: 0 <= i < n ==>
      list[i] in EntryIds(placement, placement.Keys) && IsEntry(placement, list[i]) && IndexOf(placement, list[i]) == Ok(i)
  {
    hide Places, IndexOf;
    list := [];
    if n > 0 {
      var front := EntryList(placement, objectId, version, shards, nodes, n - 1);
      var e := ShardPlaced(placement, objectId, version, shards, nodes, n - 1);
      list := front + [e];
    }
  }

  lemma SameEntry<P>(placement: PlacementMap<P>, objectId: string, version: string, shards: seq<P>, nodes: seq<string>, a: EntryId, b: EntryId)
    requires |shards| == |nodes| <= UINT32_MAX && Places(placement, objectId, version, shards, nodes, |nodes|)
    requires ValidKey(ShardKey(objectId, version, 0)) && IsEntry(placement, a) && IsEntry(placement, b)
    requires IndexOf(placement, a) == IndexOf(placement, b)
    ensures a == b
  {
    PlacedEntry(placement, objectId, version, shards, nodes, a);
    PlacedEntry(placement, objectId, version, shards, nodes, b);
    PlacedOnMeaning(nodes, |nodes|, a.node);
    var list := PlacedOn(nodes, |nodes|, a.node);
    KeyRoundTrip(ShardKey(objectId, version, list[a.at]));
    KeyRoundTrip(ShardKey(objectId, version, list[b.at]));
  }

  /** For the placement of an object's shards, position i holds node i and key i, whatever the order of the map. */
  lemma BuiltFromPlacement<P>(placement: PlacementMap<P>, objectId: string, version: string, shards: seq<P>, nodes: seq<string>, built: seq<string>)
    requires |shards| == |nodes| <= UINT32_MAX && Places(placement, objectId, version, shards, nodes, |nodes|)
    requires ValidKey(ShardKey(objectId, version, 0))
    requires var ids := EntryIds(placement, placement.Keys);
      AreEntries(placement, ids) && |built| == |ids| && Holds(placement, ids, built)
    ensures built == Locations(objectId, version, nodes)
  {
    EntryCount(placement, objectId, version, shards, nodes);
    hide Places, IndexOf, TextOf, EntryIds;
    forall i | 0 <= i < |nodes|
      ensures built[i] == Locations(objectId, version, nodes)[i]
    {
      var e := ShardPlaced(placement, objectId, version, shards, nodes, i);
      assert HeldAt(placement, EntryIds(placement, placement.Keys), built, i);
      var held :| held in EntryIds(placement, placement.Keys) && IndexOf(placement, held) == Ok(i) && built[i] == TextOf(placement, held);
      PlacedEntry(placement, objectId, version, shards, nodes, held);
    }
  }

  /** And no key of it fails. */
  lemma PlacementFits<P>(placement: PlacementMap<P>, objectId: string, version: string, shards: seq<P>, nodes: seq<string>)
    requires |shards| == |nodes| <= UINT32_MAX && Places(placement, objectId, version, shards, nodes, |nodes|)
    requires ValidKey(ShardKey(objectId, version, 0))
    ensures var ids := EntryIds(placement, placement.Keys);
      AreEntries(placement, ids) && forall e :: e in ids ==> Fitting(placement, e, |ids|)
  {
    EntryCount(placement, objectId, version, shards, nodes);
    forall e | e in EntryIds(placement, placement.Keys)
      ensures IsEntry(placement, e) && Fitting(placement, e, |nodes|)
    {
      PlacedEntry(placement, objectId, version, shards, nodes, e);
    }
  }

  /** The keys that the location list puts on a node, in list order. */
  function ParsedFor(locations: seq<string>, node: string): seq<string> {
    if locations == [] then []
    else
      var split := SplitSlash(locations[|locations| - 1]);
      ParsedFor(locations[..|locations| - 1], node)
      + (if split.Some? && split.value.0 == node then [split.value.1] else [])
  }

  lemma {:induction false} ParsedForAppend(locations: seq<string>, i: nat, node: string)
    requires i < |locations|
    ensures var split := SplitSlash(locations[i]);
      ParsedFor(locations[..i + 1], node) == ParsedFor(locations[..i], node)
        + (if split.Some? && split.value.0 == node then [split.value.1] else [])
  {
    assert locations[..i + 1][..i] == locations[..i];
  }

  /** parse_shard_locations: fails exactly when some location has no slash. */
  method ParseShardLocations(locations: seq<string>) returns (r: Result<map<string, seq<string>>, TransportError>)
    ensures r.Err? <==> exists i :: 0 <= i < |locations| && NoSlash(locations[i])
    ensures r.Ok? ==> forall node :: ParsedFor(locations, node) == if node in r.value then r.value[node] else []
  {
    hide SplitSlash, NoSlash, ParsedFor;
    var result: map<string, seq<string>> := map[];
    assert forall node :: ParsedFor(locations[..0], node) == [] by { NothingParsed(locations[..0]); }
    for i := 0 to |locations|
      invariant forall j :: 0 <= j < i ==> !NoSlash(locations[j])
      invariant forall node :: ParsedFor(locations[..i], node) == if node in result then result[node] else []
    {
      var split := SplitSlash(locations[i]);
      if split == None {
        return Err(InvalidLocation);
      }
      var (node, key) := split.value;
      forall x {
        ParsedForAppend(locations, i, x);
      }
      result := result[node := (if node in result then result[node] else []) + [key]];
    }
    assert locations[..|locations|] == locations;
    return Ok(result);
  }

  lemma NothingParsed(locations: seq<string>)
    requires locations == []
    ensures forall node :: ParsedFor(locations, node) == []
  {
  }

  /** Parsing the location list of a placement gives back each node's keys, in index order. */
  lemma {:induction false} LocationsRoundTrip(objectId: string, version: string, nodes: seq<string>, node: string)
    requires forall i :: 0 <= i < |nodes| ==> NoSlash(nodes[i])
    ensures ParsedFor(Locations(objectId, version, nodes), node)
         == Keys(objectId, version, PlacedOn(nodes, |nodes|, node))
  {
    hide KeyText, SplitSlash, ShardText, ParsedFor, NoSlash, LocationText;
    if nodes == [] {
      NothingParsed(Locations(objectId, version, nodes));
    } else {
      var n := |nodes| - 1;
      var front := nodes[..n];
      LocationsRoundTrip(objectId, version, front, node);
      PlacedOnPrefix(front, nodes, n, node);
      LastParsed(objectId, version, nodes, node);
      var list := PlacedOn(nodes, n, node);
      assert Keys(objectId, version, list + [n]) == Keys(objectId, version, list) + [ShardText(objectId, version, n)];
    }
  }

  /** The last location adds the last key, for its node. */
  lemma {:induction false} LastParsed(objectId: string, version: string, nodes: seq<string>, node: string)
    requires nodes != [] && NoSlash(nodes[|nodes| - 1])
    ensures var n := |nodes| - 1;
      ParsedFor(Locations(objectId, version, nodes), node) == ParsedFor(Locations(objectId, version, nodes[..n]), node)
        + (if nodes[n] == node then [ShardText(objectId, version, n)] else [])
  {
    hide KeyText, SplitSlash;
    var n := |nodes| - 1;
    assert Locations(objectId, version, nodes)[..n] == Locations(objectId, version, nodes[..n]);
    SplitJoined(nodes[n], ShardText(objectId, version, n));
  }

  lemma {:induction false} PlacedOnPrefix(a: seq<string>, b: seq<string>, n: nat, node: string)
    requires n <= |a| && n <= |b| && a[..n] == b[..n]
    ensures PlacedOn(a, n, node) == PlacedOn(b, n, node)
  {
    if n > 0 {
      assert a[n - 1] == a[..n][n - 1] == b[..n][n - 1] == b[n - 1];
      assert a[..n - 1] == a[..n][..n - 1] == b[..n][..n - 1] == b[..n - 1];
      PlacedOnPrefix(a, b, n - 1, node);
    }
  }
}
