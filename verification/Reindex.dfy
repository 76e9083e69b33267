/**
 Rebuilding the catalog from the shards on the nodes: shards are grouped by
 object and version, each group's manifest is read from one shard, one version
 is chosen for each object, and a row is inserted where there is none.
 */
module Reindex {
  import opened ErasureCodec
  import opened ShardKeys
  import opened Shards

  /** The address recorded for shards that were not found: well formed, but nobody answers there. */
  const UNKNOWN_NODE := "0.0.0.0:0"

  datatype GroupId = GroupId(objectId: string, version: string)

  /** A version's shards: the node of each index found, and the shard the manifest is read from. */
  datatype Group = Group(found: map<nat, string>, representative: Location)

  datatype Candidate = Candidate(id: GroupId, manifest: Manifest, found: map<nat, string>) {
    function Count(): nat {
      |found|
    }

    /** At least k shards were found. */
    predicate Recoverable() {
      Count() >= manifest.meta.erasure.dataShards
    }
  }

  function IdOf(key: ShardKey): GroupId {
    GroupId(key.objectId, key.version)
  }

  /** A key seen on a node; the first of its group becomes the representative. */
  function AddToGroups(groups: map<GroupId, Group>, at: Location): map<GroupId, Group> {
    var id := IdOf(at.key);
    var group := if id in groups then groups[id] else Group(map[], at);
    groups[id := group.(found := group.found[at.key.index := at.node])]
  }

  /** The bounds a manifest must meet before it is used. */
  predicate Plausible(spec: ErasureSpec) {
    spec.dataShards > 0 && spec.parityShards > 0 && spec.Total() <= MAX_TOTAL_SHARDS && spec.shardSize > 0
  }

  /** The selection policy: recoverable first, then newest among recoverable, else most shards and then newest. */
  predicate Better(a: Candidate, b: Candidate) {
    if a.Recoverable() != b.Recoverable() then a.Recoverable()
    else if a.Recoverable() then a.manifest.writtenAt > b.manifest.writtenAt
    else a.Count() > b.Count() || (a.Count() == b.Count() && a.manifest.writtenAt > b.manifest.writtenAt)
  }

  /** A new candidate against the winner so far. */
  function Consider(winners: map<string, Candidate>, c: Candidate): map<string, Candidate> {
    var o := c.id.objectId;
    if o !in winners || Better(c, winners[o]) then winners[o := c] else winners
  }

  /** One location for each index; the unknown node where no shard was found. */
  function RebuiltLocations(c: Candidate): seq<Location> {
    seq(c.manifest.meta.erasure.Total(), i requires 0 <= i < c.manifest.meta.erasure.Total() =>
      if i in c.found then Location(c.found[i], ShardKey(c.id.objectId, c.id.version, i))
      else Location(UNKNOWN_NODE, ShardKey(c.id.objectId, c.manifest.version, i)))
  }

  /* ---------- The winner ---------- */

  /** Better is a strict weak order. */
  lemma BetterIsOrder(a: Candidate, b: Candidate, c: Candidate)
    ensures !(Better(a, b) && Better(b, a))
    ensures Better(a, b) && Better(b, c) ==> Better(a, c)
    ensures !Better(a, b) && !Better(b, c) ==> !Better(a, c)
  {
  }

  /** The winners after considering candidates in the order given. */
  function Winners(cs: seq<Candidate>): map<string, Candidate> {
    if cs == [] then map[] else Consider(Winners(cs[..|cs| - 1]), cs[|cs| - 1])
  }

  /** w is a best candidate of object o. */
  ghost predicate IsWinner(cs: seq<Candidate>, o: string, w: Candidate) {
    && w in cs && w.id.objectId == o
    && forall c :: c in cs && c.id.objectId == o ==> !Better(c, w)
  }

  /** Whatever the order of the candidates, each object gets one that none of its others beats. */
  lemma {:induction false} WinnersAreBest(cs: seq<Candidate>)
    ensures forall o :: o in Winners(cs) <==> exists c :: c in cs && c.id.objectId == o
    ensures forall o :: o in Winners(cs) ==> IsWinner(cs, o, Winners(cs)[o])
  {
    if cs != [] {
      var front, last := cs[..|cs| - 1], cs[|cs| - 1];
      WinnersAreBest(front);
      assert cs == front + [last];
      assert last in cs;
      forall o | o in Winners(cs)
        ensures IsWinner(cs, o, Winners(cs)[o])
      {
        if o == last.id.objectId && o in Winners(front) {
          forall c | c in cs && c.id.objectId == o
            ensures !Better(c, Winners(cs)[o])
          {
            BetterIsOrder(c, Winners(front)[o], last);
            BetterIsOrder(last, Winners(front)[o], last);
          }
        }
      }
    }
  }

  /** Two orders of the same candidates give the same winner wherever the policy leaves no tie. */
  lemma {:induction false} WinnerOrderIndependent(cs: seq<Candidate>, ds: seq<Candidate>, o: string)
    requires forall c :: c in cs <==> c in ds
    requires forall a, b :: a in cs && b in cs && a.id.objectId == b.id.objectId == o && a != b ==> Better(a, b) || Better(b, a)
    ensures o in Winners(cs) <==> o in Winners(ds)
    ensures o in Winners(cs) ==> Winners(cs)[o] == Winners(ds)[o]
  {
    WinnersAreBest(cs);
    WinnersAreBest(ds);
  }

  /** If no version of an object has k shards, the chosen one has the most shards, and is the newest of those that have as many. */
  lemma {:induction false} WinnerMostShards(cs: seq<Candidate>, o: string, c: Candidate)
    requires c in cs && c.id.objectId == o
    requires forall d :: d in cs && d.id.objectId == o ==> |d.found| < d.manifest.meta.erasure.dataShards
    ensures o in Winners(cs) && |Winners(cs)[o].found| >= |c.found|
    ensures |Winners(cs)[o].found| == |c.found| ==> Winners(cs)[o].manifest.writtenAt >= c.manifest.writtenAt
  {
    WinnersAreBest(cs);
  }

  /** If any version of an object has k shards, the chosen one has, and none with k shards is newer. */
  lemma {:induction false} WinnerRecoverable(cs: seq<Candidate>, o: string, c: Candidate)
    requires c in cs && c.id.objectId == o && |c.found| >= c.manifest.meta.erasure.dataShards
    ensures o in Winners(cs) && |Winners(cs)[o].found| >= Winners(cs)[o].manifest.meta.erasure.dataShards
    ensures Winners(cs)[o].manifest.writtenAt >= c.manifest.writtenAt
  {
    WinnersAreBest(cs);
  }
}
