/**
 The stamps that a rebuild goes by. A put stamps its shards when it begins; a
 repair stamps the shards it restores anew. A rebuild never prefers an older
 version to a newer reconstructable one unless the older has been stamped as
 late as the newer, which a repair can do.
 */
module Stamps {
  import opened KeyRing
  import opened MetadataStore
  import opened Shards
  import opened History
  import opened Reindex
  import opened Protocol
  import opened CatalogChanges
  import opened Invariant
  import opened Rebuild
  import opened RebuildResults

  datatype Bound = Before(time: nat) | From(time: nat) {
    predicate Allows(t: nat) {
      if Before? then t < time else t >= time
    }
  }

  /** The step stamps shards of this version. */
  ghost predicate StampsVersion(w: World, s: Step, v: string) {
    (s.PutBegin? && s.token == v)
    || (s.RepairWrite? && s.op in w.ops && w.ops[s.op].RepairWriting?
        && w.ops[s.op].snap.row.locations != [] && w.ops[s.op].snap.Version() == v)
  }

  ghost predicate ObeysBound(w: World, s: Step, v: string, b: Bound) {
    StampsVersion(w, s, v) ==> b.Allows(s.writtenAt)
  }

  ghost predicate StoreStamped(store: ShardStore, v: string, b: Bound) {
    forall at :: at in store && at.key.version == v ==> b.Allows(store[at].manifest.writtenAt)
  }

  /** What an operation has read or made to write later. */
  ghost predicate OpStamped(o: Op, v: string, b: Bound) {
    && (o.Putting? && o.token == v ==> b.Allows(o.writtenAt))
    && (o.Moving? ==> forall i :: i in o.copies && i < |o.snap.row.locations| && o.snap.row.locations[i].key.version == v ==>
          b.Allows(o.copies[i].manifest.writtenAt))
  }

  ghost predicate OpsStamped(ops: map<nat, Op>, v: string, b: Bound) {
    forall op :: op in ops ==> OpStamped(ops[op], v, b)
  }

  ghost predicate Stamped(w: World, v: string, b: Bound) {
    StoreStamped(w.store, v, b) && OpsStamped(w.ops, v, b)
  }

  /* ---------- Steps ---------- */

  lemma OneOpStamped(w: World, w': World, op: nat, v: string, b: Bound)
    requires Stamped(w, v, b) && StoreStamped(w'.store, v, b)
    requires w'.ops - {op} == w.ops - {op} && (op in w'.ops ==> OpStamped(w'.ops[op], v, b))
    ensures Stamped(w', v, b)
  {
    hide OpStamped;
    forall x | x in w'.ops && x != op
      ensures x in w.ops && w'.ops[x] == w.ops[x]
    {
      assert x in w'.ops - {op} && (w'.ops - {op})[x] == w'.ops[x] && (w.ops - {op})[x] == w.ops[x];
    }
  }

  lemma RepairWriteStamped(env: Env, w: World, s: Step, v: string, b: Bound)
    requires Stamped(w, v, b) && Enabled(env, w, s) && s.RepairWrite? && ObeysBound(w, s, v, b)
    ensures Stamped(Apply(env, w, s), v, b)
  {
    hide OpsStamped;
    OneOpStamped(w, Apply(env, w, s), s.op, v, b);
  }

  lemma RepairStepStamped(env: Env, w: World, s: Step, v: string, b: Bound)
    requires Stamped(w, v, b) && Enabled(env, w, s)
    requires s.Probe? || s.RepairStart? || s.RepairFetch? || s.RepairReencode? || s.RepairCommit?
    ensures Stamped(Apply(env, w, s), v, b)
  {
    hide Reencoded, ReadOutcome, RepairedLocations, ConditionalPutRow, OpsStamped;
    OneOpStamped(w, Apply(env, w, s), s.op, v, b);
  }

  lemma MoveFetchStamped(env: Env, w: World, s: Step, v: string, b: Bound)
    requires Stamped(w, v, b) && Enabled(env, w, s) && s.MoveFetch?
    ensures Stamped(Apply(env, w, s), v, b)
  {
    assert OpStamped(w.ops[s.op], v, b);
    hide OpsStamped;
    OneOpStamped(w, Apply(env, w, s), s.op, v, b);
  }

  lemma MoveStepStamped(env: Env, w: World, s: Step, v: string, b: Bound)
    requires Stamped(w, v, b) && Enabled(env, w, s) && (s.MoveWrite? || s.MoveCommit?)
    ensures Stamped(Apply(env, w, s), v, b)
  {
    assert OpStamped(w.ops[s.op], v, b);
    hide MovedLocations, ConditionalPutRow, OpsStamped;
    OneOpStamped(w, Apply(env, w, s), s.op, v, b);
  }

  lemma ScanStepStamped(env: Env, w: World, s: Step, v: string, b: Bound)
    requires Stamped(w, v, b) && Enabled(env, w, s) && ScanStep(s)
    ensures Stamped(Apply(env, w, s), v, b)
  {
    hide AddToGroups, WithManifest, RebuiltLocations, InsertRow, OpsStamped, StoreStamped;
    OneOpStamped(w, Apply(env, w, s), s.op, v, b);
  }

  lemma PutStepStamped(env: Env, w: World, s: Step, v: string, b: Bound)
    requires Stamped(w, v, b) && Enabled(env, w, s) && (s.PutBegin? || s.PutWrite? || s.PutCommit?) && ObeysBound(w, s, v, b)
    ensures Stamped(Apply(env, w, s), v, b)
  {
    assert s.op in w.ops ==> OpStamped(w.ops[s.op], v, b);
    hide OpsStamped, PutRow, MetaOf;
    OneOpStamped(w, Apply(env, w, s), s.op, v, b);
  }

  lemma ReadStepStamped(env: Env, w: World, s: Step, v: string, b: Bound)
    requires Stamped(w, v, b) && Enabled(env, w, s)
    requires s.SelectRow? || s.SelectLocations? || s.GetFetch? || s.GetFinish? || s.RemoveCommit? || s.Abort?
    ensures Stamped(Apply(env, w, s), v, b)
  {
    hide OpsStamped, ReadOutcome, RemoveRow;
    OneOpStamped(w, Apply(env, w, s), s.op, v, b);
  }

  lemma OtherStepStamped(env: Env, w: World, s: Step, v: string, b: Bound)
    requires Stamped(w, v, b) && Enabled(env, w, s)
    requires s.Rotate? || s.LoseShard? || s.ScrambleShard? || s.RemoveShard?
    ensures Stamped(Apply(env, w, s), v, b)
  {
    hide OpStamped;
  }

  lemma StepKeepsStamps(env: Env, w: World, s: Step, v: string, b: Bound)
    requires Stamped(w, v, b) && Enabled(env, w, s) && ObeysBound(w, s, v, b)
    ensures Stamped(Apply(env, w, s), v, b)
  {
    hide Stamped, Enabled, Apply, ObeysBound;
    if s.MoveFetch? {
      MoveFetchStamped(env, w, s, v, b);
    } else if s.MoveWrite? || s.MoveCommit? {
      MoveStepStamped(env, w, s, v, b);
    } else if s.RepairWrite? {
      RepairWriteStamped(env, w, s, v, b);
    } else if HealStep(s) {
      RepairStepStamped(env, w, s, v, b);
    } else if ScanStep(s) {
      ScanStepStamped(env, w, s, v, b);
    } else if s.PutBegin? || s.PutWrite? || s.PutCommit? {
      PutStepStamped(env, w, s, v, b);
    } else if s.Rotate? || s.LoseShard? || s.ScrambleShard? || s.RemoveShard? {
      OtherStepStamped(env, w, s, v, b);
    } else {
      ReadStepStamped(env, w, s, v, b);
    }
  }

  /** If every step that stamps a version obeys a bound, so does every stored shard of it. */
  lemma {:induction false} RunKeepsStamps(env: Env, worlds: seq<World>, steps: seq<Step>, n: nat, v: string, b: Bound)
    requires IsRun(env, worlds, steps) && Init(worlds[0]) && n <= |steps|
    requires forall r :: 0 <= r < n ==> ObeysBound(worlds[r], steps[r], v, b)
    ensures Stamped(worlds[n], v, b)
  {
    hide Apply, Enabled, ObeysBound;
    if n > 0 {
      hide Stamped;
      RunKeepsStamps(env, worlds, steps, n - 1, v, b);
      assert Enabled(env, worlds[n - 1], steps[n - 1]) && ObeysBound(worlds[n - 1], steps[n - 1], v, b);
      StepKeepsStamps(env, worlds[n - 1], steps[n - 1], v, b);
    }
  }

  /* ---------- Before a version is begun ---------- */

  lemma PutsStay(env: Env, w: World, s: Step)
    requires Enabled(env, w, s)
    ensures w.history.puts.Keys <= Apply(env, w, s).history.puts.Keys
    ensures s.PutBegin? ==> s.token in Apply(env, w, s).history.puts
  {
    if !s.PutBegin? {
      StepActs(env, w, s);
    }
  }

  lemma {:induction false} PutsStayAlong(env: Env, worlds: seq<World>, steps: seq<Step>, i: nat, j: nat)
    requires IsRun(env, worlds, steps) && i <= j <= |steps|
    ensures worlds[i].history.puts.Keys <= worlds[j].history.puts.Keys
    decreases j
  {
    hide Apply, Enabled;
    if i < j {
      PutsStayAlong(env, worlds, steps, i, j - 1);
      assert Enabled(env, worlds[j - 1], steps[j - 1]);
      PutsStay(env, worlds[j - 1], steps[j - 1]);
    }
  }

  lemma StampedAfterBegun(env: Env, w: World, s: Step, v: string)
    requires Inv(env, w) && Enabled(env, w, s) && StampsVersion(w, s, v)
    ensures v in Apply(env, w, s).history.puts
  {
    if s.RepairWrite? {
      OpFacts(env, w, s.op);
    }
  }

  /** Before a put begins, nothing is stamped with its version. */
  lemma NothingStampedBefore(env: Env, worlds: seq<World>, steps: seq<Step>, r: nat, begin: nat, v: string)
    requires IsRun(env, worlds, steps) && Init(worlds[0]) && r < begin < |steps|
    requires steps[begin].PutBegin? && steps[begin].token == v
    ensures !StampsVersion(worlds[r], steps[r], v)
  {
    hide Enabled, Apply, Inv, StampsVersion, Init;
    RunKeepsInvariant(env, worlds, steps, r);
    assert Enabled(env, worlds[begin], steps[begin]) && Enabled(env, worlds[r], steps[r]);
    PutsStayAlong(env, worlds, steps, r + 1, begin);
    FreshWhenBegun(env, worlds[begin], steps[begin]);
    if StampsVersion(worlds[r], steps[r], v) {
      StampedAfterBegun(env, worlds[r], steps[r], v);
      assert false;
    }
  }

  lemma FreshWhenBegun(env: Env, w: World, s: Step)
    requires Enabled(env, w, s) && s.PutBegin?
    ensures s.token !in w.history.puts
  {
  }

  /* ---------- What a rebuild prefers ---------- */

  lemma StampOrder(env: Env, worlds: seq<World>, steps: seq<Step>, n: nat, older: string, newer: string, begin: nat)
    requires IsRun(env, worlds, steps) && Init(worlds[0]) && begin < n <= |steps|
    requires steps[begin].PutBegin? && steps[begin].token == newer
    requires forall r :: 0 <= r < n ==> ObeysBound(worlds[r], steps[r], older, Before(steps[begin].writtenAt))
    requires forall r :: begin < r < n ==> ObeysBound(worlds[r], steps[r], newer, From(steps[begin].writtenAt))
    ensures Stamped(worlds[n], older, Before(steps[begin].writtenAt)) && Stamped(worlds[n], newer, From(steps[begin].writtenAt))
  {
    hide Enabled, Apply, Stamped;
    var time := steps[begin].writtenAt;
    forall r | 0 <= r < n
      ensures ObeysBound(worlds[r], steps[r], newer, From(time))
    {
      if r < begin {
        NothingStampedBefore(env, worlds, steps, r, begin, newer);
      }
    }
    RunKeepsStamps(env, worlds, steps, n, older, Before(time));
    RunKeepsStamps(env, worlds, steps, n, newer, From(time));
  }

  /**
   Stamps decide, whatever the clocks of other writes do: in a run in which every stamp that the
   older version is given, by its put and by any repair, precedes the stamp of the newer put, and
   no repair of the newer goes back before it, a rebuild that finds the newer reconstructable
   never makes a row of the older.
   */
  lemma OverwrittenStaysOverwritten(env: Env, worlds: seq<World>, steps: seq<Step>, n: nat, older: string, newer: GroupId, begin: nat,
                                    pass: Pass, before: Catalog<Location>, after: Catalog<Location>)
    requires IsRun(env, worlds, steps) && Init(worlds[0]) && begin < n <= |steps| && (forall data :: env.checksum(data) != "")
    requires steps[begin].PutBegin? && steps[begin].token == newer.version
    requires forall r :: 0 <= r < n ==> ObeysBound(worlds[r], steps[r], older, Before(steps[begin].writtenAt))
    requires forall r :: begin < r < n ==> ObeysBound(worlds[r], steps[r], newer.version, From(steps[begin].writtenAt))
    requires Rebuilds(worlds[n].store, pass, before, after) && newer.objectId !in before && newer !in pass.unserved
    requires newer.version in worlds[n].history.puts
      && |StoredIndices(worlds[n].store, pass.nodes, newer)| >= worlds[n].history.puts[newer.version].spec.dataShards
    ensures newer.objectId in after && !NamesVersion(env, worlds[n].history, after[newer.objectId], older)
  {
    var w := worlds[n];
    RunKeepsInvariant(env, worlds, steps, n);
    StampOrder(env, worlds, steps, n, older, newer.version, begin);
    InvSound(env, w);
    hide IsRun, Init, Inv, NamesVersion, StampsVersion, Sound, Rebuilds, OpsStamped, ObeysBound;
    PrefersLaterStamps(env, w.history, w.ring, w.store, pass, before, after, older, newer, steps[begin].writtenAt);
  }

  lemma PrefersLaterStamps(env: Env, h: History, ring: Ring, store: ShardStore, pass: Pass, before: Catalog<Location>, after: Catalog<Location>,
                           older: string, newer: GroupId, time: nat)
    requires Sound(env, h, ring, store) && Rebuilds(store, pass, before, after) && newer.objectId !in before && newer !in pass.unserved
    requires newer.version in h.puts && |StoredIndices(store, pass.nodes, newer)| >= h.puts[newer.version].spec.dataShards
    requires StoreStamped(store, older, Before(time)) && StoreStamped(store, newer.version, From(time))
    ensures newer.objectId in after && !NamesVersion(env, h, after[newer.objectId], older)
  {
    hide Sound, NamesVersion, Inserted;
    VersionIsFound(env, h, ring, store, pass, newer);
    WinnerHasEnough(env, h, ring, store, pass, newer);
    RebuiltIsVersion(env, h, ring, store, pass, before, after, newer);
    var g := GroupId(newer.objectId, older);
    if NamesVersion(env, h, after[newer.objectId], older) {
      NamedIsServed(env, h, ring, store, pass, before, after, newer, older);
      assert Better(CandidateOf(store, pass.groups, newer), CandidateOf(store, pass.groups, g));
      RebuiltIsVersion(env, h, ring, store, pass, before, after, g);
    }
  }

  /** The version that a rebuilt row names is that of a group the pass was served. */
  lemma NamedIsServed(env: Env, h: History, ring: Ring, store: ShardStore, pass: Pass, before: Catalog<Location>, after: Catalog<Location>,
                      g: GroupId, t: string)
    requires Sound(env, h, ring, store) && Rebuilds(store, pass, before, after) && Served(pass, g) && g.objectId !in before
    requires g.objectId in after && NamesVersion(env, h, after[g.objectId], t)
    ensures Served(pass, GroupId(g.objectId, t))
  {
    WinnerOf(env, h, ring, store, pass, before, after, g);
    var c := pass.Winners()[g.objectId];
    RebuiltNames(env, h, ring, g.objectId, c, t);
  }
}
