/**
 The version fence: repair and rebalance commit over the row they read or not at
 all, as long as the row is not removed in between; removal restarts versions at
 1, and then a stale commit can get through.
 */
module Fence {
  import opened Wrappers
  import opened MetadataStore
  import opened Shards
  import opened Reindex
  import opened Protocol
  import opened CatalogChanges

  ghost predicate RemovedSince(removed: seq<string>, mark: nat, id: string) {
    mark <= |removed| && id in removed[mark..]
  }

  /** Since the row was seen it has only moved to greater versions, unless it was removed. */
  ghost predicate SeenOk(catalog: Catalog<Location>, removed: seq<string>, id: string, seen: Row<Location>, mark: nat) {
    && mark <= |removed|
    && (!RemovedSince(removed, mark, id) ==>
          && id in catalog
          && catalog[id].version >= seen.version
          && (catalog[id].version == seen.version ==> catalog[id] == seen))
  }

  ghost predicate SnapOk(catalog: Catalog<Location>, removed: seq<string>, snap: Snapshot) {
    && SeenOk(catalog, removed, snap.id, snap.seen, snap.mark)
    && snap.row.meta == snap.seen.meta && snap.row.version == snap.seen.version
    && (!RemovedSince(removed, snap.mark, snap.id) && catalog[snap.id].version == snap.seen.version ==> snap.row == snap.seen)
  }

  function SnapOf(o: Op): Option<Snapshot> {
    match o
    case Getting(snap, _, _) => Some(snap)
    case Removing(snap) => Some(snap)
    case Probing(snap, _, _) => Some(snap)
    case RepairFetching(snap, _, _, _) => Some(snap)
    case RepairWriting(snap, _, _, _) => Some(snap)
    case Moving(snap, _, _, _) => Some(snap)
    case _ => None
  }

  ghost predicate OpFenced(catalog: Catalog<Location>, removed: seq<string>, o: Op) {
    && (o.Reading? ==> SeenOk(catalog, removed, o.id, o.seen, o.mark))
    && (SnapOf(o).Some? ==> SnapOk(catalog, removed, SnapOf(o).value))
  }

  ghost predicate Fenced(w: World) {
    forall op :: op in w.ops ==> OpFenced(w.catalog, w.removed, w.ops[op])
  }

  /** What one step can do to the rows: replace one by a row of the next version, add one, or remove one and log it. */
  ghost predicate Evolves(before: World, after: World) {
    && before.removed <= after.removed
    && forall id :: id in before.catalog && id !in after.removed[|before.removed|..] ==>
         && id in after.catalog
         && (after.catalog[id] == before.catalog[id] || after.catalog[id].version == before.catalog[id].version + 1)
  }

  lemma ChangeEvolves(before: World, after: World, c: Change)
    requires after.catalog == Act(c, before.catalog)
    requires after.removed == (if c.RemoveChange? then before.removed + [c.id] else before.removed)
    ensures Evolves(before, after)
    ensures after.removed[|before.removed|..] == (if c.RemoveChange? then [c.id] else [])
  {
  }

  lemma StepEvolves(env: Env, w: World, s: Step)
    requires Enabled(env, w, s)
    ensures Evolves(w, Apply(env, w, s))
    ensures forall id :: id in Apply(env, w, s).removed[|w.removed|..] ==> Removes(w, s, id)
  {
    hide Apply, Evolves, Act, MovedLocations, RepairedLocations, RebuiltLocations, PutLocations;
    StepActs(env, w, s);
    ChangeEvolves(w, Apply(env, w, s), ChangeOf(env, w, s));
  }

  lemma SeenEvolves(before: World, after: World, id: string, seen: Row<Location>, mark: nat)
    requires Evolves(before, after) && SeenOk(before.catalog, before.removed, id, seen, mark)
    ensures SeenOk(after.catalog, after.removed, id, seen, mark)
    ensures !RemovedSince(after.removed, mark, id) ==>
      !RemovedSince(before.removed, mark, id) && before.catalog[id].version <= after.catalog[id].version
  {
    assert before.removed == after.removed[..|before.removed|];
    assert after.removed[mark..] == before.removed[mark..] + after.removed[|before.removed|..];
  }

  lemma OpEvolves(before: World, after: World, o: Op)
    requires Evolves(before, after) && OpFenced(before.catalog, before.removed, o)
    ensures OpFenced(after.catalog, after.removed, o)
  {
    hide Evolves;
    if o.Reading? {
      SeenEvolves(before, after, o.id, o.seen, o.mark);
    }
    if SnapOf(o).Some? {
      var snap := SnapOf(o).value;
      SeenEvolves(before, after, snap.id, snap.seen, snap.mark);
    }
  }

  /** Steps other than the two SELECTs leave an operation's reading as it was. */
  ghost predicate SameReading(a: Op, b: Op) {
    SnapOf(a) == SnapOf(b) && !a.Reading? && !b.Reading?
  }

  ghost predicate NoReading(o: Op) {
    SnapOf(o) == None && !o.Reading?
  }

  /** After a step that is neither of the two SELECTs, an operation reads nothing, or what it read before. */
  ghost predicate ReadingKept(before: World, after: World) {
    forall op :: op in after.ops ==>
      var o := after.ops[op];
      NoReading(o) || (op in before.ops && (before.ops[op] == o || SameReading(before.ops[op], o)))
  }

  lemma OneOpKept(w: World, w': World, op: nat)
    requires w'.ops - {op} == w.ops - {op}
    requires op in w'.ops ==> NoReading(w'.ops[op]) || (op in w.ops && SameReading(w.ops[op], w'.ops[op]))
    ensures ReadingKept(w, w')
  {
    forall x | x in w'.ops && x != op
      ensures x in w.ops && w'.ops[x] == w.ops[x]
    {
      assert x in w'.ops - {op} && (w'.ops - {op})[x] == w'.ops[x] && (w.ops - {op})[x] == w.ops[x];
    }
  }

  lemma RepairReadingKept(env: Env, w: World, s: Step)
    requires Enabled(env, w, s) && HealStep(s) && !s.MoveFetch? && !s.MoveWrite? && !s.MoveCommit?
    ensures ReadingKept(w, Apply(env, w, s))
  {
    hide Reencoded, ReadOutcome, RepairedLocations, ConditionalPutRow, ReadingKept;
    OneOpKept(w, Apply(env, w, s), s.op);
  }

  lemma MoveReadingKept(env: Env, w: World, s: Step)
    requires Enabled(env, w, s) && (s.MoveFetch? || s.MoveWrite? || s.MoveCommit?)
    ensures ReadingKept(w, Apply(env, w, s))
  {
    hide MovedLocations, ConditionalPutRow, ReadingKept;
    OneOpKept(w, Apply(env, w, s), s.op);
  }

  lemma HealReadingKept(env: Env, w: World, s: Step)
    requires Enabled(env, w, s) && HealStep(s)
    ensures ReadingKept(w, Apply(env, w, s))
  {
    hide Enabled, Apply, ReadingKept;
    if s.MoveFetch? || s.MoveWrite? || s.MoveCommit? {
      MoveReadingKept(env, w, s);
    } else {
      RepairReadingKept(env, w, s);
    }
  }

  lemma ScanReadingKept(env: Env, w: World, s: Step)
    requires Enabled(env, w, s) && ScanStep(s)
    ensures ReadingKept(w, Apply(env, w, s))
  {
    hide AddToGroups, WithManifest, RebuiltLocations, InsertRow, ReadingKept;
    if s.InsertWinner? {
      SameReadings(w, Apply(env, w, s));
    } else {
      OneOpKept(w, Apply(env, w, s), s.op);
    }
  }

  lemma SameReadings(w: World, w': World)
    requires w'.ops == w.ops
    ensures ReadingKept(w, w')
  {
  }

  lemma UserReadingKept(env: Env, w: World, s: Step)
    requires Enabled(env, w, s) && !HealStep(s) && !ScanStep(s) && !s.SelectRow? && !s.SelectLocations?
    ensures ReadingKept(w, Apply(env, w, s))
  {
    hide ReadOutcome, PutLocations, PutRow;
  }

  lemma StepKeepsReadings(env: Env, w: World, s: Step)
    requires Enabled(env, w, s) && !s.SelectRow? && !s.SelectLocations?
    ensures ReadingKept(w, Apply(env, w, s))
  {
    hide Enabled, Apply, ReadingKept;
    if HealStep(s) {
      HealReadingKept(env, w, s);
    } else if ScanStep(s) {
      ScanReadingKept(env, w, s);
    } else {
      UserReadingKept(env, w, s);
    }
  }

  lemma SelectRowFenced(env: Env, w: World, s: Step)
    requires Fenced(w) && s.SelectRow? && Enabled(env, w, s)
    ensures Fenced(Apply(env, w, s))
  {
    var w' := Apply(env, w, s);
    var o := Reading(s.purpose, s.id, w.catalog[s.id], |w.removed|);
    assert OpFenced(w.catalog, w.removed, o);
    hide OpFenced;
    assert w'.ops == w.ops[s.op := o];
  }

  /** The second SELECT: where the version is still the one first seen, so are the locations. */
  lemma SelectLocationsFenced(env: Env, w: World, s: Step)
    requires Fenced(w) && s.SelectLocations? && Enabled(env, w, s)
    ensures Fenced(Apply(env, w, s))
  {
    var w' := Apply(env, w, s);
    assert OpFenced(w.catalog, w.removed, w.ops[s.op]);
    assert OpFenced(w.catalog, w.removed, w'.ops[s.op]);
    hide OpFenced;
    assert forall op :: op in w'.ops && op != s.op ==> w'.ops[op] == w.ops[op];
  }

  lemma StepKeepsFence(env: Env, w: World, s: Step)
    requires Fenced(w) && Enabled(env, w, s)
    ensures Fenced(Apply(env, w, s))
  {
    hide Apply, Enabled, Evolves;
    if s.SelectRow? {
      SelectRowFenced(env, w, s);
    } else if s.SelectLocations? {
      SelectLocationsFenced(env, w, s);
    } else {
      var w' := Apply(env, w, s);
      StepEvolves(env, w, s);
      StepKeepsReadings(env, w, s);
      forall op | op in w'.ops
        ensures OpFenced(w'.catalog, w'.removed, w'.ops[op])
      {
        if op in w.ops {
          OpEvolves(w, w', w.ops[op]);
        }
      }
    }
  }

  lemma {:induction false} RunKeepsFence(env: Env, worlds: seq<World>, steps: seq<Step>, n: nat)
    requires IsRun(env, worlds, steps) && Init(worlds[0]) && n <= |steps|
    ensures Fenced(worlds[n])
  {
    hide Apply, Enabled;
    if n > 0 {
      RunKeepsFence(env, worlds, steps, n - 1);
      assert Enabled(env, worlds[n - 1], steps[n - 1]);
      StepKeepsFence(env, worlds[n - 1], steps[n - 1]);
    }
  }

  /**
   The fence, in every run: if the row was not removed since the operation read it, a repair or
   rebalance commit goes through exactly when the row is still what the operation read, columns
   and locations alike.
   */
  lemma CommitOverRowAsRead(env: Env, worlds: seq<World>, steps: seq<Step>, n: nat)
    requires IsRun(env, worlds, steps) && Init(worlds[0]) && n < |steps|
    requires CommitSnapshot(worlds[n], steps[n]).Some?
    requires var snap := CommitSnapshot(worlds[n], steps[n]).value;
      !RemovedSince(worlds[n].removed, snap.mark, snap.id)
    ensures var snap := CommitSnapshot(worlds[n], steps[n]).value;
      && snap.id in worlds[n].catalog
      && (CommitSucceeds(worlds[n], steps[n]) <==> worlds[n].catalog[snap.id] == snap.seen)
      && (CommitSucceeds(worlds[n], steps[n]) ==> snap.row == snap.seen)
  {
    hide Apply, Enabled;
    RunKeepsFence(env, worlds, steps, n);
    assert OpFenced(worlds[n].catalog, worlds[n].removed, worlds[n].ops[steps[n].op]);
  }

  /** Between two worlds of a run without a remove of the object, its row only gains versions, and keeps its version only by staying as it is. */
  lemma {:induction false} VersionsGrow(env: Env, worlds: seq<World>, steps: seq<Step>, i: nat, j: nat, id: string)
    requires IsRun(env, worlds, steps) && i <= j <= |steps|
    requires id in worlds[i].catalog
    requires forall r :: i <= r < j ==> !Removes(worlds[r], steps[r], id)
    ensures id in worlds[j].catalog
    ensures worlds[j].catalog[id].version >= worlds[i].catalog[id].version
    ensures worlds[j].catalog[id].version == worlds[i].catalog[id].version ==> worlds[j].catalog[id] == worlds[i].catalog[id]
    decreases j - i
  {
    hide Apply, Enabled, Removes;
    if i < j {
      VersionsGrow(env, worlds, steps, i, j - 1, id);
      assert Enabled(env, worlds[j - 1], steps[j - 1]);
      StepEvolves(env, worlds[j - 1], steps[j - 1]);
      assert !Removes(worlds[j - 1], steps[j - 1], id);
    }
  }

  /** A successful fenced commit raises the version by one. */
  lemma CommitRaisesVersion(env: Env, w: World, s: Step)
    requires Enabled(env, w, s) && CommitSucceeds(w, s)
    ensures var snap := CommitSnapshot(w, s).value;
      var w' := Apply(env, w, s);
      snap.id in w'.catalog && w'.catalog[snap.id].version == snap.row.version + 1
      && w'.catalog[snap.id].meta == snap.row.meta
  {
  }

  /** Of all repairs and rebalances that read one version of an object, at most one commits, unless the object is removed in between. */
  lemma AtMostOneCommits(env: Env, worlds: seq<World>, steps: seq<Step>, i: nat, j: nat) returns (r: nat)
    requires IsRun(env, worlds, steps) && i < j < |steps|
    requires CommitSucceeds(worlds[i], steps[i]) && CommitSucceeds(worlds[j], steps[j])
    requires var a, b := CommitSnapshot(worlds[i], steps[i]).value, CommitSnapshot(worlds[j], steps[j]).value;
      a.id == b.id && a.row.version == b.row.version
    ensures i < r < j && Removes(worlds[r], steps[r], CommitSnapshot(worlds[i], steps[i]).value.id)
  {
    hide Apply, Enabled, Removes;
    var id := CommitSnapshot(worlds[i], steps[i]).value.id;
    assert Enabled(env, worlds[i], steps[i]);
    CommitRaisesVersion(env, worlds[i], steps[i]);
    if forall r :: i + 1 <= r < j ==> !Removes(worlds[r], steps[r], id) {
      VersionsGrow(env, worlds, steps, i + 1, j, id);
      assert false;
    }
    r :| i + 1 <= r < j && Removes(worlds[r], steps[r], id);
  }
}
