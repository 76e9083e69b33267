/**
 One rebalance among everything else that runs: what it does to the catalog,
 what it does to the shards, and when it can damage one.
 */
module RebalanceRuns {
  import opened MetadataStore
  import opened ShardKeys
  import opened Shards
  import opened History
  import opened Protocol
  import opened Invariant
  import opened CatalogChanges
  import opened Runs

  predicate StepOf(s: Step, op: nat) {
    !s.Rotate? && !s.LoseShard? && !s.ScrambleShard? && s.op == op
  }

  /** The step ends the rebalance: it aborts, or it comes to its commit. */
  predicate Ends(s: Step, op: nat) {
    s == Abort(op) || s == MoveCommit(op)
  }

  /** A rebalance begins with the step at i and, up to j, has not ended before its last step. */
  ghost predicate IsRebalance(steps: seq<Step>, op: nat, id: string, i: nat, j: nat) {
    && i < j <= |steps|
    && steps[i] == SelectRow(op, ForRebalance, id)
    && forall r {:trigger steps[r]} :: i < r < j - 1 ==> !Ends(steps[r], op)
  }

  ghost predicate InProgress(w: World, op: nat) {
    op in w.ops && (w.ops[op].Moving? || (w.ops[op].Reading? && w.ops[op].purpose == ForRebalance))
  }

  /* ---------- While it is under way ---------- */

  lemma OtherRepairStep(env: Env, w: World, s: Step, op: nat)
    requires Enabled(env, w, s) && HealStep(s) && !s.MoveFetch? && !s.MoveWrite? && !s.MoveCommit?
    requires !StepOf(s, op) && op in w.ops
    ensures op in Apply(env, w, s).ops && Apply(env, w, s).ops[op] == w.ops[op]
  {
    hide Reencoded, ReadOutcome, RepairedLocations, ConditionalPutRow;
  }

  lemma OtherMoveStep(env: Env, w: World, s: Step, op: nat)
    requires Enabled(env, w, s) && (s.MoveFetch? || s.MoveWrite? || s.MoveCommit?)
    requires !StepOf(s, op) && op in w.ops
    ensures op in Apply(env, w, s).ops && Apply(env, w, s).ops[op] == w.ops[op]
  {
    hide MovedLocations, ConditionalPutRow;
  }

  lemma OtherScanStep(env: Env, w: World, s: Step, op: nat)
    requires Enabled(env, w, s) && ScanStep(s) && !StepOf(s, op) && op in w.ops
    ensures op in Apply(env, w, s).ops && Apply(env, w, s).ops[op] == w.ops[op]
  {
    hide ReadOutcome, WithManifest, InsertRow;
  }

  lemma OtherUserStep(env: Env, w: World, s: Step, op: nat)
    requires Enabled(env, w, s) && !HealStep(s) && !ScanStep(s) && !StepOf(s, op) && op in w.ops
    ensures op in Apply(env, w, s).ops && Apply(env, w, s).ops[op] == w.ops[op]
  {
    hide ReadOutcome, PutLocations, PutRow, RemoveRow;
  }

  /** No operation's state is changed by a step of another. */
  lemma OtherStep(env: Env, w: World, s: Step, op: nat)
    requires Enabled(env, w, s) && !StepOf(s, op) && op in w.ops
    ensures op in Apply(env, w, s).ops && Apply(env, w, s).ops[op] == w.ops[op]
  {
    hide Enabled, Apply;
    if s.MoveFetch? || s.MoveWrite? || s.MoveCommit? {
      OtherMoveStep(env, w, s, op);
    } else if HealStep(s) {
      OtherRepairStep(env, w, s, op);
    } else if ScanStep(s) {
      OtherScanStep(env, w, s, op);
    } else {
      OtherUserStep(env, w, s, op);
    }
  }

  /** A rebalance under way takes only its own kinds of steps. */
  lemma OwnStep(env: Env, w: World, s: Step, op: nat)
    requires Enabled(env, w, s) && StepOf(s, op) && InProgress(w, op)
    ensures s.Abort? || s.SelectLocations? || s.MoveFetch? || s.MoveWrite? || s.MoveCommit?
    ensures !Ends(s, op) ==> InProgress(Apply(env, w, s), op) && Apply(env, w, s).catalog == w.catalog
  {
    hide ReadOutcome;
  }

  lemma StaysInProgress(env: Env, w: World, s: Step, op: nat)
    requires Enabled(env, w, s) && InProgress(w, op) && !Ends(s, op)
    ensures InProgress(Apply(env, w, s), op)
  {
    hide Enabled, Apply;
    if StepOf(s, op) {
      OwnStep(env, w, s, op);
    } else {
      OtherStep(env, w, s, op);
    }
  }

  lemma BeginsInProgress(env: Env, w: World, op: nat, id: string)
    requires Enabled(env, w, SelectRow(op, ForRebalance, id))
    ensures InProgress(Apply(env, w, SelectRow(op, ForRebalance, id)), op)
    ensures Apply(env, w, SelectRow(op, ForRebalance, id)).catalog == w.catalog
  {
  }

  lemma {:induction false} InProgressThroughout(env: Env, worlds: seq<World>, steps: seq<Step>, op: nat, id: string, i: nat, j: nat, r: nat)
    requires IsRun(env, worlds, steps) && IsRebalance(steps, op, id, i, j) && i < r < j
    ensures InProgress(worlds[r], op)
    decreases r
  {
    hide Enabled, Apply, InProgress, Ends;
    var w, s := worlds[r - 1], steps[r - 1];
    assert Enabled(env, w, s) && worlds[r] == Apply(env, w, s);
    if r == i + 1 {
      BeginsInProgress(env, w, op, id);
    } else {
      InProgressThroughout(env, worlds, steps, op, id, i, j, r - 1);
      StaysInProgress(env, w, s, op);
    }
  }

  /* ---------- The catalog ---------- */

  /** The catalog that the other operations alone make of the one at step i. */
  ghost function Without(env: Env, worlds: seq<World>, steps: seq<Step>, op: nat, i: nat, j: nat): Catalog<Location>
    requires IsRun(env, worlds, steps) && i <= j <= |steps|
    decreases j
  {
    if i == j then worlds[i].catalog
    else
      var before := Without(env, worlds, steps, op, i, j - 1);
      if StepOf(steps[j - 1], op) then before else Act(ChangeOf(env, worlds[j - 1], steps[j - 1]), before)
  }

  /** Until it commits, a rebalance might as well not be there. */
  lemma {:induction false} UncommittedLeavesCatalog(env: Env, worlds: seq<World>, steps: seq<Step>, op: nat, id: string, i: nat, j: nat, r: nat)
    requires IsRun(env, worlds, steps) && IsRebalance(steps, op, id, i, j)
    requires i <= r <= j && (r < j || !Ends(steps[j - 1], op))
    ensures worlds[r].catalog == Without(env, worlds, steps, op, i, r)
    decreases r
  {
    hide Enabled, Apply, InProgress, Ends, ChangeOf, Act;
    if i < r {
      var w, s := worlds[r - 1], steps[r - 1];
      assert Enabled(env, w, s) && worlds[r] == Apply(env, w, s);
      UncommittedLeavesCatalog(env, worlds, steps, op, id, i, j, r - 1);
      if r == i + 1 {
        BeginsInProgress(env, w, op, id);
      } else if StepOf(s, op) {
        InProgressThroughout(env, worlds, steps, op, id, i, j, r - 1);
        OwnStep(env, w, s, op);
      } else {
        StepActs(env, w, s);
      }
    }
  }

  lemma EndStep(env: Env, w: World, s: Step, op: nat)
    requires Enabled(env, w, s) && Ends(s, op)
    ensures Apply(env, w, s).catalog ==
      if CommitSucceeds(w, s)
      then PutRow(w.catalog, w.ops[op].snap.id, w.ops[op].snap.row.meta, MovedLocations(w.ops[op].snap, w.ops[op].targets))
      else w.catalog
  {
    hide MovedLocations, Apply, PutRow;
    StepActs(env, w, s);
  }

  /**
   One rebalance, from its first SELECT to its end, whatever runs in between: aborted, fenced off or
   still under way, it leaves the catalog exactly as the other operations' commits make it; if it
   commits, the difference is one row at its next version, with the planned locations replaced.
   */
  lemma {:induction false} RebalanceLeavesCatalog(env: Env, worlds: seq<World>, steps: seq<Step>, op: nat, id: string, i: nat, j: nat)
    requires IsRun(env, worlds, steps) && IsRebalance(steps, op, id, i, j)
    ensures var w, s := worlds[j - 1], steps[j - 1];
      if Ends(s, op) && CommitSucceeds(w, s)
      then worlds[j].catalog == PutRow(Without(env, worlds, steps, op, i, j), w.ops[op].snap.id, w.ops[op].snap.row.meta,
                                       MovedLocations(w.ops[op].snap, w.ops[op].targets))
      else worlds[j].catalog == Without(env, worlds, steps, op, i, j)
  {
    hide Enabled, Apply, CommitSucceeds, MovedLocations, PutRow, ChangeOf, Act;
    var w, s := worlds[j - 1], steps[j - 1];
    assert Enabled(env, w, s) && worlds[j] == Apply(env, w, s);
    if Ends(s, op) {
      UncommittedLeavesCatalog(env, worlds, steps, op, id, i, j, j - 1);
      EndStep(env, w, s, op);
    } else {
      UncommittedLeavesCatalog(env, worlds, steps, op, id, i, j, j);
    }
  }

  /* ---------- The shards ---------- */

  /** The step puts a copy at this location. */
  ghost predicate WritesTo(w: World, s: Step, at: Location) {
    && s.MoveWrite? && s.op in w.ops && w.ops[s.op].Moving? && s.i in w.ops[s.op].targets
    && s.i < |w.ops[s.op].snap.row.locations|
    && at == MoveTarget(w.ops[s.op].snap, w.ops[s.op].targets, s.i)
  }

  lemma OwnStepShards(env: Env, w: World, s: Step, op: nat)
    requires Enabled(env, w, s) && StepOf(s, op) && (InProgress(w, op) || s.SelectRow?)
    ensures var w' := Apply(env, w, s);
      && (forall at :: at in w.store && !WritesTo(w, s, at) ==> at in w'.store && w'.store[at] == w.store[at])
      && (forall at :: at in w'.store ==> at in w.store || WritesTo(w, s, at))
      && (forall at :: WritesTo(w, s, at) ==> at in w'.store && w'.store[at] == w.ops[op].copies[s.i])
  {
    hide ReadOutcome, MovedLocations, ConditionalPutRow;
  }

  /**
   At no step of a rebalance does a shard disappear, and none changes except where the rebalance
   writes one of its copies.
   */
  lemma RebalanceOnlyWritesCopies(env: Env, worlds: seq<World>, steps: seq<Step>, op: nat, id: string, i: nat, j: nat, r: nat)
    requires IsRun(env, worlds, steps) && IsRebalance(steps, op, id, i, j) && i <= r < j && StepOf(steps[r], op)
    ensures var w, w', s := worlds[r], worlds[r + 1], steps[r];
      && w.store.Keys <= w'.store.Keys
      && (forall at :: at in w'.store && (at !in w.store || w'.store[at] != w.store[at]) ==>
            WritesTo(w, s, at) && w'.store[at] == w.ops[op].copies[s.i])
  {
    hide Enabled, Apply, InProgress, WritesTo;
    assert Enabled(env, worlds[r], steps[r]) && worlds[r + 1] == Apply(env, worlds[r], steps[r]);
    if r > i {
      InProgressThroughout(env, worlds, steps, op, id, i, j, r);
    }
    OwnStepShards(env, worlds[r], steps[r], op);
  }

  /* ---------- Damage ---------- */

  ghost predicate Intact(store: ShardStore, at: Location) {
    at in store && store[at].shard.box.Sealed?
  }

  /** The copy is damaged, and an undamaged shard is where it goes. */
  ghost predicate WritesDamage(w: World, op: nat, i: nat) {
    && op in w.ops && w.ops[op].Moving? && i in w.ops[op].copies && i in w.ops[op].targets && i < |w.ops[op].snap.row.locations|
    && w.ops[op].copies[i].shard.box.Scrambled?
    && Intact(w.store, MoveTarget(w.ops[op].snap, w.ops[op].targets, i))
  }

  /**
   A write of a rebalance leaves every undamaged shard as it is if and only if its copy is
   undamaged or there is no undamaged shard where it goes.
   */
  lemma IntactUnlessDamagedCopy(env: Env, w: World, op: nat, i: nat)
    requires Inv(env, w) && Enabled(env, w, MoveWrite(op, i))
    ensures var after := Apply(env, w, MoveWrite(op, i)).store;
      (forall at :: Intact(w.store, at) ==> Intact(after, at) && after[at].shard == w.store[at].shard) <==> !WritesDamage(w, op, i)
  {
    hide Inv, StoredOk;
    OpFacts(env, w, op);
    var target := MoveTarget(w.ops[op].snap, w.ops[op].targets, i);
    assert Apply(env, w, MoveWrite(op, i)).store == w.store[target := w.ops[op].copies[i]];
    if Intact(w.store, target) && w.ops[op].copies[i].shard.box.Sealed? {
      StoreFacts(env, w, target);
      SameShard(env, w.history, target.key, w.ops[op].copies[i], w.store[target]);
    }
  }

  /** Undamaged shards under one key are the same shard. */
  lemma SameShard(env: Env, h: History, key: ShardKey, a: StoredShard, b: StoredShard)
    requires StoredOk(env, h, key, a) && StoredOk(env, h, key, b)
    requires a.shard.box.Sealed? && b.shard.box.Sealed?
    ensures a.shard == b.shard
  {
  }

  /* ---------- How a rebalance damages a shard ---------- */

  /** The world after a rebalance has moved the first shard of the row it read in w. */
  ghost function Relocated(w: World, id: string, target: string): World
    requires id in w.catalog && FullRow(ReadRow(w, id)) && w.catalog[id].locations[0] in w.store
  {
    var row := w.catalog[id];
    w.(store := w.store[Location(target, row.locations[0].key) := w.store[row.locations[0]]],
       catalog := PutRow(w.catalog, id, row.meta, row.locations[0 := Location(target, row.locations[0].key)]))
  }

  lemma RelocateCommit(env: Env, w: World, op: nat, id: string, target: string)
    requires op !in w.ops && id in w.catalog && FullRow(ReadRow(w, id)) && w.catalog[id].locations[0] in w.store
    ensures var moved := MovedFirst(w, op, ReadRow(w, id), target);
      Enabled(env, moved, MoveCommit(op)) && Apply(env, moved, MoveCommit(op)) == Relocated(w, id, target)
  {
    var snap := ReadRow(w, id);
    var moved := MovedFirst(w, op, snap, target);
    MoveCommitEnabled(env, w, op, snap, target);
    assert MovedLocations(snap, map[0 := target]) == snap.row.locations[0 := Location(target, snap.row.locations[0].key)];
    assert moved.ops - {op} == w.ops;
    hide MovedLocations;
  }

  /** The first shard of the row, copied to a target: the rebalance has read and written, and not yet committed. */
  lemma CopyRun(env: Env, w: World, op: nat, id: string, target: string) returns (worlds: seq<World>, steps: seq<Step>)
    requires op !in w.ops && id in w.catalog && FullRow(ReadRow(w, id)) && w.catalog[id].locations[0] in w.store
    ensures Leads(env, worlds, steps, w, MovedFirst(w, op, ReadRow(w, id), target))
    ensures steps == [SelectRow(op, ForRebalance, id), SelectLocations(op), MoveFetch(op, 0, target), MoveWrite(op, 0)]
  {
    var snap := ReadRow(w, id);
    var w1 := SetOp(w, op, Fresh(snap));
    assert MovedFirst(w1, op, snap, target) == MovedFirst(w, op, snap, target);
    hide Leads, MovedFirst;
    var a, s := SelectRun(env, w, op, ForRebalance, id);
    var b, t := MoveRun(env, w1, op, snap, target);
    worlds, steps := Joined(env, a, s, b, t, w, w1, MovedFirst(w, op, snap, target));
  }

  /** What a relocation, damage to the relocated copy, and the way back leave. */
  lemma ReturnedDamaged(env: Env, w: World, op: nat, id: string, away: string) returns (w1: World, w2: World)
    requires id in w.catalog && FullRow(ReadRow(w, id)) && Intact(w.store, w.catalog[id].locations[0])
    requires away != w.catalog[id].locations[0].node
    ensures w1 == Relocated(w, id, away)
    ensures var home := w.catalog[id].locations[0];
      var there := Location(away, home.key);
      && Enabled(env, w1, ScrambleShard(there)) && w2 == Apply(env, w1, ScrambleShard(there)) && w2.ops == w.ops
      && Intact(w2.store, home) && id in w2.catalog && FullRow(ReadRow(w2, id)) && w2.catalog[id].locations[0] == there && there in w2.store
      && home in MovedFirst(w2, op, ReadRow(w2, id), home.node).store
      && MovedFirst(w2, op, ReadRow(w2, id), home.node).store[home].shard.box.Scrambled?
  {
    w1 := Relocated(w, id, away);
    w2 := Apply(env, w1, ScrambleShard(Location(away, w.catalog[id].locations[0].key)));
  }

  /**
   From any world with a full row whose first shard is undamaged, a run in which only another copy
   is ever damaged, and a rebalance then replaces the undamaged shard by it: the shard is moved
   away, the moved copy is damaged, and the next rebalance moves it back over the old one.
   */
  lemma DamagedCopyOverwrites(env: Env, w: World, op: nat, id: string, away: string) returns (worlds: seq<World>, steps: seq<Step>, last: World)
    requires op !in w.ops && id in w.catalog && FullRow(ReadRow(w, id)) && Intact(w.store, w.catalog[id].locations[0])
    requires away != w.catalog[id].locations[0].node
    ensures Leads(env, worlds, steps, w, last) && |steps| == 10 && steps[9] == MoveWrite(op, 0)
    ensures var home := w.catalog[id].locations[0];
      && (forall s :: s in steps && s.ScrambleShard? ==> s.at != home)
      && home in last.store && last.store[home].shard.box.Scrambled?
  {
    var home := w.catalog[id].locations[0];
    var w1, w2 := ReturnedDamaged(env, w, op, id, away);
    last := MovedFirst(w2, op, ReadRow(w2, id), home.node);
    hide Leads, Enabled, Apply, MovedFirst, Relocated, ReadRow, FullRow;
    var a, s := RelocateRun(env, w, op, id, away);
    worlds, steps := OneMore(env, a, s, w, w1, ScrambleShard(Location(away, home.key)));
    var b, t := CopyRun(env, w2, op, id, home.node);
    worlds, steps := Joined(env, worlds, steps, b, t, w, w2, last);
  }

  lemma RelocateRun(env: Env, w: World, op: nat, id: string, target: string) returns (worlds: seq<World>, steps: seq<Step>)
    requires op !in w.ops && id in w.catalog && FullRow(ReadRow(w, id)) && w.catalog[id].locations[0] in w.store
    ensures Leads(env, worlds, steps, w, Relocated(w, id, target))
    ensures |steps| == 5 && forall s :: s in steps ==> !s.ScrambleShard?
  {
    RelocateCommit(env, w, op, id, target);
    hide Leads, Enabled, Apply, MovedFirst, Relocated, ReadRow, FullRow;
    worlds, steps := CopyRun(env, w, op, id, target);
    worlds, steps := OneMore(env, worlds, steps, w, MovedFirst(w, op, ReadRow(w, id), target), MoveCommit(op));
  }
}
