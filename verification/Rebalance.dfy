/**
 Moving an object's shards toward their intended nodes: the plan of one pass,
 the gates before it, the convergence of repeated passes, and the budgets of a
 cluster-wide pass.
 */
module Rebalance {
  import opened Wrappers
  import opened Collections
  import opened Rendezvous
  import opened ShardKeys

  datatype Status = Balanced | Moved | DryRun | SkippedDegraded | SkippedUnsafe | SkippedConflict | SkippedNotFound | Errored

  /** maxMoves == 0 means no limit. */
  datatype Policy = Policy(dryRun: bool, maxMoves: nat)

  datatype ObjectResult = ObjectResult(objectId: string, status: Status, shardsTotal: nat, shardsMisplaced: nat, shardsMoved: nat)

  /* ---------- The plan ---------- */

  /** The shards below n that are not on their intended node. */
  function Misplaced(current: seq<string>, intended: seq<string>, n: nat): (list: seq<nat>)
    requires n <= |current| == |intended|
    ensures forall j {:trigger list[j]} :: 0 <= j < |list| ==> list[j] < n
  {
    if n == 0 then []
    else Misplaced(current, intended, n - 1) + (if current[n - 1] != intended[n - 1] then [n - 1] else [])
  }

  predicate CanMove(current: seq<string>, intended: seq<string>, healthy: set<string>, i: nat)
    requires i < |current| == |intended|
  {
    current[i] != intended[i] && intended[i] in healthy
  }

  /** Of these, the ones whose intended node is healthy. */
  function Movable(current: seq<string>, intended: seq<string>, healthy: set<string>, n: nat): (list: seq<nat>)
    requires n <= |current| == |intended|
    ensures forall j {:trigger list[j]} :: 0 <= j < |list| ==> list[j] < n
  {
    if n == 0 then []
    else Movable(current, intended, healthy, n - 1) + (if CanMove(current, intended, healthy, n - 1) then [n - 1] else [])
  }

  function Capped<T>(planned: seq<T>, maxMoves: nat): seq<T> {
    if maxMoves > 0 && |planned| > maxMoves then planned[..maxMoves] else planned
  }

  /** The first maxMoves misplaced shards with a healthy target, in index order; all of them if there is no limit. */
  ghost predicate IsPlan(current: seq<string>, intended: seq<string>, healthy: set<string>, maxMoves: nat, planned: seq<nat>)
    requires |current| == |intended|
  {
    && (forall j, l :: 0 <= j < l < |planned| ==> planned[j] < planned[l])
    && (forall i :: i in planned ==> i < |current| && current[i] != intended[i] && intended[i] in healthy)
    && (maxMoves > 0 ==> |planned| <= maxMoves)
    && (forall i: nat :: i < |current| && current[i] != intended[i] && intended[i] in healthy && i !in planned ==>
          maxMoves > 0 && |planned| == maxMoves && planned[maxMoves - 1] < i)
  }

  lemma {:induction false} PlanMeaning(current: seq<string>, intended: seq<string>, healthy: set<string>, maxMoves: nat)
    requires |current| == |intended|
    ensures IsPlan(current, intended, healthy, maxMoves, Capped(Movable(current, intended, healthy, |current|), maxMoves))
  {
    MovableMeaning(current, intended, healthy, |current|);
    FrontAscends(Movable(current, intended, healthy, |current|), maxMoves);
    hide Movable, Capped;
  }

  method PlanMoves(current: seq<string>, intended: seq<string>, healthy: set<string>, maxMoves: nat)
    returns (planned: seq<nat>, misplaced: nat)
    requires |current| == |intended|
    ensures planned == Capped(Movable(current, intended, healthy, |current|), maxMoves)
    ensures misplaced == |Misplaced(current, intended, |current|)| == |MisplacedSet(current, intended)|
    ensures IsPlan(current, intended, healthy, maxMoves, planned)
  {
    PlanMeaning(current, intended, healthy, maxMoves);
    MisplacedCount(current, intended);
    hide MisplacedSet, IsPlan;
    planned, misplaced := [], 0;
    for i := 0 to |current|
      invariant planned == Movable(current, intended, healthy, i)
      invariant misplaced == |Misplaced(current, intended, i)|
    {
      if current[i] == intended[i] {
        continue;
      }
      misplaced := misplaced + 1;
      if intended[i] !in healthy {
        continue;
      }
      planned := planned + [i];
    }
    if maxMoves > 0 && |planned| > maxMoves {
      planned := planned[..maxMoves];
    }
  }

  ghost function MisplacedSet(current: seq<string>, intended: seq<string>): set<nat>
    requires |current| == |intended|
  {
    set i: nat | i < |current| && current[i] != intended[i]
  }

  lemma {:induction false} MisplacedCount(current: seq<string>, intended: seq<string>)
    requires |current| == |intended|
    ensures |Misplaced(current, intended, |current|)| == |MisplacedSet(current, intended)|
  {
    MisplacedMeaning(current, intended, |current|);
    NoDupCardinality(Misplaced(current, intended, |current|));
    assert Elems(Misplaced(current, intended, |current|)) == MisplacedSet(current, intended);
  }

  /** A bound cuts off the end of the list: what is cut off is greater than all that stays. */
  lemma FrontAscends(list: seq<nat>, maxMoves: nat)
    requires forall j, l :: 0 <= j < l < |list| ==> list[j] < list[l]
    ensures var front := Capped(list, maxMoves);
      && (forall j, l :: 0 <= j < l < |front| ==> front[j] < front[l])
      && (forall i :: i in front ==> i in list)
      && (maxMoves > 0 ==> |front| <= maxMoves)
      && (forall i :: i in list && i !in front ==> maxMoves > 0 && |front| == maxMoves && front[maxMoves - 1] < i)
  {
    var front := Capped(list, maxMoves);
    forall i | i in list && i !in front
      ensures maxMoves > 0 && |front| == maxMoves && front[maxMoves - 1] < i
    {
      assert list == front + list[|front|..];
      assert i in list[|front|..];
    }
  }

  lemma {:induction false} MisplacedMeaning(current: seq<string>, intended: seq<string>, n: nat)
    requires n <= |current| == |intended|
    ensures forall i :: i in Misplaced(current, intended, n) <==> 0 <= i < n && current[i] != intended[i]
    ensures NoDup(Misplaced(current, intended, n))
  {
    if n > 0 {
      MisplacedMeaning(current, intended, n - 1);
    }
  }

  lemma {:induction false} MovableMeaning(current: seq<string>, intended: seq<string>, healthy: set<string>, n: nat)
    requires n <= |current| == |intended|
    ensures forall i :: i in Movable(current, intended, healthy, n) <==>
      0 <= i < n && current[i] != intended[i] && intended[i] in healthy
    ensures NoDup(Movable(current, intended, healthy, n))
    ensures forall j, l :: 0 <= j < l < |Movable(current, intended, healthy, n)| ==>
      Movable(current, intended, healthy, n)[j] < Movable(current, intended, healthy, n)[l]
  {
    if n > 0 {
      MovableMeaning(current, intended, healthy, n - 1);
    }
  }

  /** Where nothing is misplaced, nothing can move. */
  lemma {:induction false} NoneMovable(current: seq<string>, intended: seq<string>, healthy: set<string>, n: nat)
    requires n <= |current| == |intended|
    ensures |Movable(current, intended, healthy, n)| <= |Misplaced(current, intended, n)|
  {
    if n > 0 {
      NoneMovable(current, intended, healthy, n - 1);
    }
  }

  /** With every intended node healthy, every misplaced shard can move. */
  lemma {:induction false} AllMovable(current: seq<string>, intended: seq<string>, healthy: set<string>, n: nat)
    requires n <= |current| == |intended|
    requires forall i :: 0 <= i < n ==> intended[i] in healthy
    ensures Movable(current, intended, healthy, n) == Misplaced(current, intended, n)
  {
    if n > 0 {
      AllMovable(current, intended, healthy, n - 1);
    }
  }

  /* ---------- What a pass does ---------- */

  /** The nodes after the listed shards have moved to their intended nodes. */
  function AfterMoves(current: seq<string>, intended: seq<string>, moved: seq<nat>): (after: seq<string>)
    requires |current| == |intended|
    ensures |after| == |current|
  {
    seq(|current|, i requires 0 <= i < |current| => if i in moved then intended[i] else current[i])
  }

  ghost predicate MovesOf(current: seq<string>, intended: seq<string>, moved: seq<nat>)
    requires |current| == |intended|
  {
    NoDup(moved) && forall i :: i in moved ==> i < |current| && current[i] != intended[i]
  }

  lemma {:induction false} MovesLowerMisplaced(current: seq<string>, intended: seq<string>, moved: seq<nat>)
    requires |current| == |intended| && MovesOf(current, intended, moved)
    ensures |Misplaced(AfterMoves(current, intended, moved), intended, |current|)|
         == |Misplaced(current, intended, |current|)| - |moved|
    ensures forall i :: 0 <= i < |current| && i !in moved ==> AfterMoves(current, intended, moved)[i] == current[i]
  {
    var after := AfterMoves(current, intended, moved);
    var n := |current|;
    MisplacedMeaning(current, intended, n);
    MisplacedMeaning(after, intended, n);
    NoDupCardinality(Misplaced(current, intended, n));
    NoDupCardinality(Misplaced(after, intended, n));
    NoDupCardinality(moved);
    MisplacedAfterMoves(current, intended, moved);
  }

  /** The shards still misplaced are those that were and have not moved. */
  lemma {:induction false} MisplacedAfterMoves(current: seq<string>, intended: seq<string>, moved: seq<nat>)
    requires |current| == |intended| && MovesOf(current, intended, moved)
    ensures var after := AfterMoves(current, intended, moved);
      Elems(Misplaced(after, intended, |current|)) == Elems(Misplaced(current, intended, |current|)) - Elems(moved)
    ensures Elems(moved) <= Elems(Misplaced(current, intended, |current|))
  {
    var after := AfterMoves(current, intended, moved);
    MisplacedMeaning(current, intended, |current|);
    MisplacedMeaning(after, intended, |current|);
    hide Misplaced;
    forall i | i in moved
      ensures i in Misplaced(current, intended, |current|)
    {
    }
    forall i: nat
      ensures i in Misplaced(after, intended, |current|) <==> i in Misplaced(current, intended, |current|) && i !in moved
    {
    }
  }

  /** One pass with every node healthy and every shard readable. */
  function Pass(current: seq<string>, intended: seq<string>, maxMoves: nat): (after: seq<string>)
    requires |current| == |intended|
    ensures |after| == |current|
  {
    AfterMoves(current, intended, Capped(Misplaced(current, intended, |current|), maxMoves))
  }

  function Passes(current: seq<string>, intended: seq<string>, maxMoves: nat, n: nat): (after: seq<string>)
    requires |current| == |intended|
    ensures |after| == |current|
  {
    if n == 0 then current else Pass(Passes(current, intended, maxMoves, n - 1), intended, maxMoves)
  }

  lemma CappedMoves(current: seq<string>, intended: seq<string>, list: seq<nat>, maxMoves: nat)
    requires |current| == |intended| && MovesOf(current, intended, list)
    ensures MovesOf(current, intended, Capped(list, maxMoves))
    ensures maxMoves > 0 ==> |Capped(list, maxMoves)| <= maxMoves
    ensures list != [] ==> Capped(list, maxMoves) != []
  {
    forall i | i in Capped(list, maxMoves)
      ensures i in list
    {
      var j :| 0 <= j < |Capped(list, maxMoves)| && Capped(list, maxMoves)[j] == i;
      assert list[j] == i;
    }
  }

  /** A pass lowers the number of misplaced shards by as many as it moves, and moves one if it can. */
  lemma {:induction false} PassProgress(current: seq<string>, intended: seq<string>, maxMoves: nat)
    requires |current| == |intended|
    ensures var before := |Misplaced(current, intended, |current|)|;
      |Misplaced(Pass(current, intended, maxMoves), intended, |current|)| ==
        before - (if maxMoves > 0 && before > maxMoves then maxMoves else before)
  {
    var list := Misplaced(current, intended, |current|);
    MisplacedMeaning(current, intended, |current|);
    CappedMoves(current, intended, list, maxMoves);
    MovesLowerMisplaced(current, intended, Capped(list, maxMoves));
  }

  lemma {:induction false} PassesProgress(current: seq<string>, intended: seq<string>, maxMoves: nat, n: nat)
    requires |current| == |intended|
    ensures var left := |Misplaced(Passes(current, intended, maxMoves, n), intended, |current|)|;
      left == 0 || left + n <= |Misplaced(current, intended, |current|)|
  {
    hide Misplaced, Pass;
    if n > 0 {
      PassesProgress(current, intended, maxMoves, n - 1);
      PassProgress(Passes(current, intended, maxMoves, n - 1), intended, maxMoves);
    }
  }

  /**
   Convergence: after as many passes as there are misplaced shards, whatever the bound on moves,
   every shard is on its intended node, all on distinct nodes, and further passes move nothing.
   */
  lemma {:induction false} RebalanceConverges(w: Weights, nodes: set<string>, current: seq<string>, intended: seq<string>, maxMoves: nat, n: nat)
    requires IsPlacement(w, nodes, intended) && |current| == |intended|
    requires n >= |Misplaced(current, intended, |current|)|
    ensures Passes(current, intended, maxMoves, n) == intended
    ensures NoDup(Passes(current, intended, maxMoves, n))
    ensures Pass(intended, intended, maxMoves) == intended
  {
    PassesProgress(current, intended, maxMoves, n);
    NoneMisplaced(Passes(current, intended, maxMoves, n), intended);
    PassProgress(intended, intended, maxMoves);
    MisplacedMeaning(intended, intended, |intended|);
    NoneMisplaced(Pass(intended, intended, maxMoves), intended);
    PlacementInjective(w, nodes, intended);
  }

  lemma {:induction false} NoneMisplaced(current: seq<string>, intended: seq<string>)
    requires |current| == |intended|
    requires |Misplaced(current, intended, |current|)| == 0
    ensures current == intended
  {
    MisplacedMeaning(current, intended, |current|);
    forall i | 0 <= i < |current|
      ensures current[i] == intended[i]
    {
      assert i !in Misplaced(current, intended, |current|);
    }
  }

  /* ---------- One object ---------- */

  /** What a result promises about the policy it was made under. */
  ghost predicate Honours(policy: Policy, r: ObjectResult) {
    && (policy.maxMoves > 0 ==> r.shardsMoved <= policy.maxMoves)
    && (r.status == Moved <==> r.shardsMoved > 0)
    && (r.status == DryRun ==> policy.dryRun)
    && (policy.dryRun ==> r.status != Moved)
    && r.status != Errored
  }

  /** What the object's nodes answer: whether shard i is found by a probe, whether it can be read, and what becomes of the writes and the commit. */
  datatype Answers = Answers(probed: nat -> bool, readable: nat -> bool, written: bool, committed: bool)

  /** The source shards that can be read, in plan order. */
  function ReadableSources(planned: seq<nat>, readable: nat -> bool): seq<nat> {
    if planned == [] then []
    else
      var last := planned[|planned| - 1];
      ReadableSources(planned[..|planned| - 1], readable) + (if readable(last) then [last] else [])
  }

  lemma {:induction false} ReadableSourcesMove(current: seq<string>, intended: seq<string>, planned: seq<nat>, readable: nat -> bool)
    requires |current| == |intended| && MovesOf(current, intended, planned)
    ensures MovesOf(current, intended, ReadableSources(planned, readable)) && |ReadableSources(planned, readable)| <= |planned|
    ensures forall i :: i in ReadableSources(planned, readable) <==> i in planned && readable(i)
  {
    if planned != [] {
      var front := planned[..|planned| - 1];
      assert planned == front + [planned[|planned| - 1]];
      assert forall i :: i in front ==> i in planned;
      assert planned[|planned| - 1] in planned;
      ReadableSourcesMove(current, intended, front, readable);
    }
  }

  method ReadSources(planned: seq<nat>, readable: nat -> bool) returns (fetched: seq<nat>)
    ensures fetched == ReadableSources(planned, readable)
  {
    fetched := [];
    for j := 0 to |planned|
      invariant fetched == ReadableSources(planned[..j], readable)
    {
      assert planned[..j + 1][..j] == planned[..j];
      if readable(planned[j]) {
        fetched := fetched + [planned[j]];
      }
    }
    assert planned[..|planned|] == planned;
  }

  predicate WellFormed(locations: seq<string>) {
    forall i :: 0 <= i < |locations| ==> !NoSlash(locations[i])
  }

  /** The nodes that the locations name. */
  function NodesOf(locations: seq<string>): (nodes: seq<string>)
    requires WellFormed(locations)
    ensures |nodes| == |locations|
  {
    seq(|locations|, i requires 0 <= i < |locations| => SplitSlash(locations[i]).value.0)
  }

  /** The locations with the listed shards on their intended nodes, under the keys they had. */
  function MovedTo(locations: seq<string>, intended: seq<string>, moved: seq<nat>): (after: seq<string>)
    requires WellFormed(locations) && |locations| == |intended|
    ensures |after| == |locations|
  {
    seq(|locations|, i requires 0 <= i < |locations| =>
      if i in moved then LocationText(intended[i], SplitSlash(locations[i]).value.1) else locations[i])
  }

  /** Moving replaces the node of each listed location and no key. */
  lemma MovedToNodes(locations: seq<string>, intended: seq<string>, moved: seq<nat>)
    requires WellFormed(locations) && |locations| == |intended| && forall i :: 0 <= i < |intended| ==> NoSlash(intended[i])
    ensures WellFormed(MovedTo(locations, intended, moved))
    ensures NodesOf(MovedTo(locations, intended, moved)) == AfterMoves(NodesOf(locations), intended, moved)
    ensures forall i :: 0 <= i < |locations| ==>
      SplitSlash(MovedTo(locations, intended, moved)[i]).value.1 == SplitSlash(locations[i]).value.1
  {
    forall i | 0 <= i < |locations|
      ensures SplitSlash(MovedTo(locations, intended, moved)[i]).Some?
      ensures SplitSlash(MovedTo(locations, intended, moved)[i]).value ==
        (AfterMoves(NodesOf(locations), intended, moved)[i], SplitSlash(locations[i]).value.1)
    {
      SplitJoined(intended[i], SplitSlash(locations[i]).value.1);
    }
  }

  /** Parse every location and probe its shard, until one fails. */
  method ProbeAll(locations: seq<string>, probed: nat -> bool) returns (all: bool, nodes: seq<string>)
    ensures all <==> WellFormed(locations) && forall i :: 0 <= i < |locations| ==> probed(i)
    ensures all ==> nodes == NodesOf(locations)
  {
    hide SplitSlash;
    nodes := [];
    for i := 0 to |locations|
      invariant |nodes| == i
      invariant forall j :: 0 <= j < i ==> !NoSlash(locations[j]) && probed(j) && nodes[j] == SplitSlash(locations[j]).value.0
    {
      var split := SplitSlash(locations[i]);
      if split == None {
        return false, nodes;
      }
      nodes := nodes + [split.value.0];
      if !probed(i) {
        return false, nodes;
      }
    }
    all := true;
  }

  /** The id is not empty, the row is full and well formed, enough nodes are registered and healthy, and every shard answers. */
  ghost predicate OpenGates(objectId: string, current: Option<seq<string>>, total: nat, registered: seq<string>, healthy: set<string>, answers: Answers) {
    && objectId != "" && current.Some? && |registered| >= total && |healthy| >= total
    && |current.value| == total && WellFormed(current.value)
    && forall i :: 0 <= i < total ==> answers.probed(i)
  }

  /** From a full row whose shards all answer: plan, copy, commit. */
  method MoveShards(objectId: string, locations: seq<string>, nodes: seq<string>, targets: seq<string>, total: nat,
                    healthy: set<string>, answers: Answers, policy: Policy)
    returns (result: Option<ObjectResult>, after: seq<string>)
    requires WellFormed(locations) && |locations| == |targets| == total && nodes == NodesOf(locations)
    ensures result.Some? ==> Honours(policy, result.value) && result.value.objectId == objectId
    ensures result.Some? ==> result.value.status !in {SkippedNotFound, SkippedUnsafe}
    ensures !(result.Some? && result.value.status == Moved) ==> after == locations
    ensures var planned := Capped(Movable(nodes, targets, healthy, total), policy.maxMoves);
      var moved := ReadableSources(planned, answers.readable);
      && (result == None <==> planned != [] && !policy.dryRun && moved != [] && !answers.written)
      && (result.Some? ==>
            && result.value.shardsTotal == total
            && result.value.shardsMisplaced == |Misplaced(nodes, targets, total)|
            && (result.value.status == Balanced <==> planned == [])
            && (result.value.status == DryRun <==> planned != [] && policy.dryRun)
            && (result.value.status == Moved <==> !policy.dryRun && moved != [] && answers.written && answers.committed)
            && (result.value.status == SkippedConflict <==> !policy.dryRun && moved != [] && answers.written && !answers.committed)
            && (result.value.status == Moved ==>
                  after == MovedTo(locations, targets, moved) && result.value.shardsMoved == |moved|))
  {
    hide SplitSlash, NoSlash;
    after := locations;
    var planned, misplaced := PlanMoves(nodes, targets, healthy, policy.maxMoves);
    MovableMeaning(nodes, targets, healthy, total);
    NoneMovable(nodes, targets, healthy, total);
    if misplaced == 0 || planned == [] {
      return Some(ObjectResult(objectId, Balanced, total, misplaced, 0)), after;
    }
    if policy.dryRun {
      return Some(ObjectResult(objectId, DryRun, total, misplaced, 0)), after;
    }
    var fetched := ReadSources(planned, answers.readable);
    if fetched == [] {
      return Some(ObjectResult(objectId, SkippedDegraded, total, misplaced, 0)), after;
    }
    if !answers.written {
      return None, after;
    }
    if !answers.committed {
      return Some(ObjectResult(objectId, SkippedConflict, total, misplaced, 0)), after;
    }
    CappedMoves(nodes, targets, Movable(nodes, targets, healthy, total), policy.maxMoves);
    ReadableSourcesMove(nodes, targets, planned, answers.readable);
    after := Relocate(locations, targets, fetched);
    result := Some(ObjectResult(objectId, Moved, total, misplaced, |fetched|));
  }

  /**
   rebalance_object, from the row's locations (none if there is no row) to the locations it
   commits. None as a result stands for an exception: an empty id or a failed write. The
   registry's addresses are unique. Only a Moved result changes locations, and then exactly those
   of the readable planned shards.
   */
  method RebalanceObject(objectId: string, w: Weights, current: Option<seq<string>>, total: nat, registered: seq<string>,
                         healthy: set<string>, answers: Answers, policy: Policy)
    returns (result: Option<ObjectResult>, after: seq<string>, ghost intended: seq<string>)
    requires NoDup(registered) && healthy <= Elems(registered)
    ensures result.Some? ==> Honours(policy, result.value) && result.value.objectId == objectId
    ensures !(result.Some? && result.value.status == Moved) ==> after == (if current.Some? then current.value else [])
    ensures objectId == "" ==> result == None
    ensures result.Some? && result.value.status == SkippedNotFound <==> objectId != "" && current == None
    ensures result.Some? && result.value.status == SkippedUnsafe <==>
      objectId != "" && current.Some? && (|registered| < total || |healthy| < total)
    ensures objectId != "" && current.Some? && |registered| >= total && |healthy| >= total ==>
      (OpenGates(objectId, current, total, registered, healthy, answers) <==>
       |current.value| == total && forall i :: 0 <= i < total ==> !NoSlash(current.value[i]) && answers.probed(i))
    ensures OpenGates(objectId, current, total, registered, healthy, answers) ==>
      IsPlacement(w, Elems(registered), intended) && |intended| == total
    ensures objectId != "" && !OpenGates(objectId, current, total, registered, healthy, answers) ==>
      && result.Some? && result.value.status in {SkippedNotFound, SkippedUnsafe, SkippedDegraded}
      && result.value.shardsTotal == (if current == None then 0 else total)
      && result.value.shardsMisplaced == result.value.shardsMoved == 0
    ensures OpenGates(objectId, current, total, registered, healthy, answers) ==>
      var nodes := NodesOf(current.value);
      var planned := Capped(Movable(nodes, intended, healthy, total), policy.maxMoves);
      var moved := ReadableSources(planned, answers.readable);
      && (result == None <==> planned != [] && !policy.dryRun && moved != [] && !answers.written)
      && (result.Some? ==>
            && result.value.shardsTotal == total
            && result.value.shardsMisplaced == |Misplaced(nodes, intended, total)|
            && (result.value.status == Balanced <==> planned == [])
            && (result.value.status == DryRun <==> planned != [] && policy.dryRun)
            && (result.value.status == Moved <==> !policy.dryRun && moved != [] && answers.written && answers.committed)
            && (result.value.status == SkippedConflict <==> !policy.dryRun && moved != [] && answers.written && !answers.committed)
            && (result.value.status == Moved ==>
                  after == MovedTo(current.value, intended, moved) && result.value.shardsMoved == |moved|))
  {
    hide SplitSlash, NoSlash;
    after, intended := if current.Some? then current.value else [], [];
    if objectId == "" {
      return None, after, intended;
    }
    if current == None {
      return Some(ObjectResult(objectId, SkippedNotFound, 0, 0, 0)), after, intended;
    }
    var locations := current.value;
    if |registered| < total || |healthy| < total {
      return Some(ObjectResult(objectId, SkippedUnsafe, total, 0, 0)), after, intended;
    }
    if |locations| != total {
      return Some(ObjectResult(objectId, SkippedDegraded, total, 0, 0)), after, intended;
    }
    NoDupCardinality(registered);
    var placement := HrwIntendedNodes(w, registered, total);
    var targets := placement.value;
    intended := targets;
    var all, nodes := ProbeAll(locations, answers.probed);
    if !all {
      return Some(ObjectResult(objectId, SkippedDegraded, total, 0, 0)), after, intended;
    }
    result, after := MoveShards(objectId, locations, nodes, targets, total, healthy, answers, policy);
  }

  /** The updated locations, one move after the other. */
  method Relocate(locations: seq<string>, intended: seq<string>, fetched: seq<nat>) returns (updated: seq<string>)
    requires WellFormed(locations) && |locations| == |intended| && MovesOf(NodesOf(locations), intended, fetched)
    ensures updated == MovedTo(locations, intended, fetched)
  {
    hide SplitSlash, NoSlash;
    updated := locations;
    for j := 0 to |fetched|
      invariant updated == MovedTo(locations, intended, fetched[..j])
    {
      var i := fetched[j];
      assert i in fetched;
      assert fetched[..j + 1] == fetched[..j] + [i];
      updated := updated[i := LocationText(intended[i], SplitSlash(locations[i]).value.1)];
    }
    assert fetched[..|fetched|] == fetched;
  }

  /** With every intended node healthy and every source readable, what RebalanceObject moves is one pass. */
  lemma {:induction false} HealthyMoveIsPass(current: seq<string>, intended: seq<string>, healthy: set<string>, maxMoves: nat, readable: nat -> bool)
    requires |current| == |intended|
    requires forall i :: 0 <= i < |intended| ==> intended[i] in healthy && readable(i)
    ensures AfterMoves(current, intended, ReadableSources(Capped(Movable(current, intended, healthy, |current|), maxMoves), readable))
         == Pass(current, intended, maxMoves)
  {
    var list := Misplaced(current, intended, |current|);
    AllMovable(current, intended, healthy, |current|);
    MisplacedMeaning(current, intended, |current|);
    CappedMoves(current, intended, list, maxMoves);
    ReadableSourcesMove(current, intended, Capped(list, maxMoves), readable);
  }

  /* ---------- Until it is balanced ---------- */

  /** Every node is healthy, every probe, read, write and commit succeeds, and moves are wanted. */
  ghost predicate AllGoesWell(total: nat, registered: seq<string>, healthy: set<string>, answers: Answers, policy: Policy) {
    && total <= |registered| && healthy == Elems(registered) && !policy.dryRun && answers.written && answers.committed
    && forall i :: 0 <= i < total ==> answers.probed(i) && answers.readable(i)
  }

  /** Row locations that rebalance_object can work with. */
  ghost predicate FullLocations(locations: seq<string>, total: nat) {
    |locations| == total && WellFormed(locations)
  }

  lemma GatesOpen(objectId: string, locations: seq<string>, total: nat, registered: seq<string>, healthy: set<string>, answers: Answers, policy: Policy)
    requires AllGoesWell(total, registered, healthy, answers, policy) && FullLocations(locations, total) && objectId != "" && NoDup(registered)
    ensures OpenGates(objectId, Some(locations), total, registered, healthy, answers)
  {
    NoDupCardinality(registered);
  }

  /** When all goes well, the plan is all misplaced shards up to the bound, all are read, and moving them is one pass. */
  lemma {:induction false} CallIsPass(w: Weights, locations: seq<string>, total: nat, registered: seq<string>, healthy: set<string>,
                   answers: Answers, policy: Policy, intended: seq<string>)
    requires AllGoesWell(total, registered, healthy, answers, policy) && FullLocations(locations, total)
    requires |intended| == total && IsPlacement(w, Elems(registered), intended)
    ensures var nodes := NodesOf(locations);
      var planned := Capped(Misplaced(nodes, intended, total), policy.maxMoves);
      && Movable(nodes, intended, healthy, total) == Misplaced(nodes, intended, total)
      && ReadableSources(planned, answers.readable) == planned
      && AfterMoves(nodes, intended, planned) == Pass(nodes, intended, policy.maxMoves)
      && (planned == [] <==> nodes == intended)
  {
    hide WellFormed;
    var nodes := NodesOf(locations);
    var planned := Capped(Misplaced(nodes, intended, total), policy.maxMoves);
    PlacementInjective(w, Elems(registered), intended);
    forall i | 0 <= i < total
      ensures intended[i] in healthy
    {
      assert intended[i] in Elems(intended);
    }
    AllMovable(nodes, intended, healthy, total);
    MisplacedMeaning(nodes, intended, total);
    CappedMoves(nodes, intended, Misplaced(nodes, intended, total), policy.maxMoves);
    AllReadable(planned, answers.readable);
    if nodes == intended {
      NoneMisplacedThere(intended);
    } else {
      MisplacedSome(nodes, intended);
    }
  }

  lemma {:induction false} AllReadable(planned: seq<nat>, readable: nat -> bool)
    requires forall i :: i in planned ==> readable(i)
    ensures ReadableSources(planned, readable) == planned
  {
    if planned != [] {
      var front, last := planned[..|planned| - 1], planned[|planned| - 1];
      assert planned == front + [last];
      AllReadable(front, readable);
    }
  }

  /** Every shard keeps its key. */
  ghost predicate SameKeys(before: seq<string>, after: seq<string>)
    requires WellFormed(before) && WellFormed(after)
  {
    |before| == |after| && forall i :: 0 <= i < |before| ==> SplitSlash(before[i]).value.1 == SplitSlash(after[i]).value.1
  }

  /** One call when all goes well: Balanced if the row is on its intended nodes, and otherwise fewer shards misplaced. */
  method RebalanceOnce(objectId: string, w: Weights, locations: seq<string>, total: nat, registered: seq<string>,
                       healthy: set<string>, answers: Answers, policy: Policy)
    returns (balanced: bool, after: seq<string>, ghost intended: seq<string>)
    requires objectId != "" && NoDup(registered) && AllGoesWell(total, registered, healthy, answers, policy)
    requires FullLocations(locations, total) && forall i :: 0 <= i < |registered| ==> NoSlash(registered[i])
    ensures IsPlacement(w, Elems(registered), intended) && |intended| == total
    ensures FullLocations(after, total) && SameKeys(locations, after)
    ensures balanced <==> NodesOf(locations) == intended
    ensures balanced ==> after == locations
    ensures !balanced ==> NodesOf(after) == Pass(NodesOf(locations), intended, policy.maxMoves)
    ensures !balanced ==> |Misplaced(NodesOf(after), intended, total)| < |Misplaced(NodesOf(locations), intended, total)|
  {
    hide SplitSlash, NoSlash, WellFormed, OpenGates, IsPlacement, Misplaced, Movable, ReadableSources, AfterMoves, MovedTo, NodesOf, Pass, Capped;
    GatesOpen(objectId, locations, total, registered, healthy, answers, policy);
    var result;
    result, after, intended := RebalanceObject(objectId, w, Some(locations), total, registered, healthy, answers, policy);
    CallIsPass(w, locations, total, registered, healthy, answers, policy, intended);
    balanced := result.value.status == Balanced;
    if !balanced {
      ghost var planned := Capped(Misplaced(NodesOf(locations), intended, total), policy.maxMoves);
      SlashFree(w, registered, intended);
      MovedToNodes(locations, intended, planned);
      PassProgress(NodesOf(locations), intended, policy.maxMoves);
      MisplacedSome(NodesOf(locations), intended);
    }
  }

  lemma SlashFree(w: Weights, registered: seq<string>, intended: seq<string>)
    requires IsPlacement(w, Elems(registered), intended) && forall i :: 0 <= i < |registered| ==> NoSlash(registered[i])
    ensures forall i :: 0 <= i < |intended| ==> NoSlash(intended[i])
  {
    hide NoSlash;
    PlacementInjective(w, Elems(registered), intended);
    forall i | 0 <= i < |intended|
      ensures NoSlash(intended[i])
    {
      assert intended[i] in Elems(intended);
      var j :| 0 <= j < |registered| && registered[j] == intended[i];
    }
  }

  lemma {:induction false} MisplacedSome(current: seq<string>, intended: seq<string>)
    requires |current| == |intended| && current != intended
    ensures |Misplaced(current, intended, |current|)| > 0
  {
    if |Misplaced(current, intended, |current|)| == 0 {
      NoneMisplaced(current, intended);
    }
  }

  /**
   Convergence of the code: rebalance_object, called again and again for one object while all goes
   well, whatever the bound on moves, comes to Balanced, after no more moving calls than there were
   misplaced shards; every location is then at its intended node, all nodes are distinct, and
   every shard has the key it had.
   */
  method RebalanceUntilBalanced(objectId: string, w: Weights, locations: seq<string>, total: nat, registered: seq<string>,
                                healthy: set<string>, answers: Answers, policy: Policy)
    returns (after: seq<string>, calls: nat, ghost intended: seq<string>)
    requires objectId != "" && NoDup(registered) && AllGoesWell(total, registered, healthy, answers, policy)
    requires FullLocations(locations, total) && forall i :: 0 <= i < |registered| ==> NoSlash(registered[i])
    ensures FullLocations(after, total) && SameKeys(locations, after)
    ensures IsPlacement(w, Elems(registered), intended) && |intended| == total && NoDup(intended)
    ensures NodesOf(after) == intended
    ensures calls <= |Misplaced(NodesOf(locations), intended, total)| + 1
  {
    hide SplitSlash, NoSlash, WellFormed, IsPlacement;
    var balanced;
    balanced, after, intended := RebalanceOnce(objectId, w, locations, total, registered, healthy, answers, policy);
    calls := 1;
    NoneMisplacedThere(intended);
    while !balanced
      invariant FullLocations(after, total) && SameKeys(locations, after)
      invariant balanced ==> NodesOf(after) == intended
      invariant calls + |Misplaced(NodesOf(after), intended, total)| + (if balanced then 0 else 1)
             <= |Misplaced(NodesOf(locations), intended, total)| + 1
      decreases |Misplaced(NodesOf(after), intended, total)|, !balanced
    {
      ghost var again;
      balanced, after, again := RebalanceOnce(objectId, w, after, total, registered, healthy, answers, policy);
      SamePlacement(w, Elems(registered), intended, again);
      calls := calls + 1;
    }
    PlacementInjective(w, Elems(registered), intended);
  }

  lemma {:induction false} NoneMisplacedThere(intended: seq<string>)
    ensures |Misplaced(intended, intended, |intended|)| == 0
  {
    MisplacedMeaning(intended, intended, |intended|);
    if Misplaced(intended, intended, |intended|) != [] {
      assert Misplaced(intended, intended, |intended|)[0] in Misplaced(intended, intended, |intended|);
    }
  }

  lemma SamePlacement(w: Weights, nodes: set<string>, p: seq<string>, q: seq<string>)
    requires IsPlacement(w, nodes, p) && IsPlacement(w, nodes, q) && |p| == |q|
    ensures p == q
  {
    PlacementUnique(w, nodes, p, q);
    assert q[..|q|] == q;
  }

  /* ---------- The cluster pass ---------- */

  datatype Scope = Scope(objectIds: seq<string>, maxObjects: nat, maxMoves: nat, dryRun: bool)

  datatype Report = Report(
    objectsScanned: nat,
    objectsBalanced: nat,
    objectsMoved: nat,
    objectsSkippedDegraded: nat,
    objectsSkippedUnsafe: nat,
    objectsSkippedConflict: nat,
    objectsNotFound: nat,
    objectsErrored: nat,
    shardsMoved: nat,
    results: seq<ObjectResult>)

  function CountOf(results: seq<ObjectResult>, s: Status): nat {
    if results == [] then 0
    else
      var here := if results[|results| - 1].status == s then 1 else 0;
      CountOf(results[..|results| - 1], s) + here
  }

  function TotalMoved(results: seq<ObjectResult>): nat {
    if results == [] then 0
    else TotalMoved(results[..|results| - 1]) + results[|results| - 1].shardsMoved
  }

  /** Every counter is the number of results with its status, and the moved total is their sum. */
  ghost predicate Accounts(r: Report) {
    && r.objectsScanned == |r.results|
    && r.objectsBalanced == CountOf(r.results, Balanced)
    && r.objectsMoved == CountOf(r.results, Moved)
    && r.objectsSkippedDegraded == CountOf(r.results, SkippedDegraded)
    && r.objectsSkippedUnsafe == CountOf(r.results, SkippedUnsafe)
    && r.objectsSkippedConflict == CountOf(r.results, SkippedConflict)
    && r.objectsNotFound == CountOf(r.results, SkippedNotFound)
    && r.objectsErrored == CountOf(r.results, Errored)
    && r.shardsMoved == TotalMoved(r.results)
  }

  lemma {:induction false} StatusesPartition(results: seq<ObjectResult>)
    ensures |results| == CountOf(results, Balanced) + CountOf(results, Moved) + CountOf(results, DryRun)
      + CountOf(results, SkippedDegraded) + CountOf(results, SkippedUnsafe) + CountOf(results, SkippedConflict)
      + CountOf(results, SkippedNotFound) + CountOf(results, Errored)
  {
    if results != [] {
      StatusesPartition(results[..|results| - 1]);
    }
  }

  /** The scanned count is the sum of all outcome counters and the dry runs. */
  lemma ScannedIsSum(r: Report)
    requires Accounts(r)
    ensures r.objectsScanned == r.objectsBalanced + r.objectsMoved + r.objectsSkippedDegraded + r.objectsSkippedUnsafe
      + r.objectsSkippedConflict + r.objectsNotFound + r.objectsErrored + CountOf(r.results, DryRun)
  {
    StatusesPartition(r.results);
  }

  /** One result entered into the report. */
  function Enter(r: Report, o: ObjectResult): Report {
    var s := r.(objectsScanned := r.objectsScanned + 1, results := r.results + [o]);
    match o.status
    case Balanced => s.(objectsBalanced := s.objectsBalanced + 1)
    case Moved => s.(objectsMoved := s.objectsMoved + 1, shardsMoved := s.shardsMoved + o.shardsMoved)
    case SkippedDegraded => s.(objectsSkippedDegraded := s.objectsSkippedDegraded + 1)
    case SkippedUnsafe => s.(objectsSkippedUnsafe := s.objectsSkippedUnsafe + 1)
    case SkippedConflict => s.(objectsSkippedConflict := s.objectsSkippedConflict + 1)
    case SkippedNotFound => s.(objectsNotFound := s.objectsNotFound + 1)
    case Errored => s.(objectsErrored := s.objectsErrored + 1)
    case DryRun => s
  }

  lemma EnterAccounts(r: Report, o: ObjectResult)
    requires Accounts(r) && (o.status != Moved ==> o.shardsMoved == 0)
    ensures Accounts(Enter(r, o)) && Enter(r, o).results == r.results + [o]
    ensures Enter(r, o).objectsScanned == r.objectsScanned + 1 && Enter(r, o).shardsMoved == r.shardsMoved + o.shardsMoved
  {
    var results := r.results + [o];
    assert results[..|results| - 1] == r.results;
  }

  /** What each object's rebalance comes to, by its turn, its id and the policy it is given; None for an exception. */
  type Outcomes = (nat, string, Policy) -> Option<ObjectResult>

  ghost predicate OutcomesHonour(outcomes: Outcomes) {
    forall i, id, p :: outcomes(i, id, p).Some? ==> Honours(p, outcomes(i, id, p).value)
  }

  /** The result recorded for the i-th object; an exception is recorded as an error. */
  function Entry(ids: seq<string>, outcomes: Outcomes, i: nat, policy: Policy): ObjectResult
    requires i < |ids|
  {
    var o := outcomes(i, ids[i], policy);
    if o.Some? then o.value else ObjectResult(ids[i], Errored, 0, 0, 0)
  }

  /** Each object's limit is what the objects before it have left of the scope's. */
  ghost predicate WhatRemains(scope: Scope, policies: seq<Policy>, results: seq<ObjectResult>) {
    |policies| <= |results| && forall i :: 0 <= i < |policies| ==>
      policies[i].maxMoves == if scope.maxMoves > 0 then scope.maxMoves - TotalMoved(results[..i]) else 0
  }

  lemma {:induction false} OneMorePolicy(scope: Scope, policies: seq<Policy>, results: seq<ObjectResult>, policy: Policy, o: ObjectResult)
    requires |policies| == |results| && WhatRemains(scope, policies, results)
    requires policy.maxMoves == if scope.maxMoves > 0 then scope.maxMoves - TotalMoved(results) else 0
    ensures WhatRemains(scope, policies + [policy], results + [o])
  {
    hide TotalMoved;
    assert forall i :: 0 <= i < |results| ==> (results + [o])[..i] == results[..i];
    assert (results + [o])[..|results|] == results;
  }

  lemma EntryHonours(ids: seq<string>, outcomes: Outcomes, i: nat, policy: Policy)
    requires i < |ids| && OutcomesHonour(outcomes)
    ensures var entry := Entry(ids, outcomes, i, policy);
      (policy.maxMoves > 0 ==> entry.shardsMoved <= policy.maxMoves) && (entry.status != Moved ==> entry.shardsMoved == 0)
  {
    if outcomes(i, ids[i], policy).Some? {
      assert Honours(policy, outcomes(i, ids[i], policy).value);
    }
  }

  lemma AccountsMoved(r: Report)
    requires Accounts(r)
    ensures r.shardsMoved == TotalMoved(r.results)
  {
  }

  ghost function PositionsOf(results: seq<ObjectResult>, s: Status): set<nat> {
    set i: nat | i < |results| && results[i].status == s
  }

  lemma PositionsOneMore(results: seq<ObjectResult>, s: Status)
    requires results != []
    ensures var n := |results| - 1;
      PositionsOf(results, s) == PositionsOf(results[..n], s) + (if results[n].status == s then {n} else {})
      && n !in PositionsOf(results[..n], s)
  {
    var n := |results| - 1;
    assert forall i :: 0 <= i < n ==> results[..n][i] == results[i];
  }

  /** A counter is the number of positions whose result has the status. */
  lemma {:induction false} CountOfPositions(results: seq<ObjectResult>, s: Status)
    ensures CountOf(results, s) == |PositionsOf(results, s)|
  {
    hide PositionsOf;
    if results == [] {
      NoPositions(s);
    } else {
      CountOfPositions(results[..|results| - 1], s);
      PositionsOneMore(results, s);
    }
  }

  lemma NoPositions(s: Status)
    ensures PositionsOf([], s) == {}
  {
  }

  /** The pass over the resolved ids. */
  method RebalanceEach(scope: Scope, ids: seq<string>, outcomes: Outcomes) returns (r: Report, ghost policies: seq<Policy>)
    requires OutcomesHonour(outcomes)
    ensures Accounts(r)
    ensures |policies| == r.objectsScanned == |r.results| <= |ids|
    ensures forall i :: 0 <= i < |policies| ==> policies[i].dryRun == scope.dryRun && (policies[i].maxMoves > 0 <==> scope.maxMoves > 0)
    ensures forall i :: 0 <= i < |policies| ==>
      policies[i].maxMoves == if scope.maxMoves > 0 then scope.maxMoves - TotalMoved(r.results[..i]) else 0
    ensures forall i {:trigger r.results[i]} :: 0 <= i < |r.results| ==> r.results[i] == Entry(ids, outcomes, i, policies[i])
    ensures scope.maxMoves > 0 ==> r.shardsMoved <= scope.maxMoves
    ensures scope.maxObjects > 0 ==> r.objectsScanned <= scope.maxObjects
    ensures r.objectsScanned < |ids| ==>
      (scope.maxObjects > 0 && r.objectsScanned == scope.maxObjects) || (scope.maxMoves > 0 && r.shardsMoved == scope.maxMoves)
  {
    r := Report(0, 0, 0, 0, 0, 0, 0, 0, 0, []);
    policies := [];
    var boundedMoves := scope.maxMoves > 0;
    var remaining: nat := scope.maxMoves;
    assert Accounts(r);
    hide Accounts, Enter, TotalMoved, Entry, WhatRemains;
    assert WhatRemains(scope, policies, r.results);
    for i := 0 to |ids|
      invariant Accounts(r) && r.objectsScanned == |r.results| == |policies| == i
      invariant forall j :: 0 <= j < i ==> policies[j].dryRun == scope.dryRun && (policies[j].maxMoves > 0 <==> scope.maxMoves > 0)
      invariant WhatRemains(scope, policies, r.results)
      invariant forall j {:trigger r.results[j]} :: 0 <= j < i ==> r.results[j] == Entry(ids, outcomes, j, policies[j])
      invariant boundedMoves ==> r.shardsMoved + remaining == scope.maxMoves
      invariant scope.maxObjects > 0 ==> i <= scope.maxObjects
    {
      if scope.maxObjects > 0 && r.objectsScanned >= scope.maxObjects {
        return;
      }
      if boundedMoves && remaining == 0 {
        return;
      }
      AccountsMoved(r);
      var policy := Policy(scope.dryRun, if boundedMoves then remaining else 0);
      var entry := Entry(ids, outcomes, i, policy);
      EntryHonours(ids, outcomes, i, policy);
      EnterAccounts(r, entry);
      OneMorePolicy(scope, policies, r.results, policy, entry);
      r := Enter(r, entry);
      policies := policies + [policy];
      if entry.status == Moved && boundedMoves {
        remaining := remaining - (if remaining <= entry.shardsMoved then remaining else entry.shardsMoved);
      }
    }
  }

  /**
   rebalance over the named ids, or over all of the catalog. Moves never exceed a positive limit and neither do scanned
   objects; no object of a limited pass is given the limit 0, which would mean no limit; and the
   pass stops early only when a limit is reached.
   */
  method RebalanceAll(scope: Scope, catalog: seq<string>, outcomes: Outcomes) returns (r: Report, ghost policies: seq<Policy>)
    requires OutcomesHonour(outcomes)
    ensures Accounts(r)
    ensures |policies| == r.objectsScanned == |r.results|
    ensures var ids := if scope.objectIds == [] then catalog else scope.objectIds;
      && |r.results| <= |ids|
      && (forall i {:trigger r.results[i]} :: 0 <= i < |r.results| ==>
            r.results[i] == match outcomes(i, ids[i], policies[i]) {
              case Some(o) => o
              case None => ObjectResult(ids[i], Errored, 0, 0, 0)
            })
      && (|r.results| < |ids| ==>
            (scope.maxObjects > 0 && r.objectsScanned == scope.maxObjects) || (scope.maxMoves > 0 && r.shardsMoved == scope.maxMoves))
    ensures forall i :: 0 <= i < |policies| ==> policies[i].dryRun == scope.dryRun && (policies[i].maxMoves > 0 <==> scope.maxMoves > 0)
    ensures forall i :: 0 <= i < |policies| ==>
      policies[i].maxMoves == if scope.maxMoves > 0 then scope.maxMoves - TotalMoved(r.results[..i]) else 0
    ensures scope.maxMoves > 0 ==> r.shardsMoved <= scope.maxMoves
    ensures scope.maxObjects > 0 ==> r.objectsScanned <= scope.maxObjects
  {
    var ids := scope.objectIds;
    if ids == [] {
      ids := catalog;
    }
    r, policies := RebalanceEach(scope, ids, outcomes);
  }
}
