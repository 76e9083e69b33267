/**
 The choice of a node for each shard that repair restores: the shard's intended
 node when it is healthy and still free, otherwise the next free node of a pool
 that lists healthy nodes without a surviving shard before those with one.
 */
module RepairTargets {
  import opened Wrappers
  import opened Collections
  import opened Rendezvous

  datatype RepairError = NotEnoughHealthyNodes

  /** The nodes of the list that are in the set (or, with inside false, that are not). */
  function Keep(nodes: seq<string>, chosen: set<string>, inside: bool): seq<string> {
    if nodes == [] then []
    else
      var last := nodes[|nodes| - 1];
      Keep(nodes[..|nodes| - 1], chosen, inside) + (if (last in chosen) == inside then [last] else [])
  }

  function Pool(healthy: seq<string>, used: set<string>): seq<string> {
    Keep(healthy, used, false) + Keep(healthy, used, true)
  }

  /** x is the first node of the pool that has not been consumed. */
  ghost predicate IsFirstFree(pool: seq<string>, consumed: set<string>, x: string) {
    x !in consumed && exists j :: 0 <= j < |pool| && pool[j] == x && forall l :: 0 <= l < j ==> pool[l] in consumed
  }

  predicate IntendedIsFree(intended: seq<string>, idx: nat, healthy: seq<string>, consumed: set<string>)
    requires intended != [] ==> idx < |intended|
  {
    intended != [] && intended[idx] in healthy && intended[idx] !in consumed
  }

  /** What the assignment loop promises for the targets of the missing shards. */
  ghost predicate IsAssignment(missing: seq<nat>, intended: seq<string>, healthy: seq<string>, used: set<string>, targets: seq<string>)
    requires intended != [] ==> forall i :: 0 <= i < |missing| ==> missing[i] < |intended|
  {
    && |targets| <= |missing|
    && forall i {:trigger targets[i]} :: 0 <= i < |targets| ==>
         if IntendedIsFree(intended, missing[i], healthy, Elems(targets[..i]))
         then targets[i] == intended[missing[i]]
         else IsFirstFree(Pool(healthy, used), Elems(targets[..i]), targets[i])
  }

  lemma {:induction false} KeepMembers(nodes: seq<string>, chosen: set<string>, inside: bool)
    ensures forall x :: x in Keep(nodes, chosen, inside) <==> x in nodes && ((x in chosen) == inside)
  {
    if nodes != [] {
      KeepMembers(nodes[..|nodes| - 1], chosen, inside);
      assert nodes == nodes[..|nodes| - 1] + [nodes[|nodes| - 1]];
    }
  }

  lemma PoolMembers(healthy: seq<string>, used: set<string>)
    ensures forall x :: x in Pool(healthy, used) <==> x in healthy
  {
    KeepMembers(healthy, used, false);
    KeepMembers(healthy, used, true);
  }

  /** x is at position p of the list, and what comes before it of the same kind is taken. */
  ghost predicate FirstOfKind(healthy: seq<string>, used: set<string>, taken: set<string>, x: string, p: nat)
    requires p < |healthy|
  {
    healthy[p] == x && forall q :: 0 <= q < p && (healthy[q] in used <==> x in used) ==> healthy[q] in taken
  }

  /** The fallback, without a pool: the first healthy node without a survivor that is not taken; if all of them are, the first with one. */
  ghost predicate IsFallback(healthy: seq<string>, used: set<string>, taken: set<string>, x: string) {
    && x !in taken && (exists p :: 0 <= p < |healthy| && FirstOfKind(healthy, used, taken, x, p))
    && (x in used ==> forall y :: y in healthy && y !in used ==> y in taken)
  }

  /** A kept node comes after the kept ones that are before it in the list. */
  lemma {:induction false} KeepInOrder(nodes: seq<string>, chosen: set<string>, inside: bool, j: nat) returns (p: nat)
    requires j < |Keep(nodes, chosen, inside)|
    ensures p < |nodes| && nodes[p] == Keep(nodes, chosen, inside)[j] && ((nodes[p] in chosen) == inside)
    ensures forall q :: 0 <= q < p && ((nodes[q] in chosen) == inside) ==> nodes[q] in Keep(nodes, chosen, inside)[..j]
  {
    var n := |nodes| - 1;
    var front := Keep(nodes[..n], chosen, inside);
    var all := Keep(nodes, chosen, inside);
    if j < |front| {
      p := KeepInOrder(nodes[..n], chosen, inside, j);
      assert all[..j] == front[..j];
    } else {
      p := n;
      KeepMembers(nodes[..n], chosen, inside);
      assert all[..j] == front;
      assert forall q :: 0 <= q < n ==> nodes[..n][q] == nodes[q];
    }
  }

  lemma FirstFreeIsFallback(healthy: seq<string>, used: set<string>, taken: set<string>, x: string)
    requires IsFirstFree(Pool(healthy, used), taken, x)
    ensures IsFallback(healthy, used, taken, x)
  {
    var front, pool := Keep(healthy, used, false), Pool(healthy, used);
    var j :| 0 <= j < |pool| && pool[j] == x && forall l :: 0 <= l < j ==> pool[l] in taken;
    hide Pool, Keep;
    assert pool == front + Keep(healthy, used, true) by { PoolParts(healthy, used); }
    if j < |front| {
      var p := KeepInOrder(healthy, used, false, j);
      assert pool[..j] == front[..j];
      assert forall y :: y in pool[..j] ==> y in taken;
      assert FirstOfKind(healthy, used, taken, x, p);
    } else {
      var p := KeepInOrder(healthy, used, true, j - |front|);
      assert pool[..j] == front + Keep(healthy, used, true)[..j - |front|];
      assert forall y :: y in pool[..j] ==> y in taken;
      KeepMembers(healthy, used, false);
      assert FirstOfKind(healthy, used, taken, x, p);
    }
  }

  lemma {:induction false} PoolParts(healthy: seq<string>, used: set<string>)
    ensures Pool(healthy, used) == Keep(healthy, used, false) + Keep(healthy, used, true)
  {
  }

  /** An assignment, said without the pool. */
  lemma AssignmentMeaning(missing: seq<nat>, intended: seq<string>, healthy: seq<string>, used: set<string>, targets: seq<string>)
    requires intended != [] ==> forall i :: 0 <= i < |missing| ==> missing[i] < |intended|
    requires IsAssignment(missing, intended, healthy, used, targets)
    ensures forall i {:trigger targets[i]} :: 0 <= i < |targets| ==>
      if intended != [] && intended[missing[i]] in healthy && intended[missing[i]] !in targets[..i]
      then targets[i] == intended[missing[i]]
      else IsFallback(healthy, used, Elems(targets[..i]), targets[i])
  {
    hide IsFallback, IsFirstFree;
    forall i | 0 <= i < |targets| && IsFirstFree(Pool(healthy, used), Elems(targets[..i]), targets[i]) {
      FirstFreeIsFallback(healthy, used, Elems(targets[..i]), targets[i]);
    }
  }

  method BuildPool(healthy: seq<string>, used: set<string>) returns (pool: seq<string>)
    ensures pool == Pool(healthy, used)
  {
    pool := [];
    for i := 0 to |healthy|
      invariant pool == Keep(healthy[..i], used, false)
    {
      assert healthy[..i + 1][..i] == healthy[..i];
      if healthy[i] !in used {
        pool := pool + [healthy[i]];
      }
    }
    assert healthy[..|healthy|] == healthy;
    for i := 0 to |healthy|
      invariant pool == Keep(healthy, used, false) + Keep(healthy[..i], used, true)
    {
      assert healthy[..i + 1][..i] == healthy[..i];
      if healthy[i] in used {
        pool := pool + [healthy[i]];
      }
    }
  }

  /** The target of one missing shard, and where the pool cursor stands afterwards. */
  method ChooseTarget(idx: nat, intended: seq<string>, healthy: seq<string>, ghost used: set<string>,
                      pool: seq<string>, consumed: set<string>, start: nat)
    returns (target: string, cursor: nat)
    requires "" !in healthy && pool == Pool(healthy, used)
    requires intended != [] ==> idx < |intended|
    requires start <= |pool| && forall l :: 0 <= l < start ==> pool[l] in consumed
    ensures cursor <= |pool| && forall l :: 0 <= l < cursor ==> pool[l] in consumed + {target}
    ensures target == "" ==> Elems(healthy) <= consumed
    ensures target != "" ==> target in healthy && target !in consumed
    ensures target != "" ==> if IntendedIsFree(intended, idx, healthy, consumed) then target == intended[idx]
                             else IsFirstFree(pool, consumed, target)
  {
    PoolMembers(healthy, used);
    target, cursor := "", start;
    if intended != [] {
      var want := intended[idx];
      if want in healthy && want !in consumed {
        target := want;
      }
    }
    if target == "" {
      while cursor < |pool| && pool[cursor] in consumed
        invariant cursor <= |pool| && forall l :: 0 <= l < cursor ==> pool[l] in consumed
      {
        cursor := cursor + 1;
      }
      if cursor < |pool| {
        target := pool[cursor];
        assert target in pool;
        cursor := cursor + 1;
      }
    }
  }

  /**
   The assignment loop. Registered addresses are unique and an empty address never answers
   a health probe, which is what the empty string as "no target yet" relies on. The loop
   fails exactly when there are more missing shards than healthy nodes.
   */
  method AssignTargets(missing: seq<nat>, intended: seq<string>, healthy: seq<string>, used: set<string>)
    returns (r: Result<seq<string>, RepairError>)
    requires NoDup(healthy) && "" !in healthy
    requires intended != [] ==> forall i :: 0 <= i < |missing| ==> missing[i] < |intended|
    ensures r.Ok? <==> |missing| <= |healthy|
    ensures r.Ok? ==> |r.value| == |missing| && IsAssignment(missing, intended, healthy, used, r.value)
    ensures r.Ok? ==> forall i {:trigger r.value[i]} :: 0 <= i < |missing| ==>
      if intended != [] && intended[missing[i]] in healthy && intended[missing[i]] !in r.value[..i]
      then r.value[i] == intended[missing[i]]
      else IsFallback(healthy, used, Elems(r.value[..i]), r.value[i])
  {
    var pool := BuildPool(healthy, used);
    NoDupCardinality(healthy);
    var targets: seq<string> := [];
    var consumed: set<string> := {};
    var cursor: nat := 0;
    for i := 0 to |missing|
      invariant |targets| == i == |consumed| && consumed == Elems(targets) && consumed <= Elems(healthy)
      invariant cursor <= |pool| && forall l :: 0 <= l < cursor ==> pool[l] in consumed
      invariant IsAssignment(missing, intended, healthy, used, targets)
    {
      var target;
      target, cursor := ChooseTarget(missing[i], intended, healthy, used, pool, consumed, cursor);
      if target == "" {
        SubsetCardinality(Elems(healthy), consumed);
        return Err(NotEnoughHealthyNodes);
      }
      AssignmentAppend(missing, intended, healthy, used, targets, target);
      ElemsAppend(targets, target);
      targets := targets + [target];
      consumed := consumed + {target};
    }
    SubsetCardinality(consumed, Elems(healthy));
    AssignmentMeaning(missing, intended, healthy, used, targets);
    return Ok(targets);
  }

  lemma AssignmentAppend(missing: seq<nat>, intended: seq<string>, healthy: seq<string>, used: set<string>,
                         targets: seq<string>, target: string)
    requires intended != [] ==> forall i :: 0 <= i < |missing| ==> missing[i] < |intended|
    requires IsAssignment(missing, intended, healthy, used, targets) && |targets| < |missing|
    requires if IntendedIsFree(intended, missing[|targets|], healthy, Elems(targets))
             then target == intended[missing[|targets|]]
             else IsFirstFree(Pool(healthy, used), Elems(targets), target)
    ensures IsAssignment(missing, intended, healthy, used, targets + [target])
  {
    var all := targets + [target];
    forall i | 0 <= i < |all|
      ensures if IntendedIsFree(intended, missing[i], healthy, Elems(all[..i]))
              then all[i] == intended[missing[i]]
              else IsFirstFree(Pool(healthy, used), Elems(all[..i]), all[i])
    {
      assert all[..i] == targets[..i];
      if i == |targets| {
        assert targets[..i] == targets;
      }
    }
  }

  /** The targets are pairwise distinct healthy nodes. */
  lemma TargetsDistinct(missing: seq<nat>, intended: seq<string>, healthy: seq<string>, used: set<string>, targets: seq<string>)
    requires intended != [] ==> forall i :: 0 <= i < |missing| ==> missing[i] < |intended|
    requires IsAssignment(missing, intended, healthy, used, targets)
    ensures NoDup(targets) && Elems(targets) <= Elems(healthy)
  {
    PoolMembers(healthy, used);
    forall i, j | 0 <= i < j < |targets|
      ensures targets[i] != targets[j]
    {
      assert targets[i] in targets[..j];
    }
  }

  /** No restored shard lands on a node that holds a surviving shard. */
  ghost predicate AvoidsSurvivors(targets: seq<string>, used: set<string>) {
    forall i :: 0 <= i < |targets| ==> targets[i] !in used
  }

  /** The condition under which repair keeps shards apart: it can be checked before the call. */
  ghost predicate RoomApart(missing: seq<nat>, intended: seq<string>, healthy: seq<string>, used: set<string>)
    requires intended != [] ==> forall i :: 0 <= i < |missing| ==> missing[i] < |intended|
  {
    && |Elems(healthy) - used| >= |missing|
    && (intended != [] ==> forall i :: 0 <= i < |missing| ==>
          intended[missing[i]] !in healthy || intended[missing[i]] !in used)
  }

  /** While fewer targets are taken than there are unused healthy nodes, the pool yields an unused one. */
  lemma FirstFreeUnused(healthy: seq<string>, used: set<string>, consumed: set<string>, x: string)
    requires IsFirstFree(Pool(healthy, used), consumed, x)
    requires |consumed| < |Elems(healthy) - used|
    ensures x !in used
  {
    KeepMembers(healthy, used, false);
    KeepMembers(healthy, used, true);
    var front := Keep(healthy, used, false);
    var j :| 0 <= j < |Pool(healthy, used)| && Pool(healthy, used)[j] == x
      && forall l :: 0 <= l < j ==> Pool(healthy, used)[l] in consumed;
    if j >= |front| {
      forall y | y in Elems(healthy) - used
        ensures y in consumed
      {
        var l :| 0 <= l < |front| && front[l] == y;
        assert Pool(healthy, used)[l] == y;
      }
      SubsetCardinality(Elems(healthy) - used, consumed);
    } else {
      assert x in front;
    }
  }

  lemma RoomKeepsApart(missing: seq<nat>, intended: seq<string>, healthy: seq<string>, used: set<string>, targets: seq<string>)
    requires intended != [] ==> forall i :: 0 <= i < |missing| ==> missing[i] < |intended|
    requires IsAssignment(missing, intended, healthy, used, targets)
    requires RoomApart(missing, intended, healthy, used)
    ensures AvoidsSurvivors(targets, used)
  {
    forall i | 0 <= i < |targets|
      ensures targets[i] !in used
    {
      if !IntendedIsFree(intended, missing[i], healthy, Elems(targets[..i])) {
        ElemsCardinality(targets[..i]);
        FirstFreeUnused(healthy, used, Elems(targets[..i]), targets[i]);
      }
    }
  }

  lemma ApartNeedsRoom(missing: seq<nat>, intended: seq<string>, healthy: seq<string>, used: set<string>, targets: seq<string>)
    requires intended != [] ==> forall i :: 0 <= i < |missing| ==> missing[i] < |intended|
    requires IsAssignment(missing, intended, healthy, used, targets) && |targets| == |missing|
    requires AvoidsSurvivors(targets, used)
    ensures RoomApart(missing, intended, healthy, used)
  {
    TargetsDistinct(missing, intended, healthy, used, targets);
    NoDupCardinality(targets);
    SubsetCardinality(Elems(targets), Elems(healthy) - used);
    if intended != [] {
      forall i | 0 <= i < |missing|
        ensures intended[missing[i]] !in healthy || intended[missing[i]] !in used
      {
        assert targets[i] !in used;
        assert forall y :: y in Elems(targets[..i]) ==> y in targets;
      }
    }
  }

  /** Repair puts no restored shard beside a survivor exactly when there is room to keep them apart. */
  lemma ApartExactlyWhenRoom(missing: seq<nat>, intended: seq<string>, healthy: seq<string>, used: set<string>, targets: seq<string>)
    requires intended != [] ==> forall i :: 0 <= i < |missing| ==> missing[i] < |intended|
    requires IsAssignment(missing, intended, healthy, used, targets) && |targets| == |missing|
    ensures AvoidsSurvivors(targets, used) <==> RoomApart(missing, intended, healthy, used)
  {
    if RoomApart(missing, intended, healthy, used) {
      RoomKeepsApart(missing, intended, healthy, used, targets);
    }
    if AvoidsSurvivors(targets, used) {
      ApartNeedsRoom(missing, intended, healthy, used, targets);
    }
  }

  /** A free healthy node alone is not enough: the intended node is taken even where a survivor sits on it. */
  lemma MayColocateBesideFreeNode(targets: seq<string>)
    requires IsAssignment([0], ["a", "b", "c"], ["a", "b", "c"], {"a", "c"}, targets) && |targets| == 1
    ensures targets[0] in {"a", "c"} && "b" in ["a", "b", "c"] && "b" !in {"a", "c"}
  {
    assert targets[..0] == [];
    assert IntendedIsFree(["a", "b", "c"], 0, ["a", "b", "c"], Elems(targets[..0]));
  }

  /** The nodes of all shards after the repair. */
  ghost predicate IsRepaired(nodes: seq<string>, missing: seq<nat>, targets: seq<string>, repaired: seq<string>) {
    && |repaired| == |nodes| && |targets| == |missing|
    && (forall i :: 0 <= i < |missing| ==> missing[i] < |nodes| && repaired[missing[i]] == targets[i])
    && (forall s :: 0 <= s < |nodes| && s !in missing ==> repaired[s] == nodes[s])
  }

  /** The nodes that hold a surviving shard. */
  ghost function SurvivorNodes(nodes: seq<string>, missing: seq<nat>): set<string> {
    set s | 0 <= s < |nodes| && s !in missing :: nodes[s]
  }

  /** The node of shard s after the repair is a target or a survivor's node. */
  lemma RepairedNode(nodes: seq<string>, missing: seq<nat>, targets: seq<string>, repaired: seq<string>, s: nat)
    returns (i: nat)
    requires IsRepaired(nodes, missing, targets, repaired) && s < |nodes|
    ensures if s in missing then i < |missing| && missing[i] == s && repaired[s] == targets[i]
            else repaired[s] == nodes[s] && nodes[s] in SurvivorNodes(nodes, missing)
  {
    i := 0;
    if s in missing {
      i :| 0 <= i < |missing| && missing[i] == s;
    }
  }

  lemma ApartIsDistinct(nodes: seq<string>, missing: seq<nat>, targets: seq<string>, repaired: seq<string>)
    requires IsRepaired(nodes, missing, targets, repaired)
    requires NoDup(targets) && AvoidsSurvivors(targets, SurvivorNodes(nodes, missing))
    requires forall s, t :: 0 <= s < t < |nodes| && s !in missing && t !in missing ==> nodes[s] != nodes[t]
    ensures NoDup(repaired)
  {
    forall s, t | 0 <= s < t < |repaired|
      ensures repaired[s] != repaired[t]
    {
      var i := RepairedNode(nodes, missing, targets, repaired, s);
      var j := RepairedNode(nodes, missing, targets, repaired, t);
    }
  }

  /**
   Repair keeps fault independence: if every survivor sits on its intended node and there
   is an unused healthy node for each missing shard, all shards end up on distinct nodes.
   */
  lemma FaultIndependence(w: Weights, registered: set<string>, intended: seq<string>, nodes: seq<string>,
                          missing: seq<nat>, healthy: seq<string>, targets: seq<string>, repaired: seq<string>)
    requires IsPlacement(w, registered, intended) && |intended| == |nodes|
    requires forall i :: 0 <= i < |missing| ==> missing[i] < |intended|
    requires forall s :: 0 <= s < |nodes| && s !in missing ==> nodes[s] == intended[s]
    requires |Elems(healthy) - SurvivorNodes(nodes, missing)| >= |missing|
    requires IsAssignment(missing, intended, healthy, SurvivorNodes(nodes, missing), targets)
    requires IsRepaired(nodes, missing, targets, repaired)
    ensures NoDup(repaired)
  {
    var used := SurvivorNodes(nodes, missing);
    PlacementInjective(w, registered, intended);
    forall i | 0 <= i < |missing|
      ensures intended[missing[i]] !in used
    {
      assert missing[i] in missing;
      assert forall s :: 0 <= s < |nodes| && s != missing[i] ==> intended[s] != intended[missing[i]];
    }
    RoomKeepsApart(missing, intended, healthy, used, targets);
    TargetsDistinct(missing, intended, healthy, used, targets);
    ApartIsDistinct(nodes, missing, targets, repaired);
  }
}
