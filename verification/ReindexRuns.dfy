/**
 A reindex that nothing disturbs, as steps: it does to the catalog what one pass does,
 so what is proved of passes is true of the catalog that the steps leave.
 */
module ReindexRuns {
  import opened Collections
  import opened MetadataStore
  import opened Shards
  import opened Reindex
  import opened Protocol
  import opened Rebuild

  /** The elements of a set, one after the other. */
  lemma {:induction false} Enumerated<T>(s: set<T>) returns (list: seq<T>)
    ensures NoDup(list) && Elems(list) == s
    decreases s
  {
    list := [];
    if s != {} {
      var x :| x in s;
      var front := Enumerated(s - {x});
      list := front + [x];
      ElemsAppend(front, x);
    }
  }

  lemma {:induction false} FrontElems<T>(list: seq<T>, j: nat)
    requires NoDup(list) && j < |list|
    ensures Elems(list[..j + 1]) == Elems(list[..j]) + {list[j]}
    ensures list[j] !in Elems(list[..j]) && Elems(list[..j]) <= Elems(list) && list[j] in Elems(list)
  {
    assert list[..j + 1] == list[..j] + [list[j]];
    ElemsAppend(list[..j], list[j]);
  }

  lemma {:induction false} WholeFront<T>(list: seq<T>)
    ensures Elems(list[..|list|]) == Elems(list) && Elems(list[..0]) == {}
  {
    assert list[..|list|] == list;
  }

  /* ---------- Scanning ---------- */

  function Gathered(ats: seq<Location>, j: nat): map<GroupId, Group>
    requires j <= |ats|
  {
    if j == 0 then map[] else AddToGroups(Gathered(ats, j - 1), ats[j - 1])
  }

  ghost function Scanned(w: World, op: nat, ats: seq<Location>, j: nat): World
    requires j <= |ats|
  {
    SetOp(w, op, Scanning(Gathered(ats, j)))
  }

  lemma {:induction false} GatheredGroups(ats: seq<Location>, j: nat)
    requires NoDup(ats) && j <= |ats|
    ensures GroupsOf(Elems(ats[..j]), Gathered(ats, j))
  {
    if j > 0 {
      GatheredGroups(ats, j - 1);
      FrontElems(ats, j - 1);
      hide GroupsOf, AddToGroups;
      AddedToGroups(Elems(ats[..j - 1]), Gathered(ats, j - 1), ats[j - 1]);
    }
  }

  lemma {:induction false} ScanRun(env: Env, w: World, op: nat, ats: seq<Location>, j: nat) returns (worlds: seq<World>, steps: seq<Step>)
    requires Elems(ats) <= w.store.Keys && j <= |ats|
    ensures Leads(env, worlds, steps, Scanned(w, op, ats, 0), Scanned(w, op, ats, j))
  {
    var first := Scanned(w, op, ats, 0);
    if j == 0 {
      worlds, steps := NoSteps(env, first);
    } else {
      worlds, steps := ScanRun(env, w, op, ats, j - 1);
      var before, s := Scanned(w, op, ats, j - 1), ScanKey(op, ats[j - 1]);
      assert ats[j - 1] in Elems(ats);
      hide AddToGroups;
      assert Enabled(env, before, s) && Apply(env, before, s) == Scanned(w, op, ats, j);
      hide Leads, Enabled, Apply, Scanned;
      worlds, steps := OneMore(env, worlds, steps, first, before, s);
    }
  }

  /* ---------- Choosing ---------- */

  /** The candidates of the first j groups. */
  function Candidates(store: ShardStore, unserved: set<GroupId>, groups: map<GroupId, Group>, gs: seq<GroupId>, j: nat): seq<Candidate>
    requires j <= |gs| && forall g :: g in gs ==> g in groups && groups[g].representative in store
  {
    if j == 0 then []
    else
      var before := Candidates(store, unserved, groups, gs, j - 1);
      assert gs[j - 1] in gs;
      if Usable(store, unserved, groups, gs[j - 1]) then before + [CandidateOf(store, groups, gs[j - 1])] else before
  }

  /** These groups are still to be read, and these are the candidates so far. */
  ghost function Chosen(w: World, op: nat, groups: map<GroupId, Group>, pending: set<GroupId>, cs: seq<Candidate>): World {
    SetOp(w, op, Choosing(groups, pending, Winners(cs)))
  }

  lemma {:induction false} CandidatesAre(store: ShardStore, unserved: set<GroupId>, groups: map<GroupId, Group>, gs: seq<GroupId>, j: nat)
    requires RepresentativesStored(store, groups) && NoDup(gs) && Elems(gs) == groups.Keys && j <= |gs|
    ensures Elems(gs[..j]) <= groups.Keys
    ensures forall g :: g in gs ==> g in groups && groups[g].representative in store
    ensures CandidatesOf(store, unserved, groups, Elems(gs[..j]), Candidates(store, unserved, groups, gs, j))
  {
    forall g | g in gs
      ensures g in groups && groups[g].representative in store
    {
      assert g in Elems(gs);
    }
    if j > 0 {
      CandidatesAre(store, unserved, groups, gs, j - 1);
      FrontElems(gs, j - 1);
      CandidatesOneMore(store, unserved, groups, Elems(gs[..j - 1]), Candidates(store, unserved, groups, gs, j - 1), gs[j - 1]);
      hide CandidatesOf, Usable, CandidateOf;
    }
  }

  /** Reading a manifest considers the group's candidate if it is usable. */
  lemma {:induction false} ManifestConsidered(store: ShardStore, unserved: set<GroupId>, groups: map<GroupId, Group>, g: GroupId, cs: seq<Candidate>)
    requires g in groups && groups[g].representative in store
    ensures (if g !in unserved then WithManifest(store, groups, g, Winners(cs)) else Winners(cs)) ==
      Winners(if Usable(store, unserved, groups, g) then cs + [CandidateOf(store, groups, g)] else cs)
  {
    var c := CandidateOf(store, groups, g);
    assert (cs + [c])[..|cs|] == cs;
    hide Consider;
  }

  lemma ReadAt(env: Env, w: World, op: nat, groups: map<GroupId, Group>, pending: set<GroupId>, winners: map<string, Candidate>, g: GroupId, found: bool)
    requires op in w.ops && w.ops[op] == Choosing(groups, pending, winners) && g in pending && g in groups
    requires groups[g].representative in w.store
    ensures Enabled(env, w, ReadManifest(op, g, found))
    ensures Apply(env, w, ReadManifest(op, g, found)) ==
      SetOp(w, op, Choosing(groups, pending - {g}, if found then WithManifest(w.store, groups, g, winners) else winners))
  {
    hide WithManifest;
  }

  lemma ReadStep(env: Env, w: World, op: nat, unserved: set<GroupId>, groups: map<GroupId, Group>, pending: set<GroupId>, cs: seq<Candidate>, g: GroupId)
    requires g in groups && groups[g].representative in w.store && g in pending
    ensures var before, s := Chosen(w, op, groups, pending, cs), ReadManifest(op, g, g !in unserved);
      && Enabled(env, before, s)
      && Apply(env, before, s) ==
        Chosen(w, op, groups, pending - {g}, if Usable(w.store, unserved, groups, g) then cs + [CandidateOf(w.store, groups, g)] else cs)
  {
    hide Enabled, Apply, Winners, WithManifest, CandidateOf, Usable, SetOp;
    var next := if Usable(w.store, unserved, groups, g) then cs + [CandidateOf(w.store, groups, g)] else cs;
    ManifestConsidered(w.store, unserved, groups, g, cs);
    SetTwice(w, op, Choosing(groups, pending, Winners(cs)), Choosing(groups, pending - {g}, Winners(next)));
    ReadAt(env, Chosen(w, op, groups, pending, cs), op, groups, pending, Winners(cs), g, g !in unserved);
  }

  lemma {:induction false} ReadRun(env: Env, w: World, op: nat, unserved: set<GroupId>, groups: map<GroupId, Group>, gs: seq<GroupId>, j: nat)
    returns (worlds: seq<World>, steps: seq<Step>)
    requires NoDup(gs) && Elems(gs) == groups.Keys && j <= |gs|
    requires forall g :: g in gs ==> g in groups && groups[g].representative in w.store
    ensures Leads(env, worlds, steps, Chosen(w, op, groups, groups.Keys, []),
                  Chosen(w, op, groups, groups.Keys - Elems(gs[..j]), Candidates(w.store, unserved, groups, gs, j)))
  {
    hide Leads, Enabled, Apply, Chosen;
    var first := Chosen(w, op, groups, groups.Keys, []);
    if j == 0 {
      WholeFront(gs);
      assert groups.Keys - Elems(gs[..0]) == groups.Keys;
      worlds, steps := NoSteps(env, first);
    } else {
      var g, pending, cs := gs[j - 1], groups.Keys - Elems(gs[..j - 1]), Candidates(w.store, unserved, groups, gs, j - 1);
      worlds, steps := ReadRun(env, w, op, unserved, groups, gs, j - 1);
      FrontElems(gs, j - 1);
      assert groups.Keys - Elems(gs[..j]) == pending - {g};
      ReadStep(env, w, op, unserved, groups, pending, cs, g);
      worlds, steps := OneMore(env, worlds, steps, first, Chosen(w, op, groups, pending, cs), ReadManifest(op, g, g !in unserved));
    }
  }

  /* ---------- Inserting ---------- */

  ghost function Filled(w: World, op: nat, groups: map<GroupId, Group>, winners: map<string, Candidate>, os: seq<string>, j: nat): World
    requires j <= |os|
  {
    SetOp(w, op, Choosing(groups, {}, winners)).(catalog := Inserted(w.catalog, winners, Elems(os[..j])))
  }

  lemma InsertAt(env: Env, w: World, op: nat, groups: map<GroupId, Group>, winners: map<string, Candidate>, o: string)
    requires op in w.ops && w.ops[op] == Choosing(groups, {}, winners) && o in winners
    ensures Enabled(env, w, InsertWinner(op, o))
    ensures Apply(env, w, InsertWinner(op, o)) ==
      w.(catalog := InsertRow(w.catalog, o, winners[o].manifest.meta, RebuiltLocations(winners[o])))
  {
    hide InsertRow, RebuiltLocations;
  }

  lemma {:induction false} InsertRun(env: Env, w: World, op: nat, groups: map<GroupId, Group>, winners: map<string, Candidate>, os: seq<string>, j: nat)
    returns (worlds: seq<World>, steps: seq<Step>)
    requires NoDup(os) && Elems(os) == winners.Keys && j <= |os|
    ensures Leads(env, worlds, steps, Filled(w, op, groups, winners, os, 0), Filled(w, op, groups, winners, os, j))
  {
    hide Leads, Enabled, Apply, Inserted, InsertRow, RebuiltLocations, Storable;
    var first := Filled(w, op, groups, winners, os, 0);
    if j == 0 {
      worlds, steps := NoSteps(env, first);
    } else {
      worlds, steps := InsertRun(env, w, op, groups, winners, os, j - 1);
      FrontElems(os, j - 1);
      var before, o := Filled(w, op, groups, winners, os, j - 1), os[j - 1];
      OneMoreRow(w.catalog, winners, Elems(os[..j - 1]), o);
      if Storable(o, winners[o].manifest.meta) {
        InsertAt(env, before, op, groups, winners, o);
        worlds, steps := OneMore(env, worlds, steps, first, before, InsertWinner(op, o));
      }
    }
  }

  /* ---------- The run ---------- */

  lemma ScanBegins(env: Env, w: World, op: nat, ats: seq<Location>)
    requires op !in w.ops
    ensures Enabled(env, w, ScanBegin(op)) && Apply(env, w, ScanBegin(op)) == Scanned(w, op, ats, 0)
  {
  }

  lemma ScanEndAt(env: Env, w: World, op: nat, groups: map<GroupId, Group>)
    requires op in w.ops && w.ops[op] == Scanning(groups)
    ensures Enabled(env, w, ScanEnd(op)) && Apply(env, w, ScanEnd(op)) == SetOp(w, op, Choosing(groups, groups.Keys, map[]))
  {
  }

  lemma NoWinners()
    ensures Winners([]) == map[]
  {
  }

  lemma SetTwice(w: World, op: nat, x: Op, y: Op)
    ensures SetOp(SetOp(w, op, x), op, y) == SetOp(w, op, y)
    ensures op in SetOp(w, op, x).ops && SetOp(w, op, x).ops[op] == x && SetOp(w, op, x).store == w.store
  {
  }

  lemma {:induction false} ScanEnds(env: Env, w: World, op: nat, ats: seq<Location>)
    ensures var groups := Gathered(ats, |ats|);
      && Enabled(env, Scanned(w, op, ats, |ats|), ScanEnd(op))
      && Apply(env, Scanned(w, op, ats, |ats|), ScanEnd(op)) == Chosen(w, op, groups, groups.Keys, [])
  {
    hide Gathered, Enabled, Apply, Winners, SetOp;
    var groups := Gathered(ats, |ats|);
    NoWinners();
    SetTwice(w, op, Scanning(groups), Choosing(groups, groups.Keys, map[]));
    ScanEndAt(env, Scanned(w, op, ats, |ats|), op, groups);
  }

  lemma {:induction false} AllChosen(w: World, op: nat, groups: map<GroupId, Group>, cs: seq<Candidate>, gs: seq<GroupId>, os: seq<string>)
    requires Elems(gs) == groups.Keys
    ensures Chosen(w, op, groups, groups.Keys - Elems(gs[..|gs|]), cs) == Filled(w, op, groups, Winners(cs), os, 0)
  {
    WholeFront(gs);
    WholeFront(os);
    hide Winners, RebuiltRow;
    assert Inserted(w.catalog, Winners(cs), {}) == w.catalog;
    assert groups.Keys - Elems(gs) == {};
  }

  /**
   A reindex that nothing disturbs, from any world, over any nodes that answer and any manifests
   that do not come: the run exists, it leaves the shards and the other operations as they were, and
   its catalog is the one that a pass over those shards leaves.
   */
  lemma ReindexRun(env: Env, w: World, op: nat, nodes: set<string>, unserved: set<GroupId>)
    returns (worlds: seq<World>, steps: seq<Step>, last: World, pass: Pass)
    requires op !in w.ops
    ensures Leads(env, worlds, steps, w, last) && last == w.(catalog := last.catalog)
    ensures pass.nodes == nodes && pass.unserved == unserved && Rebuilds(w.store, pass, w.catalog, last.catalog)
  {
    var ats := Enumerated(Visible(w.store, nodes));
    var groups := Gathered(ats, |ats|);
    GatheredGroups(ats, |ats|);
    WholeFront(ats);
    assert RepresentativesStored(w.store, groups);
    var gs := Enumerated(groups.Keys);
    WholeFront(gs);
    CandidatesAre(w.store, unserved, groups, gs, |gs|);
    pass := Pass(nodes, unserved, groups, Candidates(w.store, unserved, groups, gs, |gs|));
    var winners := pass.Winners();
    var os := Enumerated(winners.Keys);
    WholeFront(os);
    last := w.(catalog := Inserted(w.catalog, winners, winners.Keys));
    assert Rebuilds(w.store, pass, w.catalog, last.catalog);
    worlds, steps := ReindexSteps(env, w, op, unserved, ats, gs, os, winners);
  }

  lemma ReindexEnds(env: Env, w: World, op: nat, groups: map<GroupId, Group>, winners: map<string, Candidate>, os: seq<string>)
    requires op !in w.ops
    ensures var before := Filled(w, op, groups, winners, os, |os|);
      Enabled(env, before, Abort(op)) && Apply(env, before, Abort(op)) == w.(catalog := Inserted(w.catalog, winners, Elems(os)))
  {
    WholeFront(os);
    hide Inserted, Elems;
    assert w.ops[op := Choosing(groups, {}, winners)] - {op} == w.ops;
  }

  lemma ReindexSteps(env: Env, w: World, op: nat, unserved: set<GroupId>, ats: seq<Location>, gs: seq<GroupId>, os: seq<string>,
                     winners: map<string, Candidate>)
    returns (worlds: seq<World>, steps: seq<Step>)
    requires op !in w.ops && Elems(ats) <= w.store.Keys
    requires NoDup(gs) && Elems(gs) == Gathered(ats, |ats|).Keys
    requires forall g :: g in gs ==> g in Gathered(ats, |ats|) && Gathered(ats, |ats|)[g].representative in w.store
    requires winners == Winners(Candidates(w.store, unserved, Gathered(ats, |ats|), gs, |gs|))
    requires NoDup(os) && Elems(os) == winners.Keys
    ensures Leads(env, worlds, steps, w, w.(catalog := Inserted(w.catalog, winners, winners.Keys)))
  {
    var groups := Gathered(ats, |ats|);
    var cs := Candidates(w.store, unserved, groups, gs, |gs|);
    hide Leads, Enabled, Apply, Scanned, Chosen, Filled, Inserted, Winners, Candidates, Gathered;
    ScanEnds(env, w, op, ats);
    AllChosen(w, op, groups, cs, gs, os);
    ReindexEnds(env, w, op, groups, winners, os);
    ScanBegins(env, w, op, ats);
    worlds, steps := NoSteps(env, w);
    worlds, steps := OneMore(env, worlds, steps, w, w, ScanBegin(op));
    var b, t := ScanRun(env, w, op, ats, |ats|);
    worlds, steps := Joined(env, worlds, steps, b, t, w, Scanned(w, op, ats, 0), Scanned(w, op, ats, |ats|));
    worlds, steps := OneMore(env, worlds, steps, w, Scanned(w, op, ats, |ats|), ScanEnd(op));
    b, t := ReadRun(env, w, op, unserved, groups, gs, |gs|);
    worlds, steps := Joined(env, worlds, steps, b, t, w, Chosen(w, op, groups, groups.Keys, []), Filled(w, op, groups, winners, os, 0));
    b, t := InsertRun(env, w, op, groups, winners, os, |os|);
    worlds, steps := Joined(env, worlds, steps, b, t, w, Filled(w, op, groups, winners, os, 0), Filled(w, op, groups, winners, os, |os|));
    worlds, steps := OneMore(env, worlds, steps, w, Filled(w, op, groups, winners, os, |os|), Abort(op));
  }
}
