/**
 Why the fence needs its hypothesis. Removing an object restarts its versions,
 so as many puts as the version counts bring the version back, and whatever was
 about to commit over it commits over another row. In between the two SELECTs of
 one reading the same gives a reading of two rows.
 */
module FenceLimits {
  import opened ErasureCodec
  import opened KeyRing
  import opened MetadataStore
  import opened Shards
  import opened Protocol
  import opened Fence
  import opened Runs

  function Tokens(us: seq<Upload>): set<string> {
    if us == [] then {} else Tokens(us[..|us| - 1]) + {us[|us| - 1].token}
  }

  function Deks(us: seq<Upload>): set<Dek> {
    if us == [] then {} else Deks(us[..|us| - 1]) + {us[|us| - 1].put.dek}
  }

  /** Puts of one object that can follow each other, each under a token and a DEK of its own. */
  ghost predicate CanFollow(w: World, us: seq<Upload>, id: string) {
    us != [] ==>
      var front, last := us[..|us| - 1], us[|us| - 1];
      && CanFollow(w, front, id)
      && CanBegin(w, last) && last.put.objectId == id
      && last.token !in Tokens(front) && last.put.dek !in Deks(front)
  }

  /** Whether puts can follow depends on the active key and on what has been put. */
  lemma {:induction false} StillFollow(w: World, w': World, us: seq<Upload>, id: string)
    requires CanFollow(w, us, id)
    requires w'.active == w.active && w'.ring == w.ring && w'.history == w.history
    ensures CanFollow(w', us, id)
  {
    hide Fits;
    if us != [] {
      StillFollow(w, w', us[..|us| - 1], id);
    }
  }

  ghost function AfterPuts(env: Env, w: World, us: seq<Upload>, id: string): World
    requires CanFollow(w, us, id)
  {
    if us == [] then w else AfterPut(env, AfterPuts(env, w, us[..|us| - 1], id), us[|us| - 1])
  }

  /** A number of puts record their tokens and DEKs, and keep those that were there. */
  lemma {:induction false} AfterPutsHistory(env: Env, w: World, us: seq<Upload>, id: string)
    requires CanFollow(w, us, id)
    ensures var h, h' := w.history, AfterPuts(env, w, us, id).history;
      && h'.puts.Keys == h.puts.Keys + Tokens(us)
      && h'.deks.Keys == h.deks.Keys + Deks(us)
      && (forall d :: d in h.deks ==> h'.deks[d] == h.deks[d])
  {
    hide Uploaded, MetaOf, Locations, PutRow;
    if us != [] {
      AfterPutsHistory(env, w, us[..|us| - 1], id);
    }
  }

  /** The version grows by their number, and the row is the last one's. */
  lemma {:induction false} AfterPutsRow(env: Env, w: World, us: seq<Upload>, id: string)
    requires CanFollow(w, us, id)
    ensures var last := AfterPuts(env, w, us, id);
      && last.ops == w.ops && last.ring == w.ring && last.active == w.active
      && (us == [] ==> last == w)
      && (us != [] ==>
            id in last.catalog
            && last.catalog[id] == Row(MetaOf(env, us[|us| - 1].put), Locations(us[|us| - 1]),
                                       |us| + (if id in w.catalog then w.catalog[id].version else 0)))
  {
    hide Uploaded, MetaOf, Locations, Recorded;
    if us != [] {
      AfterPutsRow(env, w, us[..|us| - 1], id);
    }
  }

  lemma {:induction false} PutRuns(env: Env, w: World, op: nat, us: seq<Upload>, id: string) returns (worlds: seq<World>, steps: seq<Step>)
    requires op !in w.ops && CanFollow(w, us, id)
    ensures Leads(env, worlds, steps, w, AfterPuts(env, w, us, id))
  {
    hide Leads, AfterPut;
    if us == [] {
      worlds, steps := NoSteps(env, w);
    } else {
      var front, last := us[..|us| - 1], us[|us| - 1];
      var a, s := PutRuns(env, w, op, front, id);
      AfterPutsHistory(env, w, front, id);
      AfterPutsRow(env, w, front, id);
      var middle := AfterPuts(env, w, front, id);
      var b, t := PutRun(env, middle, op, last);
      worlds, steps := Joined(env, a, s, b, t, w, middle, AfterPut(env, middle, last));
    }
  }

  lemma {:induction false} AboveAll(s: set<nat>) returns (n: nat)
    ensures forall x :: x in s ==> x < n
    decreases |s|
  {
    if s == {} {
      n := 0;
    } else {
      var x :| x in s;
      var rest := AboveAll(s - {x});
      n := if x < rest then rest else x + 1;
      assert forall y :: y in s ==> y == x || y in s - {x};
    }
  }

  /** A token longer than any of these. */
  lemma FreshToken(used: set<string>) returns (token: string)
    ensures token !in used
  {
    var lengths: set<nat> := set t | t in used :: |t|;
    var n := AboveAll(lengths);
    token := seq(n, i => 'v');
    assert token in used ==> |token| in lengths;
  }

  /** In any world, any number of puts of any object, with any data that fits and any nodes, can follow each other. */
  lemma {:induction false} PutsCanFollow(w: World, id: string, n: nat, data: Bytes, spec: ErasureSpec, nodes: seq<string>)
    returns (us: seq<Upload>)
    requires w.active in w.ring && id != "" && data != [] && Fits(data, spec) && |nodes| == spec.Total()
    ensures CanFollow(w, us, id) && |us| == n
    ensures forall i :: 0 <= i < n ==> us[i].put.data == data && us[i].put.spec == spec && us[i].nodes == nodes
  {
    hide Fits;
    us := [];
    if n > 0 {
      var front := PutsCanFollow(w, id, n - 1, data, spec, nodes);
      var token := FreshToken(w.history.puts.Keys + Tokens(front));
      var dek := AboveAll(w.history.deks.Keys + Deks(front));
      us := front + [Upload(token, PutRecord(id, data, spec, dek, w.ring[w.active], w.active), 0, nodes)];
      assert us[..n - 1] == front;
      assert token !in w.history.puts.Keys + Tokens(front) && dek !in w.history.deks.Keys + Deks(front);
    }
  }

  /** After a remove and as many puts as the version counted, the commit of a repair or rebalance is still on. */
  ghost function Overtaken(env: Env, w: World, us: seq<Upload>, id: string): World
    requires CanFollow(w, us, id)
  {
    StillFollow(w, AfterRemove(w, id), us, id);
    AfterPuts(env, AfterRemove(w, id), us, id)
  }

  lemma {:induction false} OvertakenFacts(env: Env, w: World, us: seq<Upload>, id: string)
    requires CanFollow(w, us, id) && us != []
    ensures var last := Overtaken(env, w, us, id);
      && last.ops == w.ops && id in last.catalog
      && last.catalog[id] == Row(MetaOf(env, us[|us| - 1].put), Locations(us[|us| - 1]), |us|)
      && (forall d :: d in w.history.deks ==> d in last.history.deks && last.history.deks[d] == w.history.deks[d])
  {
    StillFollow(w, AfterRemove(w, id), us, id);
    AfterPutsHistory(env, AfterRemove(w, id), us, id);
    AfterPutsRow(env, AfterRemove(w, id), us, id);
  }

  lemma OvertakenRun(env: Env, w: World, op: nat, us: seq<Upload>, id: string) returns (worlds: seq<World>, steps: seq<Step>)
    requires op !in w.ops && id in w.catalog && CanFollow(w, us, id)
    ensures Leads(env, worlds, steps, w, Overtaken(env, w, us, id))
  {
    hide Leads;
    StillFollow(w, AfterRemove(w, id), us, id);
    var a, s := RemoveRun(env, w, op, id);
    var b, t := PutRuns(env, AfterRemove(w, id), op, us, id);
    worlds, steps := Joined(env, a, s, b, t, w, AfterRemove(w, id), Overtaken(env, w, us, id));
  }

  /**
   Without the hypothesis the fence fails, at every version and for repair and rebalance alike.
   Take any world in which one of them is about to commit over version v. If the object is removed
   and put v times first, the commit still goes through, and the row of the last put is lost.
   */
  lemma StaleCommitAfterRemove(env: Env, w: World, s: Step, op: nat, us: seq<Upload>) returns (worlds: seq<World>, steps: seq<Step>)
    requires Enabled(env, w, s) && CommitSucceeds(w, s) && op !in w.ops
    requires var snap := CommitSnapshot(w, s).value;
      CanFollow(w, us, snap.id) && |us| == snap.row.version > 0
    ensures var snap := CommitSnapshot(w, s).value;
      var last := Overtaken(env, w, us, snap.id);
      && Leads(env, worlds, steps, w, last)
      && snap.id in last.catalog && last.catalog[snap.id].meta == MetaOf(env, us[|us| - 1].put)
      && Enabled(env, last, s) && CommitSucceeds(last, s)
      && snap.id in Apply(env, last, s).catalog && Apply(env, last, s).catalog[snap.id].meta == snap.row.meta
  {
    var snap := CommitSnapshot(w, s).value;
    var last := Overtaken(env, w, us, snap.id);
    worlds, steps := OvertakenRun(env, w, op, us, snap.id);
    OvertakenFacts(env, w, us, snap.id);
    hide Leads, Overtaken, CanFollow;
    StillEnabled(env, w, last, s);
    assert CommitSnapshot(last, s) == CommitSnapshot(w, s);
    hide Enabled, Apply;
    CommitRaisesVersion(env, last, s);
  }

  /** Whether a commit is enabled depends on its operation alone. */
  lemma StillEnabled(env: Env, w: World, w': World, s: Step)
    requires CommitSnapshot(w, s).Some? && Enabled(env, w, s) && w'.ops == w.ops
    ensures Enabled(env, w', s)
  {
  }

  /* ---------- A reading of two rows ---------- */

  /** The reading: the columns of the removed row, the locations of the last put. */
  ghost function TornSnapshot(w: World, us: seq<Upload>, id: string): Snapshot
    requires id in w.catalog && us != []
  {
    Snapshot(id, w.catalog[id].(locations := Locations(us[|us| - 1])), w.catalog[id], |w.removed|)
  }

  ghost function Torn(env: Env, w: World, op: nat, us: seq<Upload>, id: string): World
    requires id in w.catalog && us != [] && CanFollow(w, us, id)
  {
    StillFollow(w, ReadingRow(w, op, id), us, id);
    SetOp(Overtaken(env, ReadingRow(w, op, id), us, id), op, Fresh(TornSnapshot(w, us, id)))
  }

  ghost function ReadingRow(w: World, op: nat, id: string): World
    requires id in w.catalog
  {
    SetOp(w, op, Reading(ForRebalance, id, w.catalog[id], |w.removed|))
  }

  lemma {:induction false} TornSelect(env: Env, w: World, op: nat, us: seq<Upload>, id: string)
    requires id in w.catalog && us != [] && CanFollow(w, us, id)
    ensures CanFollow(ReadingRow(w, op, id), us, id)
    ensures var before := Overtaken(env, ReadingRow(w, op, id), us, id);
      Enabled(env, before, SelectLocations(op)) && Apply(env, before, SelectLocations(op)) == Torn(env, w, op, us, id)
  {
    StillFollow(w, ReadingRow(w, op, id), us, id);
    OvertakenFacts(env, ReadingRow(w, op, id), us, id);
    hide Overtaken, Locations, MetaOf, CanFollow, Enabled, Apply;
    SelectStep(env, Overtaken(env, ReadingRow(w, op, id), us, id), op);
  }

  /** What the second SELECT of a rebalance does. */
  lemma SelectStep(env: Env, w: World, op: nat)
    requires op in w.ops && w.ops[op].Reading? && w.ops[op].purpose == ForRebalance && w.ops[op].id in w.catalog
    ensures Enabled(env, w, SelectLocations(op))
    ensures var o := w.ops[op];
      Apply(env, w, SelectLocations(op))
        == SetOp(w, op, Fresh(Snapshot(o.id, o.seen.(locations := w.catalog[o.id].locations), o.seen, o.mark)))
  {
  }

  /**
   Nor are the two SELECTs of one reading a snapshot. If a remove and as many puts as the version
   counted fall between them, a rebalance holds the metadata of one put with the locations of
   another, at a version that its commit will find.
   */
  lemma TornRead(env: Env, w: World, op: nat, other: nat, us: seq<Upload>, id: string) returns (worlds: seq<World>, steps: seq<Step>)
    requires op !in w.ops && other !in w.ops && op != other
    requires id in w.catalog && CanFollow(w, us, id) && |us| == w.catalog[id].version > 0
    ensures Leads(env, worlds, steps, w, Torn(env, w, op, us, id))
    ensures VersionMatches(Torn(env, w, op, us, id).catalog, id, TornSnapshot(w, us, id).row.version)
    ensures forall d :: d in w.history.deks ==>
      d in Torn(env, w, op, us, id).history.deks && Torn(env, w, op, us, id).history.deks[d] == w.history.deks[d]
  {
    var w1 := ReadingRow(w, op, id);
    StillFollow(w, w1, us, id);
    var before := Overtaken(env, w1, us, id);
    assert Enabled(env, w, SelectRow(op, ForRebalance, id)) && Apply(env, w, SelectRow(op, ForRebalance, id)) == w1;
    OvertakenFacts(env, w1, us, id);
    TornSelect(env, w, op, us, id);
    hide Leads, Enabled, Apply, Overtaken;
    worlds, steps := NoSteps(env, w);
    worlds, steps := OneMore(env, worlds, steps, w, w, SelectRow(op, ForRebalance, id));
    var b, t := OvertakenRun(env, w1, other, us, id);
    worlds, steps := Joined(env, worlds, steps, b, t, w, w1, before);
    worlds, steps := OneMore(env, worlds, steps, w, before, SelectLocations(op));
  }

  /** The world when the row was read, and then removed before its locations were. */
  ghost function ReadThenRemoved(w: World, op: nat, purpose: Purpose, id: string): World
    requires id in w.catalog
  {
    AfterRemove(SetOp(w, op, Reading(purpose, id, w.catalog[id], |w.removed|)), id)
  }

  lemma SelectAfterRemove(env: Env, w: World, op: nat, purpose: Purpose, id: string) returns (last: World, snap: Snapshot)
    requires op !in w.ops && id in w.catalog
    ensures var before := ReadThenRemoved(w, op, purpose, id);
      Enabled(env, before, SelectLocations(op)) && last == Apply(env, before, SelectLocations(op))
    ensures id !in last.catalog && op in last.ops && last.ops[op] == AfterSelect(purpose, snap)
    ensures snap.id == id && snap.row == w.catalog[id].(locations := [])
  {
    var before := ReadThenRemoved(w, op, purpose, id);
    last := Apply(env, before, SelectLocations(op));
    snap := Snapshot(id, w.catalog[id].(locations := []), w.catalog[id], |w.removed|);
  }

  /**
   A remove between the two SELECTs, from any world with a row: the reading has the row's columns
   and no location, and there is nothing that a get or a repair or a rebalance could do with it.
   */
  lemma ReadAcrossRemove(env: Env, w: World, op: nat, other: nat, purpose: Purpose, id: string)
    returns (worlds: seq<World>, steps: seq<Step>, last: World, snap: Snapshot)
    requires op !in w.ops && other !in w.ops && op != other && id in w.catalog
    ensures Leads(env, worlds, steps, w, last)
    ensures id !in last.catalog && op in last.ops && last.ops[op] == AfterSelect(purpose, snap)
    ensures snap.id == id && snap.row == w.catalog[id].(locations := [])
    ensures forall i :: !Enabled(env, last, GetFetch(op, i))
    ensures forall i, target :: !Enabled(env, last, MoveFetch(op, i, target))
    ensures forall found :: !Enabled(env, last, Probe(op, found))
    ensures !Enabled(env, last, RepairStart(op)) && !Enabled(env, last, MoveCommit(op))
  {
    var w1 := SetOp(w, op, Reading(purpose, id, w.catalog[id], |w.removed|));
    assert Enabled(env, w, SelectRow(op, purpose, id)) && Apply(env, w, SelectRow(op, purpose, id)) == w1;
    last, snap := SelectAfterRemove(env, w, op, purpose, id);
    NothingToDo(env, last, op, purpose, snap);
    hide Leads, Enabled, Apply, AfterRemove;
    worlds, steps := NoSteps(env, w);
    worlds, steps := OneMore(env, worlds, steps, w, w, SelectRow(op, purpose, id));
    var b, t := RemoveRun(env, w1, other, id);
    worlds, steps := Joined(env, worlds, steps, b, t, w, w1, AfterRemove(w1, id));
    worlds, steps := OneMore(env, worlds, steps, w, AfterRemove(w1, id), SelectLocations(op));
  }

  lemma NothingToDo(env: Env, w: World, op: nat, purpose: Purpose, snap: Snapshot)
    requires op in w.ops && w.ops[op] == AfterSelect(purpose, snap) && snap.row.locations == []
    ensures forall i :: !Enabled(env, w, GetFetch(op, i))
    ensures forall i, target :: !Enabled(env, w, MoveFetch(op, i, target))
    ensures forall found :: !Enabled(env, w, Probe(op, found))
    ensures !Enabled(env, w, RepairStart(op)) && !Enabled(env, w, MoveCommit(op))
  {
  }
}
