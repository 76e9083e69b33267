/**
 What each step does to the catalog, as a change that can be applied to another
 catalog as well: how a run looks with the steps of one operation left out.
 */
module CatalogChanges {
  import opened MetadataStore
  import opened Shards
  import opened Reindex
  import opened Protocol

  datatype Change =
    | NoChange
    | PutChange(id: string, meta: Meta, locations: seq<Location>)
    | CommitChange(id: string, meta: Meta, locations: seq<Location>, expected: nat)
    | InsertChange(id: string, meta: Meta, locations: seq<Location>)
    | RemoveChange(id: string)

  function Act(c: Change, catalog: Catalog<Location>): Catalog<Location> {
    match c
    case NoChange => catalog
    case PutChange(id, meta, locations) => PutRow(catalog, id, meta, locations)
    case CommitChange(id, meta, locations, expected) => ConditionalPutRow(catalog, id, meta, locations, expected)
    case InsertChange(id, meta, locations) => InsertRow(catalog, id, meta, locations)
    case RemoveChange(id) => RemoveRow(catalog, id)
  }

  ghost function ChangeOf(env: Env, w: World, s: Step): Change {
    if !Enabled(env, w, s) then NoChange
    else if s.PutCommit? then
      var o := w.ops[s.op];
      PutChange(o.put.objectId, MetaOf(env, o.put), PutLocations(o.put.objectId, o.token, o.nodes))
    else if s.RemoveCommit? then RemoveChange(w.ops[s.op].snap.id)
    else if s.RepairCommit? then
      var o := w.ops[s.op];
      CommitChange(o.snap.id, o.snap.row.meta, RepairedLocations(o.snap, o.targets), o.snap.row.version)
    else if s.MoveCommit? then
      var o := w.ops[s.op];
      CommitChange(o.snap.id, o.snap.row.meta, MovedLocations(o.snap, o.targets), o.snap.row.version)
    else if s.InsertWinner? then
      var c := w.ops[s.op].winners[s.objectId];
      InsertChange(s.objectId, c.manifest.meta, RebuiltLocations(c))
    else NoChange
  }

  /** The step acts on the catalog by its change and logs a removal; only the beginning of a put is recorded. */
  ghost predicate Acts(env: Env, w: World, s: Step) {
    var c, w' := ChangeOf(env, w, s), Apply(env, w, s);
    && w'.catalog == Act(c, w.catalog)
    && w'.removed == (if c.RemoveChange? then w.removed + [c.id] else w.removed)
    && (!s.PutBegin? ==> w'.history == w.history)
  }

  lemma HealStepActs(env: Env, w: World, s: Step)
    requires Enabled(env, w, s) && HealStep(s)
    ensures Acts(env, w, s)
  {
    hide Reencoded, ReadOutcome, MovedLocations, RepairedLocations, ConditionalPutRow;
  }

  lemma ScanStepActs(env: Env, w: World, s: Step)
    requires Enabled(env, w, s) && ScanStep(s)
    ensures Acts(env, w, s)
  {
    hide AddToGroups, WithManifest, RebuiltLocations, InsertRow;
  }

  lemma UserStepActs(env: Env, w: World, s: Step)
    requires Enabled(env, w, s) && !HealStep(s) && !ScanStep(s)
    ensures Acts(env, w, s)
  {
    hide ReadOutcome, PutLocations, PutRow, RemoveRow;
  }

  lemma StepActs(env: Env, w: World, s: Step)
    requires Enabled(env, w, s)
    ensures Acts(env, w, s)
  {
    hide Acts, Enabled, Apply;
    if HealStep(s) {
      HealStepActs(env, w, s);
    } else if ScanStep(s) {
      ScanStepActs(env, w, s);
    } else {
      UserStepActs(env, w, s);
    }
  }

  /* ---------- Row by row ---------- */

  ghost predicate SameRow(a: Catalog<Location>, b: Catalog<Location>, id: string) {
    (id in a <==> id in b) && (id in a ==> a[id] == b[id])
  }

  /** What a change makes of a row depends on that row alone. */
  lemma ActIsRowLocal(c: Change, a: Catalog<Location>, b: Catalog<Location>, id: string)
    requires SameRow(a, b, id)
    ensures SameRow(Act(c, a), Act(c, b), id)
  {
  }

  /** The change itself depends on the operations alone. */
  lemma ChangeIsOfOperation(env: Env, w: World, w': World, s: Step)
    requires Enabled(env, w, s) && Enabled(env, w', s) && w'.ops == w.ops
    ensures ChangeOf(env, w', s) == ChangeOf(env, w, s)
  {
  }

  /** In two worlds with the same operations, a step makes the same of a row that is the same, whatever the other rows. */
  lemma StepIsRowLocal(env: Env, w: World, w': World, s: Step, id: string)
    requires Enabled(env, w, s) && Enabled(env, w', s) && w'.ops == w.ops && SameRow(w.catalog, w'.catalog, id)
    ensures SameRow(Apply(env, w, s).catalog, Apply(env, w', s).catalog, id)
  {
    hide Enabled, Apply, ChangeOf, Act, SameRow;
    StepActs(env, w, s);
    StepActs(env, w', s);
    ChangeIsOfOperation(env, w, w', s);
    ActIsRowLocal(ChangeOf(env, w, s), w.catalog, w'.catalog, id);
  }

  /* ---------- Versions start at one ---------- */

  ghost predicate PositiveVersions(catalog: Catalog<Location>) {
    forall id :: id in catalog ==> catalog[id].version > 0
  }

  lemma {:induction false} VersionsStartAtOne(env: Env, worlds: seq<World>, steps: seq<Step>, n: nat)
    requires IsRun(env, worlds, steps) && Init(worlds[0]) && n <= |steps|
    ensures PositiveVersions(worlds[n].catalog)
  {
    hide Apply, Enabled;
    if n > 0 {
      var w, s := worlds[n - 1], steps[n - 1];
      VersionsStartAtOne(env, worlds, steps, n - 1);
      assert Enabled(env, w, s);
      StepActs(env, w, s);
      hide ChangeOf;
    }
  }
}
