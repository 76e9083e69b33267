/**
 The object catalog. The functions are the effect of each transaction on the rows;
 the class is the store itself, with its two tables, and is proved against them.
 */
module MetadataStore {
  import opened Wrappers
  import opened Collections
  import opened ErasureCodec
  import opened KeyRing

  const INT64_MAX: nat := 0x7fff_ffff_ffff_ffff

  /** Everything a row says about the object itself. */
  datatype Meta = Meta(size: nat, checksum: string, erasure: ErasureSpec, encryptedDek: WrappedDek, kekId: string)

  /** A row, with its positional locations; L is the form of a location. */
  datatype Row<L> = Row(meta: Meta, locations: seq<L>, version: nat)

  type Catalog<L> = map<string, Row<L>>

  datatype StoreError = EmptyId | EmptyChecksum | EmptyLocation | SizeTooLarge

  /* ---------- Transactions ---------- */

  function PutRow<L>(catalog: Catalog<L>, id: string, meta: Meta, locations: seq<L>): Catalog<L> {
    catalog[id := Row(meta, locations, if id in catalog then catalog[id].version + 1 else 1)]
  }

  predicate VersionMatches<L>(catalog: Catalog<L>, id: string, expected: nat) {
    id in catalog && catalog[id].version == expected
  }

  function ConditionalPutRow<L>(catalog: Catalog<L>, id: string, meta: Meta, locations: seq<L>, expected: nat): Catalog<L> {
    if VersionMatches(catalog, id, expected) then PutRow(catalog, id, meta, locations) else catalog
  }

  function InsertRow<L>(catalog: Catalog<L>, id: string, meta: Meta, locations: seq<L>): Catalog<L> {
    if id in catalog then catalog else PutRow(catalog, id, meta, locations)
  }

  function RemoveRow<L>(catalog: Catalog<L>, id: string): Catalog<L> {
    catalog - {id}
  }

  /** checked_size_to_i64 and validate_metadata. */
  function ValidationError(id: string, meta: Meta, locations: seq<string>): Option<StoreError> {
    if id == "" then Some(EmptyId)
    else if meta.checksum == "" then Some(EmptyChecksum)
    else if "" in locations then Some(EmptyLocation)
    else if meta.size > INT64_MAX then Some(SizeTooLarge)
    else None
  }

  /* ---------- Listing ---------- */

  /** A row of the left join: the object's columns and one location, or none. */
  datatype JoinRow = JoinRow(id: string, meta: Meta, version: nat, location: Option<string>)

  datatype Listed = Listed(id: string, row: Row<string>)

  /** The join rows of one object, by shard index. */
  function ObjectJoin(id: string, row: Row<string>): seq<JoinRow> {
    if row.locations == [] then [JoinRow(id, row.meta, row.version, None)]
    else seq(|row.locations|, i requires 0 <= i < |row.locations| => JoinRow(id, row.meta, row.version, Some(row.locations[i])))
  }

  /** The join ordered by (id, shard_index), for ids in the order in which they sort. */
  function Join(catalog: Catalog<string>, ids: seq<string>): seq<JoinRow>
    requires Elems(ids) <= catalog.Keys
  {
    if ids == [] then []
    else
      var last := ids[|ids| - 1];
      assert last in Elems(ids);
      Join(catalog, ids[..|ids| - 1]) + ObjectJoin(last, catalog[last])
  }

  /** get on each id, in order. */
  function GetEach(catalog: Catalog<string>, ids: seq<string>): seq<Listed>
    requires Elems(ids) <= catalog.Keys
  {
    seq(|ids|, i requires 0 <= i < |ids| => assert ids[i] in Elems(ids); Listed(ids[i], catalog[ids[i]]))
  }

  function LocationPart(row: JoinRow): seq<string> {
    if row.location.Some? then [row.location.value] else []
  }

  /** One step of the grouping pass: a new object when the id changes, and the location appended to the last one. */
  function GroupStep(objects: seq<Listed>, row: JoinRow): seq<Listed> {
    if objects == [] || objects[|objects| - 1].id != row.id then
      objects + [Listed(row.id, Row(row.meta, LocationPart(row), row.version))]
    else
      var last := objects[|objects| - 1];
      objects[..|objects| - 1] + [Listed(last.id, last.row.(locations := last.row.locations + LocationPart(row)))]
  }

  function Grouped(rows: seq<JoinRow>): seq<Listed> {
    if rows == [] then [] else GroupStep(Grouped(rows[..|rows| - 1]), rows[|rows| - 1])
  }

  /** The first n join rows of an object, after rows of other objects, group into one listed object. */
  lemma {:induction false} GroupObject(before: seq<JoinRow>, id: string, row: Row<string>, n: nat)
    requires 0 < n <= |ObjectJoin(id, row)|
    requires Grouped(before) == [] || Grouped(before)[|Grouped(before)| - 1].id != id
    ensures Grouped(before + ObjectJoin(id, row)[..n]) ==
      Grouped(before) + [Listed(id, Row(row.meta, Take(row.locations, n), row.version))]
  {
    hide Grouped;
    var rows := ObjectJoin(id, row);
    GroupedAppend(before, rows, n - 1);
    if n == 1 {
      assert before + rows[..0] == before;
      assert Take(row.locations, 1) == LocationPart(rows[0]);
    } else {
      hide GroupStep;
      GroupObject(before, id, row, n - 1);
      GroupStepSame(Grouped(before), Listed(id, Row(row.meta, Take(row.locations, n - 1), row.version)), rows[n - 1]);
      assert Take(row.locations, n) == Take(row.locations, n - 1) + [row.locations[n - 1]];
    }
  }

  lemma GroupStepSame(objects: seq<Listed>, last: Listed, row: JoinRow)
    requires last.id == row.id
    ensures GroupStep(objects + [last], row) ==
      objects + [Listed(last.id, last.row.(locations := last.row.locations + LocationPart(row)))]
  {
    assert (objects + [last])[..|objects|] == objects;
  }

  lemma {:induction false} GroupedAppend(before: seq<JoinRow>, rows: seq<JoinRow>, n: nat)
    requires n < |rows|
    ensures Grouped(before + rows[..n + 1]) == GroupStep(Grouped(before + rows[..n]), rows[n])
  {
    var all := before + rows[..n + 1];
    assert all[..|all| - 1] == before + rows[..n] && all[|all| - 1] == rows[n];
  }

  /** Grouping the join in one pass gives what a get on each id gives, objects without locations included. */
  lemma {:induction false} GroupedJoin(catalog: Catalog<string>, ids: seq<string>)
    requires Elems(ids) <= catalog.Keys && NoDup(ids)
    ensures Grouped(Join(catalog, ids)) == GetEach(catalog, ids)
  {
    hide Grouped, GroupStep, ObjectJoin;
    if ids == [] {
      assert Grouped([]) == [] by { NothingGrouped(); }
    } else {
      var front, last := ids[..|ids| - 1], ids[|ids| - 1];
      assert last in Elems(ids) && Elems(front) <= Elems(ids);
      GroupedJoin(catalog, front);
      assert last !in front;
      GroupLast(Join(catalog, front), last, catalog[last]);
    }
  }

  lemma NothingGrouped()
    ensures Grouped([]) == []
  {
  }

  /** The join rows of one more object add one listed object, with all its locations. */
  lemma {:induction false} GroupLast(before: seq<JoinRow>, id: string, row: Row<string>)
    requires Grouped(before) == [] || Grouped(before)[|Grouped(before)| - 1].id != id
    ensures Grouped(before + ObjectJoin(id, row)) == Grouped(before) + [Listed(id, row)]
  {
    var rows := ObjectJoin(id, row);
    assert rows[..|rows|] == rows;
    GroupObject(before, id, row, |rows|);
    assert row.locations[..|row.locations|] == row.locations;
  }

  /** GroupStep as two updates of the list: open an object, then append a location to the last one. */
  lemma GroupStepInPlace(before: seq<Listed>, row: JoinRow)
    ensures var begun := if before == [] || before[|before| - 1].id != row.id
                          then before + [Listed(row.id, Row(row.meta, [], row.version))] else before;
      var last := begun[|begun| - 1];
      GroupStep(before, row) ==
        if row.location == None then begun
        else begun[|begun| - 1 := Listed(last.id, last.row.(locations := last.row.locations + [row.location.value]))]
  {
    if before != [] && before[|before| - 1].id == row.id {
      var last := before[|before| - 1];
      assert last.row.locations + [] == last.row.locations;
      assert before[..|before| - 1] + [last] == before;
    } else {
      assert forall l: string :: [] + [l] == [l];
    }
  }

  /** The assembly loop of list. */
  method GroupRows(rows: seq<JoinRow>) returns (objects: seq<Listed>)
    ensures objects == Grouped(rows)
  {
    objects := [];
    for i := 0 to |rows|
      invariant objects == Grouped(rows[..i])
    {
      var row := rows[i];
      assert rows[..i + 1][..i] == rows[..i];
      ghost var before := objects;
      if objects == [] || objects[|objects| - 1].id != row.id {
        objects := objects + [Listed(row.id, Row(row.meta, [], row.version))];
      }
      if row.location.Some? {
        var last := objects[|objects| - 1];
        objects := objects[|objects| - 1 := Listed(last.id, last.row.(locations := last.row.locations + [row.location.value]))];
      }
      GroupStepInPlace(before, row);
    }
    assert rows[..|rows|] == rows;
  }

  /* ---------- The tables ---------- */

  /** The primary key of object_shard_locations. */
  datatype Slot = Slot(objectId: string, index: nat)

  datatype ObjectRow = ObjectRow(meta: Meta, version: nat)

  /** Each object's locations are numbered from 0 without gaps, and belong to an object (the foreign key). */
  ghost predicate Numbered(table: map<Slot, string>, counts: map<string, nat>) {
    forall s :: s in table <==> s.objectId in counts && s.index < counts[s.objectId]
  }

  ghost function LocationsOf(table: map<Slot, string>, id: string, n: nat): seq<string>
    requires forall i :: 0 <= i < n ==> Slot(id, i) in table
  {
    seq(n, i requires 0 <= i < n => table[Slot(id, i)])
  }

  ghost function View(objects: map<string, ObjectRow>, table: map<Slot, string>, counts: map<string, nat>): Catalog<string>
    requires counts.Keys == objects.Keys && Numbered(table, counts)
  {
    map id | id in objects :: Row(objects[id].meta, LocationsOf(table, id, counts[id]), objects[id].version)
  }

  /** DELETE of all locations of an object, then an INSERT for each new one. */
  method ReplaceLocations(table: map<Slot, string>, id: string, locations: seq<string>, ghost counts: map<string, nat>)
    returns (t: map<Slot, string>)
    requires Numbered(table, counts)
    ensures Numbered(t, counts[id := |locations|])
    ensures forall i :: 0 <= i < |locations| ==> t[Slot(id, i)] == locations[i]
    ensures forall s :: s in table && s.objectId != id ==> t[s] == table[s]
  {
    t := map s | s in table && s.objectId != id :: table[s];
    for i := 0 to |locations|
      invariant Numbered(t, counts[id := i])
      invariant forall j :: 0 <= j < i ==> t[Slot(id, j)] == locations[j]
      invariant forall s :: s in table && s.objectId != id ==> t[s] == table[s]
    {
      t := t[Slot(id, i) := locations[i]];
    }
  }

  lemma ViewReplaced(objects: map<string, ObjectRow>, table: map<Slot, string>, counts: map<string, nat>,
                     id: string, row: ObjectRow, locations: seq<string>, t: map<Slot, string>)
    requires counts.Keys == objects.Keys && Numbered(table, counts)
    requires Numbered(t, counts[id := |locations|])
    requires forall i :: 0 <= i < |locations| ==> t[Slot(id, i)] == locations[i]
    requires forall s :: s in table && s.objectId != id ==> t[s] == table[s]
    ensures View(objects[id := row], t, counts[id := |locations|])
         == View(objects, table, counts)[id := Row(row.meta, locations, row.version)]
  {
    assert LocationsOf(t, id, |locations|) == locations;
    forall x | x in objects && x != id
      ensures LocationsOf(t, x, counts[x]) == LocationsOf(table, x, counts[x])
    {
    }
  }

  lemma ViewRemoved(objects: map<string, ObjectRow>, table: map<Slot, string>, counts: map<string, nat>, id: string)
    requires counts.Keys == objects.Keys && Numbered(table, counts)
    ensures var t := map s | s in table && s.objectId != id :: table[s];
      Numbered(t, counts - {id}) && View(objects - {id}, t, counts - {id}) == RemoveRow(View(objects, table, counts), id)
  {
    var t := map s | s in table && s.objectId != id :: table[s];
    forall x | x in objects && x != id
      ensures LocationsOf(t, x, counts[x]) == LocationsOf(table, x, counts[x])
    {
    }
  }

  /* ---------- The store ---------- */

  class Store {
    var objects: map<string, ObjectRow>
    var shardLocations: map<Slot, string>
    /** How many locations each object has. */
    ghost var counts: map<string, nat>

    ghost predicate Valid()
      reads this
    {
      counts.Keys == objects.Keys && Numbered(shardLocations, counts)
    }

    ghost function Contents(): Catalog<string>
      requires Valid()
      reads this
    {
      View(objects, shardLocations, counts)
    }

    constructor ()
      ensures Valid() && Contents() == map[]
    {
      objects, shardLocations, counts := map[], map[], map[];
    }

    /** Write a row and all its locations. */
    method Write(id: string, row: ObjectRow, locations: seq<string>)
      requires Valid()
      modifies this
      ensures Valid()
      ensures Contents() == old(Contents())[id := Row(row.meta, locations, row.version)]
    {
      var t := ReplaceLocations(shardLocations, id, locations, counts);
      ViewReplaced(objects, shardLocations, counts, id, row, locations, t);
      objects, shardLocations, counts := objects[id := row], t, counts[id := |locations|];
    }

    /** put: upsert the row, bump the version, replace the locations. */
    method Put(id: string, meta: Meta, locations: seq<string>) returns (error: Option<StoreError>)
      requires Valid()
      modifies this
      ensures Valid()
      ensures error == None <==> id != "" && meta.checksum != "" && "" !in locations && meta.size < 0x8000_0000_0000_0000
      ensures error == Some(EmptyId) <==> id == ""
      ensures error == Some(EmptyChecksum) <==> id != "" && meta.checksum == ""
      ensures error == Some(EmptyLocation) <==> id != "" && meta.checksum != "" && "" in locations
      ensures error == Some(SizeTooLarge) <==> id != "" && meta.checksum != "" && "" !in locations && meta.size >= 0x8000_0000_0000_0000
      ensures error.Some? ==> Contents() == old(Contents())
      ensures error == None ==>
        && Contents() == old(Contents())[id := Row(meta, locations, if id in old(Contents()) then old(Contents()[id].version) + 1 else 1)]
        && Contents() == PutRow(old(Contents()), id, meta, locations)
    {
      error := ValidationError(id, meta, locations);
      if error == None {
        Write(id, ObjectRow(meta, if id in objects then objects[id].version + 1 else 1), locations);
      }
    }

    /** conditional_put: the same replacement, only where the row has the expected version. */
    method ConditionalPut(id: string, meta: Meta, locations: seq<string>, expected: nat) returns (r: Result<bool, StoreError>)
      requires Valid()
      modifies this
      ensures Valid()
      ensures r == Err(EmptyId) <==> id == ""
      ensures r == Err(EmptyChecksum) <==> id != "" && meta.checksum == ""
      ensures r == Err(EmptyLocation) <==> id != "" && meta.checksum != "" && "" in locations
      ensures r == Err(SizeTooLarge) <==> id != "" && meta.checksum != "" && "" !in locations && meta.size >= 0x8000_0000_0000_0000
      ensures r.Ok? <==> id != "" && meta.checksum != "" && "" !in locations && meta.size < 0x8000_0000_0000_0000
      ensures r == Ok(true) || Contents() == old(Contents())
      ensures r.Ok? ==>
        && (r.value <==> id in old(Contents()) && old(Contents()[id].version) == expected)
        && (r.value ==> Contents() == old(Contents())[id := Row(meta, locations, expected + 1)])
        && Contents() == ConditionalPutRow(old(Contents()), id, meta, locations, expected)
    {
      var error := ValidationError(id, meta, locations);
      if error.Some? {
        return Err(error.value);
      }
      if id !in objects || objects[id].version != expected {
        return Ok(false);
      }
      Write(id, ObjectRow(meta, expected + 1), locations);
      return Ok(true);
    }

    /** insert_if_absent: an existing row is left alone. */
    method InsertIfAbsent(id: string, meta: Meta, locations: seq<string>) returns (r: Result<bool, StoreError>)
      requires Valid()
      modifies this
      ensures Valid()
      ensures r == Err(EmptyId) <==> id == ""
      ensures r == Err(EmptyChecksum) <==> id != "" && meta.checksum == ""
      ensures r == Err(EmptyLocation) <==> id != "" && meta.checksum != "" && "" in locations
      ensures r == Err(SizeTooLarge) <==> id != "" && meta.checksum != "" && "" !in locations && meta.size >= 0x8000_0000_0000_0000
      ensures r.Ok? <==> id != "" && meta.checksum != "" && "" !in locations && meta.size < 0x8000_0000_0000_0000
      ensures r == Ok(true) || Contents() == old(Contents())
      ensures r.Ok? ==>
        && (r.value <==> id !in old(Contents()))
        && (r.value ==> Contents() == old(Contents())[id := Row(meta, locations, 1)])
        && Contents() == InsertRow(old(Contents()), id, meta, locations)
    {
      var error := ValidationError(id, meta, locations);
      if error.Some? {
        return Err(error.value);
      }
      if id in objects {
        return Ok(false);
      }
      Write(id, ObjectRow(meta, 1), locations);
      return Ok(true);
    }

    /** remove: the row goes, and its locations by the cascade. */
    method Remove(id: string) returns (deleted: bool)
      requires Valid()
      modifies this
      ensures Valid() && deleted == (id in old(Contents()))
      ensures Contents() == old(Contents()) - {id} == RemoveRow(old(Contents()), id)
    {
      deleted := id in objects;
      ViewRemoved(objects, shardLocations, counts, id);
      objects := objects - {id};
      shardLocations := map s | s in shardLocations && s.objectId != id :: shardLocations[s];
      counts := counts - {id};
    }

    /** get_shard_locations: the locations of one object in index order. */
    method ReadLocations(id: string) returns (locations: seq<string>)
      requires Valid() && id in objects
      ensures locations == Contents()[id].locations
    {
      locations := [];
      var i: nat := 0;
      while Slot(id, i) in shardLocations
        invariant i <= counts[id] && |locations| == i
        invariant forall j :: 0 <= j < i ==> locations[j] == shardLocations[Slot(id, j)]
        decreases counts[id] - i
      {
        locations := locations + [shardLocations[Slot(id, i)]];
        i := i + 1;
      }
    }

    /** get: the row, then its locations. */
    method Get(id: string) returns (r: Option<Row<string>>)
      requires Valid()
      ensures r == if id in Contents() then Some(Contents()[id]) else None
    {
      if id !in objects {
        return None;
      }
      var locations := ReadLocations(id);
      return Some(Row(objects[id].meta, locations, objects[id].version));
    }

    /** The rows of list's query, for the ids in the order in which the database sorts them. */
    method QueryJoin(ids: seq<string>) returns (rows: seq<JoinRow>)
      requires Valid() && Elems(ids) == objects.Keys
      ensures rows == Join(Contents(), ids)
    {
      rows := [];
      for i := 0 to |ids|
        invariant Elems(ids[..i]) <= objects.Keys
        invariant rows == Join(Contents(), ids[..i])
      {
        assert ids[i] in Elems(ids);
        assert ids[..i + 1] == ids[..i] + [ids[i]];
        var locations := ReadLocations(ids[i]);
        rows := rows + ObjectJoin(ids[i], Row(objects[ids[i]].meta, locations, objects[ids[i]].version));
      }
      assert ids[..|ids|] == ids;
    }

    /** list: one join over both tables, assembled in one pass; as good as a get on each id. */
    method List(ids: seq<string>) returns (listed: seq<Listed>)
      requires Valid()
      requires NoDup(ids) && Elems(ids) == objects.Keys
      ensures listed == GetEach(Contents(), ids)
      ensures |listed| == |ids|
      ensures forall i :: 0 <= i < |ids| ==> ids[i] in Contents() && listed[i] == Listed(ids[i], Contents()[ids[i]])
    {
      var rows := QueryJoin(ids);
      listed := GroupRows(rows);
      GroupedJoin(Contents(), ids);
      assert forall i :: 0 <= i < |ids| ==> ids[i] in Elems(ids);
    }
  }
}
