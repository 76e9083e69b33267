/**
 The ring of key-encryption keys. Keys are only ever added; each object's DEK is
 wrapped under the key that was active when it was written. Wrapping is ideal: a
 wrapped DEK opens under its own key and under no other.
 */
module KeyRing {
  import opened Wrappers

  /** A key pair and a DEK are identified by numbers; equal numbers are equal keys. */
  type Key = nat
  type Dek = nat

  datatype WrappedDek = WrappedDek(key: Key, dek: Dek)

  /** decrypt_dek: the DEK, or an integrity failure. */
  function DecryptDek(wrapped: WrappedDek, key: Key): Option<Dek> {
    if wrapped.key == key then Some(wrapped.dek) else None
  }

  type Ring = map<string, Key>

  ghost predicate ValidRing(ring: Ring, active: string) {
    active in ring
  }

  /** Every key of the old ring is still there under its own id. */
  ghost predicate Grows(before: Ring, after: Ring) {
    forall id :: id in before ==> id in after && after[id] == before[id]
  }

  /** What recover_dek finds: the DEK when its key is in the ring, whatever the hint. */
  ghost function RecoveredDek(ring: Ring, wrapped: WrappedDek): Option<Dek> {
    if wrapped.key in ring.Values then Some(wrapped.dek) else None
  }

  /** recover_dek: the key the row names, then every other key of the ring in any order. */
  method RecoverDek(ring: Ring, wrapped: WrappedDek, hint: string) returns (r: Option<Dek>)
    ensures r == RecoveredDek(ring, wrapped)
  {
    if hint in ring {
      r := DecryptDek(wrapped, ring[hint]);
      if r.Some? {
        return r;
      }
    }
    var tried: set<string> := {};
    while ring.Keys - tried != {}
      invariant forall id :: id in tried && id in ring ==> ring[id] != wrapped.key
      decreases ring.Keys - tried
    {
      var id :| id in ring.Keys - tried;
      if id != hint {
        r := DecryptDek(wrapped, ring[id]);
        if r.Some? {
          return r;
        }
      }
      tried := tried + {id};
    }
    return None;
  }

  /** The key state of a client. */
  class Keys {
    var ring: Ring
    var active: string

    ghost predicate Valid()
      reads this
    {
      ValidRing(ring, active)
    }

    /** A client without a key file starts with one key. */
    constructor (id: string, key: Key)
      ensures Valid() && ring == map[id := key] && active == id
    {
      ring, active := map[id := key], id;
    }

    /**
     rotate: ids are drawn until one is not in the ring; it becomes active. The draws are the
     given candidates, the last of which is fresh.
     */
    method Rotate(candidates: seq<string>, key: Key)
      requires Valid()
      requires candidates != [] && candidates[|candidates| - 1] !in ring
      modifies this
      ensures Valid() && Grows(old(ring), ring)
      ensures active !in old(ring) && active in candidates && ring == old(ring)[active := key]
    {
      var i := 0;
      active := candidates[0];
      while active in ring
        invariant i < |candidates| && active == candidates[i] && ring == old(ring)
        decreases |candidates| - i
      {
        i := i + 1;
        active := candidates[i];
      }
      ring := ring[active := key];
    }

    /** put wraps the DEK under the active key and records that key's id. */
    method Wrap(dek: Dek) returns (wrapped: WrappedDek, kekId: string)
      requires Valid()
      ensures kekId == active && wrapped == WrappedDek(ring[active], dek)
      ensures RecoveredDek(ring, wrapped) == Some(dek)
    {
      kekId := active;
      wrapped := WrappedDek(ring[kekId], dek);
    }
  }

  /** A ring after any number of rotations. */
  ghost predicate Rotations(rings: seq<Ring>) {
    rings != [] && forall i {:trigger rings[i]} :: 0 <= i < |rings| - 1 ==> Grows(rings[i], rings[i + 1])
  }

  lemma {:induction false} RotationsGrow(rings: seq<Ring>, i: nat)
    requires Rotations(rings) && i < |rings|
    ensures Grows(rings[i], rings[|rings| - 1])
    decreases |rings| - i
  {
    if i < |rings| - 1 {
      RotationsGrow(rings, i + 1);
      assert Grows(rings[i], rings[i + 1]);
    }
  }

  /** A DEK wrapped at any time is recovered after any number of later rotations. */
  lemma RecoveredForever(rings: seq<Ring>, i: nat, active: string, dek: Dek)
    requires Rotations(rings) && i < |rings| && ValidRing(rings[i], active)
    ensures RecoveredDek(rings[|rings| - 1], WrappedDek(rings[i][active], dek)) == Some(dek)
    ensures active in rings[|rings| - 1]
  {
    RotationsGrow(rings, i);
    var last := rings[|rings| - 1];
    assert last[active] in last.Values;
  }
}
