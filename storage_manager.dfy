/**
 * The process-wide Realm and `StorageManager` (MyPlaces/Helpers/StorageManager.swift).
 * The database is one in-memory table of managed places; persistence is not modelled.
 */
module Storage {
  import opened Places
  import opened Seqs

  /**
   * The global `realm`: its table of managed places in table order, and
   * whether a write transaction is open. Realm refuses to open a write
   * transaction inside another, to add or delete outside one, and to delete
   * an object it does not manage; each refusal is a thrown error, which
   * `try!` turns into a trap, so here they are preconditions.
   */
  class Realm {
    var objects: seq<Place>
    var inWriteTransaction: bool

    /** A place is managed at most once. */
    ghost predicate Valid()
      reads this
    {
      Distinct(objects)
    }

    constructor ()
      ensures Valid() && objects == [] && !inWriteTransaction
    {
      objects := [];
      inWriteTransaction := false;
    }

    method BeginWrite()
      requires !inWriteTransaction
      modifies this
      ensures inWriteTransaction && objects == old(objects)
    {
      inWriteTransaction := true;
    }

    method CommitWrite()
      requires inWriteTransaction
      modifies this
      ensures !inWriteTransaction && objects == old(objects)
    {
      inWriteTransaction := false;
    }

    /** `realm.add`: a place already managed by this Realm is left where it is. */
    method Add(place: Place)
      requires Valid() && inWriteTransaction
      modifies this
      ensures Valid() && inWriteTransaction
      ensures objects == if place in old(objects) then old(objects) else old(objects) + [place]
    {
      if place !in objects {
        objects := objects + [place];
      }
    }

    /** `realm.delete`: the place leaves the table; the other places keep their order. */
    method Delete(place: Place)
      requires Valid() && inWriteTransaction && place in objects
      modifies this
      ensures Valid() && inWriteTransaction
      ensures objects == RemoveFirst(old(objects), place)
    {
      RemoveFirstDistinct(objects, place);
      objects := RemoveFirst(objects, place);
    }
  }

  /** `StorageManager.saveObject`: one write transaction that adds `place`. */
  method SaveObject(realm: Realm, place: Place)
    requires realm.Valid() && !realm.inWriteTransaction
    modifies realm
    ensures realm.Valid() && !realm.inWriteTransaction
    ensures place in realm.objects
    ensures realm.objects == if place in old(realm.objects) then old(realm.objects) else old(realm.objects) + [place]
  {
    realm.BeginWrite();
    realm.Add(place);
    realm.CommitWrite();
  }

  /** `StorageManager.deleteObject`: one write transaction that deletes `place`. */
  method DeleteObject(realm: Realm, place: Place)
    requires realm.Valid() && !realm.inWriteTransaction && place in realm.objects
    modifies realm
    ensures realm.Valid() && !realm.inWriteTransaction
    ensures place !in realm.objects && |realm.objects| == |old(realm.objects)| - 1
    ensures forall q :: q != place ==> (q in realm.objects <==> q in old(realm.objects))
    ensures realm.objects == RemoveFirst(old(realm.objects), place)
  {
    RemoveFirstDistinct(realm.objects, place);
    realm.BeginWrite();
    realm.Delete(place);
    realm.CommitWrite();
  }
}
