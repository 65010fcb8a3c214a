/**
 * The sport record store: an append-only list of `{date, duration, note}`
 * entries per sport type, kept in the browser's `localStorage` under the key
 * `"sport_" + type`. The JSON encoding of each list is taken to round-trip
 * exactly, so the store is modelled by its decoded contents.
 */
module SportRecords {

  /** One logged session, with its fields as the page passes them in. */
  datatype Record = Record(date: string, duration: string, note: string)

  const KeyPrefix := "sport_"

  /** The `localStorage` key under which the records of `sportType` live. */
  function Key(sportType: string): string
  {
    KeyPrefix + sportType
  }

  /** Distinct sport types never share a storage key. */
  lemma KeyInjective()
    ensures forall a, b :: Key(a) == Key(b) ==> a == b
  {
    forall a, b | Key(a) == Key(b)
      ensures a == b
    {
      assert a == Key(a)[|KeyPrefix|..];
      assert b == Key(b)[|KeyPrefix|..];
    }
  }

  /** The decoded contents of `localStorage`: the record list under each key. */
  type Storage = map<string, seq<Record>>

  /**
   * `getSportRecords(sportType)`: the list stored under the type's key,
   * decoded unchanged, or the empty list when the key is absent.
   */
  function GetSportRecords(storage: Storage, sportType: string): (records: seq<Record>)
    ensures Key(sportType) !in storage ==> records == []
    ensures Key(sportType) in storage ==> records == storage[Key(sportType)]
  {
    var key := Key(sportType);
    if key in storage then storage[key] else []
  }

  /**
   * The store after `addSportRecord`: the records of `sportType` gain
   * `record` at the end, the records of every other type are as they were,
   * and no key other than `sportType`'s is created or changed.
   */
  function WithRecord(storage: Storage, sportType: string, record: Record): (after: Storage)
    ensures GetSportRecords(after, sportType) == GetSportRecords(storage, sportType) + [record]
    ensures forall other :: other != sportType ==>
      GetSportRecords(after, other) == GetSportRecords(storage, other)
    ensures after.Keys == storage.Keys + {Key(sportType)}
    ensures forall k :: k in storage && k != Key(sportType) ==> after[k] == storage[k]
  {
    KeyInjective();
    storage[Key(sportType) := GetSportRecords(storage, sportType) + [record]]
  }

  /** One call of `addSportRecord`. */
  datatype Addition = Addition(sportType: string, record: Record)

  /** The store after a sequence of additions, in order. */
  function Replay(storage: Storage, additions: seq<Addition>): Storage
    decreases |additions|
  {
    if additions == [] then storage
    else Replay(WithRecord(storage, additions[0].sportType, additions[0].record), additions[1..])
  }

  /** The records added for `sportType`, in the order they were added. */
  function AddedFor(additions: seq<Addition>, sportType: string): seq<Record>
  {
    if additions == [] then []
    else
      var first := if additions[0].sportType == sportType then [additions[0].record] else [];
      first + AddedFor(additions[1..], sportType)
  }

  /**
   * Reading a type after a sequence of additions gives what was stored for
   * it before, followed by exactly the records added for it, in insertion
   * order; additions for other types do not show up.
   */
  lemma {:induction false} ReplayAppendsInOrder(storage: Storage, additions: seq<Addition>, sportType: string)
    ensures GetSportRecords(Replay(storage, additions), sportType)
      == GetSportRecords(storage, sportType) + AddedFor(additions, sportType)
    decreases |additions|
  {
    if additions != [] {
      var a := additions[0];
      var next := WithRecord(storage, a.sportType, a.record);
      ReplayAppendsInOrder(next, additions[1..], sportType);
      if a.sportType == sportType {
        assert GetSportRecords(next, sportType) == GetSportRecords(storage, sportType) + [a.record];
      } else {
        assert GetSportRecords(next, sportType) == GetSportRecords(storage, sportType);
      }
    }
  }

  /** A type to which nothing was ever added reads as the empty list. */
  lemma {:induction false} NeverAddedIsEmpty(additions: seq<Addition>, sportType: string)
    requires forall i :: 0 <= i < |additions| ==> additions[i].sportType != sportType
    ensures GetSportRecords(Replay(map[], additions), sportType) == []
    decreases |additions|
  {
    if additions != [] {
      var next := WithRecord(map[], additions[0].sportType, additions[0].record);
      ReplayAppendsInOrder(next, additions[1..], sportType);
      NoneAddedFor(additions[1..], sportType);
    }
  }

  lemma {:induction false} NoneAddedFor(additions: seq<Addition>, sportType: string)
    requires forall i :: 0 <= i < |additions| ==> additions[i].sportType != sportType
    ensures AddedFor(additions, sportType) == []
    decreases |additions|
  {
    if additions != [] {
      NoneAddedFor(additions[1..], sportType);
    }
  }

  /** The browser's `localStorage`, holding each key's decoded record list. */
  class LocalStorage {
    var items: Storage

    constructor (items: Storage)
      ensures this.items == items
    {
      this.items := items;
    }

    /** `addSportRecord(sportType, date, duration, note)`: read the list, push, write it back. */
    method AddSportRecord(sportType: string, date: string, duration: string, note: string)
      modifies this
      ensures items == WithRecord(old(items), sportType, Record(date, duration, note))
      ensures GetSportRecords(items, sportType)
        == GetSportRecords(old(items), sportType) + [Record(date, duration, note)]
    {
      var key := Key(sportType);
      var records := if key in items then items[key] else [];
      records := records + [Record(date, duration, note)];
      items := items[key := records];
    }
  }
}
