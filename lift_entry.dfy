/** One recorded personal record (Mettle/Models/LiftEntry.swift).

    The Swift struct has no record identifier, yet the record store reads and
    writes `recordID` on it; this model repairs that with an optional
    `recordID` field, absent until the entry has been persisted. */
module LiftEntries {
  import opened Wrappers
  import opened LiftTypes

  /** A point in time (Foundation `Date`), as a whole number of seconds. */
  type Date = int

  /** A `UUID`: opaque, compared only for equality. */
  type Uuid = nat

  /** A `CKRecord.ID`, identified by its record name. */
  datatype RecordId = RecordId(recordName: string)

  /** A weight in pounds. It is a `Double` in the source; the model uses
      exact reals, so only the pounds-to-kilograms conversion computes with
      it, without rounding. */
  type Weight = real

  /** Every field is a `let`: an entry is an immutable value. Synthesised
      equality compares all fields, `id` included, which is what datatype
      equality does here. */
  datatype LiftEntry = LiftEntry(
    id: Uuid,
    liftType: LiftType,
    date: Date,
    weight: Weight,
    note: Option<string>,
    recordID: Option<RecordId>)

  /** The supply behind `UUID()`: every identifier it hands out differs from
      all earlier ones. */
  class UuidSource {
    var next: nat
    ghost var issued: set<Uuid>

    ghost predicate Valid()
      reads this
    {
      forall u :: u in issued ==> u < next
    }

    constructor ()
      ensures Valid() && issued == {}
    {
      next := 0;
      issued := {};
    }

    method Fresh() returns (u: Uuid)
      requires Valid()
      modifies this
      ensures Valid()
      ensures u !in old(issued) && issued == old(issued) + {u}
    {
      u := next;
      next := next + 1;
      issued := issued + {u};
    }

    /** Hands out `count` identifiers at once: `first`, `first + 1`, ... */
    method Reserve(count: nat) returns (first: Uuid)
      requires Valid()
      modifies this
      ensures Valid()
      ensures forall u :: first <= u < first + count ==> u !in old(issued)
      ensures issued == old(issued) + Range(first, count)
    {
      first := next;
      next := next + count;
      issued := issued + Range(first, count);
    }
  }

  /** The identifiers `first`, ..., `first + count - 1`. */
  ghost function Range(first: Uuid, count: nat): (r: set<Uuid>)
    ensures forall u :: u in r <==> first <= u < first + count
    decreases count
  {
    if count == 0 then {} else {first} + Range(first + 1, count - 1)
  }

  /** The memberwise initialiser: `id` is not an argument, it is drawn fresh;
      every other field is the argument given. */
  method NewEntry(uuids: UuidSource, liftType: LiftType, date: Date, weight: Weight,
                  note: Option<string>, recordID: Option<RecordId>) returns (e: LiftEntry)
    requires uuids.Valid()
    modifies uuids
    ensures uuids.Valid()
    ensures e.id !in old(uuids.issued) && uuids.issued == old(uuids.issued) + {e.id}
    ensures e.liftType == liftType && e.date == date && e.weight == weight
    ensures e.note == note && e.recordID == recordID
  {
    var id := uuids.Fresh();
    e := LiftEntry(id, liftType, date, weight, note, recordID);
  }

  /** Two entries built separately from identical data are not equal. */
  method BuildTwice(uuids: UuidSource, liftType: LiftType, date: Date, weight: Weight,
                    note: Option<string>) returns (first: LiftEntry, second: LiftEntry)
    requires uuids.Valid()
    modifies uuids
    ensures uuids.Valid()
    ensures first != second
    ensures first.liftType == second.liftType && first.date == second.date
    ensures first.weight == second.weight && first.note == second.note
  {
    first := NewEntry(uuids, liftType, date, weight, note, None);
    second := NewEntry(uuids, liftType, date, weight, note, None);
  }
}
