/** Mettle/Models/CloudKitManager.swift: saving, fetching and deleting lift
    entries in the public database. The database is a map from record
    identifier to field map; its calls are synchronous, and a transport
    failure is an explicit `fault` argument. */
module CloudKitManager {
  import opened Wrappers
  import opened LiftTypes
  import opened LiftEntries

  /** The values a record field can hold, as far as the decoder tells them
      apart: `as? String`, `as? Date`, `as? Double`, or anything else. */
  datatype FieldValue =
    | StringValue(text: string)
    | DateValue(date: Date)
    | DoubleValue(number: real)
    | OtherValue(tag: int)

  type Fields = map<string, FieldValue>

  /** A `CKRecord` of type "LiftEntry": its identifier and its fields. */
  datatype Record = Record(recordID: RecordId, fields: Fields)

  /** An `NSError`, by domain, code and localised description. */
  datatype Error = Error(domain: string, code: int, description: string)

  /** What deleting a never-saved entry reports. */
  const RecordNotFound: Error := Error("CloudKitManager", 404, "Record not found")

  // ---------------------------------------------------------------------
  // The store
  // ---------------------------------------------------------------------

  /** Records in `order` occur once each, and `order` lists every record. */
  ghost predicate ListsEachOnce(order: seq<RecordId>, keys: set<RecordId>)
  {
    && (forall i, j :: 0 <= i < j < |order| ==> order[i] != order[j])
    && (forall id :: id in order <==> id in keys)
  }

  /** `order` without `id`. */
  function Without(order: seq<RecordId>, id: RecordId): (r: seq<RecordId>)
    ensures forall x :: x in r <==> x in order && x != id
    ensures (forall i, j :: 0 <= i < j < |order| ==> order[i] != order[j]) ==>
            (forall i, j :: 0 <= i < j < |r| ==> r[i] != r[j])
  {
    if order == [] then []
    else
      var rest := Without(order[1..], id);
      if order[0] == id then rest
      else
        assert order[0] in rest ==> order[0] in order[1..];
        assert (forall i, j :: 0 <= i < j < |order| ==> order[i] != order[j]) ==> order[0] !in order[1..];
        [order[0]] + rest
  }

  /** The records named by `order`, in that order. */
  function RecordsIn(order: seq<RecordId>, records: map<RecordId, Fields>): (rs: seq<Record>)
    requires forall i :: 0 <= i < |order| ==> order[i] in records
    ensures |rs| == |order|
    ensures forall i :: 0 <= i < |rs| ==> rs[i] == Record(order[i], records[order[i]])
  {
    if order == [] then []
    else [Record(order[0], records[order[0]])] + RecordsIn(order[1..], records)
  }

  /** The listing of a store whose `order` names each record once. */
  function RecordsOf(order: seq<RecordId>, records: map<RecordId, Fields>): (rs: seq<Record>)
    requires ListsEachOnce(order, records.Keys)
    ensures |rs| == |order|
    ensures forall i :: 0 <= i < |rs| ==> rs[i] == Record(order[i], records[order[i]])
  {
    assert forall i :: 0 <= i < |order| ==> order[i] in order;
    RecordsIn(order, records)
  }

  /** The public database: the records by identifier, the order in which a
      query lists them, and a count of the requests it has received. */
  class Database {
    var records: map<RecordId, Fields>
    var order: seq<RecordId>
    ghost var calls: nat

    ghost predicate Valid()
      reads this`records, this`order
    {
      ListsEachOnce(order, records.Keys)
    }

    constructor ()
      ensures Valid() && records == map[] && order == [] && calls == 0
    {
      records, order, calls := map[], [], 0;
    }

    /** Everything the query "all records of type LiftEntry" returns, in order. */
    function Listing(): (rs: seq<Record>)
      reads this`records, this`order
      requires Valid()
      ensures |rs| == |order|
      ensures forall i :: 0 <= i < |rs| ==> rs[i] == Record(order[i], records[order[i]])
    {
      RecordsOf(order, records)
    }

    /** `save`: on success the record is stored under its identifier. */
    method Save(record: Record, fault: Option<Error>) returns (saved: Option<Record>, error: Option<Error>)
      requires Valid()
      modifies this
      ensures Valid() && calls == old(calls) + 1
      ensures fault.Some? ==> saved == None && error == fault
                              && records == old(records) && order == old(order)
      ensures fault.None? ==> saved == Some(record) && error == None
                              && records == old(records)[record.recordID := record.fields]
                              && order == if record.recordID in old(records) then old(order)
                                          else old(order) + [record.recordID]
    {
      calls := calls + 1;
      if fault.Some? {
        return None, fault;
      }
      if record.recordID !in records {
        order := order + [record.recordID];
      }
      records := records[record.recordID := record.fields];
      saved, error := Some(record), None;
    }

    /** `perform(query)`: the listing, or the fault. */
    method Perform(fault: Option<Error>) returns (found: Option<seq<Record>>, error: Option<Error>)
      requires Valid()
      modifies this`calls
      ensures calls == old(calls) + 1
      ensures fault.Some? ==> found == None && error == fault
      ensures fault.None? ==> found == Some(Listing()) && error == None
    {
      calls := calls + 1;
      if fault.Some? {
        return None, fault;
      }
      found, error := Some(Listing()), None;
    }

    /** `delete(withRecordID:)`: on success the record is gone. */
    method Delete(id: RecordId, fault: Option<Error>) returns (error: Option<Error>)
      requires Valid()
      modifies this
      ensures Valid() && calls == old(calls) + 1
      ensures fault.Some? ==> error == fault && records == old(records) && order == old(order)
      ensures fault.None? ==> error == None && records == old(records) - {id}
                              && order == Without(old(order), id)
    {
      calls := calls + 1;
      if fault.Some? {
        return fault;
      }
      records := records - {id};
      order := Without(order, id);
      error := None;
    }
  }

  // ---------------------------------------------------------------------
  // Encoding: the record `saveLiftEntry` builds
  // ---------------------------------------------------------------------

  /** The record schema: `liftType` holds the raw value, `date` and
      `weight` are copied, and `note` is present exactly when the entry has
      one. Nothing else is written. */
  ghost predicate Encodes(fields: Fields, e: LiftEntry)
  {
    && fields.Keys == {"liftType", "date", "weight"} + (if e.note.Some? then {"note"} else {})
    && fields["liftType"] == StringValue(RawValue(e.liftType))
    && fields["date"] == DateValue(e.date)
    && fields["weight"] == DoubleValue(e.weight)
    && (e.note.Some? ==> fields["note"] == StringValue(e.note.value))
  }

  /** The successive field assignments on a fresh `CKRecord`, whose new
      identifier `recordID` is an input. The entry's own `recordID` is not
      consulted. */
  method NewRecord(entry: LiftEntry, recordID: RecordId) returns (record: Record)
    ensures record.recordID == recordID && Encodes(record.fields, entry)
  {
    var fields: Fields := map[];
    fields := fields["liftType" := StringValue(RawValue(entry.liftType))];
    fields := fields["date" := DateValue(entry.date)];
    fields := fields["weight" := DoubleValue(entry.weight)];
    if entry.note.Some? {
      fields := fields["note" := StringValue(entry.note.value)];
    }
    record := Record(recordID, fields);
  }

  /** The completion of `save`: an error wins; otherwise a returned record
      is a success; with neither, the completion is never called (`None`). */
  function SaveCompletion(saved: Option<Record>, error: Option<Error>): (c: Option<Result<Record, Error>>)
    ensures error.Some? ==> c == Some(Failure(error.value))
    ensures error.None? && saved.Some? ==> c == Some(Success(saved.value))
    ensures error.None? && saved.None? ==> c == None
  {
    if error.Some? then Some(Failure(error.value))
    else if saved.Some? then Some(Success(saved.value))
    else None
  }

  /** `saveLiftEntry`: builds the record, saves it, and reports the saved
      record or the store's error unchanged. `CKRecord(recordType:)` names
      the new record with an identifier no record in the store has. */
  method SaveLiftEntry(db: Database, entry: LiftEntry, recordID: RecordId, fault: Option<Error>)
    returns (completion: Option<Result<Record, Error>>)
    requires db.Valid() && recordID !in db.records
    modifies db
    ensures db.Valid() && db.calls == old(db.calls) + 1
    ensures fault.Some? ==> completion == Some(Failure(fault.value))
                            && db.records == old(db.records) && db.order == old(db.order)
    ensures fault.None? ==>
      && completion.Some? && completion.value.Success?
      && completion.value.value.recordID == recordID
      && Encodes(completion.value.value.fields, entry)
      && db.records == old(db.records)[recordID := completion.value.value.fields]
      && db.order == old(db.order) + [recordID]
  {
    var record := NewRecord(entry, recordID);
    var saved, error := db.Save(record, fault);
    completion := SaveCompletion(saved, error);
  }

  // ---------------------------------------------------------------------
  // Decoding: the `compactMap` in `fetchLiftEntries`
  // ---------------------------------------------------------------------

  /** The guard: a string `liftType` naming a known lift, a `Date` date and
      a `Double` weight. */
  ghost predicate WellFormed(fields: Fields)
  {
    && "liftType" in fields && fields["liftType"].StringValue?
    && FromRawValue(fields["liftType"].text).Some?
    && "date" in fields && fields["date"].DateValue?
    && "weight" in fields && fields["weight"].DoubleValue?
  }

  /** `record["note"] as? String`. */
  function NoteOf(fields: Fields): (n: Option<string>)
    ensures n.Some? <==> "note" in fields && fields["note"].StringValue?
    ensures n.Some? ==> n.value == fields["note"].text
  {
    if "note" in fields && fields["note"].StringValue? then Some(fields["note"].text) else None
  }

  /** One record: dropped (`None`) unless well formed; otherwise an entry
      with a fresh `id`, the decoded fields and the record's identifier. A
      missing or non-string note only makes the note nil. */
  function DecodeRecord(record: Record, id: Uuid): (r: Option<LiftEntry>)
    ensures r.Some? <==> WellFormed(record.fields)
    ensures r.Some? ==>
      var f := record.fields;
      && r.value.id == id
      && RawValue(r.value.liftType) == f["liftType"].text
      && r.value.date == f["date"].date
      && r.value.weight == f["weight"].number
      && r.value.note == NoteOf(f)
      && r.value.recordID == Some(record.recordID)
  {
    var f := record.fields;
    if "liftType" !in f || !f["liftType"].StringValue? then None
    else
      var liftType := FromRawValue(f["liftType"].text);
      if liftType.None? then None
      else if "date" !in f || !f["date"].DateValue? then None
      else if "weight" !in f || !f["weight"].DoubleValue? then None
      else Some(LiftEntry(id, liftType.value, f["date"].date, f["weight"].number, NoteOf(f), Some(record.recordID)))
  }

  /** `compactMap` over `xs`, the i-th element being transformed together
      with the number `first + i`; the `nil` results are left out. */
  function CompactMap<A, B>(f: (A, nat) -> Option<B>, xs: seq<A>, first: nat): (r: seq<B>)
    ensures |r| <= |xs|
  {
    if xs == [] then []
    else
      var rest := CompactMap(f, xs[1..], first + 1);
      match f(xs[0], first)
      case Some(y) => [y] + rest
      case None => rest
  }

  /** `compactMap` works element by element: the order of `xs` is kept. */
  lemma {:induction false} CompactMapAppend<A, B>(f: (A, nat) -> Option<B>, xs: seq<A>, ys: seq<A>, first: nat)
    ensures CompactMap(f, xs + ys, first) == CompactMap(f, xs, first) + CompactMap(f, ys, first + |xs|)
  {
    if xs == [] {
      assert xs + ys == ys;
    } else {
      assert (xs + ys)[1..] == xs[1..] + ys;
      CompactMapAppend(f, xs[1..], ys, first + 1);
    }
  }

  /** Every result comes from one element, transformed with its own number. */
  lemma {:induction false} CompactMapFrom<A, B>(f: (A, nat) -> Option<B>, xs: seq<A>, first: nat, k: nat)
    requires k < |CompactMap(f, xs, first)|
    ensures exists i :: 0 <= i < |xs| && f(xs[i], first + i) == Some(CompactMap(f, xs, first)[k])
  {
    var rest := CompactMap(f, xs[1..], first + 1);
    if f(xs[0], first).Some? && k == 0 {
      assert f(xs[0], first + 0) == Some(CompactMap(f, xs, first)[k]);
    } else {
      var k' := if f(xs[0], first).Some? then k - 1 else k;
      assert CompactMap(f, xs, first)[k] == rest[k'];
      CompactMapFrom(f, xs[1..], first + 1, k');
      var i :| 0 <= i < |xs[1..]| && f(xs[1..][i], first + 1 + i) == Some(rest[k']);
      assert f(xs[i + 1], first + (i + 1)) == Some(CompactMap(f, xs, first)[k]);
    }
  }

  /** Every non-nil transformation shows up in the result. */
  lemma {:induction false} CompactMapKeeps<A, B>(f: (A, nat) -> Option<B>, xs: seq<A>, first: nat, i: nat)
    requires i < |xs| && f(xs[i], first + i).Some?
    ensures f(xs[i], first + i).value in CompactMap(f, xs, first)
  {
    if i > 0 {
      CompactMapKeeps(f, xs[1..], first + 1, i - 1);
      assert xs[1..][i - 1] == xs[i];
    }
  }

  /** When no transformation is nil, nothing is left out. */
  lemma {:induction false} CompactMapAllSome<A, B>(f: (A, nat) -> Option<B>, xs: seq<A>, first: nat)
    requires forall i :: 0 <= i < |xs| ==> f(xs[i], first + i).Some?
    ensures |CompactMap(f, xs, first)| == |xs|
  {
    if xs != [] {
      assert f(xs[0], first + 0).Some?;
      forall i | 0 <= i < |xs[1..]| ensures f(xs[1..][i], first + 1 + i).Some? {
        assert f(xs[i + 1], first + (i + 1)).Some?;
      }
      CompactMapAllSome(f, xs[1..], first + 1);
    }
  }

  /** The whole listing, the i-th record getting the fresh identifier
      `firstId + i`. */
  function DecodeRecords(records: seq<Record>, firstId: Uuid): (r: seq<LiftEntry>)
    ensures |r| <= |records|
  {
    CompactMap(DecodeRecord, records, firstId)
  }

  /** Every well-formed record yields its entry; a listing with nothing
      malformed loses nothing. */
  lemma DecodeRecordsKeeps(records: seq<Record>, firstId: Uuid)
    ensures forall i :: 0 <= i < |records| && WellFormed(records[i].fields) ==>
              DecodeRecord(records[i], firstId + i).value in DecodeRecords(records, firstId)
    ensures (forall i :: 0 <= i < |records| ==> WellFormed(records[i].fields)) ==>
              |DecodeRecords(records, firstId)| == |records|
  {
    forall i | 0 <= i < |records| && WellFormed(records[i].fields)
      ensures DecodeRecord(records[i], firstId + i).value in DecodeRecords(records, firstId)
    {
      CompactMapKeeps(DecodeRecord, records, firstId, i);
    }
    if forall i :: 0 <= i < |records| ==> WellFormed(records[i].fields) {
      CompactMapAllSome(DecodeRecord, records, firstId);
    }
  }

  /** Decoding what `saveLiftEntry` wrote gives back the lift type, date,
      weight and note, with the record's identifier. */
  lemma DecodeEncoded(e: LiftEntry, record: Record, id: Uuid)
    requires Encodes(record.fields, e)
    ensures DecodeRecord(record, id) == Some(LiftEntry(id, e.liftType, e.date, e.weight, e.note, Some(record.recordID)))
  {
    RawValueRoundTrip(e.liftType);
  }

  /** Round trip through the store: a record saved from entry `e` comes
      back from a listing of the database as `e` with that record's
      identifier and some fresh `id`. */
  lemma SavedEntryIsFetched(order: seq<RecordId>, records: map<RecordId, Fields>, rid: RecordId, e: LiftEntry, firstId: Uuid)
    requires ListsEachOnce(order, records.Keys)
    requires rid in records && Encodes(records[rid], e)
    ensures exists id: Uuid :: LiftEntry(id, e.liftType, e.date, e.weight, e.note, Some(rid))
                                in DecodeRecords(RecordsOf(order, records), firstId)
  {
    var listing := RecordsOf(order, records);
    var i :| 0 <= i < |order| && order[i] == rid;
    assert listing[i] == Record(rid, records[rid]);
    DecodeEncoded(e, listing[i], firstId + i);
    CompactMapKeeps(DecodeRecord, listing, firstId, i);
  }

  /** The completion of `perform`: an error wins; records are decoded; with
      neither, the completion is never called (`None`). */
  function FetchCompletion(found: Option<seq<Record>>, error: Option<Error>, firstId: Uuid)
    : (c: Option<Result<seq<LiftEntry>, Error>>)
    ensures error.Some? ==> c == Some(Failure(error.value))
    ensures error.None? && found.Some? ==> c == Some(Success(DecodeRecords(found.value, firstId)))
    ensures error.None? && found.None? ==> c == None
  {
    if error.Some? then Some(Failure(error.value))
    else if found.Some? then Some(Success(DecodeRecords(found.value, firstId)))
    else None
  }

  /** `fetchLiftEntries`: every record of the database, decoded; each entry
      built draws a fresh `UUID`. */
  method FetchLiftEntries(db: Database, uuids: UuidSource, fault: Option<Error>)
    returns (completion: Option<Result<seq<LiftEntry>, Error>>, firstId: Uuid)
    requires db.Valid() && uuids.Valid()
    modifies db`calls, uuids
    ensures db.calls == old(db.calls) + 1 && uuids.Valid()
    ensures fault.Some? ==> completion == Some(Failure(fault.value)) && uuids.issued == old(uuids.issued)
    ensures fault.None? ==>
      && (forall u :: firstId <= u < firstId + |db.order| ==> u !in old(uuids.issued))
      && uuids.issued == old(uuids.issued) + Range(firstId, |db.order|)
      && completion == Some(Success(DecodeRecords(db.Listing(), firstId)))
  {
    var found, error := db.Perform(fault);
    // One id per listed record: the source calls `UUID()` only for records
    // that decode, so the ids reserved for dropped records are never used.
    var count := if found.Some? then |found.value| else 0;
    firstId := uuids.Reserve(count);
    completion := FetchCompletion(found, error, firstId);
    assert fault.None? ==> found == Some(db.Listing()) && count == |db.order|;
  }

  // ---------------------------------------------------------------------
  // `deleteLiftEntry`
  // ---------------------------------------------------------------------

  /** An entry that was never saved has no record identifier: the call fails
      with "Record not found" and the database is not contacted. Otherwise
      the record is deleted and the store's error, if any, is passed on. */
  method DeleteLiftEntry(db: Database, entry: LiftEntry, fault: Option<Error>)
    returns (completion: Result<(), Error>)
    requires db.Valid()
    modifies db
    ensures db.Valid()
    ensures entry.recordID.None? ==> completion == Failure(RecordNotFound) && unchanged(db)
    ensures entry.recordID.Some? ==> db.calls == old(db.calls) + 1
    ensures entry.recordID.Some? && fault.Some? ==>
              completion == Failure(fault.value) && db.records == old(db.records) && db.order == old(db.order)
    ensures entry.recordID.Some? && fault.None? ==>
              && completion == Success(())
              && db.records == old(db.records) - {entry.recordID.value}
              && db.order == Without(old(db.order), entry.recordID.value)
  {
    if entry.recordID.None? {
      return Failure(RecordNotFound);
    }
    var error := db.Delete(entry.recordID.value, fault);
    if error.Some? {
      completion := Failure(error.value);
    } else {
      completion := Success(());
    }
  }
}
