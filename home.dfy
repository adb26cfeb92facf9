/** Mettle/HomeView.swift: the home screen. Its entries are grouped into
    one tile per lift type, the tiles are ordered by raw value, every entry
    gets a row, and a refresh request re-fetches the entries. */
module Home {
  import opened Wrappers
  import opened StringOrder
  import opened LiftTypes
  import opened LiftEntries
  import DateSort
  import CloudKitManager

  // ---------------------------------------------------------------------
  // `Dictionary(grouping: liftEntries, by: { $0.liftType })`
  // ---------------------------------------------------------------------

  /** The entries of lift type `t`, in their original order. */
  function OfType(entries: seq<LiftEntry>, t: LiftType): (r: seq<LiftEntry>)
    ensures |r| <= |entries|
    ensures forall e :: e in r <==> e in entries && e.liftType == t
  {
    if entries == [] then []
    else
      var last := entries[|entries| - 1];
      assert entries == entries[..|entries| - 1] + [last];
      OfType(entries[..|entries| - 1], t) + (if last.liftType == t then [last] else [])
  }

  /** The lift types that occur in `entries`. */
  ghost predicate Occurs(entries: seq<LiftEntry>, t: LiftType)
  {
    exists i :: 0 <= i < |entries| && entries[i].liftType == t
  }

  lemma OccursSnoc(init: seq<LiftEntry>, last: LiftEntry)
    ensures forall t :: Occurs(init + [last], t) <==> Occurs(init, t) || t == last.liftType
  {
    var entries := init + [last];
    forall t ensures Occurs(entries, t) <==> Occurs(init, t) || t == last.liftType {
      if Occurs(init, t) {
        var i :| 0 <= i < |init| && init[i].liftType == t;
        assert entries[i].liftType == t;
      }
      if Occurs(entries, t) && t != last.liftType {
        var i :| 0 <= i < |entries| && entries[i].liftType == t;
        assert init[i].liftType == t;
      }
      if t == last.liftType {
        assert entries[|init|].liftType == t;
      }
    }
  }

  lemma {:induction false} OfTypeAbsent(entries: seq<LiftEntry>, t: LiftType)
    requires !Occurs(entries, t)
    ensures OfType(entries, t) == []
  {
    if entries != [] {
      var init := entries[..|entries| - 1];
      assert !Occurs(init, t) by {
        forall i | 0 <= i < |init| ensures init[i].liftType != t {
          assert init[i] == entries[i];
        }
      }
      OfTypeAbsent(init, t);
      assert entries[|entries| - 1].liftType != t;
    }
  }

  /** `g` groups `entries`: exactly the types present are keys, and each
      key maps to the entries of its type, in order, never to an empty group. */
  ghost predicate IsGrouping(g: map<LiftType, seq<LiftEntry>>, entries: seq<LiftEntry>)
  {
    && (forall t :: t in g <==> Occurs(entries, t))
    && (forall t :: t in g ==> g[t] == OfType(entries, t) && g[t] != [])
  }

  /** The grouping, built one entry at a time. */
  function Group(entries: seq<LiftEntry>): (g: map<LiftType, seq<LiftEntry>>)
    ensures forall t :: t in g <==> Occurs(entries, t)
    ensures forall t :: t in g ==> g[t] == OfType(entries, t) && g[t] != []
  {
    if entries == [] then map[]
    else
      var init := entries[..|entries| - 1];
      var last := entries[|entries| - 1];
      assert init + [last] == entries;
      GroupAppend(Group(init), init, last)
  }

  /** Adding one entry to a grouping of `init` gives a grouping of `init + [last]`. */
  function GroupAppend(g: map<LiftType, seq<LiftEntry>>, init: seq<LiftEntry>, last: LiftEntry)
    : (g': map<LiftType, seq<LiftEntry>>)
    requires IsGrouping(g, init)
    ensures IsGrouping(g', init + [last])
  {
    var t := last.liftType;
    if t in g then
      GroupAppendPresent(g, init, last);
      g[t := g[t] + [last]]
    else
      GroupAppendAbsent(g, init, last);
      g[t := [last]]
  }

  /** The entries of a type after one more entry. */
  lemma OfTypeSnoc(init: seq<LiftEntry>, last: LiftEntry, t: LiftType)
    ensures OfType(init + [last], t) == OfType(init, t) + (if last.liftType == t then [last] else [])
  {
    assert (init + [last])[..|init|] == init;
  }

  lemma GroupAppendPresent(g: map<LiftType, seq<LiftEntry>>, init: seq<LiftEntry>, last: LiftEntry)
    requires IsGrouping(g, init) && last.liftType in g
    ensures IsGrouping(g[last.liftType := g[last.liftType] + [last]], init + [last])
  {
    var g', entries := g[last.liftType := g[last.liftType] + [last]], init + [last];
    OccursSnoc(init, last);
    forall t
      ensures (t in g' <==> Occurs(entries, t))
      ensures t in g' ==> g'[t] == OfType(entries, t) && g'[t] != []
    {
      OfTypeSnoc(init, last, t);
    }
  }

  lemma GroupAppendAbsent(g: map<LiftType, seq<LiftEntry>>, init: seq<LiftEntry>, last: LiftEntry)
    requires IsGrouping(g, init) && last.liftType !in g
    ensures IsGrouping(g[last.liftType := [last]], init + [last])
  {
    var g', entries := g[last.liftType := [last]], init + [last];
    OccursSnoc(init, last);
    OfTypeAbsent(init, last.liftType);
    forall t
      ensures (t in g' <==> Occurs(entries, t))
      ensures t in g' ==> g'[t] == OfType(entries, t) && g'[t] != []
    {
      OfTypeSnoc(init, last, t);
    }
  }

  /** Each entry is in exactly one group: the one of its own lift type. */
  lemma GroupPartitions(entries: seq<LiftEntry>)
    ensures var g := Group(entries);
            && (forall i :: 0 <= i < |entries| ==> entries[i].liftType in g && entries[i] in g[entries[i].liftType])
            && (forall t, e :: t in g && e in g[t] ==> e.liftType == t)
  {
    var g := Group(entries);
    forall i | 0 <= i < |entries|
      ensures entries[i].liftType in g && entries[i] in g[entries[i].liftType]
    {
      assert Occurs(entries, entries[i].liftType);
    }
  }

  // ---------------------------------------------------------------------
  // `groupedLiftEntries.keys.sorted(by: { $0.rawValue < $1.rawValue })`
  // ---------------------------------------------------------------------

  /** Strictly ascending by raw value. */
  ghost predicate AscendingByRawValue(s: seq<LiftType>)
  {
    forall i, j :: 0 <= i < j < |s| ==> Less(RawValue(s[i]), RawValue(s[j]))
  }

  /** The lift type at position `k` of ascending raw-value order. */
  function OfRank(k: nat): LiftType
    requires k < 16
  {
    if k == 0 then BackSquat
    else if k == 1 then Bench
    else if k == 2 then Deadlift
    else if k == 3 then FrontSquat
    else if k == 4 then HangPowerClean
    else if k == 5 then HangPowerSnatch
    else if k == 6 then OverHeadSquat
    else if k == 7 then PowerClean
    else if k == 8 then PowerSnatch
    else if k == 9 then PushJerk
    else if k == 10 then PushPress
    else if k == 11 then SplitJerk
    else if k == 12 then SquatClean
    else if k == 13 then SquatSnatch
    else if k == 14 then StrictPress
    else Thruster
  }

  /** Every lift type has a position. */
  lemma OfRankCovers(t: LiftType)
    ensures exists k :: 0 <= k < 16 && OfRank(k) == t
  {
    match t
    case BackSquat => assert OfRank(0) == BackSquat;
    case Bench => assert OfRank(1) == Bench;
    case Deadlift => assert OfRank(2) == Deadlift;
    case FrontSquat => assert OfRank(3) == FrontSquat;
    case HangPowerClean => assert OfRank(4) == HangPowerClean;
    case HangPowerSnatch => assert OfRank(5) == HangPowerSnatch;
    case OverHeadSquat => assert OfRank(6) == OverHeadSquat;
    case PowerClean => assert OfRank(7) == PowerClean;
    case PowerSnatch => assert OfRank(8) == PowerSnatch;
    case PushJerk => assert OfRank(9) == PushJerk;
    case PushPress => assert OfRank(10) == PushPress;
    case SplitJerk => assert OfRank(11) == SplitJerk;
    case SquatClean => assert OfRank(12) == SquatClean;
    case SquatSnatch => assert OfRank(13) == SquatSnatch;
    case StrictPress => assert OfRank(14) == StrictPress;
    case Thruster => assert OfRank(15) == Thruster;
  }

  lemma ConsecutiveLow(k: nat)
    requires 0 <= k < 5
    ensures Less(RawValue(OfRank(k)), RawValue(OfRank(k + 1)))
  {
    if k == 0 {
      assert Less("backSquat", "bench");
    } else if k == 1 {
      assert Less("bench", "deadlift");
    } else if k == 2 {
      assert Less("deadlift", "frontSquat");
    } else if k == 3 {
      assert Less("frontSquat", "hangPowerClean");
    } else {
      LessAfterPrefix("hangPower", "Clean", "Snatch");
      assert "hangPower" + "Clean" == "hangPowerClean" && "hangPower" + "Snatch" == "hangPowerSnatch";
    }
  }

  lemma ConsecutiveMiddle(k: nat)
    requires 5 <= k < 10
    ensures Less(RawValue(OfRank(k)), RawValue(OfRank(k + 1)))
  {
    if k == 5 {
      assert Less("hangPowerSnatch", "overHeadSquat");
    } else if k == 6 {
      assert Less("overHeadSquat", "powerClean");
    } else if k == 7 {
      LessAfterPrefix("power", "Clean", "Snatch");
      assert "power" + "Clean" == "powerClean" && "power" + "Snatch" == "powerSnatch";
    } else if k == 8 {
      assert Less("powerSnatch", "pushJerk");
    } else {
      LessAfterPrefix("push", "Jerk", "Press");
      assert "push" + "Jerk" == "pushJerk" && "push" + "Press" == "pushPress";
    }
  }

  lemma ConsecutiveHigh(k: nat)
    requires 10 <= k < 15
    ensures Less(RawValue(OfRank(k)), RawValue(OfRank(k + 1)))
  {
    if k == 10 {
      assert Less("pushPress", "splitJerk");
    } else if k == 11 {
      assert Less("splitJerk", "squatClean");
    } else if k == 12 {
      LessAfterPrefix("squat", "Clean", "Snatch");
      assert "squat" + "Clean" == "squatClean" && "squat" + "Snatch" == "squatSnatch";
    } else if k == 13 {
      assert Less("squatSnatch", "strictPress");
    } else {
      assert Less("strictPress", "thruster");
    }
  }

  /** Positions are in ascending raw-value order. */
  lemma {:induction false} RankLess(i: nat, j: nat)
    requires i < j < 16
    ensures Less(RawValue(OfRank(i)), RawValue(OfRank(j)))
    decreases j - i
  {
    if i < 5 {
      ConsecutiveLow(i);
    } else if i < 10 {
      ConsecutiveMiddle(i);
    } else {
      ConsecutiveHigh(i);
    }
    if i + 1 < j {
      RankLess(i + 1, j);
      LessTransitive(RawValue(OfRank(i)), RawValue(OfRank(i + 1)), RawValue(OfRank(j)));
    }
  }

  /** Every lift type, ascending by raw value. */
  const ByRawValue: seq<LiftType> :=
    [BackSquat, Bench, Deadlift, FrontSquat, HangPowerClean, HangPowerSnatch, OverHeadSquat, PowerClean,
     PowerSnatch, PushJerk, PushPress, SplitJerk, SquatClean, SquatSnatch, StrictPress, Thruster]

  /** `ByRawValue` lists the positions in order. */
  lemma ByRawValueRanks()
    ensures |ByRawValue| == 16
    ensures forall k :: 0 <= k < 16 ==> ByRawValue[k] == OfRank(k)
  {
  }

  /** `ByRawValue` lists every lift type. */
  lemma ByRawValueListsAll()
    ensures forall t :: t in ByRawValue
  {
    forall t ensures t in ByRawValue {
      OfRankCovers(t);
      ByRawValueRanks();
      var k :| 0 <= k < 16 && OfRank(k) == t;
      assert ByRawValue[k] == t;
    }
  }

  /** `ByRawValue` is strictly ascending. */
  lemma ByRawValueIsSorted()
    ensures AscendingByRawValue(ByRawValue)
  {
    ByRawValueRanks();
    forall i, j | 0 <= i < j < |ByRawValue| ensures Less(RawValue(ByRawValue[i]), RawValue(ByRawValue[j])) {
      RankLess(i, j);
    }
  }

  /** The elements of `s` that are in `keys`, in the order of `s`. */
  function Only(s: seq<LiftType>, keys: set<LiftType>): (r: seq<LiftType>)
    ensures forall t :: t in r <==> t in s && t in keys
  {
    if s == [] then []
    else if s[0] in keys then [s[0]] + Only(s[1..], keys)
    else Only(s[1..], keys)
  }

  /** Keeping some elements of an ascending sequence keeps it ascending. */
  lemma {:induction false} OnlyKeepsAscending(s: seq<LiftType>, keys: set<LiftType>)
    requires AscendingByRawValue(s)
    ensures AscendingByRawValue(Only(s, keys))
  {
    if s != [] {
      var rest := Only(s[1..], keys);
      assert AscendingByRawValue(s[1..]) by {
        forall i, j | 0 <= i < j < |s[1..]| ensures Less(RawValue(s[1..][i]), RawValue(s[1..][j])) {
          assert s[1..][i] == s[i + 1] && s[1..][j] == s[j + 1];
        }
      }
      OnlyKeepsAscending(s[1..], keys);
      forall k | 0 <= k < |rest| ensures Less(RawValue(s[0]), RawValue(rest[k])) {
        assert rest[k] in s[1..];
        var j :| 0 <= j < |s[1..]| && s[1..][j] == rest[k];
        assert s[j + 1] == rest[k];
      }
    }
  }

  /** The tile order: the keys of the grouping, ascending by raw value. */
  function SortedKeys(g: map<LiftType, seq<LiftEntry>>): (r: seq<LiftType>)
    ensures forall t :: t in r <==> t in g
    ensures AscendingByRawValue(r)
  {
    ByRawValueListsAll();
    ByRawValueIsSorted();
    OnlyKeepsAscending(ByRawValue, g.Keys);
    Only(ByRawValue, g.Keys)
  }

  /** Sorting is determined by the set of keys: any strictly ascending
      listing of the keys is `SortedKeys`. */
  lemma {:induction false} AscendingIsUnique(a: seq<LiftType>, b: seq<LiftType>)
    requires AscendingByRawValue(a) && AscendingByRawValue(b)
    requires forall t :: t in a <==> t in b
    ensures a == b
  {
    if a != [] {
      assert a[0] in a;
    }
    if b != [] {
      assert b[0] in b;
    }
    if a != [] && b != [] {
      if a[0] != b[0] {
        assert b[0] in a;
        var k :| 0 <= k < |a| && a[k] == b[0];
        assert a[0] in b;
        var m :| 0 <= m < |b| && b[m] == a[0];
        LessTransitive(RawValue(a[0]), RawValue(b[0]), RawValue(a[0]));
        LessIrreflexive(RawValue(a[0]));
      }
      forall t ensures t in a[1..] <==> t in b[1..] {
        if t in a[1..] {
          var k :| 0 <= k < |a[1..]| && a[1..][k] == t;
          assert a[k + 1] == t;
          if t == b[0] {
            LessIrreflexive(RawValue(t));
          }
          assert t in b;
        }
        if t in b[1..] {
          var k :| 0 <= k < |b[1..]| && b[1..][k] == t;
          assert b[k + 1] == t;
          if t == a[0] {
            LessIrreflexive(RawValue(t));
          }
          assert t in a;
        }
      }
      assert AscendingByRawValue(a[1..]) by {
        forall i, j | 0 <= i < j < |a[1..]| ensures Less(RawValue(a[1..][i]), RawValue(a[1..][j])) {
          assert a[1..][i] == a[i + 1] && a[1..][j] == a[j + 1];
        }
      }
      assert AscendingByRawValue(b[1..]) by {
        forall i, j | 0 <= i < j < |b[1..]| ensures Less(RawValue(b[1..][i]), RawValue(b[1..][j])) {
          assert b[1..][i] == b[i + 1] && b[1..][j] == b[j + 1];
        }
      }
      AscendingIsUnique(a[1..], b[1..]);
      assert a == [a[0]] + a[1..] && b == [b[0]] + b[1..];
    }
  }

  /** A tile of `entries`: a type that occurs, with exactly the entries of
      that type, never none. */
  ghost predicate IsTile(entries: seq<LiftEntry>, tile: (LiftType, seq<LiftEntry>))
  {
    Occurs(entries, tile.0) && tile.1 == OfType(entries, tile.0) && tile.1 != []
  }

  /** The tiles of the grid. */
  function Tiles(entries: seq<LiftEntry>): (tiles: seq<(LiftType, seq<LiftEntry>)>)
    ensures forall k :: 0 <= k < |tiles| ==> IsTile(entries, tiles[k])
  {
    var g := Group(entries);
    var keys := SortedKeys(g);
    TilesForGroups(keys, g, entries);
    TilesFor(keys, g)
  }

  lemma TilesForGroups(keys: seq<LiftType>, g: map<LiftType, seq<LiftEntry>>, entries: seq<LiftEntry>)
    requires forall t :: t in keys ==> t in g
    requires IsGrouping(g, entries)
    ensures var tiles := TilesFor(keys, g);
            forall k :: 0 <= k < |tiles| ==> IsTile(entries, tiles[k])
  {
    var tiles := TilesFor(keys, g);
    forall k | 0 <= k < |tiles| ensures IsTile(entries, tiles[k]) {
      assert keys[k] in keys;
    }
  }

  /** The tiles are strictly ascending by raw value, and every entry's lift
      type has one: one tile per type present, none twice. */
  lemma TilesOrderedAndComplete(entries: seq<LiftEntry>)
    ensures var tiles := Tiles(entries);
            forall i, j :: 0 <= i < j < |tiles| ==> Less(RawValue(tiles[i].0), RawValue(tiles[j].0))
    ensures var tiles := Tiles(entries);
            forall i :: 0 <= i < |entries| ==> exists k :: 0 <= k < |tiles| && tiles[k].0 == entries[i].liftType
  {
    var g := Group(entries);
    var keys := SortedKeys(g);
    var tiles := Tiles(entries);
    assert tiles == TilesFor(keys, g);
    forall i | 0 <= i < |entries| ensures exists k :: 0 <= k < |tiles| && tiles[k].0 == entries[i].liftType {
      assert Occurs(entries, entries[i].liftType);
      var k :| 0 <= k < |keys| && keys[k] == entries[i].liftType;
      assert tiles[k].0 == entries[i].liftType;
    }
  }

  /** A tile per key, in the order of `keys`. */
  function TilesFor(keys: seq<LiftType>, g: map<LiftType, seq<LiftEntry>>): (tiles: seq<(LiftType, seq<LiftEntry>)>)
    requires forall t :: t in keys ==> t in g
    ensures |tiles| == |keys| && forall k :: 0 <= k < |keys| ==> tiles[k] == (keys[k], g[keys[k]])
  {
    if keys == [] then [] else [(keys[0], g[keys[0]])] + TilesFor(keys[1..], g)
  }

  // ---------------------------------------------------------------------
  // The list below the grid
  // ---------------------------------------------------------------------

  datatype Row = NoEntries | EntryRow(entry: LiftEntry)

  /** One row per entry, or the single "No entries found" row. */
  function Rows(entries: seq<LiftEntry>): (rows: seq<Row>)
    ensures NoEntries in rows <==> entries == []
    ensures entries == [] ==> rows == [NoEntries]
    ensures entries != [] ==> |rows| == |entries| && forall i :: 0 <= i < |rows| ==> rows[i] == EntryRow(entries[i])
  {
    if entries == [] then [NoEntries]
    else seq(|entries|, i requires 0 <= i < |entries| => EntryRow(entries[i]))
  }

  /** `sortLiftEntriesByDate`: the same entries, oldest first. */
  function SortLiftEntriesByDate(lifts: seq<LiftEntry>): (r: seq<LiftEntry>)
    ensures multiset(r) == multiset(lifts)
    ensures forall i, j :: 0 <= i < j < |r| ==> r[i].date <= r[j].date
  {
    var r := DateSort.SortByDate(lifts, false);
    assert forall i, j :: 0 <= i < j < |r| ==> !DateSort.InIncreasingOrder(r[j], r[i], false);
    r
  }

  // ---------------------------------------------------------------------
  // The view's state
  // ---------------------------------------------------------------------

  /** The `@State` fields `liftEntries` and `needsRefresh`. */
  class HomeViewState {
    var liftEntries: seq<LiftEntry>
    var needsRefresh: bool

    constructor ()
      ensures liftEntries == [] && !needsRefresh
    {
      liftEntries, needsRefresh := [], false;
    }

    /** `fetchLiftEntries`: a successful fetch replaces the entries with
        the decoded listing; a failure leaves them as they were. */
    method FetchLiftEntries(db: CloudKitManager.Database, uuids: UuidSource, fault: Option<CloudKitManager.Error>)
      requires db.Valid() && uuids.Valid()
      modifies this`liftEntries, db`calls, uuids
      ensures uuids.Valid() && db.calls == old(db.calls) + 1
      ensures fault.Some? ==> liftEntries == old(liftEntries) && uuids.issued == old(uuids.issued)
      ensures fault.None? ==>
        exists firstId: Uuid ::
          && (forall u :: firstId <= u < firstId + |db.order| ==> u !in old(uuids.issued))
          && uuids.issued == old(uuids.issued) + Range(firstId, |db.order|)
          && liftEntries == CloudKitManager.DecodeRecords(db.Listing(), firstId)
    {
      var completion, firstId := CloudKitManager.FetchLiftEntries(db, uuids, fault);
      if completion.Some? && completion.value.Success? {
        liftEntries := completion.value.value;
      }
      assert fault.None? ==> liftEntries == CloudKitManager.DecodeRecords(db.Listing(), firstId);
    }

    /** `onChange(of: needsRefresh)`: a change to true fetches and resets
        the flag; a change to false does nothing. */
    method OnNeedsRefreshChange(newValue: bool, db: CloudKitManager.Database, uuids: UuidSource,
                                fault: Option<CloudKitManager.Error>)
      requires db.Valid() && uuids.Valid()
      modifies this, db`calls, uuids
      ensures uuids.Valid()
      ensures !newValue ==> liftEntries == old(liftEntries) && needsRefresh == old(needsRefresh)
                            && db.calls == old(db.calls) && unchanged(uuids)
      ensures newValue ==> !needsRefresh && db.calls == old(db.calls) + 1
      ensures newValue && fault.Some? ==> liftEntries == old(liftEntries) && uuids.issued == old(uuids.issued)
      ensures newValue && fault.None? ==>
        exists firstId: Uuid ::
          && (forall u :: firstId <= u < firstId + |db.order| ==> u !in old(uuids.issued))
          && uuids.issued == old(uuids.issued) + Range(firstId, |db.order|)
          && liftEntries == CloudKitManager.DecodeRecords(db.Listing(), firstId)
    {
      if newValue {
        FetchLiftEntries(db, uuids, fault);
        ghost var listing := db.Listing();
        needsRefresh := false;
        assert db.Listing() == listing;
      }
    }
  }
}
