/**
 * SentinelEngine: the batch loader that merges the pincode master, the
 * enrolment partitions and the biometric/demographic update partitions into
 * one table of enrolment rows (`df_enrol`), and the query that finds, within
 * a district, the pincode with the largest enrolment need.
 *
 * Files are not read here: a `DataFiles` value stands for what the data
 * directory holds, already parsed.
 */
module SentinelMetrics {
  import opened Wrappers
  import opened Frame
  import opened Text

  // ---------------------------------------------------------------------
  // Input rows, as parsed from the CSV files

  /** A row of pincode_master.csv; lat/lon are None where the value does not parse as a number. */
  datatype CoordRow = CoordRow(pincode: string, lat: Option<real>, lon: Option<real>)

  /** A row of an enrolment partition (columns age_0_5, age_5_17, age_18_greater). */
  datatype EnrolRow = EnrolRow(pincode: string, state: string, district: string,
                               age0To5: int, age5To17: int, age18Plus: int)

  /**
   * A row of a biometric partition (columns bio_age_5_17, bio_age_17_) or of
   * a demographic partition (columns demo_age_5_17, demo_age_17_).
   */
  datatype UpdateRow = UpdateRow(pincode: string, state: string, district: string,
                                 age5To17: int, age17Plus: int)

  /**
   * What the data directory holds: whether pincode_master.csv exists, its
   * rows, and the partitions of each category in the order they were found.
   */
  datatype DataFiles = DataFiles(
    masterPresent: bool,
    master: seq<CoordRow>,
    enrolment: seq<seq<EnrolRow>>,
    biometric: seq<seq<UpdateRow>>,
    demographic: seq<seq<UpdateRow>>)

  /** The key the update aggregates are grouped and merged on. */
  datatype Key = Key(pincode: string, state: string, district: string)

  /**
   * A row of the table while it is being built: an enrolment row plus the
   * columns the merges add (None where the merge found nothing).
   */
  datatype MasterRow = MasterRow(pincode: string, state: string, district: string,
                                 age0To5: int, age5To17: int, age18Plus: int,
                                 biometric: Option<int>, demographic: Option<int>,
                                 lat: Option<real>, lon: Option<real>)

  /** A row of the stored table: update counts filled in, coordinates present. */
  datatype Record = Record(pincode: string, state: string, district: string,
                           age0To5: int, age5To17: int, age18Plus: int,
                           biometricUpdated: int, demographicUpdated: int,
                           lat: real, lon: real)

  // The inclusive bounding box rows must fall in.
  const MinLat: real := 6.0
  const MaxLat: real := 38.0
  const MinLon: real := 68.0
  const MaxLon: real := 98.0

  // ---------------------------------------------------------------------
  // Columns and keys

  function EnrolKey(e: EnrolRow): Key {
    Key(e.pincode, e.state, e.district)
  }

  function UpdateKey(u: UpdateRow): Key {
    Key(u.pincode, u.state, u.district)
  }

  /** biometric_updated / demographic_updated of one update row: the sum of its two age columns. */
  function UpdateCount(u: UpdateRow): int {
    u.age5To17 + u.age17Plus
  }

  function RowKey(r: MasterRow): Key {
    Key(r.pincode, r.state, r.district)
  }

  function RowPincode(r: MasterRow): string {
    r.pincode
  }

  function CoordPincode(c: CoordRow): string {
    c.pincode
  }

  // ---------------------------------------------------------------------
  // The loading steps

  /** An enrolment row before any merge. */
  function FromEnrolment(e: EnrolRow): MasterRow {
    MasterRow(e.pincode, e.state, e.district, e.age0To5, e.age5To17, e.age18Plus, None, None, None, None)
  }

  function FromEnrolments(es: seq<EnrolRow>): seq<MasterRow> {
    seq(|es|, i requires 0 <= i < |es| => FromEnrolment(es[i]))
  }

  /** Per-key totals of one update category: its partitions concatenated, counted and group-summed. */
  function Aggregate(parts: seq<seq<UpdateRow>>): seq<Group<Key>> {
    GroupSum(Concat(parts), UpdateKey, UpdateCount)
  }

  function AttachBiometric(r: MasterRow, g: Option<Group<Key>>): MasterRow {
    r.(biometric := if g.Some? then Some(g.value.total) else None)
  }

  function AttachDemographic(r: MasterRow, g: Option<Group<Key>>): MasterRow {
    r.(demographic := if g.Some? then Some(g.value.total) else None)
  }

  function AttachCoordinates(r: MasterRow, c: Option<CoordRow>): MasterRow {
    r.(lat := if c.Some? then c.value.lat else None, lon := if c.Some? then c.value.lon else None)
  }

  function MergeBiometric(rows: seq<MasterRow>, parts: seq<seq<UpdateRow>>): seq<MasterRow> {
    LeftJoin(rows, Aggregate(parts), RowKey, GroupKey, AttachBiometric)
  }

  function MergeDemographic(rows: seq<MasterRow>, parts: seq<seq<UpdateRow>>): seq<MasterRow> {
    LeftJoin(rows, Aggregate(parts), RowKey, GroupKey, AttachDemographic)
  }

  function MergeCoordinates(rows: seq<MasterRow>, coords: seq<CoordRow>): seq<MasterRow> {
    LeftJoin(rows, coords, RowPincode, CoordPincode, AttachCoordinates)
  }

  function NormalizeStates(rows: seq<MasterRow>): seq<MasterRow> {
    seq(|rows|, i requires 0 <= i < |rows| => rows[i].(state := NormalizeState(rows[i].state)))
  }

  function FillMissingUpdates(rows: seq<MasterRow>): seq<MasterRow> {
    seq(|rows|, i requires 0 <= i < |rows| =>
      rows[i].(biometric := Some(rows[i].biometric.GetOr(0)), demographic := Some(rows[i].demographic.GetOr(0))))
  }

  predicate InBox(lat: real, lon: real) {
    MinLat <= lat <= MaxLat && MinLon <= lon <= MaxLon
  }

  /** The row's coordinates both parsed and lie in the bounding box. */
  predicate InIndia(r: MasterRow) {
    r.lat.Some? && r.lon.Some? && InBox(r.lat.value, r.lon.value)
  }

  predicate Filled(r: MasterRow) {
    r.biometric.Some? && r.demographic.Some?
  }

  function ToRecord(r: MasterRow): Record
    requires Filled(r) && InIndia(r)
  {
    Record(r.pincode, r.state, r.district, r.age0To5, r.age5To17, r.age18Plus,
           r.biometric.value, r.demographic.value, r.lat.value, r.lon.value)
  }

  /** Rows already filled and in the box, as stored records. */
  function ToRecords(kept: seq<MasterRow>): (t: seq<Record>)
    requires forall r :: r in kept ==> Filled(r) && InIndia(r)
    ensures |t| == |kept|
  {
    seq(|kept|, i requires 0 <= i < |kept| => ToRecord(kept[i]))
  }

  lemma ToRecordsAppend(a: seq<MasterRow>, b: seq<MasterRow>)
    requires forall r :: r in a + b ==> Filled(r) && InIndia(r)
    ensures ToRecords(a + b) == ToRecords(a) + ToRecords(b)
  {
    assert forall i :: 0 <= i < |a| ==> (a + b)[i] == a[i];
    assert forall i :: |a| <= i < |a| + |b| ==> (a + b)[i] == b[i - |a|];
  }

  /** The rows inside the bounding box, in their order, as stored records. */
  function KeepInIndia(rows: seq<MasterRow>): (t: seq<Record>)
    requires forall r :: r in rows ==> Filled(r)
    ensures |t| <= |rows|
    ensures forall x :: x in t ==> InBox(x.lat, x.lon)
    ensures forall x :: x in t ==> exists r :: r in rows && InIndia(r) && x == ToRecord(r)
  {
    var kept := Filter(rows, InIndia);
    var t := ToRecords(kept);
    forall x | x in t ensures InBox(x.lat, x.lon) && exists r :: r in rows && InIndia(r) && x == ToRecord(r) {
      var i :| 0 <= i < |t| && t[i] == x;
      assert kept[i] in kept;
    }
    t
  }

  /** Selecting in-box rows distributes over appending: kept rows keep their relative order. */
  lemma KeepInIndiaAppend(a: seq<MasterRow>, b: seq<MasterRow>)
    requires forall r :: r in a + b ==> Filled(r)
    ensures KeepInIndia(a + b) == KeepInIndia(a) + KeepInIndia(b)
  {
    FilterAppend(a, b, InIndia);
    ToRecordsAppend(Filter(a, InIndia), Filter(b, InIndia));
  }

  /** A single row is kept, as its record, exactly when its coordinates parsed and lie in the box. */
  lemma KeepInIndiaSingle(r: MasterRow)
    requires Filled(r)
    ensures KeepInIndia([r]) == if InIndia(r) then [ToRecord(r)] else []
  {
    assert [r][1..] == [];
  }

  /** Row `i` is kept, as its record, exactly when it is in the box, between the kept rows before it and those after it. */
  lemma KeepInIndiaAt(rows: seq<MasterRow>, i: nat)
    requires forall r :: r in rows ==> Filled(r)
    requires i < |rows|
    ensures KeepInIndia(rows) ==
      KeepInIndia(rows[..i]) + (if InIndia(rows[i]) then [ToRecord(rows[i])] else []) + KeepInIndia(rows[i + 1..])
  {
    assert rows == rows[..i] + ([rows[i]] + rows[i + 1..]);
    KeepInIndiaAppend(rows[..i], [rows[i]] + rows[i + 1..]);
    KeepInIndiaAppend([rows[i]], rows[i + 1..]);
    KeepInIndiaSingle(rows[i]);
  }

  // ---------------------------------------------------------------------
  // What each stored row is, stated without the merges

  /** The update count a key receives from a category: the key's total, or missing when no row has the key. */
  function UpdatesFor(parts: seq<seq<UpdateRow>>, k: Key): Option<int> {
    var rows := Concat(parts);
    if Occurs(rows, UpdateKey, k) then Some(SumWhere(rows, UpdateKey, UpdateCount, k)) else None
  }

  /**
   * The row the loader derives from one enrolment row: state normalized,
   * each update count the sum over that category's rows with the same
   * (pincode, state, district), coordinates of the first master row with
   * the same pincode.
   */
  function Expected(e: EnrolRow, files: DataFiles): MasterRow {
    var c := FirstWith(files.master, CoordPincode, e.pincode);
    MasterRow(e.pincode, NormalizeState(e.state), e.district, e.age0To5, e.age5To17, e.age18Plus,
              Some(SumWhere(Concat(files.biometric), UpdateKey, UpdateCount, EnrolKey(e))),
              Some(SumWhere(Concat(files.demographic), UpdateKey, UpdateCount, EnrolKey(e))),
              if c.Some? then c.value.lat else None,
              if c.Some? then c.value.lon else None)
  }

  /** One derived row per concatenated enrolment row, in order. */
  function ExpectedRows(files: DataFiles): (rows: seq<MasterRow>)
    ensures |rows| == |Concat(files.enrolment)|
    ensures forall r :: r in rows ==> Filled(r)
  {
    var es := Concat(files.enrolment);
    seq(|es|, i requires 0 <= i < |es| => Expected(es[i], files))
  }

  /** The stored table: the derived rows whose coordinates lie in the box. */
  function LoadedTable(files: DataFiles): seq<Record> {
    KeepInIndia(ExpectedRows(files))
  }

  // ---------------------------------------------------------------------
  // Properties of the steps

  /**
   * Merging an update category keeps one row per input row, in order, and
   * gives each row its key's total over the category, or missing.
   */
  lemma MergeBiometricPerRow(rows: seq<MasterRow>, parts: seq<seq<UpdateRow>>)
    ensures |MergeBiometric(rows, parts)| == |rows|
    ensures forall i :: 0 <= i < |rows| ==>
      MergeBiometric(rows, parts)[i] == rows[i].(biometric := UpdatesFor(parts, RowKey(rows[i])))
  {
    var agg := Aggregate(parts);
    LeftJoinOneToOne(rows, agg, RowKey, GroupKey, AttachBiometric);
    forall i | 0 <= i < |rows| {
      GroupSumLookup(Concat(parts), UpdateKey, UpdateCount, RowKey(rows[i]));
    }
  }

  lemma MergeDemographicPerRow(rows: seq<MasterRow>, parts: seq<seq<UpdateRow>>)
    ensures |MergeDemographic(rows, parts)| == |rows|
    ensures forall i :: 0 <= i < |rows| ==>
      MergeDemographic(rows, parts)[i] == rows[i].(demographic := UpdatesFor(parts, RowKey(rows[i])))
  {
    var agg := Aggregate(parts);
    LeftJoinOneToOne(rows, agg, RowKey, GroupKey, AttachDemographic);
    forall i | 0 <= i < |rows| {
      GroupSumLookup(Concat(parts), UpdateKey, UpdateCount, RowKey(rows[i]));
    }
  }

  /**
   * After deduplicating the master on pincode, the coordinate merge keeps
   * one row per input row, in order, carrying the coordinates of the first
   * master row with its pincode (missing when there is none).
   */
  lemma MergeCoordinatesPerRow(rows: seq<MasterRow>, master: seq<CoordRow>)
    ensures |MergeCoordinates(rows, DropDuplicates(master, CoordPincode))| == |rows|
    ensures forall i :: 0 <= i < |rows| ==>
      MergeCoordinates(rows, DropDuplicates(master, CoordPincode))[i]
        == AttachCoordinates(rows[i], FirstWith(master, CoordPincode, rows[i].pincode))
  {
    var coords := DropDuplicates(master, CoordPincode);
    LeftJoinOneToOne(rows, coords, RowPincode, CoordPincode, AttachCoordinates);
    forall i | 0 <= i < |rows| {
      DropDuplicatesKeepsFirst(master, CoordPincode, rows[i].pincode);
    }
  }

  /** After the fill, a row's update count is its key's total, and 0 when no update row has its key. */
  lemma FilledUpdateIsTotal(parts: seq<seq<UpdateRow>>, k: Key)
    ensures UpdatesFor(parts, k).GetOr(0) == SumWhere(Concat(parts), UpdateKey, UpdateCount, k)
    ensures !Occurs(Concat(parts), UpdateKey, k) ==> UpdatesFor(parts, k).GetOr(0) == 0
  {
    SumWhereAbsent(Concat(parts), UpdateKey, UpdateCount, k);
  }

  /**
   * The merges, the state normalization and the fill, applied in the
   * loader's order, give exactly the derived row of every enrolment row.
   */
  lemma {:induction false} MergedRowsAreExpected(files: DataFiles)
    ensures FillMissingUpdates(NormalizeStates(MergeCoordinates(
              MergeDemographic(MergeBiometric(FromEnrolments(Concat(files.enrolment)), files.biometric), files.demographic),
              DropDuplicates(files.master, CoordPincode))))
            == ExpectedRows(files)
  {
    var es := Concat(files.enrolment);
    var m0 := FromEnrolments(es);
    var m1 := MergeBiometric(m0, files.biometric);
    MergeBiometricPerRow(m0, files.biometric);
    var m2 := MergeDemographic(m1, files.demographic);
    MergeDemographicPerRow(m1, files.demographic);
    var m3 := MergeCoordinates(m2, DropDuplicates(files.master, CoordPincode));
    MergeCoordinatesPerRow(m2, files.master);
    var m5 := FillMissingUpdates(NormalizeStates(m3));
    forall i | 0 <= i < |es| ensures m5[i] == Expected(es[i], files) {
      FilledUpdateIsTotal(files.biometric, EnrolKey(es[i]));
      FilledUpdateIsTotal(files.demographic, EnrolKey(es[i]));
    }
  }

  // ---------------------------------------------------------------------
  // The stored table's invariant

  /** Rows sharing a pincode share their coordinates. */
  predicate CoordinatesAgree(t: seq<Record>) {
    forall x, y :: x in t && y in t && x.pincode == y.pincode ==> x.lat == y.lat && x.lon == y.lon
  }

  /** Every stored state is normalized, every row lies in the box, and a pincode fixes the coordinates. */
  predicate WellFormed(t: seq<Record>) {
    (forall x :: x in t ==> IsNormalizedState(x.state) && InBox(x.lat, x.lon))
    && CoordinatesAgree(t)
  }

  /** Every stored row carries the coordinates of its pincode's first master row. */
  lemma LoadedTableFirstCoordinates(files: DataFiles)
    ensures forall x :: x in LoadedTable(files) ==>
              FirstWith(files.master, CoordPincode, x.pincode).Some?
              && x.lat == FirstWith(files.master, CoordPincode, x.pincode).value.lat.value
              && x.lon == FirstWith(files.master, CoordPincode, x.pincode).value.lon.value
  {
    var rows := ExpectedRows(files);
    var es := Concat(files.enrolment);
    assert forall r :: r in rows ==> exists i :: 0 <= i < |es| && r == Expected(es[i], files);
    forall x | x in LoadedTable(files)
      ensures FirstWith(files.master, CoordPincode, x.pincode).Some?
      ensures x.lat == FirstWith(files.master, CoordPincode, x.pincode).value.lat.value
      ensures x.lon == FirstWith(files.master, CoordPincode, x.pincode).value.lon.value
    {
      var r :| r in rows && InIndia(r) && x == ToRecord(r);
      var i :| 0 <= i < |es| && r == Expected(es[i], files);
    }
  }

  /** The loaded table always satisfies the stored-table invariant. */
  lemma LoadedTableWellFormed(files: DataFiles)
    ensures WellFormed(LoadedTable(files))
  {
    var rows := ExpectedRows(files);
    var es := Concat(files.enrolment);
    assert forall r :: r in rows ==> exists i :: 0 <= i < |es| && r == Expected(es[i], files);
    LoadedTableFirstCoordinates(files);
    forall x | x in LoadedTable(files)
      ensures IsNormalizedState(x.state)
    {
      var r :| r in rows && InIndia(r) && x == ToRecord(r);
      var i :| 0 <= i < |es| && r == Expected(es[i], files);
      NormalizeStateIsNormalized(es[i].state);
    }
  }

  // ---------------------------------------------------------------------
  // The priority-spot query

  /** The group key of the query: pincode and exact coordinates. */
  datatype SpotKey = SpotKey(pincode: string, lat: real, lon: real)

  /** The query's answer: a group key and its total need. */
  datatype Spot = Spot(pincode: string, lat: real, lon: real, totalNeed: int)

  function SpotKeyOf(r: Record): SpotKey {
    SpotKey(r.pincode, r.lat, r.lon)
  }

  function KeyOfSpot(s: Spot): SpotKey {
    SpotKey(s.pincode, s.lat, s.lon)
  }

  function RecordPincode(r: Record): string {
    r.pincode
  }

  /** total_need of one row: its three enrolment age columns added. */
  function Need(r: Record): int {
    r.age0To5 + r.age5To17 + r.age18Plus
  }

  /** The row belongs to the queried state (upper-cased, not stripped) and district (as given). */
  predicate IsQueried(r: Record, stateName: string, districtName: string) {
    r.state == Upper(stateName) && r.district == districtName
  }

  function Selection(table: seq<Record>, stateName: string, districtName: string): seq<Record> {
    Filter(table, (r: Record) => IsQueried(r, stateName, districtName))
  }

  /**
   * The (pincode, lat, lon) group of the queried rows with the largest total
   * need, or None when no row is queried.
   */
  function PrioritySpot(table: seq<Record>, stateName: string, districtName: string): (spot: Option<Spot>)
    ensures spot.None? <==> forall r :: r in table ==> !IsQueried(r, stateName, districtName)
    ensures spot.Some? ==> exists r :: r in table && IsQueried(r, stateName, districtName)
                                       && SpotKeyOf(r) == KeyOfSpot(spot.value)
    ensures spot.Some? ==> spot.value.totalNeed
                             == SumWhere(Selection(table, stateName, districtName), SpotKeyOf, Need, KeyOfSpot(spot.value))
  {
    var selected := Selection(table, stateName, districtName);
    if selected == [] then
      None
    else
      assert selected[0] in selected;
      var groups := GroupSum(selected, SpotKeyOf, Need);
      assert Occurs(selected, SpotKeyOf, SpotKeyOf(selected[0]));
      var best := ArgMax(groups);
      var j :| 0 <= j < |groups| && groups[j] == best;
      assert Occurs(groups, GroupKey, best.key) by {
        assert GroupKey(groups[j]) == best.key;
      }
      var i :| 0 <= i < |selected| && SpotKeyOf(selected[i]) == best.key;
      assert selected[i] in selected;
      Some(Spot(best.key.pincode, best.key.lat, best.key.lon, best.total))
  }

  /** No queried group has a larger total need than the returned one. */
  lemma PrioritySpotIsMaximal(table: seq<Record>, stateName: string, districtName: string, r: Record)
    requires r in table && IsQueried(r, stateName, districtName)
    ensures PrioritySpot(table, stateName, districtName).Some?
    ensures SumWhere(Selection(table, stateName, districtName), SpotKeyOf, Need, SpotKeyOf(r))
              <= PrioritySpot(table, stateName, districtName).value.totalNeed
  {
    var selected := Selection(table, stateName, districtName);
    assert r in selected;
    var groups := GroupSum(selected, SpotKeyOf, Need);
    assert Occurs(selected, SpotKeyOf, SpotKeyOf(r)) by {
      var i :| 0 <= i < |selected| && selected[i] == r;
    }
    var j :| 0 <= j < |groups| && GroupKey(groups[j]) == SpotKeyOf(r);
    assert groups[j] in groups;
  }

  /**
   * When a pincode fixes the coordinates, grouping by (pincode, lat, lon) is
   * grouping by pincode: the returned total is that of every queried row
   * with the returned pincode.
   */
  lemma PrioritySpotGroupsByPincode(table: seq<Record>, stateName: string, districtName: string)
    requires CoordinatesAgree(table)
    ensures var spot := PrioritySpot(table, stateName, districtName);
      spot.Some? ==>
        spot.value.totalNeed == SumWhere(Selection(table, stateName, districtName), RecordPincode, Need, spot.value.pincode)
  {
    var spot := PrioritySpot(table, stateName, districtName);
    if spot.Some? {
      var selected := Selection(table, stateName, districtName);
      var r :| r in table && IsQueried(r, stateName, districtName) && SpotKeyOf(r) == KeyOfSpot(spot.value);
      SumWhereSameRows(selected, SpotKeyOf, KeyOfSpot(spot.value), RecordPincode, spot.value.pincode, Need);
    }
  }

  /**
   * The query upper-cases the state name but does not strip it, while stored
   * states are stripped: a name that upper-cases to something with leading
   * or trailing whitespace finds nothing.
   */
  lemma PrioritySpotNeedsTrimmedState(table: seq<Record>, stateName: string, districtName: string)
    requires forall x :: x in table ==> IsNormalizedState(x.state)
    ensures PrioritySpot(table, stateName, districtName).Some? ==> IsTrimmed(Upper(stateName))
  {
  }

  // ---------------------------------------------------------------------
  // The engine object

  class SentinelEngine {
    const dataDir: string
    /** df_enrol: the merged, filtered table; empty until a load succeeds. */
    var enrol: seq<Record>
    /**
     * Whether df_enrol has its columns. The constructor's empty frame has
     * none, so selecting its `state` column raises until a load succeeds.
     */
    var isLoaded: bool

    ghost predicate Valid()
      reads this
    {
      WellFormed(enrol)
    }

    constructor (dataDir: string)
      ensures this.dataDir == dataDir
      ensures enrol == [] && !isLoaded
      ensures Valid()
    {
      this.dataDir := dataDir;
      enrol := [];
      isLoaded := false;
    }

    /**
     * load_data. Without the pincode master it reports false and changes
     * nothing; otherwise it rebuilds `enrol` step by step and reports true.
     * The source raises when a category has no files at all, which the
     * precondition excludes.
     */
    method LoadData(files: DataFiles) returns (loaded: bool)
      requires Valid()
      requires files.masterPresent ==> files.enrolment != [] && files.biometric != [] && files.demographic != []
      modifies this
      ensures Valid()
      ensures loaded == files.masterPresent
      ensures !loaded ==> enrol == old(enrol) && isLoaded == old(isLoaded)
      ensures loaded ==> enrol == LoadedTable(files) && isLoaded
    {
      if !files.masterPresent {
        return false;
      }
      var coords := DropDuplicates(files.master, CoordPincode);

      var master := FromEnrolments(Concat(files.enrolment));
      // The source merges each update category only when it has files; the
      // precondition guarantees both do.
      master := MergeBiometric(master, files.biometric);
      master := MergeDemographic(master, files.demographic);
      master := MergeCoordinates(master, coords);
      master := NormalizeStates(master);
      master := FillMissingUpdates(master);
      MergedRowsAreExpected(files);

      enrol := KeepInIndia(master);
      isLoaded := true;
      LoadedTableWellFormed(files);
      loaded := true;
    }

    /**
     * get_priority_spot over the stored table (which must have its columns);
     * a spot found lies in the box, and only a state name that upper-cases
     * to a trimmed string can find one.
     */
    function GetPrioritySpot(stateName: string, districtName: string): (spot: Option<Spot>)
      reads this
      requires Valid() && isLoaded
      ensures spot.Some? ==> InBox(spot.value.lat, spot.value.lon) && IsTrimmed(Upper(stateName))
    {
      PrioritySpotNeedsTrimmedState(enrol, stateName, districtName);
      PrioritySpot(enrol, stateName, districtName)
    }
  }
}
