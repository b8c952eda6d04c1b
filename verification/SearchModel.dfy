/** The search service's read model, the two queries it answers from it, and which
    answers one upserted spot makes wrong. */
module SearchModel {
  import opened Wrappers

  datatype SpotRow = SpotRow(id: string, floor: int, number: int, vehicleType: string, code: string, status: string)

  type Table = map<string, SpotRow>

  datatype FloorAvailability = FloorAvailability(
    floor: int, availableCar: nat, availableMoto: nat, totalCar: nat, totalMoto: nat)

  /** The cached queries: availability for a vehicle type, where "" stands for all
      types, and the map of one floor. */
  datatype Key = AvailabilityKey(filter: string) | FloorMapKey(floor: int)

  datatype Answer = Floors(floors: seq<FloorAvailability>) | Spots(spots: seq<SpotRow>)

  const CAR := "car"
  const MOTORCYCLE := "motorcycle"
  const AVAILABLE := "available"
  const STATUSES := {"available", "reserved", "occupied"}

  /** The CHECK constraints of the table. */
  predicate Admissible(row: SpotRow) {
    1 <= row.floor <= 5 && (row.vehicleType == CAR || row.vehicleType == MOTORCYCLE) && row.status in STATUSES
  }

  predicate TableOk(t: Table) {
    forall id :: id in t ==> t[id].id == id && Admissible(t[id])
  }

  // ------------------------------------------------------------------
  // The queries
  // ------------------------------------------------------------------

  predicate Selected(key: Key, row: SpotRow) {
    match key
    case AvailabilityKey(filter) => filter == "" || row.vehicleType == filter
    case FloorMapKey(floor) => row.floor == floor
  }

  predicate Counted(key: Key, row: SpotRow, floor: int, vt: string, onlyAvailable: bool) {
    && Selected(key, row) && row.floor == floor && row.vehicleType == vt
    && (onlyAvailable ==> row.status == AVAILABLE)
  }

  function Counting(t: Table, key: Key, floor: int, vt: string, onlyAvailable: bool): set<string> {
    set id | id in t && Counted(key, t[id], floor, vt, onlyAvailable)
  }

  /** One group of the GROUP BY floor_number. */
  function FloorLine(t: Table, key: Key, floor: int): FloorAvailability {
    FloorAvailability(floor,
                      |Counting(t, key, floor, CAR, true)|, |Counting(t, key, floor, MOTORCYCLE, true)|,
                      |Counting(t, key, floor, CAR, false)|, |Counting(t, key, floor, MOTORCYCLE, false)|)
  }

  predicate OnFloor(t: Table, key: Key, floor: int) {
    exists id :: id in t && Selected(key, t[id]) && t[id].floor == floor
  }

  predicate Lists(a: seq<FloorAvailability>, floor: int) {
    exists i :: 0 <= i < |a| && a[i].floor == floor
  }

  predicate Ascending(a: seq<FloorAvailability>) {
    forall i, j :: 0 <= i < j < |a| ==> a[i].floor < a[j].floor
  }

  /** GetAvailabilityByVehicleType: a line per floor that has a selected spot, by floor. */
  ghost predicate IsAvailability(t: Table, filter: string, a: seq<FloorAvailability>) {
    var key := AvailabilityKey(filter);
    && Ascending(a)
    && (forall f: int :: Lists(a, f) <==> OnFloor(t, key, f))
    && (forall i :: 0 <= i < |a| ==> a[i] == FloorLine(t, key, a[i].floor))
  }

  predicate InTable(t: Table, row: SpotRow) {
    row.id in t && t[row.id] == row
  }

  /** GetFloorSpots: the floor's spots by number; spots of equal number in any order. */
  ghost predicate IsFloorMap(t: Table, floor: int, a: seq<SpotRow>) {
    && (forall i, j :: 0 <= i < j < |a| ==> a[i].number <= a[j].number && a[i].id != a[j].id)
    && (forall row: SpotRow :: row in a <==> InTable(t, row) && row.floor == floor)
  }

  ghost predicate Answers(t: Table, key: Key, a: Answer) {
    match key
    case AvailabilityKey(filter) => a.Floors? && IsAvailability(t, filter, a.floors)
    case FloorMapKey(floor) => a.Spots? && IsFloorMap(t, floor, a.spots)
  }

  // ------------------------------------------------------------------
  // The queries always have an answer; availability has just one
  // ------------------------------------------------------------------

  lemma {:induction false} SortFloors(t: Table, key: Key, floors: set<int>) returns (a: seq<FloorAvailability>)
    ensures Ascending(a)
    ensures forall f :: Lists(a, f) <==> f in floors
    ensures forall i :: 0 <= i < |a| ==> a[i] == FloorLine(t, key, a[i].floor)
  {
    if floors == {} {
      a := [];
    } else {
      var m := MinFloor(floors);
      var rest := SortFloors(t, key, floors - {m});
      a := [FloorLine(t, key, m)] + rest;
      forall f
        ensures Lists(a, f) <==> f in floors
      {
        if Lists(rest, f) {
          var i :| 0 <= i < |rest| && rest[i].floor == f;
          assert a[i + 1].floor == f;
        }
        assert a[0].floor == m;
      }
      forall i, j | 0 <= i < j < |a|
        ensures a[i].floor < a[j].floor
      {
        assert Lists(rest, a[j].floor);
      }
    }
  }

  lemma AnyOf<T>(s: set<T>) returns (x: T)
    requires s != {}
    ensures x in s
  {
    x :| x in s;
  }

  lemma {:induction false} MinFloor(floors: set<int>) returns (m: int)
    requires floors != {}
    ensures m in floors && forall f :: f in floors ==> m <= f
  {
    m := AnyOf(floors);
    if floors != {m} {
      var n := MinFloor(floors - {m});
      assert forall f :: f in floors ==> f == m || f in floors - {m};
      m := if n < m then n else m;
    }
  }

  lemma {:induction false} MinNumber(rows: set<SpotRow>) returns (m: SpotRow)
    requires rows != {}
    ensures m in rows && forall r :: r in rows ==> m.number <= r.number
  {
    m :| m in rows;
    if rows != {m} {
      var n := MinNumber(rows - {m});
      assert forall r :: r in rows ==> r == m || r in rows - {m};
      m := if n.number < m.number then n else m;
    }
  }

  lemma {:induction false} SortSpots(rows: set<SpotRow>) returns (a: seq<SpotRow>)
    requires forall r, s :: r in rows && s in rows && r.id == s.id ==> r == s
    ensures forall i, j :: 0 <= i < j < |a| ==> a[i].number <= a[j].number && a[i].id != a[j].id
    ensures forall row :: row in a <==> row in rows
  {
    if rows == {} {
      a := [];
    } else {
      var m := MinNumber(rows);
      var rest := SortSpots(rows - {m});
      a := [m] + rest;
      forall i, j | 0 <= i < j < |a|
        ensures a[i].number <= a[j].number && a[i].id != a[j].id
      {
        assert a[j] in rest;
      }
    }
  }

  lemma QueryHasAnswer(t: Table, key: Key)
    requires TableOk(t)
    ensures exists a :: Answers(t, key, a)
  {
    match key
    case AvailabilityKey(filter) =>
      var a := SortFloors(t, key, set id | id in t && Selected(key, t[id]) :: t[id].floor);
      assert Answers(t, key, Floors(a));
    case FloorMapKey(floor) =>
      var a := SortSpots(set id | id in t && t[id].floor == floor :: t[id]);
      assert Answers(t, key, Spots(a));
  }

  lemma {:induction false} AscendingUnique(t: Table, key: Key, a: seq<FloorAvailability>, b: seq<FloorAvailability>)
    requires Ascending(a) && Ascending(b) && forall f :: Lists(a, f) <==> Lists(b, f)
    requires forall i :: 0 <= i < |a| ==> a[i] == FloorLine(t, key, a[i].floor)
    requires forall i :: 0 <= i < |b| ==> b[i] == FloorLine(t, key, b[i].floor)
    ensures a == b
  {
    if a == [] {
      var first := if b == [] then 0 else b[0].floor;
      assert !Lists(a, first);
    } else {
      assert Lists(a, a[0].floor);
      assert Lists(b, b[0].floor);
      assert a[0].floor == b[0].floor;
      forall f
        ensures Lists(a[1..], f) <==> Lists(b[1..], f)
      {
        TailLists(a, f);
        TailLists(b, f);
      }
      AscendingUnique(t, key, a[1..], b[1..]);
    }
  }

  lemma TailLists(a: seq<FloorAvailability>, f: int)
    requires a != [] && Ascending(a)
    ensures Lists(a[1..], f) <==> Lists(a, f) && f != a[0].floor
  {
    if Lists(a, f) && f != a[0].floor {
      var i :| 0 <= i < |a| && a[i].floor == f;
      assert a[1..][i - 1].floor == f;
    }
  }

  /** So a coherent cache entry is the answer of the query, not merely an answer. */
  lemma AvailabilityIsUnique(t: Table, filter: string, a: seq<FloorAvailability>, b: seq<FloorAvailability>)
    requires IsAvailability(t, filter, a) && IsAvailability(t, filter, b)
    ensures a == b
  {
    AscendingUnique(t, AvailabilityKey(filter), a, b);
  }

  // ------------------------------------------------------------------
  // What the answers count
  // ------------------------------------------------------------------

  /** What an answer says about a floor; one that is not listed has no spots. */
  ghost function LineOf(a: seq<FloorAvailability>, floor: int): FloorAvailability {
    if Lists(a, floor) then
      var i :| 0 <= i < |a| && a[i].floor == floor;
      a[i]
    else FloorAvailability(floor, 0, 0, 0, 0)
  }

  lemma LineIs(t: Table, filter: string, a: seq<FloorAvailability>, floor: int)
    requires IsAvailability(t, filter, a)
    ensures LineOf(a, floor) == FloorLine(t, AvailabilityKey(filter), floor)
  {
    var key := AvailabilityKey(filter);
    if !Lists(a, floor) {
      NoneCounted(t, key, floor, CAR, true);
      NoneCounted(t, key, floor, CAR, false);
      NoneCounted(t, key, floor, MOTORCYCLE, true);
      NoneCounted(t, key, floor, MOTORCYCLE, false);
    }
  }

  lemma NoneCounted(t: Table, key: Key, floor: int, vt: string, onlyAvailable: bool)
    requires !OnFloor(t, key, floor)
    ensures Counting(t, key, floor, vt, onlyAvailable) == {}
  {
  }

  lemma CountsNew(t: Table, row: SpotRow, key: Key, floor: int, vt: string, onlyAvailable: bool)
    requires row.id !in t
    ensures |Counting(t[row.id := row], key, floor, vt, onlyAvailable)|
            == |Counting(t, key, floor, vt, onlyAvailable)| + if Counted(key, row, floor, vt, onlyAvailable) then 1 else 0
  {
    hide Counted;
    var with, with' := Counting(t, key, floor, vt, onlyAvailable), Counting(t[row.id := row], key, floor, vt, onlyAvailable);
    if Counted(key, row, floor, vt, onlyAvailable) {
      OneMore(with, with', row.id);
    } else {
      assert with' == with;
    }
  }

  /** Every spot is counted once: a new one adds one to its floor's spots of its type, and
      to the available ones if it is available, unless the filter names another type; it
      leaves everything else alone. With the empty table, whose answer is empty, this
      determines the answer for every table. */
  lemma SpotIsCounted(t: Table, row: SpotRow, filter: string, a: seq<FloorAvailability>, a': seq<FloorAvailability>, floor: int)
    requires TableOk(t) && Admissible(row) && row.id !in t
    requires IsAvailability(t, filter, a) && IsAvailability(t[row.id := row], filter, a')
    ensures var p, q, one := LineOf(a, floor), LineOf(a', floor), if row.status == "available" then 1 else 0;
            if floor != row.floor || (filter != "" && filter != row.vehicleType) then q == p
            else if row.vehicleType == "car" then q == p.(totalCar := p.totalCar + 1, availableCar := p.availableCar + one)
            else q == p.(totalMoto := p.totalMoto + 1, availableMoto := p.availableMoto + one)
  {
    hide IsAvailability, Counting;
    var key := AvailabilityKey(filter);
    LineIs(t, filter, a, floor);
    LineIs(t[row.id := row], filter, a', floor);
    CountsNew(t, row, key, floor, CAR, true);
    CountsNew(t, row, key, floor, CAR, false);
    CountsNew(t, row, key, floor, MOTORCYCLE, true);
    CountsNew(t, row, key, floor, MOTORCYCLE, false);
  }

  lemma EmptyHasNoLines(filter: string, a: seq<FloorAvailability>)
    requires IsAvailability(map[], filter, a)
    ensures a == []
  {
    assert a != [] ==> Lists(a, a[0].floor);
  }

  /** Answers come in order: floors ascending, and spots of a floor by number. */
  lemma AnswersInOrder(t: Table, key: Key, a: Answer)
    requires Answers(t, key, a)
    ensures a.Floors? ==> forall i, j :: 0 <= i < j < |a.floors| ==> a.floors[i].floor < a.floors[j].floor
    ensures a.Spots? ==> forall i, j :: 0 <= i < j < |a.spots| ==> a.spots[i].number <= a.spots[j].number
  {
  }

  // ------------------------------------------------------------------
  // One upserted spot
  // ------------------------------------------------------------------

  function RowOf(t: Table, id: string): Option<SpotRow> {
    if id in t then Some(t[id]) else None
  }

  /** The spot, as it was and as it becomes, is the same to this query. */
  predicate StaysCurrent(was: Option<SpotRow>, row: SpotRow, key: Key) {
    || was == Some(row)
    || (!Selected(key, row) && (was.None? || !Selected(key, was.value)))
    || (&& key.AvailabilityKey? && was.Some?
        && was.value.floor == row.floor && was.value.vehicleType == row.vehicleType
        && (was.value.status == AVAILABLE <==> row.status == AVAILABLE))
  }

  lemma SameCounts(t: Table, row: SpotRow, key: Key, floor: int, vt: string, onlyAvailable: bool)
    requires TableOk(t) && key.AvailabilityKey? && StaysCurrent(RowOf(t, row.id), row, key)
    ensures Counting(t[row.id := row], key, floor, vt, onlyAvailable) == Counting(t, key, floor, vt, onlyAvailable)
  {
  }

  lemma SameFloors(t: Table, row: SpotRow, key: Key, floor: int)
    requires TableOk(t) && key.AvailabilityKey? && StaysCurrent(RowOf(t, row.id), row, key)
    ensures OnFloor(t[row.id := row], key, floor) <==> OnFloor(t, key, floor)
  {
    var t' := t[row.id := row];
    if id :| id in t && Selected(key, t[id]) && t[id].floor == floor {
      assert id in t' && Selected(key, t'[id]) && t'[id].floor == floor;
    }
    if id :| id in t' && Selected(key, t'[id]) && t'[id].floor == floor {
      assert id in t && Selected(key, t[id]) && t[id].floor == floor;
    }
  }

  lemma StaysCurrentKeepsAnswers(t: Table, row: SpotRow, key: Key, a: Answer)
    requires TableOk(t) && StaysCurrent(RowOf(t, row.id), row, key)
    ensures Answers(t, key, a) <==> Answers(t[row.id := row], key, a)
  {
    hide Counting, OnFloor;
    var t' := t[row.id := row];
    match key
    case AvailabilityKey(filter) =>
      forall f: int
        ensures OnFloor(t', key, f) <==> OnFloor(t, key, f)
      {
        SameFloors(t, row, key, f);
      }
      forall f: int
        ensures FloorLine(t', key, f) == FloorLine(t, key, f)
      {
        SameCounts(t, row, key, f, CAR, true);
        SameCounts(t, row, key, f, MOTORCYCLE, true);
        SameCounts(t, row, key, f, CAR, false);
        SameCounts(t, row, key, f, MOTORCYCLE, false);
      }
    case FloorMapKey(floor) =>
      forall r: SpotRow
        ensures InTable(t', r) && r.floor == floor <==> InTable(t, r) && r.floor == floor
      {
      }
  }

  lemma OneMore<T>(s: set<T>, s': set<T>, x: T)
    requires x !in s && x in s' && forall y :: y != x ==> (y in s <==> y in s')
    ensures |s'| == |s| + 1
  {
    assert s' == s + {x};
  }

  /** A spot that is counted in one table and not in the other changes the count. */
  lemma CountChanges(t: Table, row: SpotRow, key: Key, floor: int, vt: string, onlyAvailable: bool)
    requires (row.id in t && Counted(key, t[row.id], floor, vt, onlyAvailable)) != Counted(key, row, floor, vt, onlyAvailable)
    ensures |Counting(t, key, floor, vt, onlyAvailable)| != |Counting(t[row.id := row], key, floor, vt, onlyAvailable)|
  {
    hide Counted;
    var with := Counting(t, key, floor, vt, onlyAvailable);
    var with' := Counting(t[row.id := row], key, floor, vt, onlyAvailable);
    if row.id in with {
      OneMore(with', with, row.id);
    } else {
      OneMore(with, with', row.id);
    }
  }

  lemma LineChanges(t: Table, row: SpotRow, key: Key, a: seq<FloorAvailability>, floor: int)
    requires key.AvailabilityKey? && IsAvailability(t, key.filter, a)
    requires FloorLine(t, key, floor) != FloorLine(t[row.id := row], key, floor)
    requires OnFloor(t, key, floor) || OnFloor(t[row.id := row], key, floor)
    ensures !IsAvailability(t[row.id := row], key.filter, a)
  {
    hide FloorLine, OnFloor;
    if OnFloor(t, key, floor) {
      assert Lists(a, floor);
      var i :| 0 <= i < |a| && a[i].floor == floor;
      assert a[i] == FloorLine(t, key, floor);
    }
  }

  /** Where the spot stops being counted, or starts to be, the answer is wrong. */
  lemma AvailabilityChanges(t: Table, row: SpotRow, key: Key, a: seq<FloorAvailability>)
    requires TableOk(t) && Admissible(row) && key.AvailabilityKey? && IsAvailability(t, key.filter, a)
    requires !StaysCurrent(RowOf(t, row.id), row, key)
    ensures !IsAvailability(t[row.id := row], key.filter, a)
  {
    hide Counting, IsAvailability;
    var t' := t[row.id := row];
    var was := RowOf(t, row.id);
    assert t'[row.id] == row;
    if was.Some? && Selected(key, was.value)
       && (was.value.floor != row.floor || was.value.vehicleType != row.vehicleType || !Selected(key, row)) {
      assert OnFloor(t, key, was.value.floor);
      CountChanges(t, row, key, was.value.floor, was.value.vehicleType, false);
      LineChanges(t, row, key, a, was.value.floor);
    } else if was.None? || !Selected(key, was.value) {
      assert OnFloor(t', key, row.floor);
      CountChanges(t, row, key, row.floor, row.vehicleType, false);
      LineChanges(t, row, key, a, row.floor);
    } else {
      assert OnFloor(t, key, row.floor);
      CountChanges(t, row, key, row.floor, row.vehicleType, true);
      LineChanges(t, row, key, a, row.floor);
    }
  }

  lemma FloorMapChanges(t: Table, row: SpotRow, key: Key, a: seq<SpotRow>)
    requires TableOk(t) && key.FloorMapKey? && IsFloorMap(t, key.floor, a)
    requires !StaysCurrent(RowOf(t, row.id), row, key)
    ensures !IsFloorMap(t[row.id := row], key.floor, a)
  {
    var t' := t[row.id := row];
    assert InTable(t', row) && !InTable(t, row);
    if row.floor != key.floor {
      var was := t[row.id];
      assert InTable(t, was) && !InTable(t', was);
      assert was in a;
    } else {
      assert row !in a;
    }
  }

  /** Exactly which answers survive an upsert: those of queries to which the spot
      looks the same as before. Every other answer is wrong from then on. */
  lemma UpsertKeepsExactly(t: Table, row: SpotRow, key: Key, a: Answer)
    requires TableOk(t) && Admissible(row) && Answers(t, key, a)
    ensures Answers(t[row.id := row], key, a) <==> StaysCurrent(RowOf(t, row.id), row, key)
  {
    hide IsAvailability, IsFloorMap;
    if StaysCurrent(RowOf(t, row.id), row, key) {
      StaysCurrentKeepsAnswers(t, row, key, a);
    } else if key.AvailabilityKey? {
      AvailabilityChanges(t, row, key, a.floors);
    } else {
      FloorMapChanges(t, row, key, a.spots);
    }
  }
}
