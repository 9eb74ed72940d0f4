/**
 * The `flight_history` table behind `FlightRecordDao`: the WHERE clauses and ORDER BY clauses of
 * its queries as pure functions of the stored rows, the table as a value (rows plus the next
 * auto-generated key) with its insert-or-replace and purge, and the class the rest of the app
 * mutates in place.
 */
module FlightRecordDao {
  import opened Options
  import opened FlightRecords

  // ---------------------------------------------------------------------------------------------
  // Text order of the BINARY collation: code point by code point, a proper prefix first.

  predicate LexLe(a: string, b: string)
    decreases |a|
  {
    if a == [] then true
    else if b == [] then false
    else if a[0] != b[0] then a[0] < b[0]
    else LexLe(a[1..], b[1..])
  }

  lemma {:induction false} LexLeTotal(a: string, b: string)
    ensures LexLe(a, b) || LexLe(b, a)
    decreases |a|
  {
    if a != [] && b != [] && a[0] == b[0] {
      LexLeTotal(a[1..], b[1..]);
    }
  }

  lemma {:induction false} LexLeTransitive(a: string, b: string, c: string)
    requires LexLe(a, b) && LexLe(b, c)
    ensures LexLe(a, c)
    decreases |a|
  {
    if a != [] && b != [] && c != [] && a[0] == b[0] && b[0] == c[0] {
      LexLeTransitive(a[1..], b[1..], c[1..]);
    }
  }

  // ---------------------------------------------------------------------------------------------
  // WHERE clauses.

  datatype Where =
    | OnRoute(origin: string, destination: string)
    | OnRouteAndDate(origin: string, destination: string, date: string)
    | OnRouteWithActuals(origin: string, destination: string)
    | RecordedBefore(threshold: int)
    | RecordedAtOrAfter(threshold: int)

  predicate Matches(w: Where, r: FlightRecord) {
    match w
    case OnRoute(o, d) => r.originIata == o && r.destinationIata == d
    case OnRouteAndDate(o, d, date) => r.originIata == o && r.destinationIata == d && r.flightDate == date
    case OnRouteWithActuals(o, d) =>
      r.originIata == o && r.destinationIata == d
      && r.actualDepartureUtcMillis.Some? && r.actualArrivalUtcMillis.Some?
    case RecordedBefore(t) => r.recordedAtMillis < t
    case RecordedAtOrAfter(t) => r.recordedAtMillis >= t
  }

  /** `SELECT * FROM flight_history WHERE w`, the matching rows in storage order. */
  function Select(rows: seq<FlightRecord>, w: Where): (r: seq<FlightRecord>)
    ensures |r| <= |rows|
    ensures forall i :: 0 <= i < |r| ==> Matches(w, r[i])
  {
    if rows == [] then []
    else (if Matches(w, rows[0]) then [rows[0]] else []) + Select(rows[1..], w)
  }

  /** Each matching row occurs in the result as often as in the table, and no other row does. */
  lemma {:induction false} SelectCount(rows: seq<FlightRecord>, w: Where)
    ensures forall x {:trigger multiset(Select(rows, w))[x]} ::
      multiset(Select(rows, w))[x] == (if Matches(w, x) then multiset(rows)[x] else 0)
  {
    if rows != [] {
      SelectCount(rows[1..], w);
      assert rows == [rows[0]] + rows[1..];
    }
  }

  lemma SelectMembership(rows: seq<FlightRecord>, w: Where)
    ensures forall x {:trigger x in Select(rows, w)} :: x in Select(rows, w) <==> x in rows && Matches(w, x)
  {
    SelectCount(rows, w);
    forall x
      ensures x in Select(rows, w) <==> x in rows && Matches(w, x)
    {
      assert x in Select(rows, w) <==> multiset(Select(rows, w))[x] > 0;
      assert x in rows <==> multiset(rows)[x] > 0;
    }
  }

  lemma {:induction false} SelectAppend(a: seq<FlightRecord>, b: seq<FlightRecord>, w: Where)
    ensures Select(a + b, w) == Select(a, w) + Select(b, w)
  {
    if a == [] {
      assert a + b == b;
    } else {
      var h := if Matches(w, a[0]) then [a[0]] else [];
      assert (a + b)[0] == a[0];
      assert (a + b)[1..] == a[1..] + b;
      assert Select(a + b, w) == h + Select(a[1..] + b, w);
      SelectAppend(a[1..], b, w);
      assert Select(a, w) == h + Select(a[1..], w);
    }
  }

  /** A row is either older than the threshold or not: the two selections split the table. */
  lemma {:induction false} SelectPartition(rows: seq<FlightRecord>, t: int)
    ensures |Select(rows, RecordedBefore(t))| + |Select(rows, RecordedAtOrAfter(t))| == |rows|
  {
    if rows != [] {
      SelectPartition(rows[1..], t);
    }
  }

  /** A WHERE clause every row satisfies selects the whole table, in its order. */
  lemma {:induction false} SelectAll(rows: seq<FlightRecord>, w: Where)
    requires forall i :: 0 <= i < |rows| ==> Matches(w, rows[i])
    ensures Select(rows, w) == rows
  {
    if rows != [] {
      assert Matches(w, rows[0]);
      SelectAll(rows[1..], w);
      assert rows == [rows[0]] + rows[1..];
    }
  }

  // ---------------------------------------------------------------------------------------------
  // ORDER BY clauses (descending); rows with equal keys may come in either order.

  datatype OrderBy = FlightDateDesc | RecordedAtDesc

  /** `a` may be listed before `b`. */
  predicate Precedes(o: OrderBy, a: FlightRecord, b: FlightRecord) {
    match o
    case FlightDateDesc => LexLe(b.flightDate, a.flightDate)
    case RecordedAtDesc => b.recordedAtMillis <= a.recordedAtMillis
  }

  lemma PrecedesTotal(o: OrderBy, a: FlightRecord, b: FlightRecord)
    ensures Precedes(o, a, b) || Precedes(o, b, a)
  {
    if o == FlightDateDesc {
      LexLeTotal(a.flightDate, b.flightDate);
    }
  }

  lemma PrecedesTransitive(o: OrderBy, a: FlightRecord, b: FlightRecord, c: FlightRecord)
    requires Precedes(o, a, b) && Precedes(o, b, c)
    ensures Precedes(o, a, c)
  {
    if o == FlightDateDesc {
      LexLeTransitive(c.flightDate, b.flightDate, a.flightDate);
    }
  }

  predicate SortedBy(o: OrderBy, s: seq<FlightRecord>) {
    forall i, j :: 0 <= i < j < |s| ==> Precedes(o, s[i], s[j])
  }

  lemma PrecedesSorted(o: OrderBy, x: FlightRecord, s: seq<FlightRecord>)
    requires SortedBy(o, s) && s != [] && Precedes(o, x, s[0])
    ensures forall j :: 0 <= j < |s| ==> Precedes(o, x, s[j])
  {
    forall j | 0 < j < |s|
      ensures Precedes(o, x, s[j])
    {
      PrecedesTransitive(o, x, s[0], s[j]);
    }
  }

  lemma PrecedesAll(o: OrderBy, h: FlightRecord, x: FlightRecord, tail: seq<FlightRecord>, r: seq<FlightRecord>)
    requires Precedes(o, h, x)
    requires forall j :: 0 <= j < |tail| ==> Precedes(o, h, tail[j])
    requires multiset(r) == multiset(tail) + multiset{x}
    ensures forall j :: 0 <= j < |r| ==> Precedes(o, h, r[j])
  {
    forall j | 0 <= j < |r|
      ensures Precedes(o, h, r[j])
    {
      assert r[j] in multiset(r);
      if r[j] != x {
        assert r[j] in multiset(tail);
        var k :| 0 <= k < |tail| && tail[k] == r[j];
      }
    }
  }

  function InsertOrdered(o: OrderBy, x: FlightRecord, s: seq<FlightRecord>): (r: seq<FlightRecord>)
    requires SortedBy(o, s)
    ensures SortedBy(o, r)
    ensures multiset(r) == multiset(s) + multiset{x}
    decreases |s|
  {
    if s == [] then [x]
    else if Precedes(o, x, s[0]) then
      PrecedesSorted(o, x, s);
      [x] + s
    else
      assert s == [s[0]] + s[1..];
      PrecedesTotal(o, x, s[0]);
      var rest := InsertOrdered(o, x, s[1..]);
      PrecedesAll(o, s[0], x, s[1..], rest);
      [s[0]] + rest
  }

  /** Insertion sort: an ordering of the rows under `o`. */
  function Sort(o: OrderBy, s: seq<FlightRecord>): (r: seq<FlightRecord>)
    ensures SortedBy(o, r)
    ensures multiset(r) == multiset(s)
  {
    if s == [] then []
    else
      assert s == [s[0]] + s[1..];
      InsertOrdered(o, s[0], Sort(o, s[1..]))
  }

  // ---------------------------------------------------------------------------------------------
  // The four SELECT queries of the DAO, over the current rows.

  /** `getFlightsBetween`: the route's rows, latest flight date first. */
  function GetFlightsBetween(rows: seq<FlightRecord>, origin: string, destination: string)
    : (r: seq<FlightRecord>)
    ensures SortedBy(FlightDateDesc, r)
    ensures forall x ::
              multiset(r)[x] ==
              (if x.originIata == origin && x.destinationIata == destination then multiset(rows)[x] else 0)
  {
    SelectCount(rows, OnRoute(origin, destination));
    Sort(FlightDateDesc, Select(rows, OnRoute(origin, destination)))
  }

  /** `getFlightsForRouteOnDate`: the rows of that route with that flight date. */
  function GetFlightsForRouteOnDate(rows: seq<FlightRecord>, origin: string, destination: string, date: string)
    : (r: seq<FlightRecord>)
    ensures forall x ::
              multiset(r)[x] ==
              (if x.originIata == origin && x.destinationIata == destination && x.flightDate == date
               then multiset(rows)[x] else 0)
  {
    SelectCount(rows, OnRouteAndDate(origin, destination, date));
    Select(rows, OnRouteAndDate(origin, destination, date))
  }

  /** `getAllRecords`: every row, most recently captured first. */
  function GetAllRecords(rows: seq<FlightRecord>): (r: seq<FlightRecord>)
    ensures SortedBy(RecordedAtDesc, r)
    ensures multiset(r) == multiset(rows)
  {
    Sort(RecordedAtDesc, rows)
  }

  /** `getValidFlightsForAverage`: the route's rows whose two actual timestamps are non-null. */
  function GetValidFlightsForAverage(rows: seq<FlightRecord>, origin: string, destination: string)
    : (r: seq<FlightRecord>)
    ensures forall x ::
              multiset(r)[x] ==
              (if && x.originIata == origin && x.destinationIata == destination
                  && x.actualDepartureUtcMillis.Some? && x.actualArrivalUtcMillis.Some?
               then multiset(rows)[x] else 0)
  {
    SelectCount(rows, OnRouteWithActuals(origin, destination));
    Select(rows, OnRouteWithActuals(origin, destination))
  }

  /** The rows used for the average are among the route's rows. */
  lemma ValidFlightsAmongRouteFlights(rows: seq<FlightRecord>, origin: string, destination: string)
    ensures multiset(GetValidFlightsForAverage(rows, origin, destination))
         <= multiset(GetFlightsBetween(rows, origin, destination))
  {
  }

  // ---------------------------------------------------------------------------------------------
  // The table as a value: its rows in storage order and the key the next auto-id insert gets.

  datatype Table = Table(rows: seq<FlightRecord>, nextId: int)

  predicate IdsBelow(rows: seq<FlightRecord>, bound: int) {
    forall i :: 0 <= i < |rows| ==> rows[i].id != AUTO_ID && rows[i].id < bound
  }

  predicate DistinctIds(rows: seq<FlightRecord>) {
    forall i, j :: 0 <= i < j < |rows| ==> rows[i].id != rows[j].id
  }

  /** The primary key is unique, never the auto-id marker, and below the next key to assign. */
  predicate ValidTable(t: Table) {
    1 <= t.nextId && IdsBelow(t.rows, t.nextId) && DistinctIds(t.rows)
  }

  const EmptyTable := Table([], 1)

  /** Position of the row carrying primary key `id`, if any. */
  function IndexOfId(rows: seq<FlightRecord>, id: int): (k: Option<nat>)
    ensures k.Some? ==> k.value < |rows| && rows[k.value].id == id
    ensures k.None? ==> forall i :: 0 <= i < |rows| ==> rows[i].id != id
  {
    if rows == [] then None
    else if rows[0].id == id then Some(0)
    else match IndexOfId(rows[1..], id)
      case None => None
      case Some(k) => Some(k + 1)
  }

  /**
   * `@Insert(onConflict = REPLACE)` of one record: an AUTO_ID record gets the next key; a record
   * whose key is already present replaces that row wholesale; any other key is stored as given
   * and later auto keys are assigned above it.
   */
  function Upsert(t: Table, r: FlightRecord): (u: Table)
    ensures ValidTable(t) ==> ValidTable(u)
    ensures t.nextId <= u.nextId
  {
    if r.id == AUTO_ID then
      Table(t.rows + [r.(id := t.nextId)], t.nextId + 1)
    else
      match IndexOfId(t.rows, r.id)
      case Some(k) => Table(t.rows[k := r], t.nextId)
      case None => Table(t.rows + [r], if r.id >= t.nextId then r.id + 1 else t.nextId)
  }

  /** `insertAll`: the records inserted one after the other, in list order. */
  function UpsertAll(t: Table, rs: seq<FlightRecord>): (u: Table)
    ensures ValidTable(t) ==> ValidTable(u)
    decreases |rs|
  {
    if rs == [] then t else UpsertAll(Upsert(t, rs[0]), rs[1..])
  }

  /** The records with the consecutive keys `first`, `first + 1`, ... */
  function Numbered(rs: seq<FlightRecord>, first: int): (r: seq<FlightRecord>)
    ensures |r| == |rs|
    ensures forall k :: 0 <= k < |rs| ==> r[k] == rs[k].(id := first + k)
  {
    if rs == [] then [] else [rs[0].(id := first)] + Numbered(rs[1..], first + 1)
  }

  /**
   * Inserting records that all carry AUTO_ID appends every one of them, in order, with fresh
   * consecutive keys starting at the next key; the existing rows are untouched.
   */
  lemma {:induction false} UpsertAllFresh(t: Table, rs: seq<FlightRecord>)
    requires forall k :: 0 <= k < |rs| ==> rs[k].id == AUTO_ID
    ensures UpsertAll(t, rs) == Table(t.rows + Numbered(rs, t.nextId), t.nextId + |rs|)
    decreases |rs|
  {
    if rs != [] {
      var x := rs[0].(id := t.nextId);
      var t' := Table(t.rows + [x], t.nextId + 1);
      assert UpsertAll(t, rs) == UpsertAll(t', rs[1..]);
      UpsertAllFresh(t', rs[1..]);
      AppendNumbered(t.rows, rs, t.nextId);
    }
  }

  lemma AppendNumbered(rows: seq<FlightRecord>, rs: seq<FlightRecord>, first: int)
    requires rs != []
    ensures rows + Numbered(rs, first) == (rows + [rs[0].(id := first)]) + Numbered(rs[1..], first + 1)
  {
    assert Numbered(rs, first) == [rs[0].(id := first)] + Numbered(rs[1..], first + 1);
  }

  /** The fresh keys of such an insert are pairwise distinct and unused by the rows already stored. */
  lemma FreshKeysDistinct(t: Table, rs: seq<FlightRecord>)
    requires ValidTable(t)
    requires forall k :: 0 <= k < |rs| ==> rs[k].id == AUTO_ID
    ensures |UpsertAll(t, rs).rows| == |t.rows| + |rs|
    ensures UpsertAll(t, rs).rows[..|t.rows|] == t.rows
    ensures forall i, j :: 0 <= i < |t.rows| <= j < |UpsertAll(t, rs).rows| ==>
              UpsertAll(t, rs).rows[i].id != UpsertAll(t, rs).rows[j].id
    ensures DistinctIds(UpsertAll(t, rs).rows)
  {
    UpsertAllFresh(t, rs);
    var u := UpsertAll(t, rs);
    assert u.rows[..|t.rows|] == t.rows;
  }

  /** A record whose key is present replaces that one row and no other. */
  lemma UpsertReplaces(t: Table, r: FlightRecord, k: nat)
    requires ValidTable(t)
    requires r.id != AUTO_ID && k < |t.rows| && t.rows[k].id == r.id
    ensures Upsert(t, r) == Table(t.rows[k := r], t.nextId)
  {
    var found := IndexOfId(t.rows, r.id);
    assert found.Some?;
    assert found.value == k;
  }

  /** `DELETE FROM flight_history WHERE recordedAtMillis < threshold`. */
  function Purge(t: Table, threshold: int): (u: Table)
    ensures ValidTable(t) ==> ValidTable(u)
  {
    SelectKeepsTable(t, RecordedAtOrAfter(threshold));
    Table(Select(t.rows, RecordedAtOrAfter(threshold)), t.nextId)
  }

  lemma {:induction false} SelectKeepsIds(rows: seq<FlightRecord>, w: Where, bound: int)
    requires IdsBelow(rows, bound) && DistinctIds(rows)
    ensures IdsBelow(Select(rows, w), bound) && DistinctIds(Select(rows, w))
  {
    if rows != [] {
      var rest := Select(rows[1..], w);
      SelectKeepsIds(rows[1..], w, bound);
      SelectMembership(rows[1..], w);
      forall j | 0 <= j < |rest|
        ensures rest[j].id != rows[0].id
      {
        assert rest[j] in rest;
        assert rest[j] in rows[1..];
      }
    }
  }

  lemma SelectKeepsTable(t: Table, w: Where)
    ensures ValidTable(t) ==> ValidTable(Table(Select(t.rows, w), t.nextId))
  {
    if ValidTable(t) {
      SelectKeepsIds(t.rows, w, t.nextId);
    }
  }

  /** The purge removes exactly the rows captured before the threshold and keeps all others. */
  lemma PurgeExact(t: Table, threshold: int)
    ensures forall x :: multiset(Purge(t, threshold).rows)[x] ==
              (if x.recordedAtMillis >= threshold then multiset(t.rows)[x] else 0)
    ensures |t.rows| == |Select(t.rows, RecordedBefore(threshold))| + |Purge(t, threshold).rows|
    ensures Purge(t, threshold).nextId == t.nextId
  {
    SelectCount(t.rows, RecordedAtOrAfter(threshold));
    SelectPartition(t.rows, threshold);
  }

  // ---------------------------------------------------------------------------------------------
  // The table as the app holds it: one mutable object.

  class FlightHistory {
    var rows: seq<FlightRecord>
    var nextId: int

    function State(): Table
      reads this
    {
      Table(rows, nextId)
    }

    predicate Valid()
      reads this
    {
      ValidTable(State())
    }

    constructor ()
      ensures Valid() && State() == EmptyTable
    {
      rows := [];
      nextId := 1;
    }

    /** `insertFlightRecord`. */
    method InsertFlightRecord(record: FlightRecord)
      requires Valid()
      modifies this
      ensures Valid()
      ensures State() == Upsert(old(State()), record)
    {
      if record.id == AUTO_ID {
        rows := rows + [record.(id := nextId)];
        nextId := nextId + 1;
      } else {
        var k := IndexOfId(rows, record.id);
        if k.Some? {
          rows := rows[k.value := record];
        } else {
          rows := rows + [record];
          if record.id >= nextId {
            nextId := record.id + 1;
          }
        }
      }
    }

    /** `insertAll`. */
    method InsertAll(records: seq<FlightRecord>)
      requires Valid()
      modifies this
      ensures Valid()
      ensures State() == UpsertAll(old(State()), records)
    {
      var i := 0;
      while i < |records|
        invariant 0 <= i <= |records|
        invariant Valid()
        invariant UpsertAll(State(), records[i..]) == UpsertAll(old(State()), records)
      {
        assert records[i..][1..] == records[i + 1..];
        InsertFlightRecord(records[i]);
        i := i + 1;
      }
    }

    /** `deleteRecordsOlderThan`: the number of rows it removed. */
    method DeleteRecordsOlderThan(timestampMillis: int) returns (deleted: int)
      requires Valid()
      modifies this
      ensures Valid()
      ensures State() == Purge(old(State()), timestampMillis)
      ensures deleted == |Select(old(rows), RecordedBefore(timestampMillis))|
      ensures |old(rows)| == deleted + |rows|
    {
      ghost var before := State();
      var kept: seq<FlightRecord> := [];
      deleted := 0;
      var i := 0;
      while i < |rows|
        invariant 0 <= i <= |rows|
        invariant kept == Select(rows[..i], RecordedAtOrAfter(timestampMillis))
        invariant deleted == |Select(rows[..i], RecordedBefore(timestampMillis))|
        invariant State() == before
      {
        assert rows[..i + 1] == rows[..i] + [rows[i]];
        SelectAppend(rows[..i], [rows[i]], RecordedAtOrAfter(timestampMillis));
        SelectAppend(rows[..i], [rows[i]], RecordedBefore(timestampMillis));
        if rows[i].recordedAtMillis < timestampMillis {
          deleted := deleted + 1;
        } else {
          kept := kept + [rows[i]];
        }
        i := i + 1;
      }
      assert rows[..i] == rows;
      PurgeExact(before, timestampMillis);
      ghost var purged := Purge(before, timestampMillis);
      assert ValidTable(purged) && purged.rows == kept;
      rows := kept;
      assert State() == purged;
    }
  }
}
