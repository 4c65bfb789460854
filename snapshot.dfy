/**
 * The snapshot writer (`save`): one parameterised insert into the
 * `snapshots` table per record, in order, all stamped with one time.
 *
 * The database is an in-memory table. What the outside world decides is
 * passed in: the `DB_URL` environment variable (`dbUrl`), whether the
 * connection opens (`connects`), the index of the insert the database
 * refuses, if any (`failAt`), and the clock reading `now`.
 */
module Snapshot {
  import opened Wrappers
  import opened Records

  /** The `chrono::DateTime<Utc>` bound to the `time` column, as an opaque instant. */
  type Timestamp = int

  /** One row of `snapshots (time, bus, route, location, lat, lon, status, deviation, diffmins)`. */
  datatype Row = Row(
    time: Timestamp,
    bus: string,
    route: int,
    location: string,
    lat: string,
    lon: string,
    status: string,
    deviation: string,
    diffMins: int)

  /**
   * The values bound to one insert. Absent optional fields are replaced by
   * their type's default: the status by `NoData`, persisted as its variant
   * name, the deviation by the empty string, the minutes by zero.
   */
  function ToRow(t: TimeTrack, time: Timestamp): (row: Row)
    ensures row.time == time
    ensures row.bus == t.currentRoute && row.route == t.routeNumber && row.location == t.currentLocation
    ensures row.lat == t.busLat && row.lon == t.busLon
    ensures t.status.None? ==> row.status == "NoData"
    ensures t.status.Some? ==> row.status == VariantName(t.status.value)
    ensures t.deviation.None? ==> row.deviation == ""
    ensures t.deviation.Some? ==> row.deviation == t.deviation.value
    ensures t.diffMins.None? ==> row.diffMins == 0
    ensures t.diffMins.Some? ==> row.diffMins == t.diffMins.value
  {
    Row(time,
        t.currentRoute,
        t.routeNumber,
        t.currentLocation,
        t.busLat,
        t.busLon,
        VariantName(t.status.GetOr(DefaultStatus)),
        t.deviation.GetOr(""),
        t.diffMins.GetOr(0))
  }

  /** Two records agree on everything the writer keeps: all but `routerun` and `time_stamp`, optional fields after defaulting. */
  predicate SamePersistedFields(t: TimeTrack, u: TimeTrack) {
    && t.currentRoute == u.currentRoute
    && t.routeNumber == u.routeNumber
    && t.currentLocation == u.currentLocation
    && t.busLat == u.busLat
    && t.busLon == u.busLon
    && t.status.GetOr(DefaultStatus) == u.status.GetOr(DefaultStatus)
    && t.deviation.GetOr("") == u.deviation.GetOr("")
    && t.diffMins.GetOr(0) == u.diffMins.GetOr(0)
  }

  /**
   * Two records give the same row exactly when they agree on the persisted
   * fields: `routerun` and `time_stamp` are dropped, and nothing else is.
   */
  lemma RowKeepsPersistedFields(t: TimeTrack, u: TimeTrack, time: Timestamp)
    ensures ToRow(t, time) == ToRow(u, time) <==> SamePersistedFields(t, u)
  {
  }

  /** The rows for `routes`, one per record, in the records' order. */
  function Rows(routes: seq<TimeTrack>, time: Timestamp): (rows: seq<Row>)
    ensures |rows| == |routes|
    ensures forall i :: 0 <= i < |routes| ==> rows[i] == ToRow(routes[i], time)
    ensures forall r :: r in rows ==> r.time == time
  {
    if routes == [] then []
    else Rows(routes[..|routes| - 1], time) + [ToRow(routes[|routes| - 1], time)]
  }

  /** The rows of a prefix of the records are the same prefix of the rows. */
  lemma RowsOfPrefix(routes: seq<TimeTrack>, k: nat, time: Timestamp)
    requires k <= |routes|
    ensures Rows(routes[..k], time) == Rows(routes, time)[..k]
  {
  }

  /** How a call of `save` can fail, in the order the failures can occur. */
  datatype SaveError = MissingDbUrl | ConnectFailed | InsertFailed(index: nat)

  /** The number of inserts that commit when the insert at `failAt` is refused. */
  function Committed(n: nat, failAt: Option<nat>): (k: nat)
    ensures k <= n
    ensures k < n <==> failAt.Some? && failAt.value < n
    ensures k < n ==> failAt == Some(k)
  {
    match failAt
    case None => n
    case Some(f) => if f < n then f else n
  }

  /** What `save` returns. */
  function SaveOutcome(routes: seq<TimeTrack>, dbUrl: Option<string>, connects: bool, failAt: Option<nat>): (r: Outcome<SaveError>)
    ensures r == Pass <==> dbUrl.Some? && connects && Committed(|routes|, failAt) == |routes|
    ensures dbUrl.None? ==> r == Fail(MissingDbUrl)
    ensures dbUrl.Some? && !connects ==> r == Fail(ConnectFailed)
    ensures r.Fail? && r.error.InsertFailed? ==> failAt == Some(r.error.index) && r.error.index < |routes|
  {
    if dbUrl.None? then Fail(MissingDbUrl)
    else if !connects then Fail(ConnectFailed)
    else if Committed(|routes|, failAt) < |routes| then Fail(InsertFailed(Committed(|routes|, failAt)))
    else Pass
  }

  /** The rows `save` leaves committed in the table. */
  function SavedRows(routes: seq<TimeTrack>, dbUrl: Option<string>, connects: bool, now: Timestamp, failAt: Option<nat>): (rows: seq<Row>)
    ensures |rows| <= |routes|
    ensures rows == Rows(routes, now)[..|rows|]
    ensures dbUrl.None? || !connects ==> rows == []
  {
    if dbUrl.None? || !connects then []
    else
      RowsOfPrefix(routes, Committed(|routes|, failAt), now);
      Rows(routes[..Committed(|routes|, failAt)], now)
  }

  /** Without a connection string nothing is inserted and `save` fails. */
  lemma MissingConfigWritesNothing(routes: seq<TimeTrack>, connects: bool, now: Timestamp, failAt: Option<nat>)
    ensures SavedRows(routes, None, connects, now, failAt) == []
    ensures SaveOutcome(routes, None, connects, failAt) == Fail(MissingDbUrl)
  {
  }

  /** When the connection cannot be opened, nothing is inserted and `save` reports it. */
  lemma ConnectFailureWritesNothing(routes: seq<TimeTrack>, url: string, now: Timestamp, failAt: Option<nat>)
    ensures SavedRows(routes, Some(url), false, now, failAt) == []
    ensures SaveOutcome(routes, Some(url), false, failAt) == Fail(ConnectFailed)
  {
  }

  /**
   * A successful `save` commits exactly one row per record, in order, and
   * every row carries the same `now`.
   */
  lemma SaveSuccessWritesAllRows(routes: seq<TimeTrack>, dbUrl: Option<string>, connects: bool, now: Timestamp, failAt: Option<nat>)
    requires SaveOutcome(routes, dbUrl, connects, failAt) == Pass
    ensures |SavedRows(routes, dbUrl, connects, now, failAt)| == |routes|
    ensures forall i :: 0 <= i < |routes| ==> SavedRows(routes, dbUrl, connects, now, failAt)[i] == ToRow(routes[i], now)
    ensures forall r :: r in SavedRows(routes, dbUrl, connects, now, failAt) ==> r.time == now
  {
  }

  /**
   * Inserts are fail-fast and not wrapped in a transaction: when the insert
   * of record k is refused, `save` reports it and exactly the rows of the
   * first k records stay committed.
   */
  lemma SaveFailureKeepsPrefix(routes: seq<TimeTrack>, dbUrl: Option<string>, now: Timestamp, k: nat)
    requires dbUrl.Some? && k < |routes|
    ensures SaveOutcome(routes, dbUrl, true, Some(k)) == Fail(InsertFailed(k))
    ensures SavedRows(routes, dbUrl, true, now, Some(k)) == Rows(routes, now)[..k]
  {
  }

  /** The `snapshots` table reached through the run's one connection. */
  class SnapshotStore {
    var rows: seq<Row>

    constructor (existing: seq<Row>)
      ensures rows == existing
    {
      rows := existing;
    }

    /** One `INSERT ... execute`: `accepted` is the database's answer. */
    method Insert(row: Row, accepted: bool) returns (ok: bool)
      modifies this
      ensures ok == accepted
      ensures rows == if accepted then old(rows) + [row] else old(rows)
    {
      ok := accepted;
      if accepted {
        rows := rows + [row];
      }
    }
  }

  /**
   * `save`: read the connection string, connect, read the clock once, then
   * insert the records one by one, stopping at the first refused insert.
   */
  method Save(store: SnapshotStore, routes: seq<TimeTrack>, dbUrl: Option<string>, connects: bool, now: Timestamp, failAt: Option<nat>)
    returns (r: Outcome<SaveError>)
    modifies store
    ensures r == SaveOutcome(routes, dbUrl, connects, failAt)
    ensures store.rows == old(store.rows) + SavedRows(routes, dbUrl, connects, now, failAt)
  {
    if dbUrl.None? {
      return Fail(MissingDbUrl);
    }
    if !connects {
      return Fail(ConnectFailed);
    }
    var time := now;
    for i := 0 to |routes|
      invariant failAt.Some? ==> i <= failAt.value
      invariant store.rows == old(store.rows) + Rows(routes[..i], time)
    {
      var ok := store.Insert(ToRow(routes[i], time), failAt != Some(i));
      if !ok {
        return Fail(InsertFailed(i));
      }
      assert routes[..i + 1][..i] == routes[..i];
    }
    assert routes[..|routes|] == routes;
    return Pass;
  }
}
