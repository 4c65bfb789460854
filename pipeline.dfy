/**
 * One run of the job (`main` in the standalone binary, `query_and_save` in
 * the scheduled handler) after the feed has been fetched and decoded:
 * compute the statistics, then write the snapshot.
 */
module Pipeline {
  import opened Wrappers
  import opened Records
  import opened Aggregate
  import opened Snapshot

  datatype RunError = Aggregation(aggregateError: AggregateError) | Write(saveError: SaveError)

  /** What a run returns: the statistics it reported, or the error that ended it. */
  function RunOutcome(routes: seq<TimeTrack>, dbUrl: Option<string>, connects: bool, failAt: Option<nat>): (r: Result<Summary, RunError>)
    ensures r.Ok? ==> r.value.totalRoutes == |routes| && SaveOutcome(routes, dbUrl, connects, failAt) == Pass
    ensures r.Ok? ==> Summarize(routes) == Ok(r.value)
    ensures r.Err? && r.error.Aggregation? ==> Summarize(routes) == Err(r.error.aggregateError)
    ensures r.Err? && r.error.Write? ==>
      Summarize(routes).Ok? && SaveOutcome(routes, dbUrl, connects, failAt) == Fail(r.error.saveError)
  {
    match Summarize(routes)
    case Err(e) => Err(Aggregation(e))
    case Ok(summary) =>
      match SaveOutcome(routes, dbUrl, connects, failAt)
      case Fail(e) => Err(Write(e))
      case Pass => Ok(summary)
  }

  /** The rows a run commits: none if the statistics panic, otherwise what `save` commits. */
  function RunRows(routes: seq<TimeTrack>, dbUrl: Option<string>, connects: bool, now: Timestamp, failAt: Option<nat>): (rows: seq<Row>)
    ensures |rows| <= |routes|
    ensures rows == Rows(routes, now)[..|rows|]
    ensures Summarize(routes).Err? ==> rows == []
    ensures Summarize(routes).Ok? ==> rows == SavedRows(routes, dbUrl, connects, now, failAt)
  {
    if Summarize(routes).Err? then []
    else SavedRows(routes, dbUrl, connects, now, failAt)
  }

  /**
   * The run: the statistics are computed before `save` is called, so the
   * `unwrap` on a Behind record without minutes aborts the run before any
   * insert. Otherwise the statistics do not influence what is written.
   */
  method Run(store: SnapshotStore, routes: seq<TimeTrack>, dbUrl: Option<string>, connects: bool, now: Timestamp, failAt: Option<nat>)
    returns (r: Result<Summary, RunError>)
    modifies store
    ensures r == RunOutcome(routes, dbUrl, connects, failAt)
    ensures store.rows == old(store.rows) + RunRows(routes, dbUrl, connects, now, failAt)
  {
    var summary := Summarize(routes);
    if summary.Err? {
      return Err(Aggregation(summary.error));
    }
    var saved := Save(store, routes, dbUrl, connects, now, failAt);
    if saved.Fail? {
      return Err(Write(saved.error));
    }
    return Ok(summary.value);
  }

  /** A Behind record without minutes stops the run before the snapshot is written. */
  lemma MissingMinutesWritesNothing(routes: seq<TimeTrack>, dbUrl: Option<string>, connects: bool, now: Timestamp, failAt: Option<nat>, i: nat)
    requires i < |routes| && IsBehind(routes[i]) && routes[i].diffMins.None?
    ensures RunOutcome(routes, dbUrl, connects, failAt) == Err(Aggregation(MissingMinutes))
    ensures RunRows(routes, dbUrl, connects, now, failAt) == []
  {
  }

  /**
   * A run succeeds exactly when every Behind record has its minutes, the
   * connection string is set, the connection opens and no insert is refused;
   * it then writes every record, in order, with one shared time.
   */
  lemma RunSuccess(routes: seq<TimeTrack>, dbUrl: Option<string>, connects: bool, now: Timestamp, failAt: Option<nat>)
    ensures RunOutcome(routes, dbUrl, connects, failAt).Ok? <==>
      && (forall t :: t in routes && IsBehind(t) ==> t.diffMins.Some?)
      && dbUrl.Some? && connects
      && (failAt.None? || failAt.value >= |routes|)
    ensures RunOutcome(routes, dbUrl, connects, failAt).Ok? ==>
      RunRows(routes, dbUrl, connects, now, failAt) == Rows(routes, now)
  {
  }

  /**
   * Once the statistics succeed, a refused insert of record k ends the run
   * with that error and leaves exactly the rows of the first k records.
   */
  lemma RunFailureKeepsPrefix(routes: seq<TimeTrack>, url: string, now: Timestamp, k: nat)
    requires Summarize(routes).Ok? && k < |routes|
    ensures RunOutcome(routes, Some(url), true, Some(k)) == Err(Write(InsertFailed(k)))
    ensures RunRows(routes, Some(url), true, now, Some(k)) == Rows(routes, now)[..k]
  {
  }

  /** One Behind record five minutes late: one row, the status persisted as "Behind". */
  lemma OneBehindRecordExample(now: Timestamp)
    ensures
      var t := TimeTrack("1", "A1", "t", "Main St", 10, "38.9", "-77.0", Some(Behind), Some("5 min"), Some(-5));
      && RunOutcome([t], Some("postgres://db"), true, None) == Ok(Summary(1, 1, 5))
      && RunRows([t], Some("postgres://db"), true, now, None)
         == [Row(now, "A1", 10, "Main St", "38.9", "-77.0", "Behind", "5 min", -5)]
  {
  }

  /** A record with a null status and no deviation or minutes: defaults, and "NoData" as the status text. */
  lemma NullStatusExample(now: Timestamp)
    ensures
      var t := TimeTrack("2", "B7", "t", "Elm St", 3, "38.8", "-77.1", None, None, None);
      && DecodeStatusField(Null) == Ok(t.status)
      && RunRows([t], Some("postgres://db"), true, now, None)
         == [Row(now, "B7", 3, "Elm St", "38.8", "-77.1", "NoData", "", 0)]
  {
  }
}
