/**
 * The diagnostic statistics computed before the snapshot is written:
 * the Behind records, how many there are, and the total minutes behind.
 */
module Aggregate {
  import opened Wrappers
  import opened Records

  /** The filter's test: the status is present and equal to `Behind`. */
  predicate IsBehind(t: TimeTrack) {
    t.status.Some? && t.status.value == Behind
  }

  /** `behind_routes`: `routes.iter().filter(IsBehind).collect()`. */
  function BehindRoutes(routes: seq<TimeTrack>): (behind: seq<TimeTrack>)
    ensures |behind| <= |routes|
    ensures forall t :: t in behind ==> t in routes && IsBehind(t)
    ensures forall t :: t in routes && IsBehind(t) ==> t in behind
  {
    if routes == [] then []
    else
      assert routes == [routes[0]] + routes[1..];
      if IsBehind(routes[0]) then [routes[0]] + BehindRoutes(routes[1..])
      else BehindRoutes(routes[1..])
  }

  /**
   * The positions, in increasing order, of the Behind records: an
   * independent description of which records the filter keeps.
   */
  function BehindPositions(routes: seq<TimeTrack>): (ps: seq<nat>)
    ensures forall k :: 0 <= k < |ps| ==> ps[k] < |routes| && IsBehind(routes[ps[k]])
    ensures forall k, l :: 0 <= k < l < |ps| ==> ps[k] < ps[l]
    ensures forall i :: 0 <= i < |routes| && IsBehind(routes[i]) ==> i in ps
  {
    if routes == [] then []
    else
      var n := |routes| - 1;
      var init := BehindPositions(routes[..n]);
      assert forall k :: 0 <= k < |init| ==> routes[..n][init[k]] == routes[init[k]];
      init + (if IsBehind(routes[n]) then [n] else [])
  }

  lemma {:induction false} BehindRoutesAppend(a: seq<TimeTrack>, b: seq<TimeTrack>)
    ensures BehindRoutes(a + b) == BehindRoutes(a) + BehindRoutes(b)
  {
    if a == [] {
      assert a + b == b;
    } else {
      assert (a + b)[0] == a[0];
      assert (a + b)[1..] == a[1..] + b;
      BehindRoutesAppend(a[1..], b);
    }
  }

  /**
   * `behind_routes` is exactly the Behind records in their original order:
   * its k-th element is the record at the k-th Behind position. Its length
   * is therefore the number of records whose status is `Some(Behind)`.
   */
  lemma {:induction false} BehindRoutesInOrder(routes: seq<TimeTrack>)
    ensures |BehindRoutes(routes)| == |BehindPositions(routes)|
    ensures forall k :: 0 <= k < |BehindPositions(routes)| ==>
      BehindRoutes(routes)[k] == routes[BehindPositions(routes)[k]]
  {
    if routes != [] {
      var n := |routes| - 1;
      assert routes == routes[..n] + [routes[n]];
      BehindRoutesAppend(routes[..n], [routes[n]]);
      assert [routes[n]][1..] == [];
      BehindRoutesInOrder(routes[..n]);
    }
  }

  /** Sum of the minutes of `tracks`, `None` when one of them has none (the `unwrap` panics). */
  function SumMinutes(tracks: seq<TimeTrack>): (r: Option<int>)
    ensures r.Some? <==> forall t :: t in tracks ==> t.diffMins.Some?
  {
    if tracks == [] then Some(0)
    else
      assert tracks == [tracks[0]] + tracks[1..];
      match (tracks[0].diffMins, SumMinutes(tracks[1..]))
      case (Some(m), Some(rest)) => Some(m + rest)
      case _ => None
  }

  /** Why the statistics cannot be computed: `unwrap()` on a Behind record without minutes. */
  datatype AggregateError = MissingMinutes

  /** `total_mins_behind`: `-1 * behind_routes.map(|r| r.minutes.unwrap()).sum()`. */
  function TotalMinsBehind(routes: seq<TimeTrack>): (r: Result<int, AggregateError>)
    ensures r.Ok? <==> forall t :: t in routes && IsBehind(t) ==> t.diffMins.Some?
  {
    match SumMinutes(BehindRoutes(routes))
    case Some(s) => Ok(-1 * s)
    case None => Err(MissingMinutes)
  }

  /** Minutes behind that one record contributes: its negated difference if it is Behind. */
  function MinutesBehindOf(t: TimeTrack): int {
    if IsBehind(t) then -t.diffMins.GetOr(0) else 0
  }

  /** Reference total: the contributions of all records, added from the last one back. */
  function MinutesBehindTotal(routes: seq<TimeTrack>): int {
    if routes == [] then 0
    else MinutesBehindTotal(routes[..|routes| - 1]) + MinutesBehindOf(routes[|routes| - 1])
  }

  lemma {:induction false} SumMinutesAppend(a: seq<TimeTrack>, b: seq<TimeTrack>)
    requires SumMinutes(a + b).Some?
    ensures SumMinutes(a).Some? && SumMinutes(b).Some?
    ensures SumMinutes(a + b).value == SumMinutes(a).value + SumMinutes(b).value
  {
    if a == [] {
      assert a + b == b;
    } else {
      assert (a + b)[0] == a[0];
      assert (a + b)[1..] == a[1..] + b;
      SumMinutesAppend(a[1..], b);
    }
  }

  /**
   * When it is defined, `total_mins_behind` is the negated sum of the minutes
   * of exactly the Behind records: records of any other status, and those
   * whose status is absent, contribute nothing.
   */
  lemma {:induction false} TotalMinsBehindIsSum(routes: seq<TimeTrack>)
    ensures TotalMinsBehind(routes).Ok? ==> TotalMinsBehind(routes).value == MinutesBehindTotal(routes)
  {
    if routes != [] && TotalMinsBehind(routes).Ok? {
      var n := |routes| - 1;
      var init, last := routes[..n], routes[n];
      assert routes == init + [last];
      BehindRoutesAppend(init, [last]);
      assert [last][1..] == [];
      SumMinutesAppend(BehindRoutes(init), BehindRoutes([last]));
      TotalMinsBehindIsSum(init);
    }
  }

  /**
   * With the feed's sign convention (a Behind record's difference is not
   * positive), the reported total is a non-negative number of minutes.
   */
  lemma {:induction false} TotalMinsBehindNonNegative(routes: seq<TimeTrack>)
    requires forall t :: t in routes && IsBehind(t) && t.diffMins.Some? ==> t.diffMins.value <= 0
    ensures TotalMinsBehind(routes).Ok? ==> TotalMinsBehind(routes).value >= 0
  {
    TotalMinsBehindIsSum(routes);
    MinutesBehindTotalNonNegative(routes);
  }

  lemma {:induction false} MinutesBehindTotalNonNegative(routes: seq<TimeTrack>)
    requires forall t :: t in routes && IsBehind(t) && t.diffMins.Some? ==> t.diffMins.value <= 0
    ensures MinutesBehindTotal(routes) >= 0
  {
    if routes != [] {
      var n := |routes| - 1;
      assert forall t :: t in routes[..n] ==> t in routes;
      assert routes[n] in routes;
      MinutesBehindTotalNonNegative(routes[..n]);
    }
  }

  /** The three numbers printed after the feed is decoded. */
  datatype Summary = Summary(totalRoutes: nat, routesBehind: nat, totalMinsBehind: int)

  /** The aggregation of `main` / `query_and_save`, failing where the `unwrap` panics. */
  function Summarize(routes: seq<TimeTrack>): (r: Result<Summary, AggregateError>)
    ensures r.Err? <==> exists i :: 0 <= i < |routes| && IsBehind(routes[i]) && routes[i].diffMins.None?
    ensures r.Ok? ==> r.value.totalRoutes == |routes|
    ensures r.Ok? ==> r.value.routesBehind == |BehindPositions(routes)| <= r.value.totalRoutes
    ensures r.Ok? ==> r.value.totalMinsBehind == MinutesBehindTotal(routes)
  {
    BehindRoutesInOrder(routes);
    TotalMinsBehindIsSum(routes);
    var behind := BehindRoutes(routes);
    match TotalMinsBehind(routes)
    case Ok(total) => Ok(Summary(|routes|, |behind|, total))
    case Err(e) => Err(e)
  }
}
