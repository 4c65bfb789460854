# metrotime-cron, modelled in Dafny

The job fetches a JSON feed of bus positions and schedule adherence
(`TimeTrack` records), prints three statistics (how many records, how many
are Behind, how many minutes behind in total), and writes every record as a
row of the `snapshots` table, all rows of a run stamped with one time.

The logic exists twice, almost verbatim: in the standalone binary
`src/main.rs` and in the scheduled handler `metrotime-cron/src/main.rs`.
It is modelled once. The table below cites `src/main.rs`; the same code sits
in `metrotime-cron/src/main.rs` at these lines:

- `TimeTrack`: src/main.rs 248-260, metrotime-cron/src/main.rs 96-108
- `Status`, serde names, `Default`: 262-276 and 110-124
- `Display` and `From<Status> for String`: 278-288 and 126-136
- the aggregation: 26-37 (in `main`) and 54-65 (in `query_and_save`)
- `save`: 44-81 and 72-94 (the latter without the commented-out pool code)

Modules, one per part of the program:

- `Wrappers` (wrappers.dfy): Rust's `Option`, `Result` and `Result<(), E>`.
- `Records` (records.dfy): `TimeTrack`, `Status`, the wire names of the
  variants (serde `rename`), the persisted names (`Display` via `Debug`), and
  the decoding of the status field.
- `Aggregate` (aggregate.dfy): `behind_routes`, the counts and
  `total_mins_behind`.
- `Snapshot` (snapshot.dfy): the row written per record, the
  `SnapshotStore` class holding the table's rows, and `save` as the method
  `Save` appending to it.
- `Pipeline` (pipeline.dfy): `main` / `query_and_save` after decoding, the
  method `Run`.

The outside world enters as parameters: the decoded records, `DB_URL` as
`Option<string>`, whether `PgConnection::connect` succeeds (`connects`), the
index of the insert the database refuses, if any (`failAt`), and the reading
of `Utc::now()` (`now`).

Four points of the code that are easy to misread, and that the model follows:

- The persisted status text is the variant identifier (`"Behind"`,
  `"Ahead"`, `"OnTime"`, `"NoData"`), because `String::from` formats with
  `Display`, which writes `{:?}`. It is not the wire name (`"NO DATA"` etc.),
  and `Records.VariantName` proves that no persisted text is a wire name.
- A missing or `null` status decodes to `None`, not to `NoData`; the default
  is substituted only when the row is written.
- An unrecognised status string is a decoding error that fails the whole
  feed; it does not become `NoData`.
- A Behind record without minutes makes `unwrap()` panic while the
  statistics are computed, which happens before `save` is called: such a run
  writes no rows at all (`Pipeline.MissingMinutesWritesNothing`).

## Model

| member | source | states |
|---|---|---|
| `Records.WireName` | src/main.rs:262-276 | every variant's serde name is one of "BEHIND", "AHEAD", "ON TIME", "NO DATA" |
| `Records.StatusFromWire` | src/main.rs:262-276 | a string decodes to a variant exactly when it is one of the four wire names, and then to the variant with that name |
| `Records.WireNameRoundTrip` | src/main.rs:262-276 | decoding the wire name of a variant gives the variant back |
| `Records.WireNameBijective` | src/main.rs:262-276 | two variants share a wire name only if they are equal, and every wire name belongs to some variant |
| `Records.VariantName` | src/main.rs:278-288 | the persisted text of a variant (its `Debug` form) differs from its wire name and is not decoded as any variant |
| `Records.VariantNameInjective` | src/main.rs:278-288 | distinct variants are persisted as distinct texts, in both directions |
| `Records.DecodeStatusField` | src/main.rs:257 | a missing or null status gives `None`; a string decodes exactly when it is a wire name, and a one-key object exactly when its key is a wire name and its value is null, in both cases to the variant of that name (as `StatusFromWire` reads it); any other value is an error |
| `Records.EncodeStatusField` | src/main.rs:248-257 | serialising the optional status gives null or a string |
| `Records.TaggedFormDecodesLikeString` | src/main.rs:262-276 | the externally tagged object form of a variant decodes to the same variant as its wire-name string |
| `Records.StatusFieldRoundTrip` | src/main.rs:248-276 | decoding a serialised optional status gives it back, `None` included |
| `Aggregate.BehindRoutes` | src/main.rs:26-29 | the filtered records are no more than the input, each is in the input with status `Some(Behind)`, and every such input record is kept |
| `Aggregate.BehindPositions` | src/main.rs:26-29 | an increasing list of positions containing exactly the positions whose record has status `Some(Behind)` |
| `Aggregate.BehindRoutesAppend` | src/main.rs:26-29 | filtering a concatenation is concatenating the filtered parts |
| `Aggregate.BehindRoutesInOrder` | src/main.rs:26-29 | the k-th filtered record is the record at the k-th Behind position, so the order is kept and the length is the number of Behind records |
| `Aggregate.SumMinutes` | src/main.rs:31-33 | the sum with `unwrap()` is defined exactly when every summed record has minutes |
| `Aggregate.TotalMinsBehind` | src/main.rs:31-33 | `total_mins_behind` is defined exactly when every Behind record has minutes |
| `Aggregate.TotalMinsBehindIsSum` | src/main.rs:31-33 | when defined, `total_mins_behind` is the negated sum of the minutes of exactly the Behind records |
| `Aggregate.TotalMinsBehindNonNegative` | src/main.rs:31-33 | if no Behind record has a positive difference, the reported total is not negative |
| `Aggregate.Summarize` | src/main.rs:26-37 | the statistics fail exactly when some Behind record lacks minutes; otherwise the total is the number of records, the Behind count is the number of Behind positions (at most the total), and the minutes behind are the negated sum over exactly the Behind records |
| `Snapshot.ToRow` | src/main.rs:68-76 | the row carries the given time; bus is `current_route`, route is `routenumber`, location is `current_location`, lat is `bus_lat`, lon is `bus_lon`; an absent status is written as "NoData", a present one as its variant name; an absent deviation as "", a present one unchanged; absent minutes as 0, present ones unchanged |
| `Snapshot.RowKeepsPersistedFields` | src/main.rs:68-76 | two records give the same row exactly when they agree on bus, route, location, lat, lon and the defaulted status, deviation and minutes: `routerun` and `time_stamp` are not persisted |
| `Snapshot.Rows` | src/main.rs:64-78 | one row per record, the i-th row made from the i-th record, all with the same time |
| `Snapshot.RowsOfPrefix` | src/main.rs:64-78 | the rows of the first k records are the first k rows |
| `Snapshot.Committed` | src/main.rs:64-78 | at most n inserts commit; fewer than n exactly when the refused insert's index f is below n, and then f of them |
| `Snapshot.SaveOutcome` | src/main.rs:44-81 | `save` succeeds exactly when the URL is set, the connection opens and every insert commits; without a URL it fails with the missing-variable error; with a URL but no connection it fails with the connection error; an insert failure names the refused index, which is a record's |
| `Snapshot.SavedRows` | src/main.rs:44-81 | `save` commits a prefix of the records' rows, never more rows than records, and none at all without a URL or a connection |
| `Snapshot.MissingConfigWritesNothing` | src/main.rs:45 | without `DB_URL` no row is inserted and `save` fails |
| `Snapshot.ConnectFailureWritesNothing` | src/main.rs:51 | when the connection cannot be opened no row is inserted and `save` fails with the connection error |
| `Snapshot.SaveSuccessWritesAllRows` | src/main.rs:62-78 | a successful `save` writes exactly one row per record, in order, all with the one `now` |
| `Snapshot.SaveFailureKeepsPrefix` | src/main.rs:64-78 | when the insert of record k is refused, `save` reports index k and exactly the rows of the first k records stay |
| `Snapshot.SnapshotStore.Insert` | src/main.rs:65-77 | an accepted insert appends its row to the table; a refused one leaves the table as it was and reports the failure |
| `Snapshot.Save` | src/main.rs:44-81 | returns `SaveOutcome` and appends exactly `SavedRows` to the table, leaving earlier rows in place |
| `Pipeline.RunOutcome` | src/main.rs:14-42 | a successful run reports exactly the statistics `Summarize` computes (record count, Behind count, minutes behind) and its `save` succeeded; an aggregation error is `Summarize`'s error; a write error comes after successful statistics and is exactly `save`'s error |
| `Pipeline.RunRows` | src/main.rs:14-42 | a run writes a prefix of the records' rows, never more rows than records: none when the statistics fail, otherwise exactly what `save` commits |
| `Pipeline.Run` | src/main.rs:14-42 | computes the statistics, then saves; returns `RunOutcome` and appends exactly `RunRows` to the table |
| `Pipeline.MissingMinutesWritesNothing` | src/main.rs:31-39 | a Behind record without minutes ends the run with the aggregation error before any row is written |
| `Pipeline.RunFailureKeepsPrefix` | src/main.rs:39 | after successful statistics, a refused insert of record k ends the run with that insert error and exactly the first k rows stay |
| `Pipeline.RunSuccess` | src/main.rs:14-42 | a run succeeds exactly when every Behind record has minutes, the URL is set, the connection opens and no insert is refused, and it then writes the rows of all records |
| `Pipeline.OneBehindRecordExample` | src/main.rs:26-78 | one Behind record at -5 minutes: counts 1 and 1, total 5, one row with status "Behind" |
| `Pipeline.NullStatusExample` | src/main.rs:68-76 | a null status decodes to `None` and is written as "NoData", with deviation "" and minutes 0 |

## Left out

- The HTTP fetch (`reqwest::get(...).text()`, src/main.rs:17-20): network I/O; the decoded records are the input.
- JSON decoding of whole records (`serde_json::from_str`, src/main.rs:21): a foreign library; only the status field's decoding is modelled. A structural decoding error ends the run before anything else happens, which needs no model.
- The Postgres connection, the SQL text and the `.await`s: foreign I/O; the table is the in-memory `Snapshot.SnapshotStore`, and the connection's success and each insert's acceptance are inputs.
- `Utc::now()` and `env::var("DB_URL")`: parameters (`now`, `dbUrl`).
- The Lambda runtime, tracing set-up and the `expect` in `function_handler` (metrotime-cron/src/main.rs:16-40): adapter glue that turns an error into a panic.
- The `println!` output: diagnostics, not part of any contract.
- The commented-out HTML scraper (src/main.rs:97-246) and the unused imports: dead code.
- Aggregate.TotalMinsBehind: integers are unbounded, so the i64 overflow of the sum and of `-1 * sum` (a panic in debug builds, wrap-around in release builds) is not modelled.
- Aggregate.SumMinutes: the panic happens at the first Behind record without minutes; the model only says that the sum is undefined, not at which record.
