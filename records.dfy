/**
 * The feed's record (`TimeTrack`) and its schedule status (`Status`).
 *
 * `Status` has two unrelated text forms: the serde wire names used when the
 * feed is decoded ("BEHIND", "AHEAD", "ON TIME", "NO DATA"), and the text the
 * snapshot writer persists, which is `format!("{}", status)`, i.e. `Display`,
 * which writes `{:?}`, i.e. the derived `Debug`: the variant's identifier.
 */
module Records {
  import opened Wrappers

  /** Schedule adherence of one bus; `NoData` is the `#[default]` variant. */
  datatype Status = Behind | Ahead | OnTime | NoData

  /** `Status::default()`. */
  const DefaultStatus: Status := NoData

  /**
   * One element of the feed's JSON array. The three `gtfs_stop_sequence_*`
   * fields are `Option`s: absent or `null` in the feed gives `None`.
   */
  datatype TimeTrack = TimeTrack(
    routerun: string,
    currentRoute: string,
    timeStamp: string,
    currentLocation: string,
    routeNumber: int,
    busLat: string,
    busLon: string,
    status: Option<Status>,
    deviation: Option<string>,
    diffMins: Option<int>)

  /** The four serde names of the variants. */
  const WireNames: set<string> := {"BEHIND", "AHEAD", "ON TIME", "NO DATA"}

  /** The `#[serde(rename = ...)]` name of a variant. */
  function WireName(s: Status): (name: string)
    ensures name in WireNames
  {
    match s
    case Behind => "BEHIND"
    case Ahead => "AHEAD"
    case OnTime => "ON TIME"
    case NoData => "NO DATA"
  }

  /** Deserialising a JSON string as a `Status`: only the four wire names are variants. */
  function StatusFromWire(name: string): (r: Option<Status>)
    ensures r.Some? <==> name in WireNames
    ensures r.Some? ==> WireName(r.value) == name
  {
    if name == "BEHIND" then Some(Behind)
    else if name == "AHEAD" then Some(Ahead)
    else if name == "ON TIME" then Some(OnTime)
    else if name == "NO DATA" then Some(NoData)
    else None
  }

  lemma WireNameRoundTrip(s: Status)
    ensures StatusFromWire(WireName(s)) == Some(s)
  {
  }

  /** Wire names identify variants: the mapping is a bijection onto `WireNames`. */
  lemma WireNameBijective(a: Status, b: Status)
    ensures WireName(a) == WireName(b) <==> a == b
    ensures forall name :: name in WireNames ==> exists s :: WireName(s) == name
  {
    WireNameRoundTrip(a);
    WireNameRoundTrip(b);
    forall name | name in WireNames ensures exists s :: WireName(s) == name {
      var s := StatusFromWire(name).value;
      assert WireName(s) == name;
    }
  }

  /**
   * The text persisted for a status: `String::from(status)` formats with
   * `Display`, which writes the derived `Debug` form, the variant identifier.
   * It is never a wire name, so the feed decoder cannot read it back.
   */
  function VariantName(s: Status): (name: string)
    ensures name != WireName(s)
    ensures StatusFromWire(name) == None
  {
    match s
    case Behind => "Behind"
    case Ahead => "Ahead"
    case OnTime => "OnTime"
    case NoData => "NoData"
  }

  /** Distinct variants are persisted as distinct texts. */
  lemma VariantNameInjective(a: Status, b: Status)
    ensures VariantName(a) == VariantName(b) <==> a == b
  {
  }

  /**
   * What a JSON object holds under the status key, as far as serde tells it
   * apart: `Tagged` is an object with a single key, the externally tagged
   * form of an enum variant, of which the decoder only asks whether the
   * value under that key is `null`; `Other` is every other JSON value (a
   * number, a boolean, an array, an object without exactly one key).
   */
  datatype JsonField = Absent | Null | Str(text: string) | Tagged(key: string, nullPayload: bool) | Other

  datatype DecodeError = UnknownVariant(text: string) | InvalidType

  /**
   * Decoding the `gtfs_stop_sequence_status` field into `Option<Status>`:
   * a missing key or `null` gives `None` (not `NoData`). A variant is read
   * from its wire name, either as a string or as a one-key object whose key
   * is the wire name and whose value is `null` (the unit-variant form of an
   * externally tagged enum). An unrecognised name, or anything else, is an
   * error that fails the decoding of the whole feed.
   */
  function DecodeStatusField(f: JsonField): (r: Result<Option<Status>, DecodeError>)
    ensures (f.Absent? || f.Null?) ==> r == Ok(None)
    ensures f.Str? ==> (r.Ok? <==> f.text in WireNames)
    ensures f.Str? && f.text in WireNames ==> r == Ok(StatusFromWire(f.text))
    ensures f.Tagged? ==> (r.Ok? <==> f.key in WireNames && f.nullPayload)
    ensures f.Tagged? && f.key in WireNames && f.nullPayload ==> r == Ok(StatusFromWire(f.key))
    ensures r.Ok? && r.value.Some? ==>
      f == Str(WireName(r.value.value)) || f == Tagged(WireName(r.value.value), true)
    ensures f.Other? ==> r.Err?
  {
    match f
    case Absent => Ok(None)
    case Null => Ok(None)
    case Str(text) =>
      (match StatusFromWire(text)
       case Some(s) => Ok(Some(s))
       case None => Err(UnknownVariant(text)))
    case Tagged(key, nullPayload) =>
      (match StatusFromWire(key)
       case None => Err(UnknownVariant(key))
       case Some(s) => if nullPayload then Ok(Some(s)) else Err(InvalidType))
    case Other => Err(InvalidType)
  }

  /** Serialising an `Option<Status>` field: `None` as `null`, a variant as its wire name. */
  function EncodeStatusField(o: Option<Status>): (f: JsonField)
    ensures f.Null? || f.Str?
  {
    match o
    case None => Null
    case Some(s) => Str(WireName(s))
  }

  /** The one-key object form `{"BEHIND": null}` decodes like the string `"BEHIND"`. */
  lemma TaggedFormDecodesLikeString(s: Status)
    ensures DecodeStatusField(Tagged(WireName(s), true)) == DecodeStatusField(Str(WireName(s))) == Ok(Some(s))
  {
  }

  lemma StatusFieldRoundTrip(o: Option<Status>)
    ensures DecodeStatusField(EncodeStatusField(o)) == Ok(o)
  {
  }
}
