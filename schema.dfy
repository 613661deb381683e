/**
 * The source-record schema of one season file (SeasonData, EpisodeData, LocationData,
 * CoordinateData) and the decoding that Swift's synthesized `Codable` conformance gives it
 * under `JSONDecoder`: every property is a non-optional `let`, so every key is required;
 * keys are decoded in declaration order and the first failure aborts the whole record.
 */
module Schema {
  import opened Wrappers

  /** Swift's `Int` on the 64-bit platforms the app runs on. */
  type Int64 = x: int | -0x8000_0000_0000_0000 <= x <= 0x7fff_ffff_ffff_ffff

  /** A parsed JSON document. Numbers are kept as exact rationals. */
  datatype Json =
    | JNull
    | JBool(b: bool)
    | JNumber(n: real)
    | JString(s: string)
    | JArray(items: seq<Json>)
    | JObject(fields: map<string, Json>)

  datatype CoordinateData = CoordinateData(latitude: real, longitude: real)

  datatype LocationData = LocationData(
    locationTitle: string,
    locationInfo: string,
    timeCode: string,
    filmingLocation: CoordinateData,
    imageFilename: string)

  datatype EpisodeData = EpisodeData(
    episodeNumber: Int64,
    episodeTitle: string,
    episodeAirDate: string,
    episodeDescription: string,
    episodeGuestStars: string,
    locations: seq<LocationData>,
    seasonEpisodeNumber: Int64)

  datatype SeasonData = SeasonData(
    seasonNumber: Int64,
    seasonAirDate: string,
    title: string,
    totalEpisodes: string,
    episodes: seq<EpisodeData>)

  /** The four `DecodingError` cases, each with the key being decoded ("" for the root). */
  datatype DecodingError =
    | KeyNotFound(key: string)
    | ValueNotFound(key: string)
    | TypeMismatch(key: string)
    | DataCorrupted(key: string)

  // ---------------------------------------------------------------- primitive decoders

  function Field(fields: map<string, Json>, key: string): Result<Json, DecodingError> {
    if key in fields then Success(fields[key]) else Failure(KeyNotFound(key))
  }

  /** An `Int` accepts only an integral number that fits in 64 bits. */
  function AsInt(j: Json, key: string): Result<Int64, DecodingError> {
    match j
    case JNumber(n) =>
      if n == n.Floor as real && -0x8000_0000_0000_0000 <= n.Floor <= 0x7fff_ffff_ffff_ffff
      then Success(n.Floor)
      else Failure(DataCorrupted(key))
    case JNull => Failure(ValueNotFound(key))
    case _ => Failure(TypeMismatch(key))
  }

  function AsDouble(j: Json, key: string): Result<real, DecodingError> {
    match j
    case JNumber(n) => Success(n)
    case JNull => Failure(ValueNotFound(key))
    case _ => Failure(TypeMismatch(key))
  }

  function AsString(j: Json, key: string): Result<string, DecodingError> {
    match j
    case JString(s) => Success(s)
    case JNull => Failure(ValueNotFound(key))
    case _ => Failure(TypeMismatch(key))
  }

  function AsObject(j: Json, key: string): Result<map<string, Json>, DecodingError> {
    match j
    case JObject(f) => Success(f)
    case JNull => Failure(ValueNotFound(key))
    case _ => Failure(TypeMismatch(key))
  }

  function AsArray(j: Json, key: string): Result<seq<Json>, DecodingError> {
    match j
    case JArray(items) => Success(items)
    case JNull => Failure(ValueNotFound(key))
    case _ => Failure(TypeMismatch(key))
  }

  function IntField(f: map<string, Json>, key: string): Result<Int64, DecodingError> {
    var j :- Field(f, key);
    AsInt(j, key)
  }

  function DoubleField(f: map<string, Json>, key: string): Result<real, DecodingError> {
    var j :- Field(f, key);
    AsDouble(j, key)
  }

  function StringField(f: map<string, Json>, key: string): Result<string, DecodingError> {
    var j :- Field(f, key);
    AsString(j, key)
  }

  // ---------------------------------------------------------------- record decoders

  function DecodeCoordinate(j: Json, key: string): Result<CoordinateData, DecodingError> {
    var f :- AsObject(j, key);
    var latitude :- DoubleField(f, "latitude");
    var longitude :- DoubleField(f, "longitude");
    Success(CoordinateData(latitude, longitude))
  }

  function DecodeLocation(j: Json, key: string): Result<LocationData, DecodingError> {
    var f :- AsObject(j, key);
    var locationTitle :- StringField(f, "locationTitle");
    var locationInfo :- StringField(f, "locationInfo");
    var timeCode :- StringField(f, "timeCode");
    var coordinate :- Field(f, "filmingLocation");
    var filmingLocation :- DecodeCoordinate(coordinate, "filmingLocation");
    var imageFilename :- StringField(f, "imageFilename");
    Success(LocationData(locationTitle, locationInfo, timeCode, filmingLocation, imageFilename))
  }

  /** Decodes the elements of an array in order; the first failure is the result. */
  function DecodeLocations(items: seq<Json>, key: string): Result<seq<LocationData>, DecodingError> {
    if items == [] then Success([])
    else
      var first :- DecodeLocation(items[0], key);
      var rest :- DecodeLocations(items[1..], key);
      Success([first] + rest)
  }

  function DecodeEpisode(j: Json, key: string): Result<EpisodeData, DecodingError> {
    var f :- AsObject(j, key);
    var episodeNumber :- IntField(f, "episodeNumber");
    var episodeTitle :- StringField(f, "episodeTitle");
    var episodeAirDate :- StringField(f, "episodeAirDate");
    var episodeDescription :- StringField(f, "episodeDescription");
    var episodeGuestStars :- StringField(f, "episodeGuestStars");
    var locationsJson :- Field(f, "locations");
    var locationItems :- AsArray(locationsJson, "locations");
    var locations :- DecodeLocations(locationItems, "locations");
    var seasonEpisodeNumber :- IntField(f, "seasonEpisodeNumber");
    Success(EpisodeData(episodeNumber, episodeTitle, episodeAirDate, episodeDescription,
                        episodeGuestStars, locations, seasonEpisodeNumber))
  }

  function DecodeEpisodes(items: seq<Json>, key: string): Result<seq<EpisodeData>, DecodingError> {
    if items == [] then Success([])
    else
      var first :- DecodeEpisode(items[0], key);
      var rest :- DecodeEpisodes(items[1..], key);
      Success([first] + rest)
  }

  /** `JSONDecoder().decode(SeasonData.self, from: data)` on an already parsed document. */
  function DecodeSeason(j: Json): Result<SeasonData, DecodingError> {
    var f :- AsObject(j, "");
    var seasonNumber :- IntField(f, "seasonNumber");
    var seasonAirDate :- StringField(f, "seasonAirDate");
    var title :- StringField(f, "title");
    var totalEpisodes :- StringField(f, "totalEpisodes");
    var episodesJson :- Field(f, "episodes");
    var episodeItems :- AsArray(episodesJson, "episodes");
    var episodes :- DecodeEpisodes(episodeItems, "episodes");
    Success(SeasonData(seasonNumber, seasonAirDate, title, totalEpisodes, episodes))
  }

  // ---------------------------------------------------------------- encoders (Encodable half)

  function EncodeCoordinate(c: CoordinateData): Json {
    JObject(map["latitude" := JNumber(c.latitude), "longitude" := JNumber(c.longitude)])
  }

  function EncodeLocation(l: LocationData): Json {
    JObject(map[
      "locationTitle" := JString(l.locationTitle),
      "locationInfo" := JString(l.locationInfo),
      "timeCode" := JString(l.timeCode),
      "filmingLocation" := EncodeCoordinate(l.filmingLocation),
      "imageFilename" := JString(l.imageFilename)])
  }

  function EncodeLocations(ls: seq<LocationData>): seq<Json> {
    if ls == [] then [] else [EncodeLocation(ls[0])] + EncodeLocations(ls[1..])
  }

  function EncodeEpisode(e: EpisodeData): Json {
    JObject(map[
      "episodeNumber" := JNumber(e.episodeNumber as real),
      "episodeTitle" := JString(e.episodeTitle),
      "episodeAirDate" := JString(e.episodeAirDate),
      "episodeDescription" := JString(e.episodeDescription),
      "episodeGuestStars" := JString(e.episodeGuestStars),
      "locations" := JArray(EncodeLocations(e.locations)),
      "seasonEpisodeNumber" := JNumber(e.seasonEpisodeNumber as real)])
  }

  function EncodeEpisodes(es: seq<EpisodeData>): seq<Json> {
    if es == [] then [] else [EncodeEpisode(es[0])] + EncodeEpisodes(es[1..])
  }

  function EncodeSeason(s: SeasonData): Json {
    JObject(SeasonFields(s))
  }

  function SeasonFields(s: SeasonData): map<string, Json> {
    map[
      "seasonNumber" := JNumber(s.seasonNumber as real),
      "seasonAirDate" := JString(s.seasonAirDate),
      "title" := JString(s.title),
      "totalEpisodes" := JString(s.totalEpisodes),
      "episodes" := JArray(EncodeEpisodes(s.episodes))]
  }

  // ---------------------------------------------------------------- round trips

  lemma LocationRoundTrip(l: LocationData, key: string)
    ensures DecodeLocation(EncodeLocation(l), key) == Success(l)
  {
  }

  lemma {:induction false} LocationsRoundTrip(ls: seq<LocationData>, key: string)
    ensures DecodeLocations(EncodeLocations(ls), key) == Success(ls)
  {
    if ls != [] {
      LocationRoundTrip(ls[0], key);
      LocationsRoundTrip(ls[1..], key);
      assert [ls[0]] + ls[1..] == ls;
    }
  }

  lemma EpisodeRoundTrip(e: EpisodeData, key: string)
    ensures DecodeEpisode(EncodeEpisode(e), key) == Success(e)
  {
    var f := EncodeEpisode(e).fields;
    assert AsObject(EncodeEpisode(e), key) == Success(f);
    assert IntField(f, "episodeNumber") == Success(e.episodeNumber);
    assert StringField(f, "episodeTitle") == Success(e.episodeTitle);
    assert StringField(f, "episodeAirDate") == Success(e.episodeAirDate);
    assert StringField(f, "episodeDescription") == Success(e.episodeDescription);
    assert StringField(f, "episodeGuestStars") == Success(e.episodeGuestStars);
    assert Field(f, "locations") == Success(JArray(EncodeLocations(e.locations)));
    assert AsArray(JArray(EncodeLocations(e.locations)), "locations") == Success(EncodeLocations(e.locations));
    LocationsRoundTrip(e.locations, "locations");
    assert IntField(f, "seasonEpisodeNumber") == Success(e.seasonEpisodeNumber);
  }

  lemma {:induction false} EpisodesRoundTrip(es: seq<EpisodeData>, key: string)
    ensures DecodeEpisodes(EncodeEpisodes(es), key) == Success(es)
  {
    if es != [] {
      EpisodeRoundTrip(es[0], key);
      EpisodesRoundTrip(es[1..], key);
      assert [es[0]] + es[1..] == es;
    }
  }

  /** Decoding what the synthesized encoder writes gives back the same record. */
  lemma SeasonRoundTrip(s: SeasonData)
    ensures DecodeSeason(EncodeSeason(s)) == Success(s)
  {
    EpisodesRoundTrip(s.episodes, "episodes");
  }

  // ---------------------------------------------------------------- required keys

  const SeasonKeys: seq<string> := ["seasonNumber", "seasonAirDate", "title", "totalEpisodes", "episodes"]

  /** A decoded season came from an object that has every SeasonData key. */
  lemma DecodedSeasonHadEveryKey(j: Json)
    requires DecodeSeason(j).Success?
    ensures j.JObject? && forall k :: k in SeasonKeys ==> k in j.fields
  {
  }

  /** Dropping any one top-level key from a well-formed record makes the whole season fail. */
  lemma MissingSeasonKeyFails(s: SeasonData, k: string)
    requires k in SeasonKeys
    ensures DecodeSeason(JObject(SeasonFields(s) - {k})) == Failure(KeyNotFound(k))
  {
  }

  /** One episode failing to decode makes the whole list fail. */
  lemma {:induction false} OneBadEpisodeFailsAll(items: seq<Json>, key: string, i: nat)
    requires i < |items| && DecodeEpisode(items[i], key).Failure?
    ensures DecodeEpisodes(items, key).Failure?
  {
    if i > 0 {
      OneBadEpisodeFailsAll(items[1..], key, i - 1);
    }
  }

  /**
   * An episode object without a `locations` key makes the whole season fail to decode:
   * it is not read as an episode with no locations.
   */
  lemma EpisodeWithoutLocationsFailsSeason(j: Json, i: nat)
    requires j.JObject? && "episodes" in j.fields && j.fields["episodes"].JArray?
    requires i < |j.fields["episodes"].items|
    requires j.fields["episodes"].items[i].JObject?
    requires "locations" !in j.fields["episodes"].items[i].fields
    ensures DecodeSeason(j).Failure?
  {
    OneBadEpisodeFailsAll(j.fields["episodes"].items, "episodes", i);
  }
}
