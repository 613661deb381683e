/**
 * `FilmingViewModel`: the app's screen state over a ModelContext. It lists the seasons in
 * season order, holds the selection, derives which locations to show, fits the map around
 * them, and reloads the store from the bundled season files, reporting every failure
 * through `showError` and `errorMessage`.
 *
 * The selection holds ids into the context's graph. Prints are left out; everything else the
 * view model does to its own fields and to the store is stated.
 */
module ViewModel {
  import opened Wrappers
  import opened Graph
  import opened Store
  import opened Ingestion
  import DataLoader
  import Presentation
  import Resources
  import Schema
  import Sorting
  import Text

  // ---------------------------------------------------------------- reported errors

  /** `handleError(error:message:)`'s text: the message, a colon, and the error's description. */
  function ErrorText(message: string, description: string): string {
    message + ": " + description
  }

  /** The alert the view binds to: whether it is up and what it says. */
  datatype ErrorState = ErrorState(showError: bool, errorMessage: string)

  /** The alert after `handleError` has run once for each of `reports`, in order. */
  function AfterErrors(s: ErrorState, reports: seq<string>): ErrorState
    decreases |reports|
  {
    if reports == [] then s else AfterErrors(ErrorState(true, reports[0]), reports[1..])
  }

  /** Reports overwrite one another: the alert shows the last one, and is up once any was made. */
  lemma {:induction false} AfterErrorsShowsLast(s: ErrorState, reports: seq<string>)
    ensures reports == [] ==> AfterErrors(s, reports) == s
    ensures reports != [] ==> AfterErrors(s, reports) == ErrorState(true, reports[|reports| - 1])
    decreases |reports|
  {
    if reports != [] {
      AfterErrorsShowsLast(ErrorState(true, reports[0]), reports[1..]);
    }
  }

  /** Reporting in two runs is reporting everything in one. */
  lemma {:induction false} AfterErrorsAppend(s: ErrorState, first: seq<string>, later: seq<string>)
    ensures AfterErrors(AfterErrors(s, first), later) == AfterErrors(s, first + later)
    decreases |first|
  {
    if first != [] {
      assert (first + later)[0] == first[0] && (first + later)[1..] == first[1..] + later;
      AfterErrorsAppend(ErrorState(true, first[0]), first[1..], later);
    } else {
      assert first + later == later;
    }
  }

  const ClearMessage: string := "Failed to clear existing data"
  const LoadSeasonsMessage: string := "Failed to load seasons"

  /** What `clearExistingData()` reports: the first of the three fetches that throws. */
  function ClearErrors(fetchFailures: map<Kind, StoreError>): seq<string> {
    var failure := DataLoader.FirstFetchFailure(fetchFailures);
    if failure.Some? then [ErrorText(ClearMessage, failure.value.description)] else []
  }

  /** What `loadSeasons()` reports: the Season fetch throwing. */
  function LoadSeasonsErrors(fetchFailures: map<Kind, StoreError>): seq<string> {
    if SeasonKind in fetchFailures then [ErrorText(LoadSeasonsMessage, fetchFailures[SeasonKind].description)] else []
  }

  /**
   * What `loadSeasonFromJSON(seasonNumber:)` reports: a file that was found but could not be
   * read or decoded. A file that is not in the bundle is only printed.
   */
  function SeasonError(b: Resources.Bundle, n: int): (r: seq<string>)
    ensures |r| <= 1
    ensures r != [] <==> Resources.LookupSeason(b, n).LoadFailed?
  {
    match Resources.LookupSeason(b, n)
    case LoadFailed(e) => [ErrorText("Failed to load " + Resources.SeasonFileName(n) + ".json", Resources.Describe(e))]
    case _ => []
  }

  /** What loading seasons `first` up to `stop` reports, season after season. */
  function SeasonErrors(b: Resources.Bundle, first: int, stop: int): seq<string>
    decreases stop - first
  {
    if stop <= first then [] else SeasonErrors(b, first, stop - 1) + SeasonError(b, stop - 1)
  }

  /** Each season's report is in the sequence, and nothing else is. */
  lemma {:induction false} SeasonErrorsAreTheFailedSeasons(b: Resources.Bundle, first: int, stop: int)
    ensures forall m :: m in SeasonErrors(b, first, stop) <==> exists n :: first <= n < stop && SeasonError(b, n) == [m]
    decreases stop - first
  {
    if first < stop {
      SeasonErrorsAreTheFailedSeasons(b, first, stop - 1);
      var last := SeasonError(b, stop - 1);
      forall m ensures m in SeasonErrors(b, first, stop) <==> exists n :: first <= n < stop && SeasonError(b, n) == [m] {
        if m in last {
          assert SeasonError(b, stop - 1) == [m];
        }
        if n :| first <= n < stop && SeasonError(b, n) == [m] {
          if n == stop - 1 {
            assert m in last;
          } else {
            assert m in SeasonErrors(b, first, stop - 1);
          }
        }
      }
    }
  }

  /** Everything `loadInitialData()` reports, in order: the clear, the five seasons, the final fetch. */
  function InitialDataErrors(fetchFailures: map<Kind, StoreError>, b: Resources.Bundle): seq<string> {
    ClearErrors(fetchFailures) + SeasonErrors(b, FirstSeasonNumber, LastSeasonNumber + 1) + LoadSeasonsErrors(fetchFailures)
  }

  /**
   * `loadInitialData()` raises the alert exactly when a fetch throws or one of the season
   * files is found but fails to load; a season file missing from the bundle raises nothing.
   * When the Season fetch throws, the alert ends on "Failed to load seasons".
   */
  lemma InitialDataErrorsWhen(fetchFailures: map<Kind, StoreError>, b: Resources.Bundle)
    ensures InitialDataErrors(fetchFailures, b) == [] <==>
      && SeasonKind !in fetchFailures && EpisodeKind !in fetchFailures && LocationKind !in fetchFailures
      && forall n :: FirstSeasonNumber <= n <= LastSeasonNumber ==> !Resources.LookupSeason(b, n).LoadFailed?
    ensures SeasonKind in fetchFailures ==>
      var errs := InitialDataErrors(fetchFailures, b);
      errs != [] && errs[|errs| - 1] == ErrorText(LoadSeasonsMessage, fetchFailures[SeasonKind].description)
  {
    var seasonErrs := SeasonErrors(b, FirstSeasonNumber, LastSeasonNumber + 1);
    SeasonErrorsAreTheFailedSeasons(b, FirstSeasonNumber, LastSeasonNumber + 1);
    if seasonErrs != [] {
      assert seasonErrs[0] in seasonErrs;
    }
    if n :| FirstSeasonNumber <= n <= LastSeasonNumber && Resources.LookupSeason(b, n).LoadFailed? {
      assert SeasonError(b, n)[0] in seasonErrs;
    }
  }

  /** The alert after the clear and the seasons, then the final fetch, have reported. */
  lemma InitialDataReportsInOrder(s0: ErrorState, s1: ErrorState, s2: ErrorState,
                                  fetchFailures: map<Kind, StoreError>, b: Resources.Bundle)
    requires s1 == AfterErrors(s0, ClearErrors(fetchFailures) + SeasonErrors(b, FirstSeasonNumber, LastSeasonNumber + 1))
    requires s2 == AfterErrors(s1, LoadSeasonsErrors(fetchFailures))
    ensures s2 == AfterErrors(s0, InitialDataErrors(fetchFailures, b))
  {
    AfterErrorsAppend(s0, ClearErrors(fetchFailures) + SeasonErrors(b, FirstSeasonNumber, LastSeasonNumber + 1), LoadSeasonsErrors(fetchFailures));
  }

  // ---------------------------------------------------------------- listing seasons

  /** `ids` names every season of `g` once, in non-decreasing season number. */
  ghost predicate ListsSeasonsInOrder(g: Graph, ids: seq<nat>) {
    && (forall id :: id in ids ==> id in g.seasons)
    && multiset(ids) == multiset(g.seasons.Keys)
    && forall i, j :: 0 <= i < j < |ids| ==> g.seasons[ids[i]].seasonNumber <= g.seasons[ids[j]].seasonNumber
  }

  /** What `loadSeasons()` leaves in the list: unchanged when the fetch fails, else every season in order. */
  ghost predicate SeasonsReloaded(before: seq<nat>, after: seq<nat>, g: Graph, fetchFailures: map<Kind, StoreError>) {
    && (SeasonKind in fetchFailures ==> after == before)
    && (SeasonKind !in fetchFailures ==> ListsSeasonsInOrder(g, after))
  }

  /** A season list in order names each stored season, so its locations are all the stored ones. */
  lemma ListedSeasonsCoverTheStore(g: Graph, ids: seq<nat>)
    requires Wellformed(g) && ListsSeasonsInOrder(g, ids)
    ensures forall lid :: lid in Presentation.AllLocations(g, ids) <==> lid in g.locations
  {
    forall sid | sid in g.seasons ensures sid in ids {
      assert sid in multiset(g.seasons.Keys);
    }
    Presentation.AllLocationsAreTheStoredOnes(g, ids);
  }

  /** `sorted { $0.episodeNumber < $1.episodeNumber }` over episodes the graph holds. */
  function EpisodesByNumber(g: Graph, ids: seq<nat>): (r: seq<nat>)
    requires forall id :: id in ids ==> id in g.episodes
    ensures multiset(r) == multiset(ids)
    ensures forall id :: id in r ==> id in ids
    ensures forall i, j :: 0 <= i < j < |r| ==> g.episodes[r[i]].episodeNumber <= g.episodes[r[j]].episodeNumber
  {
    var episodeNumber := EpisodeNumberOf(g);
    var sorted := Sorting.SortByIntKey(ids, episodeNumber);
    forall id | id in sorted ensures id in ids {
      assert id in multiset(sorted);
    }
    forall i, j | 0 <= i < j < |sorted| ensures g.episodes[sorted[i]].episodeNumber <= g.episodes[sorted[j]].episodeNumber {
      assert episodeNumber(sorted[i]) <= episodeNumber(sorted[j]);
    }
    sorted
  }

  /** `sorted { $0.timeCode < $1.timeCode }` over locations the graph holds, time codes compared as text. */
  function LocationsByTimeCode(g: Graph, ids: seq<nat>): (r: seq<nat>)
    requires forall id :: id in ids ==> id in g.locations
    ensures multiset(r) == multiset(ids)
    ensures forall id :: id in r ==> id in ids
    ensures forall i, j :: 0 <= i < j < |r| ==> !Text.Less(g.locations[r[j]].timeCode, g.locations[r[i]].timeCode)
  {
    var timeCode := TimeCodeOf(g);
    var sorted := Sorting.SortByStringKey(ids, timeCode);
    forall id | id in sorted ensures id in ids {
      assert id in multiset(sorted);
    }
    forall i, j | 0 <= i < j < |sorted| ensures !Text.Less(g.locations[sorted[j]].timeCode, g.locations[sorted[i]].timeCode) {
      assert !Text.Less(timeCode(sorted[j]), timeCode(sorted[i]));
    }
    sorted
  }

  /** The sort key of an episode id: its episode number. */
  function EpisodeNumberOf(g: Graph): nat -> int {
    (id: nat) => if id in g.episodes then g.episodes[id].episodeNumber else 0
  }

  /** The sort key of a location id: its time code. */
  function TimeCodeOf(g: Graph): nat -> string {
    (id: nat) => if id in g.locations then g.locations[id].timeCode else ""
  }

  /** Episodes that share an episode number stay in the order the season lists them. */
  lemma EpisodesByNumberIsStable(g: Graph, ids: seq<nat>, n: int)
    requires forall id :: id in ids ==> id in g.episodes
    ensures var same := Sorting.HasIntKey(EpisodeNumberOf(g), n);
      Sorting.Filter(EpisodesByNumber(g, ids), same) == Sorting.Filter(ids, same)
  {
    Sorting.SortByIntKeyIsStable(ids, EpisodeNumberOf(g), n);
  }

  /** Locations that share a time code stay in the order the episode lists them. */
  lemma LocationsByTimeCodeIsStable(g: Graph, ids: seq<nat>, t: string)
    requires forall id :: id in ids ==> id in g.locations
    ensures var same := Sorting.HasStringKey(TimeCodeOf(g), t);
      Sorting.Filter(LocationsByTimeCode(g, ids), same) == Sorting.Filter(ids, same)
  {
    Sorting.SortByStringKeyIsStable(ids, TimeCodeOf(g), t);
  }

  // ---------------------------------------------------------------- the view model

  class FilmingViewModel {
    const ctx: ModelContext
    var seasons: seq<nat>
    var episodes: seq<nat>
    var selectedSeason: Option<nat>
    var selectedEpisode: Option<nat>
    var selectedLocation: Option<nat>
    var mapRegion: Presentation.Region
    var showError: bool
    var errorMessage: string

    function Errors(): ErrorState
      reads this`showError, this`errorMessage
    {
      ErrorState(showError, errorMessage)
    }

    /** `locationsToShow`, as the selection and the store stand. */
    function Shown(): seq<nat>
      reads this`seasons, this`selectedSeason, this`selectedEpisode, ctx`graph
    {
      Presentation.ShownLocations(ctx.graph, seasons, selectedSeason, selectedEpisode)
    }

    /** `init(modelContext:)`: nothing selected, no episodes, the default region, then `loadSeasons()`. */
    constructor (ctx: ModelContext)
      ensures this.ctx == ctx
      ensures episodes == [] && selectedSeason == None && selectedEpisode == None && selectedLocation == None
      ensures mapRegion == Presentation.InitialRegion
      ensures Errors() == AfterErrors(ErrorState(false, ""), LoadSeasonsErrors(ctx.fetchFailures))
      ensures SeasonKind in ctx.fetchFailures ==> seasons == []
      ensures SeasonKind !in ctx.fetchFailures ==> ListsSeasonsInOrder(ctx.graph, seasons)
    {
      this.ctx := ctx;
      seasons := [];
      episodes := [];
      selectedSeason := None;
      selectedEpisode := None;
      selectedLocation := None;
      mapRegion := Presentation.InitialRegion;
      showError := false;
      errorMessage := "";
      new;
      LoadSeasons();
    }

    /** `handleError(error:message:)`: the alert shows the message and the error's description. */
    method HandleError(message: string, description: string)
      modifies this`showError, this`errorMessage
      ensures Errors() == AfterErrors(old(Errors()), [ErrorText(message, description)])
    {
      errorMessage := ErrorText(message, description);
      showError := true;
    }

    /**
     * `loadSeasons()`: every stored season, ordered by season number. When the fetch throws
     * the list is left as it was and the failure is reported.
     */
    method LoadSeasons()
      modifies this`seasons, this`showError, this`errorMessage
      ensures Errors() == AfterErrors(old(Errors()), LoadSeasonsErrors(ctx.fetchFailures))
      ensures SeasonsReloaded(old(seasons), seasons, ctx.graph, ctx.fetchFailures)
    {
      var fetched := ctx.FetchSeasonsBySeasonNumber();
      match fetched {
        case Success(ids) =>
          seasons := ids;
        case Failure(e) =>
          HandleError(LoadSeasonsMessage, e.description);
      }
    }

    /** `loadEpisodesForSeason(_:)`: the season's episodes ordered by episode number, kept and returned. */
    method LoadEpisodesForSeason(sid: nat) returns (r: seq<nat>)
      requires ctx.Valid() && sid in ctx.graph.seasons
      modifies this`episodes
      ensures episodes == r
      ensures multiset(r) == multiset(ctx.graph.seasons[sid].episodes)
      ensures forall id :: id in r ==> id in ctx.graph.episodes && ctx.graph.episodes[id].season == Some(sid)
      ensures forall i, j :: 0 <= i < j < |r| ==> ctx.graph.episodes[r[i]].episodeNumber <= ctx.graph.episodes[r[j]].episodeNumber
    {
      r := EpisodesByNumber(ctx.graph, ctx.graph.seasons[sid].episodes);
      episodes := r;
    }

    /** `loadLocationsForEpisode(_:)`: the episode's locations ordered by time code, as text. */
    method LoadLocationsForEpisode(eid: nat) returns (r: seq<nat>)
      requires ctx.Valid() && eid in ctx.graph.episodes
      ensures multiset(r) == multiset(ctx.graph.episodes[eid].locations)
      ensures forall id :: id in r ==> id in ctx.graph.locations && ctx.graph.locations[id].episode == Some(eid)
      ensures forall i, j :: 0 <= i < j < |r| ==> !Text.Less(ctx.graph.locations[r[j]].timeCode, ctx.graph.locations[r[i]].timeCode)
    {
      r := LocationsByTimeCode(ctx.graph, ctx.graph.episodes[eid].locations);
    }

    /** `selectSeason(_:)`: the season is selected and the episode and location are cleared, so the season's locations show. */
    method SelectSeason(sid: nat)
      modifies this`selectedSeason, this`selectedEpisode, this`selectedLocation
      ensures selectedSeason == Some(sid) && selectedEpisode == None && selectedLocation == None
      ensures Shown() == Presentation.SeasonLocations(ctx.graph, sid)
    {
      selectedSeason := Some(sid);
      selectedEpisode := None;
      selectedLocation := None;
    }

    /**
     * `selectEpisode(_:)`: the episode is selected and the location cleared. Its locations
     * show only while a season is selected; without one, every season's still do.
     */
    method SelectEpisode(eid: nat)
      modifies this`selectedEpisode, this`selectedLocation
      ensures selectedEpisode == Some(eid) && selectedLocation == None
      ensures selectedSeason.Some? ==> Shown() == Presentation.EpisodeLocations(ctx.graph, eid)
      ensures selectedSeason.None? ==> Shown() == Presentation.AllLocations(ctx.graph, seasons)
    {
      selectedEpisode := Some(eid);
      selectedLocation := None;
    }

    /** `selectLocation(_:)`: only the location changes, so the shown locations stay as they were. */
    method SelectLocation(lid: nat)
      modifies this`selectedLocation
      ensures selectedLocation == Some(lid)
      ensures Shown() == old(Shown())
    {
      selectedLocation := Some(lid);
    }

    /** `getLocationsForEpisode(_:)`: exactly the locations that point to the episode. */
    method GetLocationsForEpisode(eid: nat) returns (r: seq<nat>)
      requires ctx.Valid()
      ensures r == Presentation.EpisodeLocations(ctx.graph, eid)
      ensures forall lid :: lid in r <==> lid in ctx.graph.locations && ctx.graph.locations[lid].episode == Some(eid)
    {
      r := [];
      r := r + Presentation.EpisodeLocations(ctx.graph, eid);
      Presentation.EpisodeLocationsExact(ctx.graph, eid);
    }

    /**
     * `getLocationsForSeason(_:)`: the locations of the season's episodes, episode after
     * episode, which are exactly the locations whose episode belongs to the season.
     */
    method GetLocationsForSeason(sid: nat) returns (r: seq<nat>)
      requires ctx.Valid()
      ensures r == Presentation.SeasonLocations(ctx.graph, sid)
      ensures forall lid :: lid in r <==>
        && lid in ctx.graph.locations && ctx.graph.locations[lid].episode.Some?
        && ctx.graph.locations[lid].episode.value in ctx.graph.episodes
        && ctx.graph.episodes[ctx.graph.locations[lid].episode.value].season == Some(sid)
    {
      Presentation.SeasonLocationsExact(ctx.graph, sid);
      r := [];
      if sid !in ctx.graph.seasons {
        return;
      }
      var eids := ctx.graph.seasons[sid].episodes;
      for i := 0 to |eids|
        invariant r == Presentation.LocationsOfEpisodes(ctx.graph, eids[..i])
      {
        assert eids[..i + 1][..i] == eids[..i];
        r := r + Presentation.EpisodeLocations(ctx.graph, eids[i]);
      }
      assert eids[..|eids|] == eids;
    }

    /**
     * `getAllLocations()`: the locations of every listed season, season after season; when
     * the list names every stored season, these are exactly the stored locations.
     */
    method GetAllLocations() returns (r: seq<nat>)
      requires ctx.Valid()
      ensures r == Presentation.AllLocations(ctx.graph, seasons)
      ensures ListsSeasonsInOrder(ctx.graph, seasons) ==> forall lid :: lid in r <==> lid in ctx.graph.locations
    {
      r := [];
      for i := 0 to |seasons|
        invariant r == Presentation.AllLocations(ctx.graph, seasons[..i])
      {
        var part := GetLocationsForSeason(seasons[i]);
        assert seasons[..i + 1][..i] == seasons[..i];
        r := r + part;
      }
      assert seasons[..|seasons|] == seasons;
      if ListsSeasonsInOrder(ctx.graph, seasons) {
        ListedSeasonsCoverTheStore(ctx.graph, seasons);
      }
    }

    /**
     * `locationsToShow`: the selected episode's locations when a season is selected too, the
     * selected season's otherwise, and every listed season's without a selection.
     */
    method LocationsToShow() returns (r: seq<nat>)
      requires ctx.Valid()
      ensures r == Shown()
      ensures selectedSeason.Some? && selectedEpisode.Some? ==>
        forall lid :: lid in r <==> lid in ctx.graph.locations && ctx.graph.locations[lid].episode == selectedEpisode
      ensures selectedSeason.None? && ListsSeasonsInOrder(ctx.graph, seasons) ==>
        forall lid :: lid in r <==> lid in ctx.graph.locations
    {
      if selectedSeason.Some? {
        if selectedEpisode.Some? {
          r := GetLocationsForEpisode(selectedEpisode.value);
          return;
        }
        r := GetLocationsForSeason(selectedSeason.value);
        return;
      }
      r := GetAllLocations();
    }

    /** `getLocationLabel()`: the count of shown locations and the noun, which read back as that count. */
    method GetLocationLabel() returns (s: string)
      requires ctx.Valid()
      ensures s == Presentation.LocationLabel(|Shown()|)
      ensures Text.ParseInt(Text.FirstComponent(s, ' ')) == Some(|Shown()|)
      ensures s[|s| - 1] == 's' <==> |Shown()| != 1
    {
      var shown := LocationsToShow();
      var noun := if |shown| == 1 then "Location" else "Locations";
      s := Text.IntToString(|shown|) + " " + noun;
      Presentation.LocationLabelReadsBack(|shown|);
    }

    /**
     * `fitMapToLocations(_:)`: nothing happens for no locations; otherwise one pass keeps the
     * running bounds of the coordinates and the region is set around them.
     */
    method FitMapToLocations(ls: seq<Location>)
      modifies this`mapRegion
      ensures ls == [] ==> mapRegion == old(mapRegion)
      ensures ls != [] ==> mapRegion == Presentation.BoundingRegion(ls)
    {
      if ls == [] {
        return;
      }
      var minLat, maxLat := ls[0].filmingLocation.latitude, ls[0].filmingLocation.latitude;
      var minLon, maxLon := ls[0].filmingLocation.longitude, ls[0].filmingLocation.longitude;
      Presentation.BoundsOfFirst(ls);
      for i := 0 to |ls|
        invariant var seen := ls[..if i == 0 then 1 else i];
          && minLat == Presentation.Lowest(Presentation.Latitudes(seen))
          && maxLat == Presentation.Highest(Presentation.Latitudes(seen))
          && minLon == Presentation.Lowest(Presentation.Longitudes(seen))
          && maxLon == Presentation.Highest(Presentation.Longitudes(seen))
      {
        var c := ls[i].filmingLocation;
        if i > 0 {
          Presentation.BoundsStep(ls, i);
        }
        minLat := Presentation.Min(minLat, c.latitude);
        maxLat := Presentation.Max(maxLat, c.latitude);
        minLon := Presentation.Min(minLon, c.longitude);
        maxLon := Presentation.Max(maxLon, c.longitude);
      }
      assert ls[..|ls|] == ls;
      mapRegion := Presentation.Region((minLat + maxLat) / 2.0, (minLon + maxLon) / 2.0, (maxLat - minLat) * 1.5, (maxLon - minLon) * 1.5);
    }

    /**
     * `clearExistingData()`: the three `delete(model:)` calls DataLoader also makes; the
     * first fetch that throws ends them and is reported.
     */
    method ClearExistingData()
      requires ctx.Valid()
      modifies ctx`graph, this`showError, this`errorMessage
      ensures ctx.Valid()
      ensures SeasonKind in ctx.fetchFailures ==> ctx.graph == old(ctx.graph)
      ensures SeasonKind !in ctx.fetchFailures ==> ctx.graph == Empty
      ensures Errors() == AfterErrors(old(Errors()), ClearErrors(ctx.fetchFailures))
    {
      var failure := DataLoader.ClearExistingData(ctx);
      if failure.Some? {
        HandleError(ClearMessage, failure.value.description);
      }
    }

    /** `createEpisode(from:in:)`: the episode made from the record, linked to the season and inserted. */
    method CreateEpisode(ed: Schema.EpisodeData, sid: nat) returns (eid: nat)
      requires ctx.Valid() && sid in ctx.graph.seasons
      modifies ctx`graph, ctx`nextId
      ensures ctx.Valid() && eid in ctx.graph.episodes
      ensures eid == old(ctx.nextId) && ctx.nextId == eid + 1
      ensures ctx.graph == AddEpisode(old(ctx.graph), eid, EpisodeOf(ed), sid)
    {
      eid := ctx.InsertEpisode(EpisodeOf(ed), sid);
    }

    /**
     * `createLocations(from:in:)`: each record becomes a Location with its image data looked
     * up in the bundle, linked to the episode and inserted, in order.
     */
    method CreateLocations(lds: seq<Schema.LocationData>, eid: nat, b: Resources.Bundle)
      requires ctx.Valid() && eid in ctx.graph.episodes
      modifies ctx`graph, ctx`nextId
      ensures ctx.Valid() && ctx.graph.seasons == old(ctx.graph.seasons)
      ensures Arena(ctx.graph, ctx.nextId) == InsertLocations(Arena(old(ctx.graph), old(ctx.nextId)), eid, LocationsOf(lds, b))
    {
      ghost var start := Arena(ctx.graph, ctx.nextId);
      ghost var stored: seq<Location> := [];
      for j := 0 to |lds|
        invariant ctx.Valid() && eid in ctx.graph.episodes && ctx.graph.seasons == start.graph.seasons
        invariant stored == LocationsOf(lds[..j], b)
        invariant Arena(ctx.graph, ctx.nextId) == InsertLocations(start, eid, stored)
      {
        var location := LocationOf(lds[j], b);
        InsertLocationsSnoc(start, eid, stored, Arena(ctx.graph, ctx.nextId), location);
        var lid := ctx.InsertLocation(location, eid);
        stored := stored + [location];
        LocationsOfAppend(lds, j, b);
      }
      assert lds[..|lds|] == lds;
    }

    /** One pass of the episode loop in `loadSeasonFromJSON`: `createEpisode`, then `createLocations` for it. */
    method InsertEpisodeData(ed: Schema.EpisodeData, sid: nat, b: Resources.Bundle)
      requires ctx.Valid() && sid in ctx.graph.seasons
      modifies ctx`graph, ctx`nextId
      ensures ctx.Valid() && sid in ctx.graph.seasons
      ensures Arena(ctx.graph, ctx.nextId) == InsertEpisodeTree(Arena(old(ctx.graph), old(ctx.nextId)), sid, EpisodeTreeOf(ed, b))
    {
      ghost var before := Arena(ctx.graph, ctx.nextId);
      var eid := CreateEpisode(ed, sid);
      ghost var episodeBase := Arena(ctx.graph, ctx.nextId);
      assert episodeBase == Arena(AddEpisode(before.graph, before.next, EpisodeOf(ed), sid), before.next + 1);
      CreateLocations(ed.locations, eid, b);
      InsertEpisodeTreeSteps(before, sid, EpisodeTreeOf(ed, b), episodeBase, LocationsOf(ed.locations, b));
    }

    /**
     * The `do` block of `loadSeasonFromJSON(seasonNumber:)` once the record is decoded: the
     * season is inserted, then each episode followed by its locations.
     */
    method InsertSeasonData(sd: Schema.SeasonData, b: Resources.Bundle)
      requires ctx.Valid()
      modifies ctx`graph, ctx`nextId
      ensures ctx.Valid()
      ensures Arena(ctx.graph, ctx.nextId) == InsertSeasonTree(Arena(old(ctx.graph), old(ctx.nextId)), SeasonTreeOf(sd, b))
    {
      ghost var start := Arena(ctx.graph, ctx.nextId);
      var sid := ctx.InsertSeason(SeasonOf(sd));
      ghost var base := Arena(ctx.graph, ctx.nextId);
      assert base == Arena(AddSeason(start.graph, start.next, SeasonOf(sd)), start.next + 1);
      InsertSeasonTreeSteps(start, SeasonTreeOf(sd, b), base, EpisodeTreesOf(sd.episodes, b));
      InsertEpisodesData(sd.episodes, sid, b);
    }

    /** The `for episodeData in seasonData.episodes` loop, each episode stored under the season `sid`. */
    method InsertEpisodesData(eds: seq<Schema.EpisodeData>, sid: nat, b: Resources.Bundle)
      requires ctx.Valid() && sid in ctx.graph.seasons
      modifies ctx`graph, ctx`nextId
      ensures ctx.Valid()
      ensures Arena(ctx.graph, ctx.nextId) == InsertEpisodeTrees(Arena(old(ctx.graph), old(ctx.nextId)), sid, EpisodeTreesOf(eds, b))
    {
      ghost var base := Arena(ctx.graph, ctx.nextId);
      ghost var trees: seq<EpisodeTree> := [];
      for i := 0 to |eds|
        invariant ctx.Valid() && sid in ctx.graph.seasons
        invariant trees == EpisodeTreesOf(eds[..i], b)
        invariant Arena(ctx.graph, ctx.nextId) == InsertEpisodeTrees(base, sid, trees)
      {
        var ed := eds[i];
        InsertEpisodeData(ed, sid, b);
        InsertEpisodeTreesSnoc(base, sid, trees, EpisodeTreeOf(ed, b));
        EpisodeTreesOfAppend(eds, i, b);
        trees := trees + [EpisodeTreeOf(ed, b)];
      }
      assert eds[..|eds|] == eds;
    }

    /**
     * `loadSeasonFromJSON(seasonNumber:)`: a file missing from the bundle changes nothing; one
     * that cannot be read or decoded is reported and changes nothing else; a decoded one is
     * stored whole.
     */
    method LoadSeasonFromJSON(b: Resources.Bundle, n: int)
      requires ctx.Valid()
      modifies ctx`graph, ctx`nextId, this`showError, this`errorMessage
      ensures ctx.Valid()
      ensures Arena(ctx.graph, ctx.nextId) == LoadSeasonStep(Arena(old(ctx.graph), old(ctx.nextId)), b, n)
      ensures Errors() == AfterErrors(old(Errors()), SeasonError(b, n))
    {
      var filename := Resources.SeasonFileName(n);
      match Resources.LookupSeason(b, n) {
        case NotFound =>
        case LoadFailed(e) =>
          HandleError("Failed to load " + filename + ".json", Resources.Describe(e));
        case Loaded(sd) =>
          InsertSeasonData(sd, b);
      }
    }

    /** The `for seasonNumber in 1...5` loop of `loadInitialData()`, over seasons `first` up to `stop`. */
    method LoadSeasonsFromJSON(b: Resources.Bundle, first: int, stop: int)
      requires ctx.Valid() && first <= stop
      modifies ctx`graph, ctx`nextId, this`showError, this`errorMessage
      ensures ctx.Valid()
      ensures Arena(ctx.graph, ctx.nextId) == LoadSeasonRange(Arena(old(ctx.graph), old(ctx.nextId)), b, first, stop)
      ensures Errors() == AfterErrors(old(Errors()), SeasonErrors(b, first, stop))
    {
      ghost var start := Arena(ctx.graph, ctx.nextId);
      ghost var errors := Errors();
      for n := first to stop
        invariant ctx.Valid()
        invariant Arena(ctx.graph, ctx.nextId) == LoadSeasonRange(start, b, first, n)
        invariant Errors() == AfterErrors(errors, SeasonErrors(b, first, n))
      {
        LoadSeasonFromJSON(b, n);
        AfterErrorsAppend(errors, SeasonErrors(b, first, n), SeasonError(b, n));
        assert SeasonErrors(b, first, n + 1) == SeasonErrors(b, first, n) + SeasonError(b, n);
        assert Arena(ctx.graph, ctx.nextId) == LoadSeasonRange(start, b, first, n + 1);
      }
    }

    /**
     * The first two steps of `loadInitialData()`: `clearExistingData()`, then the
     * `for seasonNumber in 1...5` loop. The store ends as DataLoader's `loadData` leaves it.
     */
    method ClearAndLoadSeasons(b: Resources.Bundle)
      requires ctx.Valid()
      modifies ctx`graph, ctx`nextId, this`showError, this`errorMessage
      ensures ctx.Valid()
      ensures Arena(ctx.graph, ctx.nextId) == DataLoader.RunResult(old(ctx.graph), old(ctx.nextId), ctx.fetchFailures, b)
      ensures Errors() == AfterErrors(old(Errors()), ClearErrors(ctx.fetchFailures) + SeasonErrors(b, FirstSeasonNumber, LastSeasonNumber + 1))
    {
      ghost var errors := Errors();
      ClearExistingData();
      ghost var afterClear := Errors();
      ghost var cleared := Arena(ctx.graph, ctx.nextId);
      DataLoader.RunStartsFrom(old(ctx.graph), old(ctx.nextId), ctx.fetchFailures, b, cleared);
      LoadSeasonsFromJSON(b, FirstSeasonNumber, LastSeasonNumber + 1);
      AfterErrorsAppend(errors, ClearErrors(ctx.fetchFailures), SeasonErrors(b, FirstSeasonNumber, LastSeasonNumber + 1));
    }

    /**
     * `loadInitialData()`: clear, load seasons 1 to 5, list the seasons again. The store ends
     * as after DataLoader's `loadData` (which also saves, and this does not), and the alert
     * shows the last failure reported along the way.
     */
    method LoadInitialData(b: Resources.Bundle)
      requires ctx.Valid()
      modifies ctx`graph, ctx`nextId, this`seasons, this`showError, this`errorMessage
      ensures ctx.Valid()
      ensures Arena(ctx.graph, ctx.nextId) == DataLoader.RunResult(old(ctx.graph), old(ctx.nextId), ctx.fetchFailures, b)
      ensures Errors() == AfterErrors(old(Errors()), InitialDataErrors(ctx.fetchFailures, b))
      ensures SeasonsReloaded(old(seasons), seasons, ctx.graph, ctx.fetchFailures)
    {
      ghost var errors := Errors();
      ClearAndLoadSeasons(b);
      ghost var loaded := Errors();
      ghost var g, n := ctx.graph, ctx.nextId;
      LoadSeasons();
      assert ctx.graph == g && ctx.nextId == n;
      InitialDataReportsInOrder(errors, loaded, Errors(), ctx.fetchFailures, b);
    }
  }
}
