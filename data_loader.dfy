/**
 * `DataLoader.loadData(modelContext:)`: empty the store, load the five bundled season files
 * in order, and save. Nothing is thrown to the caller; every failure is printed and the
 * run goes on. The printed lines are returned here as `Notice`s, in the order printed.
 */
module DataLoader {
  import opened Wrappers
  import opened Graph
  import opened Store
  import opened Ingestion
  import Schema
  import Resources

  /** One printed line, with the value interpolated into it. */
  datatype Notice =
    | ClearFailed(storeError: StoreError)                          // "Failed to clear existing data: ..."
    | SeasonFileMissing(filename: string)                          // "Could not find <filename>.json in bundle"
    | SeasonFailed(filename: string, loadError: Resources.LoadError) // "Failed to load or decode <filename>.json: ..."
    | ImageMissing(imageFilename: string)                          // "Could not find image: <filename>"
    | SaveFailed(saveError: StoreError)                            // "Failed to save context: ..."

  // ---------------------------------------------------------------- what is printed

  /** What looking up these locations' images prints: one notice per image not in the bundle, in order. */
  function ImageNotices(lds: seq<Schema.LocationData>, b: Resources.Bundle): seq<Notice>
    decreases |lds|
  {
    if lds == [] then []
    else
      var f := lds[|lds| - 1].imageFilename;
      ImageNotices(lds[..|lds| - 1], b) + if Resources.ImageResource(f) in b then [] else [ImageMissing(f)]
  }

  /** The missing images of a season's episodes, episode by episode. */
  function EpisodeImageNotices(eds: seq<Schema.EpisodeData>, b: Resources.Bundle): seq<Notice>
    decreases |eds|
  {
    if eds == [] then [] else EpisodeImageNotices(eds[..|eds| - 1], b) + ImageNotices(eds[|eds| - 1].locations, b)
  }

  /** An image is reported missing exactly when some location names it and the bundle lacks it. */
  lemma {:induction false} ImageNoticesAreMissingImages(lds: seq<Schema.LocationData>, b: Resources.Bundle)
    ensures var r := ImageNotices(lds, b);
      && |r| <= |lds|
      && (forall k :: 0 <= k < |r| ==> r[k].ImageMissing?)
      && forall f :: ImageMissing(f) in r <==>
           Resources.ImageResource(f) !in b && exists k :: 0 <= k < |lds| && lds[k].imageFilename == f
    decreases |lds|
  {
    if lds != [] {
      var front := lds[..|lds| - 1];
      ImageNoticesAreMissingImages(front, b);
      assert forall k :: 0 <= k < |lds| - 1 ==> front[k] == lds[k];
    }
  }

  /** The same for a whole season: each notice names a location's image that the bundle lacks, and every such image is named. */
  lemma {:induction false} EpisodeImageNoticesAreMissingImages(eds: seq<Schema.EpisodeData>, b: Resources.Bundle)
    ensures var r := EpisodeImageNotices(eds, b);
      && (forall k :: 0 <= k < |r| ==> r[k].ImageMissing?)
      && forall f :: ImageMissing(f) in r <==>
           Resources.ImageResource(f) !in b &&
           exists k, j :: 0 <= k < |eds| && 0 <= j < |eds[k].locations| && eds[k].locations[j].imageFilename == f
    decreases |eds|
  {
    if eds != [] {
      var front := eds[..|eds| - 1];
      EpisodeImageNoticesAreMissingImages(front, b);
      ImageNoticesAreMissingImages(eds[|eds| - 1].locations, b);
      assert forall k :: 0 <= k < |eds| - 1 ==> front[k] == eds[k];
    }
  }

  /** Looking up one more location's image at the end adds its notice, if any, at the end. */
  lemma ImageNoticesAppend(lds: seq<Schema.LocationData>, j: nat, b: Resources.Bundle)
    requires j < |lds|
    ensures var f := lds[j].imageFilename;
      ImageNotices(lds[..j + 1], b)
      == ImageNotices(lds[..j], b) + if Resources.ImageResource(f) in b then [] else [ImageMissing(f)]
  {
    assert lds[..j + 1][..j] == lds[..j];
  }

  lemma EpisodeImageNoticesAppend(eds: seq<Schema.EpisodeData>, i: nat, b: Resources.Bundle)
    requires i < |eds|
    ensures EpisodeImageNotices(eds[..i + 1], b) == EpisodeImageNotices(eds[..i], b) + ImageNotices(eds[i].locations, b)
  {
    assert eds[..i + 1][..i] == eds[..i];
  }

  /** What loading season `n` prints: why it was skipped, or the images it did not find. */
  function SeasonNotices(b: Resources.Bundle, n: int): seq<Notice> {
    match Resources.LookupSeason(b, n)
    case NotFound => [SeasonFileMissing(Resources.SeasonFileName(n))]
    case LoadFailed(e) => [SeasonFailed(Resources.SeasonFileName(n), e)]
    case Loaded(sd) => EpisodeImageNotices(sd.episodes, b)
  }

  /** What loading seasons `first` up to `stop` prints, season after season. */
  function LoadNotices(b: Resources.Bundle, first: int, stop: int): seq<Notice>
    decreases stop - first
  {
    if stop <= first then [] else LoadNotices(b, first, stop - 1) + SeasonNotices(b, stop - 1)
  }

  /** A season is skipped with exactly one notice naming its file, and one that loads prints no such notice. */
  lemma SeasonNoticeNamesFile(b: Resources.Bundle, n: int)
    ensures ExpectedSeason(b, n) == [] <==>
              |SeasonNotices(b, n)| == 1 && !SeasonNotices(b, n)[0].ImageMissing?
    ensures ExpectedSeason(b, n) == [] ==>
              SeasonNotices(b, n)[0].filename == Resources.SeasonFileName(n)
  {
    var lookup := Resources.LookupSeason(b, n);
    if lookup.Loaded? {
      EpisodeImageNoticesAreMissingImages(lookup.season.episodes, b);
      assert SeasonNotices(b, n) == EpisodeImageNotices(lookup.season.episodes, b);
      assert ExpectedSeason(b, n) == [SeasonTreeOf(lookup.season, b)];
    }
  }

  /**
   * The throw that ends `clearExistingData`: the three `delete(model:)` calls run in order
   * and the first fetch that throws stops the rest.
   */
  function FirstFetchFailure(fetchFailures: map<Kind, StoreError>): (r: Option<StoreError>)
    ensures r.None? <==> SeasonKind !in fetchFailures && EpisodeKind !in fetchFailures && LocationKind !in fetchFailures
    ensures r.Some? ==> exists k :: k in fetchFailures && fetchFailures[k] == r.value
    ensures SeasonKind in fetchFailures ==> r == Some(fetchFailures[SeasonKind])
  {
    if SeasonKind in fetchFailures then Some(fetchFailures[SeasonKind])
    else if EpisodeKind in fetchFailures then Some(fetchFailures[EpisodeKind])
    else if LocationKind in fetchFailures then Some(fetchFailures[LocationKind])
    else None
  }

  /** What a failure prints, if there was one. */
  function ClearNotices(failure: Option<StoreError>): seq<Notice> {
    if failure.Some? then [ClearFailed(failure.value)] else []
  }

  function SaveNotices(failure: Option<StoreError>): seq<Notice> {
    if failure.Some? then [SaveFailed(failure.value)] else []
  }

  /** Everything `loadData` prints, in order. */
  function RunNotices(fetchFailures: map<Kind, StoreError>, saveFailure: Option<StoreError>, b: Resources.Bundle): seq<Notice> {
    ClearNotices(FirstFetchFailure(fetchFailures))
    + LoadNotices(b, FirstSeasonNumber, LastSeasonNumber + 1)
    + SaveNotices(saveFailure)
  }

  // ---------------------------------------------------------------- the loader

  /**
   * `clearExistingData`: delete every Season, then every Episode, then every Location. The
   * cascades already empty the store once the Seasons are gone; a fetch that throws ends the
   * clear, and the throw is returned.
   */
  method ClearExistingData(ctx: ModelContext) returns (failure: Option<StoreError>)
    requires ctx.Valid()
    modifies ctx`graph
    ensures ctx.Valid()
    ensures failure == FirstFetchFailure(ctx.fetchFailures)
    ensures SeasonKind in ctx.fetchFailures ==> ctx.graph == old(ctx.graph)
    ensures SeasonKind !in ctx.fetchFailures ==> ctx.graph == Empty
  {
    var r := ctx.DeleteAll(SeasonKind);
    if r.Fail? {
      return Some(r.error);
    }
    assert ctx.graph == Empty;
    r := ctx.DeleteAll(EpisodeKind);
    if r.Fail? {
      return Some(r.error);
    }
    EmptiedKindIsCleared(Empty, EpisodeKind);
    r := ctx.DeleteAll(LocationKind);
    if r.Fail? {
      return Some(r.error);
    }
    EmptiedKindIsCleared(Empty, LocationKind);
    return None;
  }

  /**
   * `loadSeason(seasonNumber:modelContext:)`: look the file up, read and decode it, then
   * store what it holds. A missing or undecodable file changes nothing.
   */
  method LoadSeason(ctx: ModelContext, b: Resources.Bundle, n: int) returns (notices: seq<Notice>)
    requires ctx.Valid()
    modifies ctx`graph, ctx`nextId
    ensures ctx.Valid()
    ensures Arena(ctx.graph, ctx.nextId) == LoadSeasonStep(Arena(old(ctx.graph), old(ctx.nextId)), b, n)
    ensures notices == SeasonNotices(b, n)
  {
    var filename := Resources.SeasonFileName(n);
    var lookup := Resources.LookupSeason(b, n);
    match lookup {
      case NotFound =>
        return [SeasonFileMissing(filename)];
      case LoadFailed(e) =>
        return [SeasonFailed(filename, e)];
      case Loaded(sd) =>
        notices := StoreSeason(ctx, sd, b);
    }
  }

  /**
   * The `do` block of `loadSeason` once the record is decoded: insert the season, and for
   * each episode record the episode linked to it followed by that episode's locations.
   */
  method StoreSeason(ctx: ModelContext, sd: Schema.SeasonData, b: Resources.Bundle) returns (notices: seq<Notice>)
    requires ctx.Valid()
    modifies ctx`graph, ctx`nextId
    ensures ctx.Valid()
    ensures Arena(ctx.graph, ctx.nextId) == InsertSeasonTree(Arena(old(ctx.graph), old(ctx.nextId)), SeasonTreeOf(sd, b))
    ensures notices == EpisodeImageNotices(sd.episodes, b)
  {
    ghost var start := Arena(ctx.graph, ctx.nextId);
    var sid := ctx.InsertSeason(SeasonOf(sd));
    ghost var base := Arena(ctx.graph, ctx.nextId);
    assert base == Arena(AddSeason(start.graph, start.next, SeasonOf(sd)), start.next + 1);
    InsertSeasonTreeSteps(start, SeasonTreeOf(sd, b), base, EpisodeTreesOf(sd.episodes, b));
    notices := StoreEpisodes(ctx, sid, sd.episodes, b);
  }

  /** The loop over the season's episode records, each stored under the season `sid`. */
  method StoreEpisodes(ctx: ModelContext, sid: nat, eds: seq<Schema.EpisodeData>, b: Resources.Bundle) returns (notices: seq<Notice>)
    requires ctx.Valid() && sid in ctx.graph.seasons
    modifies ctx`graph, ctx`nextId
    ensures ctx.Valid()
    ensures Arena(ctx.graph, ctx.nextId) == InsertEpisodeTrees(Arena(old(ctx.graph), old(ctx.nextId)), sid, EpisodeTreesOf(eds, b))
    ensures notices == EpisodeImageNotices(eds, b)
  {
    ghost var base := Arena(ctx.graph, ctx.nextId);
    ghost var trees: seq<EpisodeTree> := [];
    notices := [];
    var i := 0;
    while i < |eds|
      invariant 0 <= i <= |eds|
      invariant ctx.Valid() && sid in ctx.graph.seasons
      invariant trees == EpisodeTreesOf(eds[..i], b)
      invariant Arena(ctx.graph, ctx.nextId) == InsertEpisodeTrees(base, sid, trees)
      invariant notices == EpisodeImageNotices(eds[..i], b)
    {
      var ed := eds[i];
      var printed := StoreEpisode(ctx, sid, ed, b);
      InsertEpisodeTreesSnoc(base, sid, trees, EpisodeTreeOf(ed, b));
      EpisodeTreesOfAppend(eds, i, b);
      EpisodeImageNoticesAppend(eds, i, b);
      notices := notices + printed;
      trees := trees + [EpisodeTreeOf(ed, b)];
      i := i + 1;
    }
    assert eds[..i] == eds;
  }

  /** One pass of the episode loop: insert the episode linked to season `sid`, then its locations. */
  method StoreEpisode(ctx: ModelContext, sid: nat, ed: Schema.EpisodeData, b: Resources.Bundle) returns (notices: seq<Notice>)
    requires ctx.Valid() && sid in ctx.graph.seasons
    modifies ctx`graph, ctx`nextId
    ensures ctx.Valid() && sid in ctx.graph.seasons
    ensures Arena(ctx.graph, ctx.nextId) == InsertEpisodeTree(Arena(old(ctx.graph), old(ctx.nextId)), sid, EpisodeTreeOf(ed, b))
    ensures notices == ImageNotices(ed.locations, b)
  {
    ghost var before := Arena(ctx.graph, ctx.nextId);
    var eid := ctx.InsertEpisode(EpisodeOf(ed), sid);
    ghost var episodeBase := Arena(ctx.graph, ctx.nextId);
    assert episodeBase == Arena(AddEpisode(before.graph, before.next, EpisodeOf(ed), sid), before.next + 1);
    notices := StoreLocations(ctx, eid, ed.locations, b);
    InsertEpisodeTreeSteps(before, sid, EpisodeTreeOf(ed, b), episodeBase, LocationsOf(ed.locations, b));
  }

  /**
   * The inner loop of that block: each location record becomes a Location linked to the
   * episode `eid`, its image looked up in the bundle and reported when missing.
   */
  method StoreLocations(ctx: ModelContext, eid: nat, lds: seq<Schema.LocationData>, b: Resources.Bundle) returns (notices: seq<Notice>)
    requires ctx.Valid() && eid in ctx.graph.episodes
    modifies ctx`graph, ctx`nextId
    ensures ctx.Valid() && ctx.graph.seasons == old(ctx.graph.seasons)
    ensures Arena(ctx.graph, ctx.nextId) == InsertLocations(Arena(old(ctx.graph), old(ctx.nextId)), eid, LocationsOf(lds, b))
    ensures notices == ImageNotices(lds, b)
  {
    ghost var start := Arena(ctx.graph, ctx.nextId);
    ghost var stored: seq<Location> := [];
    notices := [];
    var j := 0;
    while j < |lds|
      invariant 0 <= j <= |lds|
      invariant ctx.Valid() && eid in ctx.graph.episodes && ctx.graph.seasons == start.graph.seasons
      invariant stored == LocationsOf(lds[..j], b)
      invariant Arena(ctx.graph, ctx.nextId) == InsertLocations(start, eid, stored)
      invariant notices == ImageNotices(lds[..j], b)
    {
      var ld := lds[j];
      if Resources.ImageResource(ld.imageFilename) !in b {
        notices := notices + [ImageMissing(ld.imageFilename)];
      }
      var location := LocationOf(ld, b);
      ghost var m := Arena(ctx.graph, ctx.nextId);
      InsertLocationsSnoc(start, eid, stored, m, location);
      var lid := ctx.InsertLocation(location, eid);
      stored := stored + [location];
      assert Arena(ctx.graph, ctx.nextId) == InsertLocations(start, eid, stored);
      LocationsOfAppend(lds, j, b);
      ImageNoticesAppend(lds, j, b);
      assert stored == LocationsOf(lds[..j + 1], b);
      j := j + 1;
    }
    assert lds[..j] == lds;
  }

  /**
   * The arena `loadData` leaves: seasons 1 to 5 loaded into the emptied store, or, when the
   * Season fetch throws and nothing is deleted, into the store as it was.
   */
  function RunResult(g0: Graph, next0: nat, fetchFailures: map<Kind, StoreError>, b: Resources.Bundle): Arena {
    var start := if SeasonKind in fetchFailures then Arena(g0, next0) else Arena(Empty, next0);
    LoadSeasonRange(start, b, FirstSeasonNumber, LastSeasonNumber + 1)
  }

  lemma RunStartsFrom(g0: Graph, next0: nat, fetchFailures: map<Kind, StoreError>, b: Resources.Bundle, start: Arena)
    requires start == if SeasonKind in fetchFailures then Arena(g0, next0) else Arena(Empty, next0)
    ensures RunResult(g0, next0, fetchFailures, b) == LoadSeasonRange(start, b, FirstSeasonNumber, LastSeasonNumber + 1)
  {
  }

  /**
   * After `loadData` the store reads back as the bundle's seasons that decode, in season
   * order, and holds nothing else. A clear that failed at the Season fetch leaves the old
   * seasons in front of them, so the bundle's seasons are then stored a second time.
   */
  lemma RunReadsBack(g0: Graph, next0: nat, fetchFailures: map<Kind, StoreError>, b: Resources.Bundle)
    requires Consistent(g0, next0)
    ensures var r := RunResult(g0, next0, fetchFailures, b);
      && (forall s :: s in r.graph.seasons ==> s < r.next)
      && Catalog(r.graph, 0, r.next)
         == (if SeasonKind in fetchFailures then Catalog(g0, 0, next0) else [])
            + ExpectedCatalog(b, FirstSeasonNumber, LastSeasonNumber + 1)
  {
    if SeasonKind in fetchFailures {
      var a := Arena(g0, next0);
      WellformedIsClosed(g0);
      LoadSeasonRangeFrame(a, b, FirstSeasonNumber, LastSeasonNumber + 1);
      LoadOnTopAppends(a, b, FirstSeasonNumber, LastSeasonNumber + 1);
    } else {
      ReloadReadsBack(next0, b);
    }
  }

  /** With every fetch succeeding, running `loadData` again gives the same catalog. */
  lemma RunTwiceReadsBackTheSame(g0: Graph, next0: nat, g1: Graph, next1: nat, fetchFailures: map<Kind, StoreError>, b: Resources.Bundle)
    requires Consistent(g0, next0) && Consistent(g1, next1) && SeasonKind !in fetchFailures
    ensures var r0 := RunResult(g0, next0, fetchFailures, b);
      var r1 := RunResult(g1, next1, fetchFailures, b);
      Catalog(r0.graph, 0, r0.next) == Catalog(r1.graph, 0, r1.next)
  {
    RunReadsBack(g0, next0, fetchFailures, b);
    RunReadsBack(g1, next1, fetchFailures, b);
  }

  /**
   * The `for seasonNumber in 1...5` loop of `loadData`, over the seasons `first` up to
   * `stop`: each season is loaded on top of what the earlier ones stored.
   */
  method LoadSeasons(ctx: ModelContext, b: Resources.Bundle, first: int, stop: int) returns (notices: seq<Notice>)
    requires ctx.Valid() && first <= stop
    modifies ctx`graph, ctx`nextId
    ensures ctx.Valid()
    ensures Arena(ctx.graph, ctx.nextId) == LoadSeasonRange(Arena(old(ctx.graph), old(ctx.nextId)), b, first, stop)
    ensures notices == LoadNotices(b, first, stop)
  {
    ghost var start := Arena(ctx.graph, ctx.nextId);
    notices := [];
    var n := first;
    while n < stop
      invariant first <= n <= stop
      invariant ctx.Valid()
      invariant Arena(ctx.graph, ctx.nextId) == LoadSeasonRange(start, b, first, n)
      invariant notices == LoadNotices(b, first, n)
    {
      var printed := LoadSeason(ctx, b, n);
      notices := notices + printed;
      assert notices == LoadNotices(b, first, n + 1);
      assert Arena(ctx.graph, ctx.nextId) == LoadSeasonRange(start, b, first, n + 1);
      n := n + 1;
    }
  }

  /**
   * `loadData(modelContext:)`: clear, load seasons 1 to 5 in order, save. Every failure is
   * printed and the run goes on.
   */
  method LoadData(ctx: ModelContext, b: Resources.Bundle) returns (notices: seq<Notice>)
    requires ctx.Valid()
    modifies ctx`graph, ctx`nextId, ctx`saved
    ensures ctx.Valid()
    ensures notices == RunNotices(ctx.fetchFailures, ctx.saveFailure, b)
    ensures Arena(ctx.graph, ctx.nextId) == RunResult(old(ctx.graph), old(ctx.nextId), ctx.fetchFailures, b)
    ensures ctx.saveFailure.None? ==> ctx.saved == ctx.graph
    ensures ctx.saveFailure.Some? ==> ctx.saved == old(ctx.saved)
  {
    var failure := ClearExistingData(ctx);
    ghost var cleared := Arena(ctx.graph, ctx.nextId);
    RunStartsFrom(old(ctx.graph), old(ctx.nextId), ctx.fetchFailures, b, cleared);
    var printed := LoadSeasons(ctx, b, FirstSeasonNumber, LastSeasonNumber + 1);
    var saveResult := ctx.Save();
    notices := ClearNotices(failure) + printed + if saveResult.Fail? then [SaveFailed(saveResult.error)] else [];
  }
}
