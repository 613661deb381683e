# Streets of San Francisco filming locations — a Dafny model

The app shows where the television series *The Streets of San Francisco* was filmed. Five
bundled JSON files (`season1.json` … `season5.json`) describe the seasons, their episodes
and each episode's filming locations. At start-up the app empties its SwiftData store and
loads the five files into it. Each season becomes a `Season` object that owns `Episode`
objects, and each episode owns `Location` objects. The view model then lists the seasons in
order, tracks which season, episode and location are selected, works out which locations to
put on the map, fits the map around them, and reports every failure in an alert.

This project models that core and proves what it promises:

- **`Schema`** (`schema.dfy`): the `Codable` records of the JSON files and their decoding
  from a JSON tree. The decoder reports the same `DecodingError` cases the Foundation decoder
  reports. An encoder is its inverse.
- **`Graph`** (`graph.dfy`): the three `@Model` classes and their two inverse relationships.
  - Objects are map entries keyed by id.
  - `season.episodes`/`episode.season` and `episode.locations`/`location.episode` are kept
    inverse to each other.
  - Deleting a season or an episode cascades to what it owns.
- **`Store`** (`store.dfy`): the `ModelContext` as a class. It holds insertion, deletion,
  `delete(model:)` from `ModelContext+Ext.swift`, the sorted season fetch and `save()`. Fetch
  and save failures are fixed by the constructor, so each one fails every time it is tried.
- **`Resources`** (`resources.dfy`): the app bundle as a map from resource name and extension
  to contents. It covers the `season<N>.json` lookup and the `loadImageData` lookup, which
  splits a file name on its dots.
- **`Ingestion`** (`ingestion.dfy`): how one decoded season is stored, read back from the
  store as the same record tree, and repeated for seasons 1 to 5.
- **`DataLoader`** (`data_loader.dfy`): `DataLoader.swift`'s `loadData`, `clearExistingData`,
  `loadSeason` and its loops, as imperative methods over a `ModelContext`. What they print is
  returned as a sequence of notices.
- **`Presentation`** (`presentation.dfy`): the view model's pure parts. These are the colour
  bands, the labels and titles, which locations are shown for a selection, and the map region
  fitted around locations.
- **`ViewModel`** (`view_model.dfy`): `FilmingViewModel` as a class with its fields. Its
  methods are proved against the functions above, and its alert is proved against the
  sequence of reports it receives.
- **`Text`** and **`Sorting`** (`text.dfy`, `sorting.dfy`) support the rest:
  - integer interpolation `"\(n)"` and its parse;
  - `components(separatedBy:)`;
  - `String <` on time codes, compared lexicographically by character;
  - sorting by a key.

The main results:

- Storing a decoded season and reading it back from the store gives the same season, with its
  episodes and locations in file order (`Ingestion.InsertSeasonTreeReadBack`).
- After `loadData`, the store holds exactly the bundle's seasons that decode, in order
  (`DataLoader.RunReadsBack`). If the clear failed at the Season fetch, the old seasons stay
  in front of them.
- Decoding inverts encoding (`Schema.SeasonRoundTrip`).
- The store's two relationships stay inverse through every insertion and deletion.
- The view model's alert ends on the last report it received
  (`ViewModel.AfterErrorsShowsLast`).
- The map region contains every location it was fitted around
  (`Presentation.BoundingRegionCoversLocations`).

- An episode without a `locations` array fails the whole season. `EpisodeData.locations` is
  not optional (`StreetsSanFranciscoFilming/Models/JSONStructures.swift:21`), so decoding the
  file throws `keyNotFound` and the season is skipped
  (`Schema.EpisodeWithoutLocationsFailsSeason`).
- The sorts of episodes by number and of locations by time code are stable: ties keep the
  order of the relationship list (`Sorting.SortByIsStable`).

## Model

| member | source | states |
|---|---|---|
| Text.NatToStringRoundTrip | StreetsSanFranciscoFilming/DataLoader.swift:30 | The decimal digits written for a natural number read back as that number. |
| Text.IntToStringRoundTrip | StreetsSanFranciscoFilming/DataLoader.swift:30 | Parsing an interpolated `Int` gives that integer back, sign included. |
| Text.IntToStringInjective | StreetsSanFranciscoFilming/DataLoader.swift:30 | Different integers interpolate to different text. |
| Text.JoinComponents | StreetsSanFranciscoFilming/DataLoader.swift:85-86 | The parts from `components(separatedBy:)` contain no separator, and joining them with it gives back the original string. |
| Text.NoSeparatorIsOneComponent | StreetsSanFranciscoFilming/DataLoader.swift:85-86 | A string without the separator splits into exactly itself. |
| Text.FirstComponentIsTextBeforeFirstSeparator | StreetsSanFranciscoFilming/DataLoader.swift:85 | `.first` of the components is the longest separator-free prefix, ending at the first separator. |
| Text.LastComponentIsTextAfterLastSeparator | StreetsSanFranciscoFilming/DataLoader.swift:86 | `.last` of the components is the longest separator-free suffix, starting after the last separator. |
| Text.LessIrreflexive | StreetsSanFranciscoFilming/ViewModels/FilmingViewModel.swift:71 | No time code sorts before itself. |
| Text.LessTransitive | StreetsSanFranciscoFilming/ViewModels/FilmingViewModel.swift:71 | String order on time codes is transitive. |
| Text.LessTotal | StreetsSanFranciscoFilming/ViewModels/FilmingViewModel.swift:71 | Two different time codes are always ordered one way or the other. |
| Text.TimeCodesCompareAsText | StreetsSanFranciscoFilming/ViewModels/FilmingViewModel.swift:71 | Time codes compare as text, not as numbers: "10:00" sorts before "2:00", and "00:10:00" before "00:2:00". |
| Sorting.SortBy | StreetsSanFranciscoFilming/ViewModels/FilmingViewModel.swift:66 | `sorted(by:)` with a strict weak order returns a permutation of its input that is ordered. |
| Sorting.IntKeyOrder | StreetsSanFranciscoFilming/ViewModels/FilmingViewModel.swift:66 | Comparing by an integer key with `<` is a strict weak order. |
| Sorting.StringKeyOrder | StreetsSanFranciscoFilming/ViewModels/FilmingViewModel.swift:71 | Comparing by a string key with `<` is a strict weak order. |
| Sorting.SortByIsStable | StreetsSanFranciscoFilming/ViewModels/FilmingViewModel.swift:66 | `sorted(by:)` is stable: elements that tie under the order keep their input order. |
| Sorting.SortByIntKey | StreetsSanFranciscoFilming/ViewModels/FilmingViewModel.swift:66 | Sorting by an integer key is a permutation with non-decreasing keys. |
| Sorting.SortByStringKey | StreetsSanFranciscoFilming/ViewModels/FilmingViewModel.swift:71 | Sorting by a string key is a permutation in which no later key sorts before an earlier one. |
| Sorting.SortByIntKeyIsStable | StreetsSanFranciscoFilming/ViewModels/FilmingViewModel.swift:66 | Elements with equal integer keys come out in their input order. |
| Sorting.SortByStringKeyIsStable | StreetsSanFranciscoFilming/ViewModels/FilmingViewModel.swift:71 | Elements with equal string keys come out in their input order. |
| Schema.LocationRoundTrip | StreetsSanFranciscoFilming/Models/JSONStructures.swift:25-36 | Decoding an encoded `LocationData`, with its coordinate, gives it back. |
| Schema.LocationsRoundTrip | StreetsSanFranciscoFilming/Models/JSONStructures.swift:21 | Decoding an encoded array of locations gives back the same array, in order. |
| Schema.EpisodeRoundTrip | StreetsSanFranciscoFilming/Models/JSONStructures.swift:15-23 | Decoding an encoded `EpisodeData` gives it back. |
| Schema.EpisodesRoundTrip | StreetsSanFranciscoFilming/Models/JSONStructures.swift:12 | Decoding an encoded array of episodes gives back the same array, in order. |
| Schema.SeasonRoundTrip | StreetsSanFranciscoFilming/Models/JSONStructures.swift:7-13 | Decoding an encoded `SeasonData` gives it back. |
| Schema.DecodedSeasonHadEveryKey | StreetsSanFranciscoFilming/Models/JSONStructures.swift:7-13 | A season decodes only from an object that has all five of the season's keys. |
| Schema.MissingSeasonKeyFails | StreetsSanFranciscoFilming/Models/JSONStructures.swift:7-13 | Removing any one of the season's keys makes decoding fail with `keyNotFound` for that key. |
| Schema.OneBadEpisodeFailsAll | StreetsSanFranciscoFilming/Models/JSONStructures.swift:12 | One episode that fails to decode makes the whole array fail. |
| Schema.EpisodeWithoutLocationsFailsSeason | StreetsSanFranciscoFilming/Models/JSONStructures.swift:21 | A season with an episode that has no `locations` key fails to decode. |
| Resources.SeasonFileNamesDiffer | StreetsSanFranciscoFilming/DataLoader.swift:30 | Different season numbers look up different file names. |
| Resources.EncodedSeasonLoads | StreetsSanFranciscoFilming/DataLoader.swift:32-40 | A bundled season file that holds a season's encoding loads as that season. |
| Resources.SeasonMissingKeyFailsToLoad | StreetsSanFranciscoFilming/DataLoader.swift:38-40 | A season file that lacks a season key is a load failure with `keyNotFound`, not a missing file. |
| Resources.ImageResourceSplitsOnDots | StreetsSanFranciscoFilming/DataLoader.swift:84-86 | An image's resource name is the text before its first dot, and its extension is the text after its last dot. |
| Resources.ImageWithoutDot | StreetsSanFranciscoFilming/DataLoader.swift:85-86 | A file name without a dot is used as both the resource name and the extension. |
| Resources.ImageNameAndExtension | StreetsSanFranciscoFilming/DataLoader.swift:85-86 | `name.ext` is looked up as resource `name` with extension `ext`. |
| Resources.ImageWithSeveralDots | StreetsSanFranciscoFilming/DataLoader.swift:85-86 | The middle part of a name with two dots is dropped: "a.b.jpg" is looked up as ("a", "jpg"). |
| Resources.BundledImageIsFound | StreetsSanFranciscoFilming/DataLoader.swift:84-91 | A readable bundled image's contents are returned. |
| Resources.MissingImageIsNil | StreetsSanFranciscoFilming/DataLoader.swift:84-89 | An image missing from the bundle gives `nil`. |
| Graph.NewSeason | StreetsSanFranciscoFilming/Models/Season.swift:11-18 | A new season has the given fields and no episodes. |
| Graph.NewEpisode | StreetsSanFranciscoFilming/Models/Episode.swift:13-23 | A new episode has the given fields, no season and no locations. |
| Graph.NewLocation | StreetsSanFranciscoFilming/Models/Location.swift:13-21 | A new location has the given fields and no episode, and a missing image becomes "sosf-1.jpg". |
| Graph.WellformedIsInverse | StreetsSanFranciscoFilming/Models/Episode.swift:13-14 | The store is well formed exactly when both to-many lists are the inverses of the to-one links: every child is listed once, by its own parent only. |
| Graph.AddSeasonWellformed | StreetsSanFranciscoFilming/DataLoader.swift:42-48 | Inserting a new season keeps the relationships inverse. |
| Graph.AddEpisodeProjections | StreetsSanFranciscoFilming/Models/Episode.swift:13 | Setting a new episode's season appends it to that season's list, and nothing else changes. |
| Graph.AddEpisodeWellformed | StreetsSanFranciscoFilming/DataLoader.swift:59-60 | Inserting an episode under a stored season keeps the relationships inverse. |
| Graph.AddLocationProjections | StreetsSanFranciscoFilming/Models/Location.swift:13 | Setting a new location's episode appends it to that episode's list, and nothing else changes. |
| Graph.AddLocationWellformed | StreetsSanFranciscoFilming/DataLoader.swift:75-76 | Inserting a location under a stored episode keeps the relationships inverse. |
| Graph.RemoveLocationProjections | StreetsSanFranciscoFilming/Models/Location.swift:13 | Deleting a location drops it from its episode's list and nothing else; seasons and episodes keep their links. |
| Graph.RemoveLocationWellformed | StreetsSanFranciscoFilming/Extensions/ModelContext+Ext.swift:7 | Deleting a location keeps the store well formed. |
| Graph.RemoveEpisodeProjections | StreetsSanFranciscoFilming/Models/Episode.swift:14 | Deleting an episode removes it from its season's list and cascades to its locations. |
| Graph.RemoveEpisodeWellformed | StreetsSanFranciscoFilming/Models/Episode.swift:14 | Deleting an episode, with its cascade, keeps the store well formed. |
| Graph.RemoveSeasonProjections | StreetsSanFranciscoFilming/Models/Season.swift:11 | Deleting a season cascades to exactly the episodes it owns and their locations. |
| Graph.RemoveSeasonWellformed | StreetsSanFranciscoFilming/Models/Season.swift:11 | Deleting a season, with its cascade, keeps the store well formed. |
| Graph.RemoveOneOfKind | StreetsSanFranciscoFilming/Extensions/ModelContext+Ext.swift:7 | Each `delete` in the `forEach` removes exactly one object of the kind, keeps the store well formed, and does not change the store that clearing the kind ends in. |
| Graph.EmptiedKindIsCleared | StreetsSanFranciscoFilming/Extensions/ModelContext+Ext.swift:4-8 | Once no object of the kind is left, the store is the cleared store, whatever order the deletions ran in. |
| Graph.ClearedWellformed | StreetsSanFranciscoFilming/Extensions/ModelContext+Ext.swift:4-8 | Deleting every object of a kind leaves a well-formed store. |
| Store.SeasonsByNumber | StreetsSanFranciscoFilming/ViewModels/FilmingViewModel.swift:58 | Sorting by `seasonNumber` gives a permutation of the seasons in non-decreasing season number. |
| Store.ModelContext.InsertSeason | StreetsSanFranciscoFilming/DataLoader.swift:48 | `insert` of a new season adds it under a fresh id and keeps the store consistent. |
| Store.ModelContext.InsertEpisode | StreetsSanFranciscoFilming/DataLoader.swift:59-60 | Linking and inserting an episode adds it under a fresh id to its season, and keeps the store consistent. |
| Store.ModelContext.InsertLocation | StreetsSanFranciscoFilming/DataLoader.swift:75-76 | Linking and inserting a location adds it under a fresh id to its episode, and keeps the store consistent. |
| Store.ModelContext.Delete | StreetsSanFranciscoFilming/Extensions/ModelContext+Ext.swift:7 | `delete` removes exactly that object, with its cascade, and keeps the store consistent. |
| Store.ModelContext.DeleteAll | StreetsSanFranciscoFilming/Extensions/ModelContext+Ext.swift:4-8 | `delete(model:)` throws the fetch error and leaves the store as it was, or deletes every object of the kind and its cascade. |
| Store.ModelContext.FetchSeasonsBySeasonNumber | StreetsSanFranciscoFilming/ViewModels/FilmingViewModel.swift:58-59 | The fetch throws exactly when it is set to fail; otherwise it returns every stored season once, by season number. |
| Store.ModelContext.Save | StreetsSanFranciscoFilming/DataLoader.swift:12-16 | `save()` either throws and persists nothing, or persists the current store. |
| Ingestion.SeasonTreeOfIsDetached | StreetsSanFranciscoFilming/DataLoader.swift:42-74 | The objects built from a decoded season start unlinked. |
| Ingestion.InsertLocationsReadBack | StreetsSanFranciscoFilming/DataLoader.swift:62-77 | After the location loop, the episode's list ends with the new locations, which read back in file order. |
| Ingestion.InsertEpisodeTreeReadBack | StreetsSanFranciscoFilming/DataLoader.swift:51-77 | A stored episode reads back as the episode it was built from, with its locations. |
| Ingestion.InsertEpisodeTreesReadBack | StreetsSanFranciscoFilming/DataLoader.swift:50-78 | After the episode loop, the season's list ends with the new episodes, which read back in file order. |
| Ingestion.InsertEpisodeTreesUnderNewSeason | StreetsSanFranciscoFilming/DataLoader.swift:48-78 | The episodes stored under a newly inserted season are exactly the file's episodes. |
| Ingestion.InsertSeasonTreeKeepsFields | StreetsSanFranciscoFilming/DataLoader.swift:42-48 | The new season is stored under the next id with the file's fields. |
| Ingestion.InsertSeasonTreeSound | StreetsSanFranciscoFilming/DataLoader.swift:42-78 | Storing a season with its episodes and locations keeps every listed id stored, and ids fresh and distinct. |
| Ingestion.InsertSeasonTreeKeeps | StreetsSanFranciscoFilming/DataLoader.swift:42-78 | Storing a season adds only new objects and changes no earlier one. |
| Ingestion.InsertSeasonTreeReadBack | StreetsSanFranciscoFilming/DataLoader.swift:42-78 | A stored season reads back as the decoded season, with its episodes and their locations in file order. |
| Ingestion.LoadSeasonStepFrame | StreetsSanFranciscoFilming/DataLoader.swift:29-82 | Loading one season file keeps every listed id stored, keeps ids fresh and distinct, and only adds objects. |
| Ingestion.LoadSeasonRangeFrame | StreetsSanFranciscoFilming/DataLoader.swift:8-10 | Loading several season files keeps every listed id stored, keeps ids fresh and distinct, and only adds objects. |
| Ingestion.LoadSeasonStepCatalog | StreetsSanFranciscoFilming/DataLoader.swift:29-82 | Loading one file adds exactly its season when it decodes, and nothing when it is missing or fails. |
| Ingestion.LoadSeasonRangeCatalog | StreetsSanFranciscoFilming/DataLoader.swift:8-10 | The seasons the loop adds are the files that decode, in season-number order. |
| Ingestion.LoadOnTopAppends | StreetsSanFranciscoFilming/DataLoader.swift:5-10 | Loading into a store that was not emptied keeps the old seasons in front of the new ones. |
| Ingestion.ReloadReadsBack | StreetsSanFranciscoFilming/DataLoader.swift:5-10 | Loading into an emptied store leaves exactly the bundle's decodable seasons. |
| Ingestion.ReloadIsIdempotent | StreetsSanFranciscoFilming/DataLoader.swift:5-10 | Reloading gives the same seasons whatever ids the store had handed out before. |
| DataLoader.ImageNoticesAreMissingImages | StreetsSanFranciscoFilming/DataLoader.swift:62-63 | The location loop prints one notice per image missing from the bundle, and only for those. |
| DataLoader.EpisodeImageNoticesAreMissingImages | StreetsSanFranciscoFilming/DataLoader.swift:50-77 | Every notice of the episode loop is a missing image of one of its locations. |
| DataLoader.SeasonNoticeNamesFile | StreetsSanFranciscoFilming/DataLoader.swift:32-35 | A season is skipped exactly when a single notice names its file. |
| DataLoader.FirstFetchFailure | StreetsSanFranciscoFilming/DataLoader.swift:19-27 | The clear fails exactly when some fetch fails, and a Season fetch failure is the one reported. |
| DataLoader.ClearExistingData | StreetsSanFranciscoFilming/DataLoader.swift:19-27 | The clear either stops at the Season fetch with the store unchanged, or deletes every season and its cascade, leaving the store empty. |
| DataLoader.LoadSeason | StreetsSanFranciscoFilming/DataLoader.swift:29-82 | `loadSeason` skips a missing or failing file with one notice; otherwise it stores the whole season and reports each missing image. |
| DataLoader.StoreSeason | StreetsSanFranciscoFilming/DataLoader.swift:42-78 | Storing a decoded season inserts it, then its episodes, then their locations, in file order. |
| DataLoader.StoreEpisodes | StreetsSanFranciscoFilming/DataLoader.swift:50-78 | The episode loop stores each episode with its locations, in file order. |
| DataLoader.StoreEpisode | StreetsSanFranciscoFilming/DataLoader.swift:51-77 | One pass of the episode loop stores the episode under its season, then its locations. |
| DataLoader.StoreLocations | StreetsSanFranciscoFilming/DataLoader.swift:62-77 | The location loop stores each location under its episode, in file order. |
| DataLoader.LoadSeasons | StreetsSanFranciscoFilming/DataLoader.swift:8-10 | The `1...5` loop loads each season on top of the earlier ones. |
| DataLoader.RunReadsBack | StreetsSanFranciscoFilming/DataLoader.swift:5-17 | After `loadData` the store holds exactly the decodable seasons, in order, after the old ones when the Season fetch failed. |
| DataLoader.RunTwiceReadsBackTheSame | StreetsSanFranciscoFilming/DataLoader.swift:5-17 | With every fetch succeeding, `loadData` gives the same seasons from any starting store. |
| DataLoader.LoadData | StreetsSanFranciscoFilming/DataLoader.swift:5-17 | `loadData` clears, loads seasons 1 to 5 and saves; its notices, new store and persisted store are as stated above. |
| Presentation.SeasonColorRoundTrip | StreetsSanFranciscoFilming/ViewModels/FilmingViewModel.swift:152-167 | Seasons 1 to 5 get five different colours, which give back the season; any other number is black. |
| Presentation.EpisodeColorIsSeasonOfThousands | StreetsSanFranciscoFilming/ViewModels/FilmingViewModel.swift:169-184 | An episode number gets the colour of season `n / 1000` when its last three digits are at most 50, and black otherwise. |
| Presentation.SelectionColor | StreetsSanFranciscoFilming/ViewModels/FilmingViewModel.swift:186-226 | The map and pin colour is orange exactly when no season is selected; otherwise it is the season's own colour. |
| Presentation.SeasonToShowIsInjective | StreetsSanFranciscoFilming/ViewModels/FilmingViewModel.swift:31-37 | Two selections get the same season title exactly when they are the same selection. |
| Presentation.EpisodeToShowIsInjective | StreetsSanFranciscoFilming/ViewModels/FilmingViewModel.swift:39-45 | Two selections get the same episode title exactly when they are the same selection. |
| Presentation.LocationLabelReadsBack | StreetsSanFranciscoFilming/ViewModels/FilmingViewModel.swift:147-150 | The label's first word parses as the count, and the noun is plural exactly when the count is not 1. |
| Presentation.StoredLocationResolves | StreetsSanFranciscoFilming/ViewModels/FilmingViewModel.swift:101-107 | In a well-formed store, a stored location resolves to an episode that lists it and a season that lists that episode. |
| Presentation.DetailTitleEndsWithTitle | StreetsSanFranciscoFilming/ViewModels/FilmingViewModel.swift:131-137 | The detail title always ends with the location's title, with or without the episode links. |
| Presentation.DetailTitleReadsBack | StreetsSanFranciscoFilming/ViewModels/FilmingViewModel.swift:131-137 | In a well-formed store the detail title is "S<season number>E<episode number> - <title>" for the season and episode that own the location, and both numbers parse back out of it. |
| Presentation.EpisodeInfoIsKnownForStoredLocations | StreetsSanFranciscoFilming/ViewModels/FilmingViewModel.swift:139-145 | "Unknown Episode" appears exactly when a link is missing, so never for a location in a well-formed store. |
| Presentation.EpisodeLocationsExact | StreetsSanFranciscoFilming/ViewModels/FilmingViewModel.swift:117-121 | An episode's locations are exactly the stored locations whose episode it is. |
| Presentation.LocationsOfEpisodesExact | StreetsSanFranciscoFilming/ViewModels/FilmingViewModel.swift:109-115 | The locations of a list of episodes are exactly the stored locations owned by one of them. |
| Presentation.SeasonLocationsExact | StreetsSanFranciscoFilming/ViewModels/FilmingViewModel.swift:109-115 | A season's locations are exactly the stored locations whose episode belongs to that season. |
| Presentation.AllLocationsMembers | StreetsSanFranciscoFilming/ViewModels/FilmingViewModel.swift:123-129 | All locations are those of one of the listed seasons. |
| Presentation.AllLocationsAreTheStoredOnes | StreetsSanFranciscoFilming/ViewModels/FilmingViewModel.swift:123-129 | When every stored season is listed, all locations are exactly the stored locations. |
| Presentation.LowestAndHighestBound | StreetsSanFranciscoFilming/ViewModels/FilmingViewModel.swift:231-241 | The running min and max are attained values that bound every coordinate. |
| Presentation.SingleLocationRegion | StreetsSanFranciscoFilming/ViewModels/FilmingViewModel.swift:228-254 | Fitting one location centres the region on it with zero spans. |
| Presentation.BoundingRegionCoversLocations | StreetsSanFranciscoFilming/ViewModels/FilmingViewModel.swift:228-254 | The fitted region has non-negative spans, and every location lies within a third of the span of the centre, inside the half-span the region reaches. |
| ViewModel.AfterErrorsShowsLast | StreetsSanFranciscoFilming/ViewModels/FilmingViewModel.swift:339-343 | After a series of `handleError` calls the alert is up and shows the last message; with none it is unchanged. |
| ViewModel.AfterErrorsAppend | StreetsSanFranciscoFilming/ViewModels/FilmingViewModel.swift:339-343 | Reporting in two runs leaves the same alert as reporting everything in one. |
| ViewModel.SeasonError | StreetsSanFranciscoFilming/ViewModels/FilmingViewModel.swift:266-294 | Loading a season raises at most one alert, exactly when its file is found but fails to read or decode. |
| ViewModel.SeasonErrorsAreTheFailedSeasons | StreetsSanFranciscoFilming/ViewModels/FilmingViewModel.swift:94-96 | The season loop reports exactly the reports of the seasons that failed. |
| ViewModel.InitialDataErrorsWhen | StreetsSanFranciscoFilming/ViewModels/FilmingViewModel.swift:91-99 | `loadInitialData` raises the alert exactly when a fetch fails or a found season file fails; a Season fetch failure leaves "Failed to load seasons" showing. |
| ViewModel.InitialDataReportsInOrder | StreetsSanFranciscoFilming/ViewModels/FilmingViewModel.swift:91-99 | The alert after the clear, the seasons and the final fetch is the alert for all their reports in that order. |
| ViewModel.ListedSeasonsCoverTheStore | StreetsSanFranciscoFilming/ViewModels/FilmingViewModel.swift:123-129 | With the seasons listed in order, all locations are exactly the stored ones. |
| ViewModel.EpisodesByNumber | StreetsSanFranciscoFilming/ViewModels/FilmingViewModel.swift:66 | A season's episodes sorted by number are a permutation of them in non-decreasing episode number. |
| ViewModel.LocationsByTimeCode | StreetsSanFranciscoFilming/ViewModels/FilmingViewModel.swift:71 | An episode's locations sorted by time code are a permutation of them in text order of time code. |
| ViewModel.EpisodesByNumberIsStable | StreetsSanFranciscoFilming/ViewModels/FilmingViewModel.swift:66 | Episodes with the same episode number keep the order of the season's episode list. |
| ViewModel.LocationsByTimeCodeIsStable | StreetsSanFranciscoFilming/ViewModels/FilmingViewModel.swift:71 | Locations with the same time code keep the order of the episode's location list. |
| ViewModel.FilmingViewModel.constructor | StreetsSanFranciscoFilming/ViewModels/FilmingViewModel.swift:50-53 | A new view model has nothing selected, lists the stored seasons in order or none, and reports only a failed season fetch. |
| ViewModel.FilmingViewModel.HandleError | StreetsSanFranciscoFilming/ViewModels/FilmingViewModel.swift:339-343 | `handleError` raises the alert with "message: description". |
| ViewModel.FilmingViewModel.LoadSeasons | StreetsSanFranciscoFilming/ViewModels/FilmingViewModel.swift:56-63 | `loadSeasons` either reports the failure and keeps the old list, or lists every stored season once, by number. |
| ViewModel.FilmingViewModel.LoadEpisodesForSeason | StreetsSanFranciscoFilming/ViewModels/FilmingViewModel.swift:65-68 | Returns, and stores in `episodes`, the season's own episodes in episode-number order. |
| ViewModel.FilmingViewModel.LoadLocationsForEpisode | StreetsSanFranciscoFilming/ViewModels/FilmingViewModel.swift:70-72 | Returns the episode's own locations in text order of time code. |
| ViewModel.FilmingViewModel.SelectSeason | StreetsSanFranciscoFilming/ViewModels/FilmingViewModel.swift:75-79 | Selecting a season clears the episode and location selections, so the map shows that season's locations. |
| ViewModel.FilmingViewModel.SelectEpisode | StreetsSanFranciscoFilming/ViewModels/FilmingViewModel.swift:81-84 | Selecting an episode clears the location selection; with a season selected the map shows that episode's locations. |
| ViewModel.FilmingViewModel.SelectLocation | StreetsSanFranciscoFilming/ViewModels/FilmingViewModel.swift:86-88 | Selecting a location changes nothing on the map. |
| ViewModel.FilmingViewModel.GetLocationsForEpisode | StreetsSanFranciscoFilming/ViewModels/FilmingViewModel.swift:117-121 | Returns exactly the stored locations whose episode is the given one. |
| ViewModel.FilmingViewModel.GetLocationsForSeason | StreetsSanFranciscoFilming/ViewModels/FilmingViewModel.swift:109-115 | Returns exactly the stored locations whose episode belongs to the season. |
| ViewModel.FilmingViewModel.GetAllLocations | StreetsSanFranciscoFilming/ViewModels/FilmingViewModel.swift:123-129 | Returns the listed seasons' locations, which are every stored location once the seasons are listed. |
| ViewModel.FilmingViewModel.LocationsToShow | StreetsSanFranciscoFilming/ViewModels/FilmingViewModel.swift:20-29 | The shown locations are the selected episode's, else the selected season's, else all of them. |
| ViewModel.FilmingViewModel.GetLocationLabel | StreetsSanFranciscoFilming/ViewModels/FilmingViewModel.swift:147-150 | The label's first word parses as the number of shown locations, and the noun is plural unless it is one. |
| ViewModel.FilmingViewModel.FitMapToLocations | StreetsSanFranciscoFilming/ViewModels/FilmingViewModel.swift:228-254 | An empty list leaves the map alone; otherwise the map shows the region that covers the locations. |
| ViewModel.FilmingViewModel.ClearExistingData | StreetsSanFranciscoFilming/ViewModels/FilmingViewModel.swift:256-264 | Either empties the store, or reports the first failing fetch and keeps the seasons when that fetch is the Season one. |
| ViewModel.FilmingViewModel.CreateEpisode | StreetsSanFranciscoFilming/ViewModels/FilmingViewModel.swift:296-308 | Creates the episode under a fresh id and links it to its season. |
| ViewModel.FilmingViewModel.CreateLocations | StreetsSanFranciscoFilming/ViewModels/FilmingViewModel.swift:310-327 | Stores each location under the episode, in order, leaving the seasons alone. |
| ViewModel.FilmingViewModel.InsertEpisodeData | StreetsSanFranciscoFilming/ViewModels/FilmingViewModel.swift:287-288 | One pass of the episode loop stores the episode with its locations. |
| ViewModel.FilmingViewModel.InsertEpisodesData | StreetsSanFranciscoFilming/ViewModels/FilmingViewModel.swift:286-289 | The episode loop stores every episode with its locations, in file order. |
| ViewModel.FilmingViewModel.InsertSeasonData | StreetsSanFranciscoFilming/ViewModels/FilmingViewModel.swift:278-289 | A decoded season is stored as the same season tree `DataLoader` stores. |
| ViewModel.FilmingViewModel.LoadSeasonFromJSON | StreetsSanFranciscoFilming/ViewModels/FilmingViewModel.swift:266-294 | Stores the season as `loadSeason` does, and raises the alert only for a file that is found but fails. |
| ViewModel.FilmingViewModel.LoadSeasonsFromJSON | StreetsSanFranciscoFilming/ViewModels/FilmingViewModel.swift:94-96 | The season loop stores the decodable seasons in order and reports the failed ones in order. |
| ViewModel.FilmingViewModel.ClearAndLoadSeasons | StreetsSanFranciscoFilming/ViewModels/FilmingViewModel.swift:91-96 | Clearing and loading leaves the store `loadData` leaves, and reports the clear and then the seasons. |
| ViewModel.FilmingViewModel.LoadInitialData | StreetsSanFranciscoFilming/ViewModels/FilmingViewModel.swift:91-99 | `loadInitialData` leaves the store `loadData` leaves and the alert for all its reports, and lists the reloaded seasons in order. |

## Left out

- The `print` calls of `DataLoader.swift` are returned as notices, and each notice carries the error value. How Swift renders `\(error)` in a notice is not modelled.
- The `print` calls of `FilmingViewModel.swift` (lines 270, 332 and the one in `handleError` at line 342) are not modelled, because they only write to the console.
- `localizedDescription` is modelled by fixed Foundation sentences for decoding errors. For read errors it is the reason the bundle gives.
- The loaders pass `locationImage: imageData` (a `Data?`) to an initializer whose parameter is `imageFilename: String?`. The model stores the bytes the bundle returns, as text, in `imageFilename`, and a missing image becomes "sosf-1.jpg".
- The `loadImageData` of `FilmingViewModel.swift:329-336` is the same code as `DataLoader`'s, so it is modelled once, as `Resources.LoadImageData`.
- JSON is modelled as a parsed tree. Lexing bytes is not modelled; contents that are not JSON fail as `dataCorrupted`.
- Doubles are modelled as reals, so rounding in `fitMapToLocations` and in decoding is not modelled.
- `Coordinate` and `CLLocationCoordinate2D` are not part of this model; a coordinate is a pair of reals.
- The `SortDescriptor(\.seasonNumber)` fetch promises a permutation ordered by season number. The order of seasons with equal numbers is left open, because a SwiftData fetch does not fix it.
- `String <` is modelled as lexicographic order on characters. Swift compares strings up to Unicode canonical equivalence, so `"e\u{301}"` and `"é"` are equal there; normalization is not modelled. The time codes sorted here are ASCII digits and colons, where the two orders agree.
- The `episodes` and `locations` relationship arrays are modelled as lists in insertion order. SwiftData does not store an order for to-many relationships, so the "in file order" read-back results (`Ingestion.InsertSeasonTreeReadBack`, `DataLoader.RunReadsBack`) assume it returns them in the order they were appended.
- Ingestion.InsertSeasonTreeSound, Ingestion.LoadSeasonStepFrame and Ingestion.LoadSeasonRangeFrame state soundness (listed ids stored, fresh and distinct) but not that both link directions agree; that is carried by `ModelContext.Valid()`, which `DataLoader.LoadSeason` and the methods it calls ensure.
- SwiftData objects are modelled as ids in maps. A selected object that was later deleted keeps its id, which then resolves to nothing.
- Persistence is reduced to the `saved` snapshot. Fetch and save failures are fixed per context by its constructor, so the same fetch always fails the same way.
- In `delete(model:)`, the order in which fetched objects are deleted is left open. Every order ends in the same store (`Graph.RemoveOneOfKind`, `Graph.EmptiedKindIsCleared`).
- `ShowData` is not modelled, because neither loader decodes it.
- The UI-only fields `filteredSeason`, `isMapSheetPresented`, `isSheetPresented` and `mapLocations` are not modelled, because no modelled operation reads or writes them.
- `@Observable`, the main actor and concurrency are not modelled.
- The SwiftUI views, `Item.swift`, `StreetsSanFranciscoFilmingApp.swift` and `Constants.swift` are not part of this model, because they are interface and configuration code outside the data core.
