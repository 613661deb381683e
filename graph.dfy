/**
 * The content graph: the Season, Episode and Location entities and the store that holds
 * them (SwiftData's ModelContext), as an arena of records addressed by ids.
 *
 * Owning links are the id lists `Season.episodes` and `Episode.locations` (declared with a
 * cascade delete rule); the back-references `Episode.season` and `Location.episode` are their
 * inverses. Setting a back-reference appends to the owner's list, deleting an entity removes
 * it from its owner's list and deletes what it owns.
 */
module Graph {
  import opened Wrappers

  /** The `Coordinate` a Location stores, as a pair of reals (no IEEE rounding). */
  datatype Coordinate = Coordinate(latitude: real, longitude: real)

  datatype Season = Season(
    seasonAirDate: string,
    title: string,
    totalEpisodes: string,  // an opaque label, not a count
    seasonNumber: int,
    episodes: seq<nat>)

  datatype Episode = Episode(
    episodeAirDate: string,
    episodeDescription: string,
    episodeGuestStars: string,
    episodeNumber: int,        // the sort key
    episodeTitle: string,
    seasonEpisodeNumber: int,  // the colour-band key
    season: Option<nat>,
    locations: seq<nat>)

  datatype Location = Location(
    locationInfo: string,
    filmingLocation: Coordinate,
    imageFilename: string,
    locationTitle: string,
    timeCode: string,
    episode: Option<nat>)

  /** The image stored when a Location is created without one. */
  const DefaultImageFilename: string := "sosf-1.jpg"

  /** Season's initializer: the four attributes as given, no episodes yet. */
  function NewSeason(seasonAirDate: string, title: string, totalEpisodes: string, seasonNumber: int): (s: Season)
    ensures s.episodes == []
    ensures s.seasonAirDate == seasonAirDate && s.title == title
    ensures s.totalEpisodes == totalEpisodes && s.seasonNumber == seasonNumber
  {
    Season(seasonAirDate, title, totalEpisodes, seasonNumber, [])
  }

  /** Episode's initializer: six attributes as given, no season and no locations yet. */
  function NewEpisode(episodeAirDate: string, episodeDescription: string, episodeGuestStars: string,
                      episodeNumber: int, episodeTitle: string, seasonEpisodeNumber: int): (e: Episode)
    ensures e.season == None && e.locations == []
    ensures e.episodeAirDate == episodeAirDate && e.episodeDescription == episodeDescription
    ensures e.episodeGuestStars == episodeGuestStars && e.episodeNumber == episodeNumber
    ensures e.episodeTitle == episodeTitle && e.seasonEpisodeNumber == seasonEpisodeNumber
  {
    Episode(episodeAirDate, episodeDescription, episodeGuestStars, episodeNumber, episodeTitle,
            seasonEpisodeNumber, None, [])
  }

  /**
   * Location's initializer: attributes as given, no episode yet, and a missing image
   * replaced by DefaultImageFilename, so the stored image is never absent.
   */
  function NewLocation(locationInfo: string, filmingLocation: Coordinate, imageFilename: Option<string>,
                       locationTitle: string, timeCode: string): (l: Location)
    ensures l.episode == None
    ensures imageFilename.Some? ==> l.imageFilename == imageFilename.value
    ensures imageFilename.None? ==> l.imageFilename == DefaultImageFilename
    ensures l.locationInfo == locationInfo && l.filmingLocation == filmingLocation
    ensures l.locationTitle == locationTitle && l.timeCode == timeCode
  {
    Location(locationInfo, filmingLocation, imageFilename.GetOr(DefaultImageFilename), locationTitle, timeCode, None)
  }

  // ---------------------------------------------------------------- the arena

  datatype Kind = SeasonKind | EpisodeKind | LocationKind

  datatype Graph = Graph(
    seasons: map<nat, Season>,
    episodes: map<nat, Episode>,
    locations: map<nat, Location>)

  const Empty: Graph := Graph(map[], map[], map[])

  predicate NoDuplicates<T(==)>(s: seq<T>) {
    forall i, j :: 0 <= i < j < |s| ==> s[i] != s[j]
  }

  // ---------------------------------------------------------------- ownership

  /**
   * `children` (an owner's list) and `owner` (a child's back-reference) are inverse
   * relations: every listed child points back to the owner that lists it, every child has an
   * owner that lists it, and no list names a child twice.
   */
  ghost predicate Inverse(children: map<nat, seq<nat>>, owner: map<nat, Option<nat>>) {
    && (forall p, c :: p in children && c in children[p] ==> c in owner && owner[c] == Some(p))
    && (forall c :: c in owner ==> owner[c].Some? && owner[c].value in children && c in children[owner[c].value])
    && (forall p :: p in children ==> NoDuplicates(children[p]))
  }

  /** The children of the owners in `ps`. */
  function Owned(children: map<nat, seq<nat>>, ps: set<nat>): set<nat> {
    set p, c | p in ps && p in children && c in children[p] :: c
  }

  lemma OwnedByOne(children: map<nat, seq<nat>>, p: nat)
    requires p in children
    ensures Owned(children, {p}) == set c | c in children[p]
  {
  }

  lemma FirstListedIsMember(s: seq<nat>, keys: set<nat>)
    requires forall c :: c in s ==> c in keys
    ensures s != [] ==> s[0] in keys
  {
    if s != [] {
      assert s[0] in s;
    }
  }

  /** `s` with every occurrence of `x` removed. */
  function Without(s: seq<nat>, x: nat): (r: seq<nat>)
    ensures forall y :: y in r <==> y in s && y != x
  {
    if s == [] then []
    else if s[0] == x then Without(s[1..], x)
    else [s[0]] + Without(s[1..], x)
  }

  lemma {:induction false} WithoutKeepsDistinct(s: seq<nat>, x: nat)
    requires NoDuplicates(s)
    ensures NoDuplicates(Without(s, x))
  {
    if s != [] {
      WithoutKeepsDistinct(s[1..], x);
      if s[0] != x {
        assert s[0] !in s[1..];
      }
    }
  }

  lemma InverseAddOwner(children: map<nat, seq<nat>>, owner: map<nat, Option<nat>>, p: nat)
    requires Inverse(children, owner) && p !in children
    ensures Inverse(children[p := []], owner)
  {
  }

  lemma InverseAddChild(children: map<nat, seq<nat>>, owner: map<nat, Option<nat>>, c: nat, p: nat)
    requires Inverse(children, owner) && c !in owner && p in children
    ensures Inverse(children[p := children[p] + [c]], owner[c := Some(p)])
  {
    var ch := children[p := children[p] + [c]];
    assert c !in children[p];
    forall q | q in ch ensures NoDuplicates(ch[q]) {
      if q == p {
        assert ch[q] == children[p] + [c];
      }
    }
  }

  lemma InverseRemoveChild(children: map<nat, seq<nat>>, owner: map<nat, Option<nat>>, c: nat)
    requires Inverse(children, owner) && c in owner
    ensures var p := owner[c].value;
      Inverse(children[p := Without(children[p], c)], owner - {c})
  {
    var p := owner[c].value;
    WithoutKeepsDistinct(children[p], c);
    InverseReplaceList(children, owner, c, p, Without(children[p], c));
  }

  /** Replacing `p`'s list by one without `c` and forgetting `c`'s owner keeps the relations inverse. */
  lemma InverseReplaceList(children: map<nat, seq<nat>>, owner: map<nat, Option<nat>>, c: nat, p: nat, list: seq<nat>)
    requires Inverse(children, owner) && c in owner && owner[c] == Some(p)
    requires NoDuplicates(list) && forall y :: y in list <==> y in children[p] && y != c
    ensures Inverse(children[p := list], owner - {c})
  {
    var ch, ow := children[p := list], owner - {c};
    forall q, d | q in ch && d in ch[q] ensures d in ow && ow[d] == Some(q) {
      if q == p {
        assert d in children[p] && d != c;
      } else {
        assert ch[q] == children[q];
      }
    }
    forall d | d in ow ensures ow[d].Some? && ow[d].value in ch && d in ch[ow[d].value] {
      assert d != c && owner[d].value in children;
    }
  }

  lemma InverseRemoveOwners(children: map<nat, seq<nat>>, owner: map<nat, Option<nat>>, ps: set<nat>)
    requires Inverse(children, owner)
    ensures Inverse(children - ps, owner - Owned(children, ps))
  {
    var ch := children - ps;
    var ow := owner - Owned(children, ps);
    forall c | c in Owned(children, ps) ensures c in owner && owner[c].value in ps {
      var q' :| q' in ps && q' in children && c in children[q'];
    }
    forall q, c | q in ch && c in ch[q] ensures c in ow && ow[c] == Some(q) {
      assert owner[c] == Some(q) && q !in ps;
    }
    forall c | c in ow ensures ow[c].Some? && ow[c].value in ch && c in ch[ow[c].value] {
      var q := owner[c].value;
      assert q in children && c in children[q];
    }
  }

  /** Each season's episode list. */
  function EpisodeLists(g: Graph): map<nat, seq<nat>> {
    map s | s in g.seasons :: g.seasons[s].episodes
  }

  /** Each episode's season. */
  function SeasonLinks(g: Graph): map<nat, Option<nat>> {
    map e | e in g.episodes :: g.episodes[e].season
  }

  /** Each episode's location list. */
  function LocationLists(g: Graph): map<nat, seq<nat>> {
    map e | e in g.episodes :: g.episodes[e].locations
  }

  /** Each location's episode. */
  function EpisodeLinks(g: Graph): map<nat, Option<nat>> {
    map l | l in g.locations :: g.locations[l].episode
  }

  /**
   * The graph is connected top to bottom and bottom to top: `Season.episodes` is the inverse
   * of `Episode.season`, `Episode.locations` the inverse of `Location.episode`, and there are
   * no orphans and no dangling ids.
   */
  ghost predicate Wellformed(g: Graph) {
    SeasonsOwnEpisodes(g) && EpisodesOwnLocations(g)
  }

  /** A season's episodes point back to it, each episode is listed by its season, and no list repeats an episode. */
  ghost predicate SeasonsOwnEpisodes(g: Graph) {
    && (forall s, e :: s in g.seasons && e in g.seasons[s].episodes ==> e in g.episodes && g.episodes[e].season == Some(s))
    && (forall e :: e in g.episodes ==>
          g.episodes[e].season.Some? && g.episodes[e].season.value in g.seasons && e in g.seasons[g.episodes[e].season.value].episodes)
    && (forall s :: s in g.seasons ==> NoDuplicates(g.seasons[s].episodes))
  }

  /** The same between episodes and their locations. */
  ghost predicate EpisodesOwnLocations(g: Graph) {
    && (forall e, l :: e in g.episodes && l in g.episodes[e].locations ==> l in g.locations && g.locations[l].episode == Some(e))
    && (forall l :: l in g.locations ==>
          g.locations[l].episode.Some? && g.locations[l].episode.value in g.episodes && l in g.episodes[g.locations[l].episode.value].locations)
    && (forall e :: e in g.episodes ==> NoDuplicates(g.episodes[e].locations))
  }

  /** Well-formedness is the two ownership relations being inverse. */
  lemma WellformedIsInverse(g: Graph)
    ensures Wellformed(g) <==> Inverse(EpisodeLists(g), SeasonLinks(g)) && Inverse(LocationLists(g), EpisodeLinks(g))
  {
    SeasonsOwnEpisodesIsInverse(g);
    EpisodesOwnLocationsIsInverse(g);
  }

  lemma SeasonsOwnEpisodesIsInverse(g: Graph)
    ensures SeasonsOwnEpisodes(g) <==> Inverse(EpisodeLists(g), SeasonLinks(g))
  {
    var children, owner := EpisodeLists(g), SeasonLinks(g);
    assert children.Keys == g.seasons.Keys && owner.Keys == g.episodes.Keys;
    assert forall s :: s in children ==> children[s] == g.seasons[s].episodes;
    assert forall e :: e in owner ==> owner[e] == g.episodes[e].season;
  }

  lemma EpisodesOwnLocationsIsInverse(g: Graph)
    ensures EpisodesOwnLocations(g) <==> Inverse(LocationLists(g), EpisodeLinks(g))
  {
    var children, owner := LocationLists(g), EpisodeLinks(g);
    assert children.Keys == g.episodes.Keys && owner.Keys == g.locations.Keys;
    assert forall e :: e in children ==> children[e] == g.episodes[e].locations;
    assert forall l :: l in owner ==> owner[l] == g.locations[l].episode;
  }

  /** Every id in use is below `next`, so `next` and above are free. */
  ghost predicate Fresh(g: Graph, next: nat) {
    && (forall id :: id in g.seasons ==> id < next)
    && (forall id :: id in g.episodes ==> id < next)
    && (forall id :: id in g.locations ==> id < next)
  }

  /** No id names entities of two kinds: the store hands out one id per inserted entity. */
  ghost predicate Distinct(g: Graph) {
    && g.seasons.Keys !! g.episodes.Keys
    && g.seasons.Keys !! g.locations.Keys
    && g.episodes.Keys !! g.locations.Keys
  }

  /** What a store keeps true of its graph and its next id. */
  ghost predicate Consistent(g: Graph, next: nat) {
    Wellformed(g) && Fresh(g, next) && Distinct(g)
  }

  // ---------------------------------------------------------------- insertion

  /** `insert(season)` of a season that owns nothing yet. */
  function AddSeason(g: Graph, id: nat, s: Season): Graph {
    g.(seasons := g.seasons[id := s])
  }

  /** `episode.season = parent` followed by `insert(episode)`: the inverse list grows by one. */
  function AddEpisode(g: Graph, id: nat, e: Episode, parent: nat): Graph
    requires parent in g.seasons
  {
    var p := g.seasons[parent];
    g.(seasons := g.seasons[parent := p.(episodes := p.episodes + [id])],
       episodes := g.episodes[id := e.(season := Some(parent))])
  }

  /** `location.episode = parent` followed by `insert(location)`. */
  function AddLocation(g: Graph, id: nat, l: Location, parent: nat): Graph
    requires parent in g.episodes
  {
    var p := g.episodes[parent];
    g.(episodes := g.episodes[parent := p.(locations := p.locations + [id])],
       locations := g.locations[id := l.(episode := Some(parent))])
  }

  lemma AddSeasonProjections(g: Graph, id: nat, s: Season)
    requires s.episodes == []
    ensures var g' := AddSeason(g, id, s);
      && EpisodeLists(g') == EpisodeLists(g)[id := []]
      && SeasonLinks(g') == SeasonLinks(g)
      && LocationLists(g') == LocationLists(g)
      && EpisodeLinks(g') == EpisodeLinks(g)
  {
  }

  lemma AddSeasonWellformed(g: Graph, id: nat, s: Season)
    requires Wellformed(g) && id !in g.seasons && s.episodes == []
    ensures Wellformed(AddSeason(g, id, s))
  {
    WellformedIsInverse(g);
    AddSeasonProjections(g, id, s);
    InverseAddOwner(EpisodeLists(g), SeasonLinks(g), id);
    WellformedIsInverse(AddSeason(g, id, s));
  }

  lemma AddEpisodeProjections(g: Graph, id: nat, e: Episode, parent: nat)
    requires parent in g.seasons && e.locations == []
    ensures var g' := AddEpisode(g, id, e, parent);
      && EpisodeLists(g') == EpisodeLists(g)[parent := EpisodeLists(g)[parent] + [id]]
      && SeasonLinks(g') == SeasonLinks(g)[id := Some(parent)]
      && LocationLists(g') == LocationLists(g)[id := []]
      && EpisodeLinks(g') == EpisodeLinks(g)
  {
  }

  lemma AddEpisodeWellformed(g: Graph, id: nat, e: Episode, parent: nat)
    requires Wellformed(g) && parent in g.seasons && id !in g.episodes && e.locations == []
    ensures Wellformed(AddEpisode(g, id, e, parent))
  {
    WellformedIsInverse(g);
    AddEpisodeProjections(g, id, e, parent);
    InverseAddChild(EpisodeLists(g), SeasonLinks(g), id, parent);
    InverseAddOwner(LocationLists(g), EpisodeLinks(g), id);
    WellformedIsInverse(AddEpisode(g, id, e, parent));
  }

  lemma AddLocationProjections(g: Graph, id: nat, l: Location, parent: nat)
    requires parent in g.episodes
    ensures var g' := AddLocation(g, id, l, parent);
      && EpisodeLists(g') == EpisodeLists(g)
      && SeasonLinks(g') == SeasonLinks(g)
      && LocationLists(g') == LocationLists(g)[parent := LocationLists(g)[parent] + [id]]
      && EpisodeLinks(g') == EpisodeLinks(g)[id := Some(parent)]
  {
    var g' := AddLocation(g, id, l, parent);
    assert LocationLists(g') == LocationLists(g)[parent := LocationLists(g)[parent] + [id]] by {
      assert LocationLists(g').Keys == LocationLists(g).Keys;
    }
    assert EpisodeLinks(g') == EpisodeLinks(g)[id := Some(parent)] by {
      assert EpisodeLinks(g').Keys == EpisodeLinks(g).Keys + {id};
    }
  }

  lemma AddLocationWellformed(g: Graph, id: nat, l: Location, parent: nat)
    requires Wellformed(g) && parent in g.episodes && id !in g.locations
    ensures Wellformed(AddLocation(g, id, l, parent))
  {
    WellformedIsInverse(g);
    AddLocationProjections(g, id, l, parent);
    InverseAddChild(LocationLists(g), EpisodeLinks(g), id, parent);
    WellformedIsInverse(AddLocation(g, id, l, parent));
  }

  lemma AddEpisodeFresh(g: Graph, id: nat, e: Episode, parent: nat)
    requires Fresh(g, id) && parent in g.seasons
    ensures Fresh(AddEpisode(g, id, e, parent), id + 1)
    ensures Distinct(g) ==> Distinct(AddEpisode(g, id, e, parent))
  {
  }

  lemma AddLocationFresh(g: Graph, id: nat, l: Location, parent: nat)
    requires Fresh(g, id) && parent in g.episodes
    ensures Fresh(AddLocation(g, id, l, parent), id + 1)
    ensures Distinct(g) ==> Distinct(AddLocation(g, id, l, parent))
  {
  }

  lemma AddSeasonConsistent(g: Graph, id: nat, s: Season)
    requires Consistent(g, id) && s.episodes == []
    ensures Consistent(AddSeason(g, id, s), id + 1)
  {
    AddSeasonWellformed(g, id, s);
  }

  lemma AddEpisodeConsistent(g: Graph, id: nat, e: Episode, parent: nat)
    requires Consistent(g, id) && parent in g.seasons && e.locations == []
    ensures Consistent(AddEpisode(g, id, e, parent), id + 1)
  {
    AddEpisodeWellformed(g, id, e, parent);
    AddEpisodeFresh(g, id, e, parent);
  }

  lemma AddLocationConsistent(g: Graph, id: nat, l: Location, parent: nat)
    requires Consistent(g, id) && parent in g.episodes
    ensures Consistent(AddLocation(g, id, l, parent), id + 1)
  {
    AddLocationWellformed(g, id, l, parent);
    AddLocationFresh(g, id, l, parent);
  }

  // ---------------------------------------------------------------- deletion

  /** `delete(location)`: it leaves its episode's list. */
  function RemoveLocation(g: Graph, id: nat): Graph
    requires id in g.locations
  {
    var owner := g.locations[id].episode;
    var episodes :=
      if owner.Some? && owner.value in g.episodes
      then g.episodes[owner.value := g.episodes[owner.value].(locations := Without(g.episodes[owner.value].locations, id))]
      else g.episodes;
    Graph(g.seasons, episodes, g.locations - {id})
  }

  /** `delete(episode)`: it leaves its season's list, and its locations go with it (cascade). */
  function RemoveEpisode(g: Graph, id: nat): Graph
    requires id in g.episodes
  {
    var owner := g.episodes[id].season;
    var seasons :=
      if owner.Some? && owner.value in g.seasons
      then g.seasons[owner.value := g.seasons[owner.value].(episodes := Without(g.seasons[owner.value].episodes, id))]
      else g.seasons;
    var owned := set l | l in g.episodes[id].locations;
    Graph(seasons, g.episodes - {id}, g.locations - owned)
  }

  /** `delete(season)`: its episodes go with it, and their locations with them (cascade). */
  function RemoveSeason(g: Graph, id: nat): Graph
    requires id in g.seasons
  {
    var owned := set e | e in g.seasons[id].episodes;
    Graph(g.seasons - {id}, g.episodes - owned, g.locations - Owned(LocationLists(g), owned))
  }

  lemma RemoveLocationProjections(g: Graph, id: nat)
    requires id in g.locations && g.locations[id].episode.Some? && g.locations[id].episode.value in g.episodes
    ensures var g', p := RemoveLocation(g, id), g.locations[id].episode.value;
      && EpisodeLists(g') == EpisodeLists(g)
      && SeasonLinks(g') == SeasonLinks(g)
      && LocationLists(g') == LocationLists(g)[p := Without(LocationLists(g)[p], id)]
      && EpisodeLinks(g') == EpisodeLinks(g) - {id}
  {
    RemoveLocationKeepsSeasonLinks(g, id);
    var g', p := RemoveLocation(g, id), g.locations[id].episode.value;
    assert LocationLists(g') == LocationLists(g)[p := Without(LocationLists(g)[p], id)] by {
      assert LocationLists(g').Keys == LocationLists(g).Keys;
    }
  }

  lemma RemoveLocationKeepsSeasonLinks(g: Graph, id: nat)
    requires id in g.locations && g.locations[id].episode.Some? && g.locations[id].episode.value in g.episodes
    ensures SeasonLinks(RemoveLocation(g, id)) == SeasonLinks(g)
  {
  }

  lemma RemoveLocationWellformed(g: Graph, id: nat)
    requires Wellformed(g) && id in g.locations
    ensures Wellformed(RemoveLocation(g, id))
  {
    WellformedIsInverse(g);
    assert id in EpisodeLinks(g);
    RemoveLocationProjections(g, id);
    InverseRemoveChild(LocationLists(g), EpisodeLinks(g), id);
    WellformedIsInverse(RemoveLocation(g, id));
  }

  lemma RemoveEpisodeProjections(g: Graph, id: nat)
    requires id in g.episodes && g.episodes[id].season.Some? && g.episodes[id].season.value in g.seasons
    ensures var g', p := RemoveEpisode(g, id), g.episodes[id].season.value;
      && EpisodeLists(g') == EpisodeLists(g)[p := Without(EpisodeLists(g)[p], id)]
      && SeasonLinks(g') == SeasonLinks(g) - {id}
      && LocationLists(g') == LocationLists(g) - {id}
      && EpisodeLinks(g') == EpisodeLinks(g) - Owned(LocationLists(g), {id})
  {
    assert LocationLists(g)[id] == g.episodes[id].locations;
    OwnedByOne(LocationLists(g), id);
  }

  lemma RemoveEpisodeWellformed(g: Graph, id: nat)
    requires Wellformed(g) && id in g.episodes
    ensures Wellformed(RemoveEpisode(g, id))
  {
    WellformedIsInverse(g);
    var g' := RemoveEpisode(g, id);
    assert id in SeasonLinks(g);
    RemoveEpisodeProjections(g, id);
    InverseRemoveChild(EpisodeLists(g), SeasonLinks(g), id);
    assert Inverse(EpisodeLists(g'), SeasonLinks(g'));
    InverseRemoveOwners(LocationLists(g), EpisodeLinks(g), {id});
    assert Inverse(LocationLists(g'), EpisodeLinks(g'));
    WellformedIsInverse(g');
  }

  lemma RemoveSeasonProjections(g: Graph, id: nat)
    requires id in g.seasons
    ensures var g', owned := RemoveSeason(g, id), Owned(EpisodeLists(g), {id});
      && EpisodeLists(g') == EpisodeLists(g) - {id}
      && SeasonLinks(g') == SeasonLinks(g) - owned
      && LocationLists(g') == LocationLists(g) - owned
      && EpisodeLinks(g') == EpisodeLinks(g) - Owned(LocationLists(g), owned)
  {
    assert EpisodeLists(g)[id] == g.seasons[id].episodes;
    OwnedByOne(EpisodeLists(g), id);
  }

  lemma RemoveSeasonWellformed(g: Graph, id: nat)
    requires Wellformed(g) && id in g.seasons
    ensures Wellformed(RemoveSeason(g, id))
  {
    WellformedIsInverse(g);
    var owned := Owned(EpisodeLists(g), {id});
    RemoveSeasonProjections(g, id);
    InverseRemoveOwners(EpisodeLists(g), SeasonLinks(g), {id});
    InverseRemoveOwners(LocationLists(g), EpisodeLinks(g), owned);
    WellformedIsInverse(RemoveSeason(g, id));
  }

  /** The ids of every entity of one kind. */
  function Ids(g: Graph, kind: Kind): set<nat> {
    match kind
    case SeasonKind => g.seasons.Keys
    case EpisodeKind => g.episodes.Keys
    case LocationKind => g.locations.Keys
  }

  /** `delete(_:)` of one entity of the given kind, with its cascades. */
  function Remove(g: Graph, kind: Kind, id: nat): Graph
    requires id in Ids(g, kind)
  {
    match kind
    case SeasonKind => RemoveSeason(g, id)
    case EpisodeKind => RemoveEpisode(g, id)
    case LocationKind => RemoveLocation(g, id)
  }

  lemma RemoveFresh(g: Graph, kind: Kind, id: nat, next: nat)
    requires Fresh(g, next) && Distinct(g) && id in Ids(g, kind)
    ensures Fresh(Remove(g, kind, id), next) && Distinct(Remove(g, kind, id))
  {
  }

  /**
   * Deleting one entity keeps the graph well formed, removes exactly that entity from its
   * kind, and changes nothing that clearing the whole kind would keep.
   */
  lemma RemoveOneOfKind(g: Graph, kind: Kind, id: nat)
    requires Wellformed(g) && id in Ids(g, kind)
    ensures Wellformed(Remove(g, kind, id))
    ensures Ids(Remove(g, kind, id), kind) == Ids(g, kind) - {id}
    ensures Cleared(Remove(g, kind, id), kind) == Cleared(g, kind)
  {
    RemoveKeepsCleared(g, kind, id);
    match kind
    case SeasonKind =>
      RemoveSeasonWellformed(g, id);
    case EpisodeKind =>
      RemoveEpisodeWellformed(g, id);
    case LocationKind =>
      RemoveLocationWellformed(g, id);
  }

  /**
   * What `delete(model:)` leaves when its fetch succeeds: no entity of the kind, the owners'
   * lists emptied, and the owned kinds gone by cascade. Nothing else changes.
   */
  function Cleared(g: Graph, kind: Kind): Graph {
    match kind
    case SeasonKind => Empty
    case EpisodeKind => Graph(map s | s in g.seasons :: g.seasons[s].(episodes := []), map[], map[])
    case LocationKind => Graph(g.seasons, map e | e in g.episodes :: g.episodes[e].(locations := []), map[])
  }

  /** Deleting one entity of a kind, with its cascades, only touches what clearing the kind discards. */
  lemma RemoveKeepsCleared(g: Graph, kind: Kind, id: nat)
    requires id in Ids(g, kind)
    ensures Ids(Remove(g, kind, id), kind) == Ids(g, kind) - {id}
    ensures Cleared(Remove(g, kind, id), kind) == Cleared(g, kind)
  {
    var r := Remove(g, kind, id);
    match kind
    case SeasonKind =>
    case EpisodeKind =>
      assert r.seasons.Keys == g.seasons.Keys;
      assert Cleared(r, kind).seasons == Cleared(g, kind).seasons;
    case LocationKind =>
      assert r.episodes.Keys == g.episodes.Keys;
      assert Cleared(r, kind).episodes == Cleared(g, kind).episodes;
  }

  /**
   * A well-formed store that holds no entity of `kind` is already cleared of it: no owner
   * lists an entity of the kind, and no orphan below it survives.
   */
  lemma EmptiedKindIsCleared(g: Graph, kind: Kind)
    requires Wellformed(g) && Ids(g, kind) == {}
    ensures Cleared(g, kind) == g
  {
    match kind
    case SeasonKind =>
    case EpisodeKind => NoListedChildren(EpisodeLists(g), g.episodes.Keys);
    case LocationKind => NoListedChildren(LocationLists(g), g.locations.Keys);
  }

  /** Owners whose every listed child is in an empty set list nothing. */
  lemma NoListedChildren(children: map<nat, seq<nat>>, keys: set<nat>)
    requires keys == {} && forall p, c :: p in children && c in children[p] ==> c in keys
    ensures forall p :: p in children ==> children[p] == []
  {
    forall p | p in children ensures children[p] == [] {
      FirstListedIsMember(children[p], keys);
    }
  }

  lemma ClearedWellformed(g: Graph, kind: Kind)
    requires Wellformed(g)
    ensures Wellformed(Cleared(g, kind))
  {
    match kind
    case SeasonKind =>
    case EpisodeKind => ClearedEpisodesWellformed(g);
    case LocationKind => ClearedLocationsWellformed(g);
  }

  lemma ClearedEpisodesWellformed(g: Graph)
    ensures Wellformed(Cleared(g, EpisodeKind))
  {
    var r := Cleared(g, EpisodeKind);
    assert forall s :: s in r.seasons ==> r.seasons[s].episodes == [];
    assert r.episodes == map[] && r.locations == map[];
  }

  lemma ClearedLocationsWellformed(g: Graph)
    requires Wellformed(g)
    ensures Wellformed(Cleared(g, LocationKind))
  {
    var r := Cleared(g, LocationKind);
    SameSeasonLinks(g, r);
    assert forall e :: e in r.episodes ==> r.episodes[e].locations == [];
  }

  /** Ownership of episodes depends only on the seasons and on each episode's season. */
  lemma SameSeasonLinks(g: Graph, r: Graph)
    requires SeasonsOwnEpisodes(g) && r.seasons == g.seasons && r.episodes.Keys == g.episodes.Keys
    requires forall e :: e in r.episodes ==> r.episodes[e].season == g.episodes[e].season
    ensures SeasonsOwnEpisodes(r)
  {
  }
}
