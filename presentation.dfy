/**
 * What `FilmingViewModel` derives from the store for display: the season colours, the
 * "Season N" / "Episode N" / "N Locations" labels, a location's titles, the locations a
 * selection shows, and the map region fitted around some locations.
 *
 * Entities are referred to by their ids in the store's graph. Every function here reads the
 * graph and computes; the view model's methods that loop are proved to compute these.
 */
module Presentation {
  import opened Wrappers
  import opened Graph
  import Text

  // ---------------------------------------------------------------- colours

  /** The asset colours `.seasonOne` … `.seasonFive`, `Color.black` and `Color.primaryOrange`. */
  datatype Color = SeasonOne | SeasonTwo | SeasonThree | SeasonFour | SeasonFive | Black | PrimaryOrange

  /** `getColorFromSeason(season:)`: seasons 1 to 5 have their own colour, any other number is black. */
  function SeasonColor(seasonNumber: int): Color {
    if seasonNumber == 1 then SeasonOne
    else if seasonNumber == 2 then SeasonTwo
    else if seasonNumber == 3 then SeasonThree
    else if seasonNumber == 4 then SeasonFour
    else if seasonNumber == 5 then SeasonFive
    else Black
  }

  /** The season a colour stands for, if it stands for one. */
  function ColorSeason(c: Color): Option<int> {
    match c
    case SeasonOne => Some(1)
    case SeasonTwo => Some(2)
    case SeasonThree => Some(3)
    case SeasonFour => Some(4)
    case SeasonFive => Some(5)
    case _ => None
  }

  /** A season colour names its season back; numbers outside 1 to 5 all share black. */
  lemma SeasonColorRoundTrip(seasonNumber: int)
    ensures ColorSeason(SeasonColor(seasonNumber)) == if 1 <= seasonNumber <= 5 then Some(seasonNumber) else None
    ensures SeasonColor(seasonNumber) == Black <==> !(1 <= seasonNumber <= 5)
    ensures SeasonColor(seasonNumber) != PrimaryOrange
  {
  }

  /**
   * `getColorFromEpisode(episode:)`: the colour of the band `1000...1050` to `5000...5050`
   * that holds the episode's `seasonEpisodeNumber`, black outside every band.
   */
  function EpisodeColor(seasonEpisodeNumber: int): Color {
    var n := seasonEpisodeNumber;
    if 1000 <= n <= 1050 then SeasonOne
    else if 2000 <= n <= 2050 then SeasonTwo
    else if 3000 <= n <= 3050 then SeasonThree
    else if 4000 <= n <= 4050 then SeasonFour
    else if 5000 <= n <= 5050 then SeasonFive
    else Black
  }

  /**
   * The bands encode the season in the thousands: an episode number is coloured as season
   * `n / 1000` when its last three digits are at most 50, and black otherwise.
   */
  lemma EpisodeColorIsSeasonOfThousands(seasonEpisodeNumber: int)
    ensures var n := seasonEpisodeNumber;
      EpisodeColor(n) == if 1000 <= n <= 5050 && n % 1000 <= 50 then SeasonColor(n / 1000) else Black
  {
    var n := seasonEpisodeNumber;
    if 1000 <= n <= 5050 {
      var q, r := n / 1000, n % 1000;
      assert n == q * 1000 + r && 0 <= r < 1000;
      assert 1 <= q <= 5;
      if q == 1 { assert 1000 <= n <= 1050 <==> r <= 50; }
      else if q == 2 { assert 2000 <= n <= 2050 <==> r <= 50; }
      else if q == 3 { assert 3000 <= n <= 3050 <==> r <= 50; }
      else if q == 4 { assert 4000 <= n <= 4050 <==> r <= 50; }
      else { assert 5000 <= n <= 5050 <==> r <= 50; }
    }
  }

  /**
   * `getColorFromMapSeason()` and `getPinColorFromSeason()`, which are the same code: the
   * selected season's colour, or the app's orange when no season is selected.
   */
  function SelectionColor(selectedSeasonNumber: Option<int>): (c: Color)
    ensures c == PrimaryOrange <==> selectedSeasonNumber.None?
    ensures selectedSeasonNumber.Some? ==> ColorSeason(c) == if 1 <= selectedSeasonNumber.value <= 5 then selectedSeasonNumber else None
  {
    SeasonColorRoundTrip(if selectedSeasonNumber.Some? then selectedSeasonNumber.value else 0);
    if selectedSeasonNumber.None? then PrimaryOrange else SeasonColor(selectedSeasonNumber.value)
  }

  // ---------------------------------------------------------------- labels

  /** `seasonToShow`: "Season <n>" for the selected season, "All Seasons" without one. */
  function SeasonToShow(selectedSeasonNumber: Option<int>): string {
    if selectedSeasonNumber.Some? then "Season " + Text.IntToString(selectedSeasonNumber.value) else "All Seasons"
  }

  /** `episodeToShow`: "Episode <n>" for the selected episode, "All Episodes" without one. */
  function EpisodeToShow(selectedEpisodeNumber: Option<int>): string {
    if selectedEpisodeNumber.Some? then "Episode " + Text.IntToString(selectedEpisodeNumber.value) else "All Episodes"
  }

  /** Two labels `prefix + "<n>"` are equal only for equal numbers. */
  lemma NumberedLabelsDiffer(prefix: string, a: int, b: int)
    requires prefix + Text.IntToString(a) == prefix + Text.IntToString(b)
    ensures a == b
  {
    var la, lb := prefix + Text.IntToString(a), prefix + Text.IntToString(b);
    assert la[|prefix|..] == Text.IntToString(a);
    assert lb[|prefix|..] == Text.IntToString(b);
    Text.IntToStringInjective(a, b);
  }

  /** The season label tells the selection apart: different selections never share a label. */
  lemma SeasonToShowIsInjective(a: Option<int>, b: Option<int>)
    ensures SeasonToShow(a) == SeasonToShow(b) <==> a == b
  {
    assert SeasonToShow(a)[0] == (if a.Some? then 'S' else 'A');
    assert SeasonToShow(b)[0] == (if b.Some? then 'S' else 'A');
    if SeasonToShow(a) == SeasonToShow(b) {
      if a.Some? && b.Some? {
        NumberedLabelsDiffer("Season ", a.value, b.value);
      }
    }
  }

  lemma EpisodeToShowIsInjective(a: Option<int>, b: Option<int>)
    ensures EpisodeToShow(a) == EpisodeToShow(b) <==> a == b
  {
    assert EpisodeToShow(a)[0] == (if a.Some? then 'E' else 'A');
    assert EpisodeToShow(b)[0] == (if b.Some? then 'E' else 'A');
    if EpisodeToShow(a) == EpisodeToShow(b) {
      if a.Some? && b.Some? {
        NumberedLabelsDiffer("Episode ", a.value, b.value);
      }
    }
  }

  /** `getLocationLabel()` for `count` shown locations: "1 Location", otherwise "<count> Locations". */
  function LocationLabel(count: nat): string {
    Text.IntToString(count) + " " + if count == 1 then "Location" else "Locations"
  }

  /** The text before the first `sep` of `x + [sep] + y` is `x` when `x` has no `sep`. */
  lemma FirstWord(x: string, sep: char, y: string)
    requires sep !in x
    ensures Text.FirstComponent(x + [sep] + y, sep) == x
  {
    var s := x + [sep] + y;
    var f := Text.FirstComponent(s, sep);
    Text.FirstComponentIsTextBeforeFirstSeparator(s, sep);
    assert s[|x|] == sep && s[..|x|] == x;
    assert f == s[..|f|] == x;
  }

  /** The label reads back as its count, and the noun is plural exactly when the count is not 1. */
  lemma LocationLabelReadsBack(count: nat)
    ensures var shown := LocationLabel(count);
      && Text.ParseInt(Text.FirstComponent(shown, ' ')) == Some(count as int)
      && (shown[|shown| - 1] == 's' <==> count != 1)
  {
    var digits := Text.IntToString(count);
    assert Text.AllDigits(digits);
    FirstWord(digits, ' ', if count == 1 then "Location" else "Locations");
    Text.IntToStringRoundTrip(count);
  }

  // ---------------------------------------------------------------- a location's titles

  /** `getEpisodeForLocation(_:)`: the episode a location belongs to, if it has one in the store. */
  function EpisodeForLocation(g: Graph, l: Location): Option<Episode> {
    if l.episode.Some? && l.episode.value in g.episodes then Some(g.episodes[l.episode.value]) else None
  }

  /** `getSeasonForLocation(_:)`: that episode's season, if both links are there. */
  function SeasonForLocation(g: Graph, l: Location): Option<Season> {
    var e := EpisodeForLocation(g, l);
    if e.Some? && e.value.season.Some? && e.value.season.value in g.seasons then Some(g.seasons[e.value.season.value]) else None
  }

  /** In a well-formed store a stored location always has an episode and a season, and they own it. */
  lemma StoredLocationResolves(g: Graph, lid: nat)
    requires Wellformed(g) && lid in g.locations
    ensures var l := g.locations[lid];
      && EpisodeForLocation(g, l).Some? && SeasonForLocation(g, l).Some?
      && lid in EpisodeForLocation(g, l).value.locations
      && l.episode.value in SeasonForLocation(g, l).value.episodes
  {
  }

  /** `getLocationDetailTitle(_:)`: "S<season>E<episode> - <title>", or the bare title without both links. */
  function LocationDetailTitle(g: Graph, l: Location): string {
    var e, s := EpisodeForLocation(g, l), SeasonForLocation(g, l);
    if e.Some? && s.Some?
    then "S" + Text.IntToString(s.value.seasonNumber) + "E" + Text.IntToString(e.value.episodeNumber) + " - " + l.locationTitle
    else l.locationTitle
  }

  /** The detail title always ends with the location's own title, after the episode code when it has one. */
  lemma DetailTitleEndsWithTitle(g: Graph, lid: nat)
    requires lid in g.locations
    ensures var l := g.locations[lid];
      var r := LocationDetailTitle(g, l);
      && |l.locationTitle| <= |r| && r[|r| - |l.locationTitle|..] == l.locationTitle
      && (Wellformed(g) ==> |r| > |l.locationTitle| && r[0] == 'S')
  {
    if Wellformed(g) {
      StoredLocationResolves(g, lid);
    }
  }

  /**
   * In a well-formed store the detail title is the episode code of the location's own episode
   * and season, and the code reads back as their numbers: the digits after the 'S' up to the
   * 'E' give the season number, and those after the 'E' up to the space give the episode number.
   */
  lemma DetailTitleReadsBack(g: Graph, lid: nat)
    requires Wellformed(g) && lid in g.locations
    ensures var l := g.locations[lid];
      var e := g.episodes[l.episode.value];
      var s := g.seasons[e.season.value];
      var r := LocationDetailTitle(g, l);
      && r == "S" + Text.IntToString(s.seasonNumber) + "E" + Text.IntToString(e.episodeNumber) + " - " + l.locationTitle
      && Text.ParseInt(Text.FirstComponent(r[1..], 'E')) == Some(s.seasonNumber)
      && Text.ParseInt(Text.FirstComponent(r[|Text.IntToString(s.seasonNumber)| + 2..], ' ')) == Some(e.episodeNumber)
  {
    StoredLocationResolves(g, lid);
    var l := g.locations[lid];
    var e := g.episodes[l.episode.value];
    var s := g.seasons[e.season.value];
    var sn, en := Text.IntToString(s.seasonNumber), Text.IntToString(e.episodeNumber);
    var r := LocationDetailTitle(g, l);
    assert r[1..] == sn + ['E'] + (en + " - " + l.locationTitle);
    assert 'E' !in sn by { NumeralHasNoLetter(s.seasonNumber, 'E'); }
    FirstWord(sn, 'E', en + " - " + l.locationTitle);
    assert r[|sn| + 2..] == en + [' '] + ("- " + l.locationTitle);
    assert ' ' !in en by { NumeralHasNoLetter(e.episodeNumber, ' '); }
    FirstWord(en, ' ', "- " + l.locationTitle);
    Text.IntToStringRoundTrip(s.seasonNumber);
    Text.IntToStringRoundTrip(e.episodeNumber);
  }

  /** A numeral holds only digits and a leading minus sign. */
  lemma NumeralHasNoLetter(i: int, c: char)
    requires c != '-' && !Text.IsDigit(c)
    ensures c !in Text.IntToString(i)
  {
    var digits := Text.NatToString(if i < 0 then -i else i);
    assert c !in digits by {
      forall k | 0 <= k < |digits| ensures digits[k] != c {
        assert Text.IsDigit(digits[k]);
      }
    }
  }

  /** `getEpisodeInfo(_:)`: "Season <n> Episode <m>: <episode title>", or "Unknown Episode". */
  function EpisodeInfo(g: Graph, l: Location): string {
    var e, s := EpisodeForLocation(g, l), SeasonForLocation(g, l);
    if e.None? || s.None? then "Unknown Episode"
    else "Season " + Text.IntToString(s.value.seasonNumber) + " Episode " + Text.IntToString(e.value.episodeNumber) + ": " + e.value.episodeTitle
  }

  /** Only a location without an episode or season is shown as "Unknown Episode"; a stored one never is. */
  lemma EpisodeInfoIsKnownForStoredLocations(g: Graph, lid: nat)
    requires lid in g.locations
    ensures var l := g.locations[lid];
      EpisodeInfo(g, l) == "Unknown Episode" <==> EpisodeForLocation(g, l).None? || SeasonForLocation(g, l).None?
    ensures Wellformed(g) ==> EpisodeInfo(g, g.locations[lid]) != "Unknown Episode"
  {
    var l := g.locations[lid];
    if EpisodeForLocation(g, l).Some? && SeasonForLocation(g, l).Some? {
      assert EpisodeInfo(g, l)[0] == 'S';
    }
    if Wellformed(g) {
      StoredLocationResolves(g, lid);
    }
  }

  // ---------------------------------------------------------------- which locations are shown

  /** `episode.locations`, read from the store; an id the store does not hold has none. */
  function EpisodeLocations(g: Graph, eid: nat): seq<nat> {
    if eid in g.episodes then g.episodes[eid].locations else []
  }

  /** The locations of these episodes, episode after episode. */
  function LocationsOfEpisodes(g: Graph, eids: seq<nat>): seq<nat> {
    if eids == [] then [] else LocationsOfEpisodes(g, eids[..|eids| - 1]) + EpisodeLocations(g, eids[|eids| - 1])
  }

  /** The locations of one season: its episodes' locations in episode order. */
  function SeasonLocations(g: Graph, sid: nat): seq<nat> {
    if sid in g.seasons then LocationsOfEpisodes(g, g.seasons[sid].episodes) else []
  }

  /** The locations of these seasons, season after season. */
  function AllLocations(g: Graph, sids: seq<nat>): seq<nat> {
    if sids == [] then [] else AllLocations(g, sids[..|sids| - 1]) + SeasonLocations(g, sids[|sids| - 1])
  }

  /** `locationsToShow`: the selected episode's, else the selected season's, else every listed season's. */
  function ShownLocations(g: Graph, seasons: seq<nat>, selectedSeason: Option<nat>, selectedEpisode: Option<nat>): seq<nat> {
    if selectedSeason.Some? then
      if selectedEpisode.Some? then EpisodeLocations(g, selectedEpisode.value) else SeasonLocations(g, selectedSeason.value)
    else AllLocations(g, seasons)
  }

  /** The id of the episode a location belongs to. */
  function OwnerEpisode(g: Graph, lid: nat): Option<nat>
    requires lid in g.locations
  {
    g.locations[lid].episode
  }

  /** In a well-formed store, an episode's list holds exactly the locations that point to it. */
  lemma EpisodeLocationsExact(g: Graph, eid: nat)
    requires Wellformed(g)
    ensures forall lid :: lid in EpisodeLocations(g, eid) <==> lid in g.locations && OwnerEpisode(g, lid) == Some(eid)
  {
  }

  /** The locations of some episodes are exactly the locations that point to one of them. */
  lemma {:induction false} LocationsOfEpisodesExact(g: Graph, eids: seq<nat>)
    requires Wellformed(g)
    ensures forall lid :: lid in LocationsOfEpisodes(g, eids) <==>
      lid in g.locations && OwnerEpisode(g, lid).Some? && OwnerEpisode(g, lid).value in eids
    decreases |eids|
  {
    if eids != [] {
      var front, last := eids[..|eids| - 1], eids[|eids| - 1];
      LocationsOfEpisodesExact(g, front);
      EpisodeLocationsExact(g, last);
      assert forall e :: e in eids <==> e in front || e == last by {
        assert eids == front + [last];
      }
    }
  }

  /**
   * `getLocationsForSeason(_:)` in a well-formed store: exactly the locations whose episode
   * belongs to the season, none of them twice.
   */
  lemma SeasonLocationsExact(g: Graph, sid: nat)
    requires Wellformed(g)
    ensures forall lid :: lid in SeasonLocations(g, sid) <==>
      lid in g.locations && OwnerEpisode(g, lid).Some? && OwnerEpisode(g, lid).value in g.episodes
      && g.episodes[OwnerEpisode(g, lid).value].season == Some(sid)
  {
    if sid in g.seasons {
      LocationsOfEpisodesExact(g, g.seasons[sid].episodes);
    } else {
      forall lid | lid in g.locations && OwnerEpisode(g, lid).Some? && OwnerEpisode(g, lid).value in g.episodes
        ensures g.episodes[OwnerEpisode(g, lid).value].season != Some(sid)
      {
      }
    }
  }

  /** The locations of some seasons are exactly the locations of one of them. */
  lemma {:induction false} AllLocationsMembers(g: Graph, sids: seq<nat>)
    ensures forall lid :: lid in AllLocations(g, sids) <==> exists k :: 0 <= k < |sids| && lid in SeasonLocations(g, sids[k])
    decreases |sids|
  {
    if sids != [] {
      var front := sids[..|sids| - 1];
      AllLocationsMembers(g, front);
      forall lid ensures lid in AllLocations(g, sids) <==> exists k :: 0 <= k < |sids| && lid in SeasonLocations(g, sids[k]) {
        if lid in AllLocations(g, front) {
          var k :| 0 <= k < |front| && lid in SeasonLocations(g, front[k]);
          assert sids[k] == front[k];
        }
        if k :| 0 <= k < |sids| && lid in SeasonLocations(g, sids[k]) {
          if k < |sids| - 1 {
            assert front[k] == sids[k];
          }
        }
      }
    }
  }

  /**
   * `getAllLocations()` over a season list that names every stored season (as `loadSeasons`
   * leaves it): exactly the stored locations.
   */
  lemma AllLocationsAreTheStoredOnes(g: Graph, sids: seq<nat>)
    requires Wellformed(g) && forall sid :: sid in g.seasons ==> sid in sids
    ensures forall lid :: lid in AllLocations(g, sids) <==> lid in g.locations
  {
    AllLocationsMembers(g, sids);
    forall lid | lid in AllLocations(g, sids) ensures lid in g.locations {
      var k :| 0 <= k < |sids| && lid in SeasonLocations(g, sids[k]);
      SeasonLocationsExact(g, sids[k]);
    }
    forall lid | lid in g.locations ensures lid in AllLocations(g, sids) {
      var eid := OwnerEpisode(g, lid).value;
      var sid := g.episodes[eid].season.value;
      var k :| 0 <= k < |sids| && sids[k] == sid;
      SeasonLocationsExact(g, sid);
    }
  }

  // ---------------------------------------------------------------- the map region

  /** `MKCoordinateRegion`: a centre and a span in degrees, as reals (no IEEE rounding). */
  datatype Region = Region(centerLatitude: real, centerLongitude: real, latitudeDelta: real, longitudeDelta: real)

  /** `MKCoordinateRegion()`, the region before any fit. */
  const InitialRegion: Region := Region(0.0, 0.0, 0.0, 0.0)

  function Min(a: real, b: real): real {
    if b < a then b else a
  }

  function Max(a: real, b: real): real {
    if a < b then b else a
  }

  function Latitudes(ls: seq<Location>): (r: seq<real>)
    ensures |r| == |ls|
  {
    if ls == [] then [] else Latitudes(ls[..|ls| - 1]) + [ls[|ls| - 1].filmingLocation.latitude]
  }

  function Longitudes(ls: seq<Location>): (r: seq<real>)
    ensures |r| == |ls|
  {
    if ls == [] then [] else Longitudes(ls[..|ls| - 1]) + [ls[|ls| - 1].filmingLocation.longitude]
  }

  /** The smallest of some numbers, folded from the front as the loop in `fitMapToLocations` does. */
  function Lowest(xs: seq<real>): real
    requires xs != []
  {
    if |xs| == 1 then xs[0] else Min(Lowest(xs[..|xs| - 1]), xs[|xs| - 1])
  }

  function Highest(xs: seq<real>): real
    requires xs != []
  {
    if |xs| == 1 then xs[0] else Max(Highest(xs[..|xs| - 1]), xs[|xs| - 1])
  }

  /** Lowest is the minimum and Highest the maximum: each is one of the numbers and bounds all of them. */
  lemma {:induction false} LowestAndHighestBound(xs: seq<real>)
    requires xs != []
    ensures forall i :: 0 <= i < |xs| ==> Lowest(xs) <= xs[i] <= Highest(xs)
    ensures Lowest(xs) in xs && Highest(xs) in xs
    decreases |xs|
  {
    if |xs| > 1 {
      var front := xs[..|xs| - 1];
      LowestAndHighestBound(front);
      assert forall i :: 0 <= i < |front| ==> front[i] == xs[i];
      assert Lowest(front) in xs && Highest(front) in xs;
    }
  }

  /** `Latitudes` and `Longitudes` read each location's coordinate, in order. */
  lemma {:induction false} CoordinatesAt(ls: seq<Location>)
    ensures forall i :: 0 <= i < |ls| ==>
      Latitudes(ls)[i] == ls[i].filmingLocation.latitude && Longitudes(ls)[i] == ls[i].filmingLocation.longitude
    decreases |ls|
  {
    if ls != [] {
      CoordinatesAt(ls[..|ls| - 1]);
    }
  }

  /** The bounds of the first location alone are its own coordinates. */
  lemma BoundsOfFirst(ls: seq<Location>)
    requires ls != []
    ensures var c := ls[0].filmingLocation;
      && Lowest(Latitudes(ls[..1])) == c.latitude == Highest(Latitudes(ls[..1]))
      && Lowest(Longitudes(ls[..1])) == c.longitude == Highest(Longitudes(ls[..1]))
  {
    assert ls[..1][..0] == [];
  }

  /** Taking in one more location moves each bound only as far as that location's coordinate. */
  lemma BoundsStep(ls: seq<Location>, i: nat)
    requires 1 <= i < |ls|
    ensures var c := ls[i].filmingLocation;
      && Lowest(Latitudes(ls[..i + 1])) == Min(Lowest(Latitudes(ls[..i])), c.latitude)
      && Highest(Latitudes(ls[..i + 1])) == Max(Highest(Latitudes(ls[..i])), c.latitude)
      && Lowest(Longitudes(ls[..i + 1])) == Min(Lowest(Longitudes(ls[..i])), c.longitude)
      && Highest(Longitudes(ls[..i + 1])) == Max(Highest(Longitudes(ls[..i])), c.longitude)
  {
    assert ls[..i + 1][..i] == ls[..i];
  }

  /**
   * The region `fitMapToLocations(_:)` sets: centred on the middle of the smallest box holding
   * every location, and half as large again as that box in each direction.
   */
  function BoundingRegion(ls: seq<Location>): Region
    requires ls != []
  {
    var minLat, maxLat := Lowest(Latitudes(ls)), Highest(Latitudes(ls));
    var minLon, maxLon := Lowest(Longitudes(ls)), Highest(Longitudes(ls));
    Region((minLat + maxLat) / 2.0, (minLon + maxLon) / 2.0, (maxLat - minLat) * 1.5, (maxLon - minLon) * 1.5)
  }

  /** A single location gives a region centred on it with no extent. */
  lemma SingleLocationRegion(l: Location)
    ensures BoundingRegion([l]) == Region(l.filmingLocation.latitude, l.filmingLocation.longitude, 0.0, 0.0)
  {
    assert Latitudes([l]) == [l.filmingLocation.latitude] by { assert [l][..0] == []; }
    assert Longitudes([l]) == [l.filmingLocation.longitude] by { assert [l][..0] == []; }
  }

  /** Every fitted location lies inside the region, with a margin left on each side. */
  lemma BoundingRegionCoversLocations(ls: seq<Location>)
    requires ls != []
    ensures var r := BoundingRegion(ls);
      && r.latitudeDelta >= 0.0 && r.longitudeDelta >= 0.0
      && forall i :: 0 <= i < |ls| ==>
           && r.centerLatitude - r.latitudeDelta / 3.0 <= ls[i].filmingLocation.latitude <= r.centerLatitude + r.latitudeDelta / 3.0
           && r.centerLongitude - r.longitudeDelta / 3.0 <= ls[i].filmingLocation.longitude <= r.centerLongitude + r.longitudeDelta / 3.0
  {
    LowestAndHighestBound(Latitudes(ls));
    LowestAndHighestBound(Longitudes(ls));
    CoordinatesAt(ls);
  }
}
