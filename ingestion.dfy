/**
 * What a replace-all reload puts into the store, as pure functions over an arena (a graph and
 * its next free id): each season record becomes a Season, its episodes become Episodes
 * linked to it, and their locations become Locations linked to them, all in source order.
 * Both loaders (the view model's and DataLoader's) are proved against these functions.
 *
 * Reading a season back out of the graph through its lists (`ReadSeason`) gives exactly
 * what the initializers make of the record (`ExpectedSeason`), and the whole reload reads
 * back as `ExpectedCatalog`, whatever the store held before and whatever ids were used.
 */
module Ingestion {
  import opened Wrappers
  import opened Graph
  import Schema
  import Resources

  /** A graph and the next unused id. */
  datatype Arena = Arena(graph: Graph, next: nat)

  /** Every listed id names an entity of the listed kind. */
  ghost predicate Closed(g: Graph) {
    && (forall s, e :: s in g.seasons && e in g.seasons[s].episodes ==> e in g.episodes)
    && (forall e, l :: e in g.episodes && l in g.episodes[e].locations ==> l in g.locations)
  }

  /** A well-formed graph has no dangling list entries. */
  lemma WellformedIsClosed(g: Graph)
    requires Wellformed(g)
    ensures Closed(g)
  {
    forall s, e | s in g.seasons && e in g.seasons[s].episodes ensures e in g.episodes {
      assert EpisodeLists(g)[s] == g.seasons[s].episodes;
      assert e in SeasonLinks(g);
    }
    forall e, l | e in g.episodes && l in g.episodes[e].locations ensures l in g.locations {
      assert LocationLists(g)[e] == g.episodes[e].locations;
      assert l in EpisodeLinks(g);
    }
  }

  /** What the read-back proofs need of an arena: lists closed, ids fresh above `next` and distinct. */
  ghost predicate Sound(a: Arena) {
    Closed(a.graph) && Fresh(a.graph, a.next) && Distinct(a.graph)
  }

  // ---------------------------------------------------------------- records to entities

  /** `Season(seasonAirDate:title:totalEpisodes:seasonNumber:)` applied to a record. */
  function SeasonOf(sd: Schema.SeasonData): Season {
    NewSeason(sd.seasonAirDate, sd.title, sd.totalEpisodes, sd.seasonNumber)
  }

  /** `Episode(...)` applied to a record, six fields copied. */
  function EpisodeOf(ed: Schema.EpisodeData): Episode {
    NewEpisode(ed.episodeAirDate, ed.episodeDescription, ed.episodeGuestStars,
               ed.episodeNumber, ed.episodeTitle, ed.seasonEpisodeNumber)
  }

  /** `Location(...)` applied to a record, with the image data looked up in the bundle. */
  function LocationOf(ld: Schema.LocationData, b: Resources.Bundle): Location {
    NewLocation(ld.locationInfo, Coordinate(ld.filmingLocation.latitude, ld.filmingLocation.longitude),
                Resources.LoadImageData(b, ld.imageFilename), ld.locationTitle, ld.timeCode)
  }

  // ---------------------------------------------------------------- trees

  /**
   * A season and what it owns, with the links replaced by nesting. This is both what a
   * decoded record becomes before it is stored and what reading a season back gives.
   */
  datatype SeasonTree = SeasonTree(season: Season, episodes: seq<EpisodeTree>)
  datatype EpisodeTree = EpisodeTree(episode: Episode, locations: seq<Location>)

  /** An episode tree whose entities carry no links of their own yet, as fresh initializers leave them. */
  predicate DetachedEpisode(t: EpisodeTree) {
    && t.episode.season == None && t.episode.locations == []
    && forall k :: 0 <= k < |t.locations| ==> t.locations[k].episode == None
  }

  predicate Detached(t: SeasonTree) {
    t.season.episodes == [] && forall k :: 0 <= k < |t.episodes| ==> DetachedEpisode(t.episodes[k])
  }

  /** The records of one episode's locations, each through `LocationOf`. */
  function LocationsOf(lds: seq<Schema.LocationData>, b: Resources.Bundle): seq<Location> {
    seq(|lds|, k requires 0 <= k < |lds| => LocationOf(lds[k], b))
  }

  function EpisodeTreeOf(ed: Schema.EpisodeData, b: Resources.Bundle): EpisodeTree {
    EpisodeTree(EpisodeOf(ed), LocationsOf(ed.locations, b))
  }

  function EpisodeTreesOf(eds: seq<Schema.EpisodeData>, b: Resources.Bundle): seq<EpisodeTree> {
    seq(|eds|, k requires 0 <= k < |eds| => EpisodeTreeOf(eds[k], b))
  }

  /** What `loadSeason` / `loadSeasonFromJSON` makes of a decoded record. */
  function SeasonTreeOf(sd: Schema.SeasonData, b: Resources.Bundle): SeasonTree {
    SeasonTree(SeasonOf(sd), EpisodeTreesOf(sd.episodes, b))
  }

  /** Freshly initialized entities own nothing and point nowhere. */
  lemma SeasonTreeOfIsDetached(sd: Schema.SeasonData, b: Resources.Bundle)
    ensures Detached(SeasonTreeOf(sd, b))
  {
    var t := SeasonTreeOf(sd, b);
    forall et | et in t.episodes ensures DetachedEpisode(et) {
      var k :| 0 <= k < |t.episodes| && t.episodes[k] == et;
      var ed := sd.episodes[k];
      assert et == EpisodeTreeOf(ed, b);
      forall l | l in et.locations ensures l.episode == None {
        var j :| 0 <= j < |et.locations| && et.locations[j] == l;
        assert l == LocationOf(ed.locations[j], b);
      }
    }
  }

  /** Converting one more record at the end appends one more entity. */
  lemma LocationsOfAppend(lds: seq<Schema.LocationData>, i: nat, b: Resources.Bundle)
    requires i < |lds|
    ensures LocationsOf(lds[..i + 1], b) == LocationsOf(lds[..i], b) + [LocationOf(lds[i], b)]
  {
  }

  lemma EpisodeTreesOfAppend(eds: seq<Schema.EpisodeData>, i: nat, b: Resources.Bundle)
    requires i < |eds|
    ensures EpisodeTreesOf(eds[..i + 1], b) == EpisodeTreesOf(eds[..i], b) + [EpisodeTreeOf(eds[i], b)]
  {
  }

  // ---------------------------------------------------------------- inserting

  /** `location.episode = episode; insert(location)` for each location, in order. */
  function InsertLocations(a: Arena, eid: nat, ls: seq<Location>): (r: Arena)
    requires eid in a.graph.episodes
    ensures eid in r.graph.episodes && r.graph.seasons == a.graph.seasons && r.next == a.next + |ls|
    decreases |ls|
  {
    if ls == [] then a
    else
      var m := InsertLocations(a, eid, ls[..|ls| - 1]);
      Arena(AddLocation(m.graph, m.next, ls[|ls| - 1], eid), m.next + 1)
  }

  /** `createEpisode(from:in:)` then `createLocations(from:in:)`. */
  function InsertEpisodeTree(a: Arena, sid: nat, t: EpisodeTree): (r: Arena)
    requires sid in a.graph.seasons
    ensures sid in r.graph.seasons && r.next > a.next
  {
    InsertLocations(Arena(AddEpisode(a.graph, a.next, t.episode, sid), a.next + 1), a.next, t.locations)
  }

  /** The loop over a season's episodes. */
  function InsertEpisodeTrees(a: Arena, sid: nat, ts: seq<EpisodeTree>): (r: Arena)
    requires sid in a.graph.seasons
    ensures sid in r.graph.seasons && r.next >= a.next
    decreases |ts|
  {
    if ts == [] then a
    else InsertEpisodeTree(InsertEpisodeTrees(a, sid, ts[..|ts| - 1]), sid, ts[|ts| - 1])
  }

  /** One more location at the end is one more insertion after the others. */
  lemma InsertLocationsSnoc(a: Arena, eid: nat, ls: seq<Location>, m: Arena, l: Location)
    requires eid in a.graph.episodes && InsertLocations(a, eid, ls) == m
    ensures eid in m.graph.episodes
    ensures InsertLocations(a, eid, ls + [l]) == Arena(AddLocation(m.graph, m.next, l, eid), m.next + 1)
  {
    assert (ls + [l])[..|ls|] == ls;
  }

  /** An episode inserted under `sid`, then its locations under it, is the episode tree inserted. */
  lemma InsertEpisodeTreeSteps(before: Arena, sid: nat, t: EpisodeTree, eb: Arena, ls: seq<Location>)
    requires sid in before.graph.seasons
    requires eb == Arena(AddEpisode(before.graph, before.next, t.episode, sid), before.next + 1)
    requires ls == t.locations
    ensures before.next in eb.graph.episodes
    ensures InsertLocations(eb, before.next, ls) == InsertEpisodeTree(before, sid, t)
  {
  }

  /** A season inserted, then its episode trees under it, is the season tree inserted. */
  lemma InsertSeasonTreeSteps(before: Arena, t: SeasonTree, base: Arena, ts: seq<EpisodeTree>)
    requires base == Arena(AddSeason(before.graph, before.next, t.season), before.next + 1)
    requires ts == t.episodes
    ensures before.next in base.graph.seasons
    ensures InsertEpisodeTrees(base, before.next, ts) == InsertSeasonTree(before, t)
  {
  }

  /** One more episode at the end is one more episode tree inserted after the others. */
  lemma InsertEpisodeTreesSnoc(a: Arena, sid: nat, ts: seq<EpisodeTree>, t: EpisodeTree)
    requires sid in a.graph.seasons
    ensures InsertEpisodeTrees(a, sid, ts + [t]) == InsertEpisodeTree(InsertEpisodeTrees(a, sid, ts), sid, t)
  {
    assert (ts + [t])[..|ts|] == ts;
  }

  /** `insert(season)` and then its episodes. */
  function InsertSeasonTree(a: Arena, t: SeasonTree): (r: Arena)
    ensures r.next > a.next
  {
    InsertEpisodeTrees(Arena(AddSeason(a.graph, a.next, t.season), a.next + 1), a.next, t.episodes)
  }

  /** Loading season `n`: inserted whole when it decodes, and the arena untouched otherwise. */
  function LoadSeasonStep(a: Arena, b: Resources.Bundle, n: int): Arena {
    match Resources.LookupSeason(b, n)
    case Loaded(sd) => InsertSeasonTree(a, SeasonTreeOf(sd, b))
    case _ => a
  }

  /** Seasons `first` up to and excluding `stop`, in ascending order. */
  function LoadSeasonRange(a: Arena, b: Resources.Bundle, first: int, stop: int): Arena
    decreases stop - first
  {
    if stop <= first then a
    else LoadSeasonStep(LoadSeasonRange(a, b, first, stop - 1), b, stop - 1)
  }

  /** `for seasonNumber in 1...5`. */
  const FirstSeasonNumber: int := 1
  const LastSeasonNumber: int := 5

  // ---------------------------------------------------------------- reading back

  /** The locations named by `ids`, back-references dropped. */
  function ReadLocations(g: Graph, ids: seq<nat>): seq<Location> {
    if ids == [] then []
    else
      var last := ids[|ids| - 1];
      ReadLocations(g, ids[..|ids| - 1]) + if last in g.locations then [g.locations[last].(episode := None)] else []
  }

  function ReadEpisode(g: Graph, eid: nat): EpisodeTree
    requires eid in g.episodes
  {
    var e := g.episodes[eid];
    EpisodeTree(e.(season := None, locations := []), ReadLocations(g, e.locations))
  }

  function ReadEpisodes(g: Graph, ids: seq<nat>): seq<EpisodeTree> {
    if ids == [] then []
    else
      var last := ids[|ids| - 1];
      ReadEpisodes(g, ids[..|ids| - 1]) + if last in g.episodes then [ReadEpisode(g, last)] else []
  }

  function ReadSeason(g: Graph, sid: nat): SeasonTree
    requires sid in g.seasons
  {
    var s := g.seasons[sid];
    SeasonTree(s.(episodes := []), ReadEpisodes(g, s.episodes))
  }

  /** Every season with an id in [lo, hi), in id order, which is insertion order. */
  function Catalog(g: Graph, lo: nat, hi: nat): seq<SeasonTree>
    decreases hi
  {
    if hi <= lo then []
    else Catalog(g, lo, hi - 1) + if hi - 1 in g.seasons then [ReadSeason(g, hi - 1)] else []
  }

  /** What season `n` contributes: its tree when its file decodes, nothing otherwise. */
  function ExpectedSeason(b: Resources.Bundle, n: int): seq<SeasonTree> {
    match Resources.LookupSeason(b, n)
    case Loaded(sd) => [SeasonTreeOf(sd, b)]
    case _ => []
  }

  /** The seasons numbered `first` up to `stop` that decode, in number order. */
  function ExpectedCatalog(b: Resources.Bundle, first: int, stop: int): seq<SeasonTree>
    decreases stop - first
  {
    if stop <= first then [] else ExpectedCatalog(b, first, stop - 1) + ExpectedSeason(b, stop - 1)
  }

  // ---------------------------------------------------------------- frames

  /** `g2` has every entity of `g1` unchanged, except possibly the one with id `x`. */
  ghost predicate Keeps(g1: Graph, g2: Graph, x: nat) {
    && (forall s :: s in g1.seasons && s != x ==> s in g2.seasons && g2.seasons[s] == g1.seasons[s])
    && (forall e :: e in g1.episodes && e != x ==> e in g2.episodes && g2.episodes[e] == g1.episodes[e])
    && (forall l :: l in g1.locations && l != x ==> l in g2.locations && g2.locations[l] == g1.locations[l])
  }

  lemma KeepsCompose(g1: Graph, g2: Graph, g3: Graph, x: nat, y: nat)
    requires Keeps(g1, g2, x) && Keeps(g2, g3, y)
    requires y == x || (y !in g1.seasons && y !in g1.episodes && y !in g1.locations)
    ensures Keeps(g1, g3, x)
  {
  }

  lemma {:induction false} ReadLocationsFrame(g1: Graph, g2: Graph, ids: seq<nat>)
    requires forall i :: i in ids ==> (i in g1.locations <==> i in g2.locations)
    requires forall i :: i in ids && i in g1.locations ==> g2.locations[i] == g1.locations[i]
    ensures ReadLocations(g2, ids) == ReadLocations(g1, ids)
  {
    if ids != [] {
      ReadLocationsFrame(g1, g2, ids[..|ids| - 1]);
    }
  }

  lemma {:induction false} ReadEpisodesFrame(g1: Graph, g2: Graph, ids: seq<nat>)
    requires forall e :: e in ids ==> e in g1.episodes && e in g2.episodes && g2.episodes[e] == g1.episodes[e]
    requires forall e, l :: e in ids && l in g1.episodes[e].locations ==>
               l in g1.locations && l in g2.locations && g2.locations[l] == g1.locations[l]
    ensures ReadEpisodes(g2, ids) == ReadEpisodes(g1, ids)
  {
    if ids != [] {
      var last := ids[|ids| - 1];
      ReadEpisodesFrame(g1, g2, ids[..|ids| - 1]);
      ReadLocationsFrame(g1, g2, g1.episodes[last].locations);
    }
  }

  /**
   * A season's episode list reads back the same in any graph that keeps every episode and
   * location: what a season owns is reached through its lists only.
   */
  lemma SeasonListFrame(g1: Graph, g2: Graph, sid: nat, x: nat)
    requires Closed(g1) && sid in g1.seasons && Keeps(g1, g2, x)
    requires x !in g1.episodes && x !in g1.locations
    ensures ReadEpisodes(g2, g1.seasons[sid].episodes) == ReadEpisodes(g1, g1.seasons[sid].episodes)
  {
    ReadEpisodesFrame(g1, g2, g1.seasons[sid].episodes);
  }

  // ---------------------------------------------------------------- ranges of ids

  /** The ids lo, lo + 1, ..., hi - 1. */
  function Range(lo: nat, hi: nat): (r: seq<nat>)
    ensures |r| == if hi <= lo then 0 else hi - lo
    decreases hi
  {
    if hi <= lo then [] else Range(lo, hi - 1) + [hi - 1]
  }

  /** Locations stored under consecutive ids read back in id order. */
  // ---------------------------------------------------------------- locations

  lemma AddLocationSound(a: Arena, l: Location, eid: nat)
    requires Sound(a) && eid in a.graph.episodes
    ensures Sound(Arena(AddLocation(a.graph, a.next, l, eid), a.next + 1))
  {
    AddLocationFresh(a.graph, a.next, l, eid);
  }

  lemma {:induction false} InsertLocationsSound(a: Arena, eid: nat, ls: seq<Location>)
    requires Sound(a) && eid in a.graph.episodes
    ensures Sound(InsertLocations(a, eid, ls))
    decreases |ls|
  {
    if ls != [] {
      var init := ls[..|ls| - 1];
      InsertLocationsSound(a, eid, init);
      AddLocationSound(InsertLocations(a, eid, init), ls[|ls| - 1], eid);
    }
  }

  lemma {:induction false} InsertLocationsFresh(a: Arena, eid: nat, ls: seq<Location>)
    requires Fresh(a.graph, a.next) && eid in a.graph.episodes
    ensures Fresh(InsertLocations(a, eid, ls).graph, a.next + |ls|)
    decreases |ls|
  {
    if ls != [] {
      var init := ls[..|ls| - 1];
      InsertLocationsFresh(a, eid, init);
      AddLocationFresh(InsertLocations(a, eid, init).graph, a.next + |init|, ls[|ls| - 1], eid);
    }
  }

  /** The new ids are appended to the episode's list, in order, and nothing else of it changes. */
  lemma {:induction false} InsertLocationsList(a: Arena, eid: nat, ls: seq<Location>)
    requires eid in a.graph.episodes
    ensures var r := InsertLocations(a, eid, ls);
      r.graph.episodes[eid] == a.graph.episodes[eid].(locations := a.graph.episodes[eid].locations + Range(a.next, r.next))
    decreases |ls|
  {
    if ls != [] {
      var init := ls[..|ls| - 1];
      InsertLocationsList(a, eid, init);
      var m := InsertLocations(a, eid, init);
      assert Range(a.next, m.next + 1) == Range(a.next, m.next) + [m.next];
    }
  }

  /** Nothing that existed changes except the episode's list. */
  lemma {:induction false} InsertLocationsKeeps(a: Arena, eid: nat, ls: seq<Location>)
    requires Fresh(a.graph, a.next) && eid in a.graph.episodes
    ensures Keeps(a.graph, InsertLocations(a, eid, ls).graph, eid)
    decreases |ls|
  {
    if ls != [] {
      var init := ls[..|ls| - 1];
      InsertLocationsKeeps(a, eid, init);
      InsertLocationsFresh(a, eid, init);
      var m := InsertLocations(a, eid, init);
      var r := InsertLocations(a, eid, ls);
      assert r.graph == AddLocation(m.graph, m.next, ls[|ls| - 1], eid);
      assert Keeps(m.graph, r.graph, eid);
      KeepsCompose(a.graph, m.graph, r.graph, eid, eid);
    }
  }

  lemma ReadLocationsSnoc(g: Graph, ids: seq<nat>, x: nat)
    ensures ReadLocations(g, ids + [x])
         == ReadLocations(g, ids) + if x in g.locations then [g.locations[x].(episode := None)] else []
  {
    assert (ids + [x])[..|ids|] == ids;
  }

  /** Storing under an id at or above `hi` does not change what the ids below read back. */
  lemma {:induction false} ReadRangeUnchanged(g1: Graph, g2: Graph, lo: nat, hi: nat, x: nat, l: Location)
    requires hi <= x && g2.locations == g1.locations[x := l]
    ensures ReadLocations(g2, Range(lo, hi)) == ReadLocations(g1, Range(lo, hi))
    decreases hi
  {
    if lo < hi {
      ReadRangeUnchanged(g1, g2, lo, hi - 1, x, l);
      ReadLocationsSnoc(g1, Range(lo, hi - 1), hi - 1);
      ReadLocationsSnoc(g2, Range(lo, hi - 1), hi - 1);
    }
  }

  /** Locations without links of their own read back, after insertion, as themselves in order. */
  lemma {:induction false} InsertLocationsReadBack(a: Arena, eid: nat, ls: seq<Location>)
    requires eid in a.graph.episodes
    requires forall k :: 0 <= k < |ls| ==> ls[k].episode == None
    ensures var r := InsertLocations(a, eid, ls);
      ReadLocations(r.graph, Range(a.next, r.next)) == ls
    decreases |ls|
  {
    if ls != [] {
      var init, l := ls[..|ls| - 1], ls[|ls| - 1];
      InsertLocationsReadBack(a, eid, init);
      var m := InsertLocations(a, eid, init);
      var r := InsertLocations(a, eid, ls);
      LocationAppendedReadsBack(m.graph, r.graph, a.next, m.next, l, eid);
      AppendLast([], ls);
    }
  }

  /** Storing one more location right above a range extends what the range reads back by it. */
  lemma LocationAppendedReadsBack(g1: Graph, g2: Graph, lo: nat, x: nat, l: Location, eid: nat)
    requires lo <= x && l.episode == None && g2.locations == g1.locations[x := l.(episode := Some(eid))]
    ensures ReadLocations(g2, Range(lo, x + 1)) == ReadLocations(g1, Range(lo, x)) + [l]
  {
    ReadRangeUnchanged(g1, g2, lo, x, x, l.(episode := Some(eid)));
    ReadLocationsSnoc(g2, Range(lo, x), x);
  }

  // ---------------------------------------------------------------- episodes

  lemma InsertEpisodeTreeSound(a: Arena, sid: nat, t: EpisodeTree)
    requires Sound(a) && sid in a.graph.seasons && t.episode.locations == []
    ensures Sound(InsertEpisodeTree(a, sid, t))
  {
    AddEpisodeFresh(a.graph, a.next, t.episode, sid);
    InsertLocationsSound(Arena(AddEpisode(a.graph, a.next, t.episode, sid), a.next + 1), a.next, t.locations);
  }

  lemma InsertEpisodeTreeFresh(a: Arena, sid: nat, t: EpisodeTree)
    requires Fresh(a.graph, a.next) && sid in a.graph.seasons
    ensures var r := InsertEpisodeTree(a, sid, t); Fresh(r.graph, r.next)
  {
    AddEpisodeFresh(a.graph, a.next, t.episode, sid);
    InsertLocationsFresh(Arena(AddEpisode(a.graph, a.next, t.episode, sid), a.next + 1), a.next, t.locations);
  }

  /**
   * Inserting one episode tree appends the new episode's id to `sid`'s list and changes
   * nothing else that existed.
   */
  lemma InsertEpisodeTreeKeeps(a: Arena, sid: nat, t: EpisodeTree)
    requires Fresh(a.graph, a.next) && sid in a.graph.seasons
    ensures var r := InsertEpisodeTree(a, sid, t);
      && r.graph.seasons == a.graph.seasons[sid := a.graph.seasons[sid].(episodes := a.graph.seasons[sid].episodes + [a.next])]
      && Keeps(a.graph, r.graph, sid)
  {
    var e := Arena(AddEpisode(a.graph, a.next, t.episode, sid), a.next + 1);
    assert Keeps(a.graph, e.graph, sid);
    InsertLocationsKeeps(e, a.next, t.locations);
    KeepsCompose(a.graph, e.graph, InsertLocations(e, a.next, t.locations).graph, sid, a.next);
  }

  /** The inserted episode reads back as the tree it was made from. */
  lemma InsertEpisodeTreeReadBack(a: Arena, sid: nat, t: EpisodeTree)
    requires sid in a.graph.seasons && DetachedEpisode(t)
    ensures var r := InsertEpisodeTree(a, sid, t);
      a.next in r.graph.episodes && ReadEpisode(r.graph, a.next) == t
  {
    var e := Arena(AddEpisode(a.graph, a.next, t.episode, sid), a.next + 1);
    InsertLocationsList(e, a.next, t.locations);
    InsertLocationsReadBack(e, a.next, t.locations);
    var r := InsertLocations(e, a.next, t.locations);
    EpisodeReadsBack(r.graph, a.next, t, e.graph.episodes[a.next], Range(e.next, r.next));
  }

  /** An episode stored as the tree's episode, with a list that reads back as its locations, reads back as the tree. */
  lemma EpisodeReadsBack(g: Graph, eid: nat, t: EpisodeTree, stored: Episode, ids: seq<nat>)
    requires DetachedEpisode(t) && stored == t.episode.(season := stored.season) && stored.locations == []
    requires eid in g.episodes && g.episodes[eid] == stored.(locations := stored.locations + ids)
    requires ReadLocations(g, ids) == t.locations
    ensures ReadEpisode(g, eid) == t
  {
    assert [] + ids == ids;
  }

  lemma {:induction false} InsertEpisodeTreesSound(a: Arena, sid: nat, ts: seq<EpisodeTree>)
    requires Sound(a) && sid in a.graph.seasons && forall k :: 0 <= k < |ts| ==> DetachedEpisode(ts[k])
    ensures Sound(InsertEpisodeTrees(a, sid, ts))
    decreases |ts|
  {
    if ts != [] {
      var init := ts[..|ts| - 1];
      InsertEpisodeTreesSound(a, sid, init);
      InsertEpisodeTreeSound(InsertEpisodeTrees(a, sid, init), sid, ts[|ts| - 1]);
    }
  }

  lemma {:induction false} InsertEpisodeTreesFresh(a: Arena, sid: nat, ts: seq<EpisodeTree>)
    requires Fresh(a.graph, a.next) && sid in a.graph.seasons
    ensures var r := InsertEpisodeTrees(a, sid, ts); Fresh(r.graph, r.next)
    decreases |ts|
  {
    if ts != [] {
      var init := ts[..|ts| - 1];
      InsertEpisodeTreesFresh(a, sid, init);
      InsertEpisodeTreeFresh(InsertEpisodeTrees(a, sid, init), sid, ts[|ts| - 1]);
    }
  }

  /** Inserting a season's episodes changes only that season's list and adds what is new. */
  lemma {:induction false} InsertEpisodeTreesKeeps(a: Arena, sid: nat, ts: seq<EpisodeTree>)
    requires Fresh(a.graph, a.next) && sid in a.graph.seasons
    ensures var r := InsertEpisodeTrees(a, sid, ts);
      && r.graph.seasons.Keys == a.graph.seasons.Keys
      && r.graph.seasons[sid].(episodes := []) == a.graph.seasons[sid].(episodes := [])
      && Keeps(a.graph, r.graph, sid)
    decreases |ts|
  {
    if ts != [] {
      var init := ts[..|ts| - 1];
      var m := InsertEpisodeTrees(a, sid, init);
      InsertEpisodeTreesKeeps(a, sid, init);
      InsertEpisodeTreesFresh(a, sid, init);
      InsertEpisodeTreeKeeps(m, sid, ts[|ts| - 1]);
      KeepsCompose(a.graph, m.graph, InsertEpisodeTree(m, sid, ts[|ts| - 1]).graph, sid, sid);
    }
  }

  /**
   * After inserting episode trees under a season, its list reads back as what it read
   * before followed by the trees, in order.
   */
  lemma {:induction false} InsertEpisodeTreesReadBack(a: Arena, sid: nat, ts: seq<EpisodeTree>)
    requires Sound(a) && sid in a.graph.seasons && forall k :: 0 <= k < |ts| ==> DetachedEpisode(ts[k])
    ensures var r := InsertEpisodeTrees(a, sid, ts);
      ReadEpisodes(r.graph, r.graph.seasons[sid].episodes) == ReadEpisodes(a.graph, a.graph.seasons[sid].episodes) + ts
    decreases |ts|
  {
    if ts != [] {
      var init, t := ts[..|ts| - 1], ts[|ts| - 1];
      var m := InsertEpisodeTrees(a, sid, init);
      InsertEpisodeTreesReadBack(a, sid, init);
      InsertEpisodeTreesSound(a, sid, init);
      InsertEpisodeTreeKeeps(m, sid, t);
      InsertEpisodeTreeReadBack(m, sid, t);
      var r := InsertEpisodeTree(m, sid, t);
      EpisodeAppendedReadsBack(m.graph, r.graph, sid, m.next, t);
      AppendLast(ReadEpisodes(a.graph, a.graph.seasons[sid].episodes), ts);
    }
  }

  /** Appending the last element of `s` after the rest of `s`. */
  lemma AppendLast<T>(x: seq<T>, s: seq<T>)
    requires s != []
    ensures (x + s[..|s| - 1]) + [s[|s| - 1]] == x + s
  {
    assert s == s[..|s| - 1] + [s[|s| - 1]];
  }

  /** A season whose list gained one episode, everything else kept, reads back one tree longer. */
  lemma EpisodeAppendedReadsBack(g1: Graph, g2: Graph, sid: nat, x: nat, t: EpisodeTree)
    requires Closed(g1) && sid in g1.seasons && Keeps(g1, g2, sid)
    requires sid !in g1.episodes && sid !in g1.locations
    requires sid in g2.seasons && g2.seasons[sid].episodes == g1.seasons[sid].episodes + [x]
    requires x in g2.episodes && ReadEpisode(g2, x) == t
    ensures ReadEpisodes(g2, g2.seasons[sid].episodes) == ReadEpisodes(g1, g1.seasons[sid].episodes) + [t]
  {
    var ids := g1.seasons[sid].episodes;
    SeasonListFrame(g1, g2, sid, sid);
    assert (ids + [x])[..|ids|] == ids;
  }

  // ---------------------------------------------------------------- seasons

  lemma AddSeasonSound(a: Arena, s: Season)
    requires Sound(a) && s.episodes == []
    ensures Sound(Arena(AddSeason(a.graph, a.next, s), a.next + 1))
  {
  }

  lemma InsertSeasonTreeSound(a: Arena, t: SeasonTree)
    requires Sound(a) && Detached(t)
    ensures Sound(InsertSeasonTree(a, t))
  {
    AddSeasonSound(a, t.season);
    InsertEpisodeTreesSound(Arena(AddSeason(a.graph, a.next, t.season), a.next + 1), a.next, t.episodes);
  }

  lemma InsertSeasonTreeFresh(a: Arena, t: SeasonTree)
    requires Fresh(a.graph, a.next)
    ensures var r := InsertSeasonTree(a, t); Fresh(r.graph, r.next)
  {
    InsertEpisodeTreesFresh(Arena(AddSeason(a.graph, a.next, t.season), a.next + 1), a.next, t.episodes);
  }

  /** A season tree adds one season, under `a.next`, and keeps everything that existed. */
  lemma InsertSeasonTreeKeeps(a: Arena, t: SeasonTree)
    requires Fresh(a.graph, a.next)
    ensures var r := InsertSeasonTree(a, t);
      r.graph.seasons.Keys == a.graph.seasons.Keys + {a.next} && Keeps(a.graph, r.graph, a.next)
  {
    var s := Arena(AddSeason(a.graph, a.next, t.season), a.next + 1);
    assert Keeps(a.graph, s.graph, a.next);
    var r := InsertEpisodeTrees(s, a.next, t.episodes);
    assert InsertSeasonTree(a, t) == r;
    InsertEpisodeTreesKeeps(s, a.next, t.episodes);
    KeepsCompose(a.graph, s.graph, r.graph, a.next, a.next);
  }

  /** The inserted season keeps the tree's own fields while its episodes go in under it. */
  lemma InsertSeasonTreeKeepsFields(a: Arena, t: SeasonTree)
    requires Fresh(a.graph, a.next)
    ensures var r := InsertSeasonTree(a, t);
      a.next in r.graph.seasons && r.graph.seasons[a.next].(episodes := []) == t.season.(episodes := [])
  {
    var s := Arena(AddSeason(a.graph, a.next, t.season), a.next + 1);
    InsertEpisodeTreesKeeps(s, a.next, t.episodes);
    assert InsertSeasonTree(a, t) == InsertEpisodeTrees(s, a.next, t.episodes);
  }

  /** Under a season with no episodes yet, the inserted episode trees are exactly what its list reads back. */
  lemma InsertEpisodeTreesIntoEmpty(s: Arena, sid: nat, ts: seq<EpisodeTree>)
    requires Sound(s) && sid in s.graph.seasons && s.graph.seasons[sid].episodes == []
    requires forall k :: 0 <= k < |ts| ==> DetachedEpisode(ts[k])
    ensures var r := InsertEpisodeTrees(s, sid, ts);
      ReadEpisodes(r.graph, r.graph.seasons[sid].episodes) == ts
  {
    InsertEpisodeTreesReadBack(s, sid, ts);
    assert ReadEpisodes(s.graph, s.graph.seasons[sid].episodes) == [];
    assert [] + ts == ts;
  }

  /** Episode trees inserted under a season just added to a sound store read back in order. */
  lemma InsertEpisodeTreesUnderNewSeason(a: Arena, season: Season, ts: seq<EpisodeTree>)
    requires Sound(a) && season.episodes == []
    requires forall k :: 0 <= k < |ts| ==> DetachedEpisode(ts[k])
    ensures var s := Arena(AddSeason(a.graph, a.next, season), a.next + 1);
      var r := InsertEpisodeTrees(s, a.next, ts);
      ReadEpisodes(r.graph, r.graph.seasons[a.next].episodes) == ts
  {
    AddSeasonSound(a, season);
    InsertEpisodeTreesIntoEmpty(Arena(AddSeason(a.graph, a.next, season), a.next + 1), a.next, ts);
  }

  /** The inserted season's episode list reads back as the tree's episodes, in order. */
  lemma InsertSeasonTreeEpisodes(a: Arena, t: SeasonTree)
    requires Sound(a) && Detached(t)
    ensures var r := InsertSeasonTree(a, t);
      a.next in r.graph.seasons && ReadEpisodes(r.graph, r.graph.seasons[a.next].episodes) == t.episodes
  {
    InsertEpisodeTreesUnderNewSeason(a, t.season, t.episodes);
  }

  /**
   * The round trip: a season tree inserted into a sound store reads back through the
   * inserted links as the same tree, episodes and locations in order.
   */
  lemma InsertSeasonTreeReadBack(a: Arena, t: SeasonTree)
    requires Sound(a) && Detached(t)
    ensures var r := InsertSeasonTree(a, t);
      a.next in r.graph.seasons && ReadSeason(r.graph, a.next) == t
  {
    InsertSeasonTreeKeepsFields(a, t);
    InsertSeasonTreeEpisodes(a, t);
  }

  // ---------------------------------------------------------------- the catalog

  /** Ids in [mid, hi) that are not seasons add nothing to the catalog. */
  lemma {:induction false} CatalogIgnoresTop(g: Graph, lo: nat, mid: nat, hi: nat)
    requires mid <= hi && forall s :: mid <= s < hi ==> s !in g.seasons
    ensures Catalog(g, lo, hi) == Catalog(g, lo, mid)
    decreases hi
  {
    if mid < hi {
      CatalogIgnoresTop(g, lo, mid, hi - 1);
    }
  }

  /** Ids below `lo` that are not seasons add nothing to the catalog. */
  lemma {:induction false} CatalogIgnoresBottom(g: Graph, lo: nat, hi: nat)
    requires forall s :: s < lo ==> s !in g.seasons
    ensures Catalog(g, 0, hi) == Catalog(g, lo, hi)
    decreases hi
  {
    if hi <= lo {
      CatalogIgnoresTop(g, 0, 0, hi);
    } else {
      CatalogIgnoresBottom(g, lo, hi - 1);
    }
  }

  /** The catalog reads the same in a graph that keeps everything and adds no season in range. */
  lemma {:induction false} CatalogFrame(g1: Graph, g2: Graph, lo: nat, hi: nat, x: nat)
    requires Closed(g1) && Keeps(g1, g2, x)
    requires x !in g1.seasons && x !in g1.episodes && x !in g1.locations
    requires forall s :: lo <= s < hi ==> (s in g2.seasons <==> s in g1.seasons)
    ensures Catalog(g2, lo, hi) == Catalog(g1, lo, hi)
    decreases hi
  {
    if lo < hi {
      CatalogFrame(g1, g2, lo, hi - 1, x);
      if hi - 1 in g1.seasons {
        SeasonListFrame(g1, g2, hi - 1, x);
      }
    }
  }

  /**
   * Loading one season into a sound arena keeps it sound and keeps everything that existed;
   * the only season it can add is the one under the arena's next id.
   */
  lemma LoadSeasonStepFrame(m: Arena, b: Resources.Bundle, n: int)
    requires Sound(m)
    ensures var r := LoadSeasonStep(m, b, n);
      && Sound(r) && r.next >= m.next && Keeps(m.graph, r.graph, m.next)
      && m.graph.seasons.Keys <= r.graph.seasons.Keys <= m.graph.seasons.Keys + {m.next}
  {
    match Resources.LookupSeason(b, n) {
      case Loaded(sd) =>
        var t := SeasonTreeOf(sd, b);
        SeasonTreeOfIsDetached(sd, b);
        InsertSeasonTreeSound(m, t);
        InsertSeasonTreeKeeps(m, t);
      case _ =>
    }
  }

  /** Loading a range of seasons keeps everything and adds seasons only from the arena's next id on. */
  lemma {:induction false} LoadSeasonRangeFrame(a: Arena, b: Resources.Bundle, first: int, stop: int)
    requires Sound(a)
    ensures var r := LoadSeasonRange(a, b, first, stop);
      && Sound(r) && r.next >= a.next && Keeps(a.graph, r.graph, a.next)
      && (forall s :: s < a.next ==> (s in r.graph.seasons <==> s in a.graph.seasons))
    decreases stop - first
  {
    if first < stop {
      var m := LoadSeasonRange(a, b, first, stop - 1);
      LoadSeasonRangeFrame(a, b, first, stop - 1);
      LoadSeasonStepFrame(m, b, stop - 1);
      KeepsCompose(a.graph, m.graph, LoadSeasonStep(m, b, stop - 1).graph, a.next, m.next);
    }
  }

  /** Below a season `x` that was added above every id in use, the catalog reads as before. */
  lemma CatalogBelowNewSeason(g1: Graph, g2: Graph, lo: nat, x: nat)
    requires Closed(g1) && Fresh(g1, x) && Keeps(g1, g2, x)
    requires g2.seasons.Keys == g1.seasons.Keys + {x}
    ensures Catalog(g2, lo, x) == Catalog(g1, lo, x)
  {
    assert x !in g1.seasons && x !in g1.episodes && x !in g1.locations;
    assert forall s :: lo <= s < x ==> (s in g2.seasons <==> s in g1.seasons);
    CatalogFrame(g1, g2, lo, x, x);
  }

  /**
   * A graph that gained the season `x` above every id in use, and kept everything else,
   * has the catalog it had up to `x`, followed by the new season.
   */
  lemma CatalogGainsSeason(g1: Graph, g2: Graph, lo: nat, x: nat, hi: nat, t: SeasonTree)
    requires Closed(g1) && Fresh(g1, x) && Keeps(g1, g2, x) && lo <= x < hi
    requires g2.seasons.Keys == g1.seasons.Keys + {x} && ReadSeason(g2, x) == t
    ensures Catalog(g2, lo, hi) == Catalog(g1, lo, x) + [t]
  {
    forall s | x + 1 <= s < hi
      ensures s !in g2.seasons
    {
      assert s !in g1.seasons;
    }
    CatalogIgnoresTop(g2, lo, x + 1, hi);
    CatalogBelowNewSeason(g1, g2, lo, x);
    assert Catalog(g2, lo, x + 1) == Catalog(g2, lo, x) + [t];
  }

  /** Loading one season appends what it contributes to the catalog above `lo`. */
  lemma LoadSeasonStepCatalog(m: Arena, b: Resources.Bundle, n: int, lo: nat)
    requires Sound(m) && lo <= m.next
    ensures var r := LoadSeasonStep(m, b, n);
      Catalog(r.graph, lo, r.next) == Catalog(m.graph, lo, m.next) + ExpectedSeason(b, n)
  {
    match Resources.LookupSeason(b, n) {
      case Loaded(sd) =>
        var t := SeasonTreeOf(sd, b);
        var r := InsertSeasonTree(m, t);
        SeasonTreeOfIsDetached(sd, b);
        InsertSeasonTreeKeeps(m, t);
        InsertSeasonTreeReadBack(m, t);
        CatalogGainsSeason(m.graph, r.graph, lo, m.next, r.next, t);
      case _ =>
    }
  }

  /**
   * Loading seasons `first` up to `stop` into a sound arena: the seasons it adds read back as
   * the records of the seasons that decode, in season-number order.
   */
  lemma {:induction false} LoadSeasonRangeCatalog(a: Arena, b: Resources.Bundle, first: int, stop: int)
    requires Sound(a)
    ensures var r := LoadSeasonRange(a, b, first, stop);
      Catalog(r.graph, a.next, r.next) == ExpectedCatalog(b, first, stop)
    decreases stop - first
  {
    if first < stop {
      var m := LoadSeasonRange(a, b, first, stop - 1);
      LoadSeasonRangeCatalog(a, b, first, stop - 1);
      LoadSeasonRangeFrame(a, b, first, stop - 1);
      LoadSeasonStepCatalog(m, b, stop - 1, a.next);
    }
  }

  /** Loading into a store that was not emptied: what was there stays, and the loaded seasons follow it. */
  lemma LoadOnTopAppends(a: Arena, b: Resources.Bundle, first: int, stop: int)
    requires Sound(a)
    ensures var r := LoadSeasonRange(a, b, first, stop);
      Catalog(r.graph, 0, r.next) == Catalog(a.graph, 0, a.next) + ExpectedCatalog(b, first, stop)
  {
    var r := LoadSeasonRange(a, b, first, stop);
    LoadSeasonRangeFrame(a, b, first, stop);
    LoadSeasonRangeCatalog(a, b, first, stop);
    CatalogSplit(r.graph, 0, a.next, r.next);
    CatalogFrame(a.graph, r.graph, 0, a.next, a.next);
  }

  /** The catalog of [lo, hi) is that of [lo, mid) followed by that of [mid, hi). */
  lemma {:induction false} CatalogSplit(g: Graph, lo: nat, mid: nat, hi: nat)
    requires lo <= mid <= hi
    ensures Catalog(g, lo, hi) == Catalog(g, lo, mid) + Catalog(g, mid, hi)
    decreases hi
  {
    if mid < hi {
      CatalogSplit(g, lo, mid, hi - 1);
    }
  }

  // ---------------------------------------------------------------- reloading

  /** Seasons 1 to 5 loaded into an emptied store whose next id is `next`. */
  function Reload(next: nat, b: Resources.Bundle): Arena {
    LoadSeasonRange(Arena(Empty, next), b, FirstSeasonNumber, LastSeasonNumber + 1)
  }

  /**
   * After a reload the store holds exactly the seasons of the bundle that decode, each with
   * its episodes and locations in file order, and nothing else.
   */
  lemma ReloadReadsBack(next: nat, b: Resources.Bundle)
    ensures var r := Reload(next, b);
      && Sound(r)
      && (forall s :: s in r.graph.seasons ==> s < r.next)
      && Catalog(r.graph, 0, r.next) == ExpectedCatalog(b, FirstSeasonNumber, LastSeasonNumber + 1)
  {
    var a := Arena(Empty, next);
    LoadSeasonRangeFrame(a, b, FirstSeasonNumber, LastSeasonNumber + 1);
    LoadSeasonRangeCatalog(a, b, FirstSeasonNumber, LastSeasonNumber + 1);
    var r := Reload(next, b);
    CatalogIgnoresBottom(r.graph, next, r.next);
  }

  /** Reloading gives the same catalog whatever ids the store had handed out before. */
  lemma ReloadIsIdempotent(next1: nat, next2: nat, b: Resources.Bundle)
    ensures Catalog(Reload(next1, b).graph, 0, Reload(next1, b).next)
         == Catalog(Reload(next2, b).graph, 0, Reload(next2, b).next)
  {
    ReloadReadsBack(next1, b);
    ReloadReadsBack(next2, b);
  }
}
