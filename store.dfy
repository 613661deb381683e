/**
 * SwiftData's ModelContext over the content graph: insertion with the inverse relationship
 * kept, deletion with the declared cascades, `delete(model:)` from the app's extension, the
 * sorted Season fetch, and `save`.
 */
module Store {
  import opened Wrappers
  import opened Graph
  import Sorting

  /** An error thrown by a fetch or by `save`; `description` is its `localizedDescription`. */
  datatype StoreError = StoreError(description: string)

  /** `SortDescriptor(\.seasonNumber)` applied to seasons held in `seasons`. */
  function SeasonsByNumber(seasons: map<nat, Season>, ids: seq<nat>): (r: seq<nat>)
    requires forall id :: id in ids ==> id in seasons
    ensures multiset(r) == multiset(ids)
    ensures forall id :: id in r ==> id in ids
    ensures forall i, j :: 0 <= i < j < |r| ==> seasons[r[i]].seasonNumber <= seasons[r[j]].seasonNumber
  {
    var seasonNumber := (id: nat) => if id in seasons then seasons[id].seasonNumber else 0;
    var sorted := Sorting.SortByIntKey(ids, seasonNumber);
    forall id | id in sorted ensures id in ids {
      assert id in multiset(sorted);
    }
    forall i, j | 0 <= i < j < |sorted| ensures seasons[sorted[i]].seasonNumber <= seasons[sorted[j]].seasonNumber {
      assert seasonNumber(sorted[i]) <= seasonNumber(sorted[j]);
    }
    sorted
  }

  /**
   * The context holds the live graph (three maps from ids to records). Whether a fetch of a
   * kind or a save throws is fixed when the context is made (`fetchFailures`, `saveFailure`),
   * standing in for the persistent store behind it. `saved` is the last saved graph.
   */
  class ModelContext {
    var graph: Graph
    var nextId: nat
    var saved: Graph
    const fetchFailures: map<Kind, StoreError>
    const saveFailure: Option<StoreError>

    /** The graph is well formed, ids name one entity each, and every id from `nextId` on is unused. */
    ghost predicate Valid()
      reads this`graph, this`nextId
    {
      Consistent(graph, nextId)
    }

    constructor (initial: Graph, next: nat, fetchFailures: map<Kind, StoreError>, saveFailure: Option<StoreError>)
      requires Wellformed(initial) && Fresh(initial, next) && Distinct(initial)
      ensures Valid()
      ensures graph == initial && saved == initial && nextId == next
      ensures this.fetchFailures == fetchFailures && this.saveFailure == saveFailure
    {
      graph := initial;
      nextId := next;
      saved := initial;
      this.fetchFailures := fetchFailures;
      this.saveFailure := saveFailure;
    }

    /** `insert(season)` of a season that owns nothing yet. */
    method InsertSeason(s: Season) returns (id: nat)
      requires Valid() && s.episodes == []
      modifies this`graph, this`nextId
      ensures Valid()
      ensures id == old(nextId) && nextId == id + 1
      ensures graph == AddSeason(old(graph), id, s)
    {
      id := nextId;
      var g := AddSeason(graph, id, s);
      AddSeasonConsistent(graph, id, s);
      graph, nextId := g, id + 1;
      assert Consistent(graph, nextId);
    }

    /** `episode.season = parent` then `insert(episode)`: the parent's list gains the episode. */
    method InsertEpisode(e: Episode, parent: nat) returns (id: nat)
      requires Valid() && parent in graph.seasons && e.locations == []
      modifies this`graph, this`nextId
      ensures Valid()
      ensures id == old(nextId) && nextId == id + 1
      ensures graph == AddEpisode(old(graph), id, e, parent)
    {
      id := nextId;
      var g := AddEpisode(graph, id, e, parent);
      AddEpisodeConsistent(graph, id, e, parent);
      graph, nextId := g, id + 1;
      assert Consistent(graph, nextId);
    }

    /** `location.episode = parent` then `insert(location)`: the parent's list gains the location. */
    method InsertLocation(l: Location, parent: nat) returns (id: nat)
      requires Valid() && parent in graph.episodes
      modifies this`graph, this`nextId
      ensures Valid()
      ensures id == old(nextId) && nextId == id + 1
      ensures graph == AddLocation(old(graph), id, l, parent)
    {
      id := nextId;
      var g := AddLocation(graph, id, l, parent);
      AddLocationConsistent(graph, id, l, parent);
      graph, nextId := g, id + 1;
      assert Consistent(graph, nextId);
    }

    /** `delete(_:)` of one entity, with the cascades its relationships declare. */
    method Delete(kind: Kind, id: nat)
      requires Valid() && id in Ids(graph, kind)
      modifies this`graph
      ensures Valid()
      ensures graph == Remove(old(graph), kind, id)
      ensures Ids(graph, kind) == Ids(old(graph), kind) - {id}
      ensures Cleared(graph, kind) == Cleared(old(graph), kind)
    {
      var g := Remove(graph, kind, id);
      RemoveOneOfKind(graph, kind, id);
      RemoveFresh(graph, kind, id, nextId);
      graph := g;
      assert Consistent(graph, nextId);
    }

    /**
     * `delete(model:)`: fetch every entity of the kind, then delete them one by one. A fetch
     * that throws propagates before anything is deleted; otherwise the store ends as
     * `Cleared`, whatever order the fetched entities come in.
     */
    method DeleteAll(kind: Kind) returns (r: Outcome<StoreError>)
      requires Valid()
      modifies this`graph
      ensures Valid()
      ensures kind in fetchFailures ==> r == Fail(fetchFailures[kind]) && graph == old(graph)
      ensures kind !in fetchFailures ==> r == Pass && graph == Cleared(old(graph), kind)
    {
      if kind in fetchFailures {
        return Fail(fetchFailures[kind]);
      }
      ghost var target := Cleared(graph, kind);
      var items := Ids(graph, kind);
      while items != {}
        invariant Valid() && items == Ids(graph, kind) && Cleared(graph, kind) == target
        decreases items
      {
        var id :| id in items;
        Delete(kind, id);
        items := items - {id};
      }
      EmptiedKindIsCleared(graph, kind);
      return Pass;
    }

    /**
     * `fetch(FetchDescriptor<Season>(sortBy: [SortDescriptor(\.seasonNumber)]))`: every
     * season exactly once, in non-decreasing season number. Seasons with equal numbers come
     * in no promised order.
     */
    method FetchSeasonsBySeasonNumber() returns (r: Result<seq<nat>, StoreError>)
      ensures SeasonKind in fetchFailures ==> r == Failure(fetchFailures[SeasonKind])
      ensures SeasonKind !in fetchFailures ==> r.Success?
      ensures r.Success? ==> forall id :: id in r.value ==> id in graph.seasons
      ensures r.Success? ==> multiset(r.value) == multiset(graph.seasons.Keys)
      ensures r.Success? ==> forall i, j :: 0 <= i < j < |r.value| ==>
                graph.seasons[r.value[i]].seasonNumber <= graph.seasons[r.value[j]].seasonNumber
    {
      if SeasonKind in fetchFailures {
        return Failure(fetchFailures[SeasonKind]);
      }
      var fetched: seq<nat> := [];
      var pending := graph.seasons.Keys;
      while pending != {}
        invariant multiset(fetched) + multiset(pending) == multiset(graph.seasons.Keys)
        invariant pending <= graph.seasons.Keys
        invariant forall id :: id in fetched ==> id in graph.seasons
        decreases pending
      {
        var id :| id in pending;
        fetched := fetched + [id];
        pending := pending - {id};
      }
      return Success(SeasonsByNumber(graph.seasons, fetched));
    }

    /** `save()`: the live graph becomes the saved one, unless saving throws. */
    method Save() returns (r: Outcome<StoreError>)
      modifies this`saved
      ensures saveFailure.Some? ==> r == Fail(saveFailure.value) && saved == old(saved)
      ensures saveFailure.None? ==> r == Pass && saved == graph
    {
      if saveFailure.Some? {
        return Fail(saveFailure.value);
      }
      saved := graph;
      return Pass;
    }
  }
}
