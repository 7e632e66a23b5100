/** `geodesic_distance` of the simulator wrapper
    (habitat/sims/habitat_simulator/habitat_simulator.py): the shortest-path
    query built from the goal, or taken from the episode's cache, and the
    write-back of that query into the episode. The path finder itself is an
    oracle from (ends, start) to a distance. */
module Navigation {
  import opened Results

  /** The second argument: a single point or a list of points. An empty
      list has no first element to inspect. */
  datatype Goal = Flat(point: seq<real>) | Nested(points: seq<seq<real>>)

  /** A `MultiGoalShortestPath` after `find_path` has filled it in. */
  datatype PathQuery = PathQuery(requestedEnds: seq<seq<real>>, requestedStart: seq<real>, geodesicDistance: real)

  /** The part of an episode this call reads and writes. */
  datatype Episode = Episode(episodeId: string, shortestPathCache: Option<PathQuery>)

  /** `find_path`: the geodesic distance from a start to the nearest end. */
  type PathFinder = (seq<seq<real>>, seq<real>) -> real

  predicate HasCache(episode: Option<Episode>) {
    episode.Some? && episode.value.shortestPathCache.Some?
  }

  /** `position_b[0]` raises IndexError on an empty goal. */
  predicate EmptyGoal(b: Goal) {
    match b
    case Flat(p) => |p| == 0
    case Nested(ps) => |ps| == 0
  }

  /** `geodesic_distance(position_a, position_b, episode)`: the distance
      and the episode as the call leaves it. */
  function GeodesicDistance(a: seq<real>, b: Goal, episode: Option<Episode>, findPath: PathFinder): (r: Result<(real, Option<Episode>)>)
    ensures r.Failure? <==> !HasCache(episode) && EmptyGoal(b)
    ensures r.Failure? ==> r.error == IndexOutOfRange
    ensures r.Success? && HasCache(episode) ==>
      r.value.0 == findPath(episode.value.shortestPathCache.value.requestedEnds, a)
    ensures r.Success? && !HasCache(episode) && b.Flat? ==> r.value.0 == findPath([b.point], a)
    ensures r.Success? && !HasCache(episode) && b.Nested? ==> r.value.0 == findPath(b.points, a)
    ensures r.Success? ==> (r.value.1.Some? <==> episode.Some?)
    ensures r.Success? && episode.Some? ==>
      r.value.1.value.episodeId == episode.value.episodeId
      && r.value.1.value.shortestPathCache.Some?
      && r.value.1.value.shortestPathCache.value.requestedStart == a
      && r.value.1.value.shortestPathCache.value.geodesicDistance == r.value.0
    ensures r.Success? && episode.Some? ==>
      r.value.1.value.shortestPathCache.value.requestedEnds
        == if HasCache(episode) then episode.value.shortestPathCache.value.requestedEnds
           else if b.Flat? then [b.point] else b.points
  {
    var ends :-
      if HasCache(episode) then Success(episode.value.shortestPathCache.value.requestedEnds)
      else match b
        case Flat(p) => if |p| == 0 then Failure(IndexOutOfRange) else Success([p])
        case Nested(ps) => if |ps| == 0 then Failure(IndexOutOfRange) else Success(ps);
    var path := PathQuery(ends, a, findPath(ends, a));
    var episode' := if episode.Some? then Some(episode.value.(shortestPathCache := Some(path))) else None;
    Success((path.geodesicDistance, episode'))
  }

  // ---------------------------------------------------------------------
  // Properties

  /** Once an episode carries a query, its goal is fixed: any later goal
      passed with that episode is ignored, and only the start moves. */
  lemma CachedGoalIgnored(a: seq<real>, b: Goal, b': Goal, episode: Episode, findPath: PathFinder)
    requires episode.shortestPathCache.Some?
    ensures GeodesicDistance(a, b, Some(episode), findPath) == GeodesicDistance(a, b', Some(episode), findPath)
    ensures GeodesicDistance(a, b, Some(episode), findPath).Success?
    ensures GeodesicDistance(a, b, Some(episode), findPath).value.1.value.shortestPathCache.value.requestedEnds
         == episode.shortestPathCache.value.requestedEnds
  {
  }

  /** A first call with an episode stores the query built from the goal; a
      repeat of the same call then answers the same distance and leaves the
      episode as the first call did. */
  lemma RepeatQueryIsStable(a: seq<real>, b: Goal, episode: Episode, findPath: PathFinder)
    requires GeodesicDistance(a, b, Some(episode), findPath).Success?
    ensures var (d1, ep1) := GeodesicDistance(a, b, Some(episode), findPath).value;
      GeodesicDistance(a, b, ep1, findPath) == Success((d1, ep1))
  {
  }

  /** A single point and the one-element list holding it ask the same
      query: the point is normalised to a list of one end. */
  lemma SinglePointIsOneEnd(a: seq<real>, p: seq<real>, episode: Option<Episode>, findPath: PathFinder)
    requires |p| > 0
    ensures GeodesicDistance(a, Flat(p), episode, findPath) == GeodesicDistance(a, Nested([p]), episode, findPath)
  {
  }

  /** Without an episode nothing is cached anywhere: the call is a pure
      query of the path finder. */
  lemma NoEpisodeNoCache(a: seq<real>, b: Goal, findPath: PathFinder)
    requires !EmptyGoal(b)
    ensures GeodesicDistance(a, b, None, findPath).Success?
    ensures GeodesicDistance(a, b, None, findPath).value.1 == None
  {
  }
}
