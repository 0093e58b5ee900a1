/** Where a compatibility flow starts in its failover list, and when a
    failed stream moves on (`src/api/engine/compat_flow/bootstrap.rs`). */
module Bootstrap {
  import opened Errors
  import opened Routing
  import RouteBreaker

  /** The candidate names the same upstream and the same real model. */
  predicate SameRoute(candidate: RouteTarget, route: RouteTarget) {
    candidate.upstreamIndex == route.upstreamIndex && candidate.actualModel == route.actualModel
  }

  /** `iter().position(...)` from `from` on. */
  function PositionFrom(candidates: seq<RouteTarget>, route: RouteTarget, from: nat): (p: int)
    ensures p == -1 || from <= p < |candidates|
    ensures p >= 0 ==> SameRoute(candidates[p], route) && forall k | from <= k < p :: !SameRoute(candidates[k], route)
    ensures p == -1 ==> forall k | from <= k < |candidates| :: !SameRoute(candidates[k], route)
    decreases |candidates| - from
  {
    if from >= |candidates| then -1
    else if SameRoute(candidates[from], route) then from
    else PositionFrom(candidates, route, from + 1)
  }

  /** `start_candidate_index`: 0 when the first candidate is the route,
      else the first position holding it, else 0. */
  function StartCandidateIndex(candidates: seq<RouteTarget>, route: RouteTarget): (i: nat)
    ensures |candidates| > 0 ==> i < |candidates|
    ensures i > 0 ==> i < |candidates| && SameRoute(candidates[i], route) && forall k | 0 <= k < i :: !SameRoute(candidates[k], route)
    ensures i == 0 ==> |candidates| == 0 || SameRoute(candidates[0], route) ||
                       forall k | 0 <= k < |candidates| :: !SameRoute(candidates[k], route)
  {
    if |candidates| > 0 && SameRoute(candidates[0], route) then 0
    else
      var p := PositionFrom(candidates, route, 0);
      if p >= 0 then p else 0
  }

  /** A route that occurs in the list is found at its first occurrence. */
  lemma StartIsFirstOccurrence(candidates: seq<RouteTarget>, route: RouteTarget, k: nat)
    requires k < |candidates| && SameRoute(candidates[k], route)
    ensures StartCandidateIndex(candidates, route) <= k
    ensures SameRoute(candidates[StartCandidateIndex(candidates, route)], route)
  {
  }

  /** `should_continue_stream_failover`: another candidate remains and the
      error is one worth trying elsewhere. */
  function ShouldContinueStreamFailover(err: CanonicalError, idx: nat, total: nat): (r: bool)
    ensures idx + 1 >= total ==> !r
    ensures idx + 1 < total ==> r == RouteBreaker.ShouldTryAlternateUpstream(err)
  {
    idx + 1 < total && RouteBreaker.ShouldTryAlternateUpstream(err)
  }
}
