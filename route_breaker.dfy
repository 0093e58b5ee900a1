/** Per-upstream, per-model-group circuit breakers
    (`src/state/route_breaker.rs`). Each upstream has a shard mapping model
    groups to breaker states, a flag saying whether the shard has entries,
    and the registry counts the flagged shards. Locks and atomics are left
    out: the registry is a single-threaded object, and the clock reading
    `now` is a parameter. */
module RouteBreaker {
  import opened Wrappers
  import opened Bytes
  import opened Ints
  import opened Errors

  const ROUTE_BREAKER_FAILURE_THRESHOLD: nat := 5
  const RETAIN_ABOVE: nat := 256

  datatype BreakerState = BreakerState(consecutiveFailures: u32, openUntilUnix: u64, halfOpenProbeInFlight: bool)

  const DefaultState := BreakerState(0, 0, false)

  /** Worth trying another upstream: a transport failure, or a status that
      says "try later" or "server trouble". */
  function ShouldTryAlternateUpstream(err: CanonicalError): (r: bool)
    ensures r <==> err.Transport? || (err.Upstream? && err.status in {408, 425, 429, 500, 502, 503, 504, 529})
  {
    match err
    case Transport(_) => true
    case Upstream(status, _) => status in {408, 425, 429, 500, 502, 503, 504, 529}
    case _ => false
  }

  /** Only transport errors, 429, 529 and any 5xx count against a breaker. */
  function ShouldRecordBreakerFailure(err: CanonicalError): (r: bool)
    ensures r <==> err.Transport? || (err.Upstream? && (err.status == 429 || 500 <= err.status <= 599))
  {
    match err
    case Transport(_) => true
    case Upstream(status, _) => status == 429 || status == 529 || 500 <= status <= 599
    case _ => false
  }

  /** Every error that moves an upstream on to an alternate (except a
      timeout, 408, or too-early, 425) also counts against its breaker. */
  lemma AlternateImpliesRecorded(err: CanonicalError)
    ensures ShouldTryAlternateUpstream(err) && !(err.Upstream? && err.status in {408, 425}) ==> ShouldRecordBreakerFailure(err)
  {
  }

  /** How long a breaker stays open: 5, 15, 45 and then 120 seconds for the
      fifth, sixth, seventh and every later consecutive failure. */
  function RouteBreakerOpenSecs(consecutiveFailures: u32): (secs: u64)
    ensures consecutiveFailures <= 5 ==> secs == 5
    ensures consecutiveFailures == 6 ==> secs == 15
    ensures consecutiveFailures == 7 ==> secs == 45
    ensures consecutiveFailures >= 8 ==> secs == 120
  {
    match SaturatingSub(consecutiveFailures, ROUTE_BREAKER_FAILURE_THRESHOLD)
    case 0 => 5
    case 1 => 15
    case 2 => 45
    case _ => 120
  }

  /** Escalation: more failures never shorten the open window. */
  lemma OpenSecsMonotone(a: u32, b: u32)
    requires a <= b
    ensures RouteBreakerOpenSecs(a) <= RouteBreakerOpenSecs(b)
  {
  }

  /** The state after one more recorded failure at `now`. */
  function AfterFailure(s: BreakerState, now: u64): (r: BreakerState)
    ensures r.consecutiveFailures >= 1 && !r.halfOpenProbeInFlight
    ensures s.consecutiveFailures + 1 < U32_LIMIT ==> r.consecutiveFailures == s.consecutiveFailures + 1
    ensures r.consecutiveFailures < ROUTE_BREAKER_FAILURE_THRESHOLD ==> r.openUntilUnix == s.openUntilUnix
    ensures r.consecutiveFailures >= ROUTE_BREAKER_FAILURE_THRESHOLD ==>
              r.openUntilUnix == SaturatingAdd(now, RouteBreakerOpenSecs(r.consecutiveFailures))
  {
    var failures: u32 := if s.consecutiveFailures + 1 < U32_LIMIT then s.consecutiveFailures + 1 else s.consecutiveFailures;
    var openUntil := if failures >= ROUTE_BREAKER_FAILURE_THRESHOLD
                     then SaturatingAdd(now, RouteBreakerOpenSecs(failures)) else s.openUntilUnix;
    BreakerState(failures, openUntil, false)
  }

  /** What `allows_request` decides for one model group, and the state it
      leaves: no entry or a breaker never opened admits; an open breaker
      refuses until `openUntilUnix`; after that exactly one probe is
      admitted, marked in flight, and the rest are refused. */
  function Admit(entry: Option<BreakerState>, now: u64): (r: (bool, Option<BreakerState>))
    ensures entry.None? ==> r == (true, None)
    ensures entry.Some? && entry.value.openUntilUnix != 0 && now < entry.value.openUntilUnix ==> r == (false, entry)
    ensures r.1.Some? <==> entry.Some?
  {
    match entry
    case None => (true, None)
    case Some(s) =>
      if s.openUntilUnix == 0 then (true, entry)
      else if now < s.openUntilUnix then (false, entry)
      else if s.halfOpenProbeInFlight then (false, entry)
      else (true, Some(s.(halfOpenProbeInFlight := true)))
  }

  /** Once a half-open probe has been admitted, no further request for the
      group is admitted, at any time, until an outcome is recorded. */
  lemma SingleHalfOpenProbe(s: BreakerState, now: u64, later: u64)
    requires s.openUntilUnix != 0 && now >= s.openUntilUnix
    requires Admit(Some(s), now).0
    ensures !Admit(Admit(Some(s), now).1, later).0
  {
  }

  /** Four failures in a row from a clean slate leave the breaker closed;
      the fifth opens it for five seconds. */
  lemma FifthFailureOpens(now: u64)
    ensures var s4 := AfterFailure(AfterFailure(AfterFailure(AfterFailure(DefaultState, now), now), now), now);
      && Admit(Some(s4), now).0
      && AfterFailure(s4, now).openUntilUnix == SaturatingAdd(now, 5)
  {
  }

  /** Number of set flags. */
  function CountTrue(flags: seq<bool>): (n: nat)
    ensures n <= |flags|
  {
    if |flags| == 0 then 0 else CountTrue(flags[..|flags| - 1]) + (if flags[|flags| - 1] then 1 else 0)
  }

  lemma {:induction false} CountTrueSet(flags: seq<bool>, i: nat, v: bool)
    requires i < |flags|
    ensures CountTrue(flags[i := v]) ==
            CountTrue(flags) - (if flags[i] then 1 else 0) + (if v then 1 else 0)
    decreases |flags|
  {
    var last := |flags| - 1;
    if i < last {
      CountTrueSet(flags[..last], i, v);
      assert flags[i := v][..last] == flags[..last][i := v];
    } else {
      assert flags[i := v][..last] == flags[..last];
    }
  }

  /** `retain`: keep the breakers that are open or still failing. A shard
      whose every breaker has failed keeps them all. */
  function RetainOpenOrFailing(m: map<bytes, BreakerState>, now: u64): (r: map<bytes, BreakerState>)
    ensures forall g :: g in r <==> g in m && (m[g].openUntilUnix > now || m[g].consecutiveFailures > 0)
    ensures forall g | g in r :: r[g] == m[g]
    ensures (forall g | g in m :: m[g].consecutiveFailures > 0) ==> r == m
  {
    map g | g in m && (m[g].openUntilUnix > now || m[g].consecutiveFailures > 0) :: m[g]
  }

  /** As written, the pruning of an oversized shard drops nothing: a
      stored breaker has failed at least once, so a closed breaker whose
      window ran out long ago survives, and a shard of 257 such breakers
      keeps all 257. */
  lemma AsWrittenRetainKeepsClosed(m: map<bytes, BreakerState>, now: u64, g: bytes)
    requires forall h | h in m :: m[h].consecutiveFailures > 0
    requires g in m && m[g].openUntilUnix <= now
    ensures g in RetainOpenOrFailing(m, now)
    ensures |RetainOpenOrFailing(m, now)| == |m|
  {
  }

  /** The pruning the cap evidently asks for: keep only the breakers whose
      open window has not yet run out. */
  function PruneShard(m: map<bytes, BreakerState>, now: u64): (r: map<bytes, BreakerState>)
    ensures forall g :: g in r <==> g in m && m[g].openUntilUnix > now
    ensures forall g | g in r :: r[g] == m[g]
  {
    map g | g in m && m[g].openUntilUnix > now :: m[g]
  }

  lemma {:induction false} SubsetCard(a: set<bytes>, b: set<bytes>)
    requires a <= b
    ensures |a| <= |b|
    decreases |b|
  {
    if a != {} {
      var x :| x in a;
      SubsetCard(a - {x}, b - {x});
    }
  }

  /** Corrected, the pruning sheds every breaker that is not open, so a
      shard holding one shrinks, and it keeps every open breaker as it
      was. */
  lemma PruneShardShrinks(m: map<bytes, BreakerState>, now: u64, g: bytes)
    requires g in m && m[g].openUntilUnix <= now
    ensures g !in PruneShard(m, now)
    ensures |PruneShard(m, now)| < |m|
  {
    var r := PruneShard(m, now);
    assert r.Keys <= m.Keys - {g};
    SubsetCard(r.Keys, m.Keys - {g});
  }

  /** A shard is flagged exactly when it has entries; the active count is
      the number of flagged shards; every stored breaker has failed at least
      once. */
  predicate RegistryInvariant(shards: seq<map<bytes, BreakerState>>, hasEntries: seq<bool>, activeShards: nat) {
    && |hasEntries| == |shards|
    && activeShards == CountTrue(hasEntries)
    && (forall i | 0 <= i < |shards| :: hasEntries[i] <==> shards[i] != map[])
    && (forall i, g | 0 <= i < |shards| && g in shards[i] :: shards[i][g].consecutiveFailures >= 1)
  }

  /** Storing a non-empty shard of failed breakers, and flagging it, keeps
      the invariant. */
  lemma StoreShardKeepsInvariant(shards: seq<map<bytes, BreakerState>>, hasEntries: seq<bool>, activeShards: nat,
                                 i: nat, m: map<bytes, BreakerState>)
    requires RegistryInvariant(shards, hasEntries, activeShards) && i < |shards|
    requires m != map[] && forall g | g in m :: m[g].consecutiveFailures >= 1
    ensures RegistryInvariant(shards[i := m], hasEntries[i := true], if hasEntries[i] then activeShards else activeShards + 1)
  {
    CountTrueSet(hasEntries, i, true);
  }

  class RouteBreakerRegistry {
    var shards: seq<map<bytes, BreakerState>>
    var hasEntries: seq<bool>
    var activeShards: nat

    predicate Valid()
      reads this
    {
      RegistryInvariant(shards, hasEntries, activeShards)
    }

    /** The breaker state of a group, if it has one. */
    function Entry(upstreamIndex: nat, group: bytes): Option<BreakerState>
      reads this
    {
      if upstreamIndex < |shards| && group in shards[upstreamIndex] then Some(shards[upstreamIndex][group]) else None
    }

    constructor (upstreamCount: nat)
      ensures Valid()
      ensures |shards| == upstreamCount
      ensures forall i, g | 0 <= i < upstreamCount :: Entry(i, g).None?
    {
      shards := seq(upstreamCount, _ => map[]);
      hasEntries := seq(upstreamCount, _ => false);
      activeShards := 0;
      new;
      CountAllFalse(upstreamCount);
    }

    static lemma {:induction false} CountAllFalse(n: nat)
      ensures CountTrue(seq(n, _ => false)) == 0
    {
      if n > 0 {
        CountAllFalse(n - 1);
        assert seq(n, _ => false)[..n - 1] == seq(n - 1, _ => false);
      }
    }

    /** `has_any_entries`. */
    function HasAnyEntries(): (r: bool)
      reads this
      requires Valid()
      ensures r <==> exists i | 0 <= i < |shards| :: shards[i] != map[]
    {
      CountTruePositive(hasEntries);
      activeShards != 0
    }

    static lemma {:induction false} CountTruePositive(flags: seq<bool>)
      ensures CountTrue(flags) != 0 <==> exists i | 0 <= i < |flags| :: flags[i]
      decreases |flags|
    {
      if |flags| > 0 {
        var last := |flags| - 1;
        CountTruePositive(flags[..last]);
        if exists i | 0 <= i < |flags| :: flags[i] {
          var i :| 0 <= i < |flags| && flags[i];
          if i < last {
            assert flags[..last][i];
          }
        }
      }
    }

    /** `record_success`: the group's breaker is forgotten, and an emptied
        shard loses its flag. */
    method RecordSuccess(upstreamIndex: nat, group: bytes)
      requires Valid()
      modifies this
      ensures Valid()
      ensures upstreamIndex < |old(shards)| ==> shards == old(shards)[upstreamIndex := old(shards)[upstreamIndex] - {group}]
      ensures upstreamIndex >= |old(shards)| ==> shards == old(shards)
    {
      if upstreamIndex >= |shards| {
        return;
      }
      if !hasEntries[upstreamIndex] {
        assert shards[upstreamIndex] - {group} == shards[upstreamIndex];
        assert shards[upstreamIndex := shards[upstreamIndex] - {group}] == shards;
        return;
      }
      var m := shards[upstreamIndex] - {group};
      shards := shards[upstreamIndex := m];
      if m == map[] {
        CountTrueSet(hasEntries, upstreamIndex, false);
        hasEntries := hasEntries[upstreamIndex := false];
        activeShards := activeShards - 1;
      }
    }

    /** `record_failure`: errors that do not count change nothing; otherwise
        the group's breaker records one more failure (opening it from the
        fifth on), and an oversized shard drops entries that are neither open
        nor failing — which, since every stored entry has failed, are none. */
    method RecordFailure(upstreamIndex: nat, group: bytes, err: CanonicalError, now: u64)
      requires Valid()
      modifies this
      ensures Valid()
      ensures !ShouldRecordBreakerFailure(err) || upstreamIndex >= |old(shards)| ==> shards == old(shards)
      ensures ShouldRecordBreakerFailure(err) && upstreamIndex < |old(shards)| ==>
                shards == old(shards)[upstreamIndex := old(shards)[upstreamIndex][group :=
                  AfterFailure(old(Entry(upstreamIndex, group)).GetOr(DefaultState), now)]]
    {
      if !ShouldRecordBreakerFailure(err) || upstreamIndex >= |shards| {
        return;
      }
      var m := shards[upstreamIndex];
      var wasEmpty := m == map[];
      var state := if group in m then m[group] else DefaultState;
      m := m[group := AfterFailure(state, now)];
      assert group in m;
      assert forall g | g in m :: m[g].consecutiveFailures > 0;
      if |m| > RETAIN_ABOVE {
        m := RetainOpenOrFailing(m, now);
      }
      StoreShardKeepsInvariant(shards, hasEntries, activeShards, upstreamIndex, m);
      assert !wasEmpty ==> hasEntries[upstreamIndex] && hasEntries[upstreamIndex := true] == hasEntries;
      shards := shards[upstreamIndex := m];
      if wasEmpty && !hasEntries[upstreamIndex] {
        hasEntries := hasEntries[upstreamIndex := true];
        activeShards := activeShards + 1;
      }
    }

    /** `record_outcome`: a success is `record_success`, an error is
        `record_failure`. */
    method RecordOutcome(upstreamIndex: nat, group: bytes, outcome: Result<(), CanonicalError>, now: u64)
      requires Valid()
      modifies this
      ensures Valid()
      ensures outcome.Ok? ==> Entry(upstreamIndex, group).None?
      ensures outcome.Ok? && upstreamIndex < |old(shards)| ==>
                shards == old(shards)[upstreamIndex := old(shards)[upstreamIndex] - {group}]
      ensures outcome.Err? && ShouldRecordBreakerFailure(outcome.error) && upstreamIndex < |old(shards)| ==>
                shards == old(shards)[upstreamIndex := old(shards)[upstreamIndex][group :=
                  AfterFailure(old(Entry(upstreamIndex, group)).GetOr(DefaultState), now)]]
      ensures (outcome.Err? && !ShouldRecordBreakerFailure(outcome.error)) || upstreamIndex >= |old(shards)| ==>
                shards == old(shards)
    {
      match outcome
      case Ok(_) => RecordSuccess(upstreamIndex, group);
      case Err(err) => RecordFailure(upstreamIndex, group, err, now);
    }

    /** `allows_request` / `allows_route`: an unknown upstream or group is
        admitted; otherwise the breaker decides, and admitting a half-open
        probe marks it in flight. */
    method AllowsRequest(upstreamIndex: nat, group: bytes, now: u64) returns (allowed: bool)
      requires Valid()
      modifies this
      ensures Valid()
      ensures allowed == Admit(old(Entry(upstreamIndex, group)), now).0
      ensures Entry(upstreamIndex, group) == Admit(old(Entry(upstreamIndex, group)), now).1
      ensures |shards| == |old(shards)|
      ensures forall i: nat, g: bytes | i != upstreamIndex || g != group :: Entry(i, g) == old(Entry(i, g))
    {
      if upstreamIndex >= |shards| || !hasEntries[upstreamIndex] {
        return true;
      }
      var m := shards[upstreamIndex];
      if group !in m {
        return true;
      }
      var state := m[group];
      if state.openUntilUnix == 0 {
        return true;
      }
      if now < state.openUntilUnix {
        return false;
      }
      if state.halfOpenProbeInFlight {
        return false;
      }
      shards := shards[upstreamIndex := m[group := state.(halfOpenProbeInFlight := true)]];
      return true;
    }
  }

  /** After a success the next request for that group is admitted. */
  method SuccessReopensRoute(r: RouteBreakerRegistry, upstreamIndex: nat, group: bytes, now: u64)
    returns (allowed: bool)
    requires r.Valid()
    modifies r
    ensures allowed
  {
    r.RecordSuccess(upstreamIndex, group);
    allowed := r.AllowsRequest(upstreamIndex, group, now);
  }
}
