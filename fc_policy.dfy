/** The per-upstream function-calling policy and the auto-inject cache
    (`src/state/fc_policy.rs`). An `auto` or `native` upstream that once
    needed injection for a model is remembered for fifteen minutes, so
    later requests for that model inject at once. The clock is a
    parameter (`now`, in Unix seconds). */
module FcPolicies {
  import opened Wrappers
  import opened Bytes
  import opened Ints
  import opened Routing
  import C = Config
  import A = FcActions

  datatype FcPolicy = Inject | Native | Auto

  datatype FcDecision = FcDecision(fcActive: bool, autoFallbackAllowed: bool)

  /** One upstream's cache: an expiry per known model id, and an expiry per
      model name for models outside the known table. */
  datatype AutoInjectCacheShard = AutoInjectCacheShard(knownModels: seq<u64>, dynamicModels: map<bytes, u64>)

  const AUTO_INJECT_CACHE_TTL_SECS: u64 := 15 * 60
  const DYNAMIC_MODELS_SOFT_LIMIT: nat := 128

  /** The policy of one upstream: its mode, or `Native` when function
      calling is disabled. */
  function PolicyOf(enableFc: bool, upstream: C.UpstreamServiceConfig): (p: FcPolicy)
    ensures !enableFc ==> p == Native
    ensures enableFc ==> (p == Inject <==> upstream.fcMode == C.Inject) && (p == Auto <==> upstream.fcMode == C.Auto)
  {
    if enableFc then
      match upstream.fcMode
      case Inject => Inject
      case Native => Native
      case Auto => Auto
    else Native
  }

  function PoliciesOf(config: C.AppConfig): (r: seq<FcPolicy>)
    ensures |r| == |config.upstreamServices|
    ensures forall i | 0 <= i < |r| :: r[i] == PolicyOf(config.features.enableFunctionCalling, config.upstreamServices[i])
  {
    seq(|config.upstreamServices|, i requires 0 <= i < |config.upstreamServices| =>
      PolicyOf(config.features.enableFunctionCalling, config.upstreamServices[i]))
  }

  /** The shard's answer for a route: a known id is looked up in the table
      only (an id past its end is never cached); otherwise by model name. */
  function ShardCached(shard: AutoInjectCacheShard, route: RouteTarget, now: u64): (r: bool)
    ensures route.knownModelId.Some? ==>
              (r <==> route.knownModelId.value < |shard.knownModels| && shard.knownModels[route.knownModelId.value] > now)
    ensures route.knownModelId.None? ==>
              (r <==> route.actualModel in shard.dynamicModels && shard.dynamicModels[route.actualModel] > now)
  {
    match route.knownModelId
    case Some(id) => id < |shard.knownModels| && shard.knownModels[id] > now
    case None => route.actualModel in shard.dynamicModels && shard.dynamicModels[route.actualModel] > now
  }

  /** Entries still live at `now` (`retain(|_, e| *e > now)`). */
  function Unexpired(dynamic: map<bytes, u64>, now: u64): (r: map<bytes, u64>)
    ensures forall k | k in r :: k in dynamic && r[k] == dynamic[k] && r[k] > now
    ensures forall k | k in dynamic && dynamic[k] > now :: k in r
  {
    map k | k in dynamic && dynamic[k] > now :: dynamic[k]
  }

  /** The shard after marking a route at `now`: the known slot, when the id
      is in the table, else the name entry, gets `now + 900` (saturating);
      a name table grown past 128 entries drops the expired ones. */
  function MarkShard(shard: AutoInjectCacheShard, route: RouteTarget, now: u64): (r: AutoInjectCacheShard)
    ensures |r.knownModels| == |shard.knownModels|
  {
    var expiry := SaturatingAdd(now, AUTO_INJECT_CACHE_TTL_SECS);
    if route.knownModelId.Some? && route.knownModelId.value < |shard.knownModels| then
      shard.(knownModels := shard.knownModels[route.knownModelId.value := expiry])
    else
      var dynamic := shard.dynamicModels[route.actualModel := expiry];
      shard.(dynamicModels := if |dynamic| > DYNAMIC_MODELS_SOFT_LIMIT then Unexpired(dynamic, now) else dynamic)
  }

  /** A marked route reads as cached exactly until its expiry, fifteen
      minutes (saturating) after the mark. */
  lemma MarkedRouteCachedUntilExpiry(shard: AutoInjectCacheShard, route: RouteTarget, now: u64, t: u64)
    requires route.knownModelId.None? || route.knownModelId.value < |shard.knownModels|
    requires now <= t
    ensures ShardCached(MarkShard(shard, route, now), route, t) <==> t < SaturatingAdd(now, AUTO_INJECT_CACHE_TTL_SECS)
  {
    var expiry := SaturatingAdd(now, AUTO_INJECT_CACHE_TTL_SECS);
    var marked := MarkShard(shard, route, now);
    if route.knownModelId.None? {
      var dynamic := shard.dynamicModels[route.actualModel := expiry];
      assert dynamic[route.actualModel] == expiry;
      if |dynamic| > DYNAMIC_MODELS_SOFT_LIMIT && expiry > now {
        assert route.actualModel in Unexpired(dynamic, now);
      }
    }
  }

  /** A route whose known id lies past the table is written to the name
      table but read from the id table, so marking it never takes effect. */
  lemma MarkPastKnownTableIsInvisible(shard: AutoInjectCacheShard, route: RouteTarget, now: u64, t: u64)
    requires route.knownModelId.Some? && route.knownModelId.value >= |shard.knownModels|
    ensures !ShardCached(MarkShard(shard, route, now), route, t)
  {
  }

  /** Marking one route changes no other route's answer from `now` on: the
      pruning drops only entries that had already expired. */
  lemma MarkLeavesOtherRoutes(shard: AutoInjectCacheShard, marked: RouteTarget, other: RouteTarget, now: u64, t: u64)
    requires now <= t
    requires other.knownModelId.Some? ==> marked.knownModelId != other.knownModelId
    requires other.knownModelId.None? ==>
               marked.actualModel != other.actualModel
               || (marked.knownModelId.Some? && marked.knownModelId.value < |shard.knownModels|)
    ensures ShardCached(MarkShard(shard, marked, now), other, t) == ShardCached(shard, other, t)
  {
    var expiry := SaturatingAdd(now, AUTO_INJECT_CACHE_TTL_SECS);
    if !(marked.knownModelId.Some? && marked.knownModelId.value < |shard.knownModels|) && other.knownModelId.None? {
      var dynamic := shard.dynamicModels[marked.actualModel := expiry];
      var key := other.actualModel;
      assert (key in dynamic) == (key in shard.dynamicModels);
      if key in dynamic {
        assert dynamic[key] == shard.dynamicModels[key];
        if |dynamic| > DYNAMIC_MODELS_SOFT_LIMIT && dynamic[key] > now {
          assert key in Unexpired(dynamic, now);
        }
      }
    }
  }

  /** `FcPolicyCache`: the policies, fixed at start-up, and one cache shard
      per upstream, updated as requests find that injection is needed. */
  class FcPolicyCache {
    var policies: seq<FcPolicy>
    var autoInjectCache: seq<AutoInjectCacheShard>

    /** `FcPolicyCache::new`: a policy per configured upstream and
        `upstreamCount` empty shards of `knownModelCount` zero slots. */
    constructor (config: C.AppConfig, upstreamCount: nat, knownModelCount: nat)
      ensures policies == PoliciesOf(config)
      ensures |autoInjectCache| == upstreamCount
      ensures forall i | 0 <= i < upstreamCount ::
                autoInjectCache[i] == AutoInjectCacheShard(seq(knownModelCount, _ => 0), map[])
    {
      policies := PoliciesOf(config);
      var empty := AutoInjectCacheShard(seq(knownModelCount, _ => 0), map[]);
      var cache: seq<AutoInjectCacheShard> := [];
      var i := 0;
      while i < upstreamCount
        invariant i <= upstreamCount && |cache| == i
        invariant forall j | 0 <= j < i :: cache[j] == empty
      {
        cache := cache + [empty];
        i := i + 1;
      }
      autoInjectCache := cache;
    }

    /** The policy of the route's upstream; `Native` past the table. */
    function PolicyAt(upstreamIndex: nat): (p: FcPolicy)
      reads this
      ensures upstreamIndex >= |policies| ==> p == Native
      ensures upstreamIndex < |policies| ==> p == policies[upstreamIndex]
    {
      if upstreamIndex < |policies| then policies[upstreamIndex] else Native
    }

    /** `auto_inject_cached`: an upstream past the shard table is never
        cached; otherwise the shard answers. */
    function AutoInjectCached(route: RouteTarget, now: u64): (r: bool)
      reads this
      ensures r ==> route.upstreamIndex < |autoInjectCache|
      ensures route.upstreamIndex < |autoInjectCache| ==> r == ShardCached(autoInjectCache[route.upstreamIndex], route, now)
    {
      route.upstreamIndex < |autoInjectCache| && ShardCached(autoInjectCache[route.upstreamIndex], route, now)
    }

    /** `decision`: without tools nothing is active; an `Inject` upstream
        always injects and never falls back; `Native` and `Auto` upstreams
        may fall back and inject at once while the route is cached. */
    function Decision(route: RouteTarget, hasTools: bool, now: u64): (r: FcDecision)
      reads this
      ensures !hasTools ==> r == FcDecision(false, false)
      ensures hasTools ==> (r.autoFallbackAllowed <==> PolicyAt(route.upstreamIndex) != Inject)
      ensures r.fcActive <==> hasTools && (PolicyAt(route.upstreamIndex) == Inject || AutoInjectCached(route, now))
    {
      if !hasTools then FcDecision(false, false)
      else match PolicyAt(route.upstreamIndex)
        case Inject => FcDecision(true, false)
        case _ => FcDecision(AutoInjectCached(route, now), true)
    }

    /** `mark_auto_inject`: remember that the route needed injection; an
        upstream past the shard table is ignored. */
    method MarkAutoInject(route: RouteTarget, now: u64)
      modifies this
      ensures policies == old(policies)
      ensures route.upstreamIndex < |old(autoInjectCache)| ==>
                autoInjectCache == old(autoInjectCache)[route.upstreamIndex := MarkShard(old(autoInjectCache)[route.upstreamIndex], route, now)]
      ensures route.upstreamIndex >= |old(autoInjectCache)| ==> autoInjectCache == old(autoInjectCache)
    {
      if route.upstreamIndex < |autoInjectCache| {
        var shard := autoInjectCache[route.upstreamIndex];
        var expiry := SaturatingAdd(now, AUTO_INJECT_CACHE_TTL_SECS);
        if route.knownModelId.Some? {
          var modelId := route.knownModelId.value;
          if modelId < |shard.knownModels| {
            autoInjectCache := autoInjectCache[route.upstreamIndex := shard.(knownModels := shard.knownModels[modelId := expiry])];
            return;
          }
        }
        var dynamic := shard.dynamicModels[route.actualModel := expiry];
        if |dynamic| > DYNAMIC_MODELS_SOFT_LIMIT {
          dynamic := Unexpired(dynamic, now);
        }
        autoInjectCache := autoInjectCache[route.upstreamIndex := shard.(dynamicModels := dynamic)];
      }
    }
  }

  /** Right after a mark (and until it expires) the decision for the same
      route injects, whatever the upstream's policy. */
  lemma DecisionInjectsAfterMark(c: FcPolicyCache, route: RouteTarget, now: u64, t: u64)
    requires route.upstreamIndex < |c.autoInjectCache|
    requires route.knownModelId.None? || route.knownModelId.value < |c.autoInjectCache[route.upstreamIndex].knownModels|
    requires now <= t < SaturatingAdd(now, AUTO_INJECT_CACHE_TTL_SECS)
    requires c.autoInjectCache[route.upstreamIndex]
             == MarkShard(c.autoInjectCache[route.upstreamIndex], route, now)
    ensures c.Decision(route, true, t) == FcDecision(true, c.PolicyAt(route.upstreamIndex) != Inject)
  {
    MarkedRouteCachedUntilExpiry(c.autoInjectCache[route.upstreamIndex], route, now, t);
  }

  /** Before any mark, the cached decision injects exactly when the
      request-level decision of `decide_fc_action` does. */
  lemma UncachedDecisionMatchesAction(c: FcPolicyCache, config: C.AppConfig, route: RouteTarget, hasTools: bool, now: u64)
    requires c.policies == PoliciesOf(config)
    requires route.upstreamIndex < |config.upstreamServices|
    requires !c.AutoInjectCached(route, now)
    ensures c.Decision(route, hasTools, now).fcActive
            <==> A.DecideFcAction(config.features, config.upstreamServices[route.upstreamIndex], hasTools) == A.Inject
  {
  }

  /** The two fallback rules differ: with function calling disabled,
      `allow_auto_inject_fallback` refuses a fallback that the cached
      decision allows. */
  lemma CachedFallbackWiderThanAction(c: FcPolicyCache, config: C.AppConfig, route: RouteTarget, now: u64)
    requires c.policies == PoliciesOf(config)
    requires route.upstreamIndex < |config.upstreamServices|
    requires !config.features.enableFunctionCalling
    ensures c.Decision(route, true, now).autoFallbackAllowed
    ensures !A.AllowAutoInjectFallback(config.features, config.upstreamServices[route.upstreamIndex], true)
  {
  }
}
