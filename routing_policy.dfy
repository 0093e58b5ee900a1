/** Session-aware failover ordering (`src/routing/policy.rs`). The failover
    list from `Routing.ResolveOrdered` is split into four buckets by two
    questions, asked of each route in order: is its provider the primary
    route's provider, and does the circuit breaker allow it? The buckets
    are then concatenated in an order that depends on the session class.
    The breaker's answer is a function of the upstream index. */
module RoutingPolicy {
  import opened Wrappers
  import opened Bytes
  import opened Ints
  import opened Errors
  import opened Canonical
  import opened Routing
  import opened Session

  const ROUTE_STICKY_PREFIX_MAX_BYTES: nat := 256

  /** The byte strings `route_sticky_hash` feeds to its hasher, in order:
      the client key when there is one, a 0xff separator, the model, a 0xfe
      separator, and at most 256 bytes of the prompt prefix (the time bucket
      follows). */
  function StickyHashWrites(clientKey: Option<bytes>, model: bytes, promptPrefix: bytes): (w: seq<bytes>)
    ensures |w| >= 4
    ensures |w[|w| - 1]| <= ROUTE_STICKY_PREFIX_MAX_BYTES
    ensures w[|w| - 1] <= promptPrefix
  {
    var key := if clientKey.Some? then [clientKey.value] else [];
    key + [[0xff as char], model, [0xfe as char], promptPrefix[..Min(|promptPrefix|, ROUTE_STICKY_PREFIX_MAX_BYTES)]]
  }

  /** Bytes of the prompt beyond the first 256 never reach the hash. */
  lemma StickyHashIgnoresTail(clientKey: Option<bytes>, model: bytes, p: bytes, q: bytes)
    requires |p| >= ROUTE_STICKY_PREFIX_MAX_BYTES && |q| >= ROUTE_STICKY_PREFIX_MAX_BYTES
    requires p[..ROUTE_STICKY_PREFIX_MAX_BYTES] == q[..ROUTE_STICKY_PREFIX_MAX_BYTES]
    ensures StickyHashWrites(clientKey, model, p) == StickyHashWrites(clientKey, model, q)
  {
  }

  predicate InRange(routes: seq<RouteTarget>, providers: seq<ProviderKind>) {
    forall k | 0 <= k < |routes| :: routes[k].upstreamIndex < |providers|
  }

  /** The routes, in their original order, whose provider is (`same`) or is
      not the primary one and whose breaker answer is `allow`. */
  function Bucket(routes: seq<RouteTarget>, providers: seq<ProviderKind>, primary: ProviderKind,
                  allows: nat -> bool, same: bool, allow: bool): (b: seq<RouteTarget>)
    requires InRange(routes, providers)
    ensures |b| <= |routes|
    decreases |routes|
  {
    if |routes| == 0 then []
    else
      var init := routes[..|routes| - 1];
      var t := routes[|routes| - 1];
      var rest := Bucket(init, providers, primary, allows, same, allow);
      if (providers[t.upstreamIndex] == primary) == same && allows(t.upstreamIndex) == allow then rest + [t]
      else rest
  }

  /** Every route of a bucket answers its two questions as the bucket says. */
  lemma {:induction false} BucketMembers(routes: seq<RouteTarget>, providers: seq<ProviderKind>, primary: ProviderKind,
                                         allows: nat -> bool, same: bool, allow: bool)
    requires InRange(routes, providers)
    ensures forall t | t in Bucket(routes, providers, primary, allows, same, allow) ::
      t in routes && (providers[t.upstreamIndex] == primary) == same && allows(t.upstreamIndex) == allow
    decreases |routes|
  {
    if |routes| > 0 {
      BucketMembers(routes[..|routes| - 1], providers, primary, allows, same, allow);
    }
  }

  function BucketBag(routes: seq<RouteTarget>, providers: seq<ProviderKind>, primary: ProviderKind,
                     allows: nat -> bool): multiset<RouteTarget>
    requires InRange(routes, providers)
  {
    multiset(Bucket(routes, providers, primary, allows, true, true)) +
    multiset(Bucket(routes, providers, primary, allows, false, true)) +
    multiset(Bucket(routes, providers, primary, allows, true, false)) +
    multiset(Bucket(routes, providers, primary, allows, false, false))
  }

  /** The last route joins exactly the bucket whose two answers it gives. */
  lemma BucketStep(routes: seq<RouteTarget>, providers: seq<ProviderKind>, primary: ProviderKind,
                   allows: nat -> bool, same: bool, allow: bool)
    requires InRange(routes, providers) && |routes| > 0
    ensures var t := routes[|routes| - 1];
      Bucket(routes, providers, primary, allows, same, allow) ==
        Bucket(routes[..|routes| - 1], providers, primary, allows, same, allow) +
        (if (providers[t.upstreamIndex] == primary) == same && allows(t.upstreamIndex) == allow then [t] else [])
  {
  }

  /** One more route adds exactly that route to the four buckets together. */
  lemma BucketBagStep(routes: seq<RouteTarget>, providers: seq<ProviderKind>, primary: ProviderKind,
                      allows: nat -> bool)
    requires InRange(routes, providers) && |routes| > 0
    ensures BucketBag(routes, providers, primary, allows) ==
      BucketBag(routes[..|routes| - 1], providers, primary, allows) + multiset{routes[|routes| - 1]}
  {
    var init := routes[..|routes| - 1];
    var t := routes[|routes| - 1];
    var same := providers[t.upstreamIndex] == primary;
    var allow := allows(t.upstreamIndex);
    BucketStep(routes, providers, primary, allows, true, true);
    BucketStep(routes, providers, primary, allows, false, true);
    BucketStep(routes, providers, primary, allows, true, false);
    BucketStep(routes, providers, primary, allows, false, false);
    var a := multiset(Bucket(init, providers, primary, allows, true, true));
    var b := multiset(Bucket(init, providers, primary, allows, false, true));
    var c := multiset(Bucket(init, providers, primary, allows, true, false));
    var d := multiset(Bucket(init, providers, primary, allows, false, false));
    var a' := multiset(Bucket(routes, providers, primary, allows, true, true));
    var b' := multiset(Bucket(routes, providers, primary, allows, false, true));
    var c' := multiset(Bucket(routes, providers, primary, allows, true, false));
    var d' := multiset(Bucket(routes, providers, primary, allows, false, false));
    var one := multiset{t};
    if same && allow {
      assert a' == a + one && b' == b && c' == c && d' == d;
      assert a' + b' + c' + d' == a + b + c + d + one;
    } else if !same && allow {
      assert a' == a && b' == b + one && c' == c && d' == d;
      assert a' + b' + c' + d' == a + b + c + d + one;
    } else if same {
      assert a' == a && b' == b && c' == c + one && d' == d;
      assert a' + b' + c' + d' == a + b + c + d + one;
    } else {
      assert a' == a && b' == b && c' == c && d' == d + one;
      assert a' + b' + c' + d' == a + b + c + d + one;
    }
  }

  /** The four buckets split the routes: each route lands in exactly one. */
  lemma {:induction false} BucketsPartition(routes: seq<RouteTarget>, providers: seq<ProviderKind>, primary: ProviderKind,
                                            allows: nat -> bool)
    requires InRange(routes, providers)
    ensures BucketBag(routes, providers, primary, allows) == multiset(routes)
    decreases |routes|
  {
    if |routes| > 0 {
      var init := routes[..|routes| - 1];
      BucketsPartition(init, providers, primary, allows);
      BucketBagStep(routes, providers, primary, allows);
      assert routes == init + [routes[|routes| - 1]];
    }
  }

  /** The policy order of a list of at least two routes. */
  function PolicyOrder(routes: seq<RouteTarget>, providers: seq<ProviderKind>, allows: nat -> bool,
                       sessionClass: SessionClass): seq<RouteTarget>
    requires |routes| > 0 && InRange(routes, providers)
  {
    var primary := providers[routes[0].upstreamIndex];
    var sameAllowed := Bucket(routes, providers, primary, allows, true, true);
    var crossAllowed := Bucket(routes, providers, primary, allows, false, true);
    var sameBlocked := Bucket(routes, providers, primary, allows, true, false);
    var crossBlocked := Bucket(routes, providers, primary, allows, false, false);
    match sessionClass
    case Portable => sameAllowed + crossAllowed + sameBlocked + crossBlocked
    case Anchored => sameAllowed + sameBlocked + crossAllowed + crossBlocked
  }

  /** The reordering is a permutation: no route is lost or repeated. */
  lemma PolicyOrderPermutes(routes: seq<RouteTarget>, providers: seq<ProviderKind>, allows: nat -> bool,
                            sessionClass: SessionClass)
    requires |routes| > 0 && InRange(routes, providers)
    ensures multiset(PolicyOrder(routes, providers, allows, sessionClass)) == multiset(routes)
  {
    BucketsPartition(routes, providers, providers[routes[0].upstreamIndex], allows);
  }

  /** Portable sessions try every allowed route before any blocked one. */
  lemma PortableAllowedFirst(routes: seq<RouteTarget>, providers: seq<ProviderKind>, allows: nat -> bool)
    requires |routes| > 0 && InRange(routes, providers)
    ensures var p := PolicyOrder(routes, providers, allows, Portable);
      forall i, j | 0 <= i < j < |p| :: allows(p[j].upstreamIndex) ==> allows(p[i].upstreamIndex)
  {
    var primary := providers[routes[0].upstreamIndex];
    BucketMembers(routes, providers, primary, allows, true, true);
    BucketMembers(routes, providers, primary, allows, false, true);
    BucketMembers(routes, providers, primary, allows, true, false);
    BucketMembers(routes, providers, primary, allows, false, false);
    var a := Bucket(routes, providers, primary, allows, true, true) + Bucket(routes, providers, primary, allows, false, true);
    var b := Bucket(routes, providers, primary, allows, true, false) + Bucket(routes, providers, primary, allows, false, false);
    var p := PolicyOrder(routes, providers, allows, Portable);
    assert p == a + b;
    forall i, j | 0 <= i < j < |p| && allows(p[j].upstreamIndex)
      ensures allows(p[i].upstreamIndex)
    {
      assert forall k | |a| <= k < |p| :: p[k] in b;
      assert p[i] in a;
    }
  }

  /** Anchored sessions try every route of the primary's provider before
      any other provider, blocked or not. */
  lemma AnchoredSameProviderFirst(routes: seq<RouteTarget>, providers: seq<ProviderKind>, allows: nat -> bool)
    requires |routes| > 0 && InRange(routes, providers)
    ensures var primary := providers[routes[0].upstreamIndex];
      var p := PolicyOrder(routes, providers, allows, Anchored);
      forall i, j | 0 <= i < j < |p| ::
        p[j].upstreamIndex < |providers| && p[i].upstreamIndex < |providers| &&
        (providers[p[j].upstreamIndex] == primary ==> providers[p[i].upstreamIndex] == primary)
  {
    var primary := providers[routes[0].upstreamIndex];
    BucketMembers(routes, providers, primary, allows, true, true);
    BucketMembers(routes, providers, primary, allows, false, true);
    BucketMembers(routes, providers, primary, allows, true, false);
    BucketMembers(routes, providers, primary, allows, false, false);
    var a := Bucket(routes, providers, primary, allows, true, true) + Bucket(routes, providers, primary, allows, true, false);
    var b := Bucket(routes, providers, primary, allows, false, true) + Bucket(routes, providers, primary, allows, false, false);
    var p := PolicyOrder(routes, providers, allows, Anchored);
    assert p == a + b;
    forall i, j | 0 <= i < j < |p|
      ensures p[j].upstreamIndex < |providers| && p[i].upstreamIndex < |providers|
      ensures providers[p[j].upstreamIndex] == primary ==> providers[p[i].upstreamIndex] == primary
    {
      if j >= |a| {
        assert p[j] == b[j - |a|] && p[j] in b;
      } else {
        assert p[j] == a[j] && p[j] in a;
      }
      if i >= |a| {
        assert p[i] == b[i - |a|] && p[i] in b;
      } else {
        assert p[i] == a[i] && p[i] in a;
      }
    }
  }

  /** The sticky primary stays first whenever its breaker allows it. */
  lemma PrimaryStaysFirst(routes: seq<RouteTarget>, providers: seq<ProviderKind>, allows: nat -> bool,
                          sessionClass: SessionClass)
    requires |routes| > 0 && InRange(routes, providers) && allows(routes[0].upstreamIndex)
    ensures PolicyOrder(routes, providers, allows, sessionClass)[0] == routes[0]
  {
    var primary := providers[routes[0].upstreamIndex];
    BucketHead(routes, providers, primary, allows);
  }

  lemma {:induction false} BucketHead(routes: seq<RouteTarget>, providers: seq<ProviderKind>, primary: ProviderKind,
                                      allows: nat -> bool)
    requires |routes| > 0 && InRange(routes, providers)
    requires providers[routes[0].upstreamIndex] == primary && allows(routes[0].upstreamIndex)
    ensures |Bucket(routes, providers, primary, allows, true, true)| > 0
    ensures Bucket(routes, providers, primary, allows, true, true)[0] == routes[0]
    decreases |routes|
  {
    if |routes| > 1 {
      var init := routes[..|routes| - 1];
      assert init[0] == routes[0];
      BucketHead(init, providers, primary, allows);
    }
  }

  /** The bucket loop of `resolve_routes_with_policy`, then the
      concatenation in policy order. */
  method OrderRoutes(routes: seq<RouteTarget>, providers: seq<ProviderKind>, allows: nat -> bool,
                     sessionClass: SessionClass) returns (finalOrder: seq<RouteTarget>)
    requires |routes| > 0 && InRange(routes, providers)
    ensures finalOrder == PolicyOrder(routes, providers, allows, sessionClass)
  {
    var primary := providers[routes[0].upstreamIndex];
    finalOrder := [];
    var crossAllowed: seq<RouteTarget> := [];
    var sameBlocked: seq<RouteTarget> := [];
    var crossBlocked: seq<RouteTarget> := [];
    for i := 0 to |routes|
      invariant finalOrder == Bucket(routes[..i], providers, primary, allows, true, true)
      invariant crossAllowed == Bucket(routes[..i], providers, primary, allows, false, true)
      invariant sameBlocked == Bucket(routes[..i], providers, primary, allows, true, false)
      invariant crossBlocked == Bucket(routes[..i], providers, primary, allows, false, false)
    {
      var route := routes[i];
      assert routes[..i + 1][..i] == routes[..i];
      var breakerAllowed := allows(route.upstreamIndex);
      var sameProvider := providers[route.upstreamIndex] == primary;
      if sameProvider {
        if breakerAllowed {
          finalOrder := finalOrder + [route];
        } else {
          sameBlocked := sameBlocked + [route];
        }
      } else if breakerAllowed {
        crossAllowed := crossAllowed + [route];
      } else {
        crossBlocked := crossBlocked + [route];
      }
    }
    assert routes[..|routes|] == routes;
    if sessionClass == Portable {
      finalOrder := finalOrder + crossAllowed;
      finalOrder := finalOrder + sameBlocked;
      finalOrder := finalOrder + crossBlocked;
    } else {
      finalOrder := finalOrder + sameBlocked;
      finalOrder := finalOrder + crossAllowed;
      finalOrder := finalOrder + crossBlocked;
    }
  }

  /** The candidate list `resolve_routes_with_policy` returns: an error from
      resolution, an unchanged list of one, or the policy order. */
  function RoutesWithPolicy(r: Router, providers: seq<ProviderKind>, model: bytes, mixedHash: u64,
                            sessionClass: SessionClass, allows: nat -> bool): Result<seq<RouteTarget>, CanonicalError>
    requires NonEmptyGroups(r) && UpstreamsBelow(r.modelIndex, |providers|)
    requires r.single.Some? ==> r.single.value.1.upstreamIndex < |providers|
  {
    match ResolveOrderedSpec(r, model, mixedHash)
    case Err(e) => Err(e)
    case Ok(ordered) =>
      if |ordered| == 0 then Err(NoUpstream(model))
      else if |ordered| == 1 then Ok(ordered)
      else
        OrderedInRange(r, providers, model, mixedHash);
        Ok(PolicyOrder(ordered, providers, allows, sessionClass))
  }

  /** Every route of the failover list names a configured upstream. */
  lemma OrderedInRange(r: Router, providers: seq<ProviderKind>, model: bytes, mixedHash: u64)
    requires NonEmptyGroups(r) && UpstreamsBelow(r.modelIndex, |providers|)
    requires r.single.Some? ==> r.single.value.1.upstreamIndex < |providers|
    requires ResolveOrderedSpec(r, model, mixedHash).Ok?
    ensures InRange(ResolveOrderedSpec(r, model, mixedHash).value, providers)
  {
    if r.single.None? && model in r.modelIndex && |r.modelIndex[model]| > 1 {
      var cs := r.modelIndex[model];
      var rot := Rotate(cs, SelectAliasGroupIndex(|cs|, mixedHash));
      FirstOccurrencesCover(rot);
      var d := FirstOccurrences(rot);
      forall k | 0 <= k < |d| ensures d[k].upstreamIndex < |providers| {
        assert d[k] in d;
      }
    } else if r.single.None? && model in r.modelIndex {
      assert r.modelIndex[model][0] in r.modelIndex[model];
    }
  }

  /** `resolve_routes_with_policy`. */
  method ResolveRoutesWithPolicy(r: Router, providers: seq<ProviderKind>, model: bytes, mixedHash: u64,
                                 sessionClass: SessionClass, allows: nat -> bool)
    returns (res: Result<seq<RouteTarget>, CanonicalError>)
    requires NonEmptyGroups(r) && UpstreamsBelow(r.modelIndex, |providers|)
    requires r.single.Some? ==> r.single.value.1.upstreamIndex < |providers|
    ensures res == RoutesWithPolicy(r, providers, model, mixedHash, sessionClass, allows)
  {
    var ordered := ResolveOrdered(r, model, mixedHash);
    if ordered.Err? {
      return ordered;
    }
    if |ordered.value| == 0 {
      return Err(NoUpstream(model));
    }
    if |ordered.value| == 1 {
      return ordered;
    }
    OrderedInRange(r, providers, model, mixedHash);
    var finalOrder := OrderRoutes(ordered.value, providers, allows, sessionClass);
    return Ok(finalOrder);
  }

  /** The routes of the primary's provider (`same`) or of the others, in order. */
  function ProviderSide(routes: seq<RouteTarget>, providers: seq<ProviderKind>, primary: ProviderKind,
                        same: bool): seq<RouteTarget>
    requires InRange(routes, providers)
    decreases |routes|
  {
    if |routes| == 0 then []
    else
      var init := routes[..|routes| - 1];
      var t := routes[|routes| - 1];
      var rest := ProviderSide(init, providers, primary, same);
      if (providers[t.upstreamIndex] == primary) == same then rest + [t] else rest
  }

  /** The order of `resolve_routes_with_policy_all_allowed`. */
  function AllAllowedOrder(routes: seq<RouteTarget>, providers: seq<ProviderKind>): seq<RouteTarget>
    requires |routes| > 0 && InRange(routes, providers)
  {
    var primary := providers[routes[0].upstreamIndex];
    ProviderSide(routes, providers, primary, true) + ProviderSide(routes, providers, primary, false)
  }

  lemma {:induction false} AllowedBucketIsSide(routes: seq<RouteTarget>, providers: seq<ProviderKind>,
                                               primary: ProviderKind, allows: nat -> bool, same: bool)
    requires InRange(routes, providers)
    requires forall u: nat :: allows(u)
    ensures Bucket(routes, providers, primary, allows, same, true) == ProviderSide(routes, providers, primary, same)
    ensures Bucket(routes, providers, primary, allows, same, false) == []
    decreases |routes|
  {
    if |routes| > 0 {
      AllowedBucketIsSide(routes[..|routes| - 1], providers, primary, allows, same);
    }
  }

  /** Ordering with every route allowed is the policy order when the breaker
      allows everything, for either session class. */
  lemma AllAllowedIsPolicyOrder(routes: seq<RouteTarget>, providers: seq<ProviderKind>, sessionClass: SessionClass)
    requires |routes| > 0 && InRange(routes, providers)
    ensures AllAllowedOrder(routes, providers) == PolicyOrder(routes, providers, u => true, sessionClass)
  {
    var primary := providers[routes[0].upstreamIndex];
    var allows: nat -> bool := u => true;
    AllowedBucketIsSide(routes, providers, primary, allows, true);
    AllowedBucketIsSide(routes, providers, primary, allows, false);
  }

  lemma ProviderSideStep(routes: seq<RouteTarget>, providers: seq<ProviderKind>, primary: ProviderKind, same: bool, i: nat)
    requires i < |routes| && InRange(routes, providers)
    ensures ProviderSide(routes[..i + 1], providers, primary, same) ==
      ProviderSide(routes[..i], providers, primary, same)
      + (if (providers[routes[i].upstreamIndex] == primary) == same then [routes[i]] else [])
  {
    assert routes[..i + 1][..i] == routes[..i];
  }

  /** The two loops of `resolve_routes_with_policy_all_allowed`: the
      primary's provider first, then, when some route has another provider,
      those routes. */
  method OrderAllAllowed(routes: seq<RouteTarget>, providers: seq<ProviderKind>) returns (finalOrder: seq<RouteTarget>)
    requires |routes| > 0 && InRange(routes, providers)
    ensures finalOrder == AllAllowedOrder(routes, providers)
  {
    var primary := providers[routes[0].upstreamIndex];
    finalOrder := [];
    var sawCrossProvider := false;
    for i := 0 to |routes|
      invariant finalOrder == ProviderSide(routes[..i], providers, primary, true)
      invariant sawCrossProvider <==> |ProviderSide(routes[..i], providers, primary, false)| > 0
    {
      ProviderSideStep(routes, providers, primary, true, i);
      ProviderSideStep(routes, providers, primary, false, i);
      if providers[routes[i].upstreamIndex] == primary {
        finalOrder := finalOrder + [routes[i]];
      } else {
        sawCrossProvider := true;
      }
    }
    assert routes[..|routes|] == routes;
    if !sawCrossProvider {
      return;
    }
    ghost var sameSide := finalOrder;
    for i := 0 to |routes|
      invariant finalOrder == sameSide + ProviderSide(routes[..i], providers, primary, false)
    {
      ProviderSideStep(routes, providers, primary, false, i);
      if providers[routes[i].upstreamIndex] != primary {
        assert sameSide + (ProviderSide(routes[..i], providers, primary, false) + [routes[i]])
            == finalOrder + [routes[i]];
        finalOrder := finalOrder + [routes[i]];
      } else {
        assert ProviderSide(routes[..i], providers, primary, false) + [] == ProviderSide(routes[..i], providers, primary, false);
      }
    }
    assert routes[..|routes|] == routes;
  }
}
