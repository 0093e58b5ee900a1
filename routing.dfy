/** The model router (`src/routing/mod.rs`): an index from requested model
    names (and aliases) to the upstream services that serve them, and the
    resolution of a request's model to one route or to an ordered failover
    list. The request hash handed to resolution is the already-mixed hash;
    the mixing function itself is not part of this model. */
module Routing {
  import opened Wrappers
  import opened Bytes
  import opened Ints
  import opened Errors
  import Util

  /** An index entry: the upstream service and the interned real model name. */
  datatype Candidate = Candidate(upstreamIndex: nat, modelId: nat)

  /** The route a request is sent on. */
  datatype RouteTarget = RouteTarget(upstreamIndex: nat, actualModel: bytes, knownModelId: Option<nat>)

  /** A built index: model names, interned real model names, and the single exact
      route kept when the index has one key with one candidate. */
  datatype Index = Index(models: map<bytes, seq<Candidate>>, interned: seq<bytes>)

  datatype Router = Router(modelIndex: map<bytes, seq<Candidate>>, interned: seq<bytes>,
                           single: Option<(bytes, Candidate)>)

  // ------------------------------------------------------------------
  // Building the index

  predicate Distinct(s: seq<bytes>) {
    forall i, j | 0 <= i < j < |s| :: s[i] != s[j]
  }

  /** An entry `alias:real` is split at its first colon; an entry without a
      colon names itself. */
  function SplitEntry(entry: bytes): (r: (bytes, bytes))
    ensures !HasByte(entry, ':') ==> r == (entry, entry)
    ensures HasByte(entry, ':') ==> r.0 + [':'] + r.1 == entry && !HasByte(r.0, ':')
  {
    match FindByte(entry, ':', 0)
    case None => (entry, entry)
    case Some(p) => (entry[..p], entry[p + 1..])
  }

  function IndexOfFrom(s: seq<bytes>, x: bytes, from: nat): (r: Option<nat>)
    ensures r.Some? ==> from <= r.value < |s| && s[r.value] == x
    ensures r.None? ==> forall k | from <= k < |s| :: s[k] != x
    decreases |s| - from
  {
    if from >= |s| then None
    else if s[from] == x then Some(from)
    else IndexOfFrom(s, x, from + 1)
  }

  /** `intern_model_id`: a name already interned keeps its id; a new name is
      appended and gets the next id. Interning never creates a duplicate. */
  function Intern(interned: seq<bytes>, model: bytes): (r: (seq<bytes>, nat))
    ensures r.1 < |r.0| && r.0[r.1] == model
    ensures model in interned ==> r.0 == interned
    ensures model !in interned ==> r.0 == interned + [model] && r.1 == |interned|
    ensures Distinct(interned) ==> Distinct(r.0)
  {
    match IndexOfFrom(interned, model, 0)
    case Some(i) => (interned, i)
    case None => (interned + [model], |interned|)
  }

  function Group(models: map<bytes, seq<Candidate>>, key: bytes): seq<Candidate> {
    if key in models then models[key] else []
  }

  /** One configured model entry of upstream service `upstream`. */
  function AddEntry(st: Index, upstream: nat, entry: bytes): Index {
    var (alias, realModel) := SplitEntry(entry);
    var (interned, id) := Intern(st.interned, realModel);
    Index(st.models[alias := Group(st.models, alias) + [Candidate(upstream, id)]], interned)
  }

  function AddEntries(st: Index, upstream: nat, entries: seq<bytes>): Index
    decreases |entries|
  {
    if |entries| == 0 then st
    else AddEntry(AddEntries(st, upstream, entries[..|entries| - 1]), upstream, entries[|entries| - 1])
  }

  lemma AddEntriesStep(st: Index, upstream: nat, entries: seq<bytes>, j: nat)
    requires j < |entries|
    ensures AddEntries(st, upstream, entries[..j + 1]) == AddEntry(AddEntries(st, upstream, entries[..j]), upstream, entries[j])
  {
    assert entries[..j + 1][..j] == entries[..j];
  }

  /** The index built from the services' model lists, in configuration order. */
  function IndexServices(services: seq<seq<bytes>>): Index
    decreases |services|
  {
    if |services| == 0 then Index(map[], [])
    else AddEntries(IndexServices(services[..|services| - 1]), |services| - 1, services[|services| - 1])
  }

  /** Every group is non-empty, every candidate names an interned model, and
      no name is interned twice. */
  predicate WellFormed(st: Index) {
    Distinct(st.interned) &&
    forall k | k in st.models :: |st.models[k]| > 0 &&
      forall c | c in st.models[k] :: c.modelId < |st.interned|
  }

  predicate UpstreamsBelow(models: map<bytes, seq<Candidate>>, n: nat) {
    forall k, c | k in models && c in models[k] :: c.upstreamIndex < n
  }

  /** The entry of service `upstream` is reachable: its alias (or its own
      name) lists that service with the real model name. */
  predicate Covers(st: Index, upstream: nat, entry: bytes) {
    var (alias, realModel) := SplitEntry(entry);
    alias in st.models &&
    exists c | c in st.models[alias] :: c.upstreamIndex == upstream && c.modelId < |st.interned| &&
      st.interned[c.modelId] == realModel
  }

  /** `st'` extends `st`: interned names and groups only grow at the end. */
  predicate Grows(st: Index, st': Index) {
    st.interned <= st'.interned &&
    forall k | k in st.models :: k in st'.models && st.models[k] <= st'.models[k]
  }

  lemma CoversPersist(st: Index, st': Index, upstream: nat, entry: bytes)
    requires Covers(st, upstream, entry) && Grows(st, st')
    ensures Covers(st', upstream, entry)
  {
    var (alias, realModel) := SplitEntry(entry);
    var c :| c in st.models[alias] && c.upstreamIndex == upstream && c.modelId < |st.interned| &&
      st.interned[c.modelId] == realModel;
    assert c in st'.models[alias];
  }

  lemma AddEntryFacts(st: Index, upstream: nat, entry: bytes, n: nat)
    requires WellFormed(st) && UpstreamsBelow(st.models, n) && upstream < n
    ensures WellFormed(AddEntry(st, upstream, entry))
    ensures UpstreamsBelow(AddEntry(st, upstream, entry).models, n)
    ensures Grows(st, AddEntry(st, upstream, entry))
    ensures Covers(AddEntry(st, upstream, entry), upstream, entry)
  {
    var (alias, realModel) := SplitEntry(entry);
    var (interned, id) := Intern(st.interned, realModel);
    var st' := AddEntry(st, upstream, entry);
    assert st'.models[alias][|st'.models[alias]| - 1] == Candidate(upstream, id);
  }

  lemma GrowsTrans(a: Index, b: Index, c: Index)
    requires Grows(a, b) && Grows(b, c)
    ensures Grows(a, c)
  {
  }

  lemma {:induction false} AddEntriesFacts(st: Index, upstream: nat, entries: seq<bytes>, n: nat)
    requires WellFormed(st) && UpstreamsBelow(st.models, n) && upstream < n
    ensures WellFormed(AddEntries(st, upstream, entries))
    ensures UpstreamsBelow(AddEntries(st, upstream, entries).models, n)
    ensures Grows(st, AddEntries(st, upstream, entries))
    ensures forall e | e in entries :: Covers(AddEntries(st, upstream, entries), upstream, e)
    decreases |entries|
  {
    if |entries| > 0 {
      var init := entries[..|entries| - 1];
      var last := entries[|entries| - 1];
      var mid := AddEntries(st, upstream, init);
      AddEntriesFacts(st, upstream, init, n);
      AddEntryFacts(mid, upstream, last, n);
      var fin := AddEntry(mid, upstream, last);
      GrowsTrans(st, mid, fin);
      forall e | e in entries
        ensures Covers(fin, upstream, e)
      {
        if e != last {
          assert e in init;
          CoversPersist(mid, fin, upstream, e);
        }
      }
    }
  }

  /** The built index is well formed, every candidate's service exists, and
      every configured entry is routed to its service under its alias with
      its real model name. */
  lemma {:induction false} IndexServicesFacts(services: seq<seq<bytes>>)
    ensures WellFormed(IndexServices(services))
    ensures UpstreamsBelow(IndexServices(services).models, |services|)
    ensures forall i, e | 0 <= i < |services| && e in services[i] :: Covers(IndexServices(services), i, e)
    decreases |services|
  {
    if |services| > 0 {
      var n := |services|;
      var init := services[..n - 1];
      var mid := IndexServices(init);
      IndexServicesFacts(init);
      AddEntriesFacts(mid, n - 1, services[n - 1], n);
      var fin := IndexServices(services);
      forall i, e | 0 <= i < n && e in services[i]
        ensures Covers(fin, i, e)
      {
        if i < n - 1 {
          assert services[i] == init[i];
          CoversPersist(mid, fin, i, e);
        }
      }
    }
  }

  lemma SingletonKeys(m: map<bytes, seq<Candidate>>, a: bytes, b: bytes)
    requires |m| == 1 && a in m && b in m
    ensures a == b
  {
    var rest := m.Keys - {a};
    assert m.Keys == rest + {a};
    assert |rest| == 0;
    assert b !in rest;
  }

  /** The fast path is consistent with the index it short-cuts. */
  predicate SingleAgrees(r: Router) {
    (r.single.Some? <==> |r.modelIndex| == 1 && exists k | k in r.modelIndex :: |r.modelIndex[k]| == 1) &&
    (r.single.Some? ==> r.single.value.0 in r.modelIndex && r.modelIndex[r.single.value.0] == [r.single.value.1])
  }

  /** What `ModelRouter::new` guarantees about every router it builds. */
  predicate Valid(r: Router) {
    WellFormed(Index(r.modelIndex, r.interned)) && SingleAgrees(r)
  }

  /** The name-to-id map agrees with the interned list. */
  ghost predicate IdsAgree(ids: map<bytes, nat>, interned: seq<bytes>) {
    (forall m :: m in ids <==> m in interned) &&
    forall m | m in ids :: ids[m] < |interned| && interned[ids[m]] == m
  }

  /** `intern_model_id` on the mutable name-to-id map and name list. */
  method InternModelId(model: bytes, ids: map<bytes, nat>, interned: seq<bytes>)
    returns (id: nat, ids': map<bytes, nat>, interned': seq<bytes>)
    requires IdsAgree(ids, interned) && Distinct(interned)
    ensures (interned', id) == Intern(interned, model)
    ensures IdsAgree(ids', interned') && Distinct(interned')
  {
    if model in ids {
      id := ids[model];
      ids', interned' := ids, interned;
      var found := IndexOfFrom(interned, model, 0);
      assert found == Some(id);
    } else {
      id := |interned|;
      interned' := interned + [model];
      ids' := ids[model := id];
    }
  }

  /** The inner loop of `ModelRouter::new`: every entry of one service. */
  method IndexService(models: map<bytes, seq<Candidate>>, ids: map<bytes, nat>, interned: seq<bytes>,
                      idx: nat, entries: seq<bytes>)
    returns (models': map<bytes, seq<Candidate>>, ids': map<bytes, nat>, interned': seq<bytes>)
    requires IdsAgree(ids, interned) && Distinct(interned)
    ensures Index(models', interned') == AddEntries(Index(models, interned), idx, entries)
    ensures IdsAgree(ids', interned') && Distinct(interned')
  {
    models', ids', interned' := models, ids, interned;
    for j := 0 to |entries|
      invariant Index(models', interned') == AddEntries(Index(models, interned), idx, entries[..j])
      invariant IdsAgree(ids', interned') && Distinct(interned')
    {
      ghost var before := Index(models', interned');
      var entry := entries[j];
      var alias, realModel;
      match FindByte(entry, ':', 0) {
        case Some(p) => alias, realModel := entry[..p], entry[p + 1..];
        case None => alias, realModel := entry, entry;
      }
      assert (alias, realModel) == SplitEntry(entry);
      var id;
      id, ids', interned' := InternModelId(realModel, ids', interned');
      models' := models'[alias := (if alias in models' then models'[alias] else []) + [Candidate(idx, id)]];
      assert Index(models', interned') == AddEntry(before, idx, entry);
      AddEntriesStep(Index(models, interned), idx, entries, j);
    }
    assert entries[..|entries|] == entries;
  }

  /** The single exact route: present exactly when the index has one key
      and that key one candidate. */
  method SingleExactRoute(models: map<bytes, seq<Candidate>>) returns (single: Option<(bytes, Candidate)>)
    ensures single.Some? <==> |models| == 1 && exists k | k in models :: |models[k]| == 1
    ensures single.Some? ==> single.value.0 in models && models[single.value.0] == [single.value.1]
  {
    single := None;
    if |models| == 1 {
      var key :| key in models;
      if |models[key]| == 1 {
        single := Some((key, models[key][0]));
      }
      forall k | k in models
        ensures k == key
      {
        SingletonKeys(models, k, key);
      }
    }
  }

  /** `ModelRouter::new`: index every entry of every service, interning the
      real model names through a name-to-id map, then keep the single exact
      route when there is exactly one. */
  method BuildRouter(services: seq<seq<bytes>>) returns (r: Router)
    ensures Index(r.modelIndex, r.interned) == IndexServices(services)
    ensures Valid(r) && UpstreamsBelow(r.modelIndex, |services|)
  {
    var models: map<bytes, seq<Candidate>> := map[];
    var interned: seq<bytes> := [];
    var ids: map<bytes, nat> := map[];
    for idx := 0 to |services|
      invariant Index(models, interned) == IndexServices(services[..idx])
      invariant IdsAgree(ids, interned) && Distinct(interned)
    {
      models, ids, interned := IndexService(models, ids, interned, idx, services[idx]);
      assert services[..idx + 1][..idx] == services[..idx];
    }
    assert services[..|services|] == services;
    var single := SingleExactRoute(models);
    r := Router(models, interned, single);
    IndexServicesFacts(services);
  }

  // ------------------------------------------------------------------
  // Resolution

  /** Every alias group is non-empty (the routers `BuildRouter` makes). */
  predicate NonEmptyGroups(r: Router) {
    forall k | k in r.modelIndex :: |r.modelIndex[k]| > 0
  }

  function NoUpstream(model: bytes): CanonicalError {
    InvalidRequest("No upstream found for model '" + model + "'")
  }

  /** `select_alias_group_index`: the mixed request hash modulo the group
      size, so always a position inside the group. */
  function SelectAliasGroupIndex(count: nat, mixedHash: u64): (i: nat)
    requires count > 0
    ensures i < count
    ensures count == 1 ==> i == 0
  {
    mixedHash % count
  }

  /** `route_from_candidate`: the interned name of the candidate's model, or
      an error naming the id when it is out of range. */
  function RouteFromCandidate(r: Router, c: Candidate): (t: Result<RouteTarget, CanonicalError>)
    ensures t.Ok? <==> c.modelId < |r.interned|
    ensures t.Ok? ==> t.value.upstreamIndex == c.upstreamIndex && t.value.knownModelId == Some(c.modelId) &&
                      t.value.actualModel == r.interned[c.modelId]
    ensures t.Err? ==> t.error == InvalidRequest("Invalid internal model id " + Util.Decimal(c.modelId))
  {
    if c.modelId < |r.interned| then Ok(RouteTarget(c.upstreamIndex, r.interned[c.modelId], Some(c.modelId)))
    else Err(InvalidRequest("Invalid internal model id " + Util.Decimal(c.modelId)))
  }

  /** `resolve` / `resolve_with_lazy_hash`: the fast single route, else the
      model's group, picking by hash when it has several candidates. */
  function Resolve(r: Router, model: bytes, mixedHash: u64): (t: Result<RouteTarget, CanonicalError>)
    requires NonEmptyGroups(r)
  {
    if r.single.Some? then
      if model == r.single.value.0 then RouteFromCandidate(r, r.single.value.1) else Err(NoUpstream(model))
    else if model in r.modelIndex then
      var cs := r.modelIndex[model];
      if |cs| == 1 then RouteFromCandidate(r, cs[0])
      else RouteFromCandidate(r, cs[SelectAliasGroupIndex(|cs|, mixedHash)])
    else Err(NoUpstream(model))
  }

  /** For a built router, resolution is an index lookup: an unknown model is
      an invalid request, and a known one goes to the candidate the hash
      selects, with its interned real model name. */
  lemma ResolveIsIndexLookup(r: Router, model: bytes, mixedHash: u64)
    requires Valid(r)
    ensures model !in r.modelIndex ==> Resolve(r, model, mixedHash) == Err(NoUpstream(model))
    ensures model in r.modelIndex ==>
      var cs := r.modelIndex[model];
      var c := cs[SelectAliasGroupIndex(|cs|, mixedHash)];
      Resolve(r, model, mixedHash) == Ok(RouteTarget(c.upstreamIndex, r.interned[c.modelId], Some(c.modelId)))
  {
    if r.single.Some? && model in r.modelIndex {
      SingletonKeys(r.modelIndex, model, r.single.value.0);
    }
  }

  /** `requires_request_hash_for_ordering`. */
  function RequiresRequestHashForOrdering(r: Router, model: bytes): bool {
    r.single.None? && model in r.modelIndex && |r.modelIndex[model]| > 1
  }

  /** A hash is needed exactly for models with more than one candidate. */
  lemma RequiresHashIffGroup(r: Router, model: bytes)
    requires Valid(r)
    ensures RequiresRequestHashForOrdering(r, model) <==> model in r.modelIndex && |r.modelIndex[model]| > 1
  {
    if r.single.Some? && model in r.modelIndex {
      SingletonKeys(r.modelIndex, model, r.single.value.0);
    }
  }

  /** `has_candidate_for_upstream`. */
  function HasCandidateForUpstream(r: Router, model: bytes, upstream: nat): bool {
    if r.single.Some? then
      model == r.single.value.0 && r.single.value.1.upstreamIndex == upstream
    else
      model in r.modelIndex &&
      exists k | 0 <= k < |r.modelIndex[model]| :: r.modelIndex[model][k].upstreamIndex == upstream
  }

  lemma HasCandidateIffIndexed(r: Router, model: bytes, upstream: nat)
    requires Valid(r)
    ensures HasCandidateForUpstream(r, model, upstream) <==>
            model in r.modelIndex && exists c | c in r.modelIndex[model] :: c.upstreamIndex == upstream
  {
    if r.single.Some? && model in r.modelIndex {
      SingletonKeys(r.modelIndex, model, r.single.value.0);
    }
    if model in r.modelIndex && exists c | c in r.modelIndex[model] :: c.upstreamIndex == upstream {
      var c :| c in r.modelIndex[model] && c.upstreamIndex == upstream;
      var k :| 0 <= k < |r.modelIndex[model]| && r.modelIndex[model][k] == c;
    }
  }

  /** `resolve_if_single_candidate`. */
  function ResolveIfSingleCandidate(r: Router, model: bytes): (t: Result<Option<RouteTarget>, CanonicalError>)
  {
    if r.single.Some? then
      if model == r.single.value.0 then
        match RouteFromCandidate(r, r.single.value.1)
        case Ok(t) => Ok(Some(t))
        case Err(e) => Err(e)
      else Err(NoUpstream(model))
    else if model in r.modelIndex then
      var cs := r.modelIndex[model];
      if |cs| == 1 then
        match RouteFromCandidate(r, cs[0])
        case Ok(t) => Ok(Some(t))
        case Err(e) => Err(e)
      else Ok(None)
    else Err(NoUpstream(model))
  }

  /** A group of several candidates defers to hash ordering; a single
      candidate is the route `Resolve` picks for every hash; an unknown model
      is an invalid request. */
  lemma SingleCandidateAgreesWithResolve(r: Router, model: bytes, mixedHash: u64)
    requires Valid(r)
    ensures model !in r.modelIndex ==> ResolveIfSingleCandidate(r, model) == Err(NoUpstream(model))
    ensures model in r.modelIndex && |r.modelIndex[model]| > 1 ==> ResolveIfSingleCandidate(r, model) == Ok(None)
    ensures model in r.modelIndex && |r.modelIndex[model]| == 1 ==>
              var t := Resolve(r, model, mixedHash);
              t.Ok? && ResolveIfSingleCandidate(r, model) == Ok(Some(t.value))
  {
    ResolveIsIndexLookup(r, model, mixedHash);
    if r.single.Some? && model in r.modelIndex {
      SingletonKeys(r.modelIndex, model, r.single.value.0);
    }
  }

  // ------------------------------------------------------------------
  // Ordered failover list

  function Rotate(cs: seq<Candidate>, start: nat): (r: seq<Candidate>)
    requires start <= |cs|
    ensures |r| == |cs|
    ensures start < |cs| ==> r[0] == cs[start]
    ensures forall c :: c in r <==> c in cs
  {
    cs[start..] + cs[..start]
  }

  function Upstreams(cs: seq<Candidate>): set<nat> {
    set c | c in cs :: c.upstreamIndex
  }

  /** The candidates whose upstream has not occurred earlier in the list. */
  function FirstOccurrences(cs: seq<Candidate>): seq<Candidate>
    decreases |cs|
  {
    if |cs| == 0 then []
    else
      var d := FirstOccurrences(cs[..|cs| - 1]);
      var c := cs[|cs| - 1];
      if c.upstreamIndex in Upstreams(d) then d else d + [c]
  }

  predicate NoDuplicateUpstream(ts: seq<RouteTarget>) {
    forall i, j | 0 <= i < j < |ts| :: ts[i].upstreamIndex != ts[j].upstreamIndex
  }

  predicate NoDuplicateCandidateUpstream(cs: seq<Candidate>) {
    forall i, j | 0 <= i < j < |cs| :: cs[i].upstreamIndex != cs[j].upstreamIndex
  }

  lemma FirstOccurrencesSnoc(cs: seq<Candidate>, c: Candidate)
    ensures FirstOccurrences(cs + [c]) ==
      if c.upstreamIndex in Upstreams(FirstOccurrences(cs)) then FirstOccurrences(cs) else FirstOccurrences(cs) + [c]
  {
    assert (cs + [c])[..|cs|] == cs;
  }

  /** First occurrences keep at most one candidate per upstream. */
  lemma {:induction false} FirstOccurrencesNoDuplicates(cs: seq<Candidate>)
    ensures NoDuplicateCandidateUpstream(FirstOccurrences(cs))
    decreases |cs|
  {
    if |cs| > 0 {
      var init := cs[..|cs| - 1];
      var c := cs[|cs| - 1];
      FirstOccurrencesNoDuplicates(init);
      assert cs == init + [c];
      FirstOccurrencesSnoc(init, c);
      var d := FirstOccurrences(init);
      if c.upstreamIndex !in Upstreams(d) {
        forall i | 0 <= i < |d|
          ensures d[i].upstreamIndex != c.upstreamIndex
        {
          assert d[i] in d;
        }
      }
    }
  }

  /** First occurrences are drawn from the list, cover each of its
      upstreams, and start with its head. */
  lemma {:induction false} FirstOccurrencesCover(cs: seq<Candidate>)
    ensures forall c | c in FirstOccurrences(cs) :: c in cs
    ensures Upstreams(FirstOccurrences(cs)) == Upstreams(cs)
    ensures |cs| > 0 ==> |FirstOccurrences(cs)| > 0 && FirstOccurrences(cs)[0] == cs[0]
    decreases |cs|
  {
    if |cs| > 0 {
      var init := cs[..|cs| - 1];
      var c := cs[|cs| - 1];
      FirstOccurrencesCover(init);
      assert cs == init + [c];
      FirstOccurrencesSnoc(init, c);
      var d := FirstOccurrences(init);
      UpstreamsSnoc(init, c);
      UpstreamsSnoc(d, c);
      if |init| > 0 {
        assert init[0] == cs[0];
      }
    }
  }

  /** The routes of a candidate list, stopping at the first invalid model id. */
  function Targets(r: Router, cs: seq<Candidate>): (ts: Result<seq<RouteTarget>, CanonicalError>)
    ensures ts.Ok? ==> |ts.value| == |cs|
    ensures ts.Ok? ==> forall k | 0 <= k < |cs| :: ts.value[k].upstreamIndex == cs[k].upstreamIndex
    decreases |cs|
  {
    if |cs| == 0 then Ok([])
    else
      var p := Targets(r, cs[..|cs| - 1]);
      if p.Err? then p
      else match RouteFromCandidate(r, cs[|cs| - 1])
        case Err(e) => Err(e)
        case Ok(t) => Ok(p.value + [t])
  }

  lemma {:induction false} TargetsAllValid(r: Router, cs: seq<Candidate>)
    requires forall c | c in cs :: c.modelId < |r.interned|
    ensures Targets(r, cs).Ok?
    ensures |cs| > 0 ==> Targets(r, cs).value[0] == RouteFromCandidate(r, cs[0]).value
    decreases |cs|
  {
    if |cs| > 0 {
      TargetsAllValid(r, cs[..|cs| - 1]);
      assert cs[|cs| - 1] in cs;
      if |cs| > 1 {
        assert cs[..|cs| - 1][0] == cs[0];
      }
    }
  }

  lemma TargetsSnoc(r: Router, cs: seq<Candidate>, c: Candidate)
    ensures Targets(r, cs + [c]) ==
      if Targets(r, cs).Err? then Targets(r, cs)
      else match RouteFromCandidate(r, c)
        case Err(e) => Err(e)
        case Ok(t) => Ok(Targets(r, cs).value + [t])
  {
    assert (cs + [c])[..|cs|] == cs;
  }

  function Single(t: Result<RouteTarget, CanonicalError>): Result<seq<RouteTarget>, CanonicalError> {
    match t
    case Ok(v) => Ok([v])
    case Err(e) => Err(e)
  }

  /** What `resolve_ordered` returns: for a group of several candidates, the
      rotation that starts at the hash-selected candidate, keeping only the
      first candidate of each upstream. */
  function ResolveOrderedSpec(r: Router, model: bytes, mixedHash: u64): Result<seq<RouteTarget>, CanonicalError>
    requires NonEmptyGroups(r)
  {
    if r.single.Some? then
      if model == r.single.value.0 then Single(RouteFromCandidate(r, r.single.value.1)) else Err(NoUpstream(model))
    else if model !in r.modelIndex then Err(NoUpstream(model))
    else
      var cs := r.modelIndex[model];
      if |cs| == 1 then Single(RouteFromCandidate(r, cs[0]))
      else
        var ts := Targets(r, FirstOccurrences(Rotate(cs, SelectAliasGroupIndex(|cs|, mixedHash))));
        if ts.Ok? && |ts.value| == 0 then Err(NoUpstream(model)) else ts
  }

  /** `mark_unseen_upstream`: for an index below 128, whether it was unseen,
      and it is seen afterwards; larger indices are not tracked (the caller
      then searches the list). The two 64-bit masks are the set `seen`. */
  method MarkUnseenUpstream(upstream: nat, seen: set<nat>) returns (unseen: bool, seen': set<nat>)
    ensures upstream < 128 ==> unseen == (upstream !in seen) && seen' == seen + {upstream}
    ensures upstream >= 128 ==> !unseen && seen' == seen
  {
    if upstream < 128 {
      unseen := upstream !in seen;
      seen' := seen + {upstream};
    } else {
      unseen, seen' := false, seen;
    }
  }

  lemma UpstreamsSnoc(d: seq<Candidate>, c: Candidate)
    ensures Upstreams(d + [c]) == Upstreams(d) + {c.upstreamIndex}
  {
    assert c in d + [c];
    forall x | x in d ensures x in d + [x] && x in d + [c] { }
  }

  /** `u` is an upstream of the list exactly when some position holds it. */
  lemma UpstreamsAt(cs: seq<Candidate>, u: nat)
    ensures u in Upstreams(cs) <==> exists k | 0 <= k < |cs| :: cs[k].upstreamIndex == u
  {
    if u in Upstreams(cs) {
      var x :| x in cs && x.upstreamIndex == u;
      var k :| 0 <= k < |cs| && cs[k] == x;
    }
  }

  lemma {:induction false} FirstOccurrencesGrow(cs: seq<Candidate>, n: nat)
    requires n <= |cs|
    ensures FirstOccurrences(cs[..n]) <= FirstOccurrences(cs)
    decreases |cs|
  {
    if n < |cs| {
      var init := cs[..|cs| - 1];
      assert init[..n] == cs[..n];
      FirstOccurrencesGrow(init, n);
      assert cs == init + [cs[|cs| - 1]];
      FirstOccurrencesSnoc(init, cs[|cs| - 1]);
    } else {
      assert cs[..n] == cs;
    }
  }

  /** Once a prefix meets an invalid model id, the whole list fails with
      that error. */
  lemma {:induction false} TargetsErrExtends(r: Router, a: seq<Candidate>, b: seq<Candidate>)
    requires a <= b && Targets(r, a).Err?
    ensures Targets(r, b) == Targets(r, a)
    decreases |b|
  {
    if |b| > |a| {
      var init := b[..|b| - 1];
      assert a <= init;
      TargetsErrExtends(r, a, init);
    } else {
      assert a == b;
    }
  }

  /** The mask set holds exactly the upstreams below 128 already kept. */
  ghost predicate SeenAgrees(seen: set<nat>, kept: seq<Candidate>) {
    forall u :: u in seen <==> u < 128 && u in Upstreams(kept)
  }

  /** One step of the loop of `resolve_ordered`: the candidate is unseen
      exactly when its upstream was not kept before, and the set of seen
      upstreams follows the kept list. */
  lemma SeenStep(seen: set<nat>, seen': set<nat>, unseen: bool, kept: seq<Candidate>, ordered: seq<RouteTarget>, c: Candidate)
    requires SeenAgrees(seen, kept)
    requires |ordered| == |kept| && forall k | 0 <= k < |kept| :: ordered[k].upstreamIndex == kept[k].upstreamIndex
    requires c.upstreamIndex < 128 ==> unseen == (c.upstreamIndex !in seen) && seen' == seen + {c.upstreamIndex}
    requires c.upstreamIndex >= 128 ==>
      seen' == seen && unseen == !exists k | 0 <= k < |ordered| :: ordered[k].upstreamIndex == c.upstreamIndex
    ensures unseen <==> c.upstreamIndex !in Upstreams(kept)
    ensures SeenAgrees(seen', if unseen then kept + [c] else kept)
  {
    UpstreamsSnoc(kept, c);
    UpstreamsAt(kept, c.upstreamIndex);
  }

  /** The first occurrences of a longer prefix of the list. */
  lemma PrefixStep(rotated: seq<Candidate>, i: nat)
    requires i < |rotated|
    ensures FirstOccurrences(rotated[..i + 1]) ==
      if rotated[i].upstreamIndex in Upstreams(FirstOccurrences(rotated[..i])) then FirstOccurrences(rotated[..i])
      else FirstOccurrences(rotated[..i]) + [rotated[i]]
  {
    assert rotated[..i + 1] == rotated[..i] + [rotated[i]];
    FirstOccurrencesSnoc(rotated[..i], rotated[i]);
  }

  /** An invalid model id met in a prefix is the error of the whole list. */
  lemma PrefixErr(r: Router, rotated: seq<Candidate>, n: nat)
    requires n <= |rotated| && Targets(r, FirstOccurrences(rotated[..n])).Err?
    ensures Targets(r, FirstOccurrences(rotated)) == Targets(r, FirstOccurrences(rotated[..n]))
  {
    FirstOccurrencesGrow(rotated, n);
    TargetsErrExtends(r, FirstOccurrences(rotated[..n]), FirstOccurrences(rotated));
  }

  /** The loop of `resolve_ordered` over the rotated group: a candidate is
      kept when its upstream is unseen (a mask bit below 128, a search of
      the routes so far above), and every kept candidate becomes a route. */
  method FirstOccurrenceRoutes(r: Router, rotated: seq<Candidate>) returns (res: Result<seq<RouteTarget>, CanonicalError>)
    ensures res == Targets(r, FirstOccurrences(rotated))
  {
    var ordered: seq<RouteTarget> := [];
    var seen: set<nat> := {};
    ghost var kept: seq<Candidate> := [];
    for i := 0 to |rotated|
      invariant kept == FirstOccurrences(rotated[..i])
      invariant Targets(r, kept) == Ok(ordered)
      invariant SeenAgrees(seen, kept)
    {
      var c := rotated[i];
      PrefixStep(rotated, i);
      var unseen;
      ghost var before := seen;
      if c.upstreamIndex < 128 {
        unseen, seen := MarkUnseenUpstream(c.upstreamIndex, seen);
      } else {
        unseen := !exists k | 0 <= k < |ordered| :: ordered[k].upstreamIndex == c.upstreamIndex;
      }
      SeenStep(before, seen, unseen, kept, ordered, c);
      if unseen {
        TargetsSnoc(r, kept, c);
        match RouteFromCandidate(r, c) {
          case Err(e) =>
            PrefixErr(r, rotated, i + 1);
            return Err(e);
          case Ok(t) => ordered := ordered + [t];
        }
        kept := kept + [c];
      }
    }
    assert rotated[..|rotated|] == rotated;
    return Ok(ordered);
  }

  /** `resolve_ordered`. */
  method ResolveOrdered(r: Router, model: bytes, mixedHash: u64) returns (res: Result<seq<RouteTarget>, CanonicalError>)
    requires NonEmptyGroups(r)
    ensures res == ResolveOrderedSpec(r, model, mixedHash)
  {
    if r.single.Some? {
      if model == r.single.value.0 {
        return Single(RouteFromCandidate(r, r.single.value.1));
      }
      return Err(NoUpstream(model));
    }
    if model !in r.modelIndex {
      return Err(NoUpstream(model));
    }
    var cs := r.modelIndex[model];
    if |cs| == 1 {
      return Single(RouteFromCandidate(r, cs[0]));
    }
    var start := SelectAliasGroupIndex(|cs|, mixedHash);
    res := FirstOccurrenceRoutes(r, cs[start..] + cs[..start]);
    if res.Ok? && |res.value| == 0 {
      res := Err(NoUpstream(model));
    }
  }

  /** No upstream appears twice in the failover list. */
  lemma OrderedHasNoDuplicates(r: Router, model: bytes, mixedHash: u64)
    requires NonEmptyGroups(r)
    ensures ResolveOrderedSpec(r, model, mixedHash).Ok? ==> NoDuplicateUpstream(ResolveOrderedSpec(r, model, mixedHash).value)
  {
    if r.single.None? && model in r.modelIndex && |r.modelIndex[model]| > 1 {
      var cs := r.modelIndex[model];
      FirstOccurrencesNoDuplicates(Rotate(cs, SelectAliasGroupIndex(|cs|, mixedHash)));
    }
  }

  /** For a group of several candidates, the deduplicated rotation yields a
      non-empty list that starts at the hash-selected candidate and reaches
      every upstream of the group. */
  lemma GroupOrderFacts(r: Router, model: bytes, mixedHash: u64)
    requires Valid(r) && model in r.modelIndex && |r.modelIndex[model]| > 1
    ensures var cs := r.modelIndex[model];
      var start := SelectAliasGroupIndex(|cs|, mixedHash);
      var ts := Targets(r, FirstOccurrences(Rotate(cs, start)));
      ts.Ok? && |ts.value| > 0 && ts.value[0] == RouteFromCandidate(r, cs[start]).value &&
      forall u | u in Upstreams(cs) :: exists k | 0 <= k < |ts.value| :: ts.value[k].upstreamIndex == u
  {
    var cs := r.modelIndex[model];
    var start := SelectAliasGroupIndex(|cs|, mixedHash);
    var rot := Rotate(cs, start);
    var d := FirstOccurrences(rot);
    FirstOccurrencesCover(rot);
    assert forall c | c in d :: c.modelId < |r.interned|;
    TargetsAllValid(r, d);
    var ts := Targets(r, d).value;
    forall u | u in Upstreams(cs)
      ensures exists k | 0 <= k < |ts| :: ts[k].upstreamIndex == u
    {
      assert u in Upstreams(d);
      var x :| x in d && x.upstreamIndex == u;
      var k :| 0 <= k < |d| && d[k] == x;
      assert ts[k].upstreamIndex == u;
    }
  }

  /** For a built router, the failover list exists exactly for known models,
      covers every upstream of the model's group, and starts with the route
      `Resolve` picks for the same hash (the sticky primary). */
  lemma OrderedStartsWithResolved(r: Router, model: bytes, mixedHash: u64)
    requires Valid(r)
    ensures ResolveOrderedSpec(r, model, mixedHash).Ok? <==> model in r.modelIndex
    ensures model in r.modelIndex ==>
      var ts := ResolveOrderedSpec(r, model, mixedHash).value;
      |ts| > 0 && ts[0] == Resolve(r, model, mixedHash).value &&
      (forall u | u in Upstreams(r.modelIndex[model]) :: exists k | 0 <= k < |ts| :: ts[k].upstreamIndex == u)
  {
    ResolveIsIndexLookup(r, model, mixedHash);
    if model in r.modelIndex {
      var cs := r.modelIndex[model];
      if r.single.Some? {
        SingletonKeys(r.modelIndex, model, r.single.value.0);
      }
      if |cs| > 1 {
        assert r.single.None?;
        GroupOrderFacts(r, model, mixedHash);
      } else {
        assert cs == [cs[0]];
        assert cs[0].modelId < |r.interned|;
        var ts := ResolveOrderedSpec(r, model, mixedHash).value;
        forall u | u in Upstreams(cs)
          ensures exists k | 0 <= k < |ts| :: ts[k].upstreamIndex == u
        {
          assert ts[0].upstreamIndex == u;
        }
      }
    }
  }
}
