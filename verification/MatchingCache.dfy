/** The matching service's cache of source indexes, while other parties write and recreate profiles.

The loader answers a probe with a snapshot, or says that the revision it was told is still current.
`World` is the truth outside the service: the current source of each profile, and every source its
present incarnation ever had, by revision. */
module MatchingCache {
  import opened Wrappers
  import opened AmazonMatching

  datatype Reply = Unavailable | Unchanged | Snapshot(source: Source)

  datatype Cached = Cached(revision: nat, index: Index)

  datatype World = World(current: map<Text, Source>, versions: map<Text, map<int, Source>>)

  /** Each profile's source is recorded under its revision, and no two sources share one. */
  ghost predicate ValidWorld(w: World) {
    && (forall p :: p in w.current ==>
          && p in w.versions && w.current[p].revision in w.versions[p]
             && w.versions[p][w.current[p].revision] == w.current[p])
    && (forall p, r :: p in w.versions && r in w.versions[p] ==> GoodSource(w.versions[p][r], p, r))
  }

  ghost predicate GoodSource(s: Source, profile: Text, revision: nat) {
    s.profile == profile && s.revision == revision && DistinctIds(s.items)
  }

  // Outside steps -------------------------------------------------------------------------------------------

  /** A write gives a profile a new source under a revision its incarnation never used. */
  ghost predicate Writes(w: World, p: Text, s: Source, w': World) {
    && p in w.current && p in w.versions && s.profile == p && DistinctIds(s.items) && s.revision !in w.versions[p]
    && w' == World(w.current[p := s], w.versions[p := w.versions[p][s.revision := s]])
  }

  /** A profile under an identifier nobody knew appears. */
  ghost predicate Creates(w: World, p: Text, s: Source, w': World) {
    && p !in w.current && p !in w.versions && s.profile == p && DistinctIds(s.items)
    && w' == World(w.current[p := s], w.versions[p := map[s.revision := s]])
  }

  /** A profile disappears; the sources it had stay on record until its identifier is used again. */
  ghost predicate Removes(w: World, p: Text, w': World) {
    w' == World(w.current - {p}, w.versions)
  }

  /** Destructive work on a profile starts a new incarnation at any revision, or leaves none. */
  ghost predicate Recreates(w: World, p: Text, s: Option<Source>, w': World) {
    && (s.Some? ==> s.value.profile == p && DistinctIds(s.value.items))
    && w' == if s.Some? then World(w.current[p := s.value], w.versions[p := map[s.value.revision := s.value]])
             else World(w.current - {p}, w.versions - {p})
  }

  /** Any number of writes, creations and removals: every recorded source stays on record. */
  ghost predicate Evolves(w: World, w': World) {
    && ValidWorld(w')
    && forall p, r :: p in w.versions && r in w.versions[p] ==>
       p in w'.versions && r in w'.versions[p] && w'.versions[p][r] == w.versions[p][r]
  }

  // What other parties may do while a load runs keeps every recorded source.
  lemma OutsideStepEvolves(w: World, p: Text, s: Source, w': World)
    requires ValidWorld(w) && (Writes(w, p, s, w') || Creates(w, p, s, w') || Removes(w, p, w'))
    ensures Evolves(w, w')
  {
    hide DistinctIds;
  }

  // The cache -----------------------------------------------------------------------------------------------

  /** Every cached index is the index of the source its incarnation had at that revision. */
  ghost predicate CacheFits(cache: map<Text, Cached>, w: World) {
    forall p :: p in cache ==> EntryFits(cache[p], p, w)
  }

  ghost predicate EntryFits(e: Cached, p: Text, w: World) {
    p in w.versions && HasIndex(w.versions[p], e.revision, e.index)
  }

  ghost predicate HasIndex(versions: map<int, Source>, revision: nat, index: Index) {
    revision in versions && DistinctIds(versions[revision].items) && IndexOf(versions[revision]) == Some(index)
  }

  lemma CacheSurvivesWrites(cache: map<Text, Cached>, w: World, w': World)
    requires CacheFits(cache, w) && Evolves(w, w')
    ensures CacheFits(cache, w')
  {
    hide IndexOf, DistinctIds, ValidWorld;
  }

  /** What a probe of a profile may answer: a snapshot of its current source, or that a known revision
  other than zero is still current. */
  ghost predicate Answers(reply: Reply, w: World, p: Text, known: nat) {
    match reply
    case Unavailable => true
    case Unchanged => known != 0 && p in w.current && w.current[p].revision == known
    case Snapshot(s) => p in w.current && s == w.current[p]
  }

  datatype Descriptor = Descriptor(profile: Text, amazon: bool)

  /** Profiles left out, by reason. */
  datatype Skips = Skips(notAmazon: nat, unavailable: nat)

  /** The descriptors of profiles that no Amazon import feeds. */
  function OthersAmong(descriptors: seq<Descriptor>): nat {
    if descriptors == [] then 0
    else OthersAmong(descriptors[..|descriptors| - 1]) + if descriptors[|descriptors| - 1].amazon then 0 else 1
  }

  /** Every profile is either Amazon's or counted among the others. */
  lemma {:induction false} OthersAreCounted(descriptors: seq<Descriptor>)
    ensures
      OthersAmong(descriptors) + |set i | 0 <= i < |descriptors| && descriptors[i].amazon| == |descriptors|
  {
    if descriptors != [] {
      var n := |descriptors| - 1;
      var before := set i | 0 <= i < n && descriptors[..n][i].amazon;
      var all := set i | 0 <= i < |descriptors| && descriptors[i].amazon;
      OthersAreCounted(descriptors[..n]);
      assert all == if descriptors[n].amazon then before + {n} else before;
    }
  }

  function Profiles(descriptors: seq<Descriptor>): set<Text> {
    set d | d in descriptors :: d.profile
  }

  /** The loaders' answers and the writes between them. */
  ghost predicate Observing(descriptors: seq<Descriptor>, loaders: seq<nat -> Reply>, worlds: seq<World>)
    requires |loaders| == |descriptors| && |worlds| == |descriptors| + 1
  {
    forall i :: 0 <= i < |descriptors| ==> ObservingAt(descriptors[i], loaders[i], worlds[i], worlds[i + 1])
  }

  ghost predicate ObservingAt(d: Descriptor, loader: nat -> Reply, w: World, later: World) {
    ValidWorld(w) && Evolves(w, later) && forall known :: Answers(loader(known), w, d.profile, known)
  }

  lemma ObservedAt(descriptors: seq<Descriptor>, loaders: seq<nat -> Reply>, worlds: seq<World>, i: nat)
    requires |loaders| == |descriptors| && |worlds| == |descriptors| + 1 && i < |descriptors|
    requires Observing(descriptors, loaders, worlds)
    ensures ValidWorld(worlds[i]) && Evolves(worlds[i], worlds[i + 1])
    ensures forall known :: Answers(loaders[i](known), worlds[i], descriptors[i].profile, known)
  {
    hide ValidWorld, Evolves, Answers;
    assert ObservingAt(descriptors[i], loaders[i], worlds[i], worlds[i + 1]);
  }

  /** Profile `i` had an indexable source when it was probed. */
  ghost predicate UsableAt(descriptors: seq<Descriptor>, worlds: seq<World>, i: nat) {
    && i < |descriptors| && i < |worlds| && descriptors[i].profile in worlds[i].current
    && DistinctIds(worlds[i].current[descriptors[i].profile].items)
  }

  ghost function Current(descriptors: seq<Descriptor>, worlds: seq<World>, i: nat): (s: Source)
    requires UsableAt(descriptors, worlds, i)
    ensures DistinctIds(s.items)
  {
    worlds[i].current[descriptors[i].profile]
  }

  datatype Loaded = Skipped | Failed | Usable(index: Index)

  /** The fresh indexes of the sources observed under `used`; every other one of the first `n` profiles is not
  Amazon's or could not be read. */
  ghost predicate FreshUpTo(
    descriptors: seq<Descriptor>, loaders: seq<nat -> Reply>, worlds: seq<World>, n: nat, used: set<nat>,
    indexes: set<Index>)
    requires |loaders| == |descriptors| && n <= |descriptors|
  {
    && (forall i :: i in used ==> i < n && UsableAt(descriptors, worlds, i))
    && (forall x :: x in indexes <==> exists i :: i in used && IndexOf(Current(descriptors, worlds, i)) == Some(x))
    && (forall i :: 0 <= i < n && i !in used ==> NotRead(descriptors[i], loaders[i]))
  }

  ghost predicate NotRead(d: Descriptor, loader: nat -> Reply) {
    !d.amazon || exists known :: loader(known) == Unavailable
  }

  ghost predicate FreshIndexes(
    descriptors: seq<Descriptor>, loaders: seq<nat -> Reply>, worlds: seq<World>, used: set<nat>, indexes: set<Index>)
    requires |loaders| == |descriptors|
  {
    FreshUpTo(descriptors, loaders, worlds, |descriptors|, used, indexes)
  }

  lemma NothingObserved(descriptors: seq<Descriptor>, loaders: seq<nat -> Reply>, worlds: seq<World>)
    requires |loaders| == |descriptors|
    ensures FreshUpTo(descriptors, loaders, worlds, 0, {}, {})
  {
  }

  lemma PassesOver(
    descriptors: seq<Descriptor>, loaders: seq<nat -> Reply>, worlds: seq<World>, n: nat, used: set<nat>,
    indexes: set<Index>)
    requires |loaders| == |descriptors| && n < |descriptors|
        && FreshUpTo(descriptors, loaders, worlds, n, used, indexes)
    requires NotRead(descriptors[n], loaders[n])
    ensures FreshUpTo(descriptors, loaders, worlds, n + 1, used, indexes) && n !in used
  {
    hide IndexOf, UsableAt, NotRead;
  }

  lemma TakesIn(
    descriptors: seq<Descriptor>, loaders: seq<nat -> Reply>, worlds: seq<World>, n: nat, used: set<nat>,
    indexes: set<Index>, index: Index)
    requires |loaders| == |descriptors| && n < |descriptors|
        && FreshUpTo(descriptors, loaders, worlds, n, used, indexes)
    requires UsableAt(descriptors, worlds, n) && IndexOf(Current(descriptors, worlds, n)) == Some(index)
    ensures FreshUpTo(descriptors, loaders, worlds, n + 1, used + {n}, indexes + {index}) && n !in used
  {
    hide IndexOf, UsableAt, NotRead, DistinctIds;
    var more, all := used + {n}, indexes + {index};
    assert n in more;
    forall x | x in all ensures exists i :: i in more && IndexOf(Current(descriptors, worlds, i)) == Some(x) {
      if x != index {
        var i :| i in used && IndexOf(Current(descriptors, worlds, i)) == Some(x);
        assert i in more;
      }
    }
  }

  /** Some source that was read cannot be indexed. */
  ghost predicate SourceFails(descriptors: seq<Descriptor>, loaders: seq<nat -> Reply>, worlds: seq<World>)
    requires |loaders| == |descriptors|
  {
    exists i: nat ::
      && UsableAt(descriptors, worlds, i) && descriptors[i].amazon && Opened(loaders[i])
      && IndexOf(Current(descriptors, worlds, i)) == None
  }

  ghost predicate Opened(loader: nat -> Reply) {
    exists known :: loader(known).Snapshot?
  }

  ghost predicate DistinctProfiles(descriptors: seq<Descriptor>) {
    forall i, j :: 0 <= i < j < |descriptors| ==> descriptors[i].profile != descriptors[j].profile
  }

  // Matching through the cache --------------------------------------------------------------------------

  datatype Input = Input(payment: Payment, qualified: bool)

  datatype Projection = NotQualified | Projected(mismatched: nat, result: Matches)

  function Mismatched(t: Payment, indexes: set<Index>): set<Index> {
    set x | x in indexes && (x.currency != t.currency || x.scale != t.scale)
  }

  /** What is counted as mismatched is what the payment is not matched with: an index is searched exactly when it is
  in the payment's currency and scale, and counted otherwise. */
  lemma MismatchedAreNotSearched(t: Payment, indexes: set<Index>)
    ensures
      var searched := set x | x in indexes && x.currency == t.currency && x.scale == t.scale;
      && |Mismatched(t, indexes)| + |searched| == |indexes|
      && Candidates(t, indexes) == (set x, c | x in searched && c in x.orders :: c)
      && Candidates(t, Mismatched(t, indexes)) == {}
  {
    var searched := set x | x in indexes && x.currency == t.currency && x.scale == t.scale;
    assert Mismatched(t, indexes) + searched == indexes && Mismatched(t, indexes) * searched == {};
  }

  ghost predicate BatchFails(inputs: seq<Input>, indexes: set<Index>, limit: int)
    requires ValidIndexes(indexes)
  {
    exists i :: 0 <= i < |inputs| && inputs[i].qualified && MatchResult(inputs[i].payment, indexes, limit).None?
  }

  ghost predicate BatchRight(inputs: seq<Input>, indexes: set<Index>, limit: int, results: seq<Projection>)
    requires ValidIndexes(indexes)
  {
    |results| == |inputs| && forall i :: 0 <= i < |inputs| ==>
      if inputs[i].qualified then
        results[i].Projected? && MatchResult(inputs[i].payment, indexes, limit) == Some(results[i].result)
        && results[i].mismatched == |Mismatched(inputs[i].payment, indexes)|
      else results[i] == NotQualified
  }

  /** Each qualified payment gets what the three passes give over the loaded indexes. */
  method MatchAll(inputs: seq<Input>, indexes: set<Index>, limit: int) returns (r: Option<seq<Projection>>)
    requires ValidIndexes(indexes)
    ensures r.None? <==> BatchFails(inputs, indexes, limit)
    ensures r.Some? ==> BatchRight(inputs, indexes, limit, r.value)
  {
    hide MatchResult, ValidIndexes;
    var results: seq<Projection> := [];
    for i := 0 to |inputs|
      invariant |results| == i
      invariant forall k :: 0 <= k < i && inputs[k].qualified ==> MatchResult(inputs[k].payment, indexes, limit).Some?
      invariant forall k :: 0 <= k < i ==>
        if inputs[k].qualified then
          results[k].Projected? && MatchResult(inputs[k].payment, indexes, limit) == Some(results[k].result)
          && results[k].mismatched == |Mismatched(inputs[k].payment, indexes)|
        else results[k] == NotQualified
    {
      if inputs[i].qualified {
        var found := MatchOrders(inputs[i].payment, indexes, limit);
        if found.None? {
          return None;
        }
        results := results + [Projected(|Mismatched(inputs[i].payment, indexes)|, found.value)];
      } else {
        results := results + [NotQualified];
      }
    }
    return Some(results);
  }

  lemma NoIndexes()
    ensures ValidIndexes({})
  {
  }

  // Loaded indexes of different profiles are valid inputs of the passes.
  lemma LoadedAreValid(
    descriptors: seq<Descriptor>, loaders: seq<nat -> Reply>, worlds: seq<World>, used: set<nat>, indexes: set<Index>)
    requires |loaders| == |descriptors| && |worlds| == |descriptors| + 1 && Observing(descriptors, loaders, worlds)
    requires DistinctProfiles(descriptors) && FreshIndexes(descriptors, loaders, worlds, used, indexes)
    ensures ValidIndexes(indexes)
  {
    hide IndexOf, DistinctIds, ValidIndexes, Answers, Evolves;
    var sources := set i | i in used :: Current(descriptors, worlds, i);
    forall i | i in used ensures Current(descriptors, worlds, i).profile == descriptors[i].profile {
      ObservedAt(descriptors, loaders, worlds, i);
    }
    hide Observing;
    forall s, u | s in sources && u in sources && s.profile == u.profile ensures s == u {
      var i :| i in used && s == Current(descriptors, worlds, i);
      var j :| j in used && u == Current(descriptors, worlds, j);
    }
    forall x | x in indexes ensures exists s :: s in sources && IndexOf(s) == Some(x) {
      var i :| i in used && IndexOf(Current(descriptors, worlds, i)) == Some(x);
      assert Current(descriptors, worlds, i) in sources;
    }
    BuiltIndexesAreValid(sources, indexes);
  }

  // Every reachable state -----------------------------------------------------------------------------------

  /** Loads install an index of a version of the present incarnation, because recreation waits for loads
  to end; other parties write, create and remove at any time; recreation drops the entry first. */
  datatype Event =
    | Outside
    | Recreate(profile: Text, fresh': Option<Source>)
    | Install(profile: Text, revision: nat)
    | Evict(present: set<Text>)

  datatype State = State(cache: map<Text, Cached>, world: World)

  ghost predicate Step(s: State, e: Event, s': State) {
    match e
    case Outside => s'.cache == s.cache && Evolves(s.world, s'.world)
    case Recreate(p, source) => s'.cache == s.cache - {p} && Recreates(s.world, p, source, s'.world)
    case Install(p, r) =>
      && p in s.world.versions && r in s.world.versions[p] && s'.world == s.world
      && DistinctIds(s.world.versions[p][r].items) && IndexOf(s.world.versions[p][r]).Some?
      && s'.cache == s.cache[p := Cached(r, IndexOf(s.world.versions[p][r]).value)]
    case Evict(present) => s'.cache == (map p | p in s.cache && p in present :: s.cache[p]) && s'.world == s.world
  }

  ghost predicate IsRun(states: seq<State>, events: seq<Event>) {
    |states| == |events| + 1 && forall i :: 0 <= i < |events| ==> Step(states[i], events[i], states[i + 1])
  }

  /** Some run leads from the first state to the second. */
  ghost predicate Reaches(s: State, s': State) {
    exists states, events :: IsRun(states, events) && states[0] == s && states[|events|] == s'
  }

  lemma ReachesItself(s: State)
    ensures Reaches(s, s)
  {
    assert IsRun([s], []);
  }

  lemma ReachesTransitive(s: State, m: State, s': State)
    requires Reaches(s, m) && Reaches(m, s')
    ensures Reaches(s, s')
  {
    hide Step;
    var states, events :| IsRun(states, events) && states[0] == s && states[|events|] == m;
    var others, more :| IsRun(others, more) && others[0] == m && others[|more|] == s';
    var joined, all := states + others[1..], events + more;
    forall i | 0 <= i < |all| ensures Step(joined[i], all[i], joined[i + 1]) {
      if i < |events| {
        assert joined[i] == states[i] && joined[i + 1] == states[i + 1] && all[i] == events[i];
      } else {
        var k := i - |events|;
        assert joined[i] == others[k] && joined[i + 1] == others[k + 1] && all[i] == more[k];
      }
    }
    assert IsRun(joined, all);
  }

  lemma ReachesByStep(s: State, m: State, e: Event, s': State)
    requires Reaches(s, m) && Step(m, e, s')
    ensures Reaches(s, s')
  {
    hide Step;
    assert IsRun([m, s'], [e]);
    ReachesTransitive(s, m, s');
  }

  lemma ReachesOutside(s: State, cache: map<Text, Cached>, w: World, later: World)
    requires Reaches(s, State(cache, w)) && CacheFits(cache, w) && Evolves(w, later)
    ensures Reaches(s, State(cache, later)) && CacheFits(cache, later)
  {
    hide Reaches, Evolves, CacheFits;
    CacheSurvivesWrites(cache, w, later);
    ReachesByStep(s, State(cache, w), Outside, State(cache, later));
  }

  ghost predicate Sound(s: State) {
    ValidWorld(s.world) && CacheFits(s.cache, s.world)
  }

  lemma StepKeepsSound(s: State, e: Event, s': State)
    requires Sound(s) && Step(s, e, s')
    ensures Sound(s')
  {
    hide IndexOf, DistinctIds;
    if e.Outside? {
      CacheSurvivesWrites(s.cache, s.world, s'.world);
    }
  }

  lemma {:induction false} RunKeepsSound(states: seq<State>, events: seq<Event>, k: nat)
    requires IsRun(states, events) && Sound(states[0]) && k < |states|
    ensures Sound(states[k])
  {
    hide Sound, Step;
    if k > 0 {
      RunKeepsSound(states, events, k - 1);
      assert Step(states[k - 1], events[k - 1], states[k]);
      StepKeepsSound(states[k - 1], events[k - 1], states[k]);
    }
  }

  /** In every reachable state of loads, writes, evictions, creations, removals and recreations, a cached index
  whose revision is still the source's revision is the freshly built index of the current source, also when the
  profile was recreated at an old revision number. */
  lemma CachedRevisionIsEnough(s: State, s': State, p: Text)
    requires Sound(s) && Reaches(s, s')
    requires p in s'.cache && p in s'.world.current
    requires s'.cache[p].revision == s'.world.current[p].revision
    ensures DistinctIds(s'.world.current[p].items)
    ensures IndexOf(s'.world.current[p]) == Some(s'.cache[p].index)
  {
    hide IndexOf, DistinctIds, Step;
    var states, events :| IsRun(states, events) && states[0] == s && states[|events|] == s';
    RunKeepsSound(states, events, |events|);
    assert EntryFits(s'.cache[p], p, s'.world);
  }

  lemma VersionStays(w: World, later: World, p: Text, r: nat)
    requires Evolves(w, later) && p in w.versions && r in w.versions[p]
    ensures p in later.versions && r in later.versions[p] && later.versions[p][r] == w.versions[p][r]
  {
    hide ValidWorld;
  }

  class Service {
    var cache: map<Text, Cached>
    var builds: nat

    constructor ()
      ensures cache == map[] && builds == 0
    {
      cache, builds := map[], 0;
    }

    /** The revision to send with a probe: when the answer is that it is still current, the cached index is the
    freshly built index of the current source. */
    method CachedRevision(profile: Text, ghost w: World) returns (r: nat)
      requires ValidWorld(w) && CacheFits(cache, w)
      ensures r == if profile in cache then cache[profile].revision else 0
      ensures r == 0 || (profile in w.versions && r in w.versions[profile])
      ensures Answers(Unchanged, w, profile, r) ==>
                profile in cache && cache[profile].revision == r && DistinctIds(w.current[profile].items)
                && IndexOf(w.current[profile]) == Some(cache[profile].index)
    {
      hide IndexOf, DistinctIds;
      assert profile in cache ==> EntryFits(cache[profile], profile, w);
      r := if profile in cache then cache[profile].revision else 0;
    }

    /** An answered index is that of a source the profile had, at the asked revision or a later one. */
    method CachedIndex(profile: Text, minimum: nat, ghost w: World) returns (r: Option<Index>)
      requires CacheFits(cache, w)
      ensures r.None? <==> profile !in cache || cache[profile].revision < minimum
      ensures r.Some? ==> profile in w.versions && exists revision: nat ::
          revision >= minimum && HasIndex(w.versions[profile], revision, r.value)
      ensures r.Some? ==> r.value == cache[profile].index
    {
      hide IndexOf, DistinctIds;
      assert profile in cache ==> EntryFits(cache[profile], profile, w);
      if profile !in cache || cache[profile].revision < minimum {
        return None;
      }
      return Some(cache[profile].index);
    }

    /** Indexes one snapshot, at most once per revision. */
    method IndexSource(source: Source, ghost w: World) returns (r: Option<Index>)
      requires CacheFits(cache, w) && DistinctIds(source.items)
      requires source.profile in w.versions && source.revision in w.versions[source.profile]
               && w.versions[source.profile][source.revision] == source
      modifies this
      ensures r == IndexOf(source)
      ensures CacheFits(cache, w)
      ensures var known := old(source.profile in cache && cache[source.profile].revision == source.revision);
              builds == old(builds) + if known || r.None? then 0 else 1
      ensures cache == old(cache)
          || Step(State(old(cache), w), Install(source.profile, source.revision), State(cache, w))
    {
      hide IndexOf, DistinctIds;
      var profile := source.profile;
      if profile in cache && cache[profile].revision == source.revision {
        assert EntryFits(cache[profile], profile, w);
        return Some(cache[profile].index);
      }
      var index := IndexOrders(source);
      if index.None? {
        return None;
      }
      cache := cache[profile := Cached(source.revision, index.value)];
      builds := builds + 1;
      return index;
    }

    /** Loads one profile through the cache: what it yields is the index of the source that was current
    when the probe was answered, `w`; writes may have happened before the index is stored, `later`. */
    method LoadOne(profile: Text, loader: nat -> Reply, ghost w: World, ghost later: World) returns (r: Loaded)
      requires ValidWorld(w) && CacheFits(cache, w) && Evolves(w, later)
      requires forall known :: Answers(loader(known), w, profile, known)
      modifies this
      ensures CacheFits(cache, later)
      ensures r.Usable? ==>
          profile in w.current && DistinctIds(w.current[profile].items) && IndexOf(w.current[profile]) == Some(r.index)
      ensures r.Failed? ==>
                && profile in w.current && DistinctIds(w.current[profile].items) && IndexOf(w.current[profile]) == None
                && Opened(loader)
      ensures r.Skipped? ==> exists known :: loader(known) == Unavailable
      ensures
        var known := old(if profile in cache then cache[profile].revision else 0);
        && (loader(known) == Unchanged ==> r.Usable? && cache == old(cache) && builds == old(builds))
        && (loader(known) == Unavailable ==> r.Skipped? && cache == old(cache) && builds == old(builds))
        && builds <= old(builds) + 1
      ensures Reaches(State(old(cache), w), State(cache, later))
    {
      hide IndexOf, DistinctIds, Evolves, Reaches;
      ghost var before, moved := State(cache, w), State(cache, later);
      ReachesItself(before);
      ReachesOutside(before, cache, w, later);
      var known := CachedRevision(profile, w);
      var reply := loader(known);
      assert Answers(loader(known), w, profile, known);
      match reply
      case Unavailable => return Skipped;
      case Unchanged =>
        var cached := CachedIndex(profile, known, w);
        if cached.None? {
          return Skipped;
        }
        return Usable(cached.value);
      case Snapshot(source) =>
        assert GoodSource(w.versions[profile][source.revision], profile, source.revision);
        VersionStays(w, later, profile, source.revision);
        var index := IndexSource(source, later);
        if cache != moved.cache {
          ReachesByStep(before, moved, Install(profile, source.revision), State(cache, later));
        }
        return if index.None? then Failed else Usable(index.value);
    }

    /** Loads every listed profile once, in order, while other parties keep writing.

    `worlds[i]` is the truth when probe `i` is answered.  The indexes it yields are freshly built
    indexes of the sources observed, whether they were cached or not. */
    method LoadSources(descriptors: seq<Descriptor>, loaders: seq<nat -> Reply>, ghost worlds: seq<World>)
      returns (r: Option<set<Index>>, ghost used: set<nat>, skipped: Skips)
      requires |loaders| == |descriptors| && |worlds| == |descriptors| + 1
      requires Observing(descriptors, loaders, worlds)
      requires CacheFits(cache, worlds[0])
      modifies this
      ensures r.Some? ==> CacheFits(cache, worlds[|descriptors|])
      ensures r.Some? ==> Reaches(State(old(cache), worlds[0]), State(cache, worlds[|descriptors|]))
      ensures r.None? ==> exists k :: 0 < k <= |descriptors| && CacheFits(cache, worlds[k])
                                      && Reaches(State(old(cache), worlds[0]), State(cache, worlds[k]))
      ensures r.Some? ==> FreshIndexes(descriptors, loaders, worlds, used, r.value)
      ensures r.None? ==> SourceFails(descriptors, loaders, worlds)
      ensures r.Some? ==> skipped.notAmazon + skipped.unavailable + |used| == |descriptors|
      ensures r.Some? ==> skipped.notAmazon == OthersAmong(descriptors)
    {
      hide IndexOf, DistinctIds, ValidWorld, Evolves, CacheFits, Answers, Observing, Profiles, Reaches, Step, FreshUpTo,
           Opened;
      var indexes: set<Index> := {};
      ghost var start := State(cache, worlds[0]);
      ReachesItself(start);
      NothingObserved(descriptors, loaders, worlds);
      used := {};
      skipped := Skips(0, 0);
      for i := 0 to |descriptors|
        invariant CacheFits(cache, worlds[i])
        invariant Reaches(start, State(cache, worlds[i]))
        invariant skipped.notAmazon + skipped.unavailable + |used| == i
        invariant skipped.notAmazon == OthersAmong(descriptors[..i])
        invariant FreshUpTo(descriptors, loaders, worlds, i, used, indexes)
      {
        var d := descriptors[i];
        assert descriptors[..i + 1][..i] == descriptors[..i];
        if !d.amazon {
          skipped := skipped.(notAmazon := skipped.notAmazon + 1);
          PassesOver(descriptors, loaders, worlds, i, used, indexes);
          ObservedAt(descriptors, loaders, worlds, i);
          ReachesOutside(start, cache, worlds[i], worlds[i + 1]);
          continue;
        }
        ObservedAt(descriptors, loaders, worlds, i);
        ghost var probed := State(cache, worlds[i]);
        var loaded := LoadOne(d.profile, loaders[i], worlds[i], worlds[i + 1]);
        ReachesTransitive(start, probed, State(cache, worlds[i + 1]));
        match loaded
        case Skipped =>
          skipped := skipped.(unavailable := skipped.unavailable + 1);
          PassesOver(descriptors, loaders, worlds, i, used, indexes);
        case Failed =>
          assert UsableAt(descriptors, worlds, i);
          return None, used, skipped;
        case Usable(index) =>
          TakesIn(descriptors, loaders, worlds, i, used, indexes, index);
          indexes := indexes + {index};
          used := used + {i};
      }
      ghost var loaded := State(cache, worlds[|descriptors|]);
      assert descriptors[..|descriptors|] == descriptors;
      EvictMissing(Profiles(descriptors), worlds[|descriptors|]);
      ReachesByStep(start, loaded, Evict(Profiles(descriptors)), State(cache, worlds[|descriptors|]));
      return Some(indexes), used, skipped;
    }

    /** Matches a batch of payments.  Nothing is loaded when no payment qualifies; otherwise the answer is that of
    the three passes over the fresh indexes of the sources observed, whatever the cache held. */
    method MatchBatch(inputs: seq<Input>, limit: int, descriptors: seq<Descriptor>, loaders: seq<nat -> Reply>,
      ghost worlds: seq<World>)
      returns (r: Option<seq<Projection>>, ghost indexes: set<Index>, ghost used: set<nat>)
      requires |loaders| == |descriptors| && |worlds| == |descriptors| + 1
      requires Observing(descriptors, loaders, worlds) && DistinctProfiles(descriptors)
      requires CacheFits(cache, worlds[0])
      modifies this
      ensures exists k :: 0 <= k <= |descriptors| && CacheFits(cache, worlds[k])
                          && Reaches(State(old(cache), worlds[0]), State(cache, worlds[k]))
      ensures ValidIndexes(indexes)
      ensures r.None? ==>
                || SourceFails(descriptors, loaders, worlds)
                || (FreshIndexes(descriptors, loaders, worlds, used, indexes) && BatchFails(inputs, indexes, limit))
      ensures r.Some? ==> BatchRight(inputs, indexes, limit, r.value)
      ensures (exists i :: 0 <= i < |inputs| && inputs[i].qualified) ==>
                || FreshIndexes(descriptors, loaders, worlds, used, indexes)
                || (r.None? && SourceFails(descriptors, loaders, worlds))
      ensures (forall i :: 0 <= i < |inputs| ==> !inputs[i].qualified) ==>
          r.Some? && cache == old(cache) && builds == old(builds)
    {
      hide CacheFits, Observing, MatchResult, Reaches, UsableAt, IndexOf, FreshIndexes, SourceFails, ValidIndexes,
           DistinctProfiles;
      indexes, used := {}, {};
      NoIndexes();
      ReachesItself(State(cache, worlds[0]));
      var qualified := false;
      var results: seq<Projection> := [];
      for i := 0 to |inputs|
        invariant qualified <==> exists k :: 0 <= k < i && inputs[k].qualified
        invariant |results| == i && forall k :: 0 <= k < i ==> results[k] == NotQualified
      {
        qualified := qualified || inputs[i].qualified;
        results := results + [NotQualified];
      }
      if !qualified {
        return Some(results), indexes, used;
      }
      var loaded, uses, skipped := LoadSources(descriptors, loaders, worlds);
      if loaded.None? {
        return None, indexes, used;
      }
      indexes, used := loaded.value, uses;
      LoadedAreValid(descriptors, loaders, worlds, used, indexes);
      r := MatchAll(inputs, loaded.value, limit);
    }

    method EvictMissing(present: set<Text>, ghost w: World)
      requires CacheFits(cache, w)
      modifies this
      ensures cache == map p | p in old(cache) && p in present :: old(cache)[p]
      ensures Step(State(old(cache), w), Evict(present), State(cache, w))
      ensures CacheFits(cache, w) && builds == old(builds)
    {
      cache := map p | p in cache && p in present :: cache[p];
    }

    /** Destructive work on one profile: its entry is dropped and loads wait until the work is done. */
    method InvalidateDuring(profile: Text, ghost w: World, ghost s: Option<Source>, ghost w': World)
      requires CacheFits(cache, w) && Recreates(w, profile, s, w')
      modifies this
      ensures Step(State(old(cache), w), Recreate(profile, s), State(cache, w'))
      ensures CacheFits(cache, w') && profile !in cache && builds == old(builds)
    {
      hide IndexOf, DistinctIds;
      cache := cache - {profile};
    }
  }
}
