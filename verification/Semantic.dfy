/**
 Semantic assets: the keyed cache in front of a provider (eventweave/ai/cache.py and sidecar.py)
 and the index that resolves events to assets (eventweave/ai/resolver.py), each against the
 form without it. The provider is an arbitrary deterministic function.
 */
module Semantic {
  import opened Common
  import opened Events
  import opened Ids

  datatype Task = Task(id: string, kind: string, validFor: seq<string>, count: nat)

  datatype Asset = Asset(id: string, kind: string, text: string, sourceEvent: Option<string>)

  datatype Request = Request(task: Task, event: Option<Event>)

  type Provider = Request -> Asset

  type Cache = map<string, Asset>

  /** What stays fixed: provider type and scenario id, which start every key, and the text limit. */
  datatype Setting = Setting(providerType: string, scenario: string, maxLength: nat, provider: Provider)

  predicate Blank(s: string) { forall i :: 0 <= i < |s| ==> IsSpace(s[i]) }

  /** `SemanticValidator.is_valid` */
  predicate ValidAsset(st: Setting, asset: Asset, r: Request) {
    asset.kind == r.task.kind && !Blank(asset.text) && |asset.text| <= st.maxLength
    && (r.task.validFor != [] && r.event.Some? ==> r.event.value.kind in r.task.validFor)
  }

  function EventIdOf(r: Request): string { if r.event.Some? then r.event.value.id else "" }

  /** `build_key`: the parts joined by underscores; an empty event id is left out. */
  function Key(st: Setting, r: Request): string {
    st.providerType + "_" + st.scenario + "_" + TaskKey(r.task.id, EventIdOf(r))
  }

  function TaskKey(task: string, event: string): string { task + if event == "" then "" else "_" + event }

  /** What the provider alone would give: an asset, or a validation error. */
  function Answer(st: Setting, r: Request): Option<Asset> {
    if ValidAsset(st, st.provider(r), r) then Some(st.provider(r)) else None
  }

  /** `generate_task`: the cached asset if it is valid, else the provider's, validated and stored. */
  function Generated(st: Setting, cache: Cache, r: Request, force: bool): (Cache, Option<Asset>) {
    var key := Key(st, r);
    if !force && key in cache && ValidAsset(st, cache[key], r) then (cache, Some(cache[key]))
    else if Answer(st, r).Some? then (cache[key := Answer(st, r).value], Answer(st, r))
    else (cache, None)
  }

  /** The cache after a history of requests. */
  function CacheAfter(st: Setting, start: Cache, history: seq<(Request, bool)>): Cache {
    if history == [] then start
    else
      var n := |history| - 1;
      Generated(st, CacheAfter(st, start, history[..n]), history[n].0, history[n].1).0
  }

  // ---------------------------------------------------------------- when the cache is transparent

  ghost predicate AllIn(requests: Request -> bool, history: seq<(Request, bool)>) {
    forall i :: 0 <= i < |history| ==> requests(history[i].0)
  }

  /**
   Whatever consistent cache is found and whatever was asked before, every request is answered as
   the provider would.
   */
  ghost predicate Transparent(st: Setting, requests: Request -> bool) {
    forall start, history, r, force :: Consistent(st, requests, start) && AllIn(requests, history) && requests(r) ==>
      Generated(st, CacheAfter(st, start, history), r, force).1 == Answer(st, r)
  }

  /** Two requests share a key, and the second would accept the first one's asset. */
  predicate Clash(st: Setting, r: Request, s: Request) {
    Key(st, r) == Key(st, s) && Answer(st, r).Some? && ValidAsset(st, Answer(st, r).value, s)
  }

  /** Requests that share a key want the same asset. */
  ghost predicate NoClash(st: Setting, requests: Request -> bool) {
    forall r, s :: requests(r) && requests(s) && Clash(st, r, s) ==> Answer(st, s) == Answer(st, r)
  }

  /** Every stored asset is the provider's answer to a request with that key. */
  ghost predicate Consistent(st: Setting, requests: Request -> bool, cache: Cache) {
    forall key :: key in cache ==> exists r :: requests(r) && Key(st, r) == key && Answer(st, r) == Some(cache[key])
  }

  lemma {:induction false} GeneratedKeeps(st: Setting, requests: Request -> bool, cache: Cache, r: Request, force: bool)
    requires Consistent(st, requests, cache) && requests(r)
    ensures Consistent(st, requests, Generated(st, cache, r, force).0)
    ensures NoClash(st, requests) ==> Generated(st, cache, r, force).1 == Answer(st, r)
  {
    hide Key, ValidAsset, Answer;
    var key := Key(st, r);
    var (cache', _) := Generated(st, cache, r, force);
    forall k | k in cache' ensures exists s :: requests(s) && Key(st, s) == k && Answer(st, s) == Some(cache'[k]) {
      if k !in cache || cache'[k] != cache[k] {
        assert requests(r) && Key(st, r) == k && Answer(st, r) == Some(cache'[k]);
      }
    }
    if NoClash(st, requests) && !force && key in cache && ValidAsset(st, cache[key], r) {
      var s :| requests(s) && Key(st, s) == key && Answer(st, s) == Some(cache[key]);
    }
  }

  lemma {:induction false} CacheConsistent(
      st: Setting, requests: Request -> bool, start: Cache, history: seq<(Request, bool)>)
    requires Consistent(st, requests, start) && AllIn(requests, history)
    ensures Consistent(st, requests, CacheAfter(st, start, history))
  {
    hide Generated, Consistent;
    if history != [] {
      var n := |history| - 1;
      CacheConsistent(st, requests, start, history[..n]);
      GeneratedKeeps(st, requests, CacheAfter(st, start, history[..n]), history[n].0, history[n].1);
    }
  }

  lemma {:induction false} EmptyConsistent(st: Setting, requests: Request -> bool)
    ensures Consistent(st, requests, map[])
  {
  }

  /** The cache is transparent exactly when no two requests clash. */
  lemma {:induction false} TransparentIff(st: Setting, requests: Request -> bool)
    ensures Transparent(st, requests) <==> NoClash(st, requests)
  {
    hide Generated, Key, ValidAsset, Answer, Consistent;
    if NoClash(st, requests) {
      forall start, history, r, force | Consistent(st, requests, start) && AllIn(requests, history) && requests(r)
        ensures Generated(st, CacheAfter(st, start, history), r, force).1 == Answer(st, r)
      {
        CacheConsistent(st, requests, start, history);
        GeneratedKeeps(st, requests, CacheAfter(st, start, history), r, force);
      }
    } else {
      var r, s :| requests(r) && requests(s) && Clash(st, r, s) && Answer(st, s) != Answer(st, r);
      ClashShows(st, r, s);
      EmptyConsistent(st, requests);
      assert AllIn(requests, [(r, true)]);
    }
  }

  /** After the first of two clashing requests the second gets the wrong asset. */
  lemma {:induction false} ClashShows(st: Setting, r: Request, s: Request)
    requires Key(st, r) == Key(st, s)
    requires Answer(st, r).Some? && ValidAsset(st, Answer(st, r).value, s)
    ensures Generated(st, CacheAfter(st, map[], [(r, true)]), s, false).1 == Answer(st, r)
  {
    hide Key, ValidAsset, Answer;
    assert [(r, true)][..0] == [];
    assert CacheAfter(st, map[], [(r, true)]) == map[][Key(st, r) := Answer(st, r).value];
  }

  // ---------------------------------------------------------------- the same, seen from the names

  /** The request's event is of a kind its task is for. */
  predicate Admits(r: Request) {
    r.task.validFor != [] && r.event.Some? ==> r.event.value.kind in r.task.validFor
  }

  /** Two requests whose assets could be taken for each other's. */
  predicate SharedKey(st: Setting, r: Request, s: Request) {
    Key(st, r) == Key(st, s) && r.task.kind == s.task.kind && Admits(r) && Admits(s)
  }

  ghost predicate NoSharedKeys(st: Setting, requests: Request -> bool) {
    forall r, s :: requests(r) && requests(s) && SharedKey(st, r, s) ==> r == s
  }

  /** A provider that tells two requests apart. */
  function TellApart(r: Request): Provider {
    (q: Request) => Asset(if q == r then "first" else "other", q.task.kind, "x", None)
  }

  lemma {:induction false} TellApartAnswers(st: Setting, r: Request, s: Request)
    requires SharedKey(st, r, s) && r != s && st.maxLength >= 1
    ensures var p := st.(provider := TellApart(r)); Clash(p, r, s) && Answer(p, s) != Answer(p, r)
  {
    hide Key;
    var p := st.(provider := TellApart(r));
    SameKeys(st, TellApart(r), r);
    SameKeys(st, TellApart(r), s);
    assert "x"[0] == 'x';
  }

  lemma {:induction false} SameKeys(st: Setting, p: Provider, r: Request)
    ensures Key(st.(provider := p), r) == Key(st, r)
  {
  }

  /** An asset valid for two requests makes them share their key's condition. */
  lemma {:induction false} ClashShares(st: Setting, p: Provider, r: Request, s: Request)
    requires Clash(st.(provider := p), r, s)
    ensures SharedKey(st, r, s)
  {
    hide Key;
    SameKeys(st, p, r);
    SameKeys(st, p, s);
  }

  /**
   The cache is transparent for every provider exactly if no two different requests share a key,
   a task kind, and admit their events: a condition on names and kinds alone.
   */
  lemma {:induction false} ProvidersIff(st: Setting, requests: Request -> bool)
    requires st.maxLength >= 1
    ensures (forall p: Provider :: Transparent(st.(provider := p), requests)) <==> NoSharedKeys(st, requests)
  {
    hide Transparent, Clash, SharedKey, Answer;
    if NoSharedKeys(st, requests) {
      forall p: Provider ensures Transparent(st.(provider := p), requests) {
        forall r, s | requests(r) && requests(s) && Clash(st.(provider := p), r, s) ensures r == s {
          ClashShares(st, p, r, s);
        }
        TransparentIff(st.(provider := p), requests);
      }
    } else {
      var r, s :| requests(r) && requests(s) && SharedKey(st, r, s) && r != s;
      TellApartAnswers(st, r, s);
      var p := TellApart(r);
      TransparentIff(st.(provider := p), requests);
      assert !Transparent(st.(provider := p), requests);
    }
  }

  /** Names that collide: a task "a_b" without an event, and a task "a" for event "b". */
  lemma {:induction false} CollidingNames(st: Setting, kind: string, e: Event) returns (p: Provider)
    requires e.id == "b" && st.maxLength >= 1
    ensures var r, s := Request(Task("a_b", kind, [], 1), None), Request(Task("a", kind, [], 1), Some(e));
      Key(st, r) == Key(st, s) && !Transparent(st.(provider := p), (q: Request) => q == r || q == s)
  {
    hide Transparent;
    var r, s := Request(Task("a_b", kind, [], 1), None), Request(Task("a", kind, [], 1), Some(e));
    var requests := (q: Request) => q == r || q == s;
    assert TaskKey("a_b", "") == "a_b" == "a" + ("_" + "b") == TaskKey("a", "b");
    p := TellApart(r);
    TellApartAnswers(st, r, s);
    TransparentIff(st.(provider := p), requests);
  }

  /**
   Names under which keys cannot clash: ids determine tasks and events, event ids are not empty
   and hold no underscore, and no task id ends in an underscore and an event id.
   */
  ghost predicate CleanNames(requests: Request -> bool) {
    (forall r, s :: requests(r) && requests(s) && r.task.id == s.task.id ==> r.task == s.task)
    && (forall r, s :: requests(r) && requests(s) && EventIdOf(r) == EventIdOf(s) ==> r.event == s.event)
    && (forall r :: requests(r) && r.event.Some? ==> EventIdOf(r) != "" && '_' !in EventIdOf(r))
    && forall r, s, t: string :: requests(r) && requests(s) && s.event.Some? ==> r.task.id != t + "_" + EventIdOf(s)
  }

  /** The text after the last underscore is determined by the whole. */
  lemma {:induction false} SplitLast(a: string, x: string, b: string, y: string)
    requires a + "_" + x == b + "_" + y && '_' !in x && '_' !in y
    ensures a == b && x == y
  {
    var s := a + "_" + x;
    assert s[|a|] == '_' && s[|b|] == '_';
    assert forall i :: |a| < i < |s| ==> s[i] == x[i - |a| - 1];
    assert forall i :: |b| < i < |s| ==> s[i] == y[i - |b| - 1];
    assert |a| == |b|;
    assert a == s[..|a|] == b;
    assert x == s[|a| + 1..] == y;
  }

  lemma {:induction false} SameKeySameRequest(st: Setting, requests: Request -> bool, r: Request, s: Request)
    requires CleanNames(requests) && requests(r) && requests(s) && Key(st, r) == Key(st, s)
    ensures r == s
  {
    var prefix := st.providerType + "_" + st.scenario + "_";
    var a, b := TaskKey(r.task.id, EventIdOf(r)), TaskKey(s.task.id, EventIdOf(s));
    assert (prefix + a)[|prefix|..] == a && (prefix + b)[|prefix|..] == b;
    assert a == b;
    if r.event.Some? {
      assert a == r.task.id + "_" + EventIdOf(r);
    }
    if s.event.Some? {
      assert b == s.task.id + "_" + EventIdOf(s);
    }
    assert r.task.id + "" == r.task.id && s.task.id + "" == s.task.id;
    if r.event.Some? && s.event.Some? {
      SplitLast(r.task.id, EventIdOf(r), s.task.id, EventIdOf(s));
    }
  }

  /** Clean names make the cache transparent, for every history and every use of `force`. */
  lemma {:induction false} CleanNamesTransparent(st: Setting, requests: Request -> bool)
    requires CleanNames(requests)
    ensures Transparent(st, requests)
  {
    forall r, s | requests(r) && requests(s) && Key(st, r) == Key(st, s) ensures r == s {
      SameKeySameRequest(st, requests, r, s);
    }
    hide CleanNames, Key;
    assert NoClash(st, requests);
    TransparentIff(st, requests);
  }

  // ---------------------------------------------------------------- the pool of all tasks

  /** The copy of an asset under its own id. */
  function Renamed(a: Asset, suffix: string): Asset { a.(id := a.id + suffix) }

  function Suffix(event: Option<Event>, index: nat): string {
    (if event.Some? then "-" + event.value.id else "") + "-" + Pad(index, 0)
  }

  /** The first `n` copies for one request. */
  function Copies(st: Setting, r: Request, n: nat): (c: seq<Asset>)
    ensures |c| == n
  {
    if n == 0 then [] else Copies(st, r, n - 1) + [Renamed(st.provider(r), Suffix(r.event, n - 1))]
  }

  /** A task with `valid_for` runs once per event of those kinds, any other task once. */
  predicate PerEvent(task: Task, events: seq<Event>) { task.validFor != [] && events != [] }

  function EventAssets(st: Setting, task: Task, e: Event): seq<Asset> {
    if e.kind in task.validFor then Copies(st, Request(task, Some(e)), task.count) else []
  }

  /** The assets of one task for the first `n` events. */
  function TaskEvents(st: Setting, task: Task, events: seq<Event>, n: nat): seq<Asset>
    requires n <= |events|
  {
    if n == 0 then [] else TaskEvents(st, task, events, n - 1) + EventAssets(st, task, events[n - 1])
  }

  function TaskAssets(st: Setting, task: Task, events: seq<Event>): seq<Asset> {
    if PerEvent(task, events) then TaskEvents(st, task, events, |events|)
    else Copies(st, Request(task, None), task.count)
  }

  /** The assets of the first `n` tasks: the pool of `generate_all`, computed without a cache. */
  function PoolOf(st: Setting, tasks: seq<Task>, events: seq<Event>, n: nat): seq<Asset>
    requires n <= |tasks|
  {
    if n == 0 then [] else PoolOf(st, tasks, events, n - 1) + TaskAssets(st, tasks[n - 1], events)
  }

  // ---------------------------------------------------------------- the pool as the cache gives it

  /** The first `n` copies for one request, and the cache after them; `None` once validation fails. */
  function CopiesFrom(st: Setting, cache: Cache, r: Request, force: bool, n: nat): (Cache, Option<seq<Asset>>) {
    if n == 0 then (cache, Some([]))
    else
      var (c, made) := CopiesFrom(st, cache, r, force, n - 1);
      if made.None? then (c, None)
      else
        var (c', a) := Generated(st, c, r, force);
        (c', if a.None? then None else Some(made.value + [Renamed(a.value, Suffix(r.event, n - 1))]))
  }

  /** One task over the first `n` events. */
  function EventsFrom(st: Setting, cache: Cache, task: Task, events: seq<Event>, force: bool, n: nat)
    : (Cache, Option<seq<Asset>>)
    requires n <= |events|
  {
    if n == 0 then (cache, Some([]))
    else
      var (c, made) := EventsFrom(st, cache, task, events, force, n - 1);
      if made.None? || events[n - 1].kind !in task.validFor then (c, made)
      else
        var (c', copies) := CopiesFrom(st, c, Request(task, Some(events[n - 1])), force, task.count);
        (c', if copies.None? then None else Some(made.value + copies.value))
  }

  function TaskFrom(
      st: Setting, cache: Cache, task: Task, events: seq<Event>, force: bool): (Cache, Option<seq<Asset>>)
  {
    if PerEvent(task, events) then EventsFrom(st, cache, task, events, force, |events|)
    else CopiesFrom(st, cache, Request(task, None), force, task.count)
  }

  /** The first `n` tasks: `generate_all` with whatever is cached. */
  function PoolFrom(st: Setting, cache: Cache, tasks: seq<Task>, events: seq<Event>, force: bool, n: nat)
    : (Cache, Option<seq<Asset>>)
    requires n <= |tasks|
  {
    if n == 0 then (cache, Some([]))
    else
      var (c, made) := PoolFrom(st, cache, tasks, events, force, n - 1);
      if made.None? then (c, None)
      else
        var (c', assets) := TaskFrom(st, c, tasks[n - 1], events, force);
        (c', if assets.None? then None else Some(made.value + assets.value))
  }

  /** Every request `generate_all` may make. */
  ghost predicate Covers(requests: Request -> bool, tasks: seq<Task>, events: seq<Event>) {
    (forall t :: t in tasks ==> requests(Request(t, None)))
    && forall t, e :: t in tasks && e in events ==> requests(Request(t, Some(e)))
  }

  /** The provider's answers to the requests that are made pass validation. */
  ghost predicate AllValid(st: Setting, requests: Request -> bool) {
    forall r :: requests(r) && (r.event.Some? ==> r.event.value.kind in r.task.validFor) ==> Answer(st, r).Some?
  }

  /** The result is the given one, or an error that no valid provider causes. */
  ghost predicate Gives(
      st: Setting, requests: Request -> bool, result: (Cache, Option<seq<Asset>>), assets: seq<Asset>)
  {
    Consistent(st, requests, result.0)
    && (result.1.Some? ==> result.1.value == assets)
    && (AllValid(st, requests) ==> result.1.Some?)
  }

  lemma {:induction false} CopiesGive(
      st: Setting, requests: Request -> bool, cache: Cache, r: Request, force: bool, n: nat)
    requires Consistent(st, requests, cache) && NoClash(st, requests) && requests(r)
    requires r.event.Some? ==> r.event.value.kind in r.task.validFor
    ensures Gives(st, requests, CopiesFrom(st, cache, r, force, n), Copies(st, r, n))
  {
    hide Generated, Consistent, NoClash, Suffix, ValidAsset;
    if n > 0 {
      CopiesGive(st, requests, cache, r, force, n - 1);
      GeneratedKeeps(st, requests, CopiesFrom(st, cache, r, force, n - 1).0, r, force);
    }
  }

  lemma {:induction false} EventsGive(
      st: Setting, requests: Request -> bool, cache: Cache, task: Task, events: seq<Event>, force: bool, n: nat)
    requires Consistent(st, requests, cache) && NoClash(st, requests) && n <= |events|
    requires forall e :: e in events ==> requests(Request(task, Some(e)))
    ensures Gives(st, requests, EventsFrom(st, cache, task, events, force, n), TaskEvents(st, task, events, n))
  {
    hide Consistent, NoClash, CopiesFrom, Copies, AllValid;
    if n > 0 {
      EventsGive(st, requests, cache, task, events, force, n - 1);
      if events[n - 1].kind in task.validFor {
        var c := EventsFrom(st, cache, task, events, force, n - 1).0;
        CopiesGive(st, requests, c, Request(task, Some(events[n - 1])), force, task.count);
      } else {
        assert TaskEvents(st, task, events, n) == TaskEvents(st, task, events, n - 1) + [];
      }
    }
  }

  /**
   With requests that do not clash and a consistent cache, the pool of `generate_all` is the one
   the provider alone would fill, whatever is cached and whatever `force` says.
   */
  lemma {:induction false} PoolIsProviders(
      st: Setting, requests: Request -> bool, cache: Cache, tasks: seq<Task>, events: seq<Event>, force: bool, n: nat)
    requires Covers(requests, tasks, events) && NoClash(st, requests) && Consistent(st, requests, cache) && n <= |tasks|
    ensures Gives(st, requests, PoolFrom(st, cache, tasks, events, force, n), PoolOf(st, tasks, events, n))
  {
    hide Consistent, NoClash, CopiesFrom, Copies, EventsFrom, TaskEvents, AllValid;
    if n > 0 {
      PoolIsProviders(st, requests, cache, tasks, events, force, n - 1);
      var c := PoolFrom(st, cache, tasks, events, force, n - 1).0;
      assert tasks[n - 1] in tasks;
      if PerEvent(tasks[n - 1], events) {
        EventsGive(st, requests, c, tasks[n - 1], events, force, |events|);
      } else {
        CopiesGive(st, requests, c, Request(tasks[n - 1], None), force, tasks[n - 1].count);
      }
    }
  }

  // ---------------------------------------------------------------- resolving

  function FromEvent(id: string): Asset -> bool { (a: Asset) => a.sourceEvent == Some(id) }

  function AssetId(a: Asset): string { a.id }

  /** The ids a linear search of the pool gives; an empty source event counts as none. */
  function IdsFor(pool: seq<Asset>, id: string): seq<string> {
    if id == "" then [] else MapSeq(AssetId, Filter(FromEvent(id), pool))
  }

  /** The provider marks each asset with the event it was made for. */
  ghost predicate MarksSource(st: Setting) {
    forall r :: st.provider(r).sourceEvent == if r.event.Some? then Some(r.event.value.id) else None
  }

  lemma {:induction false} CopiesSource(st: Setting, r: Request, n: nat)
    requires MarksSource(st)
    ensures forall a :: a in Copies(st, r, n) ==>
      a.sourceEvent == if r.event.Some? then Some(r.event.value.id) else None
  {
    hide Suffix;
    if n > 0 {
      CopiesSource(st, r, n - 1);
    }
  }

  lemma {:induction false} EventAssetsSource(st: Setting, task: Task, e: Event, id: string)
    requires MarksSource(st)
    ensures Filter(FromEvent(id), EventAssets(st, task, e)) == if e.id == id then EventAssets(st, task, e) else []
  {
    hide Copies, MarksSource;
    CopiesSource(st, Request(task, Some(e)), task.count);
    if e.id == id {
      FilterAll(FromEvent(id), EventAssets(st, task, e));
    } else {
      FilterNone(FromEvent(id), EventAssets(st, task, e));
    }
  }

  lemma {:induction false} TaskEventsSource(st: Setting, task: Task, events: seq<Event>, k: nat, n: nat)
    requires MarksSource(st) && DistinctIds(events) && k < |events| && n <= |events|
    ensures Filter(FromEvent(events[k].id), TaskEvents(st, task, events, n))
         == if k < n then EventAssets(st, task, events[k]) else []
  {
    hide EventAssets, MarksSource;
    if n > 0 {
      TaskEventsSource(st, task, events, k, n - 1);
      EventAssetsSource(st, task, events[n - 1], events[k].id);
      FilterAppend(FromEvent(events[k].id), TaskEvents(st, task, events, n - 1), EventAssets(st, task, events[n - 1]));
    }
  }

  lemma {:induction false} TaskAssetsSource(st: Setting, task: Task, events: seq<Event>, k: nat)
    requires MarksSource(st) && DistinctIds(events) && k < |events|
    ensures Filter(FromEvent(events[k].id), TaskAssets(st, task, events)) == EventAssets(st, task, events[k])
  {
    hide MarksSource, TaskEvents, Copies;
    if PerEvent(task, events) {
      TaskEventsSource(st, task, events, k, |events|);
    } else {
      CopiesSource(st, Request(task, None), task.count);
      FilterNone(FromEvent(events[k].id), Copies(st, Request(task, None), task.count));
    }
  }

  /** The assets made for one event, task by task. */
  function AssetsFor(st: Setting, tasks: seq<Task>, e: Event, n: nat): seq<Asset>
    requires n <= |tasks|
  {
    if n == 0 then [] else AssetsFor(st, tasks, e, n - 1) + EventAssets(st, tasks[n - 1], e)
  }

  lemma {:induction false} ResolvesOwnAssets(st: Setting, tasks: seq<Task>, events: seq<Event>, k: nat, n: nat)
    requires MarksSource(st) && DistinctIds(events) && k < |events| && n <= |tasks|
    ensures Filter(FromEvent(events[k].id), PoolOf(st, tasks, events, n)) == AssetsFor(st, tasks, events[k], n)
  {
    hide MarksSource, TaskAssets, EventAssets;
    if n > 0 {
      ResolvesOwnAssets(st, tasks, events, k, n - 1);
      TaskAssetsSource(st, tasks[n - 1], events, k);
      FilterAppend(FromEvent(events[k].id), PoolOf(st, tasks, events, n - 1), TaskAssets(st, tasks[n - 1], events));
    }
  }

  /**
   After `generate_all` with whatever is cached, an event resolves to exactly one id per matching
   task and copy index, in that order, and to nothing made for another event.
   */
  lemma {:induction false} ResolvedIds(
      st: Setting, requests: Request -> bool, cache: Cache, tasks: seq<Task>, events: seq<Event>, force: bool, k: nat)
    requires Covers(requests, tasks, events) && NoClash(st, requests) && Consistent(st, requests, cache)
    requires MarksSource(st) && DistinctIds(events) && k < |events| && events[k].id != ""
    ensures var pool := PoolFrom(st, cache, tasks, events, force, |tasks|).1;
      (pool.Some? ==> IdsFor(pool.value, events[k].id) == MapSeq(AssetId, AssetsFor(st, tasks, events[k], |tasks|)))
      && (AllValid(st, requests) ==> pool.Some?)
  {
    hide Covers, NoClash, Consistent, MarksSource, PoolOf, PoolFrom, AssetsFor, AllValid;
    PoolIsProviders(st, requests, cache, tasks, events, force, |tasks|);
    ResolvesOwnAssets(st, tasks, events, k, |tasks|);
  }
}
