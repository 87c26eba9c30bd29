/**
 The semantic sidecar, its cache and the resolver as the source writes them
 (eventweave/ai/cache.py, sidecar.py and resolver.py).
 */
module SemanticSidecar {
  import opened Common
  import opened Events
  import opened Semantic

  /** A store of one entry per key. */
  class SemanticCache {
    var store: Cache

    constructor ()
      ensures store == map[]
    {
      store := map[];
    }

    method Get(key: string) returns (asset: Option<Asset>)
      ensures asset == if key in store then Some(store[key]) else None
    {
      asset := if key in store then Some(store[key]) else None;
    }

    method Set(key: string, asset: Asset)
      modifies this
      ensures store == old(store)[key := asset]
    {
      store := store[key := asset];
    }
  }

  class Sidecar {
    const st: Setting
    const cache: SemanticCache

    constructor (st: Setting)
      ensures this.st == st && fresh(cache) && cache.store == map[]
    {
      this.st := st;
      cache := new SemanticCache();
    }

    /** `generate_task`; `None` stands for the validation error. */
    method GenerateTask(r: Request, force: bool) returns (asset: Option<Asset>)
      modifies cache
      ensures (cache.store, asset) == Generated(st, old(cache.store), r, force)
    {
      hide Key, ValidAsset;
      var key := Key(st, r);
      if !force {
        var cached := cache.Get(key);
        if cached.Some? && ValidAsset(st, cached.value, r) {
          return cached;
        }
      }
      var made := st.provider(r);
      if !ValidAsset(st, made, r) {
        return None;
      }
      cache.Set(key, made);
      asset := Some(made);
    }

    /** The loop over copies: each one generated anew or taken from the cache, then renamed. */
    method Repeat(r: Request, force: bool) returns (assets: Option<seq<Asset>>)
      modifies cache
      ensures (cache.store, assets) == CopiesFrom(st, old(cache.store), r, force, r.task.count)
    {
      hide Generated, Suffix;
      var made: seq<Asset> := [];
      for i := 0 to r.task.count
        invariant (cache.store, Some(made)) == CopiesFrom(st, old(cache.store), r, force, i)
      {
        var asset := GenerateTask(r, force);
        if asset.None? {
          FailedCopy(st, old(cache.store), r, force, i + 1, r.task.count);
          return None;
        }
        made := made + [Renamed(asset.value, Suffix(r.event, i))];
      }
      assets := Some(made);
    }

    /** One task over all events. */
    method ForEvents(task: Task, events: seq<Event>, force: bool) returns (assets: Option<seq<Asset>>)
      modifies cache
      ensures (cache.store, assets) == EventsFrom(st, old(cache.store), task, events, force, |events|)
    {
      hide CopiesFrom;
      var made: seq<Asset> := [];
      for i := 0 to |events|
        invariant (cache.store, Some(made)) == EventsFrom(st, old(cache.store), task, events, force, i)
      {
        if events[i].kind in task.validFor {
          var copies := Repeat(Request(task, Some(events[i])), force);
          if copies.None? {
            FailedEvent(st, old(cache.store), task, events, force, i + 1, |events|);
            return None;
          }
          made := made + copies.value;
        }
      }
      assets := Some(made);
    }

    /** `generate_all`: task after task, each from the cache the one before left; the first validation error ends it. */
    method GenerateAll(tasks: seq<Task>, events: seq<Event>, force: bool) returns (pool: Option<seq<Asset>>)
      modifies cache
      ensures (cache.store, pool) == PoolFrom(st, old(cache.store), tasks, events, force, |tasks|)
    {
      hide CopiesFrom, EventsFrom;
      var assets: seq<Asset> := [];
      for i := 0 to |tasks|
        invariant (cache.store, Some(assets)) == PoolFrom(st, old(cache.store), tasks, events, force, i)
      {
        var made;
        if PerEvent(tasks[i], events) {
          made := ForEvents(tasks[i], events, force);
        } else {
          made := Repeat(Request(tasks[i], None), force);
        }
        if made.None? {
          FailedTask(st, old(cache.store), tasks, events, force, i + 1, |tasks|);
          return None;
        }
        assets := assets + made.value;
      }
      pool := Some(assets);
    }
  }

  /** After a failure nothing more happens. */
  lemma {:induction false} FailedCopy(st: Setting, cache: Cache, r: Request, force: bool, n: nat, m: nat)
    requires n <= m && CopiesFrom(st, cache, r, force, n).1.None?
    ensures CopiesFrom(st, cache, r, force, m) == CopiesFrom(st, cache, r, force, n)
  {
    hide Generated, Suffix;
    if n < m {
      FailedCopy(st, cache, r, force, n, m - 1);
    }
  }

  lemma {:induction false} FailedEvent(
      st: Setting, cache: Cache, task: Task, events: seq<Event>, force: bool, n: nat, m: nat)
    requires n <= m <= |events| && EventsFrom(st, cache, task, events, force, n).1.None?
    ensures EventsFrom(st, cache, task, events, force, m) == EventsFrom(st, cache, task, events, force, n)
  {
    hide CopiesFrom;
    if n < m {
      FailedEvent(st, cache, task, events, force, n, m - 1);
    }
  }

  lemma {:induction false} FailedTask(
      st: Setting, cache: Cache, tasks: seq<Task>, events: seq<Event>, force: bool, n: nat, m: nat)
    requires n <= m <= |tasks| && PoolFrom(st, cache, tasks, events, force, n).1.None?
    ensures PoolFrom(st, cache, tasks, events, force, m) == PoolFrom(st, cache, tasks, events, force, n)
  {
    hide TaskFrom;
    if n < m {
      FailedTask(st, cache, tasks, events, force, n, m - 1);
    }
  }

  /** The memoised index: what it holds agrees with the linear search. */
  class SemanticResolver {
    const pool: seq<Asset>
    var index: Option<map<string, seq<Asset>>>

    ghost predicate Valid()
      reads this
    {
      index.Some? ==> Indexes(index.value, pool)
    }

    constructor (pool: seq<Asset>)
      ensures this.pool == pool && Valid()
    {
      this.pool := pool;
      index := None;
    }

    method BuildIndex() returns (built: map<string, seq<Asset>>)
      requires Valid()
      modifies this
      ensures Valid() && Indexes(built, pool)
    {
      if index.None? {
        var table: map<string, seq<Asset>> := map[];
        for i := 0 to |pool|
          invariant Indexes(table, pool[..i])
        {
          var a := pool[i];
          IndexSnoc(table, pool, i);
          if a.sourceEvent.Some? && a.sourceEvent.value != "" {
            if a.sourceEvent.value !in table {
              table := table[a.sourceEvent.value := []];
            }
            table := table[a.sourceEvent.value := table[a.sourceEvent.value] + [a]];
          }
        }
        assert pool[..|pool|] == pool;
        index := Some(table);
      }
      built := index.value;
    }

    /** The event's references become the ids the linear search would give; what was there before is gone. */
    method ResolveEvent(id: string) returns (refs: seq<string>)
      requires Valid()
      modifies this
      ensures Valid() && refs == IdsFor(pool, id)
    {
      var built := BuildIndex();
      var assets := if id in built then built[id] else [];
      refs := [];
      for i := 0 to |assets|
        invariant refs == MapSeq(AssetId, assets[..i])
      {
        refs := refs + [assets[i].id];
      }
      assert assets[..|assets|] == assets;
      assert MapSeq(AssetId, []) == [];
    }
  }

  /** The table lists, per non-empty source event, its assets in pool order. */
  ghost predicate Indexes(table: map<string, seq<Asset>>, pool: seq<Asset>) {
    forall id :: (if id in table then table[id] else []) == if id == "" then [] else Filter(FromEvent(id), pool)
  }

  lemma {:induction false} IndexSnoc(table: map<string, seq<Asset>>, pool: seq<Asset>, i: nat)
    requires i < |pool| && Indexes(table, pool[..i])
    ensures forall id :: Filter(FromEvent(id), pool[..i + 1])
                      == Filter(FromEvent(id), pool[..i]) + if pool[i].sourceEvent == Some(id) then [pool[i]] else []
  {
    forall id ensures Filter(FromEvent(id), pool[..i + 1])
                   == Filter(FromEvent(id), pool[..i]) + if pool[i].sourceEvent == Some(id) then [pool[i]] else []
    {
      assert pool[..i + 1] == pool[..i] + [pool[i]];
      FilterAppend(FromEvent(id), pool[..i], [pool[i]]);
      assert [pool[i]][1..] == [];
    }
  }
}
