/**
 Pack dependencies (`PackRegistry.load_with_dependencies`, eventweave/compiler/pack_loader.py):
 a worklist over an arbitrary, possibly cyclic dependency graph.
 */
module Packs {
  import opened Common

  /** The packs that exist, each with the packs it depends on. */
  type Repository = map<string, seq<string>>

  /** A chain of packs, each depending on the next; the last one need not exist. */
  predicate Chain(repo: Repository, p: seq<string>) {
    p != [] && forall i :: 0 <= i < |p| - 1 ==> p[i] in repo && p[i + 1] in repo[p[i]]
  }

  ghost predicate Reachable(repo: Repository, from: string, to: string) {
    exists p :: Chain(repo, p) && p[0] == from && p[|p| - 1] == to
  }

  lemma {:induction false} ReachableSelf(repo: Repository, a: string)
    ensures Reachable(repo, a, a)
  {
    assert Chain(repo, [a]);
  }

  lemma {:induction false} ReachableStep(repo: Repository, a: string, b: string, c: string)
    requires Reachable(repo, a, b) && b in repo && c in repo[b]
    ensures Reachable(repo, a, c)
  {
    var p :| Chain(repo, p) && p[0] == a && p[|p| - 1] == b;
    assert Chain(repo, p + [c]);
  }

  /** A set that contains the start of a chain and is closed under dependencies contains its end. */
  lemma {:induction false} ClosedContains(repo: Repository, p: seq<string>, closed: set<string>)
    requires Chain(repo, p) && p[0] in closed
    requires forall a, b :: a in closed && a in repo && b in repo[a] ==> b in closed
    ensures p[|p| - 1] in closed
  {
    if |p| > 1 {
      assert p[0] in repo && p[1] in repo[p[0]];
      assert Chain(repo, p[1..]);
      ClosedContains(repo, p[1..], closed);
    }
  }

  /** Either the packs found, with their dependencies, or the name of a pack that does not exist. */
  datatype Outcome = Loaded(packs: Repository) | Missing(name: string)

  /** Every dependency of a visited pack is visited or waiting, and all of them are reachable. */
  ghost predicate Working(repo: Repository, domain: string, visited: set<string>, stack: seq<string>) {
    (domain in visited || domain in stack)
    && (forall name :: name in visited || name in stack ==> Reachable(repo, domain, name))
    && visited <= repo.Keys
    && forall a, b :: a in visited && a in repo && b in repo[a] ==> b in visited || b in stack
  }

  lemma {:induction false} WorkStarts(repo: Repository, domain: string)
    ensures Working(repo, domain, {}, [domain])
  {
    hide Reachable;
    ReachableSelf(repo, domain);
  }

  lemma {:induction false} SkipKeeps(
      repo: Repository, domain: string, visited: set<string>, stack: seq<string>, current: string)
    requires Working(repo, domain, visited, stack + [current]) && current in visited
    ensures Working(repo, domain, visited, stack)
  {
    hide Reachable;
  }

  /** Visiting the popped pack, with its unvisited dependencies pushed. */
  lemma {:induction false} VisitKeeps(
      repo: Repository, domain: string, visited: set<string>, stack: seq<string>, current: string, deps: seq<string>)
    requires Working(repo, domain, visited, stack + [current]) && current in repo
    requires forall dep :: dep in deps ==> dep in repo[current]
    requires forall dep :: dep in repo[current] ==> dep in visited + {current} || dep in deps
    ensures Working(repo, domain, visited + {current}, stack + deps)
  {
    assert current in stack + [current] && Reachable(repo, domain, current);
    forall dep | dep in deps ensures Reachable(repo, domain, dep) {
      ReachableStep(repo, domain, current, dep);
    }
    hide Reachable;
    forall name | name in stack ensures Reachable(repo, domain, name) {
      assert name in stack + [current];
    }
  }

  lemma {:induction false} WorkDone(repo: Repository, domain: string, visited: set<string>)
    requires Working(repo, domain, visited, [])
    ensures forall name :: Reachable(repo, domain, name) <==> name in visited
  {
    forall name | Reachable(repo, domain, name) ensures name in visited {
      var p :| Chain(repo, p) && p[0] == domain && p[|p| - 1] == name;
      ClosedContains(repo, p, visited);
    }
  }

  /** `result` holds the visited packs as the repository has them. */
  predicate Copied(repo: Repository, result: Repository, visited: set<string>) {
    result.Keys == visited && forall name :: name in result ==> name in repo && result[name] == repo[name]
  }

  lemma {:induction false} CopyStarts(repo: Repository)
    ensures Copied(repo, map[], {})
  {
  }

  lemma {:induction false} CopyGrows(repo: Repository, result: Repository, visited: set<string>, name: string)
    requires Copied(repo, result, visited) && name in repo
    ensures Copied(repo, result[name := repo[name]], visited + {name})
  {
  }

  lemma {:induction false} CopyDone(repo: Repository, result: Repository, visited: set<string>)
    requires Copied(repo, result, visited)
    ensures forall name :: name in result <==> name in visited
    ensures forall name :: name in result ==> name in repo && result[name] == repo[name]
  {
  }

  /** How many packs have not been visited. */
  function Left(repo: Repository, visited: set<string>): nat { |repo.Keys - visited| }

  lemma {:induction false} FewerLeft(repo: Repository, visited: set<string>, current: string)
    requires current in repo && current !in visited
    ensures Left(repo, visited + {current}) < Left(repo, visited)
  {
    var all := repo.Keys;
    assert all - visited == (all - (visited + {current})) + {current};
  }

  class PackRegistry {
    const repo: Repository
    /** The packs loaded so far: a cache over the repository. */
    var loaded: Repository

    constructor (repo: Repository)
      ensures this.repo == repo && Valid()
    {
      this.repo := repo;
      loaded := map[];
    }

    predicate Valid()
      reads this
    {
      forall name :: name in loaded ==> name in repo && loaded[name] == repo[name]
    }

    /** `load`: from the cache, else from the repository. */
    method Load(name: string) returns (pack: Option<seq<string>>)
      requires Valid()
      modifies this
      ensures Valid() && loaded.Keys >= old(loaded).Keys
      ensures if name in repo then pack == Some(repo[name]) && name in loaded else pack.None?
    {
      if name in loaded {
        return Some(loaded[name]);
      }
      if name !in repo {
        return None;
      }
      loaded := loaded[name := repo[name]];
      pack := Some(repo[name]);
    }

    /**
     Terminates on every graph, cyclic or not. Succeeds exactly when every reachable pack exists,
     and then returns exactly the reachable packs; otherwise names a reachable pack that is missing.
     */
    method LoadWithDependencies(domain: string) returns (r: Outcome)
      requires Valid()
      modifies this
      ensures Valid()
      ensures r.Loaded? <==> forall name :: Reachable(repo, domain, name) ==> name in repo
      ensures r.Loaded? ==> forall name :: name in r.packs <==> Reachable(repo, domain, name)
      ensures r.Loaded? ==> forall name :: name in r.packs ==> name in repo && r.packs[name] == repo[name]
      ensures r.Missing? ==> Reachable(repo, domain, r.name) && r.name !in repo
    {
      hide Working, Reachable, Copied, Left;
      var result: Repository := map[];
      var stack, visited: set<string> := [domain], {};
      WorkStarts(repo, domain);
      CopyStarts(repo);
      while stack != []
        invariant Valid() && Working(repo, domain, visited, stack)
        invariant Copied(repo, result, visited)
        decreases Left(repo, visited), |stack|
      {
        var current := stack[|stack| - 1];
        WaitingReachable(repo, domain, visited, stack, current);
        assert stack == stack[..|stack| - 1] + [current];
        stack := stack[..|stack| - 1];
        if current in visited {
          SkipKeeps(repo, domain, visited, stack, current);
          continue;
        }
        var pack := Load(current);
        if pack.None? {
          return Missing(current);
        }
        FewerLeft(repo, visited, current);
        CopyGrows(repo, result, visited, current);
        stack := Visit(domain, current, stack, visited);
        visited := visited + {current};
        result := result[current := pack.value];
      }
      WorkDone(repo, domain, visited);
      CopyDone(repo, result, visited);
      r := Loaded(result);
    }

    /** Pushes the unvisited dependencies of the pack just loaded. */
    method Visit(
        ghost domain: string, current: string, stack: seq<string>, visited: set<string>) returns (stack': seq<string>)
      requires current in repo && Working(repo, domain, visited, stack + [current])
      ensures Working(repo, domain, visited + {current}, stack')
    {
      hide Working;
      var deps := Unvisited(current, visited + {current});
      VisitKeeps(repo, domain, visited, stack, current, deps);
      stack' := stack + deps;
    }

    /** The inner loop: the dependencies that have not been visited, in order. */
    method Unvisited(current: string, visited: set<string>) returns (pushed: seq<string>)
      requires current in repo
      ensures forall dep :: dep in pushed <==> dep in repo[current] && dep !in visited
    {
      var deps := repo[current];
      pushed := [];
      for i := 0 to |deps|
        invariant forall dep :: dep in pushed <==> dep in deps[..i] && dep !in visited
      {
        if deps[i] !in visited {
          pushed := pushed + [deps[i]];
        }
      }
    }
  }

  lemma {:induction false} WaitingReachable(
      repo: Repository, domain: string, visited: set<string>, stack: seq<string>, name: string)
    requires Working(repo, domain, visited, stack) && name in stack
    ensures Reachable(repo, domain, name)
  {
  }
}
