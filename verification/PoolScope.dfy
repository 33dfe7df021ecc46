/**
 Narrowing a listing to one pool: its claims, and the forks that descend from
 them through their source references.
 */
module PoolScope {
  datatype Claim = Claim(name: string, pool: string)
  datatype Fork = Fork(name: string, source: string)

  // ------------------------------------------------------------ what is meant

  function OfPool(claims: seq<Claim>, pool: string): seq<Claim> {
    if claims == [] then []
    else
      var last := claims[|claims| - 1];
      OfPool(claims[..|claims| - 1], pool) + if last.pool == pool then [last] else []
  }

  function Roots(claims: seq<Claim>): set<string> { set c | c in claims :: c.name }

  // A line of descent: the first fork's source is a root, and every other
  // fork's source is the fork before it.
  ghost predicate Descent(path: seq<Fork>, forks: seq<Fork>, roots: set<string>) {
    && path != [] && path[0].source in roots
    && (forall i :: 0 <= i < |path| ==> path[i] in forks)
    && (forall i :: 0 < i < |path| ==> path[i].source == path[i - 1].name)
  }

  ghost predicate Reached(f: Fork, forks: seq<Fork>, roots: set<string>) {
    exists path :: Descent(path, forks, roots) && path[|path| - 1] == f
  }

  ghost predicate UniqueNames(forks: seq<Fork>) {
    forall i, j :: 0 <= i < j < |forks| ==> forks[i].name != forks[j].name
  }

  // ----------------------------------------------------------------- descent

  lemma ReachedFromRoot(f: Fork, forks: seq<Fork>, roots: set<string>)
    requires f in forks && f.source in roots
    ensures Reached(f, forks, roots)
  {
    assert Descent([f], forks, roots);
  }

  lemma ReachedFromFork(f: Fork, g: Fork, forks: seq<Fork>, roots: set<string>)
    requires Reached(g, forks, roots) && f in forks && f.source == g.name
    ensures Reached(f, forks, roots)
  {
    var path :| Descent(path, forks, roots) && path[|path| - 1] == g;
    assert Descent(path + [f], forks, roots);
  }

  // A set of names that is closed under descent holds every reached fork.
  lemma {:induction false} ClosedHoldsDescent(path: seq<Fork>, forks: seq<Fork>, roots: set<string>, taken: set<string>)
    requires Descent(path, forks, roots)
    requires forall f :: f in forks && f.source in roots + taken ==> f.name in taken
    ensures path[|path| - 1].name in taken
    decreases |path|
  {
    if |path| > 1 {
      ClosedHoldsDescent(path[..|path| - 1], forks, roots, taken);
    }
  }

  // --------------------------------------------------------------- the walk

  // What has been kept so far: each name once, only reached forks, and the
  // names in scope are the roots and the kept forks.
  ghost predicate Walked(kept: seq<Fork>, inScope: set<string>, taken: set<string>, forks: seq<Fork>,
                         roots: set<string>)
  {
    && UniqueNames(kept) && taken == (set f | f in kept :: f.name) && inScope == roots + taken
    && forall f :: f in kept ==> f in forks && Reached(f, forks, roots)
  }

  lemma Named(kept: seq<Fork>, f: Fork)
    ensures (set g | g in kept + [f] :: g.name) == (set g | g in kept :: g.name) + {f.name}
  {
    assert f in kept + [f];
    assert forall g :: g in kept ==> g in kept + [f];
  }

  lemma WalkStep(kept: seq<Fork>, inScope: set<string>, taken: set<string>, forks: seq<Fork>, roots: set<string>,
                 f: Fork)
    requires Walked(kept, inScope, taken, forks, roots) && f in forks && f.name !in taken && f.source in inScope
    ensures Walked(kept + [f], inScope + {f.name}, taken + {f.name}, forks, roots)
  {
    Named(kept, f);
    if f.source in roots {
      ReachedFromRoot(f, forks, roots);
    } else {
      var g :| g in kept && g.name == f.source;
      ReachedFromFork(f, g, forks, roots);
    }
    forall i | 0 <= i < |kept| ensures kept[i].name != f.name { assert kept[i] in kept; }
  }

  // Nothing among the first n forks is left to keep.
  ghost predicate Settled(forks: seq<Fork>, n: nat, inScope: set<string>, taken: set<string>)
    requires n <= |forks|
  {
    forall k :: 0 <= k < n && forks[k].source in inScope ==> forks[k].name in taken
  }

  lemma SettledNext(forks: seq<Fork>, n: nat, inScope: set<string>, taken: set<string>)
    requires n < |forks| && Settled(forks, n, inScope, taken)
    requires forks[n].source in inScope ==> forks[n].name in taken
    ensures Settled(forks, n + 1, inScope, taken)
  {
  }

  // One sweep over the forks; afterwards either something new was kept or the
  // names in scope are closed under descent.
  method Sweep(forks: seq<Fork>, kept: seq<Fork>, inScope: set<string>, taken: set<string>, ghost roots: set<string>)
    returns (kept': seq<Fork>, inScope': set<string>, taken': set<string>, added: bool)
    requires Walked(kept, inScope, taken, forks, roots)
    ensures Walked(kept', inScope', taken', forks, roots) && taken <= taken'
    ensures added ==> exists f :: f in forks && f.name in taken' - taken
    ensures !added ==> taken' == taken && forall f :: f in forks && f.source in inScope' ==> f.name in taken'
  {
    kept', inScope', taken', added := kept, inScope, taken, false;
    ghost var first := Fork("", "");
    for i := 0 to |forks|
      invariant Walked(kept', inScope', taken', forks, roots) && taken <= taken'
      invariant added ==> first in forks && first.name in taken' - taken
      invariant !added ==> taken' == taken && inScope' == inScope
      invariant !added ==> Settled(forks, i, inScope, taken)
    {
      var f := forks[i];
      if f.name !in taken' && f.source in inScope' {
        WalkStep(kept', inScope', taken', forks, roots, f);
        if !added { first := f; }
        kept', inScope', taken', added := kept' + [f], inScope' + {f.name}, taken' + {f.name}, true;
      } else if !added {
        SettledNext(forks, i, inScope, taken);
      }
    }
  }

  // The forks kept are exactly those that descend from the pool's claims, each
  // name once, whatever the order of the listing and even if references form a
  // cycle.
  method ScopeToPool(claims: seq<Claim>, forks: seq<Fork>, pool: string)
    returns (keptClaims: seq<Claim>, keptForks: seq<Fork>)
    ensures keptClaims == OfPool(claims, pool)
    ensures forall c :: c in keptClaims <==> c in claims && c.pool == pool
    ensures forall f :: f in keptForks ==> f in forks && Reached(f, forks, Roots(keptClaims))
    ensures forall f :: f in forks && Reached(f, forks, Roots(keptClaims)) ==>
      exists g :: g in keptForks && g.name == f.name
    ensures UniqueNames(keptForks)
  {
    keptClaims := [];
    var inScope: set<string> := {};
    for i := 0 to |claims|
      invariant keptClaims == OfPool(claims[..i], pool) && inScope == Roots(keptClaims)
      invariant forall c :: c in keptClaims <==> c in claims[..i] && c.pool == pool
    {
      assert claims[..i + 1][..i] == claims[..i];
      if claims[i].pool == pool {
        keptClaims, inScope := keptClaims + [claims[i]], inScope + {claims[i].name};
      }
    }
    assert claims[..|claims|] == claims;
    ghost var roots := inScope;
    ghost var names := set f | f in forks :: f.name;
    keptForks := [];
    var added, taken: set<string> := true, {};
    while added
      invariant Walked(keptForks, inScope, taken, forks, roots)
      invariant !added ==> forall f :: f in forks && f.source in inScope ==> f.name in taken
      decreases names - taken, added
    {
      ghost var before := taken;
      keptForks, inScope, taken, added := Sweep(forks, keptForks, inScope, taken, roots);
      if added {
        ghost var f :| f in forks && f.name in taken - before;
        assert f.name in names - before;
      }
    }
    forall f | f in forks && Reached(f, forks, roots) ensures exists g :: g in keptForks && g.name == f.name {
      var path :| Descent(path, forks, roots) && path[|path| - 1] == f;
      ClosedHoldsDescent(path, forks, roots, taken);
    }
  }

  // With unique fork names that is each reached fork exactly once.
  lemma ScopeIsExact(kept: seq<Fork>, forks: seq<Fork>, roots: set<string>, f: Fork)
    requires UniqueNames(forks) && UniqueNames(kept)
    requires forall g :: g in kept ==> g in forks && Reached(g, forks, roots)
    requires forall g :: g in forks && Reached(g, forks, roots) ==> exists h :: h in kept && h.name == g.name
    ensures multiset(kept)[f] == if f in forks && Reached(f, forks, roots) then 1 else 0
  {
    if f in forks && Reached(f, forks, roots) {
      var g :| g in kept && g.name == f.name;
      var i :| 0 <= i < |kept| && kept[i] == g;
      var a, b :| 0 <= a < |forks| && 0 <= b < |forks| && forks[a] == f && forks[b] == g;
      assert a == b;
      OnlyOnce(kept, i);
    } else {
      assert f !in kept;
    }
  }

  lemma OnlyOnce(kept: seq<Fork>, i: nat)
    requires UniqueNames(kept) && i < |kept|
    ensures multiset(kept)[kept[i]] == 1
  {
    var before, after := kept[..i], kept[i + 1..];
    assert kept == before + [kept[i]] + after;
    assert kept[i] !in before && kept[i] !in after;
  }
}
