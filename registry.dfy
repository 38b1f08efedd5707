/**
 * The route registry returned by the factory: a fixed base URL, the
 * insertion-ordered table of templates, the operations `set`, `prefix`,
 * `all`, `generate` and `_get`, and `lock`, which hands out a view offering
 * only `generate` and `all` over the same registry.
 */
module RouteGen {
  import opened Wrappers
  import opened Placeholders
  import opened Substitution
  import OrderedMap

  /** The key part `prefix` puts in front: `name_`, or nothing when the name is empty. */
  function NamePrefix(name: string): string {
    if name != "" then name + "_" else ""
  }

  /** The pairs `prefix` hands to `set`, in the order of `newRoutes`. */
  function Prefixed(name: string, path: string, newRoutes: seq<(string, string)>): seq<(string, string)> {
    seq(|newRoutes|, i requires 0 <= i < |newRoutes| => (NamePrefix(name) + newRoutes[i].0, path + newRoutes[i].1))
  }

  /** How a template literal prints the result of `Map.prototype.get`. */
  function TemplateText(v: Option<string>): string {
    match v
    case Some(t) => t
    case None => "undefined"
  }

  /** Each short key `k` of `prefix` is registered as `name_k` (just `k` when
      the name is empty) with the template `path + t`, unless a later pair
      reuses the same short key. */
  lemma PrefixRegisters(t: OrderedMap.Table, name: string, path: string, newRoutes: seq<(string, string)>, i: nat)
    requires i < |newRoutes|
    requires forall j :: i < j < |newRoutes| ==> newRoutes[j].0 != newRoutes[i].0
    ensures OrderedMap.Get(OrderedMap.PutAll(t, Prefixed(name, path, newRoutes)), NamePrefix(name) + newRoutes[i].0)
         == Some(path + newRoutes[i].1)
  {
    var ps := Prefixed(name, path, newRoutes);
    var n := NamePrefix(name);
    forall j | 0 <= j < |ps| ensures |n| <= |ps[j].0| && ps[j].0[|n|..] == newRoutes[j].0 {
      assert ps[j].0 == n + newRoutes[j].0;
    }
    OrderedMap.PutAllLastWins(t, ps, i);
  }

  /** `prefix` changes no key it does not register. */
  lemma PrefixUntouched(t: OrderedMap.Table, name: string, path: string, newRoutes: seq<(string, string)>, k: string)
    requires forall j :: 0 <= j < |newRoutes| ==> NamePrefix(name) + newRoutes[j].0 != k
    ensures OrderedMap.Get(OrderedMap.PutAll(t, Prefixed(name, path, newRoutes)), k) == OrderedMap.Get(t, k)
  {
    OrderedMap.PutAllUntouched(t, Prefixed(name, path, newRoutes), k);
  }

  /** An unregistered key resolves to the base URL followed by "undefined",
      untouched by substitution, when the base URL has no placeholder. */
  lemma UnknownRoute(baseUrl: string, params: map<string, string>)
    requires NoBrace(baseUrl)
    ensures Substituted(baseUrl + TemplateText(None), params) == baseUrl + "undefined"
  {
    var url := baseUrl + "undefined";
    assert NoBrace(url) by {
      forall k | 0 <= k < |url| ensures url[k] != '{' {
        if k >= |baseUrl| {
          assert url[k] == "undefined"[k - |baseUrl|];
        }
      }
    }
    NoBraceNoTokens(url);
    SubstitutedUnchanged(url, params);
  }

  class Registry {
    const baseUrl: string
    var keys: seq<string>
    var routes: map<string, string>

    function State(): OrderedMap.Table
      reads this
    {
      OrderedMap.Table(keys, routes)
    }

    ghost predicate Valid()
      reads this
    {
      OrderedMap.Valid(State())
    }

    /** The factory: an empty registry with the configured base URL. */
    constructor (baseUrl: string)
      ensures Valid() && this.baseUrl == baseUrl && State() == OrderedMap.Empty()
    {
      this.baseUrl := baseUrl;
      keys := [];
      routes := map[];
    }

    /** `_get`: the base URL followed by the stored template, or by "undefined". */
    function Get(k: string): (url: string)
      reads this
      ensures k in routes ==> url == baseUrl + routes[k]
      ensures k !in routes ==> url == baseUrl + "undefined"
    {
      baseUrl + TemplateText(OrderedMap.Get(State(), k))
    }

    /** `generate`: substitution applied to `_get(k)`, for any key and any map of parameters. */
    method Generate(k: string, params: map<string, string>) returns (url: string)
      ensures url == Substituted(Get(k), params)
    {
      url := Substitute(Get(k), params);
    }

    /** `set`: `Map.prototype.set` on the route table. */
    method Set(k: string, v: string)
      requires Valid()
      modifies this
      ensures Valid() && State() == OrderedMap.Put(old(State()), k, v)
    {
      if k !in routes {
        keys := keys + [k];
      }
      routes := routes[k := v];
    }

    /** `prefix`: one `set` per new route, in order. */
    method Prefix(name: string, path: string, newRoutes: seq<(string, string)>)
      requires Valid()
      modifies this
      ensures Valid() && State() == OrderedMap.PutAll(old(State()), Prefixed(name, path, newRoutes))
    {
      var namePart := NamePrefix(name);
      var i := 0;
      while i < |newRoutes|
        invariant 0 <= i <= |newRoutes|
        invariant Valid()
        invariant State() == OrderedMap.PutAll(old(State()), Prefixed(name, path, newRoutes)[..i])
      {
        ghost var ps := Prefixed(name, path, newRoutes);
        assert ps[..i + 1][..i] == ps[..i];
        Set(namePart + newRoutes[i].0, path + newRoutes[i].1);
        i := i + 1;
      }
      assert Prefixed(name, path, newRoutes)[..i] == Prefixed(name, path, newRoutes);
    }

    /** `all`: the routes as `{ key, value }` pairs in insertion order, one per key. */
    method All() returns (entries: seq<OrderedMap.Route>)
      requires Valid()
      ensures entries == OrderedMap.Entries(State())
      ensures |entries| == |routes|
    {
      entries := [];
      var i := 0;
      while i < |keys|
        invariant 0 <= i <= |keys|
        invariant entries == OrderedMap.Entries(State())[..i]
      {
        entries := entries + [OrderedMap.Route(keys[i], routes[keys[i]])];
        i := i + 1;
      }
      OrderedMap.EntriesCount(State());
    }

    /** `lock`: a view of this same registry with only `generate` and `all`. */
    method Lock() returns (view: LockedRegistry)
      ensures fresh(view) && view.registry == this
    {
      view := new LockedRegistry(this);
    }
  }

  /** What `lock()` returns. It holds the registry itself, not a copy, so
      later changes made through the registry are visible through it. */
  class LockedRegistry {
    const registry: Registry

    constructor (registry: Registry)
      ensures this.registry == registry
    {
      this.registry := registry;
    }

    method Generate(k: string, params: map<string, string>) returns (url: string)
      ensures url == Substituted(registry.Get(k), params)
    {
      url := registry.Generate(k, params);
    }

    method All() returns (entries: seq<OrderedMap.Route>)
      requires registry.Valid()
      ensures entries == OrderedMap.Entries(registry.State())
      ensures |entries| == |registry.routes|
    {
      entries := registry.All();
    }
  }
}
