/**
 * The registry's storage, a JavaScript `Map` from route key to template: a
 * lookup table together with the order in which keys were first inserted,
 * which is the order `Map.prototype.forEach` visits them in.
 */
module OrderedMap {
  import opened Wrappers

  /** One element of what `all()` returns: `{ key, value }`. */
  datatype Route = Route(key: string, value: string)

  datatype Table = Table(keys: seq<string>, routes: map<string, string>)

  /** Every key is listed once, and exactly the keys of the lookup table are listed. */
  predicate Valid(t: Table) {
    && (forall i, j :: 0 <= i < j < |t.keys| ==> t.keys[i] != t.keys[j])
    && (forall k :: k in t.keys ==> k in t.routes)
    && (forall k :: k in t.routes ==> k in t.keys)
  }

  function Empty(): (t: Table)
    ensures Valid(t) && t.routes == map[]
  {
    Table([], map[])
  }

  /** `Map.prototype.get`: the template, or nothing (`undefined`). */
  function Get(t: Table, k: string): Option<string> {
    if k in t.routes then Some(t.routes[k]) else None
  }

  /** `Map.prototype.set`: insert or overwrite. A new key goes last; an
      existing key keeps its place. */
  function Put(t: Table, k: string, v: string): (r: Table)
    ensures Valid(t) ==> Valid(r)
    ensures Get(r, k) == Some(v)
    ensures forall j :: j != k ==> Get(r, j) == Get(t, j)
  {
    Table(if k in t.routes then t.keys else t.keys + [k], t.routes[k := v])
  }

  /** `set` applied to each pair in turn. */
  function PutAll(t: Table, pairs: seq<(string, string)>): (r: Table)
    ensures Valid(t) ==> Valid(r)
    decreases |pairs|
  {
    if |pairs| == 0 then t
    else
      var last := pairs[|pairs| - 1];
      Put(PutAll(t, pairs[..|pairs| - 1]), last.0, last.1)
  }

  /** What `forEach` visits: one route per key, in insertion order. */
  function Entries(t: Table): (es: seq<Route>)
    requires Valid(t)
    ensures |es| == |t.keys|
    ensures forall i :: 0 <= i < |es| ==> es[i].key == t.keys[i] && Get(t, es[i].key) == Some(es[i].value)
  {
    seq(|t.keys|, i requires 0 <= i < |t.keys| => Route(t.keys[i], t.routes[t.keys[i]]))
  }

  function KeysOf(pairs: seq<(string, string)>): set<string> {
    set i | 0 <= i < |pairs| :: pairs[i].0
  }

  lemma {:induction false} DistinctCount(s: seq<string>)
    requires forall i, j :: 0 <= i < j < |s| ==> s[i] != s[j]
    ensures |set k | k in s| == |s|
    decreases |s|
  {
    if |s| > 0 {
      var init := s[..|s| - 1];
      DistinctCount(init);
      assert (set k | k in s) == (set k | k in init) + {s[|s| - 1]};
      assert s[|s| - 1] !in (set k | k in init);
    }
  }

  /** `all()` has one entry per distinct key, and every stored key appears. */
  lemma EntriesCount(t: Table)
    requires Valid(t)
    ensures |Entries(t)| == |t.routes|
    ensures forall k :: k in t.routes ==> exists i :: 0 <= i < |Entries(t)| && Entries(t)[i].key == k
  {
    DistinctCount(t.keys);
    assert t.routes.Keys == set k | k in t.keys;
    forall k | k in t.routes ensures exists i :: 0 <= i < |Entries(t)| && Entries(t)[i].key == k {
      var i :| 0 <= i < |t.keys| && t.keys[i] == k;
      assert Entries(t)[i].key == k;
    }
  }

  /** Insertion order: an overwrite leaves the order as it was, a new key is
      appended with its value, and every earlier entry keeps its position. */
  lemma PutOrder(t: Table, k: string, v: string)
    requires Valid(t)
    ensures |Entries(Put(t, k, v))| == |Entries(t)| + (if k in t.routes then 0 else 1)
    ensures forall i :: 0 <= i < |Entries(t)| ==> Entries(Put(t, k, v))[i].key == Entries(t)[i].key
    ensures k !in t.routes ==> Entries(Put(t, k, v))[|Entries(t)|] == Route(k, v)
  {
  }

  /** The keys after a bulk insert are the old keys and the inserted ones. */
  lemma {:induction false} PutAllKeys(t: Table, pairs: seq<(string, string)>)
    ensures PutAll(t, pairs).routes.Keys == t.routes.Keys + KeysOf(pairs)
    decreases |pairs|
  {
    if |pairs| > 0 {
      var init := pairs[..|pairs| - 1];
      PutAllKeys(t, init);
      assert KeysOf(pairs) == KeysOf(init) + {pairs[|pairs| - 1].0} by {
        forall i | 0 <= i < |init| ensures init[i] == pairs[i] { }
      }
    }
  }

  /** The last pair written for a key decides its value. */
  lemma {:induction false} PutAllLastWins(t: Table, pairs: seq<(string, string)>, i: nat)
    requires i < |pairs|
    requires forall j :: i < j < |pairs| ==> pairs[j].0 != pairs[i].0
    ensures Get(PutAll(t, pairs), pairs[i].0) == Some(pairs[i].1)
    decreases |pairs|
  {
    if i < |pairs| - 1 {
      PutAllLastWins(t, pairs[..|pairs| - 1], i);
    }
  }

  /** A key no pair writes keeps its value (or its absence). */
  lemma {:induction false} PutAllUntouched(t: Table, pairs: seq<(string, string)>, k: string)
    requires forall j :: 0 <= j < |pairs| ==> pairs[j].0 != k
    ensures Get(PutAll(t, pairs), k) == Get(t, k)
    decreases |pairs|
  {
    if |pairs| > 0 {
      PutAllUntouched(t, pairs[..|pairs| - 1], k);
    }
  }

  /** However the writes are ordered, `all()` lists as many routes as there
      are distinct keys among them. */
  lemma DistinctKeysCount(pairs: seq<(string, string)>)
    ensures |Entries(PutAll(Empty(), pairs))| == |KeysOf(pairs)|
  {
    PutAllKeys(Empty(), pairs);
    EntriesCount(PutAll(Empty(), pairs));
  }
}
