/** The shared statistics cache. Each method holds the cache's lock for its whole
    body, so each is one atomic step of the system in `PollMachine`. */
module StatsCaches {
  import opened Collections
  import opened VMStatsTypes

  /** The entries of `items` whose key the pruning set holds with the value true. */
  function Pruned(items: Cache, activeKeys: map<string, bool>): Cache {
    map k | k in items && k in activeKeys && activeKeys[k] :: items[k]
  }

  /** The list holds the entries of the cache, each once, in the order of `keys`. */
  ghost predicate ListedBy(items: Cache, result: seq<CachedStats>, keys: seq<string>) {
    && |result| == |keys| == |items|
    && Distinct(keys) && (forall k :: k in items <==> k in keys)
    && forall i :: 0 <= i < |keys| ==> keys[i] in items && result[i] == items[keys[i]]
  }

  class StatsCache {
    var items: Cache

    constructor ()
      ensures items == map[]
    {
      items := map[];
    }

    method Store(key: string, vmi: VMI, stats: VMStats)
      modifies this
      ensures items == old(items)[key := CachedStats(vmi, stats)]
    {
      items := items[key := CachedStats(vmi, stats)];
    }

    /** The cached entries, each once, in some order of their keys. */
    method List() returns (result: seq<CachedStats>)
      ensures exists keys :: ListedBy(items, result, keys)
    {
      result := [];
      ghost var keys: seq<string> := [];
      var todo := items.Keys;
      while todo != {}
        invariant todo <= items.Keys && |result| == |keys| == |items.Keys| - |todo|
        invariant Distinct(keys) && (forall k :: k in items.Keys - todo <==> k in keys)
        invariant forall i :: 0 <= i < |keys| ==> keys[i] in items && result[i] == items[keys[i]]
        decreases todo
      {
        var k :| k in todo;
        assert k !in keys;
        result, keys, todo := result + [items[k]], keys + [k], todo - {k};
      }
      assert ListedBy(items, result, keys);
    }

    method Prune(activeKeys: map<string, bool>)
      modifies this
      ensures items == Pruned(old(items), activeKeys)
      ensures forall k :: k in items <==> k in old(items) && k in activeKeys && activeKeys[k]
      ensures forall k :: k in items ==> items[k] == old(items)[k]
    {
      var todo := items.Keys;
      while todo != {}
        invariant todo <= items.Keys <= old(items.Keys)
        invariant forall k :: k in items <==>
          k in old(items) && (k in todo || (k in activeKeys && activeKeys[k]))
        invariant forall k :: k in items ==> items[k] == old(items)[k]
        decreases todo
      {
        var k :| k in todo;
        if !(k in activeKeys && activeKeys[k]) {
          items := items - {k};
        }
        todo := todo - {k};
      }
    }

    method Remove(key: string)
      modifies this
      ensures items == old(items) - {key}
    {
      items := items - {key};
    }
  }
}
