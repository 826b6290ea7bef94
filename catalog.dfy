/**
 * The tune catalog: reference metadata for each tune, read from the tune
 * table once and kept in a process-wide cache.
 */
module Catalog {

  import opened Wrappers
  import opened Levels

  /** The most entities one datastore fetch returns (`Tune.LIMIT`). */
  const LIMIT: nat := 1000

  datatype Tune = Tune(
    tuneId: int,
    title: string,
    artist: Option<string>,
    levelBas: Option<int>,
    levelAdv: Option<int>,
    levelExt: Option<int>)

  /** `getattr(tune, 'level_' + tier)`: the tune's difficulty level for one tier. */
  function LevelOf(t: Tune, tier: Tier): Option<int>
  {
    match tier
    case Bas => t.levelBas
    case Adv => t.levelAdv
    case Ext => t.levelExt
  }

  /** `fetch(n)`: at most the first `n` entities of a query, in query order. */
  function Take<T>(s: seq<T>, n: nat): (r: seq<T>)
    ensures |r| == (if |s| <= n then |s| else n) && r == s[..|r|]
  {
    if |s| <= n then s else s[..n]
  }

  /**
   * A dictionary built by `d[key(x)] = x` for each `x` of `s` in order, so
   * that of two entities with one key the later one is kept.
   */
  function IndexBy<T>(s: seq<T>, key: T -> int): (d: map<int, T>)
    ensures forall k :: k in d ==> key(d[k]) == k
  {
    if s == [] then map[]
    else
      var last := s[|s| - 1];
      IndexBy(s[..|s| - 1], key)[key(last) := last]
  }

  /** `s[i]` is the last entity of `s` whose key is `k`. */
  predicate LastWithKey<T>(s: seq<T>, key: T -> int, k: int, i: nat)
  {
    i < |s| && key(s[i]) == k && forall j :: i < j < |s| ==> key(s[j]) != k
  }

  /** A key is present exactly when some entity has it, and it maps to the last such entity. */
  lemma {:induction false} IndexByFacts<T>(s: seq<T>, key: T -> int)
    ensures forall i :: 0 <= i < |s| ==> key(s[i]) in IndexBy(s, key)
    ensures forall k :: k in IndexBy(s, key) ==>
      exists i: nat :: LastWithKey(s, key, k, i) && IndexBy(s, key)[k] == s[i]
  {
    if s != [] {
      var n := |s|;
      var front := s[..n - 1];
      var last := s[n - 1];
      IndexByFacts(front, key);
      var d := IndexBy(s, key);
      forall k | k in d
        ensures exists i: nat :: LastWithKey(s, key, k, i) && d[k] == s[i]
      {
        if k == key(last) {
          assert LastWithKey(s, key, k, n - 1);
        } else {
          var i: nat :| LastWithKey(front, key, k, i) && IndexBy(front, key)[k] == front[i];
          assert LastWithKey(s, key, k, i);
        }
      }
      forall i | 0 <= i < n
        ensures key(s[i]) in d
      {
        if i < n - 1 {
          assert s[i] == front[i];
        }
      }
    }
  }

  function TuneKey(t: Tune): int
  {
    t.tuneId
  }

  /** The catalog dictionary of a scan: tunes keyed by id, the later of two with one id kept. */
  function IndexTunes(ts: seq<Tune>): map<int, Tune>
  {
    IndexBy(ts, TuneKey)
  }

  /** The dictionary `tunes_dict` returns given the cache and the table. */
  function CachedIndex(cache: map<int, Tune>, table: seq<Tune>): map<int, Tune>
  {
    if cache != map[] then cache else IndexTunes(Take(table, LIMIT))
  }

  /** A non-empty table fills the cache, so later calls do not scan it again. */
  lemma NonEmptyTableFillsCache(ts: seq<Tune>)
    requires ts != []
    ensures IndexTunes(Take(ts, LIMIT)) != map[]
  {
    var fetched := Take(ts, LIMIT);
    IndexByFacts(fetched, TuneKey);
    assert TuneKey(fetched[0]) in IndexTunes(fetched);
  }

  /** `Tune.tunes_dict` and its class-level cache `TUNES_DICT_CACHE`. */
  class TuneCatalog {

    /** The Tune entities in the datastore, in query order; this model never changes them. */
    const table: seq<Tune>

    var cache: map<int, Tune>

    /**
     * Only `tunes_dict` writes the cache, so it is either still empty or
     * the dictionary of the scan.
     */
    predicate Valid()
      reads this
    {
      cache == map[] || cache == IndexTunes(Take(table, LIMIT))
    }

    constructor (table: seq<Tune>)
      ensures this.table == table && cache == map[] && Valid()
    {
      this.table := table;
      cache := map[];
    }

    /**
     * Returns the cache when it is non-empty; otherwise scans the first
     * LIMIT tunes into a fresh dictionary, stores it as the cache and
     * returns it. An empty table leaves the cache empty.
     */
    method TunesDict() returns (d: map<int, Tune>)
      requires Valid()
      modifies this
      ensures Valid() && d == IndexTunes(Take(table, LIMIT))
      ensures old(cache) != map[] ==> d == old(cache)
      ensures old(cache) == map[] ==> d == IndexTunes(Take(table, LIMIT))
      ensures cache == d && d == CachedIndex(old(cache), table)
    {
      if cache != map[] {
        return cache;
      }
      var fetched := Take(table, LIMIT);
      d := map[];
      for i := 0 to |fetched|
        invariant d == IndexTunes(fetched[..i])
      {
        var t := fetched[i];
        assert fetched[..i + 1][..i] == fetched[..i];
        d := d[t.tuneId := t];
      }
      assert fetched[..|fetched|] == fetched;
      cache := d;
    }
  }
}
