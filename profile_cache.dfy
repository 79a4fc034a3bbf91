/** The result cache of src/profile_cache.rs: a keyed store of
    (result, completion time) pairs, optionally loaded from a file at start-up.
    File I/O is replaced by its outcome, passed in as a parameter; the clock
    by a caller-supplied timestamp in seconds. */
module ProfileCache {
  import opened Wrappers

  /** A cached calculation result and the time it was stored. */
  datatype Entry<R> = Entry(result: R, completedAt: nat)

  /** The map a cache starts with: what was loaded from the results file when
      one was named and loading succeeded, otherwise the empty map. `loaded`
      is the outcome of reading and deserialising that file (None: it failed). */
  function InitialData<R>(resultsFile: Option<string>, loaded: Option<map<string, Entry<R>>>): (m: map<string, Entry<R>>)
    ensures resultsFile.None? ==> m == map[]
    ensures loaded.None? ==> m == map[]
    ensures m != map[] ==> resultsFile.Some? && loaded == Some(m)
    ensures resultsFile.Some? && loaded.Some? ==> m == loaded.value
  {
    match resultsFile
    case None => map[]
    case Some(_) =>
      match loaded
      case Some(hm) => hm
      case None => map[]
  }

  /** The map after storing `result` for `player` at time `now`. */
  function Stored<R>(m: map<string, Entry<R>>, player: string, result: R, now: nat): (m': map<string, Entry<R>>)
    ensures Lookup(m', player) == Some(Entry(result, now))
    ensures forall q :: q != player ==> Lookup(m', q) == Lookup(m, q)
    ensures m'.Keys == m.Keys + {player}
  {
    m[player := Entry(result, now)]
  }

  class Cache<R> {
    var data: map<string, Entry<R>>

    /** `ProfileCache::new`: never fails; a missing or unreadable results
        file yields an empty cache. */
    constructor (resultsFile: Option<string>, loaded: Option<map<string, Entry<R>>>)
      ensures data == InitialData(resultsFile, loaded)
    {
      data := InitialData(resultsFile, loaded);
    }

    /** `ProfileCache::get`: a read-only lookup. */
    method Get(player: string) returns (r: Option<Entry<R>>)
      ensures r.None? <==> player !in data
      ensures r.Some? ==> r.value == data[player]
    {
      if player in data {
        r := Some(data[player]);
      } else {
        r := None;
      }
    }

    /** `ProfileCache::set`: overwrites the entry for `player`, stamped with
        the current time, and leaves every other entry as it was. */
    method Set(player: string, result: R, now: nat)
      modifies this
      ensures data == Stored(old(data), player, result, now)
    {
      data := data[player := Entry(result, now)];
    }
  }

  /** A cache built without a results file, or whose file failed to load,
      answers None for every player. */
  lemma FreshCacheIsEmpty<R>(resultsFile: Option<string>, loaded: Option<map<string, Entry<R>>>, player: string)
    requires resultsFile.None? || loaded.None?
    ensures Lookup(InitialData(resultsFile, loaded), player).None?
  {
  }

  /** Storing twice for the same player keeps only the later entry. */
  lemma StoredOverwrites<R>(m: map<string, Entry<R>>, player: string, r1: R, t1: nat, r2: R, t2: nat)
    ensures Stored(Stored(m, player, r1, t1), player, r2, t2) == Stored(m, player, r2, t2)
  {
  }

  /** Stores for different players commute. */
  lemma StoredCommutes<R>(m: map<string, Entry<R>>, p: string, r1: R, t1: nat, q: string, r2: R, t2: nat)
    requires p != q
    ensures Stored(Stored(m, p, r1, t1), q, r2, t2) == Stored(Stored(m, q, r2, t2), p, r1, t1)
  {
  }

  /** A client of the class: a get after a set sees exactly what was set, and
      a get changes nothing. */
  method SetThenGet<R>(c: Cache<R>, player: string, result: R, now: nat) returns (r: Option<Entry<R>>)
    modifies c
    ensures r == Some(Entry(result, now))
    ensures c.data == Stored(old(c.data), player, result, now)
  {
    c.Set(player, result, now);
    r := c.Get(player);
  }
}
