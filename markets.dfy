/**
  The market cache behind `get_markets` (xyz415.py): one dictionary of symbol
  lists per venue under a single timestamp. When the timestamp is unset or more
  than five minutes old, the whole dictionary is dropped and the timestamp
  reset; a venue missing from the dictionary is then loaded, and a load that
  fails is cached as an empty list.

  Times are `datetime` values counted in microseconds. `load_markets` is an
  oracle: the symbols it returns for the venue, or `None` when it raises.
*/
module Markets {
  import opened Wrappers

  /** `cache_duration`: five minutes. */
  const CacheDuration: int := 300_000_000

  /** `markets_cache` and `markets_cache_time`. */
  datatype Cache = Cache(entries: map<string, seq<string>>, time: Option<int>)

  /** The lookup at `now` first drops the whole cache: never stamped, or strictly
      more than five minutes old. */
  predicate Expired(c: Cache, now: int) {
    c.time.None? || now - c.time.value > CacheDuration
  }

  /** `get_markets(name)` at `now`, where `load` is what `load_markets` would give:
      the new cache and the symbols returned. */
  function Lookup(c: Cache, name: string, now: int, load: Option<seq<string>>): (r: (Cache, seq<string>))
    ensures name in r.0.entries && r.1 == r.0.entries[name]
    ensures r.0.time.Some?
  {
    var d := if Expired(c, now) then Cache(map[], Some(now)) else c;
    if name in d.entries then (d, d.entries[name])
    else
      var markets := if load.Some? then load.value else [];
      (Cache(d.entries[name := markets], d.time), markets)
  }

  /** Within the window, a venue already cached is answered from the cache,
      whatever the loader would say, and the cache does not change. */
  lemma LookupHit(c: Cache, name: string, now: int, load: Option<seq<string>>)
    requires !Expired(c, now) && name in c.entries
    ensures Lookup(c, name, now, load) == (c, c.entries[name])
  {
  }

  /** Within the window, a venue not yet cached is loaded and added; the other
      venues and the timestamp stay as they were, and a failed load gives `[]`. */
  lemma LookupMiss(c: Cache, name: string, now: int, load: Option<seq<string>>)
    requires !Expired(c, now) && name !in c.entries
    ensures var r := Lookup(c, name, now, load);
      r.1 == (if load.Some? then load.value else [])
      && r.0 == Cache(c.entries[name := r.1], c.time)
  {
  }

  /** On expiry everything cached before is gone: the cache holds just the venue
      looked up, freshly loaded, stamped with `now`. */
  lemma LookupExpired(c: Cache, name: string, now: int, load: Option<seq<string>>)
    requires Expired(c, now)
    ensures var r := Lookup(c, name, now, load);
      r.0.entries.Keys == {name} && r.0.time == Some(now)
      && r.1 == (if load.Some? then load.value else [])
  {
  }

  /** The timestamp changes only on expiry, and then becomes `now`. */
  lemma LookupStamp(c: Cache, name: string, now: int, load: Option<seq<string>>)
    ensures Lookup(c, name, now, load).0.time == if Expired(c, now) then Some(now) else c.time
  {
  }

  /** The window is closed: a cache exactly five minutes old is still used. */
  lemma FiveMinutesIsFresh(entries: map<string, seq<string>>, stamp: int)
    ensures !Expired(Cache(entries, Some(stamp)), stamp + CacheDuration)
    ensures Expired(Cache(entries, Some(stamp)), stamp + CacheDuration + 1)
  {
  }

  /** A second lookup of the same venue at the same moment is a hit: it returns
      what the first returned, does not consult the loader, and changes nothing. */
  lemma LookupRemembers(c: Cache, name: string, now: int, first: Option<seq<string>>, second: Option<seq<string>>)
    ensures var r := Lookup(c, name, now, first);
      Lookup(r.0, name, now, second) == r
  {
    var r := Lookup(c, name, now, first);
    assert !Expired(r.0, now);
  }
}
