/** The service that keeps the cache: its map, the computations still running, and a ghost history. */
module SecurityServices {
  import opened Basics
  import opened PromiseCache

  class SecurityService {
    var entries: map<Key, Entry>
    var clock: Time
    /** Computations not settled yet, each with the key its rejection handler captured. */
    var running: map<Promise, Key>
    var next: Promise
    ghost var history: seq<Event>

    ghost predicate Valid()
      reads this
    {
      Recorded(entries, history) && Numbered(history, clock, running, next)
    }

    constructor ()
      ensures Valid() && entries == map[] && history == []
    {
      entries, clock, running, next, history := map[], 0, map[], 0, [];
    }

    method PassTime(later: Time)
      requires Valid() && clock <= later
      modifies this`clock
      ensures Valid() && clock == later
    {
      clock := later;
    }

    method CachedAsync(key: Key, ttl: int, took: nat) returns (promise: Promise)
      requires Valid()
      modifies this
      ensures Valid()
      ensures old(Hit(Lookup(entries, key), clock, ttl)) ==>
        && promise == old(entries)[key].promise
        && entries == old(entries) && running == old(running) && clock == old(clock)
        && history == old(history) + [Served(key, promise, clock, ttl)]
      ensures !old(Hit(Lookup(entries, key), clock, ttl)) ==>
        && (forall k :: 0 <= k < |old(history)| && old(history)[k].Started? ==> old(history)[k].promise != promise)
        && entries == old(entries)[key := Entry(promise, clock)]
        && running == old(running)[promise := key] && clock == old(clock) + took
        && history == old(history) + [Started(key, promise, old(clock), clock, ttl)]
    {
      if key in entries && clock - entries[key].at < ttl {
        promise := entries[key].promise;
        RecordHit(entries, history, key, clock, ttl);
        NumberedMore(history, clock, running, next, Served(key, promise, clock, ttl));
        history := history + [Served(key, promise, clock, ttl)];
        return;
      }
      promise := next;
      var asked := clock;
      var stored := entries[key := Entry(promise, clock + took)];
      RecordMiss(entries, history, key, promise, asked, clock + took, ttl);
      clock := clock + took;
      NumberedMore(history, clock, running, next, Started(key, promise, asked, clock, ttl));
      running := running[promise := key];
      next := next + 1;
      entries := stored;
      history := history + [Started(key, promise, asked, clock, ttl)];
    }

    method BustCache(key: Key)
      requires Valid()
      modifies this`entries, this`history
      ensures Valid()
      ensures entries == old(entries) - {key}
      ensures history == old(history) + [Busted(key)]
    {
      RecordOne(entries, history, Busted(key), entries - {key});
      NumberedMore(history, clock, running, next, Busted(key));
      entries := entries - {key};
      history := history + [Busted(key)];
    }

    method Resolve(promise: Promise)
      requires Valid() && promise in running
      modifies this`running
      ensures Valid() && running == old(running) - {promise}
    {
      running := running - {promise};
    }

    /** The rejection handler, whenever it gets to run. */
    method Reject(promise: Promise)
      requires Valid() && promise in running
      modifies this`entries, this`running, this`history
      ensures Valid() && running == old(running) - {promise}
      ensures history == old(history) + [Rejected(old(running)[promise], promise)]
      ensures forall key :: key in old(entries) && old(entries)[key].promise != promise ==>
                key in entries && entries[key] == old(entries)[key]
      ensures forall key :: key in entries ==> entries[key].promise != promise && key in old(entries)
    {
      var key := running[promise];
      var kept := entries;
      if key in entries && entries[key].promise == promise {
        kept := entries - {key};
      }
      forall other | other in entries && entries[other].promise == promise ensures other == key {
        StoredUnderItsKey(entries, history, clock, running, next, other);
      }
      RecordOne(entries, history, Rejected(key, promise), kept);
      NumberedMore(history, clock, running, next, Rejected(key, promise));
      entries := kept;
      running := running - {promise};
      history := history + [Rejected(key, promise)];
    }
  }
}
