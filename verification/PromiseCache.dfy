/**
 The promise cache of the security page. `cachedAsync` hands every caller the computation already
 under way, `bustCache` drops it, and a computation that rejects removes itself, possibly long
 after the key has moved on. Calls, busts and rejections interleave in any order.

 A promise is its number. `took` is the time the computation's own synchronous part needs before
 the entry is written.
 */
module PromiseCache {
  import opened Basics
  import opened Wrappers

  type Key = string
  type Promise = nat

  datatype Entry = Entry(promise: Promise, at: Time)

  datatype Event =
    | Started(key: Key, promise: Promise, asked: Time, at: Time, ttl: int)
    | Served(key: Key, promise: Promise, asked: Time, ttl: int)
    | Busted(key: Key)
    | Rejected(key: Key, promise: Promise)

  // ── The entry as a function of the history ────────────────────────────────

  function AfterEvent(entry: Option<Entry>, e: Event, key: Key): Option<Entry> {
    if e.key != key then entry
    else match e
      case Started(_, p, _, at, _) => Some(Entry(p, at))
      case Served(_, _, _, _) => entry
      case Busted(_) => None
      case Rejected(_, p) => if entry.Some? && entry.value.promise == p then None else entry
  }

  function Replay(h: seq<Event>, key: Key): Option<Entry> {
    if h == [] then None
    else AfterEvent(Replay(h[..|h| - 1], key), h[|h| - 1], key)
  }

  lemma ReplayStep(h: seq<Event>, key: Key, k: nat)
    requires k < |h|
    ensures Replay(h[..k + 1], key) == AfterEvent(Replay(h[..k], key), h[k], key)
  {
    assert h[..k + 1][..k] == h[..k];
  }

  predicate IsStart(h: seq<Event>, i: nat, key: Key) {
    i < |h| && h[i].Started? && h[i].key == key
  }

  /** What takes the entry away that the start at `i` wrote: a bust, its own rejection, a newer start. */
  predicate Displaces(h: seq<Event>, i: nat, m: nat)
    requires i < |h| && h[i].Started? && m < |h|
  {
    && h[m].key == h[i].key
    && (h[m].Started? || h[m].Busted? || (h[m].Rejected? && h[m].promise == h[i].promise))
  }

  /** The start at `i` is the newest for its key before `n` and nothing has displaced it by then. */
  ghost predicate Standing(h: seq<Event>, i: nat, n: nat)
    requires i < n <= |h| && h[i].Started?
  {
    forall m :: i < m < n ==> !Displaces(h, i, m)
  }

  lemma {:induction false} StandingIsStored(h: seq<Event>, i: nat, n: nat)
    requires i < n <= |h| && h[i].Started? && Standing(h, i, n)
    ensures Replay(h[..n], h[i].key) == Some(Entry(h[i].promise, h[i].at))
    decreases n
  {
    ReplayStep(h, h[i].key, n - 1);
    if i < n - 1 {
      StandingIsStored(h, i, n - 1);
      assert !Displaces(h, i, n - 1);
    }
  }

  lemma {:induction false} StoredIsStanding(h: seq<Event>, key: Key, n: nat) returns (i: nat)
    requires n <= |h| && Replay(h[..n], key).Some?
    ensures i < n && IsStart(h, i, key) && Standing(h, i, n)
    ensures Replay(h[..n], key) == Some(Entry(h[i].promise, h[i].at))
    decreases n
  {
    if n == 0 {
      assert false;
    }
    ReplayStep(h, key, n - 1);
    if IsStart(h, n - 1, key) {
      i := n - 1;
    } else {
      i := StoredIsStanding(h, key, n - 1);
      assert !Displaces(h, i, n - 1);
    }
  }

  /**
   A key has an entry exactly when its newest computation has been neither busted nor rejected, and
   then the entry is that computation. Rejections of older ones make no difference.
   */
  lemma EntryIsTheNewest(h: seq<Event>, key: Key, entry: Entry)
    ensures Replay(h, key) == Some(entry)
        <==> exists i: nat :: IsStart(h, i, key) && Standing(h, i, |h|) && entry == Entry(h[i].promise, h[i].at)
  {
    assert h[..|h|] == h;
    if Replay(h, key) == Some(entry) {
      var i := StoredIsStanding(h, key, |h|);
      assert IsStart(h, i, key);
    }
    forall i: nat | IsStart(h, i, key) && Standing(h, i, |h|) && entry == Entry(h[i].promise, h[i].at)
      ensures Replay(h, key) == Some(entry)
    {
      StandingIsStored(h, i, |h|);
    }
  }

  // ── Histories the cache can have ──────────────────────────────────────────

  function Hit(entry: Option<Entry>, asked: Time, ttl: int): bool {
    entry.Some? && asked - entry.value.at < ttl
  }

  /** A start finds nothing young enough, a caller served gets what is stored. */
  predicate Admitted(h: seq<Event>, k: nat)
    requires k < |h|
  {
    match h[k]
    case Started(key, _, asked, at, ttl) => !Hit(Replay(h[..k], key), asked, ttl) && asked <= at
    case Served(key, p, asked, ttl) => Hit(Replay(h[..k], key), asked, ttl) && Replay(h[..k], key).value.promise == p
    case _ => true
  }

  ghost predicate Lawful(h: seq<Event>) {
    forall k :: 0 <= k < |h| ==> Admitted(h, k)
  }

  /** No start for the key strictly between the two. */
  ghost predicate NextStart(h: seq<Event>, i: nat, j: nat, key: Key) {
    && i < j && IsStart(h, i, key) && IsStart(h, j, key)
    && forall m: nat :: i < m < j ==> !IsStart(h, m, key)
  }

  /** Two consecutive starts closer than the time to live have a bust or the first one's own rejection between them. */
  lemma CloseStartsAreSeparated(h: seq<Event>, i: nat, j: nat, key: Key)
    requires Lawful(h) && NextStart(h, i, j, key)
    requires h[j].asked - h[i].at < h[j].ttl
    ensures exists m :: i < m < j && (h[m] == Busted(key) || h[m] == Rejected(key, h[i].promise))
  {
    assert Admitted(h, j);
    if Standing(h, i, j) {
      StandingIsStored(h, i, j);
    } else {
      var m :| i < m < j && Displaces(h, i, m);
      assert !IsStart(h, m, key);
    }
  }

  /** A caller served gets the newest computation, still young, not busted, and not known to have failed. */
  lemma ServedIsTheNewest(h: seq<Event>, k: nat)
    requires Lawful(h) && k < |h| && h[k].Served?
    ensures exists i: nat :: i < k && IsStart(h, i, h[k].key) && Standing(h, i, k)
                          && h[i].promise == h[k].promise && h[k].asked - h[i].at < h[k].ttl
  {
    assert Admitted(h, k);
    var i := StoredIsStanding(h, h[k].key, k);
    assert IsStart(h, i, h[k].key);
  }

  // ── How often a computation can start ─────────────────────────────────────

  function StartsAfter(h: seq<Event>, key: Key, lo: nat, hi: nat): nat
    requires lo <= hi < |h|
    decreases hi
  {
    if lo == hi then 0
    else StartsAfter(h, key, lo, hi - 1) + (if IsStart(h, hi, key) then 1 else 0)
  }

  /** Nothing removes an entry for the key in this stretch, and its callers agree on the time to live. */
  ghost predicate Quiet(h: seq<Event>, key: Key, ttl: int, lo: nat, hi: nat)
    requires lo <= hi < |h|
  {
    forall m :: lo < m <= hi && h[m].key == key ==>
      !h[m].Busted? && !h[m].Rejected? && (h[m].Started? ==> h[m].ttl == ttl)
  }

  lemma {:induction false} QuietStarts(h: seq<Event>, key: Key, ttl: int, lo: nat, hi: nat) returns (i: nat)
    requires Lawful(h) && lo <= hi < |h| && IsStart(h, lo, key) && Quiet(h, key, ttl, lo, hi)
    ensures lo <= i <= hi && IsStart(h, i, key) && Standing(h, i, hi + 1)
    ensures h[i].at - h[lo].at >= StartsAfter(h, key, lo, hi) * ttl
    ensures IsStart(h, hi, key) ==> i == hi
    decreases hi
  {
    if lo == hi {
      i := lo;
    } else {
      i := QuietStarts(h, key, ttl, lo, hi - 1);
      if IsStart(h, hi, key) {
        StandingIsStored(h, i, hi);
        assert Admitted(h, hi);
        i := hi;
      } else {
        assert !Displaces(h, i, hi);
      }
    }
  }

  /** Without busts and rejections, the n-th start after one comes at least n times to live later. */
  lemma StartsAreSpaced(h: seq<Event>, key: Key, ttl: int, lo: nat, hi: nat)
    requires Lawful(h) && lo <= hi < |h| && IsStart(h, lo, key) && IsStart(h, hi, key) && Quiet(h, key, ttl, lo, hi)
    ensures h[hi].at - h[lo].at >= StartsAfter(h, key, lo, hi) * ttl
  {
    var i := QuietStarts(h, key, ttl, lo, hi);
  }

  // ── The map and its history ───────────────────────────────────────────────

  ghost predicate Recorded(cache: map<Key, Entry>, h: seq<Event>) {
    && Lawful(h)
    && forall key: Key :: Lookup(cache, key) == Replay(h, key)
  }

  lemma RecordOne(cache: map<Key, Entry>, h: seq<Event>, e: Event, updated: map<Key, Entry>)
    requires Recorded(cache, h) && Admitted(h + [e], |h|)
    requires forall key: Key :: Lookup(updated, key) == AfterEvent(Lookup(cache, key), e, key)
    ensures Recorded(updated, h + [e])
  {
    var more := h + [e];
    assert more[..|h|] == h;
    forall k | 0 <= k < |more| ensures Admitted(more, k) {
      if k < |h| {
        assert Admitted(h, k);
        assert more[..k] == h[..k];
      }
    }
  }

  lemma RecordHit(cache: map<Key, Entry>, h: seq<Event>, key: Key, asked: Time, ttl: int)
    requires Recorded(cache, h) && Hit(Lookup(cache, key), asked, ttl)
    ensures Recorded(cache, h + [Served(key, cache[key].promise, asked, ttl)])
  {
    var e := Served(key, cache[key].promise, asked, ttl);
    assert (h + [e])[..|h|] == h;
    RecordOne(cache, h, e, cache);
  }

  lemma RecordMiss(cache: map<Key, Entry>, h: seq<Event>, key: Key, promise: Promise, asked: Time, at: Time, ttl: int)
    requires Recorded(cache, h) && !Hit(Lookup(cache, key), asked, ttl) && asked <= at
    ensures Recorded(cache[key := Entry(promise, at)], h + [Started(key, promise, asked, at, ttl)])
  {
    var e := Started(key, promise, asked, at, ttl);
    assert (h + [e])[..|h|] == h;
    RecordOne(cache, h, e, cache[key := Entry(promise, at)]);
  }

  ghost predicate StartedAs(h: seq<Event>, promise: Promise, key: Key) {
    exists k: nat :: IsStart(h, k, key) && h[k].promise == promise
  }

  /** Times and numbers only grow, and what runs was started under its key. */
  ghost predicate Numbered(h: seq<Event>, clock: Time, running: map<Promise, Key>, next: Promise) {
    && (forall k :: 0 <= k < |h| && h[k].Started? ==> h[k].at <= clock && h[k].promise < next)
    && (forall i, j :: 0 <= i < j < |h| && h[i].Started? && h[j].Started? ==> h[i].promise < h[j].promise)
    && (forall p :: p in running ==> StartedAs(h, p, running[p]))
  }

  lemma NumberedMore(h: seq<Event>, clock: Time, running: map<Promise, Key>, next: Promise, e: Event)
    requires Numbered(h, clock, running, next)
    requires e.Started? ==> e.at == clock && e.promise == next
    ensures Numbered(h + [e], clock, running, next + (if e.Started? then 1 else 0))
    ensures e.Started? ==> Numbered(h + [e], clock, running[next := e.key], next + 1)
  {
    var more := h + [e];
    forall p | p in running ensures StartedAs(more, p, running[p]) {
      var k: nat :| IsStart(h, k, running[p]) && h[k].promise == p;
      assert IsStart(more, k, running[p]) && more[k].promise == p;
    }
    assert e.Started? ==> IsStart(more, |h|, e.key) && more[|h|].promise == e.promise;
  }

  /** A computation can be stored only under the key it was started for. */
  lemma StoredUnderItsKey(entries: map<Key, Entry>, h: seq<Event>, clock: Time, running: map<Promise, Key>,
                          next: Promise, other: Key)
    requires Recorded(entries, h) && Numbered(h, clock, running, next)
    requires other in entries && entries[other].promise in running
    ensures running[entries[other].promise] == other
  {
    assert Lookup(entries, other) == Replay(h, other);
    assert h[..|h|] == h;
    var i := StoredIsStanding(h, other, |h|);
  }
}
