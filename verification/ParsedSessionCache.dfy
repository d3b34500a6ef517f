/** The module-level state behind `useParsedSession`: an LRU of parsed sessions and the in-flight fetches. */
module ParsedSessionCache {
  import opened Wrappers

  const CACHE_MAX: nat := 5

  datatype Row = Row(storedSessionUid: Option<string>, tool: string)

  /** A parsed payload, named by the fetch that produced it. */
  datatype Parsed = Parsed(fetch: nat, truncated: bool)

  datatype Entry = Entry(key: string, parsed: Parsed)

  /** `cache` is in insertion order, oldest first, as the entries of a JavaScript Map are. */
  datatype Shared = Shared(
    cache: seq<Entry>, inFlight: map<string, nat>, controllers: map<string, nat>, epoch: nat)

  function MakeKey(storedSessionUid: string, tool: string): string {
    storedSessionUid + "::" + tool
  }

  // ---------- an insertion-ordered map ----------

  predicate UniqueKeys(cache: seq<Entry>) {
    forall i, j :: 0 <= i < j < |cache| ==> cache[i].key != cache[j].key
  }

  /** Where a key stands; the length when it is absent. */
  function IndexOf(cache: seq<Entry>, key: string): (i: nat)
    ensures i <= |cache| && (i < |cache| ==> cache[i].key == key)
    ensures forall j :: 0 <= j < i ==> cache[j].key != key
  {
    if cache == [] || cache[0].key == key then 0 else 1 + IndexOf(cache[1..], key)
  }

  predicate HasKey(cache: seq<Entry>, key: string) {
    IndexOf(cache, key) < |cache|
  }

  function Get(cache: seq<Entry>, key: string): Option<Parsed> {
    if HasKey(cache, key) then Some(cache[IndexOf(cache, key)].parsed) else None
  }

  /** Delete a key; the others keep their order. */
  function Remove(cache: seq<Entry>, key: string): seq<Entry> {
    var i := IndexOf(cache, key);
    if i < |cache| then cache[..i] + cache[i + 1..] else cache
  }

  /** Setting a present key keeps its place; a new key goes last. */
  function Set(cache: seq<Entry>, key: string, parsed: Parsed): seq<Entry> {
    var i := IndexOf(cache, key);
    if i < |cache| then cache[i := Entry(key, parsed)] else cache + [Entry(key, parsed)]
  }

  /** Drop the oldest entries until at most the limit is left. */
  function Evict(cache: seq<Entry>): seq<Entry> {
    if |cache| > CACHE_MAX then Evict(cache[1..]) else cache
  }

  /** A read hit moves its entry to the most recent end. */
  function Touch(cache: seq<Entry>, key: string): seq<Entry> {
    match Get(cache, key)
    case None => cache
    case Some(parsed) => Remove(cache, key) + [Entry(key, parsed)]
  }

  function Write(cache: seq<Entry>, key: string, parsed: Parsed): seq<Entry> {
    Evict(Set(cache, key, parsed))
  }

  lemma RemoveKeepsUnique(cache: seq<Entry>, key: string)
    requires UniqueKeys(cache)
    ensures UniqueKeys(Remove(cache, key))
    ensures forall e :: e in Remove(cache, key) ==> e in cache && e.key != key
  {
    var i, rest := IndexOf(cache, key), Remove(cache, key);
    forall j | 0 <= j < |rest| ensures rest[j] in cache && rest[j].key != key {
      assert rest[j] == cache[if j < i then j else j + 1];
    }
  }

  lemma AppendKeepsUnique(cache: seq<Entry>, e: Entry)
    requires UniqueKeys(cache) && forall o :: o in cache ==> o.key != e.key
    ensures UniqueKeys(cache + [e])
  {
  }

  lemma SameEntries(before: seq<Entry>, e: Entry, after: seq<Entry>)
    ensures multiset(before + after + [e]) == multiset(before + [e] + after)
  {
  }

  lemma TouchOnlyReorders(cache: seq<Entry>, key: string)
    requires UniqueKeys(cache)
    ensures UniqueKeys(Touch(cache, key)) && |Touch(cache, key)| == |cache|
    ensures multiset(Touch(cache, key)) == multiset(cache)
    ensures HasKey(cache, key) ==> Touch(cache, key) == Remove(cache, key) + [cache[IndexOf(cache, key)]]
    ensures forall i :: 0 <= i < |cache| && cache[i].key == key ==>
      Touch(cache, key) == cache[..i] + cache[i + 1..] + [cache[i]]
    ensures (forall i :: 0 <= i < |cache| ==> cache[i].key != key) ==> Touch(cache, key) == cache
  {
    var i := IndexOf(cache, key);
    if i < |cache| {
      RemoveKeepsUnique(cache, key);
      AppendKeepsUnique(Remove(cache, key), cache[i]);
      SameEntries(cache[..i], cache[i], cache[i + 1..]);
      assert cache == cache[..i] + [cache[i]] + cache[i + 1..];
    }
  }

  lemma SetKeepsUnique(cache: seq<Entry>, key: string, parsed: Parsed)
    requires UniqueKeys(cache)
    ensures UniqueKeys(Set(cache, key, parsed))
    ensures Entry(key, parsed) in Set(cache, key, parsed)
  {
    var i := IndexOf(cache, key);
    assert Set(cache, key, parsed)[i] == Entry(key, parsed);
  }

  /** The key just written survives; a new key in a full cache costs the oldest entry, nothing else costs any. */
  lemma WrittenKeySurvives(cache: seq<Entry>, key: string, parsed: Parsed)
    requires UniqueKeys(cache) && |cache| <= CACHE_MAX
    ensures Entry(key, parsed) in Write(cache, key, parsed) && UniqueKeys(Write(cache, key, parsed))
    ensures |Write(cache, key, parsed)| <= CACHE_MAX
    ensures (forall i :: 0 <= i < |cache| ==> cache[i].key != key) ==>
      Write(cache, key, parsed) == (if |cache| < CACHE_MAX then cache else cache[1..]) + [Entry(key, parsed)]
    ensures forall i :: 0 <= i < |cache| && cache[i].key == key ==>
      Write(cache, key, parsed) == cache[i := Entry(key, parsed)]
  {
    SetKeepsUnique(cache, key, parsed);
    if !HasKey(cache, key) && |cache| == CACHE_MAX {
      EvictsTheOldest(cache, Entry(key, parsed));
    }
  }

  lemma TailKeepsUnique(cache: seq<Entry>)
    requires UniqueKeys(cache) && cache != []
    ensures UniqueKeys(cache[1..])
  {
  }

  lemma EvictsTheOldest(cache: seq<Entry>, e: Entry)
    requires UniqueKeys(cache + [e]) && |cache| == CACHE_MAX
    ensures Evict(cache + [e]) == cache[1..] + [e]
    ensures e in cache[1..] + [e] && UniqueKeys(cache[1..] + [e])
  {
    TailKeepsUnique(cache + [e]);
    assert (cache + [e])[1..] == cache[1..] + [e];
    assert Evict(cache[1..] + [e]) == cache[1..] + [e];
  }

  // ---------- the object ----------

  class SessionCache {
    var cache: seq<Entry>
    var inFlight: map<string, nat>
    var inFlightControllers: map<string, nat>
    var cacheEpoch: nat

    constructor ()
      ensures State() == Shared([], map[], map[], 0)
    {
      cache, inFlight, inFlightControllers, cacheEpoch := [], map[], map[], 0;
    }

    function State(): Shared
      reads this
    {
      Shared(cache, inFlight, inFlightControllers, cacheEpoch)
    }

    /** `bumpCacheEpoch`; `aborted` are the fetches whose controllers it aborts. */
    method BumpCacheEpoch() returns (aborted: set<nat>)
      modifies this
      ensures State() == Bumped(old(State()))
      ensures aborted == old(inFlightControllers).Values
    {
      cacheEpoch := cacheEpoch + 1;
      cache := [];
      aborted := inFlightControllers.Values;
      inFlightControllers := map[];
      inFlight := map[];
    }

    /** A cache read, with its recency bump. */
    method Read(key: string) returns (hit: Option<Parsed>)
      modifies `cache
      ensures hit == Get(old(cache), key) && cache == Touch(old(cache), key)
    {
      hit := Get(cache, key);
      if hit.Some? {
        cache := Remove(cache, key);
        cache := cache + [Entry(key, hit.value)];
      }
    }

    /** A fetch that has parsed its payload: cache it unless a reset came first. */
    method Store(key: string, parsed: Parsed, epochAtStart: nat)
      modifies `cache
      ensures State() == Stored(old(State()), key, parsed, epochAtStart)
    {
      if cacheEpoch == epochAtStart {
        cache := Set(cache, key, parsed);
        ghost var updated := cache;
        while |cache| > CACHE_MAX
          invariant Evict(cache) == Evict(updated)
        {
          cache := cache[1..];
        }
      }
    }

    method BeginFetch(key: string, fetch: nat)
      modifies `inFlight, `inFlightControllers
      ensures State() == Begun(old(State()), key, fetch)
    {
      inFlightControllers := inFlightControllers[key := fetch];
      inFlight := inFlight[key := fetch];
    }

    /** The settle handler's clean-up, gated on identity. */
    method DropSettled(key: string, fetch: nat)
      modifies `inFlight, `inFlightControllers
      ensures State() == Dropped(old(State()), key, fetch)
    {
      if key in inFlight && inFlight[key] == fetch {
        inFlight := inFlight - {key};
        inFlightControllers := inFlightControllers - {key};
      }
    }
  }

  function Bumped(s: Shared): Shared {
    Shared([], map[], map[], s.epoch + 1)
  }

  function Stored(s: Shared, key: string, parsed: Parsed, epochAtStart: nat): Shared {
    if s.epoch == epochAtStart then s.(cache := Write(s.cache, key, parsed)) else s
  }

  function Begun(s: Shared, key: string, fetch: nat): Shared {
    s.(inFlight := s.inFlight[key := fetch], controllers := s.controllers[key := fetch])
  }

  function Dropped(s: Shared, key: string, fetch: nat): Shared {
    if key in s.inFlight && s.inFlight[key] == fetch then
      s.(inFlight := s.inFlight - {key}, controllers := s.controllers - {key})
    else s
  }
}
