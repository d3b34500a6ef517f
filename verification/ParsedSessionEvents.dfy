/** What each event does, seen from the hook's consumers: who fetches, who joins, who is shown what. */
module ParsedSessionEvents {
  import opened Wrappers
  import opened ParsedSessionCache
  import opened ParsedSessionSystem

  /** The row asks for this cache key. */
  predicate Asks(row: Row, key: string) {
    row.storedSessionUid.Some? && key == row.storedSessionUid.value + "::" + row.tool
  }

  predicate IsCachedAs(w: World, key: string, parsed: Parsed) {
    exists i :: 0 <= i < |w.shared.cache| && w.shared.cache[i] == Entry(key, parsed)
  }

  predicate IsCached(w: World, key: string) {
    exists i :: 0 <= i < |w.shared.cache| && w.shared.cache[i].key == key
  }

  lemma CachedIsGot(w: World, key: string)
    requires UniqueKeys(w.shared.cache)
    ensures IsCached(w, key) <==> Get(w.shared.cache, key).Some?
    ensures forall parsed :: IsCachedAs(w, key, parsed) <==> Get(w.shared.cache, key) == Some(parsed)
  {
    var i := IndexOf(w.shared.cache, key);
    forall j | 0 <= j < |w.shared.cache| && w.shared.cache[j].key == key ensures j == i {
    }
  }

  // ---------- an effect run ----------

  /** Nothing but the run of one consumer's effect, whose clean-up may have aborted that consumer's own fetch. */
  predicate OthersStay(w: World, w': World, c: nat)
    requires c < |w.consumers|
  {
    && |w'.consumers| == |w.consumers| && |w'.fetches| >= |w.fetches| && |w'.subscriptions| >= |w.subscriptions|
    && w'.shared.epoch == w.shared.epoch
    && (forall i :: 0 <= i < |w.consumers| && i != c ==> w'.consumers[i] == w.consumers[i])
    && (forall s :: 0 <= s < |w.subscriptions| ==>
          w'.subscriptions[s] == w.subscriptions[s].(cancelled :=
            w.subscriptions[s].cancelled || w.consumers[c].subscription == Some(s)))
    && (forall f :: 0 <= f < |w.fetches| ==>
          w'.fetches[f] == w.fetches[f].(aborted := w.fetches[f].aborted
            || exists s :: 0 <= s < |w.subscriptions| && w.consumers[c].subscription == Some(s)
                 && w.subscriptions[s].owns && w.subscriptions[s].fetch == f))
  }

  lemma CleanUpIsExact(w: World, c: nat)
    requires Inv(w) && c < |w.consumers| && w.consumers[c].mounted
    ensures OthersStay(w, CleanedUp(w, c), c) && CleanedUp(w, c).shared == w.shared
    ensures |CleanedUp(w, c).fetches| == |w.fetches| && |CleanedUp(w, c).subscriptions| == |w.subscriptions|
    ensures CleanedUp(w, c).consumers[c] == w.consumers[c].(subscription := None, due := true)
  {
    assert ConsumerOk(w, c);
  }

  lemma HitOf(w: World, c: nat, row: Row, key: string, parsed: Parsed)
    requires c < |w.consumers| && w.consumers[c].nonce == 0 && Asks(row, key)
    requires UniqueKeys(w.shared.cache) && IsCachedAs(w, key, parsed)
    ensures EffectBody(w, c, Some(row)) == w.(
      shared := w.shared.(cache := Touch(w.shared.cache, key)),
      consumers := w.consumers[c := w.consumers[c].(
        due := false, shownAt := w.shared.epoch, key := Some(key), subscription := None,
        view := if parsed.truncated then Truncated(parsed) else Success(parsed))])
  {
    CachedIsGot(w, key);
  }

  lemma TouchedLast(cache: seq<Entry>, key: string, parsed: Parsed)
    requires UniqueKeys(cache) && Get(cache, key) == Some(parsed)
    ensures multiset(Touch(cache, key)) == multiset(cache)
    ensures Touch(cache, key) != [] && Touch(cache, key)[|Touch(cache, key)| - 1] == Entry(key, parsed)
  {
    TouchOnlyReorders(cache, key);
  }

  /** In every history, the effect run of a row whose payload is cached shows it and fetches nothing. */
  lemma EffectShowsTheCached(events: seq<Event>, c: nat, row: Row, key: string, parsed: Parsed)
    requires var w := After(events);
      && c < |w.consumers| && w.consumers[c].mounted && w.consumers[c].nonce == 0
      && Asks(row, key) && IsCachedAs(w, key, parsed)
    ensures var w, w' := After(events), After(events + [RunEffect(c, Some(row))]);
      && OthersStay(w, w', c) && |w'.fetches| == |w.fetches| && |w'.subscriptions| == |w.subscriptions|
      && w'.consumers[c].view == (if parsed.truncated then Truncated(parsed) else Success(parsed))
      && w'.consumers[c].subscription == None && w'.consumers[c].key == Some(key) && !w'.consumers[c].due
      && w'.shared.inFlight == w.shared.inFlight && w'.shared.controllers == w.shared.controllers
      && multiset(w'.shared.cache) == multiset(w.shared.cache)
      && w'.shared.cache != [] && w'.shared.cache[|w'.shared.cache| - 1] == Entry(key, parsed)
  {
    var w := After(events);
    EveryHistoryIsSafe(events);
    AfterOneMore(events, RunEffect(c, Some(row)));
    CleanUpIsExact(w, c);
    CachedIsGot(w, key);
    HitOf(CleanedUp(w, c), c, row, key, parsed);
    TouchedLast(w.shared.cache, key, parsed);
  }

  /** One whose fetch is in flight joins it: no second fetch, one more listener, which does not own it. */
  lemma EffectJoinsTheFetch(events: seq<Event>, c: nat, row: Row, key: string)
    requires var w := After(events);
      && c < |w.consumers| && w.consumers[c].mounted && w.consumers[c].nonce == 0
      && Asks(row, key) && !IsCached(w, key) && key in w.shared.inFlight
    ensures var w, w' := After(events), After(events + [RunEffect(c, Some(row))]);
      && OthersStay(w, w', c) && |w'.fetches| == |w.fetches| && w'.shared == w.shared
      && |w'.subscriptions| == |w.subscriptions| + 1
      && w'.subscriptions[|w.subscriptions|]
         == Subscription(c, w.shared.inFlight[key], w.shared.epoch, false, false, false)
      && w'.consumers[c].subscription == Some(|w.subscriptions|) && w'.consumers[c].view == Loading
      && w'.consumers[c].key == Some(key) && !w'.consumers[c].due
  {
    var w := After(events);
    EveryHistoryIsSafe(events);
    AfterOneMore(events, RunEffect(c, Some(row)));
    CleanUpIsExact(w, c);
    CachedIsGot(w, key);
  }

  /** Any other starts the one fetch it owns: nothing cached and nothing in flight, or a retry. */
  lemma EffectStartsAFetch(events: seq<Event>, c: nat, row: Row, key: string)
    requires var w := After(events);
      && c < |w.consumers| && w.consumers[c].mounted && Asks(row, key)
      && (w.consumers[c].nonce > 0 || (!IsCached(w, key) && key !in w.shared.inFlight))
    ensures var w, w' := After(events), After(events + [RunEffect(c, Some(row))]);
      && OthersStay(w, w', c)
      && |w'.fetches| == |w.fetches| + 1 && w'.fetches[|w.fetches|] == Fetch(key, w.shared.epoch, false, Pending)
      && |w'.subscriptions| == |w.subscriptions| + 1
      && w'.subscriptions[|w.subscriptions|] == Subscription(c, |w.fetches|, w.shared.epoch, true, false, false)
      && w'.shared == w.shared.(inFlight := w.shared.inFlight[key := |w.fetches|],
                                controllers := w.shared.controllers[key := |w.fetches|])
      && w'.consumers[c].subscription == Some(|w.subscriptions|) && w'.consumers[c].view == Loading
      && w'.consumers[c].key == Some(key) && !w'.consumers[c].due
  {
    var w := After(events);
    EveryHistoryIsSafe(events);
    AfterOneMore(events, RunEffect(c, Some(row)));
    CleanUpIsExact(w, c);
    CachedIsGot(w, key);
  }

  /** A row with nothing stored, or no row, is never fetched. */
  lemma EffectWithoutAKey(events: seq<Event>, c: nat, row: Option<Row>)
    requires c < |After(events).consumers| && After(events).consumers[c].mounted
    requires row == None || row.value.storedSessionUid == None
    ensures var w, w' := After(events), After(events + [RunEffect(c, row)]);
      && OthersStay(w, w', c) && |w'.fetches| == |w.fetches| && |w'.subscriptions| == |w.subscriptions|
      && w'.shared == w.shared && w'.consumers[c].view == (if row == None then Idle else NoRaw)
      && w'.consumers[c].subscription == None && w'.consumers[c].key == None && !w'.consumers[c].due
  {
    EveryHistoryIsSafe(events);
    AfterOneMore(events, RunEffect(c, row));
    CleanUpIsExact(After(events), c);
  }

  /** So a fetch starts exactly when a mounted consumer's key is neither cached nor in flight, or on retry. */
  lemma FetchStartsExactlyWhen(events: seq<Event>, e: Event)
    ensures var w, w' := After(events), After(events + [e]);
      |w'.fetches| > |w.fetches| <==>
        && e.RunEffect? && e.row.Some? && e.row.value.storedSessionUid.Some?
        && e.consumer < |w.consumers| && w.consumers[e.consumer].mounted
        && var key := e.row.value.storedSessionUid.value + "::" + e.row.value.tool;
           w.consumers[e.consumer].nonce > 0 || (!IsCached(w, key) && key !in w.shared.inFlight)
  {
    var w := After(events);
    if !e.RunEffect? || !IsMounted(w, e.consumer) {
      AfterOneMore(events, e);
      OthersStartNothing(w, e);
    } else {
      if e.row == None || e.row.value.storedSessionUid == None {
        EffectWithoutAKey(events, e.consumer, e.row);
      } else {
        FetchOfARow(events, e.consumer, e.row.value, e.row.value.storedSessionUid.value + "::" + e.row.value.tool);
      }
    }
  }

  lemma OthersStartNothing(w: World, e: Event)
    requires !e.RunEffect? || !IsMounted(w, e.consumer)
    ensures |Apply(w, e).fetches| == |w.fetches|
  {
  }

  lemma FetchOfARow(events: seq<Event>, c: nat, row: Row, key: string)
    requires c < |After(events).consumers| && After(events).consumers[c].mounted && Asks(row, key)
    ensures var w, w' := After(events), After(events + [RunEffect(c, Some(row))]);
      |w'.fetches| > |w.fetches|
      <==> w.consumers[c].nonce > 0 || (!IsCached(w, key) && key !in w.shared.inFlight)
  {
    var w := After(events);
    if w.consumers[c].nonce > 0 || (!IsCached(w, key) && key !in w.shared.inFlight) {
      EffectStartsAFetch(events, c, row, key);
    } else if IsCached(w, key) {
      var i :| 0 <= i < |w.shared.cache| && w.shared.cache[i].key == key;
      assert w.shared.cache[i] == Entry(key, w.shared.cache[i].parsed);
      EffectShowsTheCached(events, c, row, key, w.shared.cache[i].parsed);
    } else {
      EffectJoinsTheFetch(events, c, row, key);
    }
  }

  // ---------- mounting and unmounting ----------

  /** The first render reads the cache and starts nothing. */
  lemma MountShowsTheCached(events: seq<Event>, row: Option<Row>)
    ensures var w, w' := After(events), After(events + [Mount(row)]);
      && w'.fetches == w.fetches && w'.subscriptions == w.subscriptions
      && w'.shared.inFlight == w.shared.inFlight && w'.shared.controllers == w.shared.controllers
      && w'.shared.epoch == w.shared.epoch && multiset(w'.shared.cache) == multiset(w.shared.cache)
      && |w'.consumers| == |w.consumers| + 1 && w'.consumers[..|w.consumers|] == w.consumers
      && var me := w'.consumers[|w.consumers|];
      && me.mounted && me.nonce == 0 && me.due && me.subscription == None
      && (row == None ==> me.view == Idle)
      && (row.Some? && row.value.storedSessionUid == None ==> me.view == NoRaw)
      && (row.Some? ==> forall key :: Asks(row.value, key) ==>
            && (!IsCached(w, key) ==> me.view == Loading)
            && forall parsed :: IsCachedAs(w, key, parsed) ==>
                 me.view == if parsed.truncated then Truncated(parsed) else Success(parsed))
  {
    var w := After(events);
    EveryHistoryIsSafe(events);
    AfterOneMore(events, Mount(row));
    if row.Some? && row.value.storedSessionUid.Some? {
      var key := row.value.storedSessionUid.value + "::" + row.value.tool;
      CachedIsGot(w, key);
      TouchOnlyReorders(w.shared.cache, key);
    }
  }

  /** Unmounting cancels the consumer's listener and aborts its own fetch, which stays in the in-flight map. */
  lemma UnmountIsExact(events: seq<Event>, c: nat)
    requires c < |After(events).consumers| && After(events).consumers[c].mounted
    ensures var w, w' := After(events), After(events + [Unmount(c)]);
      && OthersStay(w, w', c) && w'.shared == w.shared
      && |w'.fetches| == |w.fetches| && |w'.subscriptions| == |w.subscriptions|
      && !w'.consumers[c].mounted && w'.consumers[c].subscription == None
  {
    EveryHistoryIsSafe(events);
    AfterOneMore(events, Unmount(c));
    CleanUpIsExact(After(events), c);
  }

  // ---------- fetches and their handlers ----------

  /** A payload that arrives is cached, and is so exactly in the epoch its fetch started in. */
  lemma ArrivalIsCached(events: seq<Event>, f: nat, truncated: bool)
    requires f < |After(events).fetches| && After(events).fetches[f].outcome == Pending
    ensures var w, w' := After(events), After(events + [Resolve(f, truncated)]);
      && w'.fetches == w.fetches[f := w.fetches[f].(outcome := Resolved(truncated))]
      && w'.subscriptions == w.subscriptions && w'.consumers == w.consumers
      && w'.shared.inFlight == w.shared.inFlight && w'.shared.epoch == w.shared.epoch
      && (IsCachedAs(w', w.fetches[f].key, Parsed(f, truncated)) <==> w.fetches[f].epochAtStart == w.shared.epoch)
      && (w.fetches[f].epochAtStart != w.shared.epoch ==> w'.shared == w.shared)
  {
    var w := After(events);
    EveryHistoryIsSafe(events);
    AfterOneMore(events, Resolve(f, truncated));
    ArrivalOf(w, f, truncated);
  }

  lemma ArrivalOf(w: World, f: nat, truncated: bool)
    requires Inv(w) && f < |w.fetches| && w.fetches[f].outcome == Pending
    ensures var w' := ResolvedWorld(w, f, truncated);
      && IsCachedAs(w', w.fetches[f].key, Parsed(f, truncated)) <==> w.fetches[f].epochAtStart == w.shared.epoch
  {
    if w.fetches[f].epochAtStart == w.shared.epoch {
      WrittenKeySurvives(w.shared.cache, w.fetches[f].key, Parsed(f, truncated));
    } else {
      assert forall i :: 0 <= i < |w.shared.cache| ==>
        CameFrom(w, w.shared.cache[i].parsed, w.shared.cache[i].key, w.shared.epoch);
    }
  }

  /**
   What a settle handler does: nothing to the consumer if the effect run was cleaned up; else a payload of
   this epoch is shown, one of an earlier epoch is not; a failure is shown; an abort is shown to nobody, and
   whoever had joined the fetch runs its effect again. The owner's handler takes its fetch, and no other, out of flight.
   */
  lemma HandlerIsExact(events: seq<Event>, s: nat)
    requires CanFire(After(events), s)
    ensures var w, w' := After(events), After(events + [Fire(s)]);
      var sub, c := w.subscriptions[s], w.subscriptions[s].consumer;
      var me, outcome := w.consumers[c], w.fetches[sub.fetch].outcome;
      && w'.fetches == w.fetches && w'.subscriptions == w.subscriptions[s := sub.(fired := true)]
      && w'.shared.cache == w.shared.cache && w'.shared.epoch == w.shared.epoch
      && |w'.consumers| == |w.consumers|
      && (forall i :: 0 <= i < |w.consumers| && i != c ==> w'.consumers[i] == w.consumers[i])
      && (sub.cancelled ==> w'.consumers[c] == me)
      && (!sub.cancelled ==>
            && (forall truncated :: outcome == Resolved(truncated) && w.shared.epoch == sub.epochAtSubscription ==>
                  w'.consumers[c].view
                  == if truncated then Truncated(Parsed(sub.fetch, true)) else Success(Parsed(sub.fetch, false)))
            && (outcome.Resolved? && w.shared.epoch != sub.epochAtSubscription ==> w'.consumers[c] == me)
            && (outcome == Rejected(false) ==> w'.consumers[c].view == Failed)
            && (outcome == Rejected(true) && sub.owns ==> w'.consumers[c] == me)
            && (outcome == Rejected(true) && !sub.owns ==>
                  w'.consumers[c] == me.(nonce := me.nonce + 1, due := true)))
      && (forall key :: key in w'.shared.inFlight <==>
            key in w.shared.inFlight && !(sub.owns && w.shared.inFlight[key] == sub.fetch))
      && (forall key :: key in w'.shared.inFlight ==> w'.shared.inFlight[key] == w.shared.inFlight[key])
  {
    var w := After(events);
    EveryHistoryIsSafe(events);
    AfterOneMore(events, Fire(s));
    assert SubscriptionOk(w, s);
    forall key | key in w.shared.inFlight
      ensures w.shared.inFlight[key] == w.subscriptions[s].fetch ==> key == w.fetches[w.subscriptions[s].fetch].key
    {
      assert IsCurrentFetch(w, w.shared.inFlight[key], key);
    }
  }

  /** In any world, retry asks for another effect run, which skips the cache, and does so from the failed view only. */
  lemma RetryIsExact(w: World, c: nat)
    requires c < |w.consumers| && w.consumers[c].mounted
    ensures Apply(w, Retry(c))
         == if w.consumers[c].view == Failed
            then w.(consumers := w.consumers[c := w.consumers[c].(nonce := w.consumers[c].nonce + 1, due := true)])
            else w
  {
  }

  /** A reset empties cache and in-flight maps, starts a new epoch, and aborts exactly the fetches in flight. */
  lemma ResetIsExact(events: seq<Event>)
    ensures var w, w' := After(events), After(events + [Reset]);
      && w'.shared == Shared([], map[], map[], w.shared.epoch + 1)
      && w'.consumers == w.consumers && w'.subscriptions == w.subscriptions && |w'.fetches| == |w.fetches|
      && forall f :: 0 <= f < |w.fetches| ==>
           w'.fetches[f] == w.fetches[f].(aborted := w.fetches[f].aborted
             || exists key :: key in w.shared.inFlight && w.shared.inFlight[key] == f)
  {
    EveryHistoryIsSafe(events);
    AfterOneMore(events, Reset);
    ResetOf(After(events));
  }

  lemma ResetOf(w: World)
    requires InFlightIsCurrent(w)
    ensures |ResetWorld(w).fetches| == |w.fetches|
    ensures forall f :: 0 <= f < |w.fetches| ==>
      ResetWorld(w).fetches[f] == w.fetches[f].(aborted := w.fetches[f].aborted
        || exists key :: key in w.shared.inFlight && w.shared.inFlight[key] == f)
  {
  }

  // ---------- keys ----------

  /** For the two tools there are, sessions and tools never share a key. */
  lemma KeysTellRowsApart(uid: string, tool: string, uid': string, tool': string)
    requires tool in {"claude_code", "codex"} && tool' in {"claude_code", "codex"}
    requires MakeKey(uid, tool) == MakeKey(uid', tool')
    ensures uid == uid' && tool == tool'
  {
    var k, k' := uid + "::" + tool, uid' + "::" + tool';
    assert k == k';
    assert k[|k| - 2] == tool[|tool| - 2] && k'[|k'| - 2] == tool'[|tool'| - 2];
    assert k[..|uid|] == uid && k'[..|uid'|] == uid';
  }
}
