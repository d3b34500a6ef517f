/**
 Every interleaving of the hook's consumers, its fetches, their settle handlers and resets.
 JavaScript runs one callback at a time, so each event below is one atomic step.
 */
module ParsedSessionSystem {
  import opened Wrappers
  import opened ParsedSessionCache

  datatype Outcome = Pending | Resolved(truncated: bool) | Rejected(isAbort: bool)

  datatype Fetch = Fetch(key: string, epochAtStart: nat, aborted: bool, outcome: Outcome)

  datatype View = Idle | NoRaw | Loading | Success(parsed: Parsed) | Truncated(parsed: Parsed) | Failed

  /** One effect run waiting on a fetch: the run that started it, or one coalesced onto it. */
  datatype Subscription = Subscription(
    consumer: nat, fetch: nat, epochAtSubscription: nat, owns: bool, cancelled: bool, fired: bool)

  /** `shownAt` is the epoch in which `view` was last set; `due` says that React owes the effect a run. */
  datatype Consumer = Consumer(
    mounted: bool, key: Option<string>, nonce: nat, view: View, shownAt: nat, subscription: Option<nat>, due: bool)

  datatype World = World(
    shared: Shared, fetches: seq<Fetch>, subscriptions: seq<Subscription>, consumers: seq<Consumer>)

  datatype Event =
    | Mount(row: Option<Row>)
    | RunEffect(consumer: nat, row: Option<Row>)
    | Unmount(consumer: nat)
    | Resolve(fetch: nat, truncated: bool)
    | Reject(fetch: nat, isAbort: bool)
    | Fire(subscription: nat)
    | Retry(consumer: nat)
    | Reset

  const START := World(Shared([], map[], map[], 0), [], [], [])

  // ---------- the steps ----------

  function ViewOf(parsed: Parsed): View {
    if parsed.truncated then Truncated(parsed) else Success(parsed)
  }

  function KeyOf(row: Option<Row>): Option<string> {
    if row.Some? && row.value.storedSessionUid.Some? then
      Some(MakeKey(row.value.storedSessionUid.value, row.value.tool))
    else None
  }

  function RestingView(row: Option<Row>): View {
    if row.None? then Idle else if row.value.storedSessionUid.None? then NoRaw else Loading
  }

  /** `deriveInitialState`, at a consumer's first render. */
  function Mounted(w: World, row: Option<Row>): World {
    var key := KeyOf(row);
    var hit := if key.Some? then Get(w.shared.cache, key.value) else None;
    var view := if hit.Some? then ViewOf(hit.value) else RestingView(row);
    w.(shared := if hit.Some? then w.shared.(cache := Touch(w.shared.cache, key.value)) else w.shared,
       consumers := w.consumers + [Consumer(true, key, 0, view, w.shared.epoch, None, true)])
  }

  /** The clean-up of a consumer's last effect run: cancel it, and abort the fetch it started. */
  function CleanedUp(w: World, c: nat): World
    requires c < |w.consumers|
  {
    var s := w.consumers[c].subscription;
    var w' := w.(consumers := w.consumers[c := w.consumers[c].(subscription := None, due := true)]);
    if s.None? || s.value >= |w.subscriptions| then w'
    else
      var sub := w.subscriptions[s.value];
      w'.(subscriptions := w.subscriptions[s.value := sub.(cancelled := true)],
          fetches := if sub.owns && sub.fetch < |w.fetches| then
                       w.fetches[sub.fetch := w.fetches[sub.fetch].(aborted := true)]
                     else w.fetches)
  }

  function WithConsumer(w: World, c: nat, consumer: Consumer): World
    requires c < |w.consumers|
  {
    w.(consumers := w.consumers[c := consumer])
  }

  /** The effect body, after the clean-up of the run before it. */
  function EffectBody(w: World, c: nat, row: Option<Row>): World
    requires c < |w.consumers|
  {
    var me := w.consumers[c].(due := false, shownAt := w.shared.epoch, key := KeyOf(row), subscription := None);
    if me.key.None? then WithConsumer(w, c, me.(view := RestingView(row)))
    else
      var key, hit := me.key.value, Get(w.shared.cache, me.key.value);
      var waiting := me.(view := Loading, subscription := Some(|w.subscriptions|));
      if me.nonce == 0 && hit.Some? then
        WithConsumer(w.(shared := w.shared.(cache := Touch(w.shared.cache, key))), c, me.(view := ViewOf(hit.value)))
      else if me.nonce == 0 && key in w.shared.inFlight then
        WithConsumer(w.(subscriptions := w.subscriptions
          + [Subscription(c, w.shared.inFlight[key], w.shared.epoch, false, false, false)]), c, waiting)
      else
        WithConsumer(w.(shared := Begun(w.shared, key, |w.fetches|),
          fetches := w.fetches + [Fetch(key, w.shared.epoch, false, Pending)],
          subscriptions := w.subscriptions
            + [Subscription(c, |w.fetches|, w.shared.epoch, true, false, false)]), c, waiting)
  }

  /** The stream ended and was parsed: settle the promise, and cache the payload unless a reset came first. */
  function ResolvedWorld(w: World, f: nat, truncated: bool): World
    requires f < |w.fetches|
  {
    var fetch := w.fetches[f];
    w.(fetches := w.fetches[f := fetch.(outcome := Resolved(truncated))],
       shared := Stored(w.shared, fetch.key, Parsed(f, truncated), fetch.epochAtStart))
  }

  /** What a settle handler that was not cancelled does to its consumer. */
  function Settled(me: Consumer, sub: Subscription, outcome: Outcome, epoch: nat): Consumer {
    match outcome
    case Pending => me
    case Resolved(truncated) =>
      if epoch == sub.epochAtSubscription then me.(view := ViewOf(Parsed(sub.fetch, truncated)), shownAt := epoch)
      else me
    case Rejected(isAbort) =>
      if !isAbort then me.(view := Failed, shownAt := epoch)
      else if sub.owns then me
      else me.(nonce := me.nonce + 1, due := true)
  }

  function Fired(w: World, s: nat): World
    requires s < |w.subscriptions| && w.subscriptions[s].fetch < |w.fetches|
    requires w.subscriptions[s].consumer < |w.consumers|
  {
    var sub := w.subscriptions[s];
    var fetch, c := w.fetches[sub.fetch], sub.consumer;
    w.(subscriptions := w.subscriptions[s := sub.(fired := true)],
       shared := if sub.owns then Dropped(w.shared, fetch.key, sub.fetch) else w.shared,
       consumers := if sub.cancelled then w.consumers
                    else w.consumers[c := Settled(w.consumers[c], sub, fetch.outcome, w.shared.epoch)])
  }

  function Retried(w: World, c: nat): World
    requires c < |w.consumers|
  {
    var me := w.consumers[c];
    if me.view.Failed? then WithConsumer(w, c, me.(nonce := me.nonce + 1, due := true)) else w
  }

  function ResetWorld(w: World): World {
    w.(shared := Bumped(w.shared),
       fetches := seq(|w.fetches|, f requires 0 <= f < |w.fetches| =>
         if f in w.shared.controllers.Values then w.fetches[f].(aborted := true) else w.fetches[f]))
  }

  predicate IsMounted(w: World, c: nat) {
    c < |w.consumers| && w.consumers[c].mounted
  }

  /** A fetch rejects with an abort error only once its controller was aborted. */
  predicate CanReject(w: World, f: nat, isAbort: bool) {
    f < |w.fetches| && w.fetches[f].outcome.Pending? && (isAbort ==> w.fetches[f].aborted)
  }

  predicate CanFire(w: World, s: nat) {
    && s < |w.subscriptions| && !w.subscriptions[s].fired && w.subscriptions[s].fetch < |w.fetches|
    && w.subscriptions[s].consumer < |w.consumers| && !w.fetches[w.subscriptions[s].fetch].outcome.Pending?
  }

  /** An event that cannot happen in `w` changes nothing. */
  function Apply(w: World, e: Event): World {
    match e
    case Mount(row) => Mounted(w, row)
    case RunEffect(c, row) => if IsMounted(w, c) then EffectBody(CleanedUp(w, c), c, row) else w
    case Unmount(c) =>
      if IsMounted(w, c) then WithConsumer(CleanedUp(w, c), c, CleanedUp(w, c).consumers[c].(mounted := false)) else w
    case Resolve(f, truncated) =>
      if f < |w.fetches| && w.fetches[f].outcome.Pending? then ResolvedWorld(w, f, truncated) else w
    case Reject(f, isAbort) =>
      if CanReject(w, f, isAbort) then w.(fetches := w.fetches[f := w.fetches[f].(outcome := Rejected(isAbort))]) else w
    case Fire(s) => if CanFire(w, s) then Fired(w, s) else w
    case Retry(c) => if IsMounted(w, c) then Retried(w, c) else w
    case Reset => ResetWorld(w)
  }

  /** The world after a history of events. */
  function After(events: seq<Event>): World {
    if events == [] then START else Apply(After(events[..|events| - 1]), events[|events| - 1])
  }

  // ---------- the invariant ----------

  /** `parsed` is what fetch `parsed.fetch`, for `key` and started in `epoch`, delivered. */
  predicate CameFrom(w: World, parsed: Parsed, key: string, epoch: nat) {
    && parsed.fetch < |w.fetches|
    && w.fetches[parsed.fetch].key == key
    && w.fetches[parsed.fetch].epochAtStart == epoch
    && w.fetches[parsed.fetch].outcome == Resolved(parsed.truncated)
  }

  predicate CacheIsCurrent(w: World) {
    && UniqueKeys(w.shared.cache) && |w.shared.cache| <= CACHE_MAX
    && forall i :: 0 <= i < |w.shared.cache| ==>
      CameFrom(w, w.shared.cache[i].parsed, w.shared.cache[i].key, w.shared.epoch)
  }

  predicate IsCurrentFetch(w: World, f: nat, key: string) {
    f < |w.fetches| && w.fetches[f].key == key && w.fetches[f].epochAtStart == w.shared.epoch
  }

  predicate InFlightIsCurrent(w: World) {
    && w.shared.inFlight == w.shared.controllers
    && forall key :: key in w.shared.inFlight ==> IsCurrentFetch(w, w.shared.inFlight[key], key)
  }

  predicate SubscriptionOk(w: World, s: nat)
    requires s < |w.subscriptions|
  {
    var sub := w.subscriptions[s];
    && sub.consumer < |w.consumers| && sub.fetch < |w.fetches|
    && sub.epochAtSubscription == w.fetches[sub.fetch].epochAtStart <= w.shared.epoch
    && (!sub.cancelled ==> w.consumers[sub.consumer].mounted && w.consumers[sub.consumer].subscription == Some(s))
    && (sub.owns && w.fetches[sub.fetch].aborted ==> sub.cancelled || sub.epochAtSubscription < w.shared.epoch)
    && (sub.owns && sub.fired ==> !IsInFlight(w, sub.fetch))
  }

  predicate IsInFlight(w: World, f: nat)
    requires f < |w.fetches|
  {
    var key := w.fetches[f].key;
    key in w.shared.inFlight && w.shared.inFlight[key] == f
  }

  predicate OneOwnerEach(w: World) {
    forall i, j :: 0 <= i < j < |w.subscriptions| && w.subscriptions[i].owns && w.subscriptions[j].owns ==>
      w.subscriptions[i].fetch != w.subscriptions[j].fetch
  }

  predicate AbortsAreReal(w: World) {
    forall f :: 0 <= f < |w.fetches| ==> w.fetches[f].outcome == Rejected(true) ==> w.fetches[f].aborted
  }

  /** What a consumer shows was fetched for its row, and in the epoch in which it came to show it. */
  predicate ShowsItsFetch(w: World, me: Consumer) {
    (me.view.Success? || me.view.Truncated?) ==>
      && me.key.Some? && CameFrom(w, me.view.parsed, me.key.value, me.shownAt)
      && me.view == ViewOf(me.view.parsed)
  }

  /** A loading consumer has an effect run due, a handler still to fire, or was overtaken by a reset. */
  predicate LoadingWaits(w: World, me: Consumer) {
    me.mounted && me.view.Loading? && !me.due ==>
      && me.subscription.Some? && me.subscription.value < |w.subscriptions|
      && (w.subscriptions[me.subscription.value].fired ==>
            w.subscriptions[me.subscription.value].epochAtSubscription < w.shared.epoch)
  }

  predicate ConsumerOk(w: World, c: nat)
    requires c < |w.consumers|
  {
    var me := w.consumers[c];
    && ShowsItsFetch(w, me) && LoadingWaits(w, me)
    && (me.subscription.Some? ==>
          && me.subscription.value < |w.subscriptions| && w.subscriptions[me.subscription.value].consumer == c
          && !w.subscriptions[me.subscription.value].cancelled
          && w.subscriptions[me.subscription.value].fetch < |w.fetches|
          && me.key == Some(w.fetches[w.subscriptions[me.subscription.value].fetch].key))
  }

  predicate Inv(w: World) {
    && CacheIsCurrent(w) && InFlightIsCurrent(w) && OneOwnerEach(w) && AbortsAreReal(w)
    && (forall s :: 0 <= s < |w.subscriptions| ==> SubscriptionOk(w, s))
    && (forall c :: 0 <= c < |w.consumers| ==> ConsumerOk(w, c))
  }

  // ---------- each event keeps it ----------

  /** Fetches keep their key and epoch, and a delivered payload is never taken back. */
  predicate Extends(w: World, w': World) {
    && |w.fetches| <= |w'.fetches|
    && forall f :: 0 <= f < |w.fetches| ==>
      && w'.fetches[f].key == w.fetches[f].key && w'.fetches[f].epochAtStart == w.fetches[f].epochAtStart
      && (w.fetches[f].outcome.Resolved? ==> w'.fetches[f].outcome == w.fetches[f].outcome)
  }

  lemma CacheStaysCurrent(w: World, w': World)
    requires CacheIsCurrent(w) && Extends(w, w')
    requires w'.shared.cache == w.shared.cache && w'.shared.epoch == w.shared.epoch
    ensures CacheIsCurrent(w')
  {
  }

  lemma HitCameFrom(w: World, key: string)
    requires CacheIsCurrent(w) && HasKey(w.shared.cache, key)
    ensures CameFrom(w, Get(w.shared.cache, key).value, key, w.shared.epoch)
  {
  }

  lemma TouchKeepsCache(w: World, w': World, key: string)
    requires CacheIsCurrent(w) && w'.fetches == w.fetches
    requires w'.shared == w.shared.(cache := Touch(w.shared.cache, key))
    ensures CacheIsCurrent(w')
  {
    TouchOnlyReorders(w.shared.cache, key);
    forall i | 0 <= i < |w'.shared.cache|
      ensures CameFrom(w', w'.shared.cache[i].parsed, w'.shared.cache[i].key, w'.shared.epoch)
    {
      var e := w'.shared.cache[i];
      assert e in multiset(w'.shared.cache);
      var j :| 0 <= j < |w.shared.cache| && w.shared.cache[j] == e;
    }
  }

  lemma MountKeepsInv(w: World, row: Option<Row>)
    requires Inv(w)
    ensures Inv(Mounted(w, row))
  {
    var w' := Mounted(w, row);
    var key := KeyOf(row);
    if key.Some? && HasKey(w.shared.cache, key.value) {
      HitCameFrom(w, key.value);
      TouchKeepsCache(w, w', key.value);
    }
    assert forall c :: 0 <= c < |w.consumers| ==> w'.consumers[c] == w.consumers[c];
    forall s | 0 <= s < |w'.subscriptions| ensures SubscriptionOk(w', s) {
      assert SubscriptionOk(w, s);
    }
    forall c | 0 <= c < |w'.consumers| ensures ConsumerOk(w', c) {
      assert c < |w.consumers| ==> ConsumerOk(w, c);
    }
  }

  // -- clean-up --

  /** No effect run of this consumer still listens. */
  predicate NoneLive(w: World, c: nat) {
    forall s :: 0 <= s < |w.subscriptions| && w.subscriptions[s].consumer == c ==> w.subscriptions[s].cancelled
  }

  lemma CleanUpCancels(w: World, c: nat)
    requires Inv(w) && IsMounted(w, c)
    ensures NoneLive(CleanedUp(w, c), c)
    ensures forall s :: 0 <= s < |w.subscriptions| ==> SubscriptionOk(CleanedUp(w, c), s)
  {
    assert ConsumerOk(w, c);
    forall s | 0 <= s < |w.subscriptions|
      ensures SubscriptionOk(CleanedUp(w, c), s)
      ensures w.subscriptions[s].consumer == c ==> CleanedUp(w, c).subscriptions[s].cancelled
    {
      assert SubscriptionOk(w, s);
    }
  }

  lemma CleanUpKeepsInv(w: World, c: nat)
    requires Inv(w) && IsMounted(w, c)
    ensures Inv(CleanedUp(w, c)) && NoneLive(CleanedUp(w, c), c)
  {
    var w' := CleanedUp(w, c);
    CleanUpCancels(w, c);
    assert Extends(w, w');
    CacheStaysCurrent(w, w');
    forall i | 0 <= i < |w'.consumers| ensures ConsumerOk(w', i) {
      assert ConsumerOk(w, i) && ConsumerOk(w, c);
    }
  }

  lemma UnmountKeepsInv(w: World, c: nat)
    requires Inv(w) && NoneLive(w, c) && c < |w.consumers|
    ensures Inv(WithConsumer(w, c, w.consumers[c].(mounted := false)))
  {
    var w' := WithConsumer(w, c, w.consumers[c].(mounted := false));
    forall s | 0 <= s < |w.subscriptions| ensures SubscriptionOk(w', s) {
      assert SubscriptionOk(w, s);
    }
    forall i | 0 <= i < |w.consumers| ensures ConsumerOk(w', i) {
      assert ConsumerOk(w, i);
    }
  }

  // -- the effect --

  /** Giving a consumer with nothing live a new record keeps everybody else. */
  lemma NewRecordKeepsInv(w: World, c: nat, me: Consumer)
    requires Inv(w) && NoneLive(w, c) && c < |w.consumers|
    requires ConsumerOk(WithConsumer(w, c, me), c)
    ensures Inv(WithConsumer(w, c, me))
  {
    var w' := WithConsumer(w, c, me);
    forall s | 0 <= s < |w.subscriptions| ensures SubscriptionOk(w', s) {
      assert SubscriptionOk(w, s);
    }
    forall i | 0 <= i < |w.consumers| && i != c ensures ConsumerOk(w', i) {
      assert ConsumerOk(w, i);
    }
  }

  lemma TouchKeepsInv(w: World, key: string)
    requires Inv(w)
    ensures Inv(w.(shared := w.shared.(cache := Touch(w.shared.cache, key))))
  {
    var w' := w.(shared := w.shared.(cache := Touch(w.shared.cache, key)));
    TouchKeepsCache(w, w', key);
    forall s | 0 <= s < |w.subscriptions| ensures SubscriptionOk(w', s) {
      assert SubscriptionOk(w, s);
    }
    forall i | 0 <= i < |w.consumers| ensures ConsumerOk(w', i) {
      assert ConsumerOk(w, i);
    }
  }

  /** One more subscription, held by consumer `c`, possibly with one more fetch. */
  lemma SubscribeKeepsInv(w: World, w': World, c: nat)
    requires Inv(w) && NoneLive(w, c) && c < |w.consumers| == |w'.consumers|
    requires |w'.subscriptions| == |w.subscriptions| + 1 && w'.subscriptions[..|w.subscriptions|] == w.subscriptions
    requires |w.fetches| <= |w'.fetches| && w'.fetches[..|w.fetches|] == w.fetches && AbortsAreReal(w')
    requires w'.shared.cache == w.shared.cache && w'.shared.epoch == w.shared.epoch && InFlightIsCurrent(w')
    requires forall f :: 0 <= f < |w.fetches| && IsInFlight(w', f) ==> IsInFlight(w, f)
    requires forall i :: 0 <= i < |w.consumers| && i != c ==> w'.consumers[i] == w.consumers[i]
    requires var sub := w'.subscriptions[|w.subscriptions|];
      sub.consumer == c && !sub.fired && (sub.owns ==> sub.fetch >= |w.fetches|)
    requires SubscriptionOk(w', |w.subscriptions|) && ConsumerOk(w', c)
    ensures Inv(w')
  {
    assert forall f :: 0 <= f < |w.fetches| ==> w'.fetches[..|w.fetches|][f] == w'.fetches[f];
    assert forall s :: 0 <= s < |w.subscriptions| ==> w'.subscriptions[..|w.subscriptions|][s] == w'.subscriptions[s];
    CacheStaysCurrent(w, w');
    forall s | 0 <= s < |w.subscriptions| ensures SubscriptionOk(w', s) && w'.subscriptions[s].fetch < |w.fetches| {
      assert SubscriptionOk(w, s);
    }
    forall i | 0 <= i < |w.consumers| && i != c ensures ConsumerOk(w', i) {
      assert ConsumerOk(w, i);
    }
  }

  lemma EffectKeepsInv(w: World, c: nat, row: Option<Row>)
    requires Inv(w) && NoneLive(w, c) && c < |w.consumers| && w.consumers[c].mounted
    ensures Inv(EffectBody(w, c, row))
  {
    var w' := EffectBody(w, c, row);
    var key := KeyOf(row);
    if key.None? {
      NewRecordKeepsInv(w, c, w'.consumers[c]);
    } else if w.consumers[c].nonce == 0 && HasKey(w.shared.cache, key.value) {
      HitCameFrom(w, key.value);
      TouchKeepsInv(w, key.value);
      NewRecordKeepsInv(w.(shared := w'.shared), c, w'.consumers[c]);
    } else {
      SubscribeKeepsInv(w, w', c);
    }
  }

  // -- fetches --

  lemma ResolveKeepsCache(w: World, f: nat, truncated: bool)
    requires CacheIsCurrent(w) && f < |w.fetches| && w.fetches[f].outcome.Pending?
    ensures CacheIsCurrent(ResolvedWorld(w, f, truncated))
  {
    var w', fetch := ResolvedWorld(w, f, truncated), w.fetches[f];
    var unwritten := w'.(shared := w.shared);
    CacheStaysCurrent(w, unwritten);
    if fetch.epochAtStart == w.shared.epoch {
      WrittenKeySurvives(w.shared.cache, fetch.key, Parsed(f, truncated));
      assert CameFrom(unwritten, Parsed(f, truncated), fetch.key, w.shared.epoch);
    }
  }

  lemma ResolveKeepsInv(w: World, f: nat, truncated: bool)
    requires Inv(w) && f < |w.fetches| && w.fetches[f].outcome.Pending?
    ensures Inv(ResolvedWorld(w, f, truncated))
  {
    var w' := ResolvedWorld(w, f, truncated);
    ResolveKeepsCache(w, f, truncated);
    forall s | 0 <= s < |w.subscriptions| ensures SubscriptionOk(w', s) {
      assert SubscriptionOk(w, s);
    }
    forall i | 0 <= i < |w.consumers| ensures ConsumerOk(w', i) {
      assert ConsumerOk(w, i);
    }
  }

  lemma RejectKeepsInv(w: World, f: nat, isAbort: bool)
    requires Inv(w) && CanReject(w, f, isAbort)
    ensures Inv(Apply(w, Reject(f, isAbort)))
  {
    var w' := Apply(w, Reject(f, isAbort));
    CacheStaysCurrent(w, w');
    forall s | 0 <= s < |w.subscriptions| ensures SubscriptionOk(w', s) {
      assert SubscriptionOk(w, s);
    }
    forall i | 0 <= i < |w.consumers| ensures ConsumerOk(w', i) {
      assert ConsumerOk(w, i);
    }
  }

  lemma ResetKeepsInv(w: World)
    requires Inv(w)
    ensures Inv(ResetWorld(w))
  {
    var w' := ResetWorld(w);
    forall s | 0 <= s < |w.subscriptions| ensures SubscriptionOk(w', s) {
      assert SubscriptionOk(w, s);
    }
    forall i | 0 <= i < |w.consumers| ensures ConsumerOk(w', i) {
      assert ConsumerOk(w, i);
    }
  }

  // -- settle handlers --

  lemma FireKeepsShared(w: World, s: nat)
    requires Inv(w) && CanFire(w, s)
    ensures InFlightIsCurrent(Fired(w, s)) && CacheIsCurrent(Fired(w, s))
    ensures forall f :: 0 <= f < |w.fetches| && IsInFlight(Fired(w, s), f) ==> IsInFlight(w, f)
    ensures w.subscriptions[s].owns ==> !IsInFlight(Fired(w, s), w.subscriptions[s].fetch)
  {
    CacheStaysCurrent(w, Fired(w, s));
  }

  lemma SettledIsOk(w: World, s: nat)
    requires Inv(w) && CanFire(w, s) && !w.subscriptions[s].cancelled
    ensures ConsumerOk(Fired(w, s), w.subscriptions[s].consumer)
  {
    assert SubscriptionOk(w, s) && ConsumerOk(w, w.subscriptions[s].consumer);
  }

  lemma FireKeepsInv(w: World, s: nat)
    requires Inv(w) && CanFire(w, s)
    ensures Inv(Fired(w, s))
  {
    var w', sub := Fired(w, s), w.subscriptions[s];
    FireKeepsShared(w, s);
    forall t | 0 <= t < |w.subscriptions| ensures SubscriptionOk(w', t) {
      assert SubscriptionOk(w, t) && SubscriptionOk(w, s);
    }
    forall i | 0 <= i < |w.consumers| ensures ConsumerOk(w', i) {
      assert ConsumerOk(w, i) && SubscriptionOk(w, s);
      if i == sub.consumer && !sub.cancelled {
        SettledIsOk(w, s);
      }
    }
  }

  lemma RetryKeepsInv(w: World, c: nat)
    requires Inv(w) && IsMounted(w, c)
    ensures Inv(Retried(w, c))
  {
    var w' := Retried(w, c);
    forall s | 0 <= s < |w.subscriptions| ensures SubscriptionOk(w', s) {
      assert SubscriptionOk(w, s);
    }
    forall i | 0 <= i < |w.consumers| ensures ConsumerOk(w', i) {
      assert ConsumerOk(w, i);
    }
  }

  lemma StepKeepsInv(w: World, e: Event)
    requires Inv(w)
    ensures Inv(Apply(w, e))
  {
    match e
    case Mount(row) => MountKeepsInv(w, row);
    case RunEffect(c, row) =>
      if IsMounted(w, c) {
        CleanUpKeepsInv(w, c);
        EffectKeepsInv(CleanedUp(w, c), c, row);
      }
    case Unmount(c) =>
      if IsMounted(w, c) {
        CleanUpKeepsInv(w, c);
        UnmountKeepsInv(CleanedUp(w, c), c);
      }
    case Resolve(f, truncated) =>
      if f < |w.fetches| && w.fetches[f].outcome.Pending? {
        ResolveKeepsInv(w, f, truncated);
      }
    case Reject(f, isAbort) =>
      if CanReject(w, f, isAbort) {
        RejectKeepsInv(w, f, isAbort);
      }
    case Fire(s) =>
      if CanFire(w, s) {
        FireKeepsInv(w, s);
      }
    case Retry(c) =>
      if IsMounted(w, c) {
        RetryKeepsInv(w, c);
      }
    case Reset => ResetKeepsInv(w);
  }

  // ---------- the theorems, over every history ----------

  lemma {:induction false} EveryHistoryIsSafe(events: seq<Event>)
    ensures Inv(After(events))
  {
    if events != [] {
      EveryHistoryIsSafe(events[..|events| - 1]);
      StepKeepsInv(After(events[..|events| - 1]), events[|events| - 1]);
    }
  }

  predicate IsShowing(view: View) {
    view.Success? || view.Truncated?
  }

  /** At most five entries, one per key, each delivered by a fetch for that key started since the last reset. */
  lemma CacheHoldsOnlyTheCurrentEpoch(events: seq<Event>)
    ensures var w := After(events);
      && |w.shared.cache| <= CACHE_MAX && UniqueKeys(w.shared.cache)
      && forall key :: HasKey(w.shared.cache, key) ==>
           CameFrom(w, Get(w.shared.cache, key).value, key, w.shared.epoch)
  {
    EveryHistoryIsSafe(events);
  }

  /** The two in-flight maps agree, and hold only current fetches whose own handler has not run. */
  lemma InFlightMapsAgree(events: seq<Event>)
    ensures var w := After(events);
      && w.shared.inFlight == w.shared.controllers
      && (forall key :: key in w.shared.inFlight ==> IsCurrentFetch(w, w.shared.inFlight[key], key))
      && forall s :: 0 <= s < |w.subscriptions| && w.subscriptions[s].owns && w.subscriptions[s].fired ==>
           forall key :: key in w.shared.inFlight ==> w.shared.inFlight[key] != w.subscriptions[s].fetch
  {
    EveryHistoryIsSafe(events);
    var w := After(events);
    forall s, key | 0 <= s < |w.subscriptions| && w.subscriptions[s].owns && w.subscriptions[s].fired
                    && key in w.shared.inFlight
      ensures w.shared.inFlight[key] != w.subscriptions[s].fetch
    {
      assert SubscriptionOk(w, s);
    }
  }

  lemma ViewChangesAreDated(w: World, e: Event, c: nat)
    requires Inv(w) && c < |Apply(w, e).consumers|
    requires c >= |w.consumers| || Apply(w, e).consumers[c].view != w.consumers[c].view
    ensures Apply(w, e).consumers[c].shownAt == w.shared.epoch
  {
  }

  /** Whatever happens next, a consumer that moves to showing a payload shows one fetched since the last reset. */
  lemma NoStalePayloadIsEverShown(events: seq<Event>, e: Event, c: nat)
    requires var w, w' := After(events), After(events + [e]);
      && c < |w'.consumers| && IsShowing(w'.consumers[c].view)
      && (c >= |w.consumers| || w'.consumers[c].view != w.consumers[c].view)
    ensures var w := After(events + [e]);
      w.consumers[c].key.Some?
      && CameFrom(w, w.consumers[c].view.parsed, w.consumers[c].key.value, After(events).shared.epoch)
  {
    assert (events + [e])[..|events|] == events;
    EveryHistoryIsSafe(events);
    EveryHistoryIsSafe(events + [e]);
    ViewChangesAreDated(After(events), e, c);
    assert ConsumerOk(After(events + [e]), c);
  }

  // ---------- when loading never ends ----------

  /** Nothing left to move the consumer on: no effect run due, and its handler has fired. */
  predicate IsStranded(w: World, c: nat) {
    && c < |w.consumers| && w.consumers[c].mounted && w.consumers[c].view.Loading? && !w.consumers[c].due
    && (w.consumers[c].subscription.Some? && w.consumers[c].subscription.value < |w.subscriptions|
        ==> w.subscriptions[w.consumers[c].subscription.value].fired)
  }

  /** A consumer is stranded only by a reset that came after its effect subscribed. */
  lemma OnlyAResetStrands(events: seq<Event>, c: nat)
    requires IsStranded(After(events), c)
    ensures var w := After(events);
      var s := w.consumers[c].subscription;
      s.Some? && s.value < |w.subscriptions| && w.subscriptions[s.value].epochAtSubscription < w.shared.epoch
  {
    EveryHistoryIsSafe(events);
    assert ConsumerOk(After(events), c);
  }

  /** What the handler of a loading consumer's effect run leaves behind. */
  lemma HandlerStrandsExactlyWhen(events: seq<Event>, s: nat)
    requires CanFire(After(events), s) && !After(events).subscriptions[s].cancelled
    requires var w := After(events);
      w.consumers[w.subscriptions[s].consumer].view.Loading? && !w.consumers[w.subscriptions[s].consumer].due
    ensures var w := After(events);
      var sub, outcome := w.subscriptions[s], w.fetches[w.subscriptions[s].fetch].outcome;
      IsStranded(After(events + [Fire(s)]), sub.consumer)
      <==> sub.epochAtSubscription < w.shared.epoch
           && (outcome.Resolved? || (outcome == Rejected(true) && sub.owns))
  {
    assert (events + [Fire(s)])[..|events|] == events;
    EveryHistoryIsSafe(events);
    var w := After(events);
    assert SubscriptionOk(w, s) && ConsumerOk(w, w.subscriptions[s].consumer);
  }

  /** One mounted row, loading, its own fetch under way. */
  function FirstFetch(key: string): World {
    World(Shared([], map[key := 0], map[key := 0], 0), [Fetch(key, 0, false, Pending)],
      [Subscription(0, 0, 0, true, false, false)], [Consumer(true, Some(key), 0, Loading, 0, Some(0), false)])
  }

  lemma MountStartsAFetch(row: Row)
    requires row.storedSessionUid.Some?
    ensures After([Mount(Some(row)), RunEffect(0, Some(row))])
         == FirstFetch(MakeKey(row.storedSessionUid.value, row.tool))
  {
    var key := MakeKey(row.storedSessionUid.value, row.tool);
    var e1, e2 := Mount(Some(row)), RunEffect(0, Some(row));
    assert [] + [e1] == [e1] && [e1] + [e2] == [e1, e2];
    AfterOneMore([], e1);
    AfterOneMore([e1], e2);
    assert After([e1]) == World(START.shared, [], [], [Consumer(true, Some(key), 0, Loading, 0, None, true)]);
  }

  lemma AbortStrands(key: string)
    ensures var w := Apply(Apply(FirstFetch(key), Reset), Reject(0, true));
      w.fetches == [Fetch(key, 0, true, Rejected(true))] && w.shared.epoch == 1
      && w.subscriptions == FirstFetch(key).subscriptions && w.consumers == FirstFetch(key).consumers
  {
    var w := Apply(FirstFetch(key), Reset);
    assert 0 in map[key := 0].Values by {
      assert map[key := 0][key] == 0;
    }
    assert w.fetches == [Fetch(key, 0, true, Pending)] && w.shared.epoch == 1;
  }

  /** It does happen: a reset during the fetch leaves a mounted row loading, with no run of its effect due. */
  lemma AResetCanStrand(row: Row)
    requires row.storedSessionUid.Some?
    ensures IsStranded(After([Mount(Some(row)), RunEffect(0, Some(row))] + [Reset] + [Reject(0, true)] + [Fire(0)]), 0)
  {
    var fetching := [Mount(Some(row)), RunEffect(0, Some(row))];
    AfterOneMore(fetching, Reset);
    AfterOneMore(fetching + [Reset], Reject(0, true));
    AfterOneMore(fetching + [Reset] + [Reject(0, true)], Fire(0));
    MountStartsAFetch(row);
    AbortStrands(MakeKey(row.storedSessionUid.value, row.tool));
  }

  lemma AfterOneMore(events: seq<Event>, e: Event)
    ensures After(events + [e]) == Apply(After(events), e)
  {
    assert (events + [e])[..|events|] == events;
  }
}
