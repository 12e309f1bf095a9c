/** Per-key token buckets: every call is one atomic step at a reading of a monotonic clock. */
module RateLimit {

  datatype Bucket = Bucket(capacity: real, rate: real, tokens: real, updated: real)

  type Buckets = map<string, Bucket>

  datatype Call =
    | TryConsume(key: string, capacity: real, rate: real, cost: real)
    | Acquire(key: string, cost: real)
    | Ensure(key: string, capacity: real, rate: real)

  datatype Outcome = Admitted | Retry(after: real) | Unmetered | Invalid | ZeroDivision | Ensured

  function Min(a: real, b: real): real {
    if a <= b then a else b
  }

  /** The tokens that flow in over a stretch of time. */
  function Gain(rate: real, dt: real): real {
    dt * rate
  }

  lemma GainLaws(rate: real, a: real, b: real)
    requires rate > 0.0 && a >= 0.0
    ensures Gain(rate, a) >= 0.0
    ensures Gain(rate, a + b) == Gain(rate, a) + Gain(rate, b)
  {
  }

  function Refill(b: Bucket, now: real): Bucket {
    b.(tokens := Min(b.capacity, b.tokens + Gain(b.rate, now - b.updated)), updated := now)
  }

  /** A refusal divides by the refill rate; a zero rate raises there. */
  function Take(b: Bucket, cost: real): (Bucket, Outcome) {
    if b.tokens >= cost then (b.(tokens := b.tokens - cost), Admitted)
    else if b.rate == 0.0 then (b, ZeroDivision)
    else (b, Retry((cost - b.tokens) / b.rate))
  }

  /** The bucket `try_consume` works on: a full one when the key is new or its configuration changed. */
  function BucketFor(bs: Buckets, key: string, capacity: real, rate: real, now: real): Bucket {
    if key in bs && bs[key].capacity == capacity && bs[key].rate == rate then bs[key]
    else Bucket(capacity, rate, capacity, now)
  }

  function Apply(bs: Buckets, call: Call, now: real): (Buckets, Outcome) {
    match call
    case TryConsume(key, capacity, rate, cost) =>
      if capacity <= 0.0 || rate <= 0.0 || cost <= 0.0 then (bs, Invalid)
      else
        var (b, o) := Take(Refill(BucketFor(bs, key, capacity, rate, now), now), cost);
        (bs[key := b], o)
    case Acquire(key, cost) =>
      if key !in bs then (bs, Unmetered)
      else
        var (b, o) := Take(Refill(bs[key], now), cost);
        (bs[key := b], o)
    case Ensure(key, capacity, rate) =>
      (if key in bs then bs else bs[key := Bucket(capacity, rate, capacity, now)], Ensured)
  }

  // ----- The window bound

  datatype Event = Event(now: real, call: Call)

  ghost function Run(bs: Buckets, events: seq<Event>): Buckets {
    if events == [] then bs
    else
      var last := events[|events| - 1];
      Apply(Run(bs, events[..|events| - 1]), last.call, last.now).0
  }

  /** The cost one event takes from the bucket of `key`. */
  ghost function Charge(bs: Buckets, e: Event, key: string): real {
    if e.call.key == key && Apply(bs, e.call, e.now).1 == Admitted then e.call.cost else 0.0
  }

  /** The total cost admitted for `key` over the events. */
  ghost function Charged(bs: Buckets, events: seq<Event>, key: string): real {
    if events == [] then 0.0
    else
      var n := |events| - 1;
      Charged(bs, events[..n], key) + Charge(Run(bs, events[..n]), events[n], key)
  }

  ghost predicate ClockMonotone(events: seq<Event>) {
    forall i, j :: 0 <= i <= j < |events| ==> events[i].now <= events[j].now
  }

  /** Every call on the key uses one configuration. */
  ghost predicate OneConfiguration(events: seq<Event>, key: string, capacity: real, rate: real) {
    forall i :: 0 <= i < |events| && !events[i].call.Acquire? && events[i].call.key == key ==>
                  events[i].call.capacity == capacity && events[i].call.rate == rate
  }

  /** The key's bucket, if any, has this configuration, no debt, and was last touched by `now`. */
  ghost predicate Configured(bs: Buckets, key: string, capacity: real, rate: real, now: real) {
    key in bs ==>
      (bs[key].capacity == capacity && bs[key].rate == rate && bs[key].tokens >= 0.0 && bs[key].updated <= now)
  }

  /** What has been admitted since `start` plus what is left fits the bucket and its refill so far. */
  ghost predicate Budget(bs: Buckets, key: string, capacity: real, rate: real, start: real, charged: real, now: real) {
    && Configured(bs, key, capacity, rate, now)
    && (charged == 0.0 ||
        (key in bs && start <= bs[key].updated &&
         bs[key].tokens + charged <= capacity + Gain(rate, bs[key].updated - start)))
  }

  lemma RefillBound(b: Bucket, now: real)
    requires b.rate > 0.0 && b.tokens >= 0.0 && b.capacity > 0.0 && b.updated <= now
    ensures 0.0 <= Refill(b, now).tokens <= b.capacity
    ensures Refill(b, now).tokens <= b.tokens + Gain(b.rate, now - b.updated)
  {
    GainLaws(b.rate, now - b.updated, 0.0);
  }

  /** One draw on one bucket keeps the budget. */
  lemma DrawBudget(b: Bucket, cost: real, start: real, charged: real, now: real)
    requires b.rate > 0.0 && b.tokens >= 0.0 && b.capacity > 0.0 && b.updated <= now && start <= now
    requires charged == 0.0 ||
             (start <= b.updated && b.tokens + charged <= b.capacity + Gain(b.rate, b.updated - start))
    ensures var (d, o) := Take(Refill(b, now), cost);
            var drawn := if o == Admitted then cost else 0.0;
            d.tokens >= 0.0 && d.tokens + charged + drawn <= b.capacity + Gain(b.rate, now - start)
  {
    RefillBound(b, now);
    GainLaws(b.rate, now - start, 0.0);
    if charged != 0.0 {
      GainLaws(b.rate, b.updated - start, now - b.updated);
      assert (b.updated - start) + (now - b.updated) == now - start;
    }
  }

  lemma StepBudget(bs: Buckets, e: Event, key: string, capacity: real, rate: real, start: real, charged: real,
                   before: real)
    requires capacity > 0.0 && rate > 0.0
    requires start <= e.now && before <= e.now
    requires !e.call.Acquire? && e.call.key == key ==> e.call.capacity == capacity && e.call.rate == rate
    requires Budget(bs, key, capacity, rate, start, charged, before)
    ensures Budget(Apply(bs, e.call, e.now).0, key, capacity, rate, start, charged + Charge(bs, e, key), e.now)
  {
    if e.call.key == key && !e.call.Ensure? && Apply(bs, e.call, e.now).1 !in {Invalid, Unmetered} {
      var b := if e.call.Acquire? then bs[key] else BucketFor(bs, key, capacity, rate, e.now);
      assert charged == 0.0 || b == bs[key];
      DrawBudget(b, e.call.cost, start, charged, e.now);
    }
  }

  lemma {:induction false} RunBudget(bs: Buckets, events: seq<Event>, key: string, capacity: real, rate: real)
    requires capacity > 0.0 && rate > 0.0
    requires events != [] && ClockMonotone(events) && OneConfiguration(events, key, capacity, rate)
    requires Configured(bs, key, capacity, rate, events[0].now)
    ensures Budget(Run(bs, events), key, capacity, rate, events[0].now, Charged(bs, events, key),
            events[|events| - 1].now)
  {
    var n := |events| - 1;
    var start := events[0].now;
    if n == 0 {
      assert events[..0] == [];
      StepBudget(bs, events[0], key, capacity, rate, start, 0.0, start);
    } else {
      RunBudget(bs, events[..n], key, capacity, rate);
      StepBudget(Run(bs, events[..n]), events[n], key, capacity, rate, start, Charged(bs, events[..n], key),
              events[n - 1].now);
    }
  }

  /** What is drawn from one key's bucket over the events is at most its capacity plus its refill. */
  lemma DrawnBound(bs: Buckets, events: seq<Event>, key: string, capacity: real, rate: real)
    requires capacity > 0.0 && rate > 0.0
    requires events != [] && ClockMonotone(events) && OneConfiguration(events, key, capacity, rate)
    requires Configured(bs, key, capacity, rate, events[0].now)
    ensures Charged(bs, events, key) <= Bound(events, capacity, rate)
  {
    RunBudget(bs, events, key, capacity, rate);
    var b := Run(bs, events);
    var start, last := events[0].now, events[|events| - 1].now;
    assert start <= last;
    GainLaws(rate, last - start, 0.0);
    if Charged(bs, events, key) != 0.0 {
      GainLaws(rate, last - b[key].updated, b[key].updated - start);
      assert (last - b[key].updated) + (b[key].updated - start) == last - start;
    }
  }

  // ----- Every admission, blocking calls on unknown keys included

  /** The cost one event admits for `key`, whether or not a bucket was there to draw it from. */
  ghost function Cost(bs: Buckets, e: Event, key: string): real {
    if e.call.key == key && Apply(bs, e.call, e.now).1 in {Admitted, Unmetered} then e.call.cost else 0.0
  }

  /** The total cost admitted for `key` over the events. */
  ghost function AllAdmitted(bs: Buckets, events: seq<Event>, key: string): real {
    if events == [] then 0.0
    else
      var n := |events| - 1;
      AllAdmitted(bs, events[..n], key) + Cost(Run(bs, events[..n]), events[n], key)
  }

  /** Calls that leave the key with a bucket: `ensure_configured` and a valid `try_consume`. */
  predicate Opens(call: Call, key: string) {
    call.key == key &&
    (call.Ensure? || (call.TryConsume? && call.capacity > 0.0 && call.rate > 0.0 && call.cost > 0.0))
  }

  predicate Blocks(call: Call, key: string) {
    call.Acquire? && call.key == key
  }

  /** A key has a bucket from the first call that opens one. */
  lemma {:induction false} KnownExactly(bs: Buckets, events: seq<Event>, n: nat, key: string)
    requires n <= |events|
    ensures key in Run(bs, events[..n]) <==> key in bs || exists i :: 0 <= i < n && Opens(events[i].call, key)
  {
    if n > 0 {
      KnownExactly(bs, events, n - 1, key);
      assert events[..n][..n - 1] == events[..n - 1];
    }
  }

  /** Blocking calls on the key come only once it has a bucket: something the callers' order decides. */
  ghost predicate Metered(bs: Buckets, events: seq<Event>, key: string) {
    key in bs || forall i :: 0 <= i < |events| && Blocks(events[i].call, key) ==>
                               exists j :: 0 <= j < i && Opens(events[j].call, key)
  }

  lemma MeteredPrefix(bs: Buckets, events: seq<Event>, key: string, n: nat)
    requires Metered(bs, events, key) && n <= |events|
    ensures Metered(bs, events[..n], key)
  {
    if key !in bs {
      forall i | 0 <= i < n && Blocks(events[..n][i].call, key)
        ensures exists j :: 0 <= j < i && Opens(events[..n][j].call, key)
      {
        var j :| 0 <= j < i && Opens(events[j].call, key);
        assert events[..n][j] == events[j];
      }
    }
  }

  /** Where blocking calls are metered, everything admitted was drawn from the bucket. */
  lemma {:induction false} MeteredIsCharged(bs: Buckets, events: seq<Event>, key: string)
    requires Metered(bs, events, key)
    ensures AllAdmitted(bs, events, key) == Charged(bs, events, key)
  {
    if events != [] {
      var n := |events| - 1;
      MeteredPrefix(bs, events, key, n);
      MeteredIsCharged(bs, events[..n], key);
      KnownExactly(bs, events, n, key);
    }
  }

  /** Capacity plus refill over the events. */
  ghost function Bound(events: seq<Event>, capacity: real, rate: real): real
    requires events != []
  {
    capacity + Gain(rate, events[|events| - 1].now - events[0].now)
  }

  /**
   Whatever the interleaving over keys and kinds of calls, the cost admitted for one key is at most
   its capacity plus its refill, if its blocking calls come only once it has a bucket.
   */
  lemma WindowBound(bs: Buckets, events: seq<Event>, key: string, capacity: real, rate: real)
    requires capacity > 0.0 && rate > 0.0
    requires events != [] && ClockMonotone(events) && OneConfiguration(events, key, capacity, rate)
    requires Configured(bs, key, capacity, rate, events[0].now) && Metered(bs, events, key)
    ensures AllAdmitted(bs, events, key) <= Bound(events, capacity, rate)
  {
    MeteredIsCharged(bs, events, key);
    DrawnBound(bs, events, key, capacity, rate);
  }

  /** The bound in every window of a run of a limiter that started empty. */
  lemma WindowOfRun(events: seq<Event>, i: nat, j: nat, key: string, capacity: real, rate: real)
    requires capacity > 0.0 && rate > 0.0 && i < j <= |events|
    requires ClockMonotone(events) && OneConfiguration(events, key, capacity, rate) && Metered(map[], events, key)
    ensures AllAdmitted(Run(map[], events[..i]), events[i..j], key) <= Bound(events[i..j], capacity, rate)
  {
    var window, bs := events[i..j], Run(map[], events[..i]);
    if i > 0 {
      RunBudget(map[], events[..i], key, capacity, rate);
    }
    KnownExactly(map[], events, i, key);
    if key !in bs {
      forall k | 0 <= k < |window| && Blocks(window[k].call, key)
        ensures exists l :: 0 <= l < k && Opens(window[l].call, key)
      {
        assert window[k] == events[i + k];
        var l :| 0 <= l < i + k && Opens(events[l].call, key);
        assert window[l - i] == events[l];
      }
    }
    WindowBound(bs, window, key, capacity, rate);
  }

  // ----- Exactly when the bound holds

  /** The same event, but for the cost a blocking call asks for. */
  predicate SameEvent(e: Event, f: Event) {
    e.now == f.now && (e.call == f.call || (e.call.Acquire? && f.call.Acquire? && e.call.key == f.call.key))
  }

  ghost predicate SameShape(events: seq<Event>, events': seq<Event>) {
    |events| == |events'| && forall i {:trigger SameEvent(events[i], events'[i])} ::
      0 <= i < |events| ==> SameEvent(events[i], events'[i])
  }

  lemma ShapeMetered(bs: Buckets, events: seq<Event>, events': seq<Event>, key: string)
    requires SameShape(events, events') && Metered(bs, events, key)
    ensures Metered(bs, events', key)
  {
    if key !in bs {
      forall i | 0 <= i < |events'| && Blocks(events'[i].call, key)
        ensures exists j :: 0 <= j < i && Opens(events'[j].call, key)
      {
        assert SameEvent(events[i], events'[i]);
        var j :| 0 <= j < i && Opens(events[j].call, key);
        assert SameEvent(events[j], events'[j]);
      }
    }
  }

  lemma ShapeRegular(events: seq<Event>, events': seq<Event>, key: string, capacity: real, rate: real)
    requires SameShape(events, events') && events != []
    requires ClockMonotone(events) && OneConfiguration(events, key, capacity, rate)
    ensures ClockMonotone(events') && OneConfiguration(events', key, capacity, rate)
    ensures Bound(events', capacity, rate) == Bound(events, capacity, rate)
  {
    assert forall i :: 0 <= i < |events| ==> SameEvent(events[i], events'[i]);
  }

  lemma UnmeteredStep(bs: Buckets, now: real, key: string, x: real)
    requires key !in bs
    ensures Apply(bs, Acquire(key, x), now).0 == bs && Cost(bs, Event(now, Acquire(key, x)), key) == x
  {
  }

  /** The events with another cost for blocking call `i`. */
  ghost function Asking(events: seq<Event>, i: nat, key: string, x: real): (r: seq<Event>)
    requires i < |events|
    ensures |r| == |events|
  {
    events[i := Event(events[i].now, Acquire(key, x))]
  }

  lemma {:induction false} RunConcat(bs: Buckets, a: seq<Event>, b: seq<Event>, key: string)
    ensures Run(bs, a + b) == Run(Run(bs, a), b)
    ensures AllAdmitted(bs, a + b, key) == AllAdmitted(bs, a, key) + AllAdmitted(Run(bs, a), b, key)
  {
    if b == [] {
      assert a + b == a;
    } else {
      var n := |b| - 1;
      RunConcat(bs, a, b[..n], key);
      assert (a + b)[..|a + b| - 1] == a + b[..n];
    }
  }

  lemma RunOne(bs: Buckets, e: Event, key: string)
    requires Blocks(e.call, key) && key !in bs
    ensures Run(bs, [e]) == bs && AllAdmitted(bs, [e], key) == e.call.cost
  {
    assert [e][..0] == [];
    UnmeteredStep(bs, e.now, key, e.call.cost);
  }

  /** What comes before an unmetered call, the call, and what comes after it. */
  lemma UnmeteredSplit(bs: Buckets, events: seq<Event>, i: nat, key: string)
    requires i < |events| && Blocks(events[i].call, key) && key !in Run(bs, events[..i])
    ensures Run(bs, events) == Run(Run(bs, events[..i]), events[i + 1..])
    ensures AllAdmitted(bs, events, key) ==
            AllAdmitted(bs, events[..i], key) + events[i].call.cost +
            AllAdmitted(Run(bs, events[..i]), events[i + 1..], key)
  {
    var before, after := events[..i], events[i + 1..];
    assert events == before + ([events[i]] + after);
    RunConcat(bs, before, [events[i]] + after, key);
    RunConcat(Run(bs, before), [events[i]], after, key);
    RunOne(Run(bs, before), events[i], key);
  }

  /** One unmetered call has another cost: everything else is admitted as before. */
  lemma UnmeteredCost(bs: Buckets, events: seq<Event>, i: nat, key: string, x: real)
    requires i < |events| && Blocks(events[i].call, key) && key !in Run(bs, events[..i])
    ensures Run(bs, Asking(events, i, key, x)) == Run(bs, events)
    ensures AllAdmitted(bs, Asking(events, i, key, x), key) == AllAdmitted(bs, events, key) - events[i].call.cost + x
  {
    var events' := Asking(events, i, key, x);
    assert events'[..i] == events[..i] && events'[i + 1..] == events[i + 1..];
    UnmeteredSplit(bs, events, i, key);
    UnmeteredSplit(bs, events', i, key);
  }

  /** Whatever the blocking calls ask for, the bound holds. */
  ghost predicate AlwaysBounded(bs: Buckets, events: seq<Event>, key: string, capacity: real, rate: real)
    requires events != []
  {
    forall events' :: SameShape(events, events') ==> AllAdmitted(bs, events', key) <= Bound(events, capacity, rate)
  }

  /** An unmetered blocking call can exceed any bound by itself. */
  lemma UnmeteredBreaks(bs: Buckets, events: seq<Event>, i: nat, key: string, capacity: real, rate: real)
    requires i < |events| && Blocks(events[i].call, key) && key !in Run(bs, events[..i])
    ensures !AlwaysBounded(bs, events, key, capacity, rate)
  {
    var others := AllAdmitted(bs, events, key) - events[i].call.cost;
    var x := Bound(events, capacity, rate) - others + 1.0;
    UnmeteredCost(bs, events, i, key, x);
    var events' := Asking(events, i, key, x);
    forall k | 0 <= k < |events| ensures SameEvent(events[k], events'[k]) {
    }
    assert SameShape(events, events');
  }

  /** The bound holds for every cost of the blocking calls exactly when those come only once the key has a bucket. */
  lemma BoundExactly(bs: Buckets, events: seq<Event>, key: string, capacity: real, rate: real)
    requires capacity > 0.0 && rate > 0.0
    requires events != [] && ClockMonotone(events) && OneConfiguration(events, key, capacity, rate)
    requires Configured(bs, key, capacity, rate, events[0].now)
    ensures AlwaysBounded(bs, events, key, capacity, rate) <==> Metered(bs, events, key)
  {
    if Metered(bs, events, key) {
      forall events' | SameShape(events, events')
        ensures AllAdmitted(bs, events', key) <= Bound(events, capacity, rate)
      {
        ShapeMetered(bs, events, events', key);
        ShapeRegular(events, events', key, capacity, rate);
        assert SameEvent(events[0], events'[0]);
        WindowBound(bs, events', key, capacity, rate);
      }
    } else {
      var i :| 0 <= i < |events| && Blocks(events[i].call, key)
        && !exists j :: 0 <= j < i && Opens(events[j].call, key);
      KnownExactly(bs, events, i, key);
      UnmeteredBreaks(bs, events, i, key, capacity, rate);
    }
  }

  /** One blocking call on a key without a bucket is admitted at any cost. */
  lemma UnmeteredRun(key: string, now: real, x: real)
    ensures AllAdmitted(map[], [Event(now, Acquire(key, x))], key) == x
  {
    var events := [Event(now, Acquire(key, x))];
    assert events[..0] == [];
    assert AllAdmitted(map[], [], key) == 0.0;
  }

  function Burst(key: string, capacity: real, rate: real, wait: real): seq<Event> {
    [Event(0.0, TryConsume(key, capacity, rate, capacity)),
     Event(wait, TryConsume(key, capacity, rate, Gain(rate, wait)))]
  }

  /** The bound is reached: a full burst, then what has flowed back in. */
  lemma WindowBoundTight(key: string, capacity: real, rate: real, wait: real)
    requires capacity > 0.0 && rate > 0.0 && wait > 0.0 && Gain(rate, wait) <= capacity
    ensures var events := Burst(key, capacity, rate, wait);
            && Metered(map[], events, key)
            && AllAdmitted(map[], events, key) == Bound(events, capacity, rate)
  {
    var events := Burst(key, capacity, rate, wait);
    assert wait * rate > 0.0;
    assert events[..2] == events && events[..1] == [events[0]] && events[..1][..0] == [] && events[..0] == [];
    var empty: Buckets := map[];
    assert AllAdmitted(empty, [events[0]], key) == capacity;
    var first := Apply(empty, events[0].call, 0.0).0;
    assert Run(empty, [events[0]]) == first;
    assert first[key] == Bucket(capacity, rate, 0.0, 0.0);
    assert Cost(first, events[1], key) == Gain(rate, wait);
  }

  // ----- The retry delay

  lemma DivisionExact(x: real, rate: real, d: real)
    requires rate > 0.0
    ensures Gain(rate, d) >= x <==> d >= x / rate
  {
    var q := x / rate;
    assert q * rate == x;
    if d >= q {
      GainLaws(rate, d - q, q);
      assert (d - q) + q == d;
    } else {
      assert (q - d) * rate > 0.0;
      assert q * rate == (q - d) * rate + d * rate;
    }
  }

  lemma QuotientPositive(x: real, rate: real)
    requires x > 0.0 && rate > 0.0
    ensures x / rate > 0.0
  {
  }

  /** From a refused draw on, the next draw succeeds just when the deficit has flowed in. */
  lemma NextDraw(b: Bucket, cost: real, now: real, later: real)
    requires b.rate > 0.0 && b.updated == now <= later && b.tokens < cost
    ensures Take(Refill(b, later), cost).1 == Admitted <==>
            cost <= b.capacity && later >= now + (cost - b.tokens) / b.rate
  {
    DivisionExact(cost - b.tokens, b.rate, later - now);
  }

  /**
   After a refusal the returned delay is exact: with no other call in between, the same call
   succeeds at a later time just when that time is at least the delay away and the cost fits the bucket.
   */
  lemma RetryIsLeastWait(bs: Buckets, call: Call, now: real, later: real)
    requires now <= later
    requires Apply(bs, call, now).1.Retry?
    requires Apply(bs, call, now).0[call.key].rate > 0.0
    ensures var (after, refusal) := Apply(bs, call, now);
            && call.key in after && refusal.after > 0.0
            && (Apply(after, call, later).1 == Admitted <==>
                    call.cost <= after[call.key].capacity && later >= now + refusal.after)
  {
    var after := Apply(bs, call, now).0;
    var b := after[call.key];
    assert b.updated == now && b.tokens < call.cost;
    QuotientPositive(call.cost - b.tokens, b.rate);
    NextDraw(b, call.cost, now, later);
    assert Apply(after, call, later).1 == Take(Refill(b, later), call.cost).1;
  }

  // ----- Exactly when a draw is admitted

  /** A new or reconfigured key starts with a full bucket; a known one keeps what it has. */
  lemma StartsFull(bs: Buckets, key: string, capacity: real, rate: real, cost: real, now: real)
    requires capacity > 0.0 && rate > 0.0 && cost > 0.0
    ensures key !in bs ==> Apply(bs, Ensure(key, capacity, rate), now).0 ==
                             bs[key := Bucket(capacity, rate, capacity, now)]
    ensures key in bs ==> Apply(bs, Ensure(key, capacity, rate), now).0 == bs
    ensures key !in bs || bs[key].capacity != capacity || bs[key].rate != rate ==>
              var (after, o) := Apply(bs, TryConsume(key, capacity, rate, cost), now);
              && (o == Admitted <==> cost <= capacity)
              && after == bs[key := Bucket(capacity, rate, if cost <= capacity then capacity - cost else capacity, now)]
  {
  }

  /** What has been drawn for `key` from event `i` on. */
  ghost function DrawnSince(bs: Buckets, events: seq<Event>, i: nat, key: string): real
    requires i <= |events|
  {
    Charged(bs, events, key) - Charged(bs, events[..i], key)
  }

  /** What the bound over the window from event `i` to `now` leaves to draw. */
  ghost function Room(bs: Buckets, events: seq<Event>, i: nat, key: string, now: real): real
    requires i < |events| && key in bs
  {
    bs[key].capacity + Gain(bs[key].rate, now - events[i].now) - DrawnSince(bs, events, i, key)
  }

  /** The events follow a full bucket of the key and keep its configuration. */
  ghost predicate FromFull(bs: Buckets, events: seq<Event>, key: string, now: real) {
    && key in bs && bs[key].capacity > 0.0 && bs[key].rate > 0.0 && bs[key].tokens == bs[key].capacity
    && ClockMonotone(events) && OneConfiguration(events, key, bs[key].capacity, bs[key].rate)
    && (forall i :: 0 <= i < |events| ==> bs[key].updated <= events[i].now <= now)
    && bs[key].updated <= now
  }

  lemma RefillTwice(b: Bucket, first: real, second: real)
    requires b.rate > 0.0 && b.updated <= first <= second
    ensures Refill(Refill(b, first), second).tokens == Refill(b, second).tokens
  {
    GainLaws(b.rate, second - first, first - b.updated);
    GainLaws(b.rate, first - b.updated, 0.0);
    assert (second - first) + (first - b.updated) == second - b.updated;
  }

  /** One event: the tokens the key has at `now`, from those it had at the event. */
  lemma TokensAfter(bs: Buckets, e: Event, key: string, now: real)
    requires key in bs && bs[key].rate > 0.0 && bs[key].capacity > 0.0 && bs[key].updated <= e.now <= now
    requires !e.call.Acquire? && e.call.key == key ==>
               e.call.capacity == bs[key].capacity && e.call.rate == bs[key].rate
    ensures var after := Apply(bs, e.call, e.now).0;
            && key in after && after[key].capacity == bs[key].capacity && after[key].rate == bs[key].rate
            && after[key].updated <= e.now
            && Refill(after[key], now).tokens ==
               Min(bs[key].capacity,
                   Refill(bs[key], e.now).tokens - Charge(bs, e, key) + Gain(bs[key].rate, now - e.now))
  {
    RefillTwice(bs[key], e.now, now);
  }

  ghost predicate TokensAre(bs: Buckets, events: seq<Event>, key: string, now: real, tokens: real)
    requires key in bs
  {
    && tokens <= bs[key].capacity
    && (forall i :: 0 <= i < |events| ==> tokens <= Room(bs, events, i, key, now))
    && (tokens == bs[key].capacity || exists i :: 0 <= i < |events| && tokens == Room(bs, events, i, key, now))
  }

  lemma DrawnSnoc(bs: Buckets, events: seq<Event>, i: nat, key: string)
    requires i < |events|
    ensures var n := |events| - 1;
            DrawnSince(bs, events, i, key) ==
            DrawnSince(bs, events[..n], i, key) + Charge(Run(bs, events[..n]), events[n], key)
  {
    assert events[..|events| - 1][..i] == events[..i];
  }

  /** The room of an earlier window when the clock goes on from the last event. */
  lemma RoomSnoc(bs: Buckets, events: seq<Event>, i: nat, key: string, now: real)
    requires key in bs && bs[key].rate > 0.0 && i < |events| - 1 && events[|events| - 1].now <= now
    ensures var n := |events| - 1;
            Room(bs, events, i, key, now) ==
            Room(bs, events[..n], i, key, events[n].now) - Charge(Run(bs, events[..n]), events[n], key)
            + Gain(bs[key].rate, now - events[n].now)
  {
    var n := |events| - 1;
    GainLaws(bs[key].rate, now - events[n].now, events[n].now - events[i].now);
    assert (now - events[n].now) + (events[n].now - events[i].now) == now - events[i].now;
    DrawnSnoc(bs, events, i, key);
  }

  lemma LastRoom(bs: Buckets, events: seq<Event>, key: string, now: real)
    requires key in bs && events != []
    ensures var n := |events| - 1;
            Room(bs, events, n, key, now) ==
            bs[key].capacity - Charge(Run(bs, events[..n]), events[n], key) + Gain(bs[key].rate, now - events[n].now)
  {
    DrawnSnoc(bs, events, |events| - 1, key);
  }

  lemma TokensSnoc(bs: Buckets, events: seq<Event>, key: string, now: real, earlier: real, tokens: real)
    requires key in bs && bs[key].rate > 0.0 && events != [] && events[|events| - 1].now <= now
    requires TokensAre(bs, events[..|events| - 1], key, events[|events| - 1].now, earlier)
    requires var n := |events| - 1;
             tokens == Min(bs[key].capacity, earlier - Charge(Run(bs, events[..n]), events[n], key)
                                             + Gain(bs[key].rate, now - events[n].now))
    ensures TokensAre(bs, events, key, now, tokens)
  {
    var n := |events| - 1;
    LastRoom(bs, events, key, now);
    forall i | 0 <= i < |events| ensures tokens <= Room(bs, events, i, key, now) {
      if i < n {
        RoomSnoc(bs, events, i, key, now);
      }
    }
    if tokens != bs[key].capacity {
      if earlier == bs[key].capacity {
        assert tokens == Room(bs, events, n, key, now);
      } else {
        var i :| 0 <= i < n && earlier == Room(bs, events[..n], i, key, events[n].now);
        RoomSnoc(bs, events, i, key, now);
        assert tokens == Room(bs, events, i, key, now);
      }
    }
  }

  /** The tokens at any time are the least of the capacity and the room of every window ending then. */
  lemma {:induction false} TokensExactly(bs: Buckets, events: seq<Event>, key: string, now: real)
    requires FromFull(bs, events, key, now)
    ensures var after := Run(bs, events);
            && key in after && after[key].capacity == bs[key].capacity && after[key].rate == bs[key].rate
            && after[key].updated <= (if events == [] then now else events[|events| - 1].now)
            && TokensAre(bs, events, key, now, Refill(after[key], now).tokens)
  {
    if events == [] {
      GainLaws(bs[key].rate, now - bs[key].updated, 0.0);
    } else {
      var n := |events| - 1;
      var before := Run(bs, events[..n]);
      TokensExactly(bs, events[..n], key, events[n].now);
      TokensAfter(before, events[n], key, now);
      TokensSnoc(bs, events, key, now, Refill(before[key], events[n].now).tokens,
                 Refill(Run(bs, events)[key], now).tokens);
    }
  }

  /**
   A draw on a key that once had a full bucket is admitted exactly when it keeps the bound in every
   window that ends with it: those that began at an earlier call, and the empty one.
   */
  lemma AdmittedExactly(bs: Buckets, events: seq<Event>, call: Call, now: real)
    requires FromFull(bs, events, call.key, now) && !call.Ensure?
    requires call.TryConsume? ==>
               call.capacity == bs[call.key].capacity && call.rate == bs[call.key].rate && call.cost > 0.0
    ensures Apply(Run(bs, events), call, now).1 == Admitted <==>
            && call.cost <= bs[call.key].capacity
            && forall i :: 0 <= i < |events| ==> call.cost <= Room(bs, events, i, call.key, now)
  {
    TokensExactly(bs, events, call.key, now);
  }

  // ----- The blocking loop

  /** Where a blocking call stands: the buckets, its last turn's outcome and the clock. */
  datatype Wait = Wait(buckets: Buckets, outcome: Outcome, now: real)

  /** A blocking call after up to `sleeps` sleeps, each `oversleep` longer than asked, no other call in between. */
  function Waited(bs: Buckets, key: string, cost: real, start: real, oversleep: real, sleeps: nat): Wait {
    if sleeps == 0 then
      var (after, o) := Apply(bs, Acquire(key, cost), start);
      Wait(after, o, start)
    else
      var w := Waited(bs, key, cost, start, oversleep, sleeps - 1);
      if !w.outcome.Retry? then w
      else
        var now := w.now + w.outcome.after + oversleep;
        var (after, o) := Apply(w.buckets, Acquire(key, cost), now);
        Wait(after, o, now)
  }

  /** What a refused turn leaves for the next one. */
  ghost predicate Waiting(w: Wait, b: Bucket, key: string, cost: real) {
    key in w.buckets &&
    var c := w.buckets[key];
    && c.capacity == b.capacity && c.rate == b.rate
    && (w.outcome.Retry? ==>
          && c.updated == w.now && c.tokens < cost && c.rate != 0.0
          && w.outcome.after == (cost - c.tokens) / c.rate && w.outcome.after > 0.0)
  }

  lemma TurnWaits(bs: Buckets, key: string, cost: real, now: real)
    requires key in bs && bs[key].rate > 0.0
    ensures var (after, o) := Apply(bs, Acquire(key, cost), now);
            Waiting(Wait(after, o, now), bs[key], key, cost) && (o.Retry? || o == Admitted)
    ensures Apply(bs, Acquire(key, cost), now).1 == Admitted ==> cost <= bs[key].capacity
  {
    var b := Refill(bs[key], now);
    if b.tokens < cost {
      QuotientPositive(cost - b.tokens, b.rate);
    }
  }

  lemma NextTurn(w: Wait, key: string, cost: real, oversleep: real)
    requires key in w.buckets && w.buckets[key].rate > 0.0 && oversleep >= 0.0
    requires w.outcome.Retry? && Waiting(w, w.buckets[key], key, cost)
    ensures Apply(w.buckets, Acquire(key, cost), w.now + w.outcome.after + oversleep).1 == Admitted <==>
            cost <= w.buckets[key].capacity
  {
    NextDraw(w.buckets[key], cost, w.now, w.now + w.outcome.after + oversleep);
  }

  /**
   Left undisturbed, a blocking call is through after one sleep if its cost fits the bucket's
   capacity, and is still waiting after any number of sleeps if it does not.
   */
  lemma {:induction false} WaitEndsExactly(bs: Buckets, key: string, cost: real, start: real, oversleep: real,
                                           sleeps: nat)
    requires key in bs && bs[key].rate > 0.0 && oversleep >= 0.0
    ensures var w := Waited(bs, key, cost, start, oversleep, sleeps);
            Waiting(w, bs[key], key, cost) && (w.outcome == Admitted ==> cost <= bs[key].capacity)
    ensures Waited(bs, key, cost, start, oversleep, sleeps).outcome == Admitted ||
            Waited(bs, key, cost, start, oversleep, sleeps).outcome.Retry?
    ensures sleeps > 0 ==>
              (Waited(bs, key, cost, start, oversleep, sleeps).outcome == Admitted <==> cost <= bs[key].capacity)
  {
    if sleeps == 0 {
      TurnWaits(bs, key, cost, start);
    } else {
      WaitEndsExactly(bs, key, cost, start, oversleep, sleeps - 1);
      var w := Waited(bs, key, cost, start, oversleep, sleeps - 1);
      if w.outcome.Retry? {
        NextTurn(w, key, cost, oversleep);
        TurnWaits(w.buckets, key, cost, w.now + w.outcome.after + oversleep);
      }
    }
  }

  /** In no run does the key's bucket admit a cost over the configured capacity, whatever calls come in between. */
  lemma OversizedNeverAdmitted(bs: Buckets, events: seq<Event>, i: nat, key: string, capacity: real, rate: real)
    requires capacity > 0.0 && rate > 0.0 && i < |events|
    requires ClockMonotone(events) && OneConfiguration(events, key, capacity, rate)
    requires Configured(bs, key, capacity, rate, events[0].now)
    requires events[i].call.key == key && !events[i].call.Ensure? && events[i].call.cost > capacity
    ensures Apply(Run(bs, events[..i]), events[i].call, events[i].now).1 != Admitted
  {
    if i > 0 {
      RunBudget(bs, events[..i], key, capacity, rate);
    }
  }

  // ----- The limiter

  class RateLimiter {
    var buckets: Buckets

    constructor ()
      ensures buckets == map[]
    {
      buckets := map[];
    }

    /** Replaces the key's bucket by a full one. */
    method Configure(key: string, capacity: real, rate: real, now: real)
      modifies this
      ensures buckets == old(buckets)[key := Bucket(capacity, rate, capacity, now)]
    {
      buckets := buckets[key := Bucket(capacity, rate, capacity, now)];
    }

    method EnsureConfigured(key: string, capacity: real, rate: real, now: real)
      modifies this
      ensures key in buckets && buckets == Apply(old(buckets), Ensure(key, capacity, rate), now).0
      ensures buckets == if key in old(buckets) then old(buckets)
                         else old(buckets)[key := Bucket(capacity, rate, capacity, now)]
    {
      if key !in buckets {
        Configure(key, capacity, rate, now);
      }
    }

    /** Consumes at once, or says how long to wait. */
    method TryToConsume(key: string, capacity: real, rate: real, cost: real, now: real) returns (o: Outcome)
      modifies this
      ensures (buckets, o) == Apply(old(buckets), TryConsume(key, capacity, rate, cost), now)
    {
      if capacity <= 0.0 || rate <= 0.0 || cost <= 0.0 {
        return Invalid;
      }
      if key !in buckets || buckets[key].capacity != capacity || buckets[key].rate != rate {
        buckets := buckets[key := Bucket(capacity, rate, capacity, now)];
      }
      o := Draw(key, cost, now);
      assert buckets == old(buckets)[key := buckets[key]];
    }

    /** One locked turn of the blocking loop; on `Retry` the caller sleeps and tries again. */
    method AcquireOnce(key: string, cost: real, now: real) returns (o: Outcome)
      modifies this
      ensures (buckets, o) == Apply(old(buckets), Acquire(key, cost), now)
    {
      if key !in buckets {
        return Unmetered;
      }
      o := Draw(key, cost, now);
    }

    /**
     The blocking loop with no other call in between and sleeps that never end early. `patience`
     bounds the sleeps made here; the service's loop has no such bound.
     */
    method AcquireUndisturbed(key: string, cost: real, start: real, oversleep: real, patience: nat)
      returns (o: Outcome, now: real, sleeps: nat)
      modifies this
      ensures Wait(buckets, o, now) == Waited(old(buckets), key, cost, start, oversleep, sleeps)
      ensures sleeps <= patience && (o.Retry? ==> sleeps == patience)
      ensures forall k :: 0 <= k < sleeps ==> Waited(old(buckets), key, cost, start, oversleep, k).outcome.Retry?
    {
      now, sleeps := start, 0;
      o := AcquireOnce(key, cost, now);
      while o.Retry? && sleeps < patience
        invariant Wait(buckets, o, now) == Waited(old(buckets), key, cost, start, oversleep, sleeps)
        invariant sleeps <= patience
        invariant forall k :: 0 <= k < sleeps ==> Waited(old(buckets), key, cost, start, oversleep, k).outcome.Retry?
      {
        now := now + o.after + oversleep;
        sleeps := sleeps + 1;
        o := AcquireOnce(key, cost, now);
      }
    }

    method Draw(key: string, cost: real, now: real) returns (o: Outcome)
      requires key in buckets
      modifies this
      ensures var (b, r) := Take(Refill(old(buckets)[key], now), cost); buckets == old(buckets)[key := b] && o == r
    {
      var b := buckets[key];
      b := b.(tokens := Min(b.capacity, b.tokens + Gain(b.rate, now - b.updated)));
      b := b.(updated := now);
      if b.tokens >= cost {
        buckets := buckets[key := b.(tokens := b.tokens - cost)];
        return Admitted;
      }
      buckets := buckets[key := b];
      return if b.rate == 0.0 then ZeroDivision else Retry((cost - b.tokens) / b.rate);
    }
  }
}
