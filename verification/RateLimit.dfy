/** The fixed-window rate limiter (crates/distributed-ratelimit/src/limiter.rs). The limiter's own state is
    the store of counters with expiry times; one call is one atomic script, run at a time the caller's
    server reads off its clock. */
module RateLimit {
  import opened Options

  /** A stored counter. A counter without an expiry time would block its key for ever. */
  datatype Counter = Counter(count: nat, expireAt: Option<int>)

  type Store = map<string, Counter>

  predicate Live(c: Counter, now: int) {
    match c.expireAt
    case None => true
    case Some(at) => now < at
  }

  datatype CheckResult = Ok(allowed: bool) | NotAvailable

  // ---------- One key on its own ----------

  /** A window that has been opened, and how much was asked for in it. */
  datatype Window = Closed | Window(start: int, count: nat)

  datatype Request = Request(at: int, n: nat)

  /** A decided request, and when the window it fell into started. */
  datatype Decision = Decision(at: int, n: nat, start: int, allowed: bool)

  function Count(w: Window, length: nat, r: Request): Window {
    if w.Window? && r.at < w.start + length then Window(w.start, w.count + r.n) else Window(r.at, r.n)
  }

  function Decide(w: Window, max: nat, r: Request): Decision
    requires w.Window?
  {
    Decision(r.at, r.n, w.start, w.count <= max)
  }

  datatype Decisions = Nothing | Next(head: Decision, rest: Decisions)

  /** All decisions on one key, from a window on. */
  function Run(length: nat, max: nat, w: Window, requests: seq<Request>): Decisions
    decreases |requests|
  {
    if requests == [] then Nothing
    else
      var w' := Count(w, length, requests[0]);
      Next(Decide(w', max, requests[0]), Run(length, max, w', requests[1..]))
  }

  predicate Reaches(w: Window, r: Request) {
    w.Window? ==> w.count > 0 && w.start <= r.at
  }

  /** Requests in order of time, each for a positive amount, none before the window at hand. */
  predicate Timely(w: Window, requests: seq<Request>)
    decreases |requests|
  {
    requests == [] || (requests[0].n > 0 && Reaches(w, requests[0]) && InOrder(requests[0], requests[1..]))
  }

  predicate InOrder(previous: Request, requests: seq<Request>)
    decreases |requests|
  {
    requests == [] || (requests[0].n > 0 && previous.at <= requests[0].at && InOrder(requests[0], requests[1..]))
  }

  lemma StaysTimely(w: Window, length: nat, requests: seq<Request>)
    requires Timely(w, requests) && requests != []
    ensures Timely(Count(w, length, requests[0]), requests[1..])
  {
  }

  // ---------- Windows are apart, and each admits up to the limit ----------

  /** Every later decision is in the same window, where nothing is admitted after a rejection, or in one
      that starts after this one has ended. */
  ghost predicate Follows(d: Decision, later: Decisions, length: nat) {
    match later
    case Nothing => true
    case Next(e, rest) =>
      && ((e.start == d.start && (e.allowed ==> d.allowed)) || d.start + length <= e.start)
      && Follows(d, rest, length)
  }

  ghost predicate Orderly(ds: Decisions, length: nat) {
    match ds
    case Nothing => true
    case Next(d, rest) => d.start <= d.at < d.start + length && Follows(d, rest, length) && Orderly(rest, length)
  }

  lemma {:induction false} RunFollows(length: nat, max: nat, d: Decision, w: Window, requests: seq<Request>)
    requires length > 0 && Timely(w, requests) && w.Window?
    requires (w.start == d.start && (w.count <= max ==> d.allowed)) || d.start + length <= w.start
    ensures Follows(d, Run(length, max, w, requests), length)
    decreases |requests|
  {
    if requests != [] {
      StaysTimely(w, length, requests);
      RunFollows(length, max, d, Count(w, length, requests[0]), requests[1..]);
    }
  }

  /** Windows do not overlap, each decision falls inside its window, and in a window all admissions come
      before all rejections. */
  lemma {:induction false} RunIsOrderly(length: nat, max: nat, w: Window, requests: seq<Request>)
    requires length > 0 && Timely(w, requests)
    ensures Orderly(Run(length, max, w, requests), length)
    decreases |requests|
  {
    if requests != [] {
      var w' := Count(w, length, requests[0]);
      StaysTimely(w, length, requests);
      RunFollows(length, max, Decide(w', max, requests[0]), w', requests[1..]);
      RunIsOrderly(length, max, w', requests[1..]);
    }
  }

  /** The weight admitted in the window that starts at `start`. */
  function AdmittedIn(ds: Decisions, start: int): nat {
    match ds
    case Nothing => 0
    case Next(d, rest) => (if d.allowed && d.start == start then d.n else 0) + AdmittedIn(rest, start)
  }

  function Slack(w: Window, max: nat): nat
    requires w.Window?
  {
    if w.count <= max then max - w.count else 0
  }

  function RoomIn(w: Window, max: nat, start: int): nat {
    if w.Closed? || w.start < start then max
    else if w.start == start then Slack(w, max)
    else 0
  }

  lemma {:induction false} AdmittedFrom(length: nat, max: nat, w: Window, requests: seq<Request>, start: int)
    requires length > 0
    ensures AdmittedIn(Run(length, max, w, requests), start) <= RoomIn(w, max, start)
    decreases |requests|
  {
    if requests != [] { AdmittedFrom(length, max, Count(w, length, requests[0]), requests[1..], start); }
  }

  /** No window admits more than the limit, by weight. */
  lemma AdmittedPerWindow(length: nat, max: nat, requests: seq<Request>, start: int)
    requires length > 0
    ensures AdmittedIn(Run(length, max, Closed, requests), start) <= max
  {
    AdmittedFrom(length, max, Closed, requests, start);
  }

  // ---------- Any span as long as a window ----------

  /** The weight admitted at a time in `[from, to')`. */
  function AdmittedDuring(ds: Decisions, from: int, to': int): nat {
    match ds
    case Nothing => 0
    case Next(d, rest) => (if d.allowed && from <= d.at < to' then d.n else 0) + AdmittedDuring(rest, from, to')
  }

  /** Twice the limit less one: the request that opens a window reaching into a span lies before the span. */
  function SpanLimit(max: nat): nat {
    if max == 0 then 0 else 2 * max - 1
  }

  function RoomDuring(w: Window, length: nat, max: nat, from: int): nat {
    if w.Closed? || w.start + length <= from then SpanLimit(max)
    else if w.start < from then Slack(w, max) + max
    else if w.start < from + length then Slack(w, max)
    else 0
  }

  lemma {:induction false} DuringFrom(length: nat, max: nat, w: Window, requests: seq<Request>, from: int)
    requires length > 0 && Timely(w, requests)
    ensures AdmittedDuring(Run(length, max, w, requests), from, from + length) <= RoomDuring(w, length, max, from)
    decreases |requests|
  {
    if requests != [] {
      StaysTimely(w, length, requests);
      DuringFrom(length, max, Count(w, length, requests[0]), requests[1..], from);
    }
  }

  /** Any span of time as long as a window admits less than twice the limit. */
  lemma AnySpan(length: nat, max: nat, requests: seq<Request>, from: int)
    requires length > 0 && Timely(Closed, requests)
    ensures AdmittedDuring(Run(length, max, Closed, requests), from, from + length) <= SpanLimit(max)
  {
    DuringFrom(length, max, Closed, requests, from);
  }

  /** And that much can be admitted: a little at first, most of the rest late, then a whole new window. */
  lemma SpanLimitIsReached(length: nat, max: nat) returns (requests: seq<Request>, from: int)
    requires length > 1 && max > 1
    ensures Timely(Closed, requests)
    ensures AdmittedDuring(Run(length, max, Closed, requests), from, from + length) == SpanLimit(max)
  {
    var a, b, c := Request(0, 1), Request(length - 1, max - 1), Request(length, max);
    requests, from := [a, b, c], length - 1;
    assert requests[1..] == [b, c] && [b, c][1..] == [c] && [c][1..] == [];
    var last := Next(Decision(length, max, length, true), Nothing);
    var late := Next(Decision(length - 1, max - 1, 0, true), last);
    assert Run(length, max, Window(0, max), [c]) == last;
    assert Run(length, max, Window(0, 1), [b, c]) == late;
    assert Run(length, max, Closed, requests) == Next(Decision(0, 1, 0, true), late);
    assert AdmittedDuring(last, from, from + length) == max;
    assert InOrder(c, []) && InOrder(b, [c]) && InOrder(a, [b, c]);
  }

  // ---------- The store ----------

  predicate HasExpiry(store: Store, k: string) {
    k in store ==> store[k].expireAt.Some? && store[k].count > 0
  }

  function Prefixed(prefix: string, bare: string): string {
    if prefix == "" then bare else prefix + ":" + bare
  }

  /** Under one prefix, different keys are different counters. */
  lemma KeysStayApart(prefix: string, a: string, b: string)
    requires Prefixed(prefix, a) == Prefixed(prefix, b)
    ensures a == b
  {
    if prefix != "" {
      assert a == Prefixed(prefix, a)[|prefix| + 1..] && b == Prefixed(prefix, b)[|prefix| + 1..];
    }
  }

  /** A key's counter after `n` more, as one script leaves it. */
  function Counted(store: Store, k: string, window: nat, n: nat, now: int): Counter {
    if k in store && Live(store[k], now) then Counter(store[k].count + n, store[k].expireAt)
    else Counter(n, Some(now + window))
  }

  /** The store after a call on a bare key. */
  function Checked(store: Store, prefix: string, bare: string, window: nat, n: nat, now: int): Store {
    store[Prefixed(prefix, bare) := Counted(store, Prefixed(prefix, bare), window, n, now)]
  }

  /** Whether the counter of a bare key is within the limit. */
  predicate Within(store: Store, prefix: string, bare: string, max: nat) {
    Prefixed(prefix, bare) in store && store[Prefixed(prefix, bare)].count <= max
  }

  class RedisRateLimiter {
    const connected: bool
    const keyPrefix: string
    var store: Store

    /** No counter is left without an expiry time. */
    ghost predicate Valid()
      reads this
    {
      forall k :: HasExpiry(store, k)
    }

    constructor (connected: bool, keyPrefix: string)
      ensures Valid() && this.connected == connected && this.keyPrefix == keyPrefix && store == map[]
    {
      this.connected, this.keyPrefix, store := connected, keyPrefix, map[];
    }

    function BuildKey(bare: string): (k: string)
      ensures keyPrefix == "" ==> k == bare
      ensures keyPrefix != "" ==> |k| == |keyPrefix| + 1 + |bare| && k[|keyPrefix|] == ':'
      ensures keyPrefix != "" ==> k[..|keyPrefix|] == keyPrefix && k[|keyPrefix| + 1..] == bare
    {
      Prefixed(keyPrefix, bare)
    }

    /** The counter of a bare key. */
    function CounterOf(bare: string): Option<Counter>
      reads this
    {
      if BuildKey(bare) in store then Some(store[BuildKey(bare)]) else None
    }

    /** Two keys have two counters. */
    lemma BuildKeysApart(a: string, b: string)
      ensures BuildKey(a) == BuildKey(b) ==> a == b
    {
      if BuildKey(a) == BuildKey(b) { KeysStayApart(keyPrefix, a, b); }
    }

    /** INCRBY: a missing or expired counter counts from 0, and has no expiry time yet. */
    method IncrBy(k: string, n: nat, now: int) returns (count: nat)
      modifies this`store
      ensures k in store && store == old(store)[k := store[k]] && count == store[k].count
      ensures store[k] == if k in old(store) && Live(old(store)[k], now)
                          then Counter(old(store)[k].count + n, old(store)[k].expireAt) else Counter(n, None)
    {
      var was := if k in store && Live(store[k], now) then store[k] else Counter(0, None);
      count := was.count + n;
      store := store[k := Counter(count, was.expireAt)];
    }

    /** EXPIRE. */
    method Expire(k: string, seconds: nat, now: int)
      requires k in store
      modifies this`store
      ensures store == old(store)[k := Counter(old(store)[k].count, Some(now + seconds))]
    {
      store := store[k := Counter(store[k].count, Some(now + seconds))];
    }

    /** Counts `n` and tells whether the count is still within the limit. The expiry time is set by the call
        that opens the window, and by no other. */
    method CheckN(bare: string, maxRequests: nat, windowSeconds: nat, n: nat, now: int) returns (r: CheckResult)
      requires Valid() && n > 0
      modifies this`store
      ensures Valid()
      ensures !connected ==> r == NotAvailable && store == old(store)
      ensures connected ==> r == Ok(Within(store, keyPrefix, bare, maxRequests))
      ensures connected ==> store == Checked(old(store), keyPrefix, bare, windowSeconds, n, now)
      ensures forall other | other != bare :: CounterOf(other) == old(CounterOf(other))
    {
      if !connected {
        return NotAvailable;
      }
      var k := BuildKey(bare);
      assert HasExpiry(store, k);
      var count := IncrBy(k, n, now);
      if count == n {
        Expire(k, windowSeconds, now);
      }
      assert forall j :: HasExpiry(old(store), j) ==> HasExpiry(store, j);
      forall other | other != bare ensures BuildKey(other) != k {
        BuildKeysApart(other, bare);
      }
      r := Ok(count <= maxRequests);
    }

    /** Counts one. */
    method Check(bare: string, maxRequests: nat, windowSeconds: nat, now: int) returns (r: CheckResult)
      requires Valid()
      modifies this`store
      ensures Valid()
      ensures !connected ==> r == NotAvailable && store == old(store)
      ensures connected ==> r == Ok(Within(store, keyPrefix, bare, maxRequests))
      ensures connected ==> store == Checked(old(store), keyPrefix, bare, windowSeconds, 1, now)
      ensures forall other | other != bare :: CounterOf(other) == old(CounterOf(other))
    {
      if !connected {
        return NotAvailable;
      }
      var k := BuildKey(bare);
      assert HasExpiry(store, k);
      var count := IncrBy(k, 1, now);
      if count == 1 {
        Expire(k, windowSeconds, now);
      }
      assert forall j :: HasExpiry(old(store), j) ==> HasExpiry(store, j);
      forall other | other != bare ensures BuildKey(other) != k {
        BuildKeysApart(other, bare);
      }
      r := Ok(count <= maxRequests);
    }
  }

  // ---------- Many keys ----------

  /** A call on a bare key. */
  datatype Call = Call(key: string, n: nat, at: int)

  /** The limit and the window length of each key. */
  datatype Limits = Limits(max: string -> nat, window: string -> nat)

  function Start(c: Counter, window: nat): int {
    match c.expireAt
    case Some(at) => at - window
    case None => 0
  }

  /** The decisions on one bare key in a run of calls on any keys, as the limiter makes them: each from the
      store that its call leaves. */
  function RunStore(limits: Limits, prefix: string, store: Store, calls: seq<Call>, k: string): Decisions
    decreases |calls|
  {
    if calls == [] then Nothing
    else
      var call := calls[0];
      var store' := Checked(store, prefix, call.key, limits.window(call.key), call.n, call.at);
      var rest := RunStore(limits, prefix, store', calls[1..], k);
      if call.key != k then rest
      else Next(Decision(call.at, call.n, Start(store'[Prefixed(prefix, k)], limits.window(k)),
                         Within(store', prefix, k, limits.max(k))), rest)
  }

  function RequestsOn(calls: seq<Call>, k: string): seq<Request>
    decreases |calls|
  {
    if calls == [] then []
    else if calls[0].key == k then [Request(calls[0].at, calls[0].n)] + RequestsOn(calls[1..], k)
    else RequestsOn(calls[1..], k)
  }

  function WindowOf(store: Store, k: string, window: nat): Window {
    if k in store then Window(Start(store[k], window), store[k].count) else Closed
  }

  /** Keys do not disturb each other: in any run, a key's decisions are those of its own requests alone. */
  lemma {:induction false} KeysAreIndependent(limits: Limits, prefix: string, store: Store, calls: seq<Call>, k: string)
    requires Prefixed(prefix, k) in store ==> store[Prefixed(prefix, k)].expireAt.Some?
    ensures RunStore(limits, prefix, store, calls, k) ==
            Run(limits.window(k), limits.max(k), WindowOf(store, Prefixed(prefix, k), limits.window(k)), RequestsOn(calls, k))
    decreases |calls|
  {
    if calls != [] {
      var call, window := calls[0], limits.window(k);
      var store' := Checked(store, prefix, call.key, limits.window(call.key), call.n, call.at);
      if call.key != k {
        if Prefixed(prefix, call.key) == Prefixed(prefix, k) { KeysStayApart(prefix, call.key, k); }
      }
      KeysAreIndependent(limits, prefix, store', calls[1..], k);
      if call.key == k {
        var r := Request(call.at, call.n);
        assert ([r] + RequestsOn(calls[1..], k))[1..] == RequestsOn(calls[1..], k);
        assert WindowOf(store', Prefixed(prefix, k), window) == Count(WindowOf(store, Prefixed(prefix, k), window), window, r);
      }
    }
  }

  predicate InTime(calls: seq<Call>) {
    (forall i | 0 <= i < |calls| :: calls[i].n > 0) && forall i, j | 0 <= i < j < |calls| :: calls[i].at <= calls[j].at
  }

  predicate AllFrom(requests: seq<Request>, at: int) {
    forall i | 0 <= i < |requests| :: at <= requests[i].at
  }

  lemma {:induction false} RequestsInOrder(calls: seq<Call>, k: string, at: int)
    requires InTime(calls) && forall i | 0 <= i < |calls| :: at <= calls[i].at
    ensures AllFrom(RequestsOn(calls, k), at) && Timely(Closed, RequestsOn(calls, k))
    decreases |calls|
  {
    if calls != [] {
      var call, rest := calls[0], RequestsOn(calls[1..], k);
      RequestsInOrder(calls[1..], k, call.at);
      assert ([Request(call.at, call.n)] + rest)[1..] == rest;
    }
  }

  /** The limiter over every run of calls on any keys, from an empty store, with a clock that does not go
      back: on each key, windows are apart, none admits more than the limit, admissions come before
      rejections, and any span as long as the window admits less than twice the limit. */
  lemma EveryRunIsLimited(limits: Limits, prefix: string, calls: seq<Call>, k: string, start: int)
    requires InTime(calls) && limits.window(k) > 0
    ensures var ds := RunStore(limits, prefix, map[], calls, k);
            && ds == Run(limits.window(k), limits.max(k), Closed, RequestsOn(calls, k))
            && Orderly(ds, limits.window(k))
            && AdmittedIn(ds, start) <= limits.max(k)
            && AdmittedDuring(ds, start, start + limits.window(k)) <= SpanLimit(limits.max(k))
  {
    var requests := RequestsOn(calls, k);
    KeysAreIndependent(limits, prefix, map[], calls, k);
    RequestsInOrder(calls, k, if calls == [] then 0 else calls[0].at);
    RunIsOrderly(limits.window(k), limits.max(k), Closed, requests);
    AdmittedPerWindow(limits.window(k), limits.max(k), requests, start);
    AnySpan(limits.window(k), limits.max(k), requests, start);
  }
}
