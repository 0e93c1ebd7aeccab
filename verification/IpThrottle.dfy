/**
 * The fixed-window limiter of the auth routes: a client of the shared store whose
 * counter lives for one window from its first request.
 */
module IpThrottle {
  import opened Options
  import opened SharedStore

  /** Key of one client's counter; no other component uses the prefix. */
  function CounterKey(tracker: string): string {
    "auth-ip:" + tracker
  }

  /** Every call that touches the key is the guard's own increment. */
  ghost predicate GuardOnly(calls: seq<Call>, key: string, windowMs: int) {
    forall i | 0 <= i < |calls| ::
      calls[i].op.Sweep? || calls[i].op.key != key || calls[i].op == Increment(key, Some(windowMs))
  }

  predicate Admits(reply: Option<Value>, max: int) {
    reply.Some? && reply.value.Num? && reply.value.n <= max
  }

  /** The time of a call, if it is a request the guard lets through. */
  function Admitted(m: Entries, op: Op, key: string, windowMs: int, max: int, now: int): seq<int> {
    if op == Increment(key, Some(windowMs)) && Admits(Lazy(m, op, now).reply, max) then [now] else []
  }

  /** When the guard let requests of the key through, in order. */
  function AdmittedTimes(m: Entries, calls: seq<Call>, key: string, windowMs: int, max: int): seq<int>
    decreases |calls|
  {
    if calls == [] then []
    else
      var Call(op, at) := calls[0];
      Admitted(m, op, key, windowMs, max, at) +
      AdmittedTimes(Lazy(m, op, at).entries, calls[1..], key, windowMs, max)
  }

  /**
   * Admitted requests sorted by window: those of the current window, which opened at
   * `start`, those of the window before it, which opened at `prevStart`, and the rest.
   */
  datatype Ledger = Ledger(older: seq<int>, prev: seq<int>, cur: seq<int>, prevStart: int, start: int) {
    function All(): seq<int> { older + prev + cur }
  }

  ghost predicate LedgerOk(l: Ledger, windowMs: int, max: nat, now: int) {
    && |l.prev| <= max && |l.cur| <= max
    && l.prevStart + windowMs <= l.start <= now
    && (forall i | 0 <= i < |l.older| :: l.older[i] < l.prevStart)
    && (forall i | 0 <= i < |l.prev| :: l.prevStart <= l.prev[i] < l.start)
    && (forall i | 0 <= i < |l.cur| :: l.start <= l.cur[i] <= now && l.cur[i] < l.start + windowMs)
  }

  /** The store's counter is the current window's, while the window lasts. */
  ghost predicate CounterOk(m: Entries, key: string, l: Ledger, windowMs: int, max: nat, now: int) {
    if key in View(m, now)
    then var e := m[key];
         && e.expiresAt == Some(l.start + windowMs)
         && e.value.Num? && e.value.n >= 1
         && |l.cur| == if e.value.n <= max then e.value.n else max
    else l.start + windowMs <= now
  }

  /** Any `2 * max + 1` consecutive admitted requests take longer than a window. */
  ghost predicate Spread(times: seq<int>, max: nat, windowMs: int) {
    forall j | 0 <= j && j + 2 * max < |times| :: times[j] + windowMs < times[j + 2 * max]
  }

  lemma SpreadExtends(l: Ledger, windowMs: int, max: nat, now: int)
    requires LedgerOk(l, windowMs, max, now) && |l.cur| < max && Spread(l.All(), max, windowMs)
    ensures Spread(l.All() + [now], max, windowMs)
  {
  }

  /** The ledger after one increment at `now`. */
  function Enter(l: Ledger, open: bool, admitted: bool, now: int): Ledger {
    if !open then Ledger(l.older + l.prev, l.cur, [now], l.start, now)
    else if admitted then l.(cur := l.cur + [now])
    else l
  }

  lemma EnterKeepsOk(m: Entries, key: string, l: Ledger, windowMs: int, max: nat, now: int)
    requires windowMs > 0 && max > 0
    requires LedgerOk(l, windowMs, max, now) && CounterOk(m, key, l, windowMs, max, now)
    requires Spread(l.All(), max, windowMs)
    ensures var o := Lazy(m, Increment(key, Some(windowMs)), now);
            var l' := Enter(l, key in View(m, now), Admits(o.reply, max), now);
            && LedgerOk(l', windowMs, max, now)
            && CounterOk(o.entries, key, l', windowMs, max, now)
            && Spread(l'.All(), max, windowMs)
            && l'.All() == l.All() + if Admits(o.reply, max) then [now] else []
  {
    var o := Lazy(m, Increment(key, Some(windowMs)), now);
    var open := key in View(m, now);
    var admitted := Admits(o.reply, max);
    var l' := Enter(l, open, admitted, now);
    LookHidesNothing(m, key, now);
    if open {
      if admitted {
        SpreadExtends(l, windowMs, max, now);
      }
    } else {
      assert admitted;
      var closed := Ledger(l.older + l.prev, l.cur, [], l.start, now);
      assert closed.All() == l.All();
      SpreadExtends(closed, windowMs, max, now);
    }
    assert l'.All() == l.All() + if admitted then [now] else [];
  }

  lemma OtherKeepsCounter(m: Entries, key: string, op: Op, l: Ledger, windowMs: int, max: nat, now: int)
    requires CounterOk(m, key, l, windowMs, max, now) && (op.Sweep? || op.key != key)
    ensures CounterOk(Lazy(m, op, now).entries, key, l, windowMs, max, now)
  {
  }

  lemma LaterKeepsOk(m: Entries, key: string, l: Ledger, windowMs: int, max: nat, now: int, later: int)
    requires LedgerOk(l, windowMs, max, now) && CounterOk(m, key, l, windowMs, max, now) && now <= later
    ensures LedgerOk(l, windowMs, max, later) && CounterOk(m, key, l, windowMs, max, later)
  {
  }

  /** One call of any kind, with the ledger it leads to. */
  lemma CallKeepsOk(m: Entries, op: Op, key: string, windowMs: int, max: nat, now: int, l: Ledger) returns (l': Ledger)
    requires windowMs > 0 && max > 0 && (op.Sweep? || op.key != key || op == Increment(key, Some(windowMs)))
    requires LedgerOk(l, windowMs, max, now) && CounterOk(m, key, l, windowMs, max, now)
    requires Spread(l.All(), max, windowMs)
    ensures LedgerOk(l', windowMs, max, now) && CounterOk(Lazy(m, op, now).entries, key, l', windowMs, max, now)
    ensures Spread(l'.All(), max, windowMs)
    ensures l'.All() == l.All() + Admitted(m, op, key, windowMs, max, now)
  {
    if op == Increment(key, Some(windowMs)) {
      EnterKeepsOk(m, key, l, windowMs, max, now);
      l' := Enter(l, key in View(m, now), Admits(Lazy(m, op, now).reply, max), now);
    } else {
      OtherKeepsCounter(m, key, op, l, windowMs, max, now);
      l' := l;
    }
  }

  lemma {:induction false} RunKeepsSpread(
      m: Entries, calls: seq<Call>, key: string, windowMs: int, max: nat, now: int, l: Ledger)
    requires windowMs > 0 && max > 0 && GuardOnly(calls, key, windowMs) && InOrder(calls, now)
    requires LedgerOk(l, windowMs, max, now) && CounterOk(m, key, l, windowMs, max, now)
    requires Spread(l.All(), max, windowMs)
    ensures Spread(l.All() + AdmittedTimes(m, calls, key, windowMs, max), max, windowMs)
    decreases |calls|
  {
    if calls == [] {
      assert l.All() + [] == l.All();
    } else {
      var Call(op, at) := calls[0];
      LaterKeepsOk(m, key, l, windowMs, max, now, at);
      var l' := CallKeepsOk(m, op, key, windowMs, max, at, l);
      var rest := AdmittedTimes(Lazy(m, op, at).entries, calls[1..], key, windowMs, max);
      TailInOrder(calls, now);
      RunKeepsSpread(Lazy(m, op, at).entries, calls[1..], key, windowMs, max, at, l');
      assert l.All() + (Admitted(m, op, key, windowMs, max, at) + rest) == l'.All() + rest;
    }
  }

  lemma TailInOrder(calls: seq<Call>, now: int)
    requires calls != [] && InOrder(calls, now)
    ensures now <= calls[0].at && InOrder(calls[1..], calls[0].at)
  {
  }

  ghost predicate Sorted(times: seq<int>) {
    forall i, j | 0 <= i < j < |times| :: times[i] <= times[j]
  }

  lemma {:induction false} AdmittedSorted(m: Entries, calls: seq<Call>, key: string, windowMs: int, max: int, now: int)
    requires InOrder(calls, now)
    ensures var ts := AdmittedTimes(m, calls, key, windowMs, max);
            Sorted(ts) && forall i | 0 <= i < |ts| :: now <= ts[i]
    decreases |calls|
  {
    if calls != [] {
      var Call(op, at) := calls[0];
      var first := Admitted(m, op, key, windowMs, max, at);
      var rest := AdmittedTimes(Lazy(m, op, at).entries, calls[1..], key, windowMs, max);
      TailInOrder(calls, now);
      AdmittedSorted(Lazy(m, op, at).entries, calls[1..], key, windowMs, max, at);
      var ts := first + rest;
      forall i | 0 <= i < |ts| ensures at <= ts[i] {}
      forall i, j | 0 <= i < j < |ts| ensures ts[i] <= ts[j] {
        if i >= |first| {
          assert ts[i] == rest[i - |first|] && ts[j] == rest[j - |first|];
        }
      }
    }
  }

  /** How many of the times fall into a closed interval. */
  function CountIn(times: seq<int>, from: int, to: int): nat {
    if times == [] then 0
    else CountIn(times[..|times| - 1], from, to) + if from <= times[|times| - 1] <= to then 1 else 0
  }

  lemma {:induction false} CountAtMost(times: seq<int>, from: int, to: int, n: nat)
    requires forall i | 0 <= i < |times| - n :: times[i] < from
    ensures CountIn(times, from, to) <= n
    decreases |times|
  {
    if times != [] {
      CountAtMost(times[..|times| - 1], from, to, if n > 0 then n - 1 else 0);
    }
  }

  lemma {:induction false} SpreadBounds(times: seq<int>, max: nat, windowMs: int, from: int)
    requires Spread(times, max, windowMs) && Sorted(times)
    ensures CountIn(times, from, from + windowMs) <= 2 * max
    decreases |times|
  {
    if times != [] {
      var n := |times| - 1;
      if times[n] <= from + windowMs {
        forall i | 0 <= i < |times| - 2 * max ensures times[i] < from {
          if i + 2 * max < |times| {
            assert times[i + 2 * max] <= times[n];
          }
        }
        CountAtMost(times, from, from + windowMs, 2 * max);
      } else {
        var init := times[..n];
        forall j | 0 <= j && j + 2 * max < |init| ensures init[j] + windowMs < init[j + 2 * max] {
          assert times[j] + windowMs < times[j + 2 * max];
        }
        SpreadBounds(init, max, windowMs, from);
      }
    }
  }

  /**
   * Whatever else the store is used for, whenever it is swept, and however requests
   * arrive, at most `2 * max` of them are admitted in any interval of one window length.
   */
  lemma AtMostTwiceMax(m: Entries, calls: seq<Call>, key: string, windowMs: int, max: nat, now: int, from: int)
    requires windowMs > 0 && max > 0 && GuardOnly(calls, key, windowMs) && InOrder(calls, now) && key !in m
    ensures CountIn(AdmittedTimes(m, calls, key, windowMs, max), from, from + windowMs) <= 2 * max
  {
    var l := Ledger([], [], [], now - 2 * windowMs, now - windowMs);
    assert l.All() == [];
    RunKeepsSpread(m, calls, key, windowMs, max, now, l);
    var times := AdmittedTimes(m, calls, key, windowMs, max);
    assert [] + times == times;
    AdmittedSorted(m, calls, key, windowMs, max, now);
    SpreadBounds(times, max, windowMs, from);
  }

  /** From the request that opens a window until the window ends, at most `max` are admitted. */
  lemma {:induction false} AtMostMaxPerWindow(
      m: Entries, calls: seq<Call>, key: string, windowMs: int, max: nat, start: int, n: nat)
    requires GuardOnly(calls, key, windowMs) && InOrder(calls, start)
    requires forall i | 0 <= i < |calls| :: calls[i].at < start + windowMs
    requires key in m && m[key] == Entry(Num(n), Some(start + windowMs))
    ensures |AdmittedTimes(m, calls, key, windowMs, max)| <= if n <= max then max - n else 0
    decreases |calls|
  {
    if calls != [] {
      var Call(op, at) := calls[0];
      var o := Lazy(m, op, at);
      var n' := if op == Increment(key, Some(windowMs)) then n + 1 else n;
      AtMostMaxPerWindow(o.entries, calls[1..], key, windowMs, max, start, n');
    }
  }

  class AuthIpThrottleGuard {
    const store: InMemorySharedStore
    const max: nat
    const windowMs: nat

    constructor (store: InMemorySharedStore, max: nat, ttlSeconds: nat)
      requires max > 0 && ttlSeconds > 0
      ensures this.store == store && this.max == max && windowMs == ttlSeconds * 1000
    {
      this.store, this.max, this.windowMs := store, max, ttlSeconds * 1000;
    }

    /** A refused request is counted too. */
    method CanActivate(tracker: string, now: int) returns (admitted: bool)
      modifies store
      ensures var o := Lazy(old(store.entries), Increment(CounterKey(tracker), Some(windowMs)), now);
              store.entries == o.entries && (admitted <==> Admits(o.reply, max))
      ensures var seen := View(old(store.entries), now);
              var key := "auth-ip:" + tracker;
              admitted <==> (if key in seen && seen[key].value.Num? then seen[key].value.n else 0) < max
    {
      LazyRefinesOnce(store.entries, store.entries, Increment(CounterKey(tracker), Some(windowMs)), now);
      var count := store.IncrementKey(CounterKey(tracker), Some(windowMs), now);
      return count <= max;
    }
  }
}
