/**
 * The in-process store behind the denylist, the rate limits and the MFA counters: a map
 * whose expired entries linger until a read or the periodic sweep removes them. It is
 * shown to answer exactly like a plain map from which every expired entry disappears at
 * the instant it expires.
 */
module SharedStore {
  import opened Options

  datatype Value = Num(n: int) | Text(s: string) | Flag(b: bool)

  datatype Entry = Entry(value: Value, expiresAt: Option<int>)

  type Entries = map<string, Entry>

  predicate Live(e: Entry, t: int) {
    e.expiresAt.None? || t < e.expiresAt.value
  }

  /** The entries a caller can still see at time `t`. */
  function View(m: Entries, t: int): (v: Entries)
    ensures forall k :: k in v <==> k in m && Live(m[k], t)
    ensures forall k | k in v :: v[k] == m[k]
  {
    map k | k in m && Live(m[k], t) :: m[k]
  }

  datatype Op =
    | Get(key: string)
    | Set(key: string, value: Value, ttlMs: Option<int>)
    | Delete(key: string)
    | Increment(key: string, ttlMs: Option<int>)
    | Sweep

  datatype Call = Call(op: Op, at: int)

  datatype Outcome = Outcome(entries: Entries, reply: Option<Value>)

  function Expiry(ttlMs: Option<int>, now: int): Option<int> {
    if ttlMs.None? then None else Some(now + ttlMs.value)
  }

  /** The counter entry after an increment of what is visible under the key. */
  function Counted(seen: Option<Entry>, ttlMs: Option<int>, now: int): Entry {
    var current := if seen.Some? && seen.value.value.Num? then seen.value.value.n else 0;
    var expiresAt := if seen.Some? && seen.value.expiresAt.Some? then seen.value.expiresAt else Expiry(ttlMs, now);
    Entry(Num(current + 1), expiresAt)
  }

  function Find(m: Entries, k: string): Option<Entry> {
    if k in m then Some(m[k]) else None
  }

  /** The reference: drop what has expired, then operate on a plain map. */
  function Reference(m: Entries, op: Op, now: int): Outcome {
    var v := View(m, now);
    match op
    case Get(k) => Outcome(v, if k in v then Some(v[k].value) else None)
    case Set(k, value, ttl) => Outcome(v[k := Entry(value, Expiry(ttl, now))], None)
    case Delete(k) => Outcome(v - {k}, None)
    case Increment(k, ttl) =>
      var e := Counted(Find(v, k), ttl, now);
      Outcome(v[k := e], Some(e.value))
    case Sweep => Outcome(v, None)
  }

  /** getEntry: an expired entry is removed when it is looked at, and only then. */
  function Look(m: Entries, k: string, now: int): Entries {
    if k in m && !Live(m[k], now) then m - {k} else m
  }

  /** The store itself. */
  function Lazy(m: Entries, op: Op, now: int): Outcome {
    match op
    case Get(k) =>
      var m' := Look(m, k, now);
      Outcome(m', if k in m' then Some(m'[k].value) else None)
    case Set(k, value, ttl) => Outcome(m[k := Entry(value, Expiry(ttl, now))], None)
    case Delete(k) => Outcome(m - {k}, None)
    case Increment(k, ttl) =>
      var m' := Look(m, k, now);
      var e := Counted(Find(m', k), ttl, now);
      Outcome(m'[k := e], Some(e.value))
    case Sweep => Outcome(View(m, now), None)
  }

  /** The answers of a sequence of calls. */
  function LazyReplies(m: Entries, calls: seq<Call>): seq<Option<Value>>
    decreases |calls|
  {
    if calls == [] then []
    else
      var o := Lazy(m, calls[0].op, calls[0].at);
      [o.reply] + LazyReplies(o.entries, calls[1..])
  }

  function ReferenceReplies(m: Entries, calls: seq<Call>): seq<Option<Value>>
    decreases |calls|
  {
    if calls == [] then []
    else
      var o := Reference(m, calls[0].op, calls[0].at);
      [o.reply] + ReferenceReplies(o.entries, calls[1..])
  }

  /** The clock never runs backwards. */
  ghost predicate InOrder(calls: seq<Call>, from: int) {
    && (forall i | 0 <= i < |calls| :: from <= calls[i].at)
    && (forall i, j | 0 <= i < j < |calls| :: calls[i].at <= calls[j].at)
  }

  lemma ViewsAgreeLater(m: Entries, r: Entries, t: int, t': int)
    requires View(m, t) == View(r, t) && t <= t'
    ensures View(m, t') == View(r, t')
  {
  }

  /** One operation: same answer, and the same entries remain visible. */
  lemma LazyRefinesOnce(m: Entries, r: Entries, op: Op, now: int)
    requires View(m, now) == View(r, now)
    ensures Lazy(m, op, now).reply == Reference(r, op, now).reply
    ensures View(Lazy(m, op, now).entries, now) == View(Reference(r, op, now).entries, now)
  {
    match op
    case Get(k) => LookHidesNothing(m, k, now);
    case Increment(k, ttl) => LookHidesNothing(m, k, now);
    case _ =>
  }

  lemma LookHidesNothing(m: Entries, k: string, now: int)
    ensures View(Look(m, k, now), now) == View(m, now)
    ensures Find(Look(m, k, now), k) == Find(View(m, now), k)
  {
  }

  /** For every sequence of operations the lazy store answers like the reference. */
  lemma {:induction false} LazyRefines(m: Entries, r: Entries, calls: seq<Call>, now: int)
    requires View(m, now) == View(r, now) && InOrder(calls, now)
    ensures LazyReplies(m, calls) == ReferenceReplies(r, calls)
    decreases |calls|
  {
    if calls != [] {
      var Call(op, at) := calls[0];
      ViewsAgreeLater(m, r, now, at);
      LazyRefinesOnce(m, r, op, at);
      LazyRefines(Lazy(m, op, at).entries, Reference(r, op, at).entries, calls[1..], at);
    }
  }

  /** The store over its mutable map. */
  class InMemorySharedStore {
    var entries: Entries

    constructor ()
      ensures entries == map[]
    {
      entries := map[];
    }

    method GetEntry(key: string, now: int) returns (entry: Option<Entry>)
      modifies this
      ensures entries == Look(old(entries), key, now)
      ensures entry == Find(View(old(entries), now), key)
      ensures entry == if key in old(entries) &&
                          (old(entries)[key].expiresAt.Some? ==> now < old(entries)[key].expiresAt.value)
                       then Some(old(entries)[key]) else None
      ensures entries == if entry.None? then old(entries) - {key} else old(entries)
    {
      if key !in entries {
        return None;
      }
      var found := entries[key];
      if found.expiresAt.Some? && found.expiresAt.value <= now {
        entries := entries - {key};
        return None;
      }
      return Some(found);
    }

    method GetValue(key: string, now: int) returns (value: Option<Value>)
      modifies this
      ensures entries == Lazy(old(entries), Get(key), now).entries
      ensures value == Reference(old(entries), Get(key), now).reply
      ensures value == if key in View(old(entries), now) then Some(old(entries)[key].value) else None
      ensures View(entries, now) == View(old(entries), now)
    {
      LookHidesNothing(entries, key, now);
      var entry := GetEntry(key, now);
      return if entry.Some? then Some(entry.value.value) else None;
    }

    /** The value hides whatever was under the key, for its lifetime; other keys are as before. */
    method SetValue(key: string, value: Value, ttlMs: Option<int>, now: int)
      modifies this
      ensures entries == Lazy(old(entries), Set(key, value, ttlMs), now).entries
      ensures forall t :: View(entries, t) ==
                            if ttlMs.None? || t < now + ttlMs.value
                            then View(old(entries), t)[key := Entry(value, Expiry(ttlMs, now))]
                            else View(old(entries), t) - {key}
    {
      entries := entries[key := Entry(value, if ttlMs.None? then None else Some(now + ttlMs.value))];
    }

    /** The key is gone at every later time; other keys are as before. */
    method DeleteKey(key: string)
      modifies this
      ensures forall now :: entries == Lazy(old(entries), Delete(key), now).entries
      ensures forall t :: View(entries, t) == View(old(entries), t) - {key}
    {
      entries := entries - {key};
    }

    method IncrementKey(key: string, ttlMs: Option<int>, now: int) returns (next: int)
      modifies this
      ensures entries == Lazy(old(entries), Increment(key, ttlMs), now).entries
      ensures Reference(old(entries), Increment(key, ttlMs), now).reply == Some(Num(next))
      ensures var seen := View(old(entries), now);
              && next == (if key in seen && seen[key].value.Num? then seen[key].value.n else 0) + 1
              && entries == old(entries)[key := Entry(
                   Num(next),
                   if key in seen && seen[key].expiresAt.Some? then seen[key].expiresAt
                   else if ttlMs.None? then None else Some(now + ttlMs.value))]
    {
      LookHidesNothing(entries, key, now);
      var entry := GetEntry(key, now);
      var current := if entry.Some? && entry.value.value.Num? then entry.value.value.n else 0;
      next := current + 1;
      var expiresAt := if entry.Some? && entry.value.expiresAt.Some? then entry.value.expiresAt
                       else if ttlMs.None? then None else Some(now + ttlMs.value);
      entries := entries[key := Entry(Num(next), expiresAt)];
    }

    /** The periodic sweep visits every entry once. */
    method SweepExpired(now: int)
      modifies this
      ensures entries == View(old(entries), now) == Lazy(old(entries), Sweep, now).entries
      ensures forall k :: k in entries <==>
                          k in old(entries) &&
                          (old(entries)[k].expiresAt.Some? ==> now < old(entries)[k].expiresAt.value)
    {
      var todo := entries.Keys;
      while todo != {}
        invariant todo <= entries.Keys <= old(entries).Keys
        invariant forall k | k in entries :: entries[k] == old(entries)[k]
        invariant forall k | k in old(entries) && k !in todo :: k in entries <==> Live(old(entries)[k], now)
        decreases |todo|
      {
        var key :| key in todo;
        todo := todo - {key};
        if entries[key].expiresAt.Some? && entries[key].expiresAt.value <= now {
          entries := entries - {key};
        }
      }
    }
  }
}
