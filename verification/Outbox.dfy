/**
 * The notification outbox: rows are claimed for delivery under a ten-minute lease,
 * retried with exponential backoff up to five times, and returned to the queue when a
 * worker dies. Several workers run at once; a worker in the middle of a delivery holds
 * the row it claimed together with the retry count it read.
 */
module Outbox {
  import opened Common
  import opened Options

  const LEASE_MS: int := 10 * 60_000
  const MAX_RETRIES := 5
  const BATCH_LIMIT := 50

  datatype Channel = Zns | Sms | Email | InApp

  datatype Status = Queued | Sending | Sent | Failed

  /** `failures` lists when each delivery failed; it is history, not a column. */
  datatype Row = Row(
    channel: Channel,
    status: Status,
    retries: nat,
    claimedAt: Option<int>,
    nextAttemptAt: Option<int>,
    createdAt: int,
    deliveredVia: Option<Channel>,
    failures: seq<int>)

  datatype Hold = Hold(row: nat, retries: nat, at: int)

  datatype State = State(rows: seq<Row>, workers: map<nat, Hold>, now: int)

  datatype Step =
    | Tick(ms: nat)
    | Enqueue(channel: Channel)
    | EnqueueInApp
    | Recover(lag: nat)
    | Claim(worker: nat, row: nat)
    | Deliver(worker: nat, via: Channel)
    | Fail(worker: nat)
    | Crash(worker: nat)

  function BackoffMs(retries: nat): nat {
    30_000 * Pow2(retries)
  }

  predicate Stale(r: Row, before: int) {
    r.status == Sending &&
    if r.claimedAt.Some? then r.claimedAt.value < before else r.createdAt < before
  }

  function Requeued(r: Row, before: int): Row {
    if Stale(r, before) then r.(status := Queued, claimedAt := None) else r
  }

  function RecoverAll(rows: seq<Row>, before: int): (r: seq<Row>)
    ensures |r| == |rows|
    ensures forall i | 0 <= i < |rows| :: r[i] == Requeued(rows[i], before)
  {
    seq(|rows|, i requires 0 <= i < |rows| => Requeued(rows[i], before))
  }

  predicate Eligible(r: Row, now: int) {
    r.status == Queued && (r.nextAttemptAt == None || r.nextAttemptAt.value <= now)
  }

  /** The row after a delivery; no condition on its current status is checked. */
  function Delivered(r: Row, via: Channel): Row {
    r.(status := Sent, claimedAt := None, nextAttemptAt := None, deliveredVia := Some(via))
  }

  /** The row after a failure, counted from the retries the worker read at its claim. */
  function FailedOnce(r: Row, seenRetries: nat, now: int): Row {
    var retries := seenRetries + 1;
    var exhausted := retries >= MAX_RETRIES;
    r.(status := if exhausted then Failed else Queued,
       retries := retries,
       claimedAt := None,
       nextAttemptAt := if exhausted then None else Some(now + BackoffMs(retries - 1)),
       failures := r.failures + [now])
  }

  predicate Holding(st: State, w: nat) {
    w in st.workers && st.workers[w].row < |st.rows|
  }

  /** A row as it is enqueued; an in-app row counts as sent from its insert. */
  function NewRow(channel: Channel, status: Status, now: int): Row {
    Row(channel, status, 0, None, None, now, None, [])
  }

  function Apply(st: State, step: Step): State {
    match step
    case Tick(ms) => st.(now := st.now + ms)
    case Enqueue(channel) => st.(rows := st.rows + [NewRow(channel, Queued, st.now)])
    case EnqueueInApp => st.(rows := st.rows + [NewRow(InApp, Sent, st.now)])
    case Recover(lag) => st.(rows := RecoverAll(st.rows, st.now - lag - LEASE_MS))
    case Claim(w, i) =>
      if w !in st.workers && i < |st.rows| && Eligible(st.rows[i], st.now)
      then st.(rows := st.rows[i := st.rows[i].(status := Sending, claimedAt := Some(st.now))],
               workers := st.workers[w := Hold(i, st.rows[i].retries, st.now)])
      else st
    case Deliver(w, via) =>
      if Holding(st, w)
      then var i := st.workers[w].row;
           st.(rows := st.rows[i := Delivered(st.rows[i], via)], workers := st.workers - {w})
      else st
    case Fail(w) =>
      if Holding(st, w)
      then var i := st.workers[w].row;
           st.(rows := st.rows[i := FailedOnce(st.rows[i], st.workers[w].retries, st.now)], workers := st.workers - {w})
      else st
    case Crash(w) => st.(workers := st.workers - {w})
  }

  function Run(st: State, steps: seq<Step>): State
    decreases |steps|
  {
    if steps == [] then st else Run(Apply(st, steps[0]), steps[1..])
  }

  ghost predicate Init(st: State) {
    st.rows == [] && st.workers == map[]
  }

  /** Every outcome of the run is written at most `d` ms after its claim. */
  ghost predicate Timely(st: State, steps: seq<Step>, d: int)
    decreases |steps|
  {
    steps == [] ||
    (&& ((steps[0].Deliver? || steps[0].Fail?) && Holding(st, steps[0].worker) ==>
           st.now <= st.workers[steps[0].worker].at + d)
     && Timely(Apply(st, steps[0]), steps[1..], d))
  }

  // --------------------------------------------------- what holds in every run

  ghost predicate Bounded(st: State) {
    && (forall i | 0 <= i < |st.rows| ::
          && (st.rows[i].status == Queued || st.rows[i].status == Sending ==> st.rows[i].retries < MAX_RETRIES)
          && (st.rows[i].status == Failed ==> st.rows[i].retries == MAX_RETRIES)
          && st.rows[i].retries <= MAX_RETRIES)
    && (forall w | w in st.workers :: st.workers[w].retries < MAX_RETRIES)
  }

  /** Late or not, every run keeps the retry cap. */
  lemma {:induction false} RetriesBounded(st: State, steps: seq<Step>)
    requires Bounded(st)
    ensures Bounded(Run(st, steps))
    decreases |steps|
  {
    if steps != [] {
      RetriesBounded(Apply(st, steps[0]), steps[1..]);
    }
  }

  // ------------------------------------------------- what holds under the lease

  predicate Leased(st: State, w: nat) {
    w in st.workers && st.now <= st.workers[w].at + LEASE_MS
  }

  /** The backoff schedule as the failures show it. */
  ghost predicate Spaced(fs: seq<int>) {
    forall i | 0 <= i && i + 1 < |fs| :: fs[i] + BackoffMs(i) <= fs[i + 1]
  }

  ghost predicate RowOk(r: Row, now: int) {
    && |r.failures| == r.retries <= MAX_RETRIES
    && (r.status == Failed <==> r.retries == MAX_RETRIES)
    && Spaced(r.failures)
    && (r.retries > 0 && (r.status == Queued || r.status == Sending) ==>
          r.nextAttemptAt == Some(r.failures[r.retries - 1] + BackoffMs(r.retries - 1)))
    && (r.status == Sending ==> r.claimedAt.Some? && r.claimedAt.value <= now)
    && (r.status == Sending && r.retries > 0 ==> r.nextAttemptAt.value <= r.claimedAt.value)
  }

  /** A worker within its lease has the row to itself, as it read it. */
  ghost predicate HoldOk(st: State, h: Hold) {
    && h.row < |st.rows|
    && h.at <= st.now
    && (st.now <= h.at + LEASE_MS ==>
          var r := st.rows[h.row];
          r.status == Sending && r.claimedAt == Some(h.at) && r.retries == h.retries)
  }

  ghost predicate Separate(st: State) {
    forall v, w | Leased(st, v) && Leased(st, w) && v != w :: st.workers[v].row != st.workers[w].row
  }

  ghost predicate Inv(st: State) {
    && (forall i | 0 <= i < |st.rows| :: RowOk(st.rows[i], st.now))
    && (forall w | w in st.workers :: HoldOk(st, st.workers[w]))
    && Separate(st)
  }

  lemma RowChangeKeepsInv(st: State, st': State, w: nat, r: Row)
    requires Inv(st) && Leased(st, w)
    requires st' == st.(rows := st.rows[st.workers[w].row := r], workers := st.workers - {w})
    requires RowOk(r, st.now)
    ensures Inv(st')
  {
  }

  lemma ClaimKeepsInv(st: State, w: nat, i: nat)
    requires Inv(st)
    ensures Inv(Apply(st, Claim(w, i)))
  {
  }

  lemma FailureKeepsRowOk(r: Row, now: int)
    requires RowOk(r, now) && r.status == Sending && r.retries < MAX_RETRIES
    ensures RowOk(FailedOnce(r, r.retries, now), now)
  {
  }

  lemma TimePasses(st: State, ms: nat)
    requires Inv(st)
    ensures Inv(Apply(st, Tick(ms)))
  {
  }

  lemma RecoverKeepsInv(st: State, lag: nat)
    requires Inv(st)
    ensures Inv(Apply(st, Recover(lag)))
  {
    var st' := Apply(st, Recover(lag));
    forall i | 0 <= i < |st'.rows| ensures RowOk(st'.rows[i], st'.now) {
      assert RowOk(st.rows[i], st.now);
    }
    forall w | w in st'.workers ensures HoldOk(st', st'.workers[w]) {
      assert HoldOk(st, st.workers[w]);
    }
    forall v, w | Leased(st', v) && Leased(st', w) && v != w ensures st'.workers[v].row != st'.workers[w].row {
      assert Leased(st, v) && Leased(st, w);
    }
  }

  lemma OtherKeepsInv(st: State, step: Step)
    requires Inv(st) && (step.Enqueue? || step.EnqueueInApp? || step.Crash?)
    ensures Inv(Apply(st, step))
  {
  }

  lemma StepKeepsInv(st: State, step: Step)
    requires Inv(st) && Timely(st, [step], LEASE_MS)
    ensures Inv(Apply(st, step))
  {
    match step
    case Tick(ms) => TimePasses(st, ms);
    case Recover(lag) => RecoverKeepsInv(st, lag);
    case Claim(w, i) => ClaimKeepsInv(st, w, i);
    case Deliver(w, via) =>
      if Holding(st, w) {
        var i := st.workers[w].row;
        assert HoldOk(st, st.workers[w]) && RowOk(st.rows[i], st.now);
        RowChangeKeepsInv(st, Apply(st, step), w, Delivered(st.rows[i], via));
      }
    case Fail(w) =>
      if Holding(st, w) {
        var i := st.workers[w].row;
        assert HoldOk(st, st.workers[w]) && RowOk(st.rows[i], st.now);
        FailureKeepsRowOk(st.rows[i], st.now);
        RowChangeKeepsInv(st, Apply(st, step), w, FailedOnce(st.rows[i], st.workers[w].retries, st.now));
      }
    case _ => OtherKeepsInv(st, step);
  }

  lemma {:induction false} RunKeepsInv(st: State, steps: seq<Step>)
    requires Inv(st) && Timely(st, steps, LEASE_MS)
    ensures Inv(Run(st, steps))
    decreases |steps|
  {
    if steps != [] {
      assert [steps[0]][1..] == [];
      StepKeepsInv(st, steps[0]);
      RunKeepsInv(Apply(st, steps[0]), steps[1..]);
    }
  }

  /** With timely outcomes no row is ever held by two workers within their leases. */
  lemma NoRowHeldTwice(init: State, steps: seq<Step>, v: nat, w: nat)
    requires Init(init) && Timely(init, steps, LEASE_MS)
    requires Leased(Run(init, steps), v) && Leased(Run(init, steps), w) && v != w
    ensures Run(init, steps).workers[v].row != Run(init, steps).workers[w].row
  {
    RunKeepsInv(init, steps);
  }

  /** With timely outcomes a row is FAILED exactly when its fifth delivery has failed. */
  lemma FailedIffExhausted(init: State, steps: seq<Step>, i: nat)
    requires Init(init) && Timely(init, steps, LEASE_MS) && i < |Run(init, steps).rows|
    ensures var r := Run(init, steps).rows[i];
            && |r.failures| == r.retries
            && (r.status == Failed <==> r.retries == MAX_RETRIES)
            && (r.status == Queued || r.status == Sending ==> r.retries < MAX_RETRIES)
  {
    RunKeepsInv(init, steps);
    assert RowOk(Run(init, steps).rows[i], Run(init, steps).now);
  }

  /** Each recorded failure raises the retries of its row by exactly one. */
  lemma FailureCountsOnce(init: State, steps: seq<Step>, w: nat)
    requires Init(init) && Timely(init, steps + [Fail(w)], LEASE_MS)
    requires Holding(Run(init, steps), w)
    ensures var st := Run(init, steps);
            var i := st.workers[w].row;
            Apply(st, Fail(w)).rows[i].retries == st.rows[i].retries + 1
  {
    TimelySplits(init, steps, [Fail(w)], LEASE_MS);
    RunKeepsInv(init, steps);
    assert HoldOk(Run(init, steps), Run(init, steps).workers[w]);
  }

  /** A later attempt is claimed no earlier than its backoff; the fifth, 450 s after the first failure. */
  lemma AttemptsAreSpaced(init: State, steps: seq<Step>, w: nat, i: nat)
    requires Init(init) && Timely(init, steps, LEASE_MS)
    requires var st := Run(init, steps); w !in st.workers && i < |st.rows| && Eligible(st.rows[i], st.now)
    ensures var st := Run(init, steps);
            var fs := st.rows[i].failures;
            && Spaced(fs) && |fs| < MAX_RETRIES
            && (fs != [] ==> fs[|fs| - 1] + BackoffMs(|fs| - 1) <= st.now)
            && (|fs| == 4 ==> fs[0] + 450_000 <= st.now)
  {
    RunKeepsInv(init, steps);
    var st := Run(init, steps);
    assert RowOk(st.rows[i], st.now);
    var fs := st.rows[i].failures;
    if |fs| == 4 {
      assert BackoffMs(0) == 30_000 && BackoffMs(1) == 60_000;
      assert Pow2(2) == 4 && Pow2(3) == 8;
      assert fs[0] + BackoffMs(0) <= fs[1] && fs[1] + BackoffMs(1) <= fs[2] && fs[2] + BackoffMs(2) <= fs[3];
    }
  }

  // -------------------------------------------------------- outcomes are final

  ghost predicate Final(r: Row) {
    r.status == Sent || r.status == Failed
  }

  lemma StepKeepsFinal(st: State, step: Step, i: nat)
    requires Inv(st) && Timely(st, [step], LEASE_MS) && i < |st.rows| && Final(st.rows[i])
    ensures i < |Apply(st, step).rows| && Apply(st, step).rows[i] == st.rows[i]
  {
  }

  lemma {:induction false} RunKeepsFinal(st: State, steps: seq<Step>, i: nat)
    requires Inv(st) && Timely(st, steps, LEASE_MS) && i < |st.rows| && Final(st.rows[i])
    ensures i < |Run(st, steps).rows| && Run(st, steps).rows[i] == st.rows[i]
    decreases |steps|
  {
    if steps != [] {
      assert [steps[0]][1..] == [];
      StepKeepsInv(st, steps[0]);
      StepKeepsFinal(st, steps[0], i);
      RunKeepsFinal(Apply(st, steps[0]), steps[1..], i);
    }
  }

  /** In a run whose outcomes come within `d`, a row that is SENT or FAILED stays as it is. */
  ghost predicate OutcomesFinal(d: int) {
    forall init, before, after, i: nat |
        Init(init) && Timely(init, before, d) && Timely(Run(init, before), after, d) &&
        i < |Run(init, before).rows| && Final(Run(init, before).rows[i]) ::
      i < |Run(Run(init, before), after).rows| && Run(Run(init, before), after).rows[i] == Run(init, before).rows[i]
  }

  lemma {:induction false} TimelyIsMonotone(st: State, steps: seq<Step>, d: int, d': int)
    requires Timely(st, steps, d) && d <= d'
    ensures Timely(st, steps, d')
    decreases |steps|
  {
    if steps != [] {
      TimelyIsMonotone(Apply(st, steps[0]), steps[1..], d, d');
    }
  }

  lemma {:induction false} TimelySplits(st: State, a: seq<Step>, b: seq<Step>, d: int)
    ensures Run(st, a + b) == Run(Run(st, a), b)
    ensures Timely(st, a + b, d) <==> Timely(st, a, d) && Timely(Run(st, a), b, d)
    decreases |a|
  {
    if a == [] {
      assert a + b == b;
    } else {
      assert (a + b)[1..] == a[1..] + b;
      TimelySplits(Apply(st, a[0]), a[1..], b, d);
    }
  }

  ghost predicate OnTime(st: State, step: Step, d: int) {
    (step.Deliver? || step.Fail?) && Holding(st, step.worker) ==> st.now <= st.workers[step.worker].at + d
  }

  function LateRun(): seq<Step> {
    [Enqueue(Sms), Claim(1, 0), Tick(LEASE_MS + 1)] + [Recover(0), Claim(2, 0), Deliver(2, Sms)]
  }

  /** A worker one millisecond past its lease overwrites a delivery recorded in the meantime. */
  lemma LateOutcomeUndoesDelivery(init: State)
    requires Init(init)
    ensures var st := Run(init, LateRun());
            && Timely(init, LateRun(), LEASE_MS + 1) && Timely(st, [Fail(1)], LEASE_MS + 1)
            && |st.rows| == 1 && st.rows[0].status == Sent
            && |Run(st, [Fail(1)]).rows| == 1 && Run(st, [Fail(1)]).rows[0].status == Queued
  {
  }

  /** SENT and FAILED are final exactly when outcomes are written within the ten-minute lease. */
  lemma OutcomesFinalIffTimely(d: int)
    ensures OutcomesFinal(d) <==> d <= LEASE_MS
  {
    if d <= LEASE_MS {
      forall init, before, after, i: nat |
          Init(init) && Timely(init, before, d) && Timely(Run(init, before), after, d) &&
          i < |Run(init, before).rows| && Final(Run(init, before).rows[i])
        ensures i < |Run(Run(init, before), after).rows| &&
                Run(Run(init, before), after).rows[i] == Run(init, before).rows[i]
      {
        TimelyIsMonotone(init, before, d, LEASE_MS);
        TimelyIsMonotone(Run(init, before), after, d, LEASE_MS);
        RunKeepsInv(init, before);
        RunKeepsFinal(Run(init, before), after, i);
      }
    } else {
      var init := State([], map[], 0);
      var before := LateRun();
      LateOutcomeUndoesDelivery(init);
      TimelyIsMonotone(init, before, LEASE_MS + 1, d);
      TimelyIsMonotone(Run(init, before), [Fail(1)], LEASE_MS + 1, d);
      assert Final(Run(init, before).rows[0]);
    }
  }
}
