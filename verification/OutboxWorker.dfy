/** The outbox worker over mutable rows: one pass recovers, then claims and delivers up to 50 rows. */
module OutboxWorker {
  import opened Options
  import opened Outbox

  /** What one provider call came to. */
  datatype SendResult = Ok | Error | Unconfigured

  /** The fallback chain; an in-app row would be mailed, but none is ever queued. */
  function ChannelChain(c: Channel): (chain: seq<Channel>)
    ensures 1 <= |chain| <= 3 && chain[|chain| - 1] == Email
    ensures (|chain| > 1 ==> chain[|chain| - 2] == Sms) && (|chain| > 2 ==> chain[|chain| - 3] == Zns)
    ensures if c == InApp then chain == [Email] else chain[0] == c
  {
    match c
    case Zns => [Zns, Sms, Email]
    case Sms => [Sms, Email]
    case _ => [Email]
  }

  /** What each channel answers to the message of each turn. */
  type Senders = (nat, Channel) -> SendResult

  /** The k-th link is the first configured one. */
  ghost predicate FirstConfigured(chain: seq<Channel>, send: Senders, turn: nat, k: nat) {
    && k < |chain| && send(turn, chain[k]) != Unconfigured
    && forall j | 0 <= j < k :: send(turn, chain[j]) == Unconfigured
  }

  /** The oldest claimable row, if any: rows are kept in the order of their creation. */
  function FirstEligible(rows: seq<Row>, now: int, from: nat): (r: Option<nat>)
    requires from <= |rows|
    ensures r.Some? ==> from <= r.value < |rows| && Eligible(rows[r.value], now)
    ensures r.Some? ==> forall i | from <= i < r.value :: !Eligible(rows[i], now)
    ensures r.None? ==> forall i | from <= i < |rows| :: !Eligible(rows[i], now)
    decreases |rows| - from
  {
    if from == |rows| then None
    else if Eligible(rows[from], now) then Some(from)
    else FirstEligible(rows, now, from + 1)
  }

  /** Walk the chain past unconfigured links; the first configured one decides alone. */
  method SendAlong(channel: Channel, send: Senders, turn: nat) returns (via: Option<Channel>)
    ensures forall k: nat | FirstConfigured(ChannelChain(channel), send, turn, k) ::
              via == if send(turn, ChannelChain(channel)[k]) == Ok then Some(ChannelChain(channel)[k]) else None
    ensures (forall j | 0 <= j < |ChannelChain(channel)| :: send(turn, ChannelChain(channel)[j]) == Unconfigured) ==>
              via == None
  {
    var chain := ChannelChain(channel);
    var i := 0;
    while i < |chain|
      invariant i <= |chain|
      invariant forall j | 0 <= j < i :: send(turn, chain[j]) == Unconfigured
    {
      var result := send(turn, chain[i]);
      if result == Ok {
        return Some(chain[i]);
      }
      if result != Unconfigured {
        return None;
      }
      i := i + 1;
    }
    return None;
  }

  /** What a turn on a row of the channel records: the answer of its first configured channel. */
  ghost predicate Fits(outcome: Step, w: nat, channel: Channel, send: Senders, turn: nat) {
    var chain := ChannelChain(channel);
    && (forall k: nat | FirstConfigured(chain, send, turn, k) ::
          outcome == if send(turn, chain[k]) == Ok then Deliver(w, chain[k]) else Fail(w))
    && ((forall j | 0 <= j < |chain| :: send(turn, chain[j]) == Unconfigured) ==> outcome == Fail(w))
  }

  predicate IsOutcome(step: Step, w: nat) {
    (step.Deliver? || step.Fail?) && step.worker == w
  }

  /** The state after a claim, a wait and an outcome. */
  function AfterDelivery(st: State, w: nat, i: nat, ms: nat, outcome: Step): State {
    Apply(Apply(Apply(st, Claim(w, i)), Tick(ms)), outcome)
  }

  class NotificationOutbox {
    var rows: seq<Row>
    var workers: map<nat, Hold>
    var now: int
    var stopping: bool

    function Rows(): State
      reads this
    {
      State(rows, workers, now)
    }

    constructor (clock: int)
      ensures Init(Rows()) && now == clock && !stopping
    {
      rows, workers, now, stopping := [], map[], clock, false;
    }

    method EnqueueRow(channel: Channel) returns (id: nat)
      modifies this`rows
      ensures Rows() == Apply(old(Rows()), Enqueue(channel)) && id == |old(rows)|
      ensures rows == old(rows) + [Row(channel, Queued, 0, None, None, now, None, [])]
    {
      id := |rows|;
      rows := rows + [NewRow(channel, Queued, now)];
    }

    method EnqueueInAppRow() returns (id: nat)
      modifies this`rows
      ensures Rows() == Apply(old(Rows()), EnqueueInApp) && id == |old(rows)|
      ensures rows == old(rows) + [Row(InApp, Sent, 0, None, None, now, None, [])]
    {
      id := |rows|;
      rows := rows + [NewRow(InApp, Sent, now)];
    }

    /** Rows whose lease ran out go back to the queue. */
    method RecoverStale()
      modifies this`rows
      ensures Rows() == Apply(old(Rows()), Recover(0))
      ensures |rows| == |old(rows)|
      ensures forall i | 0 <= i < |rows| ::
                var row := old(rows)[i];
                var since := if row.claimedAt.Some? then row.claimedAt.value else row.createdAt;
                rows[i] == if row.status == Sending && since + 600_000 < now
                           then row.(status := Queued, claimedAt := None) else row
    {
      var staleSendingBefore := now - LEASE_MS;
      rows := RecoverAll(rows, staleSendingBefore);
    }

    /** One claim transaction: the oldest eligible row moves to SENDING. */
    method ClaimNext(w: nat) returns (row: Option<nat>)
      requires w !in workers
      modifies this`rows, this`workers
      ensures row.None? ==> Rows() == old(Rows())
      ensures forall i | 0 <= i < |old(rows)| && (row.Some? ==> i < row.value) ::
                !(old(rows)[i].status == Queued &&
                  (old(rows)[i].nextAttemptAt.Some? ==> old(rows)[i].nextAttemptAt.value <= now))
      ensures row.Some? ==>
                && row.value < |old(rows)| && Eligible(old(rows)[row.value], now)
                && Rows() == Apply(old(Rows()), Claim(w, row.value)) && Holding(Rows(), w)
                && rows == old(rows)[row.value := old(rows)[row.value].(status := Sending, claimedAt := Some(now))]
                && workers == old(workers)[w := Hold(row.value, rows[row.value].retries, now)]
    {
      var candidate := FirstEligible(rows, now, 0);
      if candidate.None? {
        return None;
      }
      var i := candidate.value;
      rows := rows[i := rows[i].(status := Sending, claimedAt := Some(now))];
      workers := workers[w := Hold(i, rows[i].retries, now)];
      return Some(i);
    }

    /**
     * The lease is given up and the row is final, whatever its status was; within the lease the
     * invariant of timely runs is kept.
     */
    method RecordSent(w: nat, via: Channel)
      requires Holding(Rows(), w)
      modifies this`rows, this`workers
      ensures Rows() == Apply(old(Rows()), Deliver(w, via))
      ensures var i := old(workers)[w].row;
              && Final(rows[i]) && workers == old(workers) - {w}
              && rows == old(rows)[i := old(rows)[i].(
                   status := Sent, claimedAt := None, nextAttemptAt := None, deliveredVia := Some(via))]
      ensures old(Inv(Rows()) && OnTime(Rows(), Deliver(w, via), LEASE_MS)) ==> Inv(Rows())
    {
      if Inv(Rows()) && OnTime(Rows(), Deliver(w, via), LEASE_MS) {
        OnTimeKeepsInv(Rows(), Deliver(w, via));
      }
      var i := workers[w].row;
      rows := rows[i := rows[i].(status := Sent, claimedAt := None, nextAttemptAt := None, deliveredVia := Some(via))];
      workers := workers - {w};
    }

    /**
     * Late or not, the retry cap is kept. Within the lease the failure counts once more than
     * the row says, and the row is FAILED exactly at the fifth and otherwise not due again
     * before its backoff is over.
     */
    method RecordFailure(w: nat)
      requires Holding(Rows(), w)
      modifies this`rows, this`workers
      ensures Rows() == Apply(old(Rows()), Fail(w)) && workers == old(workers) - {w}
      ensures var Hold(i, seen, _) := old(workers)[w];
              var wait := if seen == 0 then 30 else if seen == 1 then 60 else if seen == 2 then 120 else 240;
              rows == old(rows)[i := old(rows)[i].(
                status := if seen >= 4 then Failed else Queued, retries := seen + 1, claimedAt := None,
                nextAttemptAt := if seen >= 4 then None else Some(now + 1000 * wait),
                failures := old(rows)[i].failures + [now])]
      ensures old(Bounded(Rows())) ==> Bounded(Rows())
      ensures old(Inv(Rows()) && OnTime(Rows(), Fail(w), LEASE_MS)) ==>
                var i := old(workers)[w].row;
                && Inv(Rows()) && rows[i].retries == old(rows)[i].retries + 1
                && (rows[i].status == Failed <==> rows[i].retries == MAX_RETRIES)
                && forall t | t < now + BackoffMs(old(rows)[i].retries) :: !Eligible(rows[i], t)
    {
      if Inv(Rows()) && OnTime(Rows(), Fail(w), LEASE_MS) {
        OnTimeKeepsInv(Rows(), Fail(w));
      }
      Backoffs();
      if Bounded(Rows()) {
        assert [Fail(w)][1..] == [];
        RetriesBounded(Rows(), [Fail(w)]);
      }
      var i := workers[w].row;
      var retries := workers[w].retries + 1;
      var exhausted := retries >= MAX_RETRIES;
      rows := rows[i := rows[i].(
          status := if exhausted then Failed else Queued,
          retries := retries,
          claimedAt := None,
          nextAttemptAt := if exhausted then None else Some(now + BackoffMs(retries - 1)),
          failures := rows[i].failures + [now])];
      workers := workers - {w};
    }

    /** deliver: send along the channel chain of the claimed row, then record what came of it. */
    method DeliverRow(w: nat, send: Senders, turn: nat, ms: nat) returns (ghost outcome: Step)
      requires Holding(Rows(), w)
      modifies this`rows, this`workers, this`now
      ensures IsOutcome(outcome, w) && Fits(outcome, w, old(rows)[old(workers)[w].row].channel, send, turn)
      ensures Rows() == Apply(Apply(old(Rows()), Tick(ms)), outcome) && workers == old(workers) - {w}
    {
      var via := SendAlong(rows[workers[w].row].channel, send, turn);
      now := now + ms;
      if via.Some? {
        outcome := Deliver(w, via.value);
        RecordSent(w, via.value);
      } else {
        outcome := Fail(w);
        RecordFailure(w);
      }
    }

    /** One turn of the pass: claim the oldest due row, if any, and deliver it. */
    method Attempt(w: nat, send: Senders, turn: nat, ms: nat) returns (row: Option<nat>, ghost outcome: Step)
      requires w !in workers
      modifies this`rows, this`workers, this`now
      ensures row.None? ==> Rows() == old(Rows()) && forall i | 0 <= i < |rows| :: !Eligible(rows[i], now)
      ensures row.Some? ==> row.value < |old(rows)| && Eligible(old(rows)[row.value], old(now))
      ensures row.Some? ==> Fits(outcome, w, old(rows)[row.value].channel, send, turn)
      ensures row.Some? ==> IsOutcome(outcome, w) && Rows() == AfterDelivery(old(Rows()), w, row.value, ms, outcome)
      ensures workers == old(workers)
    {
      row := ClaimNext(w);
      if row.Some? {
        outcome := DeliverRow(w, send, turn, ms);
      } else {
        outcome := Crash(w);
      }
    }

    /**
     * One pass of one worker with no failure of the process itself; the k-th delivery takes
     * `delay(k)` milliseconds from claim to outcome. The pass is a run of protocol steps, and
     * a timely one exactly when no delivery outlasts the lease. It takes at most fifty rows
     * and otherwise leaves none that could be claimed.
     */
    method ProcessBatch(w: nat, send: Senders, delay: nat -> nat) returns (taken: nat, ghost turns: seq<Turn>)
      requires w !in workers
      modifies this`rows, this`workers, this`now
      ensures taken == |turns| <= 50 && IsPass(old(Rows()), Rows(), turns, w, send, delay)
      ensures taken == 50 || stopping || forall i | 0 <= i < |rows| :: !Eligible(rows[i], now)
    {
      ghost var init := Rows();
      taken, turns := 0, [];
      RecoverStale();
      PassStarts(init, w, send, delay);
      while taken < BATCH_LIMIT && !stopping
        invariant taken == |turns| <= BATCH_LIMIT && IsPass(init, Rows(), turns, w, send, delay)
        invariant w !in workers
      {
        ghost var before := Rows();
        var row, outcome := Attempt(w, send, taken, delay(taken));
        if row.None? {
          break;
        }
        PassExtends(init, before, turns, w, send, delay, Turn(row.value, outcome));
        turns := turns + [Turn(row.value, outcome)];
        taken := taken + 1;
      }
    }
  }

  /**
   * A pass that took the rows of `turns`: a run of claims, waits and outcomes in which every row
   * is recorded as its first configured channel answered, which gives up every lease, and which
   * is timely exactly if no wait outlasts the lease.
   */
  ghost predicate IsPass(init: State, st: State, turns: seq<Turn>, w: nat, send: Senders, delay: nat -> nat) {
    && st == Run(init, StepsOf(turns, w, delay)) && st.workers == init.workers && SameChannels(init.rows, st.rows)
    && AllFit(turns, w, init.rows, send)
    && (Timely(init, StepsOf(turns, w, delay), LEASE_MS) <==> Within(delay, |turns|))
  }

  /** The first `n` deliveries take at most ten minutes each. */
  ghost predicate Within(delay: nat -> nat, n: nat) {
    forall k: nat | k < n :: delay(k) <= 600_000
  }

  lemma WithinExtends(delay: nat -> nat, n: nat)
    ensures Within(delay, n + 1) <==> Within(delay, n) && delay(n) <= LEASE_MS
  {
  }

  ghost predicate AllFit(turns: seq<Turn>, w: nat, rows: seq<Row>, send: Senders) {
    forall k | 0 <= k < |turns| ::
      turns[k].row < |rows| && Fits(turns[k].outcome, w, rows[turns[k].row].channel, send, k)
  }

  lemma AllFitExtends(turns: seq<Turn>, w: nat, rows: seq<Row>, send: Senders, turn: Turn)
    requires AllFit(turns, w, rows, send)
    requires turn.row < |rows| && Fits(turn.outcome, w, rows[turn.row].channel, send, |turns|)
    ensures AllFit(turns + [turn], w, rows, send)
  {
  }

  lemma PassStarts(init: State, w: nat, send: Senders, delay: nat -> nat)
    ensures IsPass(init, Apply(init, Recover(0)), [], w, send, delay)
  {
    assert [Recover(0)][1..] == [];
    assert Run(init, [Recover(0)]) == Apply(init, Recover(0));
  }

  lemma PassExtends(init: State, st: State, turns: seq<Turn>, w: nat, send: Senders, delay: nat -> nat, turn: Turn)
    requires IsPass(init, st, turns, w, send, delay) && w !in st.workers
    requires turn.row < |st.rows| && Eligible(st.rows[turn.row], st.now)
    requires IsOutcome(turn.outcome, w) && Fits(turn.outcome, w, st.rows[turn.row].channel, send, |turns|)
    ensures var st' := AfterDelivery(st, w, turn.row, delay(|turns|), turn.outcome);
            IsPass(init, st', turns + [turn], w, send, delay)
  {
    AddTurn(init, turns, w, delay, turn);
    KeepsChannels(st, w, turn.row, delay(|turns|), turn.outcome);
    LeaseIsGivenUp(st, w, turn.row, delay(|turns|), turn.outcome);
    AllFitExtends(turns, w, init.rows, send, turn);
    WithinExtends(delay, |turns|);
  }

  lemma LeaseIsGivenUp(st: State, w: nat, i: nat, ms: nat, outcome: Step)
    requires w !in st.workers && i < |st.rows| && Eligible(st.rows[i], st.now) && IsOutcome(outcome, w)
    ensures AfterDelivery(st, w, i, ms, outcome).workers == st.workers
  {
    assert st.workers[w := Hold(i, st.rows[i].retries, st.now)] - {w} == st.workers;
  }

  /** A row a pass took, and what it recorded of it. */
  datatype Turn = Turn(row: nat, outcome: Step)

  /** The steps of a pass: a recovery, then per turn a claim, a wait and an outcome. */
  ghost function StepsOf(turns: seq<Turn>, w: nat, delay: nat -> nat): seq<Step> {
    if turns == [] then [Recover(0)]
    else
      var k := |turns| - 1;
      StepsOf(turns[..k], w, delay) + [Claim(w, turns[k].row), Tick(delay(k)), turns[k].outcome]
  }

  lemma AddTurn(init: State, turns: seq<Turn>, w: nat, delay: nat -> nat, turn: Turn)
    requires IsOutcome(turn.outcome, w)
    requires var st := Run(init, StepsOf(turns, w, delay));
             w !in st.workers && turn.row < |st.rows| && Eligible(st.rows[turn.row], st.now)
    ensures var steps, more := StepsOf(turns, w, delay), StepsOf(turns + [turn], w, delay);
            && Run(init, more) == AfterDelivery(Run(init, steps), w, turn.row, delay(|turns|), turn.outcome)
            && (Timely(init, more, LEASE_MS) <==> Timely(init, steps, LEASE_MS) && delay(|turns|) <= LEASE_MS)
  {
    assert (turns + [turn])[..|turns|] == turns;
    ExtendByDelivery(init, StepsOf(turns, w, delay), w, turn.row, delay(|turns|), turn.outcome);
  }

  /** A row's channel is fixed when it is enqueued. */
  ghost predicate SameChannels(rows: seq<Row>, rows': seq<Row>) {
    |rows| == |rows'| && forall i | 0 <= i < |rows| :: rows[i].channel == rows'[i].channel
  }

  lemma KeepsChannels(st: State, w: nat, i: nat, ms: nat, outcome: Step)
    requires IsOutcome(outcome, w)
    ensures SameChannels(st.rows, AfterDelivery(st, w, i, ms, outcome).rows)
  {
  }

  lemma Backoffs()
    ensures BackoffMs(0) == 30_000 && BackoffMs(1) == 60_000 && BackoffMs(2) == 120_000 && BackoffMs(3) == 240_000
  {
  }

  lemma OnTimeKeepsInv(st: State, step: Step)
    requires Inv(st) && OnTime(st, step, LEASE_MS)
    ensures Inv(Apply(st, step))
  {
    assert [step][1..] == [];
    StepKeepsInv(st, step);
  }

  /** A run goes on with a claim, a wait and an outcome: timely exactly if the wait is within the lease. */
  lemma ExtendByDelivery(init: State, steps: seq<Step>, w: nat, i: nat, ms: nat, outcome: Step)
    requires IsOutcome(outcome, w)
    requires var st := Run(init, steps); w !in st.workers && i < |st.rows| && Eligible(st.rows[i], st.now)
    ensures var more := steps + [Claim(w, i), Tick(ms), outcome];
            && Run(init, more) == AfterDelivery(Run(init, steps), w, i, ms, outcome)
            && (Timely(init, more, LEASE_MS) <==> Timely(init, steps, LEASE_MS) && ms <= LEASE_MS)
  {
    var one, two := steps + [Claim(w, i)], steps + [Claim(w, i)] + [Tick(ms)];
    ExtendRun(init, steps, Claim(w, i), LEASE_MS);
    ExtendRun(init, one, Tick(ms), LEASE_MS);
    ExtendRun(init, two, outcome, LEASE_MS);
    assert two + [outcome] == steps + [Claim(w, i), Tick(ms), outcome];
  }

  lemma ExtendRun(init: State, steps: seq<Step>, step: Step, d: int)
    ensures Run(init, steps + [step]) == Apply(Run(init, steps), step)
    ensures Timely(init, steps + [step], d) <==> Timely(init, steps, d) && OnTime(Run(init, steps), step, d)
  {
    TimelySplits(init, steps, [step], d);
    assert [step][1..] == [];
    assert Run(Run(init, steps), [step]) == Apply(Run(init, steps), step);
  }
}
