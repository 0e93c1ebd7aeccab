/**
 * The audit buffer: `record` never waits, batches of 50 are written in the background,
 * and a failed write, whether or not the database had committed it, puts its batch back
 * in front of the queue. Events carry a unique id, and the insert skips ids already stored.
 *
 * Each step is the code between two awaits of `drain`; `record` and `flush` may be
 * called at any point in between.
 */
module AuditQueue {
  const BATCH_SIZE := 50
  const MAX_QUEUE_SIZE := 10_000

  datatype Event = Event(id: nat, text: string)

  /**
   * The flush promise: absent, waiting for the database with a batch taken from the
   * queue, or settled but not yet cleared.
   */
  datatype Phase = Idle | Awaiting(batch: seq<Event>) | Closing

  /** `accepted` lists every event `record` took, in order; it is history, not memory. */
  datatype State = State(queue: seq<Event>, phase: Phase, stored: seq<Event>, accepted: seq<Event>)

  datatype Step =
    | Record(event: Event)
    | Flush
    | BatchStored
    | BatchFailed(committed: bool)
    | FlushCleared

  predicate HasId(s: seq<Event>, id: nat) {
    exists i | 0 <= i < |s| :: s[i].id == id
  }

  /** createMany with skipDuplicates. */
  function Insert(stored: seq<Event>, batch: seq<Event>): seq<Event>
    decreases |batch|
  {
    if batch == [] then stored
    else Insert(if HasId(stored, batch[0].id) then stored else stored + [batch[0]], batch[1..])
  }

  function Min(a: nat, b: nat): nat { if a <= b then a else b }

  /** The head of drain's loop: take the next batch, or end the flush. */
  function TakeBatch(st: State): State {
    if st.queue == [] then st.(phase := Closing)
    else
      var n := Min(BATCH_SIZE, |st.queue|);
      st.(phase := Awaiting(st.queue[..n]), queue := st.queue[n..])
  }

  function Apply(st: State, step: Step): State {
    match step
    case Record(e) =>
      if HasId(st.accepted, e.id) || |st.queue| >= MAX_QUEUE_SIZE then st
      else
        var pushed := st.(queue := st.queue + [e], accepted := st.accepted + [e]);
        if |pushed.queue| >= BATCH_SIZE && pushed.phase == Idle then TakeBatch(pushed) else pushed
    case Flush => if st.phase == Idle then TakeBatch(st) else st
    case BatchStored =>
      if st.phase.Awaiting? then TakeBatch(st.(stored := Insert(st.stored, st.phase.batch))) else st
    case BatchFailed(committed) =>
      if st.phase.Awaiting?
      then State(st.phase.batch + st.queue, Closing,
                 if committed then Insert(st.stored, st.phase.batch) else st.stored, st.accepted)
      else st
    case FlushCleared => if st.phase == Closing then st.(phase := Idle) else st
  }

  function Run(st: State, steps: seq<Step>): State
    decreases |steps|
  {
    if steps == [] then st else Run(Apply(st, steps[0]), steps[1..])
  }

  ghost predicate Init(st: State) {
    st == State([], Idle, [], [])
  }

  // ---------------------------------------------------------------- the invariant

  function Batch(st: State): seq<Event> {
    if st.phase.Awaiting? then st.phase.batch else []
  }

  /** Everything buffered in memory, oldest first. */
  function Pending(st: State): seq<Event> {
    Batch(st) + st.queue
  }

  ghost predicate IdsUnique(s: seq<Event>) {
    forall i, j | 0 <= i < j < |s| :: s[i].id != s[j].id
  }

  ghost predicate Suffix(s: seq<Event>, t: seq<Event>) {
    |s| <= |t| && s == t[|t| - |s|..]
  }

  ghost predicate Inv(st: State) {
    && IdsUnique(st.accepted)
    && st.stored <= st.accepted
    && Suffix(Pending(st), st.accepted)
    && |st.accepted| <= |st.stored| + |Pending(st)|
    && |Pending(st)| <= MAX_QUEUE_SIZE + BATCH_SIZE
    && (st.phase.Awaiting? ==> 0 < |st.phase.batch| <= BATCH_SIZE && |st.queue| <= MAX_QUEUE_SIZE)
  }

  /** Inserting a slice that starts inside the stored prefix extends the prefix and nothing else. */
  lemma {:induction false} InsertExtends(all: seq<Event>, k: nat, from: nat, n: nat)
    requires IdsUnique(all) && from <= k <= |all| && from + n <= |all|
    ensures Insert(all[..k], all[from..from + n]) == all[..if from + n <= k then k else from + n]
    decreases n
  {
    if n > 0 {
      var batch := all[from..from + n];
      assert batch[0] == all[from] && batch[1..] == all[from + 1..from + 1 + (n - 1)];
      if from < k {
        assert all[..k][from].id == batch[0].id;
        InsertExtends(all, k, from + 1, n - 1);
      } else {
        assert !HasId(all[..k], batch[0].id);
        assert all[..k] + [batch[0]] == all[..k + 1];
        InsertExtends(all, k + 1, from + 1, n - 1);
      }
    } else {
      assert all[from..from + n] == [];
    }
  }

  /** What a commit of the batch in flight leaves in the table. */
  lemma CommitExtends(st: State)
    requires Inv(st) && st.phase.Awaiting?
    ensures var stored := Insert(st.stored, st.phase.batch);
            stored <= st.accepted && |stored| >= |st.stored| && |st.accepted| <= |stored| + |st.queue|
  {
    var all, from, n := st.accepted, |st.accepted| - |Pending(st)|, |st.phase.batch|;
    assert st.phase.batch == Pending(st)[..n] == all[from..from + n];
    InsertExtends(all, |st.stored|, from, n);
    assert st.stored == all[..|st.stored|];
  }

  /** A commit adds to the table and leaves every event of the batch in it. */
  lemma CommitStores(st: State)
    requires Inv(st) && st.phase.Awaiting?
    ensures var stored := Insert(st.stored, st.phase.batch);
            st.stored <= stored && forall i | 0 <= i < |st.phase.batch| :: st.phase.batch[i] in stored
  {
    CommitExtends(st);
    var stored := Insert(st.stored, st.phase.batch);
    forall i | 0 <= i < |st.phase.batch| ensures st.phase.batch[i] in stored {
      assert st.phase.batch[i] == Pending(st)[i] == st.accepted[|st.accepted| - |Pending(st)| + i];
      assert stored[|st.accepted| - |Pending(st)| + i] == st.phase.batch[i];
    }
  }

  lemma TakeBatchKeepsInv(st: State)
    requires Inv(st) && !st.phase.Awaiting?
    ensures Inv(TakeBatch(st))
  {
  }

  lemma RecordKeepsInv(st: State, e: Event)
    requires Inv(st)
    ensures Inv(Apply(st, Record(e)))
  {
    if !HasId(st.accepted, e.id) && |st.queue| < MAX_QUEUE_SIZE {
      var pushed := State(st.queue + [e], st.phase, st.stored, st.accepted + [e]);
      assert Pending(pushed) == Pending(st) + [e];
      AppendKeepsIdsUnique(st.accepted, e);
      assert Inv(pushed);
      if |pushed.queue| >= BATCH_SIZE && pushed.phase == Idle {
        TakeBatchKeepsInv(pushed);
      }
    }
  }

  lemma BatchStoredKeepsInv(st: State)
    requires Inv(st) && st.phase.Awaiting?
    ensures Inv(Apply(st, BatchStored))
  {
    CommitExtends(st);
    var mid := State(st.queue, Closing, Insert(st.stored, st.phase.batch), st.accepted);
    assert Pending(st)[|st.phase.batch|..] == st.queue == Pending(mid);
    TakeBatchKeepsInv(mid);
    assert Apply(st, BatchStored) == TakeBatch(mid);
  }

  lemma BatchFailedKeepsInv(st: State, committed: bool)
    requires Inv(st) && st.phase.Awaiting?
    ensures Inv(Apply(st, BatchFailed(committed)))
  {
    CommitExtends(st);
    assert Pending(Apply(st, BatchFailed(committed))) == Pending(st);
  }

  lemma StepKeepsInv(st: State, step: Step)
    requires Inv(st)
    ensures Inv(Apply(st, step))
  {
    match step
    case Record(e) => RecordKeepsInv(st, e);
    case Flush => if st.phase == Idle { TakeBatchKeepsInv(st); }
    case BatchStored => if st.phase.Awaiting? { BatchStoredKeepsInv(st); }
    case BatchFailed(committed) => if st.phase.Awaiting? { BatchFailedKeepsInv(st, committed); }
    case FlushCleared => assert Pending(Apply(st, step)) == Pending(st);
  }

  lemma {:induction false} RunKeepsInv(st: State, steps: seq<Step>)
    requires Inv(st)
    ensures Inv(Run(st, steps))
    decreases |steps|
  {
    if steps != [] {
      StepKeepsInv(st, steps[0]);
      RunKeepsInv(Apply(st, steps[0]), steps[1..]);
    }
  }

  /** Stored log and buffer split the accepted events, in order and without repeats. */
  ghost predicate Exact(st: State) {
    && st.stored <= st.accepted
    && IdsUnique(st.stored)
    && Suffix(Pending(st), st.accepted)
    && |st.accepted| <= |st.stored| + |Pending(st)|
    && |Pending(st)| <= 10_050
  }

  lemma InvIsExact(st: State)
    requires Inv(st)
    ensures Exact(st)
  {
  }

  lemma InitHasInv(st: State)
    requires Init(st)
    ensures Inv(st)
  {
  }

  /**
   * In every interleaving the stored log is a prefix of the accepted events, what is
   * buffered is a suffix of them, together they cover them all, no event is stored twice,
   * and at most 10,050 events are buffered.
   */
  lemma LogIsExact(init: State, steps: seq<Step>)
    requires Init(init)
    ensures Exact(Run(init, steps))
  {
    InitHasInv(init);
    RunKeepsInv(init, steps);
    InvIsExact(Run(init, steps));
  }

  lemma AppendKeepsIdsUnique(s: seq<Event>, e: Event)
    requires IdsUnique(s) && !HasId(s, e.id)
    ensures IdsUnique(s + [e])
  {
  }

  function Repeat(step: Step, n: nat): (r: seq<Step>)
    ensures |r| == n && forall i | 0 <= i < n :: r[i] == step
  {
    seq(n, _ => step)
  }

  /** Batches still to be written, the one in flight included. */
  function Batches(st: State): nat {
    (|st.queue| + BATCH_SIZE - 1) / BATCH_SIZE + 1
  }

  /** A flush whose batches all succeed stores every accepted event, one batch of 50 at a time. */
  lemma {:induction false} FlushStoresEverything(st: State)
    requires Inv(st) && st.phase.Awaiting?
    ensures var st' := Run(st, Repeat(BatchStored, Batches(st)));
            st'.stored == st.accepted && Pending(st') == [] && st'.phase == Closing
    decreases |st.queue|
  {
    var n := Batches(st);
    var st1 := Apply(st, BatchStored);
    StepKeepsInv(st, BatchStored);
    assert Repeat(BatchStored, n)[1..] == Repeat(BatchStored, n - 1);
    assert Run(st, Repeat(BatchStored, n)) == Run(st1, Repeat(BatchStored, n - 1));
    if st.queue == [] {
      assert Repeat(BatchStored, n - 1) == [];
    } else {
      assert n - 1 == Batches(st1);
      FlushStoresEverything(st1);
    }
  }

  // ---------------------------------------------------------- what a flush call waits for

  /** The steps up to the one that settles the flush promise: the drain ends, or a batch fails. */
  ghost predicate Settles(st: State, steps: seq<Step>)
    decreases |steps|
  {
    if st.phase.Awaiting? then steps != [] && Settles(Apply(st, steps[0]), steps[1..])
    else steps == []
  }

  /** What is queued when a drain that waits for a batch ends: nothing, exactly if no batch failed. */
  lemma {:induction false} DrainEnds(st: State, steps: seq<Step>)
    requires Inv(st) && st.phase.Awaiting? && Settles(st, steps)
    ensures Run(st, steps).phase == Closing
    ensures Run(st, steps).queue == [] <==> steps[|steps| - 1] == BatchStored
    ensures Run(st, steps).queue == [] ==> Run(st, steps).stored == Run(st, steps).accepted
    decreases |steps|
  {
    var st1 := Apply(st, steps[0]);
    StepKeepsInv(st, steps[0]);
    assert Run(st, steps) == Run(st1, steps[1..]);
    if st1.phase.Awaiting? {
      DrainEnds(st1, steps[1..]);
    } else {
      assert steps == [steps[0]] && Run(st, steps) == st1;
    }
  }

  /**
   * When the promise a flush call waits for settles, the queue is empty, and then every accepted
   * event is stored, if and only if the call did not find a promise that had settled already
   * with events queued behind it, and no batch failed.
   */
  lemma FlushDrainsIff(st: State, steps: seq<Step>)
    requires Inv(st) && Settles(Apply(st, Flush), steps)
    ensures var st' := Run(Apply(st, Flush), steps);
            && (st'.queue == [] <==>
                if st.phase == Closing then st.queue == [] else steps == [] || steps[|steps| - 1] == BatchStored)
            && (st'.queue == [] ==> st'.stored == st'.accepted)
  {
    StepKeepsInv(st, Flush);
    if Apply(st, Flush).phase.Awaiting? {
      DrainEnds(Apply(st, Flush), steps);
    }
  }

  /** An event recorded between the end of a drain and the clearing of its promise. */
  function LateRecord(first: Event, second: Event): seq<Step> {
    [Record(first), Flush, BatchStored, Record(second)]
  }

  /** A flush called there waits for nothing, and the event stays queued after it. */
  lemma FlushMissesLateRecord(init: State, first: Event, second: Event)
    requires Init(init) && first.id != second.id
    ensures var st := Run(init, LateRecord(first, second));
            && st.queue == [second] && st.stored == [first] && st.phase == Closing
            && Apply(st, Flush) == st && Settles(Apply(st, Flush), [])
            && Apply(st, FlushCleared).queue == [second]
  {
    var st1 := Apply(init, Record(first));
    assert st1 == State([first], Idle, [], [first]);
    var st2 := Apply(st1, Flush);
    assert [first][..1] == [first] && [first][1..] == [];
    assert st2 == State([], Awaiting([first]), [], [first]);
    var st3 := Apply(st2, BatchStored);
    assert Insert([], [first]) == [first];
    assert st3 == State([], Closing, [first], [first]);
    var steps := LateRecord(first, second);
    assert steps[1..] == [Flush, BatchStored, Record(second)];
    assert steps[1..][1..] == [BatchStored, Record(second)];
    assert steps[1..][1..][1..] == [Record(second)] && [Record(second)][1..] == [];
    assert Run(st2, steps[1..][1..]) == Run(st3, [Record(second)]) == Apply(st3, Record(second));
    assert Run(init, steps) == Run(st1, steps[1..]) == Run(st2, steps[1..][1..]);
  }

  /** The service over its mutable queue. */
  class AuditService {
    var queue: seq<Event>
    var phase: Phase
    var stored: seq<Event>
    ghost var accepted: seq<Event>

    ghost function Rows(): State
      reads this
    {
      State(queue, phase, stored, accepted)
    }

    constructor ()
      ensures Init(Rows()) && Inv(Rows())
    {
      queue, phase, stored, accepted := [], Idle, [], [];
    }

    /** Returns whether the event was buffered; never waits for the database. */
    method RecordEvent(e: Event) returns (kept: bool)
      requires Inv(Rows()) && !HasId(accepted, e.id)
      modifies this
      ensures Rows() == Apply(old(Rows()), Record(e)) && Inv(Rows())
      ensures kept <==> |old(queue)| < 10_000
      ensures kept ==> accepted == old(accepted) + [e] && Pending(Rows()) == old(Pending(Rows())) + [e]
      ensures kept && (old(phase) != Idle || |old(queue)| < 49) ==> phase == old(phase) && queue == old(queue) + [e]
      ensures kept && old(phase) == Idle && |old(queue)| >= 49 ==>
                phase == Awaiting((old(queue) + [e])[..50]) && queue == (old(queue) + [e])[50..]
      ensures !kept ==> Rows() == old(Rows())
      ensures stored == old(stored)
    {
      StepKeepsInv(Rows(), Record(e));
      if |queue| >= MAX_QUEUE_SIZE {
        return false;
      }
      queue := queue + [e];
      accepted := accepted + [e];
      if |queue| >= BATCH_SIZE && phase == Idle {
        ContinueDrain();
      }
      return true;
    }

    method RequestFlush()
      requires Inv(Rows())
      modifies this
      ensures Rows() == Apply(old(Rows()), Flush) && Inv(Rows())
      ensures Pending(Rows()) == old(Pending(Rows())) && stored == old(stored) && accepted == old(accepted)
      ensures if old(phase) != Idle then phase == old(phase) else phase == Closing || |Batch(Rows())| > 0
    {
      StepKeepsInv(Rows(), Flush);
      if phase == Idle {
        ContinueDrain();
      }
    }

    /** One turn of drain's loop, up to its await: nothing queued is lost, doubled or reordered. */
    method ContinueDrain()
      modifies this
      ensures Rows() == TakeBatch(old(Rows()))
      ensures Pending(Rows()) == old(queue) && stored == old(stored) && accepted == old(accepted)
      ensures |Batch(Rows())| == if |old(queue)| < 50 then |old(queue)| else 50
      ensures phase == Closing <==> old(queue) == []
    {
      if |queue| > 0 {
        var n := Min(BATCH_SIZE, |queue|);
        var batch := queue[..n];
        queue := queue[n..];
        phase := Awaiting(batch);
      } else {
        phase := Closing;
      }
    }

    method OnBatchStored()
      requires Inv(Rows()) && phase.Awaiting?
      modifies this
      ensures Rows() == Apply(old(Rows()), BatchStored) && Inv(Rows())
      ensures Pending(Rows()) == old(queue) && accepted == old(accepted) && old(stored) <= stored
      ensures forall i | 0 <= i < |old(phase).batch| :: old(phase).batch[i] in stored
    {
      StepKeepsInv(Rows(), BatchStored);
      CommitStores(Rows());
      stored := Insert(stored, phase.batch);
      ContinueDrain();
    }

    /** The write failed, or it committed and the acknowledgement was lost. */
    method OnBatchFailed(committed: bool)
      requires Inv(Rows()) && phase.Awaiting?
      modifies this
      ensures Rows() == Apply(old(Rows()), BatchFailed(committed)) && Inv(Rows())
      ensures queue == old(Pending(Rows())) && phase == Closing && accepted == old(accepted)
      ensures old(stored) <= stored && (!committed ==> stored == old(stored))
      ensures committed ==> forall i | 0 <= i < |old(phase).batch| :: old(phase).batch[i] in stored
    {
      StepKeepsInv(Rows(), BatchFailed(committed));
      CommitStores(Rows());
      if committed {
        stored := Insert(stored, phase.batch);
      }
      queue := phase.batch + queue;
      phase := Closing;
    }

    method OnFlushCleared()
      requires Inv(Rows()) && phase == Closing
      modifies this
      ensures Rows() == Apply(old(Rows()), FlushCleared) && Inv(Rows())
      ensures Rows() == old(Rows()).(phase := Idle)
    {
      StepKeepsInv(Rows(), FlushCleared);
      phase := Idle;
    }
  }
}
