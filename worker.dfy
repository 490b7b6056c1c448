/**
 * The worker pool (internal/worker/pool.go), run one step at a time.
 * The bounded channel is a queue of order identifiers with a capacity
 * and a closed flag; one pass of a worker's loop body is `Pool.Step`.
 * The processing stage is an injected oracle saying, per identifier,
 * whether processing succeeds.
 */
module Worker {
  import opened Wrappers
  import opened Models
  import opened Storage

  /** Why processing an order failed. */
  datatype ProcessError = Lookup(cause: StoreError) | StageFailed

  /** What one pass of the worker loop did with the identifier it took. */
  datatype StepOutcome = Skipped | MarkedFailed | MarkedCompleted

  /** The status an order ends a step with, given the stage's answer. */
  function Verdict(ok: bool): OrderStatus {
    if ok then Completed else Failed
  }

  /**
   * The table after one step on `id`: a missing order is skipped; a
   * present one is set to processing and then to the verdict.
   */
  function StepTable(m: Table, id: string, ok: bool): (r: Table)
    ensures r.Keys == m.Keys
    ensures id !in m ==> r == m
    ensures id in m ==> r[id].Status == Verdict(ok) && SameButStatus(m[id], r[id])
    ensures forall k :: k in m && k != id ==> r[k] == m[k]
    ensures Keyed(m) ==> Keyed(r)
  {
    if id !in m then m
    else WithStatus(WithStatus(m, id, Processing), id, Verdict(ok))
  }

  /** The table after the worker has taken every identifier of `q`, front first. */
  function Run(m: Table, q: seq<string>, stage: string -> bool): (r: Table)
    ensures r.Keys == m.Keys
    ensures Keyed(m) ==> Keyed(r)
    decreases |q|
  {
    if q == [] then m
    else Run(StepTable(m, q[0], stage(q[0])), q[1..], stage)
  }

  /**
   * Every table the store passes through while the worker takes `q`:
   * two writes for a present identifier (processing, then the verdict),
   * none for a missing one.
   */
  function Trace(m: Table, q: seq<string>, stage: string -> bool): (t: seq<Table>)
    ensures |t| >= 1 && t[0] == m
    ensures forall i :: 0 <= i < |t| ==> t[i].Keys == m.Keys
    decreases |q|
  {
    if q == [] then [m]
    else if q[0] !in m then Trace(m, q[1..], stage)
    else
      var rest := Trace(StepTable(m, q[0], stage(q[0])), q[1..], stage);
      var t := [m, WithStatus(m, q[0], Processing)] + rest;
      assert forall i :: 2 <= i < |t| ==> t[i] == rest[i - 2];
      t
  }

  /** A trace ends in the table that `Run` computes. */
  lemma {:induction false} TraceEndsInRun(m: Table, q: seq<string>, stage: string -> bool)
    ensures Trace(m, q, stage)[|Trace(m, q, stage)| - 1] == Run(m, q, stage)
    decreases |q|
  {
    if q != [] {
      var m2 := StepTable(m, q[0], stage(q[0]));
      TraceEndsInRun(m2, q[1..], stage);
      if q[0] in m {
        var rest := Trace(m2, q[1..], stage);
        var t := Trace(m, q, stage);
        assert t == [m, WithStatus(m, q[0], Processing)] + rest;
        assert t[|t| - 1] == rest[|rest| - 1];
      }
    }
  }

  /** The statuses order `id` holds along a trace. */
  function History(t: seq<Table>, id: string): seq<OrderStatus>
    requires forall i :: 0 <= i < |t| ==> id in t[i]
  {
    seq(|t|, i requires 0 <= i < |t| => t[i][id].Status)
  }

  /** The writes one step on `id` makes: processing, then the verdict; none for a missing order. */
  function StepWrites(m: Table, id: string, ok: bool): seq<Table> {
    if id in m then [WithStatus(m, id, Processing), StepTable(m, id, ok)] else []
  }

  /** A trace is the head step's writes followed by the trace of the rest of the queue. */
  lemma TraceUnfold(m: Table, q: seq<string>, stage: string -> bool)
    requires q != []
    ensures Trace(m, q, stage)[1..] ==
      StepWrites(m, q[0], stage(q[0])) + Trace(StepTable(m, q[0], stage(q[0])), q[1..], stage)[1..]
  {
    var m2 := StepTable(m, q[0], stage(q[0]));
    var rest := Trace(m2, q[1..], stage);
    if q[0] in m {
      assert rest == [m2] + rest[1..];
    }
  }

  /**
   * One step leaves the writes of a whole drain as they were: what the
   * step writes is what the rest of the trace no longer holds.
   */
  lemma StepKeepsDrain(m: Table, q: seq<string>, log: seq<Table>, stage: string -> bool)
    requires q != []
    ensures (log + StepWrites(m, q[0], stage(q[0]))) + Trace(StepTable(m, q[0], stage(q[0])), q[1..], stage)[1..]
         == log + Trace(m, q, stage)[1..]
  {
    TraceUnfold(m, q, stage);
    AppendRegroups(log, StepWrites(m, q[0], stage(q[0])),
      Trace(StepTable(m, q[0], stage(q[0])), q[1..], stage)[1..], Trace(m, q, stage)[1..]);
  }

  lemma AppendRegroups<T>(a: seq<T>, b: seq<T>, c: seq<T>, bc: seq<T>)
    requires bc == b + c
    ensures (a + b) + c == a + bc
  {
  }

  /** An order that is not queued is never touched. */
  lemma {:induction false} NotQueuedUntouched(m: Table, q: seq<string>, stage: string -> bool, id: string)
    requires id in m && id !in q
    ensures forall i :: 0 <= i < |Trace(m, q, stage)| ==> Trace(m, q, stage)[i][id] == m[id]
    ensures Run(m, q, stage)[id] == m[id]
    decreases |q|
  {
    if q != [] {
      assert id !in q[1..];
      var m2 := StepTable(m, q[0], stage(q[0]));
      NotQueuedUntouched(m2, q[1..], stage, id);
    }
  }

  /** Every queued order that the store holds ends in a terminal status. */
  lemma {:induction false} RunEndsTerminal(m: Table, q: seq<string>, stage: string -> bool, id: string)
    requires id in m && id in q
    ensures IsTerminal(Run(m, q, stage)[id].Status)
    decreases |q|
  {
    var m2 := StepTable(m, q[0], stage(q[0]));
    if id in q[1..] {
      RunEndsTerminal(m2, q[1..], stage, id);
    } else {
      assert q[0] == id;
      NotQueuedUntouched(m2, q[1..], stage, id);
    }
  }

  /**
   * An order queued exactly once ends with the stage's verdict on it, and
   * every field but the status is as it was: the order is not lost.
   */
  lemma {:induction false} QueuedOnceGetsVerdict(m: Table, q: seq<string>, stage: string -> bool, id: string)
    requires id in m && multiset(q)[id] == 1
    ensures Run(m, q, stage)[id].Status == Verdict(stage(id))
    ensures SameButStatus(m[id], Run(m, q, stage)[id])
    decreases |q|
  {
    assert q == [q[0]] + q[1..];
    assert multiset(q) == multiset{q[0]} + multiset(q[1..]);
    var m2 := StepTable(m, q[0], stage(q[0]));
    if q[0] == id {
      assert id !in q[1..];
      NotQueuedUntouched(m2, q[1..], stage, id);
    } else {
      QueuedOnceGetsVerdict(m2, q[1..], stage, id);
    }
  }

  /** The history of a trace with a table in front of it. */
  lemma HistoryPrepend(a: Table, t: seq<Table>, id: string)
    requires id in a && forall i :: 0 <= i < |t| ==> id in t[i]
    ensures History([a] + t, id) == [a[id].Status] + History(t, id)
  {
  }

  /**
   * An order queued once that starts pending goes pending, processing,
   * then completed or failed: each write repeats or advances its status.
   */
  lemma {:induction false} QueuedOnceFollowsLifecycle(m: Table, q: seq<string>, stage: string -> bool, id: string)
    requires id in m && m[id].Status == Pending
    requires multiset(q)[id] <= 1
    ensures FollowsLifecycle(History(Trace(m, q, stage), id))
    decreases |q|
  {
    if q == [] {
      return;
    }
    assert q == [q[0]] + q[1..];
    assert multiset(q) == multiset{q[0]} + multiset(q[1..]);
    var m2 := StepTable(m, q[0], stage(q[0]));
    var t2 := Trace(m2, q[1..], stage);
    if q[0] !in m {
      QueuedOnceFollowsLifecycle(m, q[1..], stage, id);
    } else {
      var h2 := History(t2, id);
      if q[0] == id {
        assert id !in q[1..];
        NotQueuedUntouched(m2, q[1..], stage, id);
        assert forall i :: 0 <= i < |h2| ==> h2[i] == m2[id].Status;
      } else {
        QueuedOnceFollowsLifecycle(m2, q[1..], stage, id);
      }
      StepFollowsLifecycle(m, q[0], t2, id);
      assert Trace(m, q, stage) == [m, WithStatus(m, q[0], Processing)] + t2;
    }
  }

  /**
   * The two writes of a step on `x`, put in front of a history that
   * follows the lifecycle and starts where the step leaves `id`, still
   * follow it.
   */
  lemma StepFollowsLifecycle(m: Table, x: string, t2: seq<Table>, id: string)
    requires id in m && x in m && m[id].Status == Pending
    requires forall i :: 0 <= i < |t2| ==> id in t2[i]
    requires FollowsLifecycle(History(t2, id))
    requires t2 != [] ==> t2[0][id] == StepTable(m, x, true)[id] || t2[0][id] == StepTable(m, x, false)[id]
    ensures FollowsLifecycle(History([m, WithStatus(m, x, Processing)] + t2, id))
  {
    var mp := WithStatus(m, x, Processing);
    var h2 := History(t2, id);
    HistoryPrepend(mp, t2, id);
    PrependFollowsLifecycle(mp[id].Status, h2);
    HistoryPrepend(m, [mp] + t2, id);
    PrependFollowsLifecycle(m[id].Status, [mp[id].Status] + h2);
    assert [m, mp] + t2 == [m] + ([mp] + t2);
  }

  /** Queued once from pending, an order's status never goes backwards. */
  lemma QueuedOnceNeverRegresses(m: Table, q: seq<string>, stage: string -> bool, id: string)
    requires id in m && m[id].Status == Pending
    requires multiset(q)[id] <= 1
    ensures forall i, j :: 0 <= i <= j < |Trace(m, q, stage)| ==>
      Progress(Trace(m, q, stage)[i][id].Status) <= Progress(Trace(m, q, stage)[j][id].Status)
  {
    var t := Trace(m, q, stage);
    QueuedOnceFollowsLifecycle(m, q, stage, id);
    var h := History(t, id);
    LifecycleNeverRegresses(h);
    forall i, j | 0 <= i <= j < |t|
      ensures Progress(t[i][id].Status) <= Progress(t[j][id].Status)
    {
      assert h[i] == t[i][id].Status && h[j] == t[j][id].Status;
    }
  }

  /**
   * Queued twice, a present order does regress: the second pass takes it
   * from completed back to processing. The store does not prevent this.
   */
  lemma RequeuedOrderRegresses(m: Table, id: string, stage: string -> bool)
    requires id in m && stage(id)
    ensures |Trace(m, [id, id], stage)| == 5
    ensures Trace(m, [id, id], stage)[2][id].Status == Completed
    ensures Trace(m, [id, id], stage)[3][id].Status == Processing
  {
    var m2 := StepTable(m, id, true);
    var m3 := StepTable(m2, id, true);
    assert [id, id][1..] == [id];
    assert [id][1..] == [];
    assert Trace(m2, [id], stage) == [m2, WithStatus(m2, id, Processing)] + [m3];
    assert Trace(m, [id, id], stage) == [m, WithStatus(m, id, Processing)] + Trace(m2, [id], stage);
  }

  class Pool {
    var queue: seq<string>
    const capacity: nat
    var closed: bool
    var started: bool
    const numWorkers: int
    const store: MemoryStorage

    ghost predicate Valid()
      reads this, store
    {
      |queue| <= capacity && store.Valid()
    }

    /** Some worker is running to take identifiers off the queue. */
    predicate HasWorkers()
      reads this
    {
      started && numWorkers > 0
    }

    /** A new pool over `storage`: empty, open, workers not yet started. */
    constructor (numWorkers: int, queueSize: nat, storage: MemoryStorage)
      requires storage.Valid()
      ensures Valid()
      ensures queue == [] && capacity == queueSize && !closed && !started
      ensures this.numWorkers == numWorkers && store == storage
    {
      this.numWorkers := numWorkers;
      capacity := queueSize;
      store := storage;
      queue := [];
      closed := false;
      started := false;
    }

    /** Launches the workers: from now on the pool can take steps. */
    method Start()
      modifies this`started
      ensures started
    {
      started := true;
    }

    /** Appends `id` at the tail; earlier entries are unchanged. */
    method Submit(id: string)
      requires Valid() && !closed && |queue| < capacity
      modifies this`queue
      ensures Valid()
      ensures queue == old(queue) + [id]
    {
      queue := queue + [id];
    }

    /** Succeeds exactly when the order is present and the stage reports success. */
    method ProcessOrder(id: string, stage: string -> bool) returns (r: Outcome<ProcessError>)
      ensures r.Pass? <==> id in store.orders && stage(id)
      ensures id !in store.orders ==> r == Fail(Lookup(OrderNotFound))
      ensures id in store.orders && !stage(id) ==> r == Fail(StageFailed)
    {
      var found := store.Get(id);
      if found.Err? {
        return Fail(Lookup(found.error));
      }
      if !stage(id) {
        return Fail(StageFailed);
      }
      r := Pass;
    }

    /** One pass of a worker's loop: take the head identifier and drive its order. */
    method Step(stage: string -> bool) returns (outcome: StepOutcome)
      requires Valid() && HasWorkers() && queue != []
      modifies this`queue, store
      ensures Valid()
      ensures queue == old(queue)[1..]
      ensures store.orders == StepTable(old(store.orders), old(queue)[0], stage(old(queue)[0]))
      ensures outcome == Skipped <==> old(queue)[0] !in old(store.orders)
      ensures outcome == MarkedFailed <==> old(queue)[0] in old(store.orders) && !stage(old(queue)[0])
      ensures store.log == old(store.log) + StepWrites(old(store.orders), old(queue)[0], stage(old(queue)[0]))
    {
      var id := queue[0];
      queue := queue[1..];
      var e := store.UpdateStatus(id, Processing);
      if e.Fail? {
        return Skipped;
      }
      var p := ProcessOrder(id, stage);
      if p.Fail? {
        e := store.UpdateStatus(id, Failed);
        return MarkedFailed;
      }
      e := store.UpdateStatus(id, Completed);
      outcome := MarkedCompleted;
    }

    /**
     * Closes the queue, then lets the workers drain it. With no worker
     * running nothing takes the queued identifiers and they stay queued.
     */
    method Close(stage: string -> bool)
      requires Valid() && !closed
      modifies this`queue, this`closed, store
      ensures Valid() && closed
      ensures HasWorkers() ==> queue == [] && store.orders == Run(old(store.orders), old(queue), stage)
      ensures HasWorkers() ==> forall id :: id in old(queue) && id in old(store.orders) ==> IsTerminal(store.orders[id].Status)
      ensures HasWorkers() ==> store.log == old(store.log) + Trace(old(store.orders), old(queue), stage)[1..]
      ensures !HasWorkers() ==> queue == old(queue) && store.orders == old(store.orders) && store.log == old(store.log)
    {
      closed := true;
      if HasWorkers() {
        while queue != []
          invariant Valid() && closed && HasWorkers()
          invariant Run(store.orders, queue, stage) == Run(old(store.orders), old(queue), stage)
          invariant store.log + Trace(store.orders, queue, stage)[1..] ==
            old(store.log) + Trace(old(store.orders), old(queue), stage)[1..]
          decreases |queue|
        {
          ghost var m, q, l := store.orders, queue, store.log;
          var _ := Step(stage);
          StepKeepsDrain(m, q, l, stage);
        }
        forall id | id in old(queue) && id in old(store.orders)
          ensures IsTerminal(store.orders[id].Status)
        {
          RunEndsTerminal(old(store.orders), old(queue), stage, id);
        }
      }
    }
  }
}
