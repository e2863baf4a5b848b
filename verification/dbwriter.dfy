/** The background batch writer (src/localgateway/dbwriter.py).

    SQL is a function from a table and a row to the new table, or None when executing the row
    raises; a failed statement changes nothing. */
module DbWriter {
  import opened Wrappers
  import opened Sequences

  const BATCH_SIZE := 50

  type Sql<!Db, !Row> = (Db, Row) -> Option<Db>

  /** Apply each row in order, skipping the ones that fail. */
  function Applied<Db, Row>(exec: Sql<Db, Row>, db: Db, rows: seq<Row>): Db {
    if rows == [] then db else Applied(exec, exec(db, rows[0]).GetOr(db), rows[1..])
  }

  lemma {:induction false} AppliedAppend<Db, Row>(exec: Sql<Db, Row>, db: Db, a: seq<Row>, b: seq<Row>)
    ensures Applied(exec, db, a + b) == Applied(exec, Applied(exec, db, a), b)
  {
    if a == [] {
      assert a + b == b;
    } else {
      assert (a + b)[1..] == a[1..] + b;
      AppliedAppend(exec, exec(db, a[0]).GetOr(db), a[1..], b);
    }
  }

  lemma AppliedOne<Db, Row>(exec: Sql<Db, Row>, db: Db, row: Row)
    ensures Applied(exec, db, [row]) == exec(db, row).GetOr(db)
  {
  }

  /** What the queue holds: rows, flush requests, and the sentinel that stops the worker. */
  datatype Item<Row> = Write(row: Row) | FlushNow | StopNow

  /** What the worker's timed get observes: an item, or a timeout and the running flag it then reads. */
  datatype Got<Row> = Item(item: Item<Row>) | Empty(running: bool)

  function RowsGot<Row>(gets: seq<Got<Row>>): seq<Row> {
    if gets == [] then []
    else (if gets[0].Item? && gets[0].item.Write? then [gets[0].item.row] else []) + RowsGot(gets[1..])
  }

  predicate Stops<Row>(got: Got<Row>) {
    got == Item(StopNow) || got == Empty(false)
  }

  lemma {:induction false} RowsGotAppend<Row>(a: seq<Got<Row>>, b: seq<Got<Row>>)
    ensures RowsGot(a + b) == RowsGot(a) + RowsGot(b)
  {
    if a == [] {
      assert a + b == b;
    } else {
      assert (a + b)[1..] == a[1..] + b;
      RowsGotAppend(a[1..], b);
    }
  }

  /** The worker: the table, the rows it holds back, and whether its loop still runs. */
  datatype Worker<Db, Row> = Worker(table: Db, batch: seq<Row>, alive: bool)

  function Flushed<Db, Row>(exec: Sql<Db, Row>, w: Worker<Db, Row>): Worker<Db, Row> {
    w.(table := Applied(exec, w.table, w.batch), batch := [])
  }

  /** One turn of the worker loop. */
  function Took<Db, Row>(exec: Sql<Db, Row>, w: Worker<Db, Row>, got: Got<Row>): Worker<Db, Row> {
    match got
    case Item(StopNow) => Flushed(exec, w).(alive := false)
    case Item(FlushNow) => Flushed(exec, w)
    case Item(Write(row)) =>
      var next := w.(batch := w.batch + [row]);
      if |next.batch| >= BATCH_SIZE then Flushed(exec, next) else next
    case Empty(running) => Flushed(exec, w).(alive := w.alive && running)
  }

  function TookAll<Db, Row>(exec: Sql<Db, Row>, w: Worker<Db, Row>, gets: seq<Got<Row>>): Worker<Db, Row> {
    if gets == [] then w
    else Took(exec, TookAll(exec, w, gets[..|gets| - 1]), gets[|gets| - 1])
  }

  lemma TookApplies<Db, Row>(exec: Sql<Db, Row>, w: Worker<Db, Row>, got: Got<Row>)
    requires |w.batch| < BATCH_SIZE
    ensures var next := Took(exec, w, got);
            && Applied(exec, next.table, next.batch) == Applied(exec, Applied(exec, w.table, w.batch), RowsGot([got]))
            && |next.batch| < BATCH_SIZE
  {
    RowsGotOne(got);
    if got.Item? && got.item.Write? {
      AppliedAppend(exec, w.table, w.batch, [got.item.row]);
    }
  }

  /** Wherever the batches end, the table and the rows held back amount to the rows taken so far. */
  lemma {:induction false} TookAllApplies<Db, Row>(exec: Sql<Db, Row>, table: Db, gets: seq<Got<Row>>)
    ensures var w := TookAll(exec, Worker(table, [], true), gets);
            Applied(exec, w.table, w.batch) == Applied(exec, table, RowsGot(gets)) && |w.batch| < 50
  {
    if gets == [] {
    } else {
      var before, got := gets[..|gets| - 1], gets[|gets| - 1];
      TookAllApplies(exec, table, before);
      assert before + [got] == gets;
      RowsGotAppend(before, [got]);
      TookApplies(exec, TookAll(exec, Worker(table, [], true), before), got);
      AppliedAppend(exec, table, RowsGot(before), RowsGot([got]));
    }
  }

  /** A flush request, a timeout or the sentinel leaves nothing held back: everything taken so far is in the
      table. */
  lemma FlushWritesAll<Db, Row>(exec: Sql<Db, Row>, table: Db, gets: seq<Got<Row>>, last: Got<Row>)
    requires last.Item? ==> !last.item.Write?
    ensures var w := TookAll(exec, Worker(table, [], true), gets + [last]);
            w.batch == [] && w.table == Applied(exec, table, RowsGot(gets))
  {
    var all := gets + [last];
    assert all[..|all| - 1] == gets && all[|all| - 1] == last;
    TookAllApplies(exec, table, gets);
  }

  /** The worker has written the first fifties of these rows and holds back the others. */
  predicate HoldsRest<Db(==), Row(==)>(exec: Sql<Db, Row>, table: Db, rows: seq<Row>, w: Worker<Db, Row>) {
    var n := |rows| - |rows| % 50;
    w.alive && w.batch == rows[n..] && w.table == Applied(exec, table, rows[..n])
  }

  lemma OneRowMore<Db, Row>(exec: Sql<Db, Row>, table: Db, rows: seq<Row>, w: Worker<Db, Row>, row: Row)
    requires HoldsRest(exec, table, rows, w)
    ensures HoldsRest(exec, table, rows + [row], Took(exec, w, Item(Write(row))))
  {
    var n, more := |rows| - |rows| % 50, rows + [row];
    assert more[..n] == rows[..n] && more[n..] == rows[n..] + [row];
    if |rows| % 50 == 49 {
      AppliedAppend(exec, table, more[..n], more[n..]);
      assert more[..n] + more[n..] == more && more[|more|..] == [] && more[..|more|] == more;
    }
  }

  /** Rows alone are written fifty at a time: what is held back is what comes after the last fifty. */
  lemma {:induction false} FiftyAtATime<Db, Row>(exec: Sql<Db, Row>, table: Db, gets: seq<Got<Row>>)
    requires forall i :: 0 <= i < |gets| ==> gets[i].Item? && gets[i].item.Write?
    ensures |RowsGot(gets)| == |gets|
    ensures HoldsRest(exec, table, RowsGot(gets), TookAll(exec, Worker(table, [], true), gets))
  {
    if gets == [] {
    } else {
      var before, last := gets[..|gets| - 1], gets[|gets| - 1];
      FiftyAtATime(exec, table, before);
      assert before + [last] == gets;
      RowsGotAppend(before, [last]);
      RowsGotOne(last);
      OneRowMore(exec, table, RowsGot(before), TookAll(exec, Worker(table, [], true), before), last.item.row);
    }
  }

  lemma RowsGotOne<Row>(got: Got<Row>)
    ensures RowsGot([got]) == if got.Item? && got.item.Write? then [got.item.row] else []
  {
  }

  class BackgroundWriter<!Db, !Row> {
    const exec: Sql<Db, Row>
    var table: Db          // as other connections read it
    var transaction: Db    // with the statements not committed yet
    var connected: bool

    constructor (exec: Sql<Db, Row>, table: Db, connected: bool)
      ensures this.exec == exec && this.table == table && this.transaction == table
      ensures this.connected == connected
    {
      this.exec, this.table, this.transaction, this.connected := exec, table, table, connected;
    }

    method Execute(row: Row) returns (ok: bool)
      modifies this`transaction
      ensures ok <==> exec(old(transaction), row).Some?
      ensures transaction == exec(old(transaction), row).GetOr(old(transaction))
    {
      var r := exec(transaction, row);
      ok := r.Some?;
      transaction := r.GetOr(transaction);
    }

    /** One transaction for the batch; if a row fails, roll back and retry the rows one by one. */
    method Flush(batch: seq<Row>)
      requires connected ==> transaction == table
      modifies this`table, this`transaction
      ensures transaction == if connected then table else old(transaction)
      ensures table == if connected then Applied(exec, old(table), batch) else old(table)
    {
      if !connected || batch == [] {
        return;
      }
      var failed := false;
      var i := 0;
      while i < |batch| && !failed
        invariant 0 <= i <= |batch| && table == old(table)
        invariant !failed ==> Applied(exec, transaction, batch[i..]) == Applied(exec, table, batch)
      {
        var ok := Execute(batch[i]);
        assert batch[i..][1..] == batch[i + 1..];
        failed := !ok;
        i := i + 1;
      }
      if !failed {
        table := transaction;
        return;
      }
      transaction := table;
      for k := 0 to |batch|
        invariant transaction == table
        invariant Applied(exec, table, batch[k..]) == Applied(exec, old(table), batch)
      {
        var ok := Execute(batch[k]);
        assert batch[k..][1..] == batch[k + 1..];
        if ok {
          table := transaction;
        }
      }
    }

    /** The worker loop, over whatever its gets observe. It ends at the stop sentinel or at a timeout
        with the running flag down. */
    method Run(gets: seq<Got<Row>>) returns (exited: bool, taken: nat, batch: seq<Row>)
      requires transaction == table
      modifies this`table, this`transaction
      ensures taken <= |gets|
      ensures !connected ==> table == old(table) && exited && taken == 0
      ensures connected ==> Worker(table, batch, !exited) == TookAll(exec, Worker(old(table), [], true), gets[..taken])
      ensures connected ==> (exited <==> taken > 0 && Stops(gets[taken - 1]))
      ensures connected ==> forall i :: 0 <= i < taken - 1 ==> !Stops(gets[i])
      ensures connected && !exited ==> taken == |gets|
    {
      batch := [];
      exited := false;
      taken := 0;
      if !connected {
        return true, 0, [];
      }
      ghost var start := Worker(table, [], true);
      while taken < |gets| && !exited
        invariant taken <= |gets| && transaction == table
        invariant exited <==> taken > 0 && Stops(gets[taken - 1])
        invariant forall i :: 0 <= i < taken - 1 ==> !Stops(gets[i])
        invariant var w := Worker(table, batch, true);
                  (if exited then Flushed(exec, w).(alive := false) else w) == TookAll(exec, start, gets[..taken])
      {
        var got := gets[taken];
        assert gets[..taken + 1][..taken] == gets[..taken];
        taken := taken + 1;
        match got {
          case Item(StopNow) =>
            exited := true;
          case Item(FlushNow) =>
            if batch != [] {
              Flush(batch);
              batch := [];
            }
          case Item(Write(row)) =>
            batch := batch + [row];
            if |batch| >= BATCH_SIZE {
              Flush(batch);
              batch := [];
            }
          case Empty(running) =>
            if batch != [] {
              Flush(batch);
              batch := [];
            }
            if !running {
              exited := true;
            }
        }
      }
      if exited && batch != [] {
        Flush(batch);
        batch := [];
      }
    }
  }

  // ---------- every interleaving ----------

  /** Where the worker is when its timed get finds nothing: the get has raised; the batch is flushed;
      the running flag is read. Other threads may come between. */
  datatype Idle = Getting | TimedOut | AtFlag

  /** The writer and its clients. admitted: rows of enqueue calls that have read the running flag as
      up and not put their row yet. accepted: rows put before stop began. put: rows put ahead of the
      sentinel while the worker is alive. taken: rows the worker got. direct: rows written directly after
      it ended. lost: rows still queued when a flag read ended it. raced: a row was written directly while
      it was alive. */
  datatype System<Db, Row(==)> = System(
    worker: Worker<Db, Row>, idle: Idle, queue: seq<Item<Row>>, running: bool, sentinel: bool,
    admitted: multiset<Row>, accepted: seq<Row>, put: seq<Row>, taken: seq<Row>, direct: seq<Row>,
    lost: seq<Row>, raced: bool)

  function Started<Db, Row(==)>(table: Db): System<Db, Row> {
    System(Worker(table, [], true), Getting, [], true, false, multiset{}, [], [], [], [], [], false)
  }

  datatype Step<Row> =
    | EnqueueReads(r: Row)   // an enqueue finds the writer running
    | EnqueuePuts(r: Row)    // and puts its row
    | EnqueueSync(r: Row)    // an enqueue finds it stopped and writes on its own
    | FlushCalled
    | StopBegins             // the running flag goes down
    | StopPuts               // and the sentinel is queued
    | WorkerGets
    | WorkerTimesOut         // the timed get finds the queue empty
    | WorkerFlushes          // and the batch is written
    | WorkerReadsFlag        // and the loop goes on or ends

  predicate Enabled<Db, Row(==)>(s: System<Db, Row>, step: Step<Row>) {
    match step
    case EnqueueReads(_) => s.running
    case EnqueuePuts(r) => r in s.admitted
    case EnqueueSync(_) => !s.running
    case FlushCalled => true
    case StopBegins => s.running
    case StopPuts => !s.running && !s.sentinel
    case WorkerGets => s.worker.alive && s.idle.Getting? && s.queue != []
    case WorkerTimesOut => s.worker.alive && s.idle.Getting? && s.queue == []
    case WorkerFlushes => s.worker.alive && s.idle.TimedOut?
    case WorkerReadsFlag => s.worker.alive && s.idle.AtFlag?
  }

  function Next<Db, Row(==)>(exec: Sql<Db, Row>, s: System<Db, Row>, step: Step<Row>): System<Db, Row>
    requires Enabled(s, step)
  {
    match step
    case EnqueueReads(r) => s.(admitted := s.admitted + multiset{r})
    case EnqueuePuts(r) =>
      s.(admitted := s.admitted - multiset{r}, queue := s.queue + [Write(r)],
         accepted := if s.running then s.accepted + [r] else s.accepted,
         put := if s.worker.alive && !s.sentinel then s.put + [r] else s.put)
    case EnqueueSync(r) =>
      var t := s.worker.table;
      s.(worker := s.worker.(table := exec(t, r).GetOr(t)),
         direct := if s.worker.alive then s.direct else s.direct + [r],
         raced := s.raced || s.worker.alive)
    case FlushCalled => s.(queue := s.queue + [FlushNow])
    case StopBegins => s.(running := false)
    case StopPuts => s.(queue := s.queue + [StopNow], sentinel := true)
    case WorkerGets =>
      var item := s.queue[0];
      s.(worker := Took(exec, s.worker, Item(item)), queue := s.queue[1..],
         taken := if item.Write? then s.taken + [item.row] else s.taken)
    case WorkerTimesOut => s.(idle := TimedOut)
    case WorkerFlushes => s.(idle := AtFlag, worker := Flushed(exec, s.worker))
    case WorkerReadsFlag =>
      if s.running then s.(idle := Getting)
      else s.(idle := Getting, worker := s.worker.(alive := false), lost := Ahead(s.queue))
  }

  /** The states a run of steps can go through. */
  ghost predicate Reaches<Db, Row>(exec: Sql<Db, Row>, s: System<Db, Row>, steps: seq<Step<Row>>,
                                   end: System<Db, Row>)
    decreases |steps|
  {
    if steps == [] then s == end
    else Enabled(s, steps[0]) && Reaches(exec, Next(exec, s, steps[0]), steps[1..], end)
  }

  /** The rows of a queue ahead of its sentinel. */
  function Ahead<Row>(queue: seq<Item<Row>>): seq<Row> {
    if queue == [] || queue[0].StopNow? then []
    else (if queue[0].Write? then [queue[0].row] else []) + Ahead(queue[1..])
  }

  predicate HasStop<Row>(queue: seq<Item<Row>>) {
    exists i :: 0 <= i < |queue| && queue[i].StopNow?
  }

  lemma HasStopSnoc<Row>(queue: seq<Item<Row>>, item: Item<Row>)
    ensures HasStop(queue + [item]) <==> HasStop(queue) || item.StopNow?
  {
    var q := queue + [item];
    if i :| 0 <= i < |queue| && queue[i].StopNow? {
      assert q[i].StopNow?;
    }
    if item.StopNow? {
      assert q[|queue|].StopNow?;
    }
  }

  lemma HasStopHead<Row>(queue: seq<Item<Row>>)
    requires queue != []
    ensures HasStop(queue) <==> queue[0].StopNow? || HasStop(queue[1..])
  {
    var rest := queue[1..];
    if i :| 0 <= i < |rest| && rest[i].StopNow? {
      assert queue[i + 1].StopNow?;
    }
    if i :| 1 <= i < |queue| && queue[i].StopNow? {
      assert rest[i - 1].StopNow?;
    }
  }

  lemma {:induction false} AheadSnoc<Row>(queue: seq<Item<Row>>, item: Item<Row>)
    ensures Ahead(queue + [item]) == Ahead(queue) + if item.Write? && !HasStop(queue) then [item.row] else []
  {
    var q := queue + [item];
    if queue == [] {
      assert q[1..] == [];
    } else {
      assert q[1..] == queue[1..] + [item] && q[0] == queue[0];
      HasStopHead(queue);
      AheadSnoc(queue[1..], item);
    }
  }

  /** The queue's bookkeeping: what was put is what was taken and what is still queued ahead of the
      sentinel; once the worker has ended, what was taken and what was lost. */
  ghost predicate Queued<Db, Row>(s: System<Db, Row>) {
    && (s.running ==> s.worker.alive && !s.sentinel && !s.raced && s.accepted == s.put && s.direct == [])
    && s.accepted <= s.put
    && (HasStop(s.queue) ==> s.sentinel)
    && (s.sentinel && s.worker.alive ==> HasStop(s.queue))
    && (if s.worker.alive then s.put == s.taken + Ahead(s.queue) && s.direct == [] && s.lost == []
        else s.put == s.taken + s.lost)
  }

  /** What the table and the batch amount to, and how large the batch can be. */
  ghost predicate Inv<Db, Row>(exec: Sql<Db, Row>, start: Db, s: System<Db, Row>) {
    && Queued(s)
    && |s.worker.batch| < BATCH_SIZE
    && (s.idle.AtFlag? || !s.worker.alive ==> s.worker.batch == [])
    && (!s.raced ==> Applied(exec, s.worker.table, s.worker.batch) == Applied(exec, start, s.taken + s.direct))
  }

  lemma QueuedPut<Db, Row>(s: System<Db, Row>, item: Item<Row>)
    requires Queued(s)
    ensures s.worker.alive ==>
              s.taken + Ahead(s.queue + [item]) == s.put + if item.Write? && !s.sentinel then [item.row] else []
    ensures HasStop(s.queue + [item]) <==> HasStop(s.queue) || item.StopNow?
  {
    AheadSnoc(s.queue, item);
    HasStopSnoc(s.queue, item);
    Assoc(s.taken, Ahead(s.queue), if item.Write? && !HasStop(s.queue) then [item.row] else []);
  }

  lemma QueuedTake<Db, Row>(exec: Sql<Db, Row>, s: System<Db, Row>)
    requires Queued(s) && Enabled(s, Step<Row>.WorkerGets)
    ensures Queued(Next(exec, s, WorkerGets))
  {
    var item, rest := s.queue[0], s.queue[1..];
    HasStopHead(s.queue);
    Assoc(s.taken, if item.Write? then [item.row] else [], Ahead(rest));
    Units(s.taken);
    Units(Ahead(rest));
  }

  lemma QueuedStep<Db, Row>(exec: Sql<Db, Row>, s: System<Db, Row>, step: Step<Row>)
    requires Queued(s) && Enabled(s, step)
    ensures Queued(Next(exec, s, step))
  {
    match step {
      case EnqueueReads(_) =>
      case EnqueuePuts(r) =>
        QueuedPut(s, Write(r));
      case EnqueueSync(_) =>
      case FlushCalled =>
        QueuedPut(s, FlushNow);
        Units(s.put);
      case StopBegins =>
      case StopPuts =>
        QueuedPut(s, StopNow);
        Units(s.put);
      case WorkerGets =>
        QueuedTake(exec, s);
      case WorkerTimesOut =>
      case WorkerFlushes =>
      case WorkerReadsFlag =>
    }
  }

  lemma InvStep<Db, Row>(exec: Sql<Db, Row>, start: Db, s: System<Db, Row>, step: Step<Row>)
    requires Inv(exec, start, s) && Enabled(s, step)
    ensures Inv(exec, start, Next(exec, s, step))
  {
    QueuedStep(exec, s, step);
    if step.EnqueueSync? {
      AppliedAppend(exec, start, s.taken + s.direct, [step.r]);
      AppliedOne(exec, s.worker.table, step.r);
      Assoc(s.taken, s.direct, [step.r]);
    } else if step.WorkerGets? {
      TookApplies(exec, s.worker, Item(s.queue[0]));
      RowsGotOne(Item(s.queue[0]));
      Units(s.taken);
      if s.queue[0].Write? {
        AppliedAppend(exec, start, s.taken, [s.queue[0].row]);
        Units(s.taken + [s.queue[0].row]);
      }
    }
  }

  lemma {:induction false} InvRun<Db, Row>(exec: Sql<Db, Row>, start: Db, s: System<Db, Row>,
                                           steps: seq<Step<Row>>, end: System<Db, Row>)
    requires Inv(exec, start, s) && Reaches(exec, s, steps, end)
    ensures Inv(exec, start, end)
    decreases |steps|
  {
    if steps == [] {
    } else {
      InvStep(exec, start, s, steps[0]);
      InvRun(exec, start, Next(exec, s, steps[0]), steps[1..], end);
    }
  }

  /** No enqueue puts or writes a row once stop has begun. */
  predicate Quiet<Row>(steps: seq<Step<Row>>, stopped: bool) {
    steps == []
    || ((stopped ==> !steps[0].EnqueuePuts? && !steps[0].EnqueueSync?)
        && Quiet(steps[1..], stopped || steps[0].StopBegins?))
  }

  lemma {:induction false} QuietRun<Db, Row>(exec: Sql<Db, Row>, s: System<Db, Row>, steps: seq<Step<Row>>,
                                             end: System<Db, Row>)
    requires Queued(s) && Reaches(exec, s, steps, end) && Quiet(steps, !s.running)
    requires s.accepted == s.put && s.direct == [] && !s.raced
    ensures end.accepted == end.put && end.direct == [] && !end.raced
    decreases |steps|
  {
    if steps == [] {
    } else {
      QueuedStep(exec, s, steps[0]);
      QuietRun(exec, Next(exec, s, steps[0]), steps[1..], end);
    }
  }

  /** The i-th row put was put before stop began. */
  predicate AcceptedAt<Db, Row(==)>(s: System<Db, Row>, i: nat) {
    i < |s.accepted|
  }

  /** The i-th row put was still queued when a flag read ended the worker. */
  predicate LostAt<Db, Row(==)>(s: System<Db, Row>, i: nat) {
    |s.taken| <= i < |s.put|
  }

  /** Refinement: whatever the interleaving of enqueues, flushes, stop, gets and timeouts, once the
      worker has ended without a racing write the table is the rows it took, and then those written
      directly, applied in order with failing ones skipped. What it took is what was put, in the order of
      the puts; it begins with every row accepted before stop if and only if none of these is among the rows
      lost at its end. */
  lemma WriterRefinement<Db, Row>(exec: Sql<Db, Row>, start: Db, steps: seq<Step<Row>>, end: System<Db, Row>)
    requires Reaches(exec, Started(start), steps, end)
    requires !end.worker.alive && !end.raced
    ensures end.worker.table == Applied(exec, start, end.taken + end.direct)
    ensures end.put == end.taken + end.lost && end.accepted <= end.put
    ensures end.accepted <= end.taken <==> forall i: nat :: LostAt(end, i) ==> !AcceptedAt(end, i)
  {
    InvRun(exec, start, Started(start), steps, end);
    if |end.accepted| <= |end.taken| {
      PrefixOfPrefix(end.accepted, end.taken, end.lost);
    } else {
      assert LostAt(end, |end.taken|) && AcceptedAt(end, |end.taken|);
    }
  }

  lemma PrefixOfPrefix<T>(a: seq<T>, b: seq<T>, c: seq<T>)
    requires a <= b + c && |a| <= |b|
    ensures a <= b
  {
    assert a == (b + c)[..|a|] == b[..|a|];
  }

  /** If no enqueue overlaps the stop, every accepted row is written, in order, if and only if the
      worker's last flag read found no row queued. */
  lemma QuietStopExactly<Db, Row>(exec: Sql<Db, Row>, start: Db, steps: seq<Step<Row>>, end: System<Db, Row>)
    requires Reaches(exec, Started(start), steps, end)
    requires !end.worker.alive && Quiet(steps, false)
    ensures end.worker.table == Applied(exec, start, end.taken)
    ensures end.accepted == end.taken + end.lost
    ensures end.taken == end.accepted <==> end.lost == []
  {
    InvRun(exec, start, Started(start), steps, end);
    QuietRun(exec, Started(start), steps, end);
    Units(end.taken);
  }

  /** While the writer runs, nothing is lost or reordered: the table, the rows held back and the
      queue amount to the accepted rows. */
  lemma NothingLostWhileRunning<Db, Row>(exec: Sql<Db, Row>, start: Db, steps: seq<Step<Row>>,
                                         end: System<Db, Row>)
    requires Reaches(exec, Started(start), steps, end) && end.running
    ensures Applied(exec, end.worker.table, end.worker.batch + Ahead(end.queue)) == Applied(exec, start, end.accepted)
    ensures |end.worker.batch| < 50
  {
    InvRun(exec, start, Started(start), steps, end);
    Units(end.taken);
    AppliedAppend(exec, end.worker.table, end.worker.batch, Ahead(end.queue));
    AppliedAppend(exec, start, end.taken, Ahead(end.queue));
  }

  // ---------- runs that go wrong ----------

  function Log(table: seq<int>, row: int): Option<seq<int>> {
    Some(table + [row])
  }

  lemma ReachesFirst<Db, Row>(exec: Sql<Db, Row>, s: System<Db, Row>, step: Step<Row>, rest: seq<Step<Row>>,
                              next: System<Db, Row>, end: System<Db, Row>)
    requires Enabled(s, step) && next == Next(exec, s, step) && Reaches(exec, next, rest, end)
    ensures Reaches(exec, s, [step] + rest, end)
  {
    assert ([step] + rest)[1..] == rest;
  }

  lemma QuietFirst<Row>(step: Step<Row>, rest: seq<Step<Row>>, stopped: bool)
    requires stopped ==> !step.EnqueuePuts? && !step.EnqueueSync?
    requires Quiet(rest, stopped || step.StopBegins?)
    ensures Quiet([step] + rest, stopped)
  {
    assert ([step] + rest)[1..] == rest;
  }

  /** The end of the run below: stop begins, the batch is flushed, the flag is read. */
  lemma StopAfterTimeout(s: System<seq<int>, int>) returns (steps: seq<Step<int>>, end: System<seq<int>, int>)
    requires s == Started<seq<int>, int>([]).(idle := TimedOut, queue := [Write(1)], accepted := [1], put := [1])
    ensures Reaches(Log, s, steps, end) && Quiet(steps, false)
    ensures !end.worker.alive && end.accepted == [1] && end.lost == [1] && end.worker.table == []
  {
    var s1 := s.(running := false);
    var s2 := s1.(idle := AtFlag);
    end := s2.(idle := Getting, worker := Worker([], [], false), lost := [1]);
    assert Ahead([Write(1)]) == [1] by { assert [Write(1)][1..] == []; }
    steps := [];
    ReachesFirst(Log, s2, WorkerReadsFlag, steps, end, end);
    QuietFirst(WorkerReadsFlag, steps, true);
    steps := [WorkerReadsFlag] + steps;
    ReachesFirst(Log, s1, WorkerFlushes, steps, s2, end);
    QuietFirst(WorkerFlushes, steps, true);
    steps := [WorkerFlushes] + steps;
    ReachesFirst(Log, s, StopBegins, steps, s1, end);
    QuietFirst(StopBegins, steps, false);
    steps := [StopBegins] + steps;
  }

  /** A row that is put after the get has timed out is lost when stop lowers the flag before the worker
      reads it, although the row was accepted before stop began and no enqueue overlaps the stop. */
  lemma AcceptedRowIsLost() returns (steps: seq<Step<int>>, end: System<seq<int>, int>)
    ensures Reaches(Log, Started([]), steps, end) && !end.worker.alive && Quiet(steps, false)
    ensures end.accepted == [1] && end.lost == [1] && end.worker.table == []
  {
    var s0 := Started<seq<int>, int>([]).(idle := TimedOut);
    var s1 := s0.(admitted := multiset{1});
    var s2 := s0.(queue := [Write(1)], accepted := [1], put := [1]);
    steps, end := StopAfterTimeout(s2);
    ReachesFirst(Log, s1, EnqueuePuts(1), steps, s2, end);
    QuietFirst(EnqueuePuts(1), steps, false);
    steps := [EnqueuePuts(1)] + steps;
    ReachesFirst(Log, s0, EnqueueReads(1), steps, s1, end);
    QuietFirst(EnqueueReads(1), steps, false);
    steps := [EnqueueReads(1)] + steps;
    ReachesFirst(Log, Started([]), WorkerTimesOut, steps, s0, end);
    QuietFirst(WorkerTimesOut, steps, false);
    steps := [WorkerTimesOut] + steps;
  }

  /** An enqueue that overlaps stop may overtake: its direct write lands ahead of a row that was
      accepted before stop began. */
  lemma OverlappingEnqueueOvertakes() returns (steps: seq<Step<int>>, end: System<seq<int>, int>)
    ensures Reaches(Log, Started([]), steps, end) && !end.worker.alive
    ensures end.accepted == [1] && end.lost == [] && end.worker.table == [2, 1]
  {
    var s0 := Started<seq<int>, int>([]);
    var s1 := s0.(admitted := multiset{1});
    var s2 := s0.(queue := [Write(1)], accepted := [1], put := [1]);
    var s3 := s2.(running := false);
    var s4 := s3.(worker := Worker([2], [], true), raced := true);
    var s5 := s4.(queue := [Write(1), StopNow], sentinel := true);
    var s6 := s5.(worker := Worker([2], [1], true), queue := [StopNow], taken := [1]);
    AppliedOne(Log, [2], 1);
    assert [2] + [1] == [2, 1] && [] + [2] == [2];
    end := s6.(worker := Worker([2, 1], [], false), queue := []);
    steps := [];
    ReachesFirst(Log, s6, WorkerGets, steps, end, end);
    steps := [WorkerGets] + steps;
    ReachesFirst(Log, s5, WorkerGets, steps, s6, end);
    steps := [WorkerGets] + steps;
    ReachesFirst(Log, s4, StopPuts, steps, s5, end);
    steps := [StopPuts] + steps;
    ReachesFirst(Log, s3, EnqueueSync(2), steps, s4, end);
    steps := [EnqueueSync(2)] + steps;
    ReachesFirst(Log, s2, StopBegins, steps, s3, end);
    steps := [StopBegins] + steps;
    ReachesFirst(Log, s1, EnqueuePuts(1), steps, s2, end);
    steps := [EnqueuePuts(1)] + steps;
    ReachesFirst(Log, s0, EnqueueReads(1), steps, s1, end);
    steps := [EnqueueReads(1)] + steps;
  }

  lemma {:induction false} AppliedLog(table: seq<int>, rows: seq<int>)
    ensures Applied(Log, table, rows) == table + rows
    decreases |rows|
  {
    if rows == [] {
      Units(table);
    } else {
      AppliedLog(table + [rows[0]], rows[1..]);
      Assoc(table, [rows[0]], rows[1..]);
      HeadTail(rows);
    }
  }

  /** A race leaves more in the log than was taken and written directly. */
  ghost predicate RacesCount(start: seq<int>, s: System<seq<int>, int>) {
    |s.worker.table| + |s.worker.batch| >= |start| + |s.taken| + |s.direct| + if s.raced then 1 else 0
  }

  lemma RacesCountStep(start: seq<int>, s: System<seq<int>, int>, step: Step<int>)
    requires RacesCount(start, s) && Enabled(s, step)
    ensures RacesCount(start, Next(Log, s, step))
  {
    AppliedLog(s.worker.table, s.worker.batch);
    if step.WorkerGets? && s.queue[0].Write? {
      AppliedLog(s.worker.table, s.worker.batch + [s.queue[0].row]);
    }
  }

  lemma {:induction false} RacesCountRun(start: seq<int>, s: System<seq<int>, int>, steps: seq<Step<int>>,
                                         end: System<seq<int>, int>)
    requires RacesCount(start, s) && Reaches(Log, s, steps, end)
    ensures RacesCount(start, end)
    decreases |steps|
  {
    if steps == [] {
    } else {
      RacesCountStep(start, s, steps[0]);
      RacesCountRun(start, Next(Log, s, steps[0]), steps[1..], end);
    }
  }

  /** For a log, which shows every row and its place, the table is the rows taken and then those written
      directly exactly when no enqueue wrote on its own while the worker was still alive. */
  lemma LogShowsEveryRace(start: seq<int>, steps: seq<Step<int>>, end: System<seq<int>, int>)
    requires Reaches(Log, Started(start), steps, end) && !end.worker.alive
    ensures end.worker.table == Applied(Log, start, end.taken + end.direct) <==> !end.raced
  {
    AppliedLog(start, end.taken + end.direct);
    InvRun(Log, start, Started(start), steps, end);
    RacesCountRun(start, Started(start), steps, end);
  }

  /** And after a quiet stop it holds every accepted row exactly when none was lost. */
  lemma LogShowsEveryLoss(start: seq<int>, steps: seq<Step<int>>, end: System<seq<int>, int>)
    requires Reaches(Log, Started(start), steps, end) && !end.worker.alive && Quiet(steps, false)
    ensures end.worker.table == Applied(Log, start, end.accepted) <==> end.lost == []
  {
    QuietStopExactly(Log, start, steps, end);
    AppliedLog(start, end.taken);
    AppliedLog(start, end.accepted);
    Units(end.taken);
    if end.lost != [] {
      assert |start + end.taken| < |start + end.accepted|;
    }
  }
}
