/**
 Any number of producers, workers and cleaners on one stream as a state machine. A cleaner reads a batch,
 or the oldest pending id, and sends its acks, deletes and trim one by one later.
 */
module QueueMachine {
  import opened TaskQueues

  type CleanerId = string

  datatype Command = Ack(id: MessageId) | Del(id: MessageId) | Trim(minid: MessageId)

  datatype Delivery = Delivery(id: MessageId, worker: WorkerId)

  /** `enqueued`, `acked`, `staleDeleted` and `deliveries` are history. */
  datatype State = State(
    clock: int,
    queue: Stream,
    todo: map<CleanerId, seq<Command>>,
    enqueued: set<MessageId>,
    acked: set<MessageId>,
    staleDeleted: set<MessageId>,
    deliveries: seq<Delivery>)

  datatype Step =
    | Tick(ms: nat)
    | Enqueue(id: MessageId)
    | Dequeue(worker: WorkerId)
    | WorkerAck(delivery: Delivery)
    | ReadBatch(cleaner: CleanerId, staleAge: int)
    | ReadOldest(cleaner: CleanerId)
    | Execute(cleaner: CleanerId, dropped: nat)
    | Crash(cleaner: CleanerId)

  function Todo(s: State, cleaner: CleanerId): seq<Command> {
    if cleaner in s.todo then s.todo[cleaner] else []
  }

  /** The state once the consumer group exists. */
  predicate Init(s: State) {
    && s.queue == Stream([], 0, 0, [])
    && s.todo == map[] && s.enqueued == {} && s.acked == {} && s.staleDeleted == {} && s.deliveries == []
  }

  predicate Enabled(s: State, step: Step) {
    match step
    case Tick(_) => true
    case Enqueue(id) => id > s.queue.lastId
    case Dequeue(_) => CanRead(s.queue)
    case WorkerAck(delivery) => delivery in s.deliveries
    case ReadBatch(cleaner, _) => Todo(s, cleaner) == []
    case ReadOldest(cleaner) => Todo(s, cleaner) == []
    case Execute(cleaner, dropped) =>
      && Todo(s, cleaner) != []
      && (Todo(s, cleaner)[0].Trim? ==> dropped <= CountBelow(s.queue.entries, Todo(s, cleaner)[0].minid))
    case Crash(_) => true
  }

  /** The commands that a loop over a batch sends. */
  function Deletions(stale: seq<PendingMessage>): seq<Command> {
    seq(2 * |stale|, i requires 0 <= i < 2 * |stale| =>
      if i % 2 == 0 then Command.Ack(stale[i / 2].id) else Command.Del(stale[i / 2].id))
  }

  function Next(s: State, step: Step): State
    requires Enabled(s, step)
  {
    match step
    case Tick(ms) => s.(clock := s.clock + ms)
    case Enqueue(id) => s.(queue := Xadd(s.queue, id), enqueued := s.enqueued + {id})
    case Dequeue(worker) =>
      var queue := XreadgroupOne(s.queue, worker, s.clock);
      s.(queue := queue, deliveries := s.deliveries + [Delivery(queue.cursor, worker)])
    case WorkerAck(delivery) => AckedByWorker(s, delivery.id)
    case ReadBatch(cleaner, staleAge) =>
      s.(todo := s.todo[cleaner := Deletions(StaleUntilBreak(FirstBatch(s.queue.pending), s.clock, staleAge))])
    case ReadOldest(cleaner) =>
      if s.queue.pending == [] then s
      else s.(todo := s.todo[cleaner := [Command.Trim(s.queue.pending[0].id)]])
    case Execute(cleaner, dropped) =>
      Executed(s, Todo(s, cleaner)[0], dropped).(todo := s.todo[cleaner := Todo(s, cleaner)[1..]])
    case Crash(cleaner) => s.(todo := s.todo - {cleaner})
  }

  function AckedByWorker(s: State, id: MessageId): State {
    s.(queue := Xack(s.queue, id), acked := s.acked + ({id} * IdSet(s.queue.pending)))
  }

  function Executed(s: State, command: Command, dropped: nat): State
    requires command.Trim? ==> dropped <= |s.queue.entries|
  {
    match command
    case Ack(id) => s.(queue := Xack(s.queue, id), staleDeleted := s.staleDeleted + ({id} * IdSet(s.queue.pending)))
    case Del(id) => s.(queue := Xdel(s.queue, id))
    case Trim(_) => s.(queue := Xtrim(s.queue, dropped))
  }

  ghost predicate IsRun(states: seq<State>, steps: seq<Step>) {
    && |states| == |steps| + 1
    && Init(states[0])
    && (forall i :: 0 <= i < |steps| ==> Enabled(states[i], steps[i]) && states[i + 1] == Next(states[i], steps[i]))
  }

  // ---------------------------------------------------------------- invariant

  ghost predicate StreamOk(s: State) {
    && Ascending(s.queue.entries)
    && s.queue.cursor <= s.queue.lastId
    && (forall x :: x in s.queue.entries ==> x in s.enqueued)
    && (forall x :: x in s.enqueued ==> 0 < x <= s.queue.lastId)
    && (forall x :: x in s.enqueued && x > s.queue.cursor ==> x in s.queue.entries)
  }

  ghost predicate PendingOk(s: State) {
    && DeliveredInOrder(s.queue.pending)
    && (forall m :: m in s.queue.pending ==> m.id in s.enqueued && m.id <= s.queue.cursor && m.deliveredAt <= s.clock)
    && (forall m :: m in s.queue.pending ==> Delivery(m.id, m.worker) in s.deliveries)
  }

  function Settled(s: State): set<MessageId> { s.acked + s.staleDeleted }

  ghost predicate HistoryOk(s: State) {
    && s.acked !! s.staleDeleted
    && Settled(s) !! IdSet(s.queue.pending)
    && (forall x :: x in Settled(s) ==> x in s.enqueued && x <= s.queue.cursor)
    && (forall x :: x in s.enqueued && x <= s.queue.cursor ==> x in Settled(s) || x in IdSet(s.queue.pending))
  }

  ghost predicate DeliveriesOk(s: State) {
    && (forall i, j :: 0 <= i < j < |s.deliveries| ==> s.deliveries[i].id < s.deliveries[j].id)
    && (forall d :: d in s.deliveries ==> d.id in s.enqueued && d.id <= s.queue.cursor)
  }

  ghost predicate CommandOk(s: State, commands: seq<Command>, i: nat)
    requires i < |commands|
  {
    match commands[i]
    case Ack(id) => id in s.enqueued && id <= s.queue.cursor
    case Del(id) =>
      && id in s.enqueued && id <= s.queue.cursor
      && (if i == 0 then id !in IdSet(s.queue.pending) else commands[i - 1] == Command.Ack(id))
    case Trim(minid) => minid <= s.queue.cursor && forall m :: m in s.queue.pending ==> minid <= m.id
  }

  /** What a cleaner still has to send concerns only messages that were delivered when it read them. */
  ghost predicate CommandsOk(s: State, commands: seq<Command>) {
    forall i :: 0 <= i < |commands| ==> CommandOk(s, commands, i)
  }

  ghost predicate TodoOk(s: State) {
    forall cleaner :: cleaner in s.todo ==> CommandsOk(s, s.todo[cleaner])
  }

  ghost predicate Inv(s: State) {
    StreamOk(s) && PendingOk(s) && HistoryOk(s) && DeliveriesOk(s) && TodoOk(s)
  }

  /** The first undelivered entry is the smallest one above the cursor. */
  lemma {:induction false} FirstUndelivered(entries: seq<MessageId>, cursor: nat)
    requires Ascending(entries) && Undelivered(entries, cursor) != []
    ensures var id := Undelivered(entries, cursor)[0];
            id in entries && id > cursor && forall x :: x in entries && x > cursor ==> x >= id
  {
    if entries[0] <= cursor {
      FirstUndelivered(entries[1..], cursor);
    }
  }

  lemma {:induction false} RemovePendingOrder(pending: seq<PendingMessage>, id: MessageId)
    requires DeliveredInOrder(pending)
    ensures DeliveredInOrder(RemovePending(pending, id))
  {
    if pending != [] {
      var rest := RemovePending(pending[1..], id);
      RemovePendingOrder(pending[1..], id);
      forall m | m in rest
        ensures pending[0].id < m.id && pending[0].deliveredAt <= m.deliveredAt
      {
        assert m in pending[1..];
      }
    }
  }

  lemma RemovePendingIds(pending: seq<PendingMessage>, id: MessageId)
    ensures IdSet(RemovePending(pending, id)) == IdSet(pending) - {id}
  {
    forall x | x in IdSet(pending) - {id}
      ensures x in IdSet(RemovePending(pending, id))
    {
      var m :| m in pending && m.id == x;
      assert m in RemovePending(pending, id);
    }
  }

  lemma PrependAscending(x: MessageId, ids: seq<MessageId>)
    requires Ascending(ids) && forall y :: y in ids ==> x < y
    ensures Ascending([x] + ids)
  {
    assert forall i :: 0 <= i < |ids| ==> ids[i] in ids;
  }

  lemma FirstIsLeast(ids: seq<MessageId>)
    requires Ascending(ids) && ids != []
    ensures Ascending(ids[1..]) && forall y :: y in ids[1..] ==> ids[0] < y
  {
  }

  lemma {:induction false} WithoutKeepsOrder(ids: seq<MessageId>, gone: set<MessageId>)
    requires Ascending(ids)
    ensures Ascending(Without(ids, gone))
  {
    if ids != [] {
      FirstIsLeast(ids);
      WithoutKeepsOrder(ids[1..], gone);
      PrependAscending(ids[0], Without(ids[1..], gone));
    }
  }

  /** What cleaners still have to send stays harmless while ids only grow and only newer messages become pending. */
  lemma TodoStable(s: State, t: State)
    requires TodoOk(s) && t.todo == s.todo
    requires s.enqueued <= t.enqueued && s.queue.cursor <= t.queue.cursor
    requires forall m :: m in t.queue.pending ==> m in s.queue.pending || m.id > s.queue.cursor
    ensures TodoOk(t)
  {
    forall cleaner | cleaner in t.todo
      ensures CommandsOk(t, t.todo[cleaner])
    {
      var commands := s.todo[cleaner];
      forall i | 0 <= i < |commands|
        ensures CommandOk(t, commands, i)
      {
        assert CommandOk(s, commands, i);
      }
    }
  }

  lemma TodoWith(s: State, cleaner: CleanerId, commands: seq<Command>)
    requires TodoOk(s) && CommandsOk(s, commands)
    ensures TodoOk(s.(todo := s.todo[cleaner := commands]))
  {
    var t := s.(todo := s.todo[cleaner := commands]);
    forall other | other in t.todo
      ensures CommandsOk(t, t.todo[other])
    {
      SameStream(s, t, t.todo[other]);
    }
  }

  lemma SameStream(s: State, t: State, commands: seq<Command>)
    requires CommandsOk(s, commands) && t.queue == s.queue && t.enqueued == s.enqueued
    ensures CommandsOk(t, commands)
  {
    forall i | 0 <= i < |commands|
      ensures CommandOk(t, commands, i)
    {
      assert CommandOk(s, commands, i);
    }
  }

  lemma InvEnqueue(s: State, id: MessageId)
    requires Inv(s) && id > s.queue.lastId
    ensures Inv(Next(s, Enqueue(id)))
  {
    var t := Next(s, Enqueue(id));
    assert forall i :: 0 <= i < |s.queue.entries| ==> s.queue.entries[i] in s.enqueued;
    assert Ascending(t.queue.entries);
    TodoStable(s, t);
  }

  lemma InvXack(s: State, id: MessageId, t: State)
    requires Inv(s)
    requires t.queue == Xack(s.queue, id)
    requires t == s.(queue := t.queue, acked := t.acked, staleDeleted := t.staleDeleted)
    requires Settled(t) == Settled(s) + ({id} * IdSet(s.queue.pending)) && t.acked !! t.staleDeleted
    ensures Inv(t)
  {
    RemovePendingOrder(s.queue.pending, id);
    RemovePendingIds(s.queue.pending, id);
    assert forall m :: m in s.queue.pending ==> m.id in IdSet(s.queue.pending);
    TodoStable(s, t);
  }

  lemma AppendPending(pending: seq<PendingMessage>, m: PendingMessage)
    requires DeliveredInOrder(pending)
    requires forall p :: p in pending ==> p.id < m.id && p.deliveredAt <= m.deliveredAt
    ensures DeliveredInOrder(pending + [m])
    ensures IdSet(pending + [m]) == IdSet(pending) + {m.id}
  {
    assert forall i :: 0 <= i < |pending| ==> pending[i] in pending;
    assert m in pending + [m];
    forall x | x in IdSet(pending)
      ensures x in IdSet(pending + [m])
    {
      var p :| p in pending && p.id == x;
      assert p in pending + [m];
    }
  }

  /** The message handed out is the oldest undelivered one, and all older ones are pending or settled. */
  lemma DequeueStream(s: State, worker: WorkerId)
    requires StreamOk(s) && CanRead(s.queue)
    ensures var id := Next(s, Dequeue(worker)).queue.cursor;
            && id in s.enqueued && id > s.queue.cursor
            && forall x :: x in s.enqueued && s.queue.cursor < x <= id ==> x == id
    ensures StreamOk(Next(s, Dequeue(worker)))
  {
    FirstUndelivered(s.queue.entries, s.queue.cursor);
  }

  lemma DequeuePending(s: State, worker: WorkerId)
    requires Inv(s) && CanRead(s.queue)
    ensures PendingOk(Next(s, Dequeue(worker)))
    ensures IdSet(Next(s, Dequeue(worker)).queue.pending)
         == IdSet(s.queue.pending) + {Next(s, Dequeue(worker)).queue.cursor}
  {
    DequeueStream(s, worker);
    AppendPending(s.queue.pending, PendingMessage(Next(s, Dequeue(worker)).queue.cursor, worker, s.clock));
  }

  lemma DequeueHistory(s: State, t: State, id: MessageId)
    requires HistoryOk(s) && id !in Settled(s) && s.queue.cursor < id == t.queue.cursor
    requires IdSet(t.queue.pending) == IdSet(s.queue.pending) + {id}
    requires t.acked == s.acked && t.staleDeleted == s.staleDeleted && t.enqueued == s.enqueued
    requires forall x :: x in s.enqueued && s.queue.cursor < x <= id ==> x == id
    ensures HistoryOk(t)
  {
    forall x | x in t.enqueued && x <= t.queue.cursor
      ensures x in Settled(t) || x in IdSet(t.queue.pending)
    {
      assert x <= s.queue.cursor ==> x in Settled(s) || x in IdSet(s.queue.pending);
    }
  }

  lemma DequeueDeliveries(s: State, t: State, id: MessageId, worker: WorkerId)
    requires DeliveriesOk(s) && s.queue.cursor < id == t.queue.cursor && id in s.enqueued
    requires t.deliveries == s.deliveries + [Delivery(id, worker)] && t.enqueued == s.enqueued
    ensures DeliveriesOk(t)
  {
    assert forall i :: 0 <= i < |s.deliveries| ==> s.deliveries[i] in s.deliveries;
  }

  lemma InvDequeue(s: State, worker: WorkerId)
    requires Inv(s) && CanRead(s.queue)
    ensures Inv(Next(s, Dequeue(worker)))
  {
    var t := Next(s, Dequeue(worker));
    DequeueStream(s, worker);
    DequeuePending(s, worker);
    DequeueHistory(s, t, t.queue.cursor);
    DequeueDeliveries(s, t, t.queue.cursor, worker);
    TodoStable(s, t);
  }

  lemma DeletionsOk(s: State, stale: seq<PendingMessage>)
    requires PendingOk(s) && forall m :: m in stale ==> m in s.queue.pending
    ensures CommandsOk(s, Deletions(stale))
  {
    var commands := Deletions(stale);
    forall i | 0 <= i < |commands|
      ensures CommandOk(s, commands, i)
    {
      assert stale[i / 2] in stale;
    }
  }

  lemma InvReadBatch(s: State, cleaner: CleanerId, staleAge: int)
    requires Inv(s) && Todo(s, cleaner) == []
    ensures Inv(Next(s, ReadBatch(cleaner, staleAge)))
  {
    var stale := StaleUntilBreak(FirstBatch(s.queue.pending), s.clock, staleAge);
    DeletionsOk(s, stale);
    TodoWith(s, cleaner, Deletions(stale));
  }

  lemma InvReadOldest(s: State, cleaner: CleanerId)
    requires Inv(s) && Todo(s, cleaner) == [] && s.queue.pending != []
    ensures Inv(Next(s, ReadOldest(cleaner)))
  {
    var commands := [Command.Trim(s.queue.pending[0].id)];
    assert CommandOk(s, commands, 0);
    TodoWith(s, cleaner, commands);
  }

  /** Running a command keeps the stream and its history in order. */
  lemma InvExecuted(s: State, cleaner: CleanerId, dropped: nat)
    requires Inv(s) && Enabled(s, Execute(cleaner, dropped))
    ensures Inv(Executed(s, Todo(s, cleaner)[0], dropped))
  {
    var command := Todo(s, cleaner)[0];
    var t := Executed(s, command, dropped);
    assert CommandOk(s, Todo(s, cleaner), 0);
    match command
    case Ack(id) => InvXack(s, id, t);
    case Del(id) =>
      WithoutKeepsOrder(s.queue.entries, {id});
      TodoStable(s, t);
    case Trim(minid) =>
      TrimKeepsUndelivered(s.queue, minid, dropped);
      TodoStable(s, t);
  }

  lemma TrimKeepsUndelivered(q: Stream, minid: MessageId, dropped: nat)
    requires Ascending(q.entries) && dropped <= CountBelow(q.entries, minid)
    ensures Ascending(Xtrim(q, dropped).entries)
    ensures forall x :: x in Xtrim(q, dropped).entries ==> x in q.entries
    ensures forall x :: x in q.entries && x >= minid ==> x in Xtrim(q, dropped).entries
  {
    assert q.entries == q.entries[..dropped] + q.entries[dropped..];
  }

  /** ... and the rest of the cleaner's list may follow, an ack always coming before its delete. */
  lemma InvExecute(s: State, cleaner: CleanerId, dropped: nat)
    requires Inv(s) && Enabled(s, Execute(cleaner, dropped))
    ensures Inv(Next(s, Execute(cleaner, dropped)))
  {
    var commands := Todo(s, cleaner);
    var t := Executed(s, commands[0], dropped);
    InvExecuted(s, cleaner, dropped);
    assert CommandsOk(t, commands);
    RemovePendingIds(s.queue.pending, if commands[0].Ack? then commands[0].id else 0);
    forall i | 0 <= i < |commands[1..]|
      ensures CommandOk(t, commands[1..], i)
    {
      assert CommandOk(t, commands, i + 1);
    }
    TodoWith(t, cleaner, commands[1..]);
  }

  lemma InvNext(s: State, step: Step)
    requires Inv(s) && Enabled(s, step)
    ensures Inv(Next(s, step))
  {
    match step
    case Tick(_) => TodoStable(s, Next(s, step));
    case Enqueue(id) => InvEnqueue(s, id);
    case Dequeue(worker) => InvDequeue(s, worker);
    case WorkerAck(delivery) => InvXack(s, delivery.id, AckedByWorker(s, delivery.id));
    case ReadBatch(cleaner, staleAge) => InvReadBatch(s, cleaner, staleAge);
    case ReadOldest(cleaner) =>
      if s.queue.pending != [] {
        InvReadOldest(s, cleaner);
      }
    case Execute(cleaner, dropped) => InvExecute(s, cleaner, dropped);
    case Crash(cleaner) => InvCrash(s, cleaner);
  }

  lemma InvCrash(s: State, cleaner: CleanerId)
    requires Inv(s)
    ensures Inv(s.(todo := s.todo - {cleaner}))
  {
    forall other | other in s.todo - {cleaner}
      ensures CommandsOk(s.(todo := s.todo - {cleaner}), s.todo[other])
    {
      SameStream(s, s.(todo := s.todo - {cleaner}), s.todo[other]);
    }
  }

  lemma {:induction false} InvHolds(states: seq<State>, steps: seq<Step>, i: nat)
    requires IsRun(states, steps) && i < |states|
    ensures Inv(states[i])
  {
    if i > 0 {
      InvHolds(states, steps, i - 1);
      InvNext(states[i - 1], steps[i - 1]);
    }
  }

  // ---------------------------------------------------------------- theorems

  function UndeliveredIds(s: State): set<MessageId> {
    set x | x in Undelivered(s.queue.entries, s.queue.cursor)
  }

  /** Every enqueued message is in exactly one of undelivered, pending at one worker, acked, stale-deleted. */
  lemma MessageConservation(states: seq<State>, steps: seq<Step>, i: nat)
    requires IsRun(states, steps) && i < |states|
    ensures var s := states[i];
            && s.enqueued == UndeliveredIds(s) + IdSet(s.queue.pending) + s.acked + s.staleDeleted
            && UndeliveredIds(s) !! IdSet(s.queue.pending) !! s.acked !! s.staleDeleted
            && (forall m, n :: m in s.queue.pending && n in s.queue.pending && m.id == n.id ==> m == n)
  {
    InvHolds(states, steps, i);
  }

  /** Messages are handed out in increasing order, so none is ever handed to two workers or twice to one. */
  lemma AtMostOnceDelivery(states: seq<State>, steps: seq<Step>, i: nat)
    requires IsRun(states, steps) && i < |states|
    ensures var d := states[i].deliveries; forall j, k :: 0 <= j < k < |d| ==> d[j].id < d[k].id
    ensures forall m :: m in states[i].queue.pending ==> Delivery(m.id, m.worker) in states[i].deliveries
  {
    InvHolds(states, steps, i);
  }

  /**
   Whatever happened since a cleaner read its bound or its batch, no step ever removes from the stream a
   message that is undelivered or pending: only acked or stale-deleted ones go.
   */
  lemma RemovalIsSafe(states: seq<State>, steps: seq<Step>, i: nat, x: MessageId)
    requires IsRun(states, steps) && i < |steps|
    requires x in states[i].queue.entries && x !in states[i + 1].queue.entries
    ensures x in states[i].acked + states[i].staleDeleted
  {
    var s, step := states[i], steps[i];
    InvHolds(states, steps, i);
    if step.Execute? {
      var commands := Todo(s, step.cleaner);
      assert CommandOk(s, commands, 0);
      if commands[0].Trim? {
        TrimKeepsUndelivered(s.queue, commands[0].minid, step.dropped);
      }
    }
  }

  /** A pending message carries the worker that read it and the moment at which it was read. */
  lemma {:induction false} DeliveryIsStamped(states: seq<State>, steps: seq<Step>, i: nat, m: PendingMessage)
    returns (j: nat)
    requires IsRun(states, steps) && i < |states| && m in states[i].queue.pending
    ensures j < i && steps[j] == Dequeue(m.worker)
    ensures states[j].queue.cursor < m.id == states[j + 1].queue.cursor
    ensures m.deliveredAt == states[j].clock
  {
    if m in states[i - 1].queue.pending {
      j := DeliveryIsStamped(states, steps, i - 1, m);
    } else {
      j := i - 1;
      InvHolds(states, steps, j);
      DequeueStream(states[j], m.worker);
    }
  }

  /** An ack and a delete for each of the first `n` pending messages in turn. */
  ghost predicate DeletesFirst(pending: seq<PendingMessage>, commands: seq<Command>, n: nat) {
    && n <= |pending| && |commands| == 2 * n
    && (forall k :: 0 <= k < n ==>
          commands[2 * k] == Command.Ack(pending[k].id) && commands[2 * k + 1] == Command.Del(pending[k].id))
  }

  lemma Halves(k: nat)
    ensures 2 * k / 2 == k && 2 * k % 2 == 0 && (2 * k + 1) / 2 == k && (2 * k + 1) % 2 == 1
  {
  }

  lemma PairAt(stale: seq<PendingMessage>, k: nat)
    requires k < |stale|
    ensures Deletions(stale)[2 * k] == Command.Ack(stale[k].id)
    ensures Deletions(stale)[2 * k + 1] == Command.Del(stale[k].id)
  {
    Halves(k);
    var even, odd := 2 * k, 2 * k + 1;
    assert Deletions(stale)[even] == Command.Ack(stale[even / 2].id);
    assert Deletions(stale)[odd] == Command.Del(stale[odd / 2].id);
  }

  lemma DeletionsAt(pending: seq<PendingMessage>, n: nat)
    requires n <= |pending|
    ensures DeletesFirst(pending, Deletions(pending[..n]), n)
  {
    forall k | 0 <= k < n
      ensures Deletions(pending[..n])[2 * k] == Command.Ack(pending[k].id)
      ensures Deletions(pending[..n])[2 * k + 1] == Command.Del(pending[k].id)
    {
      PairAt(pending[..n], k);
    }
  }

  /** The commands of a batch, in terms of the pending list. */
  lemma BatchCommands(pending: seq<PendingMessage>, clock: int, staleAge: int) returns (n: nat)
    ensures n <= |pending| && n <= 100
    ensures DeletesFirst(pending, Deletions(StaleUntilBreak(FirstBatch(pending), clock, staleAge)), n)
    ensures forall k :: 0 <= k < n ==> clock - pending[k].deliveredAt > staleAge
    ensures n < |pending| && n < 100 ==> clock - pending[n].deliveredAt <= staleAge
  {
    var stale := StaleUntilBreak(FirstBatch(pending), clock, staleAge);
    n := |stale|;
    BatchAges(pending, clock, staleAge);
    assert stale == pending[..n];
    DeletionsAt(pending, n);
  }

  /** The message with this id was read from the stream more than `staleAge` before. */
  ghost predicate ReadLongAgo(states: seq<State>, steps: seq<Step>, i: nat, id: MessageId, staleAge: int)
    requires i < |states| == |steps| + 1
  {
    exists j, worker :: 0 <= j < i && steps[j] == Dequeue(worker) && states[j + 1].queue.cursor == id
                        && states[i].clock - states[j].clock > staleAge
  }

  /**
   A cleaner's batch: an ack and a delete for each of the oldest pending messages, up to a hundred and up to the
   first one that is not overdue, and only for messages that were read from the stream more than that age before.
   */
  lemma BatchIsOverdue(states: seq<State>, steps: seq<Step>, i: nat, cleaner: CleanerId, staleAge: int)
    returns (n: nat)
    requires IsRun(states, steps) && i < |steps| && steps[i] == ReadBatch(cleaner, staleAge)
    ensures cleaner in states[i + 1].todo && n <= |states[i].queue.pending| && n <= 100
    ensures DeletesFirst(states[i].queue.pending, states[i + 1].todo[cleaner], n)
    ensures forall k :: 0 <= k < n ==> ReadLongAgo(states, steps, i, states[i].queue.pending[k].id, staleAge)
    ensures n < |states[i].queue.pending| && n < 100
            ==> states[i].clock - states[i].queue.pending[n].deliveredAt <= staleAge
  {
    var pending := states[i].queue.pending;
    n := BatchCommands(pending, states[i].clock, staleAge);
    forall k | 0 <= k < n
      ensures ReadLongAgo(states, steps, i, pending[k].id, staleAge)
    {
      var j := DeliveryIsStamped(states, steps, i, pending[k]);
    }
  }

  /** Nothing but the stream stands in the way of a step: reads need an undelivered entry, trims older entries. */
  lemma NothingElseBlocks(s: State)
    ensures forall id :: id > s.queue.lastId ==> Enabled(s, Enqueue(id))
    ensures forall worker :: (exists x :: x in s.queue.entries && x > s.queue.cursor) ==> Enabled(s, Dequeue(worker))
    ensures forall delivery :: delivery in s.deliveries ==> Enabled(s, WorkerAck(delivery))
    ensures forall cleaner, staleAge :: Todo(s, cleaner) == [] ==> Enabled(s, ReadBatch(cleaner, staleAge))
    ensures forall cleaner :: Todo(s, cleaner) == [] ==> Enabled(s, ReadOldest(cleaner))
    ensures forall cleaner, dropped: nat ::
              Todo(s, cleaner) != [] && dropped <= |s.queue.entries|
              && (Todo(s, cleaner)[0].Trim? ==> forall i :: 0 <= i < dropped ==>
                                                  s.queue.entries[i] < Todo(s, cleaner)[0].minid)
              ==> Enabled(s, Execute(cleaner, dropped))
  {
  }

  /** What the steps that change the stream or the pending list do, and that they change nothing else there. */
  lemma StepEffects(s: State, step: Step)
    requires Enabled(s, step)
    ensures var q, r := s.queue, Next(s, step).queue;
            match step
            case Enqueue(id) => r == q.(entries := q.entries + [id], lastId := id)
            case WorkerAck(delivery) =>
              && r.entries == q.entries && r.cursor == q.cursor
              && (forall m :: m in r.pending <==> m in q.pending && m.id != delivery.id)
              && (forall m :: m in q.pending && m.id == delivery.id ==> m.id in Next(s, step).acked)
            case ReadOldest(cleaner) =>
              r == q && (q.pending != [] ==> Todo(Next(s, step), cleaner) == [Command.Trim(q.pending[0].id)])
            case Execute(cleaner, dropped) =>
              && Todo(Next(s, step), cleaner) == Todo(s, cleaner)[1..]
              && (match Todo(s, cleaner)[0]
                  case Ack(id) =>
                    && r.entries == q.entries && r.cursor == q.cursor
                    && (forall m :: m in r.pending <==> m in q.pending && m.id != id)
                  case Del(id) =>
                    && r.pending == q.pending && r.cursor == q.cursor
                    && (forall x :: x in r.entries <==> x in q.entries && x != id)
                  case Trim(minid) => r == q.(entries := q.entries[dropped..]))
            case _ => step.Dequeue? || r == q
  {
  }

  /** In every reachable state the batch loop's early break misses no stale message. */
  lemma EarlyBreakIsComplete(states: seq<State>, steps: seq<Step>, i: nat, staleAge: int)
    requires IsRun(states, steps) && i < |states|
    ensures var s := states[i];
            && StaleUntilBreak(s.queue.pending, s.clock, staleAge) == Stale(s.queue.pending, s.clock, staleAge)
            && (StaleUntilBreak(FirstBatch(s.queue.pending), s.clock, staleAge) == []
                <==> Stale(s.queue.pending, s.clock, staleAge) == [])
  {
    InvHolds(states, steps, i);
    BreakMissesNothing(states[i].queue.pending, states[i].clock, staleAge);
  }

  /**
   Whatever producers, workers and other cleaners did before, the pending list is as the cleanup needs it, so from
   any reachable state a cleanup that runs alone deletes exactly what is stale.
   */
  lemma CleanupMayStartAnywhere(states: seq<State>, steps: seq<Step>, i: nat)
    requires IsRun(states, steps) && i < |states|
    ensures DeliveredInOrder(states[i].queue.pending)
    ensures forall m :: m in states[i].queue.pending ==> m.deliveredAt <= states[i].clock
  {
    InvHolds(states, steps, i);
  }
}
