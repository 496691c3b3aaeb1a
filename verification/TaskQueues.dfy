/**
 The stream of one task type with its single consumer group, and the queue operations over it.
 Message ids are numbers; `entries` is the stream, `pending` the group's pending list, both in id order.
 */
module TaskQueues {

  type MessageId = nat
  type WorkerId = string

  datatype PendingMessage = PendingMessage(id: MessageId, worker: WorkerId, deliveredAt: int)

  datatype Stream = Stream(
    entries: seq<MessageId>,
    lastId: nat,
    cursor: nat,
    pending: seq<PendingMessage>)

  const BATCH: nat := 100

  ghost predicate Ascending(ids: seq<MessageId>) {
    forall i, j :: 0 <= i < j < |ids| ==> ids[i] < ids[j]
  }

  function IdSet(pending: seq<PendingMessage>): set<MessageId> {
    set m | m in pending :: m.id
  }

  // ---------------------------------------------------------------- commands

  function Without(ids: seq<MessageId>, gone: set<MessageId>): (r: seq<MessageId>)
    ensures forall x :: x in r <==> x in ids && x !in gone
  {
    if ids == [] then []
    else if ids[0] in gone then Without(ids[1..], gone)
    else [ids[0]] + Without(ids[1..], gone)
  }

  function RemovePending(pending: seq<PendingMessage>, id: MessageId): (r: seq<PendingMessage>)
    ensures forall m :: m in r <==> m in pending && m.id != id
    ensures |r| <= |pending|
  {
    if pending == [] then []
    else if pending[0].id == id then RemovePending(pending[1..], id)
    else [pending[0]] + RemovePending(pending[1..], id)
  }

  /** XADD: ids only grow. */
  function Xadd(q: Stream, id: MessageId): Stream
    requires id > q.lastId
  {
    q.(entries := q.entries + [id], lastId := id)
  }

  /** The undelivered part of the stream. */
  function Undelivered(entries: seq<MessageId>, cursor: nat): (r: seq<MessageId>)
    ensures forall x :: x in r <==> x in entries && x > cursor
  {
    if entries == [] then []
    else if entries[0] > cursor then [entries[0]] + Undelivered(entries[1..], cursor)
    else Undelivered(entries[1..], cursor)
  }

  predicate CanRead(q: Stream) {
    Undelivered(q.entries, q.cursor) != []
  }

  /** XREADGROUP ... '>' COUNT 1: the first undelivered entry becomes pending at the worker. */
  function XreadgroupOne(q: Stream, worker: WorkerId, clock: int): Stream
    requires CanRead(q)
  {
    var id := Undelivered(q.entries, q.cursor)[0];
    q.(cursor := id, pending := q.pending + [PendingMessage(id, worker, clock)])
  }

  function Xack(q: Stream, id: MessageId): Stream {
    q.(pending := RemovePending(q.pending, id))
  }

  function Xdel(q: Stream, id: MessageId): Stream {
    q.(entries := Without(q.entries, {id}))
  }

  /** The number of leading entries below `minid`. */
  function CountBelow(entries: seq<MessageId>, minid: MessageId): (n: nat)
    ensures n <= |entries|
    ensures forall i :: 0 <= i < n ==> entries[i] < minid
    ensures n < |entries| ==> entries[n] >= minid
  {
    if entries == [] || entries[0] >= minid then 0 else 1 + CountBelow(entries[1..], minid)
  }

  /** XTRIM MINID ~: drops the first `dropped` entries, all of them below the bound. */
  function Xtrim(q: Stream, dropped: nat): Stream
    requires dropped <= |q.entries|
  {
    q.(entries := q.entries[dropped..])
  }

  predicate IsStale(m: PendingMessage, clock: int, staleAge: int) {
    clock - m.deliveredAt > staleAge
  }

  /** What the loop over a batch deletes: everything up to the first message that is not stale. */
  function StaleUntilBreak(batch: seq<PendingMessage>, clock: int, staleAge: int): (r: seq<PendingMessage>)
    ensures |r| <= |batch| && r == batch[..|r|]
    ensures forall i :: 0 <= i < |r| ==> IsStale(batch[i], clock, staleAge)
    ensures |r| < |batch| ==> !IsStale(batch[|r|], clock, staleAge)
  {
    if batch == [] || !IsStale(batch[0], clock, staleAge) then []
    else [batch[0]] + StaleUntilBreak(batch[1..], clock, staleAge)
  }

  /** One unbatched pass over the whole pending list. */
  function Stale(pending: seq<PendingMessage>, clock: int, staleAge: int): seq<PendingMessage> {
    if pending == [] then []
    else if IsStale(pending[0], clock, staleAge) then [pending[0]] + Stale(pending[1..], clock, staleAge)
    else Stale(pending[1..], clock, staleAge)
  }

  function Fresh(pending: seq<PendingMessage>, clock: int, staleAge: int): (r: seq<PendingMessage>)
    ensures |r| <= |pending|
  {
    if pending == [] then []
    else if IsStale(pending[0], clock, staleAge) then Fresh(pending[1..], clock, staleAge)
    else [pending[0]] + Fresh(pending[1..], clock, staleAge)
  }

  /** The age alone decides, and nothing else gets lost. */
  lemma {:induction false} StaleOrFresh(pending: seq<PendingMessage>, clock: int, staleAge: int)
    ensures forall m :: m in Stale(pending, clock, staleAge) <==> m in pending && clock - m.deliveredAt > staleAge
    ensures forall m :: m in Fresh(pending, clock, staleAge) <==> m in pending && clock - m.deliveredAt <= staleAge
  {
    if pending != [] {
      StaleOrFresh(pending[1..], clock, staleAge);
      assert pending == [pending[0]] + pending[1..];
    }
  }

  function FirstBatch(pending: seq<PendingMessage>): seq<PendingMessage> {
    if |pending| <= BATCH then pending else pending[..BATCH]
  }

  /** A batch deletes at most a hundred messages, all overdue, and stops short only at one that is not. */
  lemma BatchAges(pending: seq<PendingMessage>, clock: int, staleAge: int)
    ensures var n := |StaleUntilBreak(FirstBatch(pending), clock, staleAge)|;
            && n <= |pending| && n <= 100
            && (forall i :: 0 <= i < n ==> clock - pending[i].deliveredAt > staleAge)
            && (n < 100 && n < |pending| ==> clock - pending[n].deliveredAt <= staleAge)
  {
    var batch := FirstBatch(pending);
    assert forall i :: 0 <= i < |batch| ==> batch[i] == pending[i];
  }

  ghost predicate DeliveredInOrder(pending: seq<PendingMessage>) {
    forall i, j :: 0 <= i < j < |pending| ==>
      pending[i].id < pending[j].id && pending[i].deliveredAt <= pending[j].deliveredAt
  }

  /** In delivery order the stale messages are a prefix, so the early break misses none. */
  lemma {:induction false} BreakMissesNothing(pending: seq<PendingMessage>, clock: int, staleAge: int)
    requires DeliveredInOrder(pending)
    ensures StaleUntilBreak(pending, clock, staleAge) == Stale(pending, clock, staleAge)
    ensures pending[|StaleUntilBreak(pending, clock, staleAge)|..] == Fresh(pending, clock, staleAge)
  {
    if pending != [] {
      if IsStale(pending[0], clock, staleAge) {
        BreakMissesNothing(pending[1..], clock, staleAge);
      } else {
        AllFresh(pending, clock, staleAge);
      }
    }
  }

  lemma {:induction false} AllFresh(pending: seq<PendingMessage>, clock: int, staleAge: int)
    requires forall i :: 0 <= i < |pending| ==> !IsStale(pending[i], clock, staleAge)
    ensures Fresh(pending, clock, staleAge) == pending && Stale(pending, clock, staleAge) == []
  {
    if pending != [] {
      AllFresh(pending[1..], clock, staleAge);
    }
  }

  lemma {:induction false} WithoutTwice(ids: seq<MessageId>, a: set<MessageId>, b: set<MessageId>)
    ensures Without(Without(ids, a), b) == Without(ids, a + b)
  {
    if ids != [] {
      WithoutTwice(ids[1..], a, b);
    }
  }

  lemma {:induction false} WithoutNothing(ids: seq<MessageId>)
    ensures Without(ids, {}) == ids
  {
    if ids != [] {
      WithoutNothing(ids[1..]);
    }
  }

  lemma IdSetSplit(pending: seq<PendingMessage>, m: nat, n: nat)
    requires m <= n <= |pending|
    ensures IdSet(pending[..n]) == IdSet(pending[..m]) + IdSet(pending[m..][..n - m])
  {
    assert pending[..n] == pending[..m] + pending[m..][..n - m];
  }

  lemma {:induction false} RemovePendingAbsent(pending: seq<PendingMessage>, id: MessageId)
    requires forall m :: m in pending ==> m.id != id
    ensures RemovePending(pending, id) == pending
  {
    if pending != [] {
      RemovePendingAbsent(pending[1..], id);
    }
  }

  lemma RemoveOldestPending(pending: seq<PendingMessage>)
    requires pending != [] && DeliveredInOrder(pending)
    ensures RemovePending(pending, pending[0].id) == pending[1..]
  {
    RemovePendingAbsent(pending[1..], pending[0].id);
  }

  /** The operations as one client runs them while nobody else touches the stream; the clock keeps running. */
  class TaskQueue {
    var entries: seq<MessageId>
    var lastId: nat
    var cursor: nat
    var pending: seq<PendingMessage>
    var clock: int

    function Value(): Stream
      reads this
    {
      Stream(entries, lastId, cursor, pending)
    }

    constructor ()
      ensures Value() == Stream([], 0, 0, [])
    {
      entries, lastId, cursor, pending, clock := [], 0, 0, [], 0;
    }

    method Elapse()
      modifies this`clock
      ensures clock >= old(clock)
    {
      var late: int := *;
      if late > 0 {
        clock := clock + late;
      }
    }

    method Ack(id: MessageId)
      modifies this`pending
      ensures Value() == Xack(old(Value()), id)
    {
      pending := RemovePending(pending, id);
    }

    method Del(id: MessageId)
      modifies this`entries
      ensures Value() == Xdel(old(Value()), id)
    {
      entries := Without(entries, {id});
    }

    /** XACK and XDEL of the oldest pending message. */
    method DeleteOldest(ghost original: seq<PendingMessage>, ghost ids: seq<MessageId>, ghost i: nat)
      requires i < |original| && DeliveredInOrder(original)
      requires pending == original[i..] && entries == Without(ids, IdSet(original[..i]))
      modifies this`entries, this`pending
      ensures pending == original[i + 1..] && entries == Without(ids, IdSet(original[..i + 1]))
    {
      RemoveOldestPending(pending);
      IdSetSplit(original, i, i + 1);
      WithoutTwice(ids, IdSet(original[..i]), {original[i].id});
      assert IdSet(original[i..][..1]) == {original[i].id};
      var id := pending[0].id;
      Ack(id);
      Del(id);
    }

    /** One batch: its stale prefix leaves the pending list and the stream, and nothing else changes. */
    method DeleteStalePendingMessages(staleAge: int) returns (numDeleted: nat, ghost readAt: int)
      requires DeliveredInOrder(pending)
      modifies this`entries, this`pending, this`clock
      ensures old(clock) <= readAt <= clock
      ensures numDeleted == |StaleUntilBreak(FirstBatch(old(pending)), readAt, staleAge)|
      ensures numDeleted <= |old(pending)| && pending == old(pending)[numDeleted..]
      ensures entries == Without(old(entries), IdSet(old(pending)[..numDeleted]))
    {
      WithoutNothing(entries);
      assert IdSet(pending[..0]) == {};
      readAt := clock;
      var pendingCount := |pending|;
      if pendingCount == 0 {
        return 0, readAt;
      }
      Elapse();
      readAt := clock;
      var now := clock;
      var batch := FirstBatch(pending);
      numDeleted := 0;
      for i := 0 to |batch|
        invariant numDeleted == i
        invariant pending == old(pending)[i..]
        invariant entries == Without(old(entries), IdSet(old(pending)[..i]))
        invariant forall j :: 0 <= j < i ==> IsStale(batch[j], now, staleAge)
        invariant readAt <= clock
      {
        if IsStale(batch[i], now, staleAge) {
          DeleteOldest(old(pending), old(entries), i);
          Elapse();
          numDeleted := numDeleted + 1;
        } else {
          break;
        }
      }
    }

    method Trim(minid: MessageId) returns (ghost dropped: nat)
      modifies this`entries
      ensures dropped <= |old(entries)| && Value() == Xtrim(old(Value()), dropped)
      ensures forall i :: 0 <= i < dropped ==> old(entries)[i] < minid
    {
      var count := CountBelow(entries, minid);
      var actual: int := *;
      if actual < 0 || actual > count {
        actual := count;
      }
      dropped := actual;
      entries := entries[actual..];
    }

    /** A further batch, seen from the original list of which the first `m` messages are deleted. */
    method DeleteNextBatch(ghost original: seq<PendingMessage>, ghost ids: seq<MessageId>, ghost m: nat,
                           ghost early: int, staleAge: int) returns (numDeleted: nat, ghost late: int)
      requires DeliveredInOrder(original) && m <= |original| && early <= clock
      requires (pending, entries) == Left(original, ids, m) && StaleUpTo(original, m, early, staleAge)
      modifies this`entries, this`pending, this`clock
      ensures early <= late <= clock && m + numDeleted <= |original|
      ensures (pending, entries) == Left(original, ids, m + numDeleted)
      ensures StaleUpTo(original, m + numDeleted, late, staleAge)
      ensures numDeleted == 0 && m < |original| ==> !IsStale(original[m], late, staleAge)
    {
      numDeleted, late := DeleteStalePendingMessages(staleAge);
      BatchIsStalePrefix(old(pending), late, staleAge);
      DeletedTwice(original, ids, m, numDeleted);
      StaleUpToLater(original, m, numDeleted, early, late, staleAge);
    }

    /** Repeating the batch until it deletes nothing removes exactly the messages that are stale at the last read. */
    method DeleteAllStale(staleAge: int) returns (ghost readAt: int)
      requires DeliveredInOrder(pending)
      modifies this`entries, this`pending, this`clock
      ensures old(clock) <= readAt <= clock
      ensures pending == Fresh(old(pending), readAt, staleAge)
      ensures entries == Without(old(entries), IdSet(Stale(old(pending), readAt, staleAge)))
      ensures forall m :: m in pending <==> m in old(pending) && readAt - m.deliveredAt <= staleAge
      ensures forall x :: x in entries <==>
                x in old(entries) && !exists m :: m in old(pending) && m.id == x && readAt - m.deliveredAt > staleAge
    {
      ghost var original, ids := pending, entries;
      NothingDeleted(original, ids);
      var numDeleted: nat;
      numDeleted, readAt := DeleteNextBatch(original, ids, 0, clock, staleAge);
      ghost var total := numDeleted;
      while numDeleted > 0
        invariant old(clock) <= readAt <= clock && total <= |original|
        invariant (pending, entries) == Left(original, ids, total)
        invariant StaleUpTo(original, total, readAt, staleAge)
        invariant numDeleted == 0 && total < |original| ==> !IsStale(original[total], readAt, staleAge)
        decreases |original| - total, numDeleted
      {
        ghost var read := readAt;
        numDeleted, readAt := DeleteNextBatch(original, ids, total, read, staleAge);
        total := total + numDeleted;
      }
      AllStaleGone(original, ids, total, readAt, staleAge);
      StaleOrFresh(original, readAt, staleAge);
    }

    /** ... and the trim after it drops only entries older than every message that is still pending. */
    method CleanupOldMessages(staleAge: int) returns (ghost readAt: int, ghost dropped: nat)
      requires DeliveredInOrder(pending)
      modifies this`entries, this`pending, this`clock
      ensures old(clock) <= readAt <= clock
      ensures pending == Fresh(old(pending), readAt, staleAge)
      ensures var kept := Without(old(entries), IdSet(Stale(old(pending), readAt, staleAge)));
              && dropped <= |kept| && entries == kept[dropped..]
              && (forall i, m :: 0 <= i < dropped && m in pending ==> kept[i] < m.id)
              && (pending == [] ==> dropped == 0)
    {
      readAt := DeleteAllStale(staleAge);
      dropped := 0;
      if |pending| == 0 {
        return;
      }
      FreshKeepsOrder(old(pending), readAt, staleAge);
      var oldest := pending[0].id;
      Elapse();
      dropped := Trim(oldest);
    }
  }

  /** The pending list and the stream once the first `n` messages of the original list are deleted. */
  ghost function Left(original: seq<PendingMessage>, ids: seq<MessageId>, n: nat): (seq<PendingMessage>, seq<MessageId>)
    requires n <= |original|
  {
    (original[n..], Without(ids, IdSet(original[..n])))
  }

  ghost predicate StaleUpTo(pending: seq<PendingMessage>, n: nat, clock: int, staleAge: int)
    requires n <= |pending|
  {
    forall i :: 0 <= i < n ==> IsStale(pending[i], clock, staleAge)
  }

  lemma NothingDeleted(original: seq<PendingMessage>, ids: seq<MessageId>)
    ensures Left(original, ids, 0) == (original, ids)
  {
    WithoutNothing(ids);
    assert original[..0] == [];
    assert IdSet([]) == {};
  }

  lemma AllStaleGone(original: seq<PendingMessage>, ids: seq<MessageId>, n: nat, readAt: int, staleAge: int)
    requires n <= |original| && DeliveredInOrder(original) && StaleUpTo(original, n, readAt, staleAge)
    requires n < |original| ==> !IsStale(original[n], readAt, staleAge)
    ensures Left(original, ids, n)
         == (Fresh(original, readAt, staleAge), Without(ids, IdSet(Stale(original, readAt, staleAge))))
  {
    StalePrefix(original, n, readAt, staleAge);
  }

  lemma BatchIsStalePrefix(pending: seq<PendingMessage>, clock: int, staleAge: int)
    ensures var n := |StaleUntilBreak(FirstBatch(pending), clock, staleAge)|;
            && n <= |pending| && StaleUpTo(pending, n, clock, staleAge)
            && (n == 0 ==> pending == [] || !IsStale(pending[0], clock, staleAge))
  {
  }

  lemma DeletedTwice(original: seq<PendingMessage>, ids: seq<MessageId>, m: nat, n: nat)
    requires m + n <= |original|
    ensures Left(Left(original, ids, m).0, Left(original, ids, m).1, n) == Left(original, ids, m + n)
  {
    IdSetSplit(original, m, m + n);
    WithoutTwice(ids, IdSet(original[..m]), IdSet(original[m..][..n]));
  }

  lemma StaleUpToLater(original: seq<PendingMessage>, m: nat, n: nat, early: int, late: int, staleAge: int)
    requires m + n <= |original| && early <= late
    requires StaleUpTo(original, m, early, staleAge) && StaleUpTo(original[m..], n, late, staleAge)
    ensures StaleUpTo(original, m + n, late, staleAge)
  {
    forall i | m <= i < m + n
      ensures IsStale(original[i], late, staleAge)
    {
      assert original[i] == original[m..][i - m];
    }
  }

  /** When a prefix is stale and the message after it is not, it is all that is stale. */
  lemma StalePrefix(pending: seq<PendingMessage>, n: nat, clock: int, staleAge: int)
    requires n <= |pending| && DeliveredInOrder(pending)
    requires forall i :: 0 <= i < n ==> IsStale(pending[i], clock, staleAge)
    requires n < |pending| ==> !IsStale(pending[n], clock, staleAge)
    ensures Stale(pending, clock, staleAge) == pending[..n] && Fresh(pending, clock, staleAge) == pending[n..]
  {
    BreakMissesNothing(pending, clock, staleAge);
    var k := |StaleUntilBreak(pending, clock, staleAge)|;
    assert k == n;
  }

  lemma FreshKeepsOrder(pending: seq<PendingMessage>, clock: int, staleAge: int)
    requires DeliveredInOrder(pending)
    ensures DeliveredInOrder(Fresh(pending, clock, staleAge))
  {
    BreakMissesNothing(pending, clock, staleAge);
  }
}
