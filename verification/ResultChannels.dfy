/**
 How one task run's results travel from its worker to its caller: the worker overwrites one key and then
 notifies, in two separate steps; the caller reads the key some time after each notification.
 */
module ResultChannels {
  import opened Options

  /** A serialized result: a value, or an exception. */
  datatype Payload<R, E> = Payload(result: R, exception: Option<E>)

  /** `versions` are all payloads the worker writes, in order; only the last one is final. */
  datatype Channel<R, E> = Channel(
    versions: seq<Payload<R, E>>,
    sets: nat,
    published: nat,
    seen: seq<nat>)

  /** SET, PUBLISH, and the caller's GET for the oldest notification it has not handled. */
  datatype Step = Set | Publish | Read

  /** The worker reports chunks without an exception; the caller subscribed before the first publish. */
  ghost predicate Init<R(!new), E(!new)>(c: Channel<R, E>) {
    && c.versions != []
    && (forall i :: 0 <= i < |c.versions| - 1 ==> c.versions[i].exception == None)
    && c.sets == 0 && c.published == 0 && c.seen == []
  }

  predicate Enabled<R, E>(c: Channel<R, E>, step: Step) {
    match step
    case Set => c.sets == c.published && c.sets < |c.versions|
    case Publish => c.sets == c.published + 1
    case Read => |c.seen| < c.published
  }

  function Next<R, E>(c: Channel<R, E>, step: Step): Channel<R, E> {
    match step
    case Set => c.(sets := c.sets + 1)
    case Publish => c.(published := c.published + 1)
    case Read => c.(seen := c.seen + [c.sets])
  }

  ghost predicate IsRun<R(!new), E(!new)>(states: seq<Channel<R, E>>, steps: seq<Step>) {
    && |states| == |steps| + 1
    && Init(states[0])
    && (forall i :: 0 <= i < |steps| ==> Enabled(states[i], steps[i]) && states[i + 1] == Next(states[i], steps[i]))
  }

  /** The worker sets and publishes in turn; the caller may take any time to read, up to the next versions. */
  lemma NothingElseBlocks<R(!new), E(!new)>(c: Channel<R, E>)
    ensures Enabled(c, Set) <==> c.sets == c.published && c.sets < |c.versions|
    ensures Enabled(c, Publish) <==> c.sets == c.published + 1
    ensures Enabled(c, Read) <==> |c.seen| < c.published
    ensures Next(c, Read).seen == c.seen + [c.sets]
  {
  }

  /** The k-th notification reads version k or a later one, and versions never go back. */
  ghost predicate ReadsOk(seen: seq<nat>, sets: nat) {
    && (forall k :: 0 <= k < |seen| ==> k + 1 <= seen[k] <= sets)
    && (forall j, k :: 0 <= j < k < |seen| ==> seen[j] <= seen[k])
  }

  ghost predicate Inv<R(!new), E(!new)>(c: Channel<R, E>) {
    && c.published <= c.sets <= c.published + 1
    && c.sets <= |c.versions| && |c.seen| <= c.published
    && ReadsOk(c.seen, c.sets)
  }

  lemma {:induction false} InvHolds<R(!new), E(!new)>(states: seq<Channel<R, E>>, steps: seq<Step>, i: nat)
    requires IsRun(states, steps) && i < |states|
    ensures Inv(states[i]) && states[i].versions == states[0].versions
  {
    if i > 0 {
      InvHolds(states, steps, i - 1);
    }
  }

  /** Versions read never decrease, and the read for the final notification is the worker's final result. */
  lemma ResultMonotonicity<R(!new), E(!new)>(states: seq<Channel<R, E>>, steps: seq<Step>, i: nat)
    requires IsRun(states, steps) && i < |states|
    ensures var c := states[i];
            && (forall k :: 0 <= k < |c.seen| ==> k + 1 <= c.seen[k] <= |states[0].versions|)
            && (forall j, k :: 0 <= j < k < |c.seen| ==> c.seen[j] <= c.seen[k])
            && (|c.seen| == |states[0].versions|
                ==> c.seen[|c.seen| - 1] == |states[0].versions|)
  {
    InvHolds(states, steps, i);
  }

  // ---------------------------------------------------------------- the caller

  /** A handled notification: the payload read, and whether it was the final one. */
  datatype Notice<R, E> = Notice(payload: Payload<R, E>, isFinal: bool)

  datatype Outcome<R, E> =
    | Finished(payload: Payload<R, E>)
    | AssertionFailed

  /** What the caller ends up with: chunks must not carry an exception, and the stream must end with a final one. */
  function OutcomeOf<R, E>(notices: seq<Notice<R, E>>): Outcome<R, E> {
    if notices == [] then AssertionFailed
    else if !notices[0].isFinal && notices[0].payload.exception.Some? then AssertionFailed
    else if |notices| == 1 && notices[0].isFinal then Finished(notices[0].payload)
    else OutcomeOf(notices[1..])
  }

  /** Chunks that reached the caller's stream before the loop ended. */
  function ChunksOf<R, E>(notices: seq<Notice<R, E>>): seq<R> {
    if notices == [] || (!notices[0].isFinal && notices[0].payload.exception.Some?) then []
    else (if notices[0].isFinal then [] else [notices[0].payload.result]) + ChunksOf(notices[1..])
  }

  function Notices<R, E>(versions: seq<Payload<R, E>>, seen: seq<nat>): seq<Notice<R, E>>
    requires |seen| <= |versions|
    requires forall k :: 0 <= k < |seen| ==> 1 <= seen[k] <= |versions|
  {
    seq(|seen|, k requires 0 <= k < |seen| => Notice(versions[seen[k] - 1], k == |versions| - 1))
  }

  ghost predicate EndsFinal<R(!new), E(!new)>(notices: seq<Notice<R, E>>) {
    && notices != []
    && (forall i :: 0 <= i < |notices| ==> (notices[i].isFinal <==> i == |notices| - 1))
  }

  lemma {:induction false} OutcomeOfStream<R(!new), E(!new)>(notices: seq<Notice<R, E>>)
    requires EndsFinal(notices)
    ensures OutcomeOf(notices) ==
            if exists i :: 0 <= i < |notices| - 1 && notices[i].payload.exception.Some? then AssertionFailed
            else Finished(notices[|notices| - 1].payload)
  {
    if |notices| > 1 {
      var rest := notices[1..];
      OutcomeOfStream(rest);
      assert forall i :: 0 <= i < |rest| ==> rest[i] == notices[i + 1];
      if i :| 0 < i < |notices| - 1 && notices[i].payload.exception.Some? {
        assert rest[i - 1].payload.exception.Some?;
      }
    }
  }

  /**
   Exactly when the caller gets the worker's final result. It does unless that result is an exception and
   some earlier notification was read so late that the key already held it: then the caller's own check that
   chunks carry no exception fails, and the worker's exception is replaced by an assertion error.
   */
  lemma CallerGetsFinalResult<R(!new), E(!new)>(states: seq<Channel<R, E>>, steps: seq<Step>)
    requires IsRun(states, steps)
    requires |states[|steps|].seen| == |states[0].versions|
    ensures var versions, seen := states[0].versions, states[|steps|].seen;
            var final := versions[|versions| - 1];
            && (forall k :: 0 <= k < |seen| ==> 1 <= seen[k] <= |versions|)
            && (OutcomeOf(Notices(versions, seen)) == Finished(final)
                <==> (final.exception.Some? ==> forall k :: 0 <= k < |versions| - 1 ==> seen[k] < |versions|))
  {
    var versions, seen := states[0].versions, states[|steps|].seen;
    var n := |versions|;
    ResultMonotonicity(states, steps, |steps|);
    var notices := Notices(versions, seen);
    OutcomeOfStream(notices);
    forall k | 0 <= k < n - 1
      ensures notices[k].payload.exception.Some? <==> versions[n - 1].exception.Some? && seen[k] == n
    {
      assert notices[k].payload == versions[seen[k] - 1];
    }
  }

  /** The replaced exception does happen: a chunk and a failure, both published before the first read. */
  lemma LateReadHidesException() returns (states: seq<Channel<int, string>>, steps: seq<Step>)
    ensures IsRun(states, steps)
    ensures states[0].versions == [Payload(1, None), Payload(2, Some("failed"))]
    ensures states[|steps|].seen == [2, 2]
    ensures OutcomeOf(Notices(states[0].versions, states[|steps|].seen)) == AssertionFailed
  {
    var versions := [Payload(1, None), Payload(2, Some("failed"))];
    steps := [Set, Publish, Set, Publish, Read, Read];
    states := [
      Channel(versions, 0, 0, []), Channel(versions, 1, 0, []), Channel(versions, 1, 1, []),
      Channel(versions, 2, 1, []), Channel(versions, 2, 2, []), Channel(versions, 2, 2, [2]),
      Channel(versions, 2, 2, [2, 2])];
    assert Notices(versions, [2, 2])[0] == Notice(Payload(2, Some("failed")), false);
  }

  /** What the body of a run does for the worker: it yields chunks and may fail at last, returns, or raises. */
  datatype Work<R, E> = Generates(chunks: seq<R>, failure: Option<E>) | Gives(result: R) | Raises(exception: E)

  /** The payloads of a run, the final one last. A failure of a generator stands next to its last chunk. */
  function Payloads<R, E>(work: Work<R, E>, nothing: R): (r: seq<Payload<R, E>>)
    ensures |r| == 1 + if work.Generates? then |work.chunks| else 0
  {
    match work
    case Gives(result) => [Payload(result, None)]
    case Raises(exception) => [Payload(nothing, Some(exception))]
    case Generates(chunks, failure) =>
      seq(|chunks|, i requires 0 <= i < |chunks| => Payload(chunks[i], None))
      + [Payload(if chunks == [] then nothing else chunks[|chunks| - 1], failure)]
  }

  /**
   Whatever the body does, the worker's payloads are fit for the channel: every chunk alone, and at last the value
   returned, the exception raised, or a generator's last chunk with its failure.
   */
  lemma {:induction false} WorkerFeedsChannel<R(!new), E(!new)>(work: Work<R, E>, nothing: R)
    ensures Init(Channel(Payloads(work, nothing), 0, 0, []))
    ensures var payloads := Payloads(work, nothing);
            match work
            case Gives(result) => payloads == [Payload(result, None)]
            case Raises(exception) => payloads == [Payload(nothing, Some(exception))]
            case Generates(chunks, failure) =>
              && |payloads| == |chunks| + 1
              && (forall k :: 0 <= k < |chunks| ==> payloads[k] == Payload(chunks[k], None))
              && payloads[|chunks|] == Payload(if chunks == [] then nothing else chunks[|chunks| - 1], failure)
  {
  }

  /** The chunks passed on are the results of all notices before the final one, or before the first exception. */
  lemma {:induction false} ChunksOfStream<R(!new), E(!new)>(notices: seq<Notice<R, E>>, n: nat)
    requires n < |notices|
    requires forall i :: 0 <= i < n ==> !notices[i].isFinal && notices[i].payload.exception.None?
    requires if notices[n].isFinal then n == |notices| - 1 else notices[n].payload.exception.Some?
    ensures |ChunksOf(notices)| == n
    ensures forall i :: 0 <= i < n ==> ChunksOf(notices)[i] == notices[i].payload.result
  {
    if n > 0 {
      var rest := notices[1..];
      assert forall i :: 0 <= i < |rest| ==> rest[i] == notices[i + 1];
      ChunksOfStream(rest, n - 1);
      assert ChunksOf(notices) == [notices[0].payload.result] + ChunksOf(rest);
    } else if notices[0].isFinal {
      assert notices[1..] == [];
    }
  }

  // ---------------------------------------------------------------- end to end

  /** The caller keeps up: it has read all notifications before the key is overwritten. */
  ghost predicate Prompt<R(!new), E(!new)>(states: seq<Channel<R, E>>, steps: seq<Step>)
    requires |states| == |steps| + 1
  {
    forall i :: 0 <= i < |steps| && steps[i].Set? ==> |states[i].seen| == states[i].published
  }

  lemma {:induction false} PromptReads<R(!new), E(!new)>(states: seq<Channel<R, E>>, steps: seq<Step>, i: nat)
    requires IsRun(states, steps) && Prompt(states, steps) && i < |states|
    ensures forall k :: 0 <= k < |states[i].seen| ==> states[i].seen[k] == k + 1
    ensures states[i].sets > states[i].published ==> |states[i].seen| == states[i].published
    ensures |states[i].seen| >= states[i].published - 1
  {
    InvHolds(states, steps, i);
    if i > 0 {
      PromptReads(states, steps, i - 1);
      InvHolds(states, steps, i - 1);
    }
  }

  /** What the body means for the caller: the outcome of the run, and the chunks before it. */
  ghost predicate Delivers<R(!new), E(!new)>(work: Work<R, E>, nothing: R, outcome: Outcome<R, E>, chunks: seq<R>) {
    match work
    case Gives(result) => outcome == Finished(Payload(result, None)) && chunks == []
    case Raises(exception) => outcome == Finished(Payload(nothing, Some(exception))) && chunks == []
    case Generates(produced, failure) =>
      && outcome == Finished(Payload(if produced == [] then nothing else produced[|produced| - 1], failure))
      && chunks == produced
  }

  lemma {:induction false} OwnNoticesDeliver<R(!new), E(!new)>(work: Work<R, E>, nothing: R, notices: seq<Notice<R, E>>)
    requires |notices| == |Payloads(work, nothing)|
    requires forall k :: 0 <= k < |notices| ==> notices[k] == Notice(Payloads(work, nothing)[k], k == |notices| - 1)
    ensures Delivers(work, nothing, OutcomeOf(notices), ChunksOf(notices))
  {
    WorkerFeedsChannel(work, nothing);
    OutcomeOfStream(notices);
    ChunksOfStream(notices, |notices| - 1);
  }

  lemma NoticesInOrder<R(!new), E(!new)>(versions: seq<Payload<R, E>>, seen: seq<nat>)
    requires |seen| == |versions| && forall k :: 0 <= k < |seen| ==> seen[k] == k + 1
    ensures forall k :: 0 <= k < |seen| ==> Notices(versions, seen)[k] == Notice(versions[k], k == |versions| - 1)
  {
  }

  /** A caller that keeps up ends with the value or the exception of the worker's body, and gets all its chunks. */
  lemma {:induction false} PromptCallerGetsAll<R(!new), E(!new)>(
      states: seq<Channel<R, E>>, steps: seq<Step>, work: Work<R, E>, nothing: R)
    requires IsRun(states, steps) && Prompt(states, steps)
    requires states[0].versions == Payloads(work, nothing)
    requires |states[|steps|].seen| == |states[0].versions|
    ensures var versions, seen := states[0].versions, states[|steps|].seen;
            && (forall k :: 0 <= k < |seen| ==> 1 <= seen[k] <= |versions|)
            && Delivers(work, nothing, OutcomeOf(Notices(versions, seen)), ChunksOf(Notices(versions, seen)))
  {
    PromptReads(states, steps, |steps|);
    NoticesInOrder(states[0].versions, states[|steps|].seen);
    OwnNoticesDeliver(work, nothing, Notices(states[0].versions, states[|steps|].seen));
  }

  /** The worker: one SET and one PUBLISH for every chunk, then for the final result. */
  datatype Command<R, E> = SetKey(payload: Payload<R, E>) | PublishPartial | PublishComplete

  class Worker<R, E> {
    var sent: seq<Command<R, E>>

    constructor ()
      ensures sent == []
    {
      sent := [];
    }

    method PublishTaskResult(payload: Payload<R, E>, isFinal: bool)
      modifies this
      ensures sent == old(sent) + [SetKey(payload), if isFinal then PublishComplete else PublishPartial]
    {
      sent := sent + [SetKey(payload)];
      if isFinal {
        sent := sent + [PublishComplete];
      } else {
        sent := sent + [PublishPartial];
      }
    }

    /** A SET and a PUBLISH for each payload in turn, of which only the last one is announced as complete. */
    method ServiceTaskRun(work: Work<R, E>, nothing: R)
      modifies this
      ensures var payloads := Payloads(work, nothing);
              && |sent| == |old(sent)| + 2 * |payloads| && old(sent) <= sent
              && (forall k :: 0 <= k < |payloads| ==>
                    && sent[|old(sent)| + 2 * k] == SetKey(payloads[k])
                    && sent[|old(sent)| + 2 * k + 1]
                       == if k == |payloads| - 1 then PublishComplete else PublishPartial)
      ensures match work
              case Gives(value) => sent == old(sent) + [SetKey(Payload(value, None)), PublishComplete]
              case Raises(e) => sent == old(sent) + [SetKey(Payload(nothing, Some(e))), PublishComplete]
              case Generates(chunks, failure) =>
                && |sent| == |old(sent)| + 2 * |chunks| + 2 && old(sent) <= sent
                && (forall k :: 0 <= k < |chunks| ==>
                      && sent[|old(sent)| + 2 * k] == SetKey(Payload(chunks[k], None))
                      && sent[|old(sent)| + 2 * k + 1] == PublishPartial)
                && sent[|sent| - 2] == SetKey(Payload(if chunks == [] then nothing else chunks[|chunks| - 1], failure))
                && sent[|sent| - 1] == PublishComplete
    {
      var result := nothing;
      var exception: Option<E> := None;
      match work {
      case Generates(chunks, failure) =>
        for i := 0 to |chunks|
          invariant |sent| == |old(sent)| + 2 * i && old(sent) <= sent
          invariant result == if i == 0 then nothing else chunks[i - 1]
          invariant forall k :: 0 <= k < i ==>
                      && sent[|old(sent)| + 2 * k] == SetKey(Payload(chunks[k], None))
                      && sent[|old(sent)| + 2 * k + 1] == PublishPartial
        {
          result := chunks[i];
          PublishTaskResult(Payload(result, None), false);
        }
        exception := failure;
      case Gives(value) => result := value;
      case Raises(e) => exception := Some(e);
      }
      PublishTaskResult(Payload(result, exception), true);
    }
  }

  /** The caller's listener: a loop over the notices that updates its locals and then its fields. */
  class Caller<R, E> {
    var outcome: Option<Outcome<R, E>>
    var chunks: seq<R>

    constructor ()
      ensures outcome == None && chunks == []
    {
      outcome, chunks := None, [];
    }

    method ListenForTaskResult(notices: seq<Notice<R, E>>)
      modifies this
      ensures outcome == Some(OutcomeOf(notices))
      ensures chunks == old(chunks) + ChunksOf(notices)
    {
      var last: Option<Payload<R, E>> := None;
      var isFinal := false;
      for i := 0 to |notices|
        invariant i == 0 ==> !isFinal
        invariant i > 0 ==> isFinal == notices[i - 1].isFinal && last == Some(notices[i - 1].payload)
        invariant isFinal ==> last.Some?
        invariant i < |notices| ==> OutcomeOf(notices) == OutcomeOf(notices[i..])
        invariant i == |notices| ==> OutcomeOf(notices) == if isFinal then Finished(last.value) else AssertionFailed
        invariant old(chunks) + ChunksOf(notices) == chunks + ChunksOf(notices[i..])
      {
        var notice := notices[i];
        assert notices[i..][1..] == notices[i + 1..];
        last, isFinal := Some(notice.payload), notice.isFinal;
        if !isFinal {
          if notice.payload.exception.Some? {
            outcome := Some(AssertionFailed);
            return;
          }
          chunks := chunks + [notice.payload.result];
        }
      }
      outcome := Some(if isFinal then Finished(last.value) else AssertionFailed);
    }
  }
}
