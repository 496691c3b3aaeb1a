/**
 One call of a task run: the retry loop around semaphore, token bucket, timeout, cache, state transitions
 and call-stack frame. What the surroundings do is a script with one entry for each attempt.
 */
module RunWrappers {
  import opened TaskRunStates
  import opened Options

  /** `Timeout` is any TimeoutError, `Cancelled` the cancellation exception. */
  datatype Exception = Timeout | Cancelled | Error(code: int)

  datatype Outcome<+R> = Returns(value: R) | Raises(exception: Exception)

  datatype Lookup<+R> = Miss | Hit(value: R) | LookupFails(exception: Exception)

  /** What happens at each point of an attempt that can fail, if the attempt gets there. */
  datatype Attempt<+R> = Attempt(
    lock: Option<Exception>,
    bucket: Option<Exception>,
    lookup: Lookup<R>,
    body: Outcome<R>,
    store: Option<Exception>,
    release: Option<Exception>,
    backoffCancelled: bool)

  datatype Config = Config(
    tries: int,
    limited: bool,
    rated: bool,
    cache: bool,
    refreshCache: bool,
    delayed: bool,
    noRetry: Exception -> bool,
    retry: Exception -> bool)

  datatype Event = Emit(state: TaskState) | Acquire | Release | ReleaseFails | Push | Pop | Body | Sleep

  type Trace = seq<Event>

  // ---------------------------------------------------------------- one attempt, wrapper by wrapper

  datatype Ran<+R> = Ran(trace: Trace, outcome: Outcome<R>)

  function RunningState<R>(a: Attempt<R>): Ran<R> {
    Ran([Emit(RUNNING), Push, Body, Pop] + if a.body.Returns? then [Emit(SUCCESS)] else [], a.body)
  }

  function CacheResults<R>(c: Config, a: Attempt<R>): Ran<R> {
    if !c.cache then RunningState(a)
    else if a.lookup.LookupFails? then Ran([], Raises(a.lookup.exception))
    else if a.lookup.Hit? && !c.refreshCache then Ran([Emit(CACHED)], Returns(a.lookup.value))
    else
      var inner := RunningState(a);
      if inner.outcome.Returns? && a.store.Some? then Ran(inner.trace, Raises(a.store.value)) else inner
  }

  function TimeoutState<R>(inner: Ran<R>): Ran<R> {
    if inner.outcome == Raises(Timeout) then inner.(trace := inner.trace + [Emit(TIMEOUT)]) else inner
  }

  function WithTokenBucket<R>(c: Config, a: Attempt<R>): Ran<R> {
    if c.rated && a.bucket.Some? then Ran([], Raises(a.bucket.value)) else TimeoutState(CacheResults(c, a))
  }

  function WithSemaphore<R>(c: Config, a: Attempt<R>): Ran<R> {
    if !c.limited then WithTokenBucket(c, a)
    else if a.lock.Some? then Ran([], Raises(a.lock.value))
    else
      var inner := WithTokenBucket(c, a);
      Ran([Acquire] + inner.trace + [Released(a)], if a.release.Some? then Raises(a.release.value) else inner.outcome)
  }

  function Released<R>(a: Attempt<R>): Event {
    if a.release.Some? then ReleaseFails else Release
  }

  // ---------------------------------------------------------------- the retry loop and the outermost wrappers

  predicate GivesUp(c: Config, e: Exception) {
    c.noRetry(e) || e.Cancelled? || !c.retry(e)
  }

  function Backoff(c: Config): Trace {
    [Emit(RETRYING)] + if c.delayed then [Sleep] else []
  }

  /** One turn of the retry loop: the call is decided, or goes on after a backoff. */
  function Turn<R>(c: Config, a: Attempt<R>, isLast: bool): (Trace, Option<Outcome<Option<R>>>) {
    var ran := WithSemaphore(c, a);
    match ran.outcome
    case Returns(value) => (ran.trace, Some(Returns(Some(value))))
    case Raises(e) =>
      if GivesUp(c, e) || isLast then (ran.trace, Some(Raises(e)))
      else if c.delayed && a.backoffCancelled then (ran.trace + Backoff(c), Some(Raises(Cancelled)))
      else (ran.trace + Backoff(c), None)
  }

  function Retry<R>(c: Config, script: seq<Attempt<R>>, i: nat): Ran<Option<R>>
    requires |script| >= c.tries
    decreases c.tries - i
  {
    if i >= c.tries then Ran([], Returns(None))
    else
      var (trace, decision) := Turn(c, script[i], i == c.tries - 1);
      if decision.Some? then Ran(trace, decision.value)
      else
        var rest := Retry(c, script, i + 1);
        rest.(trace := trace + rest.trace)
  }

  /** The next turn comes first in what is left of the loop. */
  lemma Unfold<R(!new)>(c: Config, script: seq<Attempt<R>>, i: nat, sofar: Trace)
    requires i < c.tries <= |script|
    ensures var (trace, decision) := Turn(c, script[i], i == c.tries - 1);
            if decision.Some? then Retry(c, script, i) == Ran(trace, decision.value)
            else
              && Retry(c, script, i).outcome == Retry(c, script, i + 1).outcome
              && sofar + Retry(c, script, i).trace == (sofar + trace) + Retry(c, script, i + 1).trace
  {
  }

  function Call<R>(c: Config, script: seq<Attempt<R>>): Ran<Option<R>>
    requires |script| >= c.tries
  {
    var ran := Retry(c, script, 0);
    if ran.outcome.Returns? then ran
    else ran.(trace := ran.trace + [Emit(if ran.outcome.exception.Cancelled? then CANCELLED else FAILURE)])
  }

  /** The task run object: its fields, and everything it makes happen in order. */
  class FilamentTaskRun<R(!new)> {
    const config: Config
    var trace: Trace
    var result: Option<R>
    var exception: Option<Exception>
    var tryIndex: Option<nat>

    constructor (config: Config)
      ensures this.config == config && trace == [] && result == None && exception == None && tryIndex == None
    {
      this.config := config;
      trace, result, exception, tryIndex := [], None, None, None;
    }

    method Happens(e: Event)
      modifies this`trace
      ensures trace == old(trace) + [e]
    {
      trace := trace + [e];
    }

    method RunBody(a: Attempt<R>) returns (outcome: Outcome<R>)
      modifies this`trace
      ensures trace == old(trace) + RunningState(a).trace && outcome == RunningState(a).outcome
    {
      Happens(Emit(RUNNING));
      Happens(Push);
      Happens(Body);
      outcome := a.body;
      Happens(Pop);
      if outcome.Returns? {
        Happens(Emit(SUCCESS));
      }
    }

    method RunCached(a: Attempt<R>) returns (outcome: Outcome<R>)
      modifies this`trace
      ensures trace == old(trace) + CacheResults(config, a).trace && outcome == CacheResults(config, a).outcome
    {
      if !config.cache {
        outcome := RunBody(a);
        return;
      }
      if a.lookup.LookupFails? {
        return Raises(a.lookup.exception);
      }
      if a.lookup.Hit? && !config.refreshCache {
        Happens(Emit(CACHED));
        return Returns(a.lookup.value);
      }
      outcome := RunBody(a);
      if outcome.Returns? && a.store.Some? {
        outcome := Raises(a.store.value);
      }
    }

    method RunAttempt(a: Attempt<R>) returns (outcome: Outcome<R>)
      modifies this`trace
      ensures trace == old(trace) + WithSemaphore(config, a).trace && outcome == WithSemaphore(config, a).outcome
    {
      if config.limited {
        if a.lock.Some? {
          return Raises(a.lock.value);
        }
        Happens(Acquire);
      }
      if config.rated && a.bucket.Some? {
        outcome := Raises(a.bucket.value);
      } else {
        outcome := RunCached(a);
        if outcome == Raises(Timeout) {
          Happens(Emit(TIMEOUT));
        }
      }
      if config.limited {
        Happens(Released(a));
        if a.release.Some? {
          outcome := Raises(a.release.value);
        }
      }
    }

    method BackOff()
      modifies this`trace
      ensures trace == old(trace) + Backoff(config)
    {
      Happens(Emit(RETRYING));
      if config.delayed {
        Happens(Sleep);
      }
    }

    method RetryTurn(a: Attempt<R>, i: nat) returns (decision: Option<Outcome<Option<R>>>)
      modifies this`trace, this`tryIndex
      ensures trace == old(trace) + Turn(config, a, i == config.tries - 1).0
      ensures decision == Turn(config, a, i == config.tries - 1).1
      ensures tryIndex == Some(i)
    {
      tryIndex := Some(i);
      var attempted := RunAttempt(a);
      if attempted.Returns? {
        return Some(Returns(Some(attempted.value)));
      }
      var e := attempted.exception;
      if GivesUp(config, e) || i == config.tries - 1 {
        return Some(Raises(e));
      }
      BackOff();
      if config.delayed && a.backoffCancelled {
        return Some(Raises(Cancelled));
      }
      return None;
    }

    method RunWithRetries(script: seq<Attempt<R>>) returns (outcome: Outcome<Option<R>>)
      requires |script| >= config.tries
      modifies this`trace, this`tryIndex
      ensures trace == old(trace) + Retry(config, script, 0).trace
      ensures outcome == Retry(config, script, 0).outcome
      ensures if config.tries <= 0 then tryIndex == old(tryIndex)
              else
                && tryIndex.Some? && IsMade(config, script, 0, tryIndex.value)
                && !IsMade(config, script, 0, tryIndex.value + 1)
    {
      var i := 0;
      ghost var whole := trace + Retry(config, script, 0).trace;
      while i < config.tries
        invariant 0 <= i
        invariant whole == trace + Retry(config, script, i).trace
        invariant Retry(config, script, 0).outcome == Retry(config, script, i).outcome
        invariant 0 < i ==> IsMade(config, script, 0, i - 1) && tryIndex == Some(i - 1) && i < config.tries
        invariant i < config.tries ==> IsMade(config, script, 0, i)
        invariant i == 0 ==> tryIndex == old(tryIndex)
        decreases config.tries - i
      {
        Unfold(config, script, i, trace);
        var decision := RetryTurn(script[i], i);
        if decision.Some? {
          return decision.value;
        }
        i := i + 1;
      }
      return Returns(None);
    }

    /** The fields and the trace after a call are those of the function. */
    method DoCall(script: seq<Attempt<R>>)
      requires |script| >= config.tries && result == None && exception == None
      modifies this
      ensures trace == old(trace) + Call(config, script).trace
      ensures match Call(config, script).outcome
              case Returns(value) => result == value && exception == None
              case Raises(e) => result == None && exception == Some(e)
    {
      var outcome := RunWithRetries(script);
      match outcome
      case Returns(value) => result := value;
      case Raises(e) =>
        exception := Some(e);
        if e.Cancelled? {
          Happens(Emit(CANCELLED));
        } else {
          Happens(Emit(FAILURE));
        }
    }
  }

  // ---------------------------------------------------------------- what the trace says

  function Emitted(t: Trace): seq<TaskState> {
    if t == [] then [] else Emitted(t[..|t| - 1]) + if t[|t| - 1].Emit? then [t[|t| - 1].state] else []
  }

  lemma {:induction false} EmittedConcat(a: Trace, b: Trace)
    ensures Emitted(a + b) == Emitted(a) + Emitted(b)
  {
    if b == [] {
      assert a + b == a;
    } else {
      assert (a + b)[..|a + b| - 1] == a + b[..|b| - 1];
      EmittedConcat(a, b[..|b| - 1]);
    }
  }

  /** Leases that were taken and not given back, and releases that failed. */
  function Held(t: Trace): int { multiset(t)[Acquire] as int - multiset(t)[Release] as int }

  function Failed(t: Trace): nat { multiset(t)[ReleaseFails] }

  /** How many leases and frames are open after a trace. A lease is closed by its release, even a failing one. */
  function Leases(t: Trace): int { Held(t) - Failed(t) }

  function Frames(t: Trace): int { multiset(t)[Push] as int - multiset(t)[Pop] as int }

  function Bodies(t: Trace): nat { multiset(t)[Body] }

  ghost predicate Balanced(t: Trace) { Leases(t) == 0 && Frames(t) == 0 }

  /** Nothing is open while sleeping; a body runs inside one frame, and inside a lease if there is a limit. */
  ghost predicate WellBracketed(c: Config, t: Trace) {
    forall k :: 0 <= k < |t| ==>
      && (t[k] == Sleep ==> Leases(t[..k]) == 0 && Frames(t[..k]) == 0)
      && (t[k] == Body ==> Leases(t[..k]) == (if c.limited then 1 else 0) && Frames(t[..k]) == 1)
  }

  lemma BracketedConcat(c: Config, a: Trace, b: Trace)
    requires WellBracketed(c, a) && WellBracketed(c, b) && Balanced(a)
    ensures WellBracketed(c, a + b)
    ensures Leases(a + b) == Leases(b) && Frames(a + b) == Frames(b) && Bodies(a + b) == Bodies(a) + Bodies(b)
  {
    var t := a + b;
    forall k | 0 <= k < |t|
      ensures t[k] == Sleep ==> Leases(t[..k]) == 0 && Frames(t[..k]) == 0
      ensures t[k] == Body ==> Leases(t[..k]) == (if c.limited then 1 else 0) && Frames(t[..k]) == 1
    {
      if k < |a| {
        assert t[..k] == a[..k];
      } else {
        assert t[..k] == a + b[..k - |a|];
      }
    }
  }

  lemma {:induction false} CountConcat(a: seq<TaskState>, b: seq<TaskState>, s: TaskState)
    ensures Count(a + b, s) == Count(a, s) + Count(b, s)
  {
    if a == [] {
      assert a + b == b;
    } else {
      assert (a + b)[1..] == a[1..] + b;
      CountConcat(a[1..], b, s);
    }
  }

  /** What happens inside the timeout scope: nothing, a cached result, or a body with or without success. */
  ghost predicate IsMiddle(t: Trace) {
    || t == []
    || t == [Emit(CACHED)]
    || t == [Emit(RUNNING), Push, Body, Pop]
    || t == [Emit(RUNNING), Push, Body, Pop, Emit(SUCCESS)]
  }

  /** The attempt gets into the timeout scope. */
  predicate Admitted<R>(c: Config, a: Attempt<R>) {
    (c.limited ==> a.lock.None?) && (c.rated ==> a.bucket.None?)
  }

  /** The attempt gets as far as running the body. */
  predicate Runs<R>(c: Config, a: Attempt<R>) {
    Admitted(c, a) && (c.cache ==> a.lookup.Miss? || (a.lookup.Hit? && c.refreshCache))
  }

  predicate TimesOut<R>(c: Config, a: Attempt<R>) {
    || (Admitted(c, a) && c.cache && a.lookup == LookupFails(Timeout))
    || (Runs(c, a) && (a.body == Raises(Timeout) || (a.body.Returns? && c.cache && a.store == Some(Timeout))))
  }

  /** How much happens inside the timeout scope. */
  function MiddleLength<R>(c: Config, a: Attempt<R>): nat {
    if Runs(c, a) then (if a.body.Returns? then 5 else 4)
    else if Admitted(c, a) && c.cache && a.lookup.Hit? then 1 else 0
  }

  /** The trace of an attempt, taken apart. */
  lemma AttemptTraces<R(!new)>(c: Config, a: Attempt<R>) returns (middle: Trace, suffix: Trace)
    ensures WithTokenBucket(c, a).trace == middle + suffix
    ensures IsMiddle(middle) && (suffix == [] || suffix == [Emit(TIMEOUT)])
    ensures WithTokenBucket(c, a).outcome.Returns? ==>
              suffix == [] && (|middle| == 1 || |middle| == 5)
    ensures (c.limited ==> a.lock.None?) ==>
              |middle| == MiddleLength(c, a) && (suffix != [] <==> TimesOut(c, a))
  {
    if c.rated && a.bucket.Some? {
      middle, suffix := [], [];
    } else {
      var inner := CacheResults(c, a);
      var body := [Emit(RUNNING), Push, Body, Pop];
      assert body + [] == body && body + [Emit(SUCCESS)] == [Emit(RUNNING), Push, Body, Pop, Emit(SUCCESS)];
      middle := inner.trace;
      suffix := if inner.outcome == Raises(Timeout) then [Emit(TIMEOUT)] else [];
    }
  }

  lemma EmittedAppend(t: Trace, e: Event)
    ensures Emitted(t + [e]) == Emitted(t) + if e.Emit? then [e.state] else []
  {
    assert (t + [e])[..|t|] == t;
  }

  lemma EmittedByBody()
    ensures Emitted([Emit(RUNNING), Push, Body, Pop]) == [RUNNING]
  {
    EmittedAppend([], Emit(RUNNING));
    EmittedAppend([Emit(RUNNING)], Push);
    EmittedAppend([Emit(RUNNING), Push], Body);
    EmittedAppend([Emit(RUNNING), Push, Body], Pop);
    assert [] + [Emit(RUNNING)] == [Emit(RUNNING)];
    assert [Emit(RUNNING)] + [Push] == [Emit(RUNNING), Push];
    assert [Emit(RUNNING), Push] + [Body] == [Emit(RUNNING), Push, Body];
    assert [Emit(RUNNING), Push, Body] + [Pop] == [Emit(RUNNING), Push, Body, Pop];
  }

  function StatesOfMiddle(length: nat): seq<TaskState> {
    if length == 0 then [] else if length == 1 then [CACHED] else if length == 4 then [RUNNING] else [RUNNING, SUCCESS]
  }

  lemma EmittedBySuccess()
    ensures Emitted([Emit(RUNNING), Push, Body, Pop, Emit(SUCCESS)]) == [RUNNING, SUCCESS]
  {
    EmittedByBody();
    EmittedAppend([Emit(RUNNING), Push, Body, Pop], Emit(SUCCESS));
    assert [Emit(RUNNING), Push, Body, Pop] + [Emit(SUCCESS)] == [Emit(RUNNING), Push, Body, Pop, Emit(SUCCESS)];
  }

  lemma EmittedByState(s: TaskState)
    ensures Emitted([Emit(s)]) == [s]
  {
    EmittedAppend([], Emit(s));
    assert [] + [Emit(s)] == [Emit(s)];
  }

  lemma EmittedOfMiddle(middle: Trace)
    requires IsMiddle(middle)
    ensures Emitted(middle) == StatesOfMiddle(|middle|)
  {
    EmittedByBody();
    EmittedBySuccess();
    EmittedByState(CACHED);
  }

  lemma CountsConcat(a: Trace, b: Trace)
    ensures Bodies(a + b) == Bodies(a) + Bodies(b)
    ensures Leases(a + b) == Leases(a) + Leases(b) && Frames(a + b) == Frames(a) + Frames(b)
  {
    assert multiset(a + b) == multiset(a) + multiset(b);
  }

  lemma CountsOfBody()
    ensures Bodies([Emit(RUNNING), Push, Body, Pop]) == 1 && Balanced([Emit(RUNNING), Push, Body, Pop])
  {
    assert multiset([Emit(RUNNING), Push, Body, Pop]) == multiset{Emit(RUNNING), Push, Body, Pop};
  }

  lemma CountsOfState(s: TaskState)
    ensures Bodies([Emit(s)]) == 0 && Balanced([Emit(s)])
  {
  }

  lemma CountsOfMiddle(middle: Trace, suffix: Trace)
    requires IsMiddle(middle) && (suffix == [] || suffix == [Emit(TIMEOUT)])
    ensures Bodies(middle + suffix) == (if |middle| >= 4 then 1 else 0) && Balanced(middle + suffix)
  {
    CountsOfBody();
    CountsOfState(TIMEOUT);
    CountsOfState(CACHED);
    CountsOfState(SUCCESS);
    CountsConcat(middle, suffix);
    CountsConcat([Emit(RUNNING), Push, Body, Pop], [Emit(SUCCESS)]);
    assert [Emit(RUNNING), Push, Body, Pop] + [Emit(SUCCESS)] == [Emit(RUNNING), Push, Body, Pop, Emit(SUCCESS)];
  }

  /** The end of a lease. */
  ghost predicate IsEnd(end: Event) { end == Release || end == ReleaseFails }

  /** Around the timeout scope there is at most one lease, taken first and closed last. */
  ghost function Enclosed(c: Config, inner: Trace, end: Event): Trace {
    if c.limited then [Acquire] + inner + [end] else inner
  }

  lemma EnclosedCounts(c: Config, inner: Trace, end: Event)
    requires Balanced(inner) && IsEnd(end)
    ensures Bodies(Enclosed(c, inner, end)) == Bodies(inner) && Balanced(Enclosed(c, inner, end))
  {
    assert multiset([Acquire] + inner + [end]) == multiset{Acquire} + multiset(inner) + multiset{end};
  }

  lemma EnclosedEmits(c: Config, inner: Trace, end: Event)
    requires IsEnd(end)
    ensures Emitted(Enclosed(c, inner, end)) == Emitted(inner)
  {
    EmittedAppend([], Acquire);
    assert [] + [Acquire] == [Acquire];
    EmittedConcat([Acquire], inner);
    EmittedAppend([Acquire] + inner, end);
  }

  /** The only body of an attempt comes third, or fourth when there is a lease. */
  lemma BodyPosition(c: Config, middle: Trace, suffix: Trace, end: Event, k: nat)
    requires IsMiddle(middle) && (suffix == [] || suffix == [Emit(TIMEOUT)]) && IsEnd(end)
    requires k < |Enclosed(c, middle + suffix, end)|
    ensures Enclosed(c, middle + suffix, end)[k] != Sleep
    ensures Enclosed(c, middle + suffix, end)[k] == Body ==>
              Enclosed(c, middle + suffix, end)[..k] == (if c.limited then [Acquire] else []) + [Emit(RUNNING), Push]
  {
    var inner := middle + suffix;
    if c.limited {
      assert Enclosed(c, inner, end)[k] == if k == 0 then Acquire else if k <= |inner| then inner[k - 1] else end;
    }
  }

  lemma HeldAtBody(c: Config)
    ensures var t := (if c.limited then [Acquire] else []) + [Emit(RUNNING), Push];
            Leases(t) == (if c.limited then 1 else 0) && Frames(t) == 1
  {
    if c.limited {
      assert [Acquire] + [Emit(RUNNING), Push] == [Acquire, Emit(RUNNING), Push];
    } else {
      assert [] + [Emit(RUNNING), Push] == [Emit(RUNNING), Push];
    }
  }

  lemma EnclosedBracketed(c: Config, middle: Trace, suffix: Trace, end: Event)
    requires IsMiddle(middle) && (suffix == [] || suffix == [Emit(TIMEOUT)]) && IsEnd(end)
    ensures WellBracketed(c, Enclosed(c, middle + suffix, end))
  {
    HeldAtBody(c);
    var t := Enclosed(c, middle + suffix, end);
    forall k | 0 <= k < |t|
      ensures t[k] != Sleep
      ensures t[k] == Body ==> t[..k] == (if c.limited then [Acquire] else []) + [Emit(RUNNING), Push]
    {
      BodyPosition(c, middle, suffix, end, k);
    }
  }

  /** The states of an attempt, from the length of what happened inside the timeout scope. */
  ghost function StatesOf(middleLength: nat, timedOut: bool): seq<TaskState> {
    StatesOfMiddle(middleLength) + if timedOut then [TIMEOUT] else []
  }

  /** What an attempt's trace is like, without its outcome. */
  ghost predicate AttemptTrace(c: Config, t: Trace, middleLength: nat, timedOut: bool) {
    && (middleLength == 0 || middleLength == 1 || middleLength == 4 || middleLength == 5)
    && Emitted(t) == StatesOf(middleLength, timedOut)
    && Bodies(t) == (if middleLength >= 4 then 1 else 0)
    && Balanced(t) && WellBracketed(c, t)
  }

  lemma EnclosedStates(c: Config, middle: Trace, suffix: Trace, end: Event)
    requires IsMiddle(middle) && (suffix == [] || suffix == [Emit(TIMEOUT)]) && IsEnd(end)
    ensures Emitted(Enclosed(c, middle + suffix, end)) == StatesOf(|middle|, suffix != [])
  {
    EmittedOfMiddle(middle);
    EmittedByState(TIMEOUT);
    EmittedConcat(middle, suffix);
    EnclosedEmits(c, middle + suffix, end);
  }

  lemma EnclosedFacts(c: Config, middle: Trace, suffix: Trace, end: Event)
    requires IsMiddle(middle) && (suffix == [] || suffix == [Emit(TIMEOUT)]) && IsEnd(end)
    ensures AttemptTrace(c, Enclosed(c, middle + suffix, end), |middle|, suffix != [])
  {
    EnclosedStates(c, middle, suffix, end);
    CountsOfMiddle(middle, suffix);
    EnclosedCounts(c, middle + suffix, end);
    EnclosedBracketed(c, middle, suffix, end);
  }

  /** Everything the theorems need to know of one attempt. */
  lemma AttemptFacts<R(!new)>(c: Config, a: Attempt<R>) returns (middleLength: nat, timedOut: bool)
    ensures AttemptTrace(c, WithSemaphore(c, a).trace, middleLength, timedOut)
    ensures WithSemaphore(c, a).outcome.Returns? ==> !timedOut && (middleLength == 1 || middleLength == 5)
    ensures middleLength == MiddleLength(c, a) && timedOut == TimesOut(c, a)
  {
    if c.limited && a.lock.Some? {
      middleLength, timedOut := 0, false;
      return;
    }
    var middle, suffix := AttemptTraces(c, a);
    middleLength, timedOut := |middle|, suffix != [];
    EnclosedFacts(c, middle, suffix, Released(a));
  }

  // ---------------------------------------------------------------- theorems

  /** Any two runs are separated by a retry. */
  ghost predicate Separated(emitted: seq<TaskState>) {
    forall j, k :: 0 <= j < k < |emitted| && emitted[j] == RUNNING && emitted[k] == RUNNING
                   ==> exists m :: j < m < k && emitted[m] == RETRYING
  }

  lemma SeparatedByRetry(a: seq<TaskState>, b: seq<TaskState>)
    requires Separated(a) && Separated(b)
    ensures Separated(a + [RETRYING] + b)
  {
    var e := a + [RETRYING] + b;
    forall j, k | 0 <= j < k < |e| && e[j] == RUNNING && e[k] == RUNNING
      ensures exists m :: j < m < k && e[m] == RETRYING
    {
      if k < |a| {
        var m :| j < m < k && a[m] == RETRYING;
        assert e[m] == RETRYING;
      } else if j > |a| {
        var m :| j - |a| - 1 < m < k - |a| - 1 && b[m] == RETRYING;
        assert e[m + |a| + 1] == RETRYING;
      } else {
        assert e[|a|] == RETRYING;
      }
    }
  }

  /** SUCCESS right after a run, or CACHED without a run since the last retry. */
  ghost predicate EndsWell(emitted: seq<TaskState>) {
    var n := |emitted|;
    || (n >= 2 && emitted[n - 1] == SUCCESS && emitted[n - 2] == RUNNING)
    || (n >= 1 && emitted[n - 1] == CACHED && (n >= 2 ==> emitted[n - 2] == RETRYING))
  }

  /** The last emitted states of a retry loop that ended with a result. */
  ghost predicate EndsInResult<R(!new)>(ran: Ran<Option<R>>, emitted: seq<TaskState>) {
    ran.outcome.Returns? && ran.outcome.value.Some? ==> EndsWell(emitted)
  }

  /** Runs are separated by retries and count the bodies, and leases and frames are bracketed and given back. */
  ghost predicate TraceFacts(c: Config, t: Trace) {
    && Separated(Emitted(t))
    && Count(Emitted(t), RUNNING) == Bodies(t)
    && Balanced(t) && WellBracketed(c, t)
  }

  ghost predicate LoopFacts<R(!new)>(c: Config, ran: Ran<Option<R>>, turns: int) {
    && TraceFacts(c, ran.trace)
    && Bodies(ran.trace) <= (if turns < 0 then 0 else turns)
    && EndsInResult(ran, Emitted(ran.trace))
    && (turns > 0 && ran.outcome.Returns? ==> ran.outcome.value.Some?)
  }

  lemma EmittedBackoff()
    ensures Emitted([Emit(RETRYING)]) == [RETRYING]
    ensures Emitted([Emit(RETRYING), Sleep]) == [RETRYING]
  {
    EmittedAppend([], Emit(RETRYING));
    assert [] + [Emit(RETRYING)] == [Emit(RETRYING)];
    EmittedAppend([Emit(RETRYING)], Sleep);
    assert [Emit(RETRYING)] + [Sleep] == [Emit(RETRYING), Sleep];
  }

  lemma BackoffFacts(c: Config)
    ensures Emitted(Backoff(c)) == [RETRYING] && Bodies(Backoff(c)) == 0
    ensures Balanced(Backoff(c)) && WellBracketed(c, Backoff(c))
  {
    EmittedBackoff();
    if c.delayed {
      var t := [Emit(RETRYING), Sleep];
      assert Backoff(c) == t;
      assert t[..1] == [Emit(RETRYING)];
    } else {
      assert Backoff(c) == [Emit(RETRYING)];
    }
  }

  lemma AttemptSeparated(middleLength: nat, timedOut: bool)
    requires middleLength in {0, 1, 4, 5}
    ensures Separated(StatesOf(middleLength, timedOut))
    ensures Count(StatesOf(middleLength, timedOut), RUNNING) == if middleLength >= 4 then 1 else 0
  {
    CountConcat(StatesOfMiddle(middleLength), if timedOut then [TIMEOUT] else [], RUNNING);
    assert [RUNNING, SUCCESS] == [RUNNING] + [SUCCESS];
    CountConcat([RUNNING], [SUCCESS], RUNNING);
  }

  lemma JoinEmits(c: Config, a: Trace, b: Trace)
    ensures Emitted(a + Backoff(c) + b) == Emitted(a) + [RETRYING] + Emitted(b)
    ensures Count(Emitted(a + Backoff(c) + b), RUNNING) == Count(Emitted(a), RUNNING) + Count(Emitted(b), RUNNING)
  {
    BackoffFacts(c);
    EmittedConcat(a, Backoff(c));
    EmittedConcat(a + Backoff(c), b);
    CountConcat(Emitted(a), [RETRYING], RUNNING);
    CountConcat(Emitted(a) + [RETRYING], Emitted(b), RUNNING);
  }

  lemma JoinByRetry(c: Config, a: Trace, b: Trace)
    requires TraceFacts(c, a) && TraceFacts(c, b)
    ensures TraceFacts(c, a + Backoff(c) + b)
    ensures Bodies(a + Backoff(c) + b) == Bodies(a) + Bodies(b)
  {
    BackoffFacts(c);
    JoinEmits(c, a, b);
    BracketedConcat(c, a, Backoff(c));
    BracketedConcat(c, a + Backoff(c), b);
    SeparatedByRetry(Emitted(a), Emitted(b));
  }

  lemma CountOfAppended(emitted: seq<TaskState>, last: TaskState)
    requires last != RUNNING
    ensures Count(emitted + [last], RUNNING) == Count(emitted, RUNNING)
  {
    CountConcat(emitted, [last], RUNNING);
    assert Count([last], RUNNING) == 0;
  }

  lemma AppendedHeld(c: Config, t: Trace, last: TaskState)
    requires WellBracketed(c, t) && Balanced(t)
    ensures WellBracketed(c, t + [Emit(last)]) && Balanced(t + [Emit(last)])
    ensures Bodies(t + [Emit(last)]) == Bodies(t)
  {
    BracketedConcat(c, t, [Emit(last)]);
  }

  lemma AppendState(c: Config, t: Trace, last: TaskState)
    requires TraceFacts(c, t) && last != RUNNING
    ensures TraceFacts(c, t + [Emit(last)])
    ensures Emitted(t + [Emit(last)]) == Emitted(t) + [last] && Bodies(t + [Emit(last)]) == Bodies(t)
  {
    EmittedAppend(t, Emit(last));
    CountOfAppended(Emitted(t), last);
    SeparatedAppend(Emitted(t), last);
    AppendedHeld(c, t, last);
  }

  lemma SeparatedAppend(a: seq<TaskState>, last: TaskState)
    requires Separated(a) && last != RUNNING
    ensures Separated(a + [last])
  {
    var e := a + [last];
    forall j, k | 0 <= j < k < |e| && e[j] == RUNNING && e[k] == RUNNING
      ensures exists m :: j < m < k && e[m] == RETRYING
    {
      var m :| j < m < k && a[m] == RETRYING;
      assert e[m] == RETRYING;
    }
  }

  lemma AttemptTraceFacts<R(!new)>(c: Config, a: Attempt<R>)
    ensures var ran := WithSemaphore(c, a);
            && TraceFacts(c, ran.trace) && Bodies(ran.trace) <= 1
            && (ran.outcome.Returns? ==> EndsWell(Emitted(ran.trace)))
  {
    var middleLength, timedOut := AttemptFacts(c, a);
    AttemptSeparated(middleLength, timedOut);
  }

  lemma BackoffAtEnd(c: Config, t: Trace)
    requires TraceFacts(c, t)
    ensures TraceFacts(c, t + Backoff(c)) && Bodies(t + Backoff(c)) == Bodies(t)
  {
    JoinByRetry(c, t, []);
    assert t + Backoff(c) + [] == t + Backoff(c);
  }

  lemma TurnTrace<R(!new)>(c: Config, a: Attempt<R>, isLast: bool)
    ensures TraceFacts(c, Turn(c, a, isLast).0) && Bodies(Turn(c, a, isLast).0) <= 1
  {
    AttemptTraceFacts(c, a);
    BackoffAtEnd(c, WithSemaphore(c, a).trace);
  }

  lemma FirstTurn<R(!new)>(c: Config, a: Attempt<R>, isLast: bool)
    requires Turn(c, a, isLast).1.Some?
    ensures LoopFacts(c, Ran(Turn(c, a, isLast).0, Turn(c, a, isLast).1.value), 1)
  {
    TurnTrace(c, a, isLast);
    if WithSemaphore(c, a).outcome.Returns? {
      AttemptTraceFacts(c, a);
    }
  }

  lemma {:induction false} MoreTurns<R(!new)>(c: Config, ran: Ran<Option<R>>, few: int, many: int)
    requires LoopFacts(c, ran, few) && 0 < few <= many
    ensures LoopFacts(c, ran, many)
  {
  }

  lemma EndsWellAfterRetry(a: seq<TaskState>, b: seq<TaskState>)
    requires EndsWell(b)
    ensures EndsWell(a + [RETRYING] + b)
  {
  }

  lemma LaterTurns<R(!new)>(c: Config, t: Trace, rest: Ran<Option<R>>, turns: nat)
    requires TraceFacts(c, t) && Bodies(t) <= 1 && LoopFacts(c, rest, turns) && turns > 0
    ensures LoopFacts(c, Ran(t + Backoff(c) + rest.trace, rest.outcome), turns + 1)
  {
    JoinByRetry(c, t, rest.trace);
    JoinEmits(c, t, rest.trace);
    if EndsWell(Emitted(rest.trace)) {
      EndsWellAfterRetry(Emitted(t), Emitted(rest.trace));
    }
  }

  /** A turn that does not decide the call is an attempt and a backoff. */
  lemma TurnGoesOn<R(!new)>(c: Config, a: Attempt<R>, isLast: bool) returns (t: Trace)
    requires Turn(c, a, isLast).1.None?
    ensures !isLast && Turn(c, a, isLast).0 == t + Backoff(c)
    ensures TraceFacts(c, t) && Bodies(t) <= 1
  {
    t := WithSemaphore(c, a).trace;
    AttemptTraceFacts(c, a);
  }

  lemma {:induction false} RetryFacts<R(!new)>(c: Config, script: seq<Attempt<R>>, i: nat)
    requires |script| >= c.tries
    ensures LoopFacts(c, Retry(c, script, i), c.tries - i)
    decreases c.tries - i
  {
    if i < c.tries {
      var isLast := i == c.tries - 1;
      Unfold(c, script, i, []);
      if Turn(c, script[i], isLast).1.Some? {
        FirstTurn(c, script[i], isLast);
        MoreTurns(c, Retry(c, script, i), 1, c.tries - i);
      } else {
        var t := TurnGoesOn(c, script[i], isLast);
        var rest := Retry(c, script, i + 1);
        RetryFacts(c, script, i + 1);
        LaterTurns(c, t, rest, c.tries - i - 1);
        assert Retry(c, script, i) == Ran(t + Backoff(c) + rest.trace, rest.outcome);
      }
    }
  }

  ghost predicate LastStateFits<R(!new)>(outcome: Outcome<Option<R>>, emitted: seq<TaskState>) {
    && emitted != []
    && var last := emitted[|emitted| - 1];
       match outcome
       case Returns(value) => value.Some? && EndsWell(emitted)
       case Raises(e) => last == if e == Cancelled then CANCELLED else FAILURE
  }

  lemma ResultFits<R(!new)>(c: Config, ran: Ran<Option<R>>, turns: int)
    requires LoopFacts(c, ran, turns) && turns > 0 && ran.outcome.Returns?
    ensures LastStateFits(ran.outcome, Emitted(ran.trace))
  {
  }

  lemma ExceptionFits<R(!new)>(t: Trace, outcome: Outcome<Option<R>>, last: TaskState)
    requires outcome.Raises? && last == if outcome.exception.Cancelled? then CANCELLED else FAILURE
    ensures LastStateFits(outcome, Emitted(t + [Emit(last)]))
  {
    EmittedAppend(t, Emit(last));
  }

  /**
   The wrapper refines its outcome, whatever the surroundings do, when at least one try is configured: the last
   transition is SUCCESS after a run, or CACHED, on a result, CANCELLED on a cancellation, FAILURE on any other
   exception.
   */
  lemma LastTransition<R(!new)>(c: Config, script: seq<Attempt<R>>)
    requires |script| >= c.tries && c.tries >= 1
    ensures LastStateFits(Call(c, script).outcome, Emitted(Call(c, script).trace))
  {
    var ran := Retry(c, script, 0);
    RetryFacts(c, script, 0);
    if ran.outcome.Raises? {
      ExceptionFits(ran.trace, ran.outcome, if ran.outcome.exception.Cancelled? then CANCELLED else FAILURE);
    } else {
      ResultFits(c, ran, c.tries);
    }
  }

  /** Without a single try the call silently returns nothing and emits nothing. */
  lemma NoTries<R(!new)>(c: Config, script: seq<Attempt<R>>)
    requires |script| >= c.tries
    ensures Call(c, script) == Ran([], Returns(None)) <==> c.tries <= 0
  {
    if c.tries >= 1 {
      LastTransition(c, script);
    }
  }

  /**
   Runs are separated by retries, bodies are counted by RUNNING and bounded by the tries, and nothing leaks: what
   is still held at the end are exactly the leases whose release failed.
   */
  lemma RunsAndBrackets<R(!new)>(c: Config, script: seq<Attempt<R>>)
    requires |script| >= c.tries
    ensures var t := Call(c, script).trace;
            && Separated(Emitted(t))
            && Count(Emitted(t), RUNNING) == Bodies(t)
            && (Bodies(t) <= c.tries || Bodies(t) == 0)
            && WellBracketed(c, t) && Frames(t) == 0 && Held(t) == Failed(t)
  {
    var ran := Retry(c, script, 0);
    RetryFacts(c, script, 0);
    if ran.outcome.Raises? {
      AppendState(c, ran.trace, if ran.outcome.exception.Cancelled? then CANCELLED else FAILURE);
    }
  }

  // ---------------------------------------------------------------- what one attempt comes to

  /** The outcome of an attempt, from the configuration and from what failed: a failing release has the last word. */
  lemma AttemptOutcome<R(!new)>(c: Config, a: Attempt<R>)
    ensures WithSemaphore(c, a).outcome ==
            if c.limited && a.lock.Some? then Raises(a.lock.value)
            else if c.limited && a.release.Some? then Raises(a.release.value)
            else if c.rated && a.bucket.Some? then Raises(a.bucket.value)
            else if c.cache && a.lookup.LookupFails? then Raises(a.lookup.exception)
            else if c.cache && a.lookup.Hit? && !c.refreshCache then Returns(a.lookup.value)
            else if a.body.Returns? && c.cache && a.store.Some? then Raises(a.store.value)
            else a.body
  {
  }

  lemma StatesByLength(middleLength: nat, timedOut: bool)
    requires middleLength == 0 || middleLength == 1 || middleLength == 4 || middleLength == 5
    ensures StatesOf(middleLength, timedOut)
         == (if middleLength == 0 then [] else if middleLength == 1 then [CACHED]
             else if middleLength == 5 then [RUNNING, SUCCESS] else [RUNNING])
            + (if timedOut then [TIMEOUT] else [])
  {
  }

  /** The states that an attempt emits, and whether its body runs: exactly what its script calls for. */
  lemma AttemptStates<R(!new)>(c: Config, a: Attempt<R>)
    ensures Emitted(WithSemaphore(c, a).trace)
         == (if !Runs(c, a) then (if Admitted(c, a) && c.cache && a.lookup.Hit? then [CACHED] else [])
             else if a.body.Returns? then [RUNNING, SUCCESS] else [RUNNING])
            + (if TimesOut(c, a) then [TIMEOUT] else [])
    ensures Bodies(WithSemaphore(c, a).trace) == if Runs(c, a) then 1 else 0
  {
    var middleLength, timedOut := AttemptFacts(c, a);
    StatesByLength(middleLength, timedOut);
  }

  /** With a limit the attempt takes a lease if it can, and its last event gives it back or fails to. */
  lemma AttemptLease<R(!new)>(c: Config, a: Attempt<R>)
    ensures var t := WithSemaphore(c, a).trace;
            if c.limited && a.lock.None? then
              |t| >= 2 && t[0] == Acquire && t[|t| - 1] == if a.release.Some? then ReleaseFails else Release
            else Acquire !in t && Release !in t && ReleaseFails !in t
  {
    if !c.limited {
      var middle, suffix := AttemptTraces(c, a);
    }
  }

  // ---------------------------------------------------------------- which attempts are made

  /** The loop, entered at `from`, makes attempt `k`: all attempts before it were retried. */
  ghost predicate IsMade<R(!new)>(c: Config, script: seq<Attempt<R>>, from: nat, k: nat)
    requires |script| >= c.tries
  {
    from <= k < c.tries && forall m :: from <= m < k ==> Turn(c, script[m], m == c.tries - 1).1.None?
  }

  lemma {:induction false} MadeDecides<R(!new)>(c: Config, script: seq<Attempt<R>>, i: nat, k: nat)
    requires |script| >= c.tries && IsMade(c, script, i, k)
    ensures Retry(c, script, i).outcome == Retry(c, script, k).outcome
    decreases k - i
  {
    if i < k {
      Unfold(c, script, i, []);
      MadeDecides(c, script, i + 1, k);
    }
  }

  /** After an attempt that is made the next one is made exactly when there is one left and it is worth it. */
  lemma RetriedExactlyWhen<R(!new)>(c: Config, script: seq<Attempt<R>>, k: nat)
    requires |script| >= c.tries && IsMade(c, script, 0, k)
    ensures var outcome := WithSemaphore(c, script[k]).outcome;
            IsMade(c, script, 0, k + 1)
            <==>
              && outcome.Raises? && k + 1 < c.tries
              && !c.noRetry(outcome.exception) && outcome.exception != Cancelled && c.retry(outcome.exception)
              && !(c.delayed && script[k].backoffCancelled)
  {
  }

  /** The call's outcome is that of its last attempt, or a cancellation that hit the backoff after it. */
  lemma LastAttemptDecides<R(!new)>(c: Config, script: seq<Attempt<R>>, k: nat)
    requires |script| >= c.tries && IsMade(c, script, 0, k) && !IsMade(c, script, 0, k + 1)
    ensures Call(c, script).outcome ==
            match WithSemaphore(c, script[k]).outcome
            case Returns(value) => Returns(Some(value))
            case Raises(e) =>
              if c.noRetry(e) || e == Cancelled || !c.retry(e) || k + 1 == c.tries then Raises(e)
              else Raises(Cancelled)
  {
    MadeDecides(c, script, 0, k);
    Unfold(c, script, k, []);
  }

  /** An exception that is not to be retried ends the call there and then. */
  lemma GivesUpAtOnce<R(!new)>(c: Config, script: seq<Attempt<R>>, k: nat, e: Exception)
    requires |script| >= c.tries && IsMade(c, script, 0, k) && WithSemaphore(c, script[k]).outcome == Raises(e)
    requires c.noRetry(e) || e == Cancelled || !c.retry(e)
    ensures Call(c, script).outcome == Raises(e)
    ensures forall n: nat :: n > k ==> !IsMade(c, script, 0, n)
  {
    RetriedExactlyWhen(c, script, k);
    LastAttemptDecides(c, script, k);
  }

  /** There is a last attempt as soon as there is one try. */
  lemma {:induction false} LastAttempt<R(!new)>(c: Config, script: seq<Attempt<R>>, i: nat) returns (k: nat)
    requires |script| >= c.tries && IsMade(c, script, 0, i)
    ensures i <= k && IsMade(c, script, 0, k) && !IsMade(c, script, 0, k + 1)
    decreases c.tries - i
  {
    if IsMade(c, script, 0, i + 1) {
      k := LastAttempt(c, script, i + 1);
    } else {
      k := i;
    }
  }

  function Times(t: Trace, e: Event): nat {
    if t == [] then 0 else Times(t[..|t| - 1], e) + if t[|t| - 1] == e then 1 else 0
  }

  lemma {:induction false} TimesConcat(a: Trace, b: Trace, e: Event)
    ensures Times(a + b, e) == Times(a, e) + Times(b, e)
  {
    if b == [] {
      assert a + b == a;
    } else {
      assert (a + b)[..|a + b| - 1] == a + b[..|b| - 1];
      TimesConcat(a, b[..|b| - 1], e);
    }
  }

  lemma {:induction false} TimesAbsent(t: Trace, e: Event)
    requires e !in t
    ensures Times(t, e) == 0
  {
    if t != [] {
      TimesAbsent(t[..|t| - 1], e);
    }
  }

  /** The trace backs off `n` times, and sleeps as often if a delay is configured. */
  ghost predicate BacksOff(c: Config, t: Trace, n: nat) {
    Times(t, Emit(RETRYING)) == n && Times(t, Sleep) == if c.delayed then n else 0
  }

  lemma BackoffsConcat(c: Config, a: Trace, m: nat, b: Trace, n: nat)
    requires BacksOff(c, a, m) && BacksOff(c, b, n)
    ensures BacksOff(c, a + b, m + n)
  {
    TimesConcat(a, b, Emit(RETRYING));
    TimesConcat(a, b, Sleep);
  }

  lemma NoBackoffInMiddle(middle: Trace, suffix: Trace)
    requires IsMiddle(middle) && (suffix == [] || suffix == [Emit(TIMEOUT)])
    ensures Emit(RETRYING) !in middle + suffix && Sleep !in middle + suffix
  {
    assert Emit(RETRYING) !in middle && Sleep !in middle;
  }

  lemma NoBackoffInside<R(!new)>(c: Config, a: Attempt<R>)
    ensures Emit(RETRYING) !in WithSemaphore(c, a).trace && Sleep !in WithSemaphore(c, a).trace
  {
    var middle, suffix := AttemptTraces(c, a);
    NoBackoffInMiddle(middle, suffix);
  }

  lemma OneBackoff(c: Config)
    ensures BacksOff(c, Backoff(c), 1)
  {
    assert Backoff(c) == if c.delayed then [Emit(RETRYING)] + [Sleep] else [Emit(RETRYING)];
    assert Times([Emit(RETRYING)], Emit(RETRYING)) == 1 && Times([Sleep], Sleep) == 1;
    TimesAbsent([Emit(RETRYING)], Sleep);
    TimesAbsent([Sleep], Emit(RETRYING));
    TimesConcat([Emit(RETRYING)], [Sleep], Emit(RETRYING));
    TimesConcat([Emit(RETRYING)], [Sleep], Sleep);
  }

  /** The loop gave up after attempt `k` only because its backoff was cancelled. */
  ghost predicate CutShort<R(!new)>(c: Config, script: seq<Attempt<R>>, k: nat)
    requires |script| >= c.tries && k < c.tries
  {
    var outcome := WithSemaphore(c, script[k]).outcome;
    && outcome.Raises? && !GivesUp(c, outcome.exception) && k + 1 < c.tries
    && c.delayed && script[k].backoffCancelled
  }

  lemma TurnBacksOff<R(!new)>(c: Config, script: seq<Attempt<R>>, k: nat) returns (backsOff: bool)
    requires |script| >= c.tries && k < c.tries
    ensures backsOff <==> Turn(c, script[k], k == c.tries - 1).1.None? || CutShort(c, script, k)
    ensures Turn(c, script[k], k == c.tries - 1).0
         == if backsOff then WithSemaphore(c, script[k]).trace + Backoff(c) else WithSemaphore(c, script[k]).trace
  {
    backsOff := Turn(c, script[k], k == c.tries - 1).1.None? || CutShort(c, script, k);
  }

  lemma TurnBackoffs<R(!new)>(c: Config, script: seq<Attempt<R>>, k: nat)
    requires |script| >= c.tries && k < c.tries
    ensures var (trace, decision) := Turn(c, script[k], k == c.tries - 1);
            BacksOff(c, trace, if decision.None? || CutShort(c, script, k) then 1 else 0)
  {
    var backsOff := TurnBacksOff(c, script, k);
    var t := WithSemaphore(c, script[k]).trace;
    NoBackoffInside(c, script[k]);
    TimesAbsent(t, Emit(RETRYING));
    TimesAbsent(t, Sleep);
    OneBackoff(c);
    BackoffsConcat(c, t, 0, Backoff(c), 1);
  }

  /** The number of backoffs in what is left of the loop before attempt `i`. */
  ghost function BackoffsLeft<R(!new)>(c: Config, script: seq<Attempt<R>>, i: nat): nat
    requires |script| >= c.tries
    decreases c.tries - i
  {
    if i >= c.tries then 0
    else if Turn(c, script[i], i == c.tries - 1).1.None? then 1 + BackoffsLeft(c, script, i + 1)
    else if CutShort(c, script, i) then 1 else 0
  }

  lemma {:induction false} LoopBacksOff<R(!new)>(c: Config, script: seq<Attempt<R>>, i: nat)
    requires |script| >= c.tries
    ensures BacksOff(c, Retry(c, script, i).trace, BackoffsLeft(c, script, i))
    decreases c.tries - i
  {
    if i < c.tries {
      TurnBackoffs(c, script, i);
      if Turn(c, script[i], i == c.tries - 1).1.None? {
        var trace, rest := Turn(c, script[i], i == c.tries - 1).0, Retry(c, script, i + 1).trace;
        LoopBacksOff(c, script, i + 1);
        BackoffsConcat(c, trace, 1, rest, BackoffsLeft(c, script, i + 1));
      }
    }
  }

  lemma {:induction false} BackoffsBeforeLast<R(!new)>(c: Config, script: seq<Attempt<R>>, i: nat, k: nat)
    requires |script| >= c.tries && IsMade(c, script, i, k) && Turn(c, script[k], k == c.tries - 1).1.Some?
    ensures BackoffsLeft(c, script, i) == k - i + if CutShort(c, script, k) then 1 else 0
    decreases k - i
  {
    if i < k {
      BackoffsBeforeLast(c, script, i + 1, k);
    }
  }

  /** One RETRYING between any two attempts, with one sleep each when a delay is configured, and no others. */
  lemma OneBackoffPerRetry<R(!new)>(c: Config, script: seq<Attempt<R>>, k: nat)
    requires |script| >= c.tries && IsMade(c, script, 0, k) && !IsMade(c, script, 0, k + 1)
    ensures var n := k + if CutShort(c, script, k) then 1 else 0;
            && Times(Call(c, script).trace, Emit(RETRYING)) == n
            && Times(Call(c, script).trace, Sleep) == if c.delayed then n else 0
  {
    var ran := Retry(c, script, 0);
    LoopBacksOff(c, script, 0);
    BackoffsBeforeLast(c, script, 0, k);
    if ran.outcome.Raises? {
      var last := [Emit(if ran.outcome.exception.Cancelled? then CANCELLED else FAILURE)];
      TimesAbsent(last, Emit(RETRYING));
      TimesAbsent(last, Sleep);
      BackoffsConcat(c, ran.trace, BackoffsLeft(c, script, 0), last, 0);
    }
  }

  // ---------------------------------------------------------------- when SUCCESS is taken back

  /** The body of the attempt returns, but storing its result in the cache or releasing the lease fails after it. */
  predicate Overturned<R>(c: Config, a: Attempt<R>) {
    && Runs(c, a) && a.body.Returns?
    && ((c.cache && a.store.Some?) || (c.limited && a.release.Some?))
  }

  ghost predicate TakenBack(emitted: seq<TaskState>) {
    exists k :: 0 <= k < |emitted| - 1 && emitted[k] == SUCCESS
  }

  lemma {:induction false} EmittedHas(t: Trace, s: TaskState)
    ensures s in Emitted(t) <==> Emit(s) in t
  {
    if t != [] {
      EmittedHas(t[..|t| - 1], s);
      assert t == t[..|t| - 1] + [t[|t| - 1]];
    }
  }

  /** Inside the lease: SUCCESS is emitted when the body runs and returns, and only storing can fail after it. */
  lemma SuccessInside<R(!new)>(c: Config, a: Attempt<R>)
    ensures var ran := WithTokenBucket(c, a);
            var runs := (c.rated ==> a.bucket.None?)
                        && (c.cache ==> a.lookup.Miss? || (a.lookup.Hit? && c.refreshCache));
            && (Emit(SUCCESS) in ran.trace <==> runs && a.body.Returns?)
            && (Emit(SUCCESS) in ran.trace ==> (ran.outcome.Raises? <==> c.cache && a.store.Some?))
  {
    assert Emit(SUCCESS) in RunningState(a).trace <==> a.body.Returns?;
    assert Emit(SUCCESS) in CacheResults(c, a).trace <==> Emit(SUCCESS) in TimeoutState(CacheResults(c, a)).trace;
  }

  lemma OverturnedTrace<R(!new)>(c: Config, a: Attempt<R>)
    ensures Overturned(c, a) <==> Emit(SUCCESS) in WithSemaphore(c, a).trace && WithSemaphore(c, a).outcome.Raises?
  {
    SuccessInside(c, a);
    if c.limited && a.lock.None? {
      var inner := WithTokenBucket(c, a).trace;
      assert WithSemaphore(c, a).trace == [Acquire] + inner + [Released(a)];
    }
  }

  lemma OverturnedAttempt<R(!new)>(c: Config, a: Attempt<R>)
    ensures var ran := WithSemaphore(c, a);
            Overturned(c, a) <==> SUCCESS in Emitted(ran.trace) && ran.outcome.Raises?
  {
    OverturnedTrace(c, a);
    EmittedHas(WithSemaphore(c, a).trace, SUCCESS);
  }

  lemma ReturningStates(middleLength: nat)
    requires middleLength == 1 || middleLength == 5
    ensures !TakenBack(StatesOf(middleLength, false))
  {
    assert StatesOf(middleLength, false) == StatesOfMiddle(middleLength);
  }

  lemma ReturningAttempt<R(!new)>(c: Config, a: Attempt<R>)
    requires WithSemaphore(c, a).outcome.Returns?
    ensures !TakenBack(Emitted(WithSemaphore(c, a).trace))
  {
    var middleLength, timedOut := AttemptFacts(c, a);
    ReturningStates(middleLength);
  }

  lemma TakenBackAtEnd(a: seq<TaskState>, last: TaskState)
    ensures TakenBack(a + [last]) <==> SUCCESS in a
  {
    if SUCCESS in a {
      var k :| 0 <= k < |a| && a[k] == SUCCESS;
      assert (a + [last])[k] == SUCCESS;
    }
  }

  lemma TakenBackOrLater(a: seq<TaskState>, b: seq<TaskState>)
    ensures TakenBack(a + [RETRYING] + b) <==> SUCCESS in a || TakenBack(b)
  {
    var e := a + [RETRYING] + b;
    if SUCCESS in a {
      var k :| 0 <= k < |a| && a[k] == SUCCESS;
      assert e[k] == SUCCESS;
    }
    if TakenBack(b) {
      var k :| 0 <= k < |b| - 1 && b[k] == SUCCESS;
      assert e[k + |a| + 1] == SUCCESS;
    }
    if k :| 0 <= k < |e| - 1 && e[k] == SUCCESS && k > |a| {
      assert b[k - |a| - 1] == SUCCESS;
    }
  }

  /** The states of a loop and of the outermost wrappers after it. */
  ghost function Closed<R(!new)>(ran: Ran<Option<R>>): seq<TaskState> {
    Emitted(ran.trace) + Outermost(ran.outcome)
  }

  ghost function Outermost<R(!new)>(outcome: Outcome<Option<R>>): seq<TaskState> {
    if outcome.Returns? then [] else [if outcome.exception.Cancelled? then CANCELLED else FAILURE]
  }

  lemma FailedTurn<R(!new)>(c: Config, a: Attempt<R>, isLast: bool, e: Exception)
    requires Turn(c, a, isLast).1 == Some(Outcome.Raises(e))
    ensures TakenBack(Closed(Ran(Turn(c, a, isLast).0, Outcome<Option<R>>.Raises(e))))
            <==> SUCCESS in Emitted(WithSemaphore(c, a).trace)
  {
    var t := WithSemaphore(c, a).trace;
    var last := if e.Cancelled? then CANCELLED else FAILURE;
    TakenBackAtEnd(Emitted(t), last);
    EmittedConcat(t, Backoff(c));
    BackoffFacts(c);
    TakenBackAtEnd(Emitted(t) + [RETRYING], last);
  }

  lemma DecidedTurn<R(!new)>(c: Config, a: Attempt<R>, isLast: bool)
    requires Turn(c, a, isLast).1.Some?
    ensures TakenBack(Closed(Ran(Turn(c, a, isLast).0, Turn(c, a, isLast).1.value))) <==> Overturned(c, a)
  {
    OverturnedAttempt(c, a);
    var outcome := Turn(c, a, isLast).1.value;
    if outcome.Returns? {
      ReturningAttempt(c, a);
      assert Closed(Ran(WithSemaphore(c, a).trace, outcome)) == Emitted(WithSemaphore(c, a).trace);
    } else {
      FailedTurn(c, a, isLast, outcome.exception);
    }
  }

  lemma ClosedAfterRetry<R(!new)>(c: Config, t: Trace, rest: Ran<Option<R>>)
    ensures Closed(Ran(t + Backoff(c) + rest.trace, rest.outcome)) == Emitted(t) + [RETRYING] + Closed(rest)
  {
    JoinEmits(c, t, rest.trace);
    Regroup(Emitted(t) + [RETRYING], Emitted(rest.trace), Outermost(rest.outcome));
  }

  lemma Regroup(a: seq<TaskState>, b: seq<TaskState>, c: seq<TaskState>)
    ensures a + b + c == a + (b + c)
  {
  }

  lemma RetriedTurn<R(!new)>(c: Config, a: Attempt<R>, isLast: bool, rest: Ran<Option<R>>)
    requires Turn(c, a, isLast).1.None?
    ensures TakenBack(Closed(Ran(Turn(c, a, isLast).0 + rest.trace, rest.outcome)))
            <==> Overturned(c, a) || TakenBack(Closed(rest))
  {
    var t := WithSemaphore(c, a).trace;
    OverturnedAttempt(c, a);
    ClosedAfterRetry(c, t, rest);
    TakenBackOrLater(Emitted(t), Closed(rest));
  }

  lemma MadeFirst<R(!new)>(c: Config, script: seq<Attempt<R>>, i: nat)
    requires i < c.tries <= |script|
    ensures IsMade(c, script, i, i)
    ensures forall k: nat :: k != i ==>
              (IsMade(c, script, i, k) <==> Turn(c, script[i], i == c.tries - 1).1.None? && IsMade(c, script, i + 1, k))
  {
  }

  lemma {:induction false} TakenBackByRetry<R(!new)>(c: Config, script: seq<Attempt<R>>, i: nat)
    requires |script| >= c.tries
    ensures TakenBack(Closed(Retry(c, script, i)))
            <==> exists k: nat :: IsMade(c, script, i, k) && Overturned(c, script[k])
    decreases c.tries - i
  {
    if i < c.tries {
      var isLast := i == c.tries - 1;
      MadeFirst(c, script, i);
      Unfold(c, script, i, []);
      if Turn(c, script[i], isLast).1.Some? {
        DecidedTurn(c, script[i], isLast);
      } else {
        TakenBackByRetry(c, script, i + 1);
        RetriedTurn(c, script[i], isLast, Retry(c, script, i + 1));
      }
    }
  }

  /**
   Exactly when a call emits SUCCESS and goes on: some attempt that it makes fails after its body returned,
   because the result cannot be stored in the cache or the lease cannot be released.
   */
  lemma SuccessIsTakenBack<R(!new)>(c: Config, script: seq<Attempt<R>>)
    requires |script| >= c.tries
    ensures TakenBack(Emitted(Call(c, script).trace))
            <==> exists k: nat :: IsMade(c, script, 0, k) && Overturned(c, script[k])
  {
    var ran := Retry(c, script, 0);
    TakenBackByRetry(c, script, 0);
    if ran.outcome.Raises? {
      EmittedAppend(ran.trace, Emit(if ran.outcome.exception.Cancelled? then CANCELLED else FAILURE));
    } else {
      assert Closed(ran) == Emitted(ran.trace);
    }
  }

  /** A limited attempt whose body returns, with or without a failing release. */
  function Limited(value: int, release: Option<Exception>): Attempt<int> {
    Attempt(None, None, Miss, Returns(value), None, release, false)
  }

  function LimitedTrace(end: Event): Trace {
    [Acquire, Emit(RUNNING), Push, Body, Pop, Emit(SUCCESS), end]
  }

  lemma LimitedAttempt(c: Config, value: int, release: Option<Exception>)
    requires c.limited && !c.rated && !c.cache
    ensures var a, ran := Limited(value, release), WithSemaphore(c, Limited(value, release));
            && ran.trace == LimitedTrace(Released(a))
            && ran.outcome == if release.Some? then Raises(release.value) else Returns(value)
  {
    var a := Limited(value, release);
    assert WithTokenBucket(c, a) == RunningState(a);
    assert RunningState(a).trace == [Emit(RUNNING), Push, Body, Pop, Emit(SUCCESS)];
  }

  lemma LimitedStates(c: Config, end: Event)
    requires c.limited && IsEnd(end)
    ensures Emitted(LimitedTrace(end)) == [RUNNING, SUCCESS]
  {
    var body := [Emit(RUNNING), Push, Body, Pop, Emit(SUCCESS)];
    assert body + [] == body && LimitedTrace(end) == Enclosed(c, body, end);
    EnclosedStates(c, body, [], end);
    assert StatesOf(5, false) == [RUNNING, SUCCESS];
  }

  /** A call of two tries, of which the first fails and the second returns. */
  lemma TwoTries(c: Config, script: seq<Attempt<int>>)
    requires |script| == c.tries == 2 && WithSemaphore(c, script[0]).outcome.Raises?
    requires !GivesUp(c, WithSemaphore(c, script[0]).outcome.exception) && !c.delayed
    requires WithSemaphore(c, script[1]).outcome.Returns?
    ensures Call(c, script).trace
         == WithSemaphore(c, script[0]).trace + Backoff(c) + WithSemaphore(c, script[1]).trace
    ensures Call(c, script).outcome == Returns(Some(WithSemaphore(c, script[1]).outcome.value))
  {
    Unfold(c, script, 1, []);
    Unfold(c, script, 0, []);
  }

  lemma LimitedTwice(c: Config)
    requires c.limited
    ensures Emitted(LimitedTrace(ReleaseFails) + Backoff(c) + LimitedTrace(Release))
         == [RUNNING, SUCCESS, RETRYING, RUNNING, SUCCESS]
  {
    LimitedStates(c, ReleaseFails);
    LimitedStates(c, Release);
    JoinEmits(c, LimitedTrace(ReleaseFails), LimitedTrace(Release));
  }

  /** It happens: the first release fails, and the body runs a second time after SUCCESS. */
  lemma RunAfterSuccess() returns (c: Config, script: seq<Attempt<int>>)
    ensures |script| == c.tries == 2 && c.limited && !c.cache
    ensures Emitted(Call(c, script).trace) == [RUNNING, SUCCESS, RETRYING, RUNNING, SUCCESS]
    ensures Call(c, script).outcome == Returns(Some(2))
  {
    c := Config(2, true, false, false, false, false, e => false, e => true);
    script := [Limited(1, Some(Error(0))), Limited(2, None)];
    LimitedAttempt(c, 1, Some(Error(0)));
    LimitedAttempt(c, 2, None);
    TwoTries(c, script);
    LimitedTwice(c);
  }

  /** The log of one call: the emitted states without adjacent repeats, with one counted run for each body. */
  lemma LogOfCall<R(!new)>(c: Config, script: seq<Attempt<R>>, db: Database, u: Uuid)
    requires |script| >= c.tries
    requires u in db.rows && db.rows[u].state == CREATED && LogOf(db.log, u) == []
    ensures var t := Call(c, script).trace;
            var after := TaskRunStates.Emit(db, u, Emitted(t));
            && ToStates(LogOf(after.log, u)) == WithoutRepeats(CREATED, Emitted(t))
            && after.rows[u].runCount == db.rows[u].runCount + Bodies(t)
  {
    var emitted := Emitted(Call(c, script).trace);
    RunsAndBrackets(c, script);
    forall i | 0 < i < |emitted|
      ensures !(emitted[i - 1] == RUNNING && emitted[i] == RUNNING)
    {
    }
    EveryRunCounts(CREATED, emitted);
    LogOfEmitted(db, u, emitted);
  }
}
