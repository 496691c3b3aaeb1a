/** The token bucket script, what any run of it can grant, and the retry loop around it. */
module TokenBuckets {
  import opened Clocks
  import opened Options

  /** The two Redis keys; either may be unset. */
  datatype Bucket = Bucket(lastTokens: Option<int>, lastRefill: Option<int>)

  function Min(x: int, y: int): int { if x <= y then x else y }

  function MaxInt(x: int, y: int): int { if x >= y then x else y }

  function Tokens(b: Bucket, capacity: int): int {
    if b.lastTokens.Some? then b.lastTokens.value else capacity
  }

  function TimeDelta(b: Bucket, now: int): nat {
    MaxInt(0, now - (if b.lastRefill.Some? then b.lastRefill.value else now))
  }

  function Refilled(b: Bucket, rate: int, capacity: int, now: int): int {
    Min(capacity, Tokens(b, capacity) + TimeDelta(b, now) * rate)
  }

  predicate Allowed(b: Bucket, rate: int, capacity: int, requested: int, now: int) {
    Refilled(b, rate, capacity, now) >= requested
  }

  function Evaluate(b: Bucket, rate: int, capacity: int, requested: int, now: int): Bucket {
    var spent := if Allowed(b, rate, capacity, requested, now) then requested else 0;
    Bucket(Some(Refilled(b, rate, capacity, now) - spent), Some(now))
  }

  // ---------------------------------------------------------------- runs of evaluations

  datatype Eval = Eval(requested: int, now: int)

  predicate NoneNegative(evals: seq<Eval>) {
    forall i :: 0 <= i < |evals| ==> evals[i].requested >= 0
  }

  function After(b: Bucket, rate: int, capacity: int, evals: seq<Eval>): Bucket
    decreases evals
  {
    if evals == [] then b
    else After(Evaluate(b, rate, capacity, evals[0].requested, evals[0].now), rate, capacity, evals[1..])
  }

  /** Tokens handed out by a run. */
  function Granted(b: Bucket, rate: int, capacity: int, evals: seq<Eval>): int
    decreases evals
  {
    if evals == [] then 0
    else
      (if Allowed(b, rate, capacity, evals[0].requested, evals[0].now) then evals[0].requested else 0)
      + Granted(Evaluate(b, rate, capacity, evals[0].requested, evals[0].now), rate, capacity, evals[1..])
  }

  /** Tokens that ran over the rim. */
  function Overflow(b: Bucket, rate: int, capacity: int, evals: seq<Eval>): nat
    decreases evals
  {
    if evals == [] then 0
    else
      MaxInt(0, Tokens(b, capacity) + TimeDelta(b, evals[0].now) * rate - capacity)
      + Overflow(Evaluate(b, rate, capacity, evals[0].requested, evals[0].now), rate, capacity, evals[1..])
  }

  /** The sum of the positive increments of the clock readings, starting from the stored one. */
  function Elapsed(b: Bucket, evals: seq<Eval>): nat
    decreases evals
  {
    if evals == [] then 0
    else TimeDelta(b, evals[0].now) + Elapsed(Bucket(None, Some(evals[0].now)), evals[1..])
  }

  lemma Distribute(x: int, y: int, rate: int)
    ensures (x + y) * rate == x * rate + y * rate
  {
  }

  lemma ElapsedIgnoresTokens(b: Bucket, c: Bucket, evals: seq<Eval>)
    requires b.lastRefill == c.lastRefill
    ensures Elapsed(b, evals) == Elapsed(c, evals)
  {
  }

  /** Nothing is lost and nothing is made up: what flowed in was granted, is still there, or ran over. */
  lemma {:induction false} Conservation(b: Bucket, rate: int, capacity: int, evals: seq<Eval>)
    ensures Granted(b, rate, capacity, evals) + Tokens(After(b, rate, capacity, evals), capacity)
            + Overflow(b, rate, capacity, evals)
         == Tokens(b, capacity) + Elapsed(b, evals) * rate
    decreases evals
  {
    if evals != [] {
      var next := Evaluate(b, rate, capacity, evals[0].requested, evals[0].now);
      Conservation(next, rate, capacity, evals[1..]);
      ElapsedIgnoresTokens(next, Bucket(None, Some(evals[0].now)), evals[1..]);
      Distribute(TimeDelta(b, evals[0].now), Elapsed(next, evals[1..]), rate);
    }
  }

  /** Stored tokens stay between nothing and the capacity. */
  lemma {:induction false} StaysWithinCapacity(b: Bucket, rate: nat, capacity: nat, evals: seq<Eval>)
    requires 0 <= Tokens(b, capacity) <= capacity && NoneNegative(evals)
    ensures 0 <= Tokens(After(b, rate, capacity, evals), capacity) <= capacity
    decreases evals
  {
    if evals != [] {
      var next := Evaluate(b, rate, capacity, evals[0].requested, evals[0].now);
      assert 0 <= TimeDelta(b, evals[0].now) * rate;
      StaysWithinCapacity(next, rate, capacity, evals[1..]);
    }
  }

  /**
   No window of evaluations, wherever it starts in a run, grants more than one full bucket plus the rate
   times the positive clock increments inside the window.
   */
  lemma WindowBound(b: Bucket, rate: nat, capacity: nat, evals: seq<Eval>)
    requires 0 <= Tokens(b, capacity) <= capacity && evals != [] && NoneNegative(evals)
    ensures Granted(b, rate, capacity, evals)
         <= capacity + Elapsed(Bucket(None, Some(evals[0].now)), evals[1..]) * rate
  {
    var next := Evaluate(b, rate, capacity, evals[0].requested, evals[0].now);
    assert 0 <= TimeDelta(b, evals[0].now) * rate;
    Conservation(next, rate, capacity, evals[1..]);
    StaysWithinCapacity(next, rate, capacity, evals[1..]);
    ElapsedIgnoresTokens(next, Bucket(None, Some(evals[0].now)), evals[1..]);
  }

  predicate Nondecreasing(evals: seq<Eval>) {
    forall i :: 0 < i < |evals| ==> evals[i - 1].now <= evals[i].now
  }

  // ---------------------------------------------------------------- exactly when the rate bound holds

  function Readings(evals: seq<Eval>): seq<int> {
    if evals == [] then [] else [evals[0].now] + Readings(evals[1..])
  }

  lemma {:induction false} ReadingsAt(evals: seq<Eval>)
    ensures |Readings(evals)| == |evals|
    ensures forall i :: 0 <= i < |evals| ==> Readings(evals)[i] == evals[i].now
  {
    if evals != [] {
      ReadingsAt(evals[1..]);
    }
  }

  predicate InOrder(nows: seq<int>) {
    forall i :: 0 < i < |nows| ==> nows[i - 1] <= nows[i]
  }

  function Span(nows: seq<int>): int
    requires nows != []
  {
    nows[|nows| - 1] - nows[0]
  }

  /** The sum of the positive increments of the readings. */
  function Climb(nows: seq<int>): nat {
    if |nows| <= 1 then 0 else MaxInt(0, nows[1] - nows[0]) + Climb(nows[1..])
  }

  /** The way up is at least the way there, and no longer only when no reading falls behind. */
  lemma {:induction false} ClimbExceedsSpan(nows: seq<int>)
    requires nows != []
    ensures Climb(nows) >= Span(nows)
    ensures Climb(nows) == Span(nows) <==> InOrder(nows)
  {
    if |nows| > 1 {
      var rest := nows[1..];
      ClimbExceedsSpan(rest);
      assert InOrder(nows) ==> nows[0] <= nows[1];
      assert InOrder(nows) ==> InOrder(rest) by {
        assert forall i :: 0 < i < |rest| ==> rest[i] == nows[i + 1] && rest[i - 1] == nows[i];
      }
      assert nows[0] <= nows[1] && InOrder(rest) ==> InOrder(nows) by {
        assert forall i :: 0 < i < |rest| ==> rest[i] == nows[i + 1] && rest[i - 1] == nows[i];
        assert nows == [nows[0]] + rest;
      }
    }
  }

  lemma {:induction false} ElapsedIsTheClimb(evals: seq<Eval>)
    requires evals != []
    ensures Elapsed(Bucket(None, Some(evals[0].now)), evals[1..]) == Climb(Readings(evals))
  {
    if |evals| > 1 {
      ElapsedIsTheClimb(evals[1..]);
      assert Readings(evals)[1..] == Readings(evals[1..]);
    }
  }

  /** Evaluations at the given readings, each of which takes all that an empty bucket has got since the one before. */
  function Draining(nows: seq<int>, rate: nat): seq<Eval> {
    if |nows| <= 1 then [] else [Eval(MaxInt(0, nows[1] - nows[0]) * rate, nows[1])] + Draining(nows[1..], rate)
  }

  lemma {:induction false} DrainingReadings(nows: seq<int>, rate: nat)
    requires nows != []
    ensures Readings(Draining(nows, rate)) == nows[1..] && NoneNegative(Draining(nows, rate))
  {
    if |nows| > 1 {
      DrainingReadings(nows[1..], rate);
      assert 0 <= MaxInt(0, nows[1] - nows[0]) * rate;
      assert nows[1..] == [nows[1]] + nows[1..][1..];
    }
  }

  /** The next evaluation comes first in a run. */
  lemma GrantedFirst(b: Bucket, rate: int, capacity: int, e: Eval, rest: seq<Eval>)
    ensures Granted(b, rate, capacity, [e] + rest)
         == (if Allowed(b, rate, capacity, e.requested, e.now) then e.requested else 0)
            + Granted(Evaluate(b, rate, capacity, e.requested, e.now), rate, capacity, rest)
  {
    assert ([e] + rest)[1..] == rest;
  }

  /** A request for exactly what an empty bucket has got since the reading before leaves it empty again. */
  lemma DrainOnce(from: int, now: int, rate: nat, capacity: nat)
    requires MaxInt(0, now - from) * rate <= capacity
    ensures var refill := MaxInt(0, now - from) * rate;
            && Allowed(Bucket(Some(0), Some(from)), rate, capacity, refill, now)
            && Evaluate(Bucket(Some(0), Some(from)), rate, capacity, refill, now) == Bucket(Some(0), Some(now))
  {
    assert TimeDelta(Bucket(Some(0), Some(from)), now) == MaxInt(0, now - from);
  }

  lemma DrainFirst(from: int, now: int, rate: nat, capacity: nat, refill: int, rest: seq<Eval>)
    requires refill == MaxInt(0, now - from) * rate && refill <= capacity
    ensures Granted(Bucket(Some(0), Some(from)), rate, capacity, [Eval(refill, now)] + rest)
         == refill + Granted(Bucket(Some(0), Some(now)), rate, capacity, rest)
  {
    DrainOnce(from, now, rate, capacity);
    GrantedFirst(Bucket(Some(0), Some(from)), rate, capacity, Eval(refill, now), rest);
  }

  lemma ClimbStep(nows: seq<int>, rate: nat) returns (refill: nat, later: nat)
    requires |nows| > 1
    ensures refill == MaxInt(0, nows[1] - nows[0]) * rate && later == Climb(nows[1..]) * rate
    ensures refill + later == Climb(nows) * rate
    ensures Draining(nows, rate) == [Eval(refill, nows[1])] + Draining(nows[1..], rate)
  {
    var delta, climb := MaxInt(0, nows[1] - nows[0]), Climb(nows[1..]);
    Distribute(delta, climb, rate);
    Scales(0, delta, rate);
    Scales(0, climb, rate);
    refill, later := delta * rate, climb * rate;
  }

  /** In a bucket that can hold it, draining gets the rate for every second of the climb. */
  lemma {:induction false} DrainingIsGranted(nows: seq<int>, rate: nat, capacity: nat)
    requires nows != [] && Climb(nows) * rate <= capacity
    ensures Granted(Bucket(Some(0), Some(nows[0])), rate, capacity, Draining(nows, rate)) == Climb(nows) * rate
  {
    if |nows| > 1 {
      var refill, later := ClimbStep(nows, rate);
      DrainFirst(nows[0], nows[1], rate, capacity, refill, Draining(nows[1..], rate));
      DrainingIsGranted(nows[1..], rate, capacity);
    }
  }

  /** A full bucket at the first reading, and draining after that. */
  lemma WorstRun(nows: seq<int>, rate: nat) returns (capacity: nat, evals: seq<Eval>)
    requires nows != []
    ensures Readings(evals) == nows && NoneNegative(evals)
    ensures Granted(Bucket(None, None), rate, capacity, evals) == capacity + Climb(nows) * rate
  {
    assert 0 <= Climb(nows) * rate;
    capacity := Climb(nows) * rate;
    evals := [Eval(capacity, nows[0])] + Draining(nows, rate);
    DrainingReadings(nows, rate);
    assert nows == [nows[0]] + nows[1..];
    DrainingIsGranted(nows, rate, capacity);
    assert Evaluate(Bucket(None, None), rate, capacity, capacity, nows[0]) == Bucket(Some(0), Some(nows[0]));
    GrantedFirst(Bucket(None, None), rate, capacity, Eval(capacity, nows[0]), Draining(nows, rate));
  }

  /** At these readings no bucket ever grants more than its capacity and the rate for the span of the readings. */
  ghost predicate SpanBounds(nows: seq<int>, rate: nat)
    requires nows != []
  {
    forall b: Bucket, capacity: nat, evals: seq<Eval> ::
      Readings(evals) == nows && NoneNegative(evals) && 0 <= Tokens(b, capacity) <= capacity
      ==> Granted(b, rate, capacity, evals) <= capacity + Span(nows) * rate
  }

  lemma Scales(x: int, y: int, rate: nat)
    ensures x <= y ==> x * rate <= y * rate
    ensures x < y && rate > 0 ==> x * rate < y * rate
  {
    Distribute(y - x, x, rate);
    assert x <= y ==> 0 <= (y - x) * rate;
    assert x < y && rate > 0 ==> 0 < (y - x) * rate;
  }

  /**
   Exactly when the familiar rate bound holds: a clock that falls behind even once lets some bucket grant more
   than its capacity and the rate for the span of the clock.
   */
  lemma RateBoundIsExact(nows: seq<int>, rate: nat)
    requires nows != []
    ensures SpanBounds(nows, rate) <==> rate == 0 || InOrder(nows)
  {
    ClimbExceedsSpan(nows);
    if rate == 0 || InOrder(nows) {
      forall b: Bucket, capacity: nat, evals: seq<Eval> |
        Readings(evals) == nows && NoneNegative(evals) && 0 <= Tokens(b, capacity) <= capacity
        ensures Granted(b, rate, capacity, evals) <= capacity + Span(nows) * rate
      {
        ReadingsAt(evals);
        WindowBound(b, rate, capacity, evals);
        ElapsedIsTheClimb(evals);
      }
    } else {
      var capacity, evals := WorstRun(nows, rate);
      Scales(Span(nows), Climb(nows), rate);
      assert Granted(Bucket(None, None), rate, capacity, evals) > capacity + Span(nows) * rate;
    }
  }

  /** In particular, with readings in order a run grants a full bucket and the rate for the time passed at most. */
  lemma RateBound(b: Bucket, rate: nat, capacity: nat, evals: seq<Eval>)
    requires 0 <= Tokens(b, capacity) <= capacity && evals != [] && NoneNegative(evals) && Nondecreasing(evals)
    ensures Granted(b, rate, capacity, evals)
         <= capacity + (evals[|evals| - 1].now - evals[0].now) * rate
  {
    ReadingsAt(evals);
    RateBoundIsExact(Readings(evals), rate);
  }

  /** Four requests for a whole bucket: granted at first and after time to refill, refused at once after a grant. */
  lemma TakesAllOrNothing(capacity: nat, e0: Eval, e1: Eval, e2: Eval, e3: Eval)
    requires 0 < capacity && e1.now == e0.now + capacity && e2.now == e0.now && e3.now == e1.now
    requires e0.requested == e1.requested == e2.requested == e3.requested == capacity
    ensures Granted(Bucket(None, None), 1, capacity, [e0] + ([e1] + ([e2] + ([e3] + [])))) == 3 * capacity
  {
    var start, later := Bucket(Some(0), Some(e0.now)), Bucket(Some(0), Some(e1.now));
    GrantedFirst(Bucket(None, None), 1, capacity, e0, [e1] + ([e2] + ([e3] + [])));
    GrantedFirst(start, 1, capacity, e1, [e2] + ([e3] + []));
    GrantedFirst(later, 1, capacity, e2, [e3] + []);
    GrantedFirst(start, 1, capacity, e3, []);
  }

  /**
   Requests like those of the task runs can exceed the bound: the same positive number each time, one of them
   refused at a reading that steps back, and thirty tokens from ten seconds that should yield ten and ten in stock.
   */
  lemma OutOfOrderReadingsOvergrant() returns (evals: seq<Eval>)
    ensures evals == [Eval(10, 0), Eval(10, 10), Eval(10, 0), Eval(10, 10)]
    ensures Granted(Bucket(None, None), 1, 10, evals) == 30 > 10 + Span(Readings(evals)) * 1
  {
    var e0, e1, e2, e3 := Eval(10, 0), Eval(10, 10), Eval(10, 0), Eval(10, 10);
    evals := [e0] + ([e1] + ([e2] + ([e3] + [])));
    TakesAllOrNothing(10, e0, e1, e2, e3);
    ReadingsAt(evals);
  }

  // ---------------------------------------------------------------- the retry loop

  /** A whole-second reading is the floor of the clock. */
  lemma WholeSeconds(time: real)
    ensures Now(time, false, 0) == time.Floor as real
  {
    assert Divisor(0) == 1.0;
    assert time * 1.0 == time;
  }

  function MinWait(requested: int, available: int, rate: int): real
    requires rate >= 1
  {
    Max(1.0, (requested - available) as real / rate as real)
  }

  /** The wait is at least a second, refills the deficit, and is no longer than that takes. */
  lemma WaitIsExact(requested: int, available: int, rate: int)
    requires rate >= 1
    ensures var wait := MinWait(requested, available, rate);
            && wait >= 1.0 && wait * rate as real >= (requested - available) as real
            && (wait > 1.0 ==> wait * rate as real == (requested - available) as real)
  {
    var deficit := (requested - available) as real;
    Quotient(deficit, rate as real);
    assert (1.0 - deficit / rate as real) * rate as real == rate as real - deficit / rate as real * rate as real;
    if deficit / rate as real <= 1.0 {
      assert (1.0 - deficit / rate as real) * rate as real >= 0.0;
    }
  }

  /** One second is enough when a second refills the deficit. */
  lemma ShortWait(requested: int, available: int, rate: int)
    requires rate >= 1 && requested - available <= rate
    ensures MinWait(requested, available, rate) == 1.0
  {
    WaitIsExact(requested, available, rate);
    var wait := MinWait(requested, available, rate);
    assert wait > 1.0 ==> (wait - 1.0) * rate as real > 0.0;
  }

  /** What the attempts so far may have asked to sleep: the first deficit's time, and then one more second. */
  function SleepBound(b: Bucket, rate: int, capacity: int, attempts: seq<Eval>): (bound: real)
    requires rate >= 1
  {
    if attempts == [] then 0.0
    else
      MinWait(attempts[0].requested, Refilled(b, rate, capacity, attempts[0].now), rate)
      + if |attempts| == 1 then 0.0 else 1.0
  }

  lemma {:induction false} ProductAsReal(m: nat, n: int)
    ensures (m * n) as real == m as real * n as real
  {
    if m > 0 {
      ProductAsReal(m - 1, n);
      assert m * n == (m - 1) * n + n;
      assert m as real == (m - 1) as real + 1.0;
    }
  }

  /** Between two floored readings almost the whole wait shows. */
  lemma FlooredWait(wait: real, time: real, woken: real)
    requires woken >= time + Max(1.0, wait)
    ensures woken.Floor - time.Floor >= 1
    ensures (woken.Floor - time.Floor + 1) as real > wait
  {
    assert woken.Floor >= (time + 1.0).Floor;
  }

  /** A wait of `wait` seconds, stretched to whole ones, refills more than the deficit it was computed from. */
  lemma RefillExceeds(deficit: int, rate: int, wait: real, seconds: nat)
    requires rate >= 1 && wait * rate as real == deficit as real && seconds as real > wait
    ensures seconds * rate > deficit
  {
    assert (seconds as real - wait) * rate as real > 0.0;
    assert (seconds as real - wait) * rate as real == seconds as real * rate as real - wait * rate as real;
    ProductAsReal(seconds, rate);
  }

  /**
   Sleeping the minimal wait and reading a clock that was floored before and after loses less than one
   second, so the wait is enough for a deficit of up to one second's rate and otherwise leaves less than that.
   */
  lemma WaitCoversDeficit(deficit: int, rate: int, time: real, woken: real)
    requires rate >= 1 && deficit > 0
    requires woken >= time + Max(1.0, deficit as real / rate as real)
    ensures (woken.Floor - time.Floor) * rate > deficit - rate
    ensures deficit <= rate ==> (woken.Floor - time.Floor) * rate >= deficit
  {
    var seconds := woken.Floor - time.Floor;
    var wait := deficit as real / rate as real;
    Quotient(deficit as real, rate as real);
    FlooredWait(wait, time, woken);
    RefillExceeds(deficit, rate, wait, seconds + 1);
    Distribute(seconds, 1, rate);
    Scales(1, seconds, rate);
  }

  ghost predicate WaitedFor(deficit: int, rate: int, reading: int, woken: real)
    requires rate >= 1
  {
    && deficit > 0
    && exists time: real :: time.Floor == reading && woken >= time + Max(1.0, deficit as real / rate as real)
  }

  /** After the wait a small deficit is covered, and a large one becomes small. */
  lemma RefillAfterWait(b: Bucket, rate: int, capacity: int, requested: int, woken: real)
    requires rate >= 1 && requested <= capacity && b.lastTokens.Some? && b.lastRefill.Some?
    requires WaitedFor(requested - b.lastTokens.value, rate, b.lastRefill.value, woken)
    ensures woken.Floor > b.lastRefill.value
    ensures requested - b.lastTokens.value <= rate ==> Allowed(b, rate, capacity, requested, woken.Floor)
    ensures requested - Refilled(b, rate, capacity, woken.Floor) < rate
  {
    var deficit := requested - b.lastTokens.value;
    var time: real :| time.Floor == b.lastRefill.value && woken >= time + Max(1.0, deficit as real / rate as real);
    WaitCoversDeficit(deficit, rate, time, woken);
    assert TimeDelta(b, woken.Floor) == woken.Floor - time.Floor;
  }

  /** Three attempts can be needed, with every sleep exactly minimal: the floored clock hides half a second. */
  lemma ThreeAttemptsCanBeNeeded()
    ensures var empty := Bucket(Some(0), Some(0));
            var second := Evaluate(empty, 2, 10, 3, 0);
            var awake := 0.0 + MinWait(3, 0, 2);
            var third := Evaluate(second, 2, 10, 3, awake.Floor);
            var awakeAgain := awake + MinWait(3, third.lastTokens.value, 2);
            && !Allowed(empty, 2, 10, 3, 0)
            && !Allowed(second, 2, 10, 3, awake.Floor)
            && Allowed(third, 2, 10, 3, awakeAgain.Floor)
  {
    assert MinWait(3, 0, 2) == 1.5 && (1.5 as real).Floor == 1;
    assert MinWait(3, 2, 2) == 1.0 && (2.5 as real).Floor == 2;
  }

  lemma {:induction false} AppendEval(b: Bucket, rate: int, capacity: int, evals: seq<Eval>, e: Eval)
    ensures var last := After(b, rate, capacity, evals);
            && After(b, rate, capacity, evals + [e]) == Evaluate(last, rate, capacity, e.requested, e.now)
            && Granted(b, rate, capacity, evals + [e])
               == Granted(b, rate, capacity, evals)
                  + (if Allowed(last, rate, capacity, e.requested, e.now) then e.requested else 0)
    decreases evals
  {
    if evals == [] {
      assert [e][1..] == [];
    } else {
      assert (evals + [e])[1..] == evals[1..] + [e];
      AppendEval(Evaluate(b, rate, capacity, evals[0].requested, evals[0].now), rate, capacity, evals[1..], e);
    }
  }

  class RedisTokenBucket {
    const rate: int
    const capacity: int
    const clock: Clock
    var lastTokens: Option<int>
    var lastRefill: Option<int>

    constructor (rate: int, capacity: int, clock: Clock)
      ensures this.rate == rate && this.capacity == capacity && this.clock == clock && Value() == Bucket(None, None)
    {
      this.rate, this.capacity, this.clock := rate, capacity, clock;
      lastTokens, lastRefill := None, None;
    }

    function Value(): Bucket
      reads this
    {
      Bucket(lastTokens, lastRefill)
    }

    method LuaAcquire(requested: int, now: int) returns (isAllowed: bool)
      modifies this
      ensures isAllowed == Allowed(old(Value()), rate, capacity, requested, now)
      ensures Value() == Evaluate(old(Value()), rate, capacity, requested, now)
      ensures var stored := if old(lastTokens).Some? then old(lastTokens).value else capacity;
              var last := if old(lastRefill).Some? then old(lastRefill).value else now;
              var since := if now > last then now - last else 0;
              var refilled := if stored + since * rate <= capacity then stored + since * rate else capacity;
              && (isAllowed <==> refilled >= requested)
              && lastTokens == Some(if isAllowed then refilled - requested else refilled)
              && lastRefill == Some(now)
    {
      var tokens := if lastTokens.Some? then lastTokens.value else capacity;
      var refill := if lastRefill.Some? then lastRefill.value else now;
      var timeDelta := MaxInt(0, now - refill);
      var newTokens := Min(capacity, tokens + timeDelta * rate);
      isAllowed := newTokens >= requested;
      if isAllowed {
        newTokens := newTokens - requested;
      }
      lastTokens := Some(newTokens);
      lastRefill := Some(now);
    }

    /** One turn of the loop: evaluate at the floored clock, and sleep when refused. */
    method TryOrSleep(requested: int) returns (isAllowed: bool, ghost now: int)
      requires rate >= 1
      modifies this, clock
      ensures now == old(clock.time).Floor
      ensures isAllowed == Allowed(old(Value()), rate, capacity, requested, now)
      ensures Value() == Evaluate(old(Value()), rate, capacity, requested, now)
      ensures !isAllowed ==> WaitedFor(requested - lastTokens.value, rate, now, clock.time)
      ensures isAllowed ==> clock.asked == old(clock.asked)
      ensures !isAllowed ==>
                clock.asked == old(clock.asked) + MinWait(requested, lastTokens.value, rate)
    {
      now := clock.time.Floor;
      WholeSeconds(clock.time);
      isAllowed := LuaAcquire(requested, clock.time.Floor);
      if !isAllowed {
        var available := lastTokens.value;
        clock.Sleep(MinWait(requested, available, rate));
      }
    }

    /** The attempts so far were all refused, and the last sleep fitted the deficit that was left. */
    ghost predicate Trying(start: Bucket, asked: real, requested: int, attempts: seq<Eval>)
      requires rate >= 1
      reads this, clock
    {
      && |attempts| <= 2 && Nondecreasing(attempts)
      && (forall i :: 0 <= i < |attempts| ==> attempts[i].requested == requested)
      && Value() == After(start, rate, capacity, attempts)
      && Granted(start, rate, capacity, attempts) == 0
      && clock.asked == asked + SleepBound(start, rate, capacity, attempts)
      && (attempts != [] ==>
            && lastTokens.Some? && lastRefill == Some(attempts[|attempts| - 1].now)
            && WaitedFor(requested - lastTokens.value, rate, lastRefill.value, clock.time))
      && (|attempts| == 2 ==> requested - lastTokens.value <= rate)
    }

    /** One more turn of the loop: a third one is granted. */
    method OneAttempt(requested: int, ghost start: Bucket, ghost asked: real, ghost tried: seq<Eval>)
      returns (isAllowed: bool, ghost attempts: seq<Eval>)
      requires rate >= 1 && requested <= capacity && Trying(start, asked, requested, tried)
      modifies this, clock
      ensures attempts == tried + [Eval(requested, old(clock.time).Floor)] && Nondecreasing(attempts)
      ensures !isAllowed ==> Trying(start, asked, requested, attempts)
      ensures isAllowed ==>
                && Value() == After(start, rate, capacity, attempts)
                && Granted(start, rate, capacity, attempts) == requested
                && clock.asked == asked + SleepBound(start, rate, capacity, tried)
    {
      if tried != [] {
        RefillAfterWait(Value(), rate, capacity, requested, clock.time);
      }
      ghost var now;
      isAllowed, now := TryOrSleep(requested);
      AppendEval(start, rate, capacity, tried, Eval(requested, now));
      attempts := tried + [Eval(requested, now)];
      if !isAllowed && |tried| == 1 {
        ShortWait(requested, lastTokens.value, rate);
      }
    }

    /**
     Without competing clients: a request beyond the capacity is refused outright, and any other is granted at the
     third attempt at the latest. `attempts` are the evaluations made; only the last one grants. The sleeps asked
     for are exactly the time of the first deficit and, before a third attempt, one second more.
     */
    method Acquire(requested: int) returns (granted: bool, ghost attempts: seq<Eval>)
      requires rate >= 1
      modifies this, clock
      ensures granted == (requested <= capacity)
      ensures !granted ==> attempts == [] && clock.asked == old(clock.asked)
      ensures granted ==> 1 <= |attempts| <= 3 && Nondecreasing(attempts)
      ensures granted ==> attempts[0].now == old(clock.time).Floor
      ensures forall i :: 0 <= i < |attempts| ==> attempts[i].requested == requested
      ensures Value() == After(old(Value()), rate, capacity, attempts)
      ensures granted ==> Granted(old(Value()), rate, capacity, attempts) == requested
      ensures granted ==> Granted(old(Value()), rate, capacity, attempts[..|attempts| - 1]) == 0
      ensures granted ==>
                clock.asked == old(clock.asked) + SleepBound(old(Value()), rate, capacity, attempts[..|attempts| - 1])
    {
      attempts := [];
      while true
        invariant Trying(old(Value()), old(clock.asked), requested, attempts)
        invariant attempts != [] ==> requested <= capacity && attempts[0].now == old(clock.time).Floor
        invariant attempts == [] ==> clock.time == old(clock.time)
        decreases 3 - |attempts|
      {
        if requested > capacity {
          return false, [];
        }
        ghost var tried := attempts;
        var isAllowed;
        isAllowed, attempts := OneAttempt(requested, old(Value()), old(clock.asked), tried);
        if isAllowed {
          assert attempts[..|attempts| - 1] == tried;
          return true, attempts;
        }
      }
    }
  }
}
