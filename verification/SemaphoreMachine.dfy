/**
 Any number of clients of one semaphore as a state machine. A client samples the clock when it sends a
 command and the script runs at some later moment, so commands overtake each other and may get lost.
 */
module SemaphoreMachine {
  import opened Clocks
  import opened Semaphores

  datatype Command =
    | Enqueue
    | Clean
    | Take(ttl: real)
    | Free
    | Prolong(ttl: real)
    | KeepAlive(ttl: real)

  datatype Request = Request(client: ClientId, command: Command, sample: real)

  /** What a client was last promised: it counts as alive for `ttl` from the moment it read the clock. */
  datatype Promise = Promise(sample: real, ttl: real) {
    predicate Live(clock: real) { clock < sample + ttl }
  }

  /**
   `leases` and `beats` are history: the last executed grant or extension of each client that has not
   released since, and the last executed heartbeat of each client since its last grant.
   */
  datatype State = State(
    maxLeases: int,
    clock: real,
    store: Store,
    inFlight: multiset<Request>,
    leases: map<ClientId, Promise>,
    beats: map<ClientId, Promise>)

  datatype Step = Tick(seconds: real) | Send(request: Request) | Run(request: Request) | Lose(request: Request)

  predicate Init(s: State) {
    && s.store == Store(map[], [], map[])
    && s.inFlight == multiset{} && s.leases == map[] && s.beats == map[]
  }

  predicate Enabled(s: State, step: Step) {
    match step
    case Tick(seconds) => seconds >= 0.0
    case Send(request) => request.sample == s.clock
    case Run(request) => request in s.inFlight
    case Lose(request) => request in s.inFlight
  }

  function Next(s: State, step: Step): State {
    match step
    case Tick(seconds) => s.(clock := s.clock + seconds)
    case Send(request) => s.(inFlight := s.inFlight + multiset{request})
    case Lose(request) => s.(inFlight := s.inFlight - multiset{request})
    case Run(request) => Execute(s, request).(inFlight := s.inFlight - multiset{request})
  }

  /** Grants, extensions and heartbeats round the sample up, cleanups round it down. */
  function Execute(s: State, request: Request): State {
    var c, sample := request.client, request.sample;
    match request.command
    case Enqueue => s.(store := EnsureInQueue(s.store, c))
    case Clean => s.(store := Cleanup(s.store, FloorNow(sample)))
    case Take(ttl) => if CanAcquire(s.store, c, s.maxLeases) then Granted(s, c, Promise(sample, ttl)) else s
    case Free => s.(store := Release(s.store, c), leases := s.leases - {c})
    case Prolong(ttl) => if c in s.store.holders then Extended(s, c, Promise(sample, ttl)) else s
    case KeepAlive(ttl) => Beaten(s, c, Promise(sample, ttl))
  }

  function Expiry(promise: Promise): real { CeilNow(promise.sample) + promise.ttl }

  function Granted(s: State, c: ClientId, promise: Promise): State {
    s.(store := Acquire(s.store, c, s.maxLeases, Expiry(promise)),
       leases := s.leases[c := promise],
       beats := s.beats - {c})
  }

  function Extended(s: State, c: ClientId, promise: Promise): State {
    s.(store := Extend(s.store, c, Expiry(promise)), leases := s.leases[c := promise])
  }

  function Beaten(s: State, c: ClientId, promise: Promise): State {
    s.(store := Beat(s.store, c, Expiry(promise)), beats := s.beats[c := promise])
  }

  predicate IsRun(states: seq<State>, steps: seq<Step>) {
    && |states| == |steps| + 1
    && Init(states[0])
    && (forall i :: 0 <= i < |steps| ==> Enabled(states[i], steps[i]) && states[i + 1] == Next(states[i], steps[i]))
  }

  // ---------------------------------------------------------------- invariant

  /** Scores are exactly the promises rounded up, and a score can only go missing once its promise lapsed. */
  ghost predicate Backed(clock: real, scores: map<ClientId, real>, promises: map<ClientId, Promise>) {
    && (forall c :: c in scores && c in promises ==> scores[c] == Expiry(promises[c]))
    && (forall c :: c in promises && promises[c].Live(clock) ==> c in scores)
  }

  ghost predicate Inv(s: State) {
    && (forall r :: r in s.inFlight ==> r.sample <= s.clock)
    && Distinct(s.store.waiters)
    && (s.store.holders == map[] || |s.store.holders| <= s.maxLeases)
    && s.store.holders.Keys <= s.leases.Keys
    && Backed(s.clock, s.store.holders, s.leases)
    && Backed(s.clock, s.store.heartbeats, s.beats)
  }

  /** The heart of the matter: dropping scores up to a floored old reading leaves every live promise backed. */
  lemma DropKeepsBacked(clock: real, scores: map<ClientId, real>, promises: map<ClientId, Promise>, sample: real)
    requires Backed(clock, scores, promises) && sample <= clock
    ensures Backed(clock, DropUpTo(scores, FloorNow(sample)), promises)
  {
    TenthsBracket(sample);
    forall c | c in promises && promises[c].Live(clock)
      ensures c in DropUpTo(scores, FloorNow(sample))
    {
      TenthsBracket(promises[c].sample);
    }
  }

  lemma PutKeepsBacked(clock: real, scores: map<ClientId, real>, promises: map<ClientId, Promise>,
                       c: ClientId, promise: Promise)
    requires Backed(clock, scores, promises)
    ensures Backed(clock, scores[c := Expiry(promise)], promises[c := promise])
  {
  }

  lemma InvClean(s: State, sample: real)
    requires Inv(s) && sample <= s.clock
    ensures Inv(s.(store := Cleanup(s.store, FloorNow(sample))))
  {
    var t := Cleanup(s.store, FloorNow(sample));
    DropKeepsBacked(s.clock, s.store.holders, s.leases, sample);
    DropKeepsBacked(s.clock, s.store.heartbeats, s.beats, sample);
    SubmapSize(t.holders, s.store.holders);
  }

  lemma OneMoreHolder(holders: map<ClientId, real>, c: ClientId, expiry: real)
    ensures |holders[c := expiry]| <= |holders| + 1
  {
    assert holders[c := expiry].Keys == holders.Keys + {c};
    assert |holders[c := expiry].Keys| <= |holders.Keys| + 1;
  }

  lemma DropBacked(clock: real, scores: map<ClientId, real>, promises: map<ClientId, Promise>, c: ClientId)
    requires Backed(clock, scores, promises)
    ensures Backed(clock, scores - {c}, promises - {c})
  {
  }

  lemma InvGranted(s: State, c: ClientId, promise: Promise)
    requires Inv(s) && CanAcquire(s.store, c, s.maxLeases)
    ensures Inv(Granted(s, c, promise))
  {
    PutKeepsBacked(s.clock, s.store.holders, s.leases, c, promise);
    OneMoreHolder(s.store.holders, c, Expiry(promise));
    DropBacked(s.clock, s.store.heartbeats, s.beats, c);
    assert Distinct(s.store.waiters[1..]);
  }

  lemma InvExtended(s: State, c: ClientId, promise: Promise)
    requires Inv(s) && c in s.store.holders
    ensures Inv(Extended(s, c, promise))
  {
    var holders := s.store.holders[c := Expiry(promise)];
    PutKeepsBacked(s.clock, s.store.holders, s.leases, c, promise);
    assert holders.Keys == s.store.holders.Keys;
    SubmapSize(holders, s.store.holders);
  }

  lemma InvReleased(s: State, c: ClientId)
    requires Inv(s)
    ensures Inv(s.(store := Release(s.store, c), leases := s.leases - {c}))
  {
    SubmapSize(s.store.holders - {c}, s.store.holders);
  }

  lemma InvExecute(s: State, request: Request)
    requires Inv(s) && request in s.inFlight
    ensures Inv(Execute(s, request))
  {
    var c := request.client;
    match request.command
    case Clean => InvClean(s, request.sample);
    case Free => InvReleased(s, c);
    case Prolong(ttl) =>
      if c in s.store.holders {
        InvExtended(s, c, Promise(request.sample, ttl));
      }
    case Take(ttl) =>
      if CanAcquire(s.store, c, s.maxLeases) {
        InvGranted(s, c, Promise(request.sample, ttl));
      }
    case KeepAlive(ttl) =>
      PutKeepsBacked(s.clock, s.store.heartbeats, s.beats, c, Promise(request.sample, ttl));
    case Enqueue =>
  }

  lemma SubmapSize(small: map<ClientId, real>, large: map<ClientId, real>)
    requires small.Keys <= large.Keys
    ensures |small| <= |large|
  {
    KeysSize(small.Keys, large.Keys);
    assert |small.Keys| == |small| && |large.Keys| == |large|;
  }

  lemma {:induction false} KeysSize(small: set<ClientId>, large: set<ClientId>)
    requires small <= large
    ensures |small| <= |large|
  {
    assert large == small + (large - small);
  }

  lemma InvTick(s: State, seconds: real)
    requires Inv(s) && seconds >= 0.0
    ensures Inv(s.(clock := s.clock + seconds))
  {
  }

  lemma InvNext(s: State, step: Step)
    requires Inv(s) && Enabled(s, step)
    ensures Inv(Next(s, step))
  {
    match step
    case Tick(seconds) => InvTick(s, seconds);
    case Run(request) =>
      InvExecute(s, request);
      InFlight(Execute(s, request), s.inFlight - multiset{request});
    case Send(request) => InFlight(s, s.inFlight + multiset{request});
    case Lose(request) => InFlight(s, s.inFlight - multiset{request});
  }

  lemma InFlight(s: State, inFlight: multiset<Request>)
    requires Inv(s) && forall r :: r in inFlight ==> r.sample <= s.clock
    ensures Inv(s.(inFlight := inFlight))
  {
  }

  lemma {:induction false} InvHolds(states: seq<State>, steps: seq<Step>, i: nat)
    requires IsRun(states, steps) && i < |states|
    ensures Inv(states[i])
  {
    if i > 0 {
      InvHolds(states, steps, i - 1);
      InvNext(states[i - 1], steps[i - 1]);
    }
  }

  // ---------------------------------------------------------------- what each command does

  lemma PutAndTake(inFlight: multiset<Request>, request: Request)
    ensures inFlight + multiset{request} - multiset{request} == inFlight
    ensures (inFlight + multiset{request})[request] == inFlight[request] + 1
  {
  }

  /** Any request can be sent with the current time, and then be executed or lost at any later moment, once. */
  lemma MessagesTravel(s: State, request: Request)
    requires request.sample == s.clock
    ensures Enabled(s, Send(request))
    ensures var t := Next(s, Send(request));
            && t == s.(inFlight := s.inFlight + multiset{request})
            && Enabled(t, Run(request)) && Enabled(t, Lose(request)) && Next(t, Lose(request)) == s
  {
    PutAndTake(s.inFlight, request);
  }

  /** Executing a request takes it out of flight; while the clock runs nothing else changes. */
  lemma RunAndTick(s: State, request: Request, seconds: real)
    requires request in s.inFlight && seconds >= 0.0
    ensures Enabled(s, Run(request)) && Enabled(s, Tick(seconds))
    ensures Next(s, Run(request)) == Execute(s, request).(inFlight := s.inFlight - multiset{request})
    ensures Next(s, Tick(seconds)) == s.(clock := s.clock + seconds)
  {
  }

  /** The front client gets the lease whenever one is free; nobody else does, and a refusal changes nothing. */
  lemma TakeIsGrantedWhenFree(s: State, request: Request)
    requires request.command.Take?
    ensures var c, was, now := request.client, s.store, Execute(s, request).store;
            if was.waiters != [] && was.waiters[0] == c && |was.holders| < s.maxLeases then
              && now.holders == was.holders[c := CeilNow(request.sample) + request.command.ttl]
              && now.waiters == was.waiters[1..] && now.heartbeats == was.heartbeats - {c}
              && Execute(s, request).leases == s.leases[c := Promise(request.sample, request.command.ttl)]
            else Execute(s, request) == s
  {
  }

  /** The other commands: each changes one key, for its own client only. */
  lemma CommandEffects(s: State, request: Request)
    requires !request.command.Take? && !request.command.Clean?
    ensures var c, was, now := request.client, s.store, Execute(s, request).store;
            match request.command
            case Enqueue => now == was.(waiters := was.waiters + if c in was.waiters then [] else [c])
            case Free => now == was.(holders := was.holders - {c}) && c !in Execute(s, request).leases
            case Prolong(ttl) =>
              now == (if c in was.holders
                      then was.(holders := was.holders[c := CeilNow(request.sample) + ttl]) else was)
            case KeepAlive(ttl) =>
              && now == was.(heartbeats := was.heartbeats[c := CeilNow(request.sample) + ttl])
              && Execute(s, request).beats == s.beats[c := Promise(request.sample, ttl)]
            case _ => true
  {
  }

  // ---------------------------------------------------------------- lease safety

  ghost function LiveLeases(s: State): set<ClientId> {
    set c | c in s.leases && s.leases[c].Live(s.clock)
  }

  /** In every reachable state all live leases are held, so at most `maxLeases` clients hold one. */
  lemma LeaseSafety(states: seq<State>, steps: seq<Step>, i: nat)
    requires IsRun(states, steps) && i < |states|
    ensures LiveLeases(states[i]) <= states[i].store.holders.Keys
    ensures LiveLeases(states[i]) != {} ==> |LiveLeases(states[i])| <= states[i].maxLeases == states[0].maxLeases
  {
    InvHolds(states, steps, i);
    MaxLeasesIsConstant(states, steps, i);
    KeysSize(LiveLeases(states[i]), states[i].store.holders.Keys);
    assert |states[i].store.holders.Keys| == |states[i].store.holders|;
  }

  lemma {:induction false} MaxLeasesIsConstant(states: seq<State>, steps: seq<Step>, i: nat)
    requires IsRun(states, steps) && i < |states|
    ensures states[i].maxLeases == states[0].maxLeases
  {
    if i > 0 {
      MaxLeasesIsConstant(states, steps, i - 1);
    }
  }

  /**
   The other side: a cleanup removes every lease that had lapsed two tenths of a second before it read the clock.
   */
  lemma LapsedLeasesGo(states: seq<State>, steps: seq<Step>, i: nat, c: ClientId)
    requires IsRun(states, steps) && i < |steps|
    requires steps[i].Run? && steps[i].request.command.Clean?
    requires c in states[i].leases
    requires states[i].leases[c].sample + states[i].leases[c].ttl <= steps[i].request.sample - 0.2
    ensures c !in states[i + 1].store.holders
  {
    InvHolds(states, steps, i);
    TenthsBracket(steps[i].request.sample);
    TenthsBracket(states[i].leases[c].sample);
  }

  // ---------------------------------------------------------------- the line

  predicate Grants(s: State, step: Step, c: ClientId) {
    step.Run? && step.request.command.Take? && step.request.client == c && CanAcquire(s.store, c, s.maxLeases)
  }

  predicate Evicts(s: State, step: Step, c: ClientId) {
    step.Run? && step.request.command.Clean? && c in s.store.waiters && c !in Next(s, step).store.waiters
  }

  /** A cleanup never evicts a waiter whose recorded heartbeat was sampled less than its ttl ago. */
  lemma EvictionIsJustified(states: seq<State>, steps: seq<Step>, i: nat, c: ClientId)
    requires IsRun(states, steps) && i < |steps| && Evicts(states[i], steps[i], c)
    ensures c in states[i].beats ==> !states[i].beats[c].Live(states[i].clock)
  {
    var s, request := states[i], steps[i].request;
    InvHolds(states, steps, i);
    CleanupFront(s.store, FloorNow(request.sample));
    TenthsBracket(request.sample);
    if c in s.beats {
      TenthsBracket(s.beats[c].sample);
    }
  }

  ghost predicate Before(line: seq<ClientId>, a: ClientId, b: ClientId) {
    exists i, j :: 0 <= i < j < |line| && line[i] == a && line[j] == b
  }

  lemma DropFront(line: seq<ClientId>, k: nat, a: ClientId, b: ClientId)
    requires Distinct(line) && k <= |line| && Before(line, a, b)
    ensures Before(line[k..], a, b) || a in line[..k]
    ensures a in line[..k] <==> a !in line[k..]
    ensures k > 0 ==> line[0] != b
  {
    var i, j :| 0 <= i < j < |line| && line[i] == a && line[j] == b;
    var rest := line[k..];
    if k <= i {
      assert rest[i - k] == a && rest[j - k] == b;
    } else {
      assert line[..k][i] == a;
    }
  }

  ghost predicate Ahead(s: State, a: ClientId, b: ClientId) {
    Before(s.store.waiters, a, b)
  }

  lemma {:induction false} CleanedLine(s: Store, now: real) returns (k: nat)
    ensures k <= |s.waiters| && Cleanup(s, now).waiters == s.waiters[k..]
  {
    var rest := SkipLapsed(s.waiters, DropUpTo(s.heartbeats, now), now);
    k := |s.waiters| - |rest|;
    assert rest == s.waiters[k..];
  }

  /** All that one step can do to the line: append one client, or drop a prefix by a grant or a cleanup. */
  lemma LineStep(s: State, step: Step) returns (k: nat)
    requires Enabled(s, step)
    ensures k <= |s.store.waiters|
    ensures k > 0 ==> Next(s, step).store.waiters == s.store.waiters[k..]
    ensures k == 0 ==> s.store.waiters <= Next(s, step).store.waiters
    ensures k > 0 ==> (k == 1 && Grants(s, step, s.store.waiters[0])) || (step.Run? && step.request.command.Clean?)
    ensures forall c :: Grants(s, step, c) ==> k == 1 && c == s.store.waiters[0]
  {
    k := 0;
    if step.Run? {
      if step.request.command.Take? && CanAcquire(s.store, step.request.client, s.maxLeases) {
        k := 1;
      } else if step.request.command.Clean? {
        k := CleanedLine(s.store, FloorNow(step.request.sample));
        assert s.store.waiters[0..] == s.store.waiters;
      }
    }
  }

  /** One step keeps `a` ahead of `b` unless `a` leaves, and `a` leaves only by a grant or an eviction. */
  lemma AheadStep(s: State, step: Step, a: ClientId, b: ClientId)
    requires Inv(s) && Enabled(s, step) && Ahead(s, a, b)
    ensures Ahead(Next(s, step), a, b) || Grants(s, step, a) || Evicts(s, step, a)
    ensures !Grants(s, step, b)
  {
    var k := LineStep(s, step);
    DropFront(s.store.waiters, k, a, b);
    if k == 0 {
      LongerLine(s.store.waiters, Next(s, step).store.waiters, a, b);
    }
  }

  lemma LongerLine(line: seq<ClientId>, longer: seq<ClientId>, a: ClientId, b: ClientId)
    requires Before(line, a, b) && line <= longer
    ensures Before(longer, a, b)
  {
  }

  /** The step at which `a` leaves the line, with its reason. */
  ghost predicate Leaves(s: State, step: Step, a: ClientId) {
    || Grants(s, step, a)
    || (Evicts(s, step, a) && (a in s.beats ==> !s.beats[a].Live(s.clock)))
  }

  /** First come, first served: nobody is granted a lease past a client that has not left the line. */
  lemma {:induction false} FirstInFirstOut(
      states: seq<State>, steps: seq<Step>, i: nat, j: nat, a: ClientId, b: ClientId)
    requires IsRun(states, steps) && i <= j < |steps|
    requires Ahead(states[i], a, b) && Grants(states[j], steps[j], b)
    ensures exists k :: i <= k < j && Leaves(states[k], steps[k], a)
    decreases j - i
  {
    InvHolds(states, steps, i);
    AheadStep(states[i], steps[i], a, b);
    if Evicts(states[i], steps[i], a) {
      EvictionIsJustified(states, steps, i, a);
    }
    if !Leaves(states[i], steps[i], a) {
      FirstInFirstOut(states, steps, i + 1, j, a, b);
    }
  }

  // ---------------------------------------------------------------- the grid

  predicate TtlOnGrid(command: Command) {
    command.Take? || command.Prolong? || command.KeepAlive? ==> OnGrid(command.ttl)
  }

  ghost predicate AllOnGrid(scores: map<ClientId, real>) {
    forall c :: c in scores ==> OnGrid(scores[c])
  }

  ghost predicate ScoresOnGrid(s: Store) {
    AllOnGrid(s.holders) && AllOnGrid(s.heartbeats)
  }

  lemma PutOnGrid(scores: map<ClientId, real>, c: ClientId, promise: Promise)
    requires AllOnGrid(scores) && OnGrid(promise.ttl)
    ensures AllOnGrid(scores[c := Expiry(promise)])
  {
    ExpiryOnGrid(promise);
  }

  lemma DropOnGrid(scores: map<ClientId, real>, now: real, c: ClientId)
    requires AllOnGrid(scores)
    ensures AllOnGrid(DropUpTo(scores, now)) && AllOnGrid(scores - {c})
  {
  }

  lemma ExpiryOnGrid(promise: Promise)
    requires OnGrid(promise.ttl)
    ensures OnGrid(Expiry(promise))
  {
    TenthsBracket(promise.sample);
    GridIsClosed(CeilNow(promise.sample), promise.ttl);
  }

  lemma GridNext(s: State, request: Request)
    requires ScoresOnGrid(s.store) && TtlOnGrid(request.command)
    ensures ScoresOnGrid(Execute(s, request).store)
  {
    var c, sample := request.client, request.sample;
    DropOnGrid(s.store.holders, FloorNow(sample), c);
    DropOnGrid(s.store.heartbeats, FloorNow(sample), c);
    match request.command
    case Take(ttl) => PutOnGrid(s.store.holders, c, Promise(sample, ttl));
    case Prolong(ttl) => PutOnGrid(s.store.holders, c, Promise(sample, ttl));
    case KeepAlive(ttl) => PutOnGrid(s.store.heartbeats, c, Promise(sample, ttl));
    case _ =>
  }

  /** When all ttls are whole tenths of a second, so are all scores. */
  lemma {:induction false} GridHolds(states: seq<State>, steps: seq<Step>, i: nat)
    requires IsRun(states, steps) && i < |states|
    requires forall k :: 0 <= k < |steps| && steps[k].Run? ==> TtlOnGrid(steps[k].request.command)
    ensures ScoresOnGrid(states[i].store)
  {
    if i > 0 {
      GridHolds(states, steps, i - 1);
      if steps[i - 1].Run? {
        GridNext(states[i - 1], steps[i - 1].request);
      }
    }
  }
}
