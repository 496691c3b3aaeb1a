/**
 The acquire loop of one client while every other client has stopped for good: how it waits, and why
 leases and places in the line that crashed clients left behind only cost it time.
 */
module SemaphoreClients {
  import opened Clocks
  import opened Options
  import opened Semaphores
  import SemaphoreMachine

  /** How many clients stand in front of `c`, or would if it joined the line now. */
  function Position(line: seq<ClientId>, c: ClientId): (p: nat)
    ensures p <= |line|
    ensures c in line <==> p < |line|
    ensures p < |line| ==> line[p] == c
  {
    if line == [] || line[0] == c then 0 else 1 + Position(line[1..], c)
  }

  /** The number of entries that can keep `c` from a lease. */
  function Obstacles(s: Store, c: ClientId): nat {
    |s.holders| + Position(s.waiters, c)
  }

  /** A cleanup with this reading removes at least one of those entries. */
  ghost predicate Due(s: Store, c: ClientId, now: real) {
    || (exists h :: h in s.holders && s.holders[h] <= now)
    || (s.waiters != [] && s.waiters[0] != c && (s.waiters[0] in s.heartbeats ==> s.heartbeats[s.waiters[0]] <= now))
  }

  /** Scores that other clients wrote are whole tenths of a second. */
  ghost predicate OthersOnGrid(s: Store, c: ClientId) {
    && (forall h :: h in s.holders ==> OnGrid(s.holders[h]))
    && (forall h :: h in s.heartbeats && h != c ==> OnGrid(s.heartbeats[h]))
  }

  function WaitDelay(expiry: real, sample: real, heartbeatInterval: real): real {
    Max(expiry - FloorNow(sample), heartbeatInterval)
  }

  /** After a full delay the next floored reading has reached the expiry that was waited for. */
  lemma FullDelayReachesExpiry(expiry: real, sample: real, heartbeatInterval: real, wake: real)
    requires OnGrid(expiry) && wake >= sample + WaitDelay(expiry, sample, heartbeatInterval)
    ensures expiry <= FloorNow(wake)
  {
    TenthsBracket(sample);
    FloorReachesGrid(wake, expiry);
  }

  lemma {:induction false} PositionOfAppended(line: seq<ClientId>, c: ClientId)
    requires c !in line
    ensures Position(line + [c], c) == |line|
  {
    if line != [] {
      assert (line + [c])[1..] == line[1..] + [c];
      PositionOfAppended(line[1..], c);
    }
  }

  lemma {:induction false} SkipTowards(line: seq<ClientId>, heartbeats: map<ClientId, real>, now: real, c: ClientId)
    requires c in line && !Lapsed(heartbeats, c, now)
    ensures c in SkipLapsed(line, heartbeats, now)
    ensures Position(SkipLapsed(line, heartbeats, now), c) <= Position(line, c)
    ensures line[0] != c && Lapsed(heartbeats, line[0], now)
            ==> Position(SkipLapsed(line, heartbeats, now), c) < Position(line, c)
  {
    if Lapsed(heartbeats, line[0], now) {
      SkipTowards(line[1..], heartbeats, now, c);
    }
  }

  lemma DropShrinks(zset: map<ClientId, real>, now: real)
    ensures |DropUpTo(zset, now)| <= |zset|
    ensures (exists h :: h in zset && zset[h] <= now) ==> |DropUpTo(zset, now)| < |zset|
  {
    var kept := DropUpTo(zset, now);
    assert zset.Keys == kept.Keys + (zset.Keys - kept.Keys);
    assert |zset.Keys| == |kept.Keys| + |zset.Keys - kept.Keys|;
    if h :| h in zset && zset[h] <= now {
      assert h in zset.Keys - kept.Keys;
    }
  }

  /** A cleanup by a client with a fresh heartbeat removes obstacles, at least one when one is due. */
  lemma CleanupProgress(s: Store, c: ClientId, now: real)
    requires c in s.waiters && c in s.heartbeats && s.heartbeats[c] > now
    ensures c in Cleanup(s, now).waiters
    ensures Obstacles(Cleanup(s, now), c) <= Obstacles(s, c)
    ensures Due(s, c, now) ==> Obstacles(Cleanup(s, now), c) < Obstacles(s, c)
  {
    DropShrinks(s.holders, now);
    SkipTowards(s.waiters, DropUpTo(s.heartbeats, now), now, c);
  }

  function Round(s: Store, c: ClientId, expiry: real, now: real): Store {
    Cleanup(Beat(EnsureInQueue(s, c), c, expiry), now)
  }

  lemma EnqueueKeepsObstacles(s: Store, c: ClientId)
    ensures Obstacles(EnsureInQueue(s, c), c) == Obstacles(s, c)
  {
    if c !in s.waiters {
      PositionOfAppended(s.waiters, c);
    }
  }

  lemma BeatKeepsObstacles(s: Store, c: ClientId, expiry: real, now: real)
    ensures Obstacles(Beat(s, c, expiry), c) == Obstacles(s, c)
    ensures Due(Beat(s, c, expiry), c, now) == Due(s, c, now)
  {
  }

  /** The same for everything a client does up to its cleanup: join the line, keep its heartbeat, clean. */
  lemma RoundProgress(s: Store, c: ClientId, expiry: real, now: real)
    requires expiry > now
    ensures c in Round(s, c, expiry, now).waiters
    ensures Obstacles(Round(s, c, expiry, now), c) <= Obstacles(s, c)
    ensures c in s.waiters && Due(s, c, now) ==> Obstacles(Round(s, c, expiry, now), c) < Obstacles(s, c)
  {
    var joined := EnsureInQueue(s, c);
    EnqueueKeepsObstacles(s, c);
    BeatKeepsObstacles(joined, c, expiry, now);
    CleanupProgress(Beat(joined, c, expiry), c, now);
  }

  lemma RoundKeepsGrid(s: Store, c: ClientId, expiry: real, now: real)
    requires OthersOnGrid(s, c)
    ensures OthersOnGrid(Round(s, c, expiry, now), c)
  {
  }

  lemma {:induction false} EarliestExists(keys: set<ClientId>, zset: map<ClientId, real>) returns (earliest: ClientId)
    requires keys != {} && keys <= zset.Keys
    ensures earliest in keys && forall h :: h in keys ==> zset[earliest] <= zset[h]
  {
    earliest :| earliest in keys;
    if keys != {earliest} {
      assert keys - {earliest} != {};
      var other := EarliestExists(keys - {earliest}, zset);
      if zset[other] < zset[earliest] {
        earliest := other;
      }
    }
  }

  /**
   Whatever all clients did before: when every ttl was a whole number of tenths, the acquire loop of any client
   finds the store as it needs it, with no more obstacles than the limit and the line.
   */
  lemma AnyRunMayEndInCrash(
      states: seq<SemaphoreMachine.State>, steps: seq<SemaphoreMachine.Step>, i: nat, c: ClientId)
    requires SemaphoreMachine.IsRun(states, steps) && i < |states|
    requires forall k :: 0 <= k < |steps| && steps[k].Run? ==> SemaphoreMachine.TtlOnGrid(steps[k].request.command)
    ensures OthersOnGrid(states[i].store, c)
    ensures states[0].maxLeases >= 1 ==>
              Obstacles(states[i].store, c) <= states[0].maxLeases + |states[i].store.waiters|
  {
    SemaphoreMachine.GridHolds(states, steps, i);
    SemaphoreMachine.InvHolds(states, steps, i);
    SemaphoreMachine.MaxLeasesIsConstant(states, steps, i);
  }

  /** No lease that is live at `time` was lost. */
  ghost predicate StillHeld(before: map<ClientId, real>, after: map<ClientId, real>, time: real) {
    forall h :: h in before && before[h] > time ==> h in after && after[h] == before[h]
  }

  lemma GrantFits(s: Store, c: ClientId, maxLeases: int, expiry: real)
    requires CanAcquire(s, c, maxLeases)
    ensures |Acquire(s, c, maxLeases, expiry).holders| <= maxLeases
  {
    SemaphoreMachine.OneMoreHolder(s.holders, c, expiry);
  }

  class RedisSemaphore {
    const keys: SemaphoreKeys
    const clock: Clock
    const clientId: ClientId
    const maxLeases: int
    const ttl: real
    const heartbeatInterval: real
    const heartbeatTtl: real

    constructor (keys: SemaphoreKeys, clock: Clock, clientId: ClientId, maxLeases: int, ttl: real,
                 heartbeatInterval: real, heartbeatTtl: real)
      ensures this.keys == keys && this.clock == clock && this.clientId == clientId && this.maxLeases == maxLeases
      ensures this.ttl == ttl && this.heartbeatInterval == heartbeatInterval && this.heartbeatTtl == heartbeatTtl
    {
      this.keys, this.clock, this.clientId, this.maxLeases := keys, clock, clientId, maxLeases;
      this.ttl, this.heartbeatInterval, this.heartbeatTtl := ttl, heartbeatInterval, heartbeatTtl;
    }

    /** The heartbeat task keeps up: its last sample is less than a heartbeat ttl older than `reading`. */
    method KeepHeartbeat(reading: real)
      requires heartbeatTtl > 0.0
      modifies keys`heartbeats
      ensures exists sample, expiry ::
                expiry > reading && expiry == CeilNow(sample) + heartbeatTtl
                && keys.Value() == Beat(old(keys.Value()), clientId, expiry)
    {
      var sample: real := *;
      if reading >= sample + heartbeatTtl {
        sample := reading;
      }
      TenthsBracket(sample);
      keys.SetHeartbeat(clientId, CeilNow(sample) + heartbeatTtl);
    }

    /** The heartbeat task is stopped only after the grant, so a last heartbeat may still land. */
    method LateHeartbeat()
      modifies keys`heartbeats
      ensures keys.holders == old(keys.holders) && keys.waiters == old(keys.waiters)
      ensures keys.heartbeats == old(keys.heartbeats) || exists sample ::
                && sample <= clock.time
                && keys.heartbeats == old(keys.heartbeats)[clientId := CeilNow(sample) + heartbeatTtl]
    {
      var sample: real := *;
      if sample <= clock.time {
        keys.SetHeartbeat(clientId, CeilNow(sample) + heartbeatTtl);
      }
    }

    /** The score that the wait is about: the earliest lease, or without leases the front waiter's heartbeat. */
    ghost predicate Awaited(expiry: real)
      reads this, keys
    {
      if keys.holders != map[] then
        && (exists h :: h in keys.holders && keys.holders[h] == expiry)
        && (forall h :: h in keys.holders ==> expiry <= keys.holders[h])
      else
        && keys.waiters != [] && keys.waiters[0] != clientId
        && keys.waiters[0] in keys.heartbeats && keys.heartbeats[keys.waiters[0]] == expiry
    }

    /**
     Without a release message, the wait ends when an entry that stands in the way is due, and it asks for no
     longer a sleep than that: up to the awaited score, or one heartbeat interval.
     */
    method WaitForReleaseOrExpiry()
      requires OthersOnGrid(keys.Value(), clientId)
      modifies clock
      ensures clock.time >= old(clock.time)
      ensures (forall expiry :: !Awaited(expiry)) ==> clock.asked == old(clock.asked)
      ensures forall expiry :: Awaited(expiry) ==>
                clock.asked == old(clock.asked) + Max(0.0, Max(expiry - FloorNow(old(clock.time)), heartbeatInterval))
      ensures
        || Due(keys.Value(), clientId, FloorNow(clock.time))
        || (keys.holders == map[] && (keys.waiters == [] || keys.waiters[0] == clientId))
    {
      var expiry: real;
      if |keys.holders| == 0 {
        if keys.waiters == [] || keys.waiters[0] == clientId {
          return;
        }
        var first := keys.waiters[0];
        if first !in keys.heartbeats {
          return;
        }
        expiry := keys.heartbeats[first];
      } else {
        ghost var minimal := EarliestExists(keys.holders.Keys, keys.holders);
        var earliest :|
          earliest in keys.holders && forall h :: h in keys.holders ==> keys.holders[earliest] <= keys.holders[h];
        expiry := keys.holders[earliest];
      }
      var sample := clock.time;
      var delay := WaitDelay(expiry, sample, heartbeatInterval);
      assert Awaited(expiry);
      clock.Sleep(delay);
      assert Awaited(expiry);
      FullDelayReachesExpiry(expiry, sample, heartbeatInterval, clock.time);
    }

    /** Joins the line, then cleans up with a floored reading of the clock. */
    method EnqueueAndClean()
      requires heartbeatTtl > 0.0 && OthersOnGrid(keys.Value(), clientId)
      modifies keys, clock
      ensures clock.time >= old(clock.time)
      ensures OthersOnGrid(keys.Value(), clientId) && clientId in keys.waiters
      ensures exists reading :: reading <= clock.time && keys.holders == DropUpTo(old(keys.holders), reading)
      ensures Obstacles(keys.Value(), clientId) <= old(Obstacles(keys.Value(), clientId))
      ensures old(clientId in keys.waiters && Due(keys.Value(), clientId, FloorNow(clock.time)))
              ==> Obstacles(keys.Value(), clientId) < old(Obstacles(keys.Value(), clientId))
    {
      ghost var before := keys.Value();
      keys.LuaEnsureInQueue(clientId);
      var reading := FloorNow(clock.time);
      TenthsBracket(clock.time);
      clock.Sleep(0.0);
      KeepHeartbeat(reading);
      ghost var expiry :| expiry > reading && keys.Value() == Beat(EnsureInQueue(before, clientId), clientId, expiry);
      RoundProgress(before, clientId, expiry, reading);
      RoundKeepsGrid(before, clientId, expiry, reading);
      keys.LuaCleanupStaleClients(reading);
      clock.Sleep(0.0);
    }

    /** Fails only while some obstacle is left, and then changes nothing. */
    method TryAcquire() returns (acquired: bool)
      requires maxLeases >= 1 && clientId in keys.waiters
      modifies keys, clock
      ensures clock.time >= old(clock.time)
      ensures !acquired ==> keys.Value() == old(keys.Value()) && Obstacles(keys.Value(), clientId) > 0
      ensures acquired ==> (exists sample ::
                old(clock.time) <= sample <= clock.time
                && keys.Value() == Acquire(old(keys.Value()), clientId, maxLeases, CeilNow(sample) + ttl))
      ensures acquired == CanAcquire(old(keys.Value()), clientId, maxLeases)
    {
      var sample := clock.time;
      acquired := keys.LuaAcquireAndDequeue(clientId, maxLeases, ttl, CeilNow(sample));
      clock.Sleep(0.0);
    }

    /** Gives the lease back and tells the waiters; fails when the client holds none any more. */
    method Release() returns (released: bool, notified: bool)
      modifies keys
      ensures released == (clientId in old(keys.holders)) == notified
      ensures keys.Value() == Semaphores.Release(old(keys.Value()), clientId)
    {
      released := keys.LuaRemoveClient(clientId);
      notified := released;
    }

    /** Renews the lease from a fresh sample, whether or not it has lapsed; fails when the entry is gone. */
    method Extend(newTtl: Option<real>) returns (extended: bool)
      modifies keys
      ensures extended == (clientId in old(keys.holders))
      ensures keys.Value() == Semaphores.Extend(old(keys.Value()), clientId,
                CeilNow(clock.time) + if newTtl.Some? && newTtl.value != 0.0 then newTtl.value else ttl)
    {
      var lease := if newTtl.Some? && newTtl.value != 0.0 then newTtl.value else ttl;
      extended := keys.LuaExtendClient(clientId, CeilNow(clock.time) + lease);
    }

    /** Progress after crashes: at most one iteration for each obstacle, and one more. */
    method AcquireAlone() returns (iterations: nat)
      requires maxLeases >= 1 && heartbeatTtl > 0.0
      requires OthersOnGrid(keys.Value(), clientId)
      modifies keys, clock
      ensures iterations <= Obstacles(old(keys.Value()), clientId) + 1
      ensures exists sample ::
                old(clock.time) <= sample <= clock.time
                && clientId in keys.holders && keys.holders[clientId] == CeilNow(sample) + ttl
      ensures |keys.holders| <= maxLeases
      ensures StillHeld(old(keys.holders) - {clientId}, keys.holders, clock.time)
    {
      ghost var bound := Obstacles(keys.Value(), clientId) + 1;
      iterations := 0;
      while true
        invariant OthersOnGrid(keys.Value(), clientId) && clock.time >= old(clock.time)
        invariant StillHeld(old(keys.holders) - {clientId}, keys.holders, clock.time)
        invariant iterations == 0 ==> Obstacles(keys.Value(), clientId) < bound
        invariant iterations > 0 ==> Due(keys.Value(), clientId, FloorNow(clock.time)) && clientId in keys.waiters
        invariant iterations > 0 ==> 0 < Obstacles(keys.Value(), clientId) <= bound - iterations
        decreases bound - iterations
      {
        EnqueueAndClean();
        ghost var before := keys.Value();
        var acquired := TryAcquire();
        iterations := iterations + 1;
        if acquired {
          GrantFits(before, clientId, maxLeases, keys.holders[clientId]);
          LateHeartbeat();
          return;
        }
        WaitForReleaseOrExpiry();
      }
    }
  }
}
