/**
 The three Redis keys behind one semaphore name, the five atomic scripts that run over them,
 and the imperative form of those scripts, proved to compute the functions.
 */
module Semaphores {

  type ClientId = string

  /** Holders by lease expiry, clients waiting in line, and waiters' heartbeats by expiry. */
  datatype Store = Store(
    holders: map<ClientId, real>,
    waiters: seq<ClientId>,
    heartbeats: map<ClientId, real>)

  ghost predicate Distinct<T(!new)>(s: seq<T>) {
    forall i, j :: 0 <= i < j < |s| ==> s[i] != s[j]
  }

  /** ZREMRANGEBYSCORE zset -inf now */
  function DropUpTo(zset: map<ClientId, real>, now: real): map<ClientId, real> {
    map c | c in zset && zset[c] > now :: zset[c]
  }

  predicate Lapsed(heartbeats: map<ClientId, real>, c: ClientId, now: real) {
    c !in heartbeats || heartbeats[c] < now
  }

  /** The line without its longest prefix of lapsed clients. */
  function SkipLapsed(waiters: seq<ClientId>, heartbeats: map<ClientId, real>, now: real): (rest: seq<ClientId>)
    ensures |rest| <= |waiters| && rest == waiters[|waiters| - |rest|..]
    ensures forall i :: 0 <= i < |waiters| - |rest| ==> Lapsed(heartbeats, waiters[i], now)
    ensures rest != [] ==> !Lapsed(heartbeats, rest[0], now)
  {
    if waiters != [] && Lapsed(heartbeats, waiters[0], now) then
      var left := SkipLapsed(waiters[1..], heartbeats, now);
      assert waiters[1..][|waiters| - 1 - |left|..] == waiters[|waiters| - |left|..];
      assert forall i :: 0 < i < |waiters| ==> waiters[i] == waiters[1..][i - 1];
      left
    else waiters
  }

  function EnsureInQueue(s: Store, c: ClientId): Store {
    if c in s.waiters then s else s.(waiters := s.waiters + [c])
  }

  function Cleanup(s: Store, now: real): Store {
    var beats := DropUpTo(s.heartbeats, now);
    Store(DropUpTo(s.holders, now), SkipLapsed(s.waiters, beats, now), beats)
  }

  predicate CanAcquire(s: Store, c: ClientId, maxLeases: int) {
    s.waiters != [] && s.waiters[0] == c && |s.holders| < maxLeases
  }

  function Acquire(s: Store, c: ClientId, maxLeases: int, expiry: real): Store {
    if CanAcquire(s, c, maxLeases)
    then Store(s.holders[c := expiry], s.waiters[1..], s.heartbeats - {c})
    else s
  }

  function Release(s: Store, c: ClientId): Store {
    s.(holders := s.holders - {c})
  }

  function Extend(s: Store, c: ClientId, expiry: real): Store {
    if c in s.holders then s.(holders := s.holders[c := expiry]) else s
  }

  function Beat(s: Store, c: ClientId, expiry: real): Store {
    s.(heartbeats := s.heartbeats[c := expiry])
  }

  /** After a cleanup the front of the line, if any, has a heartbeat that outlives the reading. */
  lemma CleanupFront(s: Store, now: real)
    ensures var t := Cleanup(s, now);
            && (t.waiters != [] ==> t.waiters[0] in s.heartbeats && s.heartbeats[t.waiters[0]] > now)
            && (forall c :: c in s.waiters && c !in t.waiters ==> c !in s.heartbeats || s.heartbeats[c] <= now)
  {
    var t := Cleanup(s, now);
    forall c | c in s.waiters && c !in t.waiters
      ensures c !in s.heartbeats || s.heartbeats[c] <= now
    {
      var k := |s.waiters| - |t.waiters|;
      assert s.waiters == s.waiters[..k] + t.waiters;
      var i :| 0 <= i < k && s.waiters[i] == c;
      assert Lapsed(t.heartbeats, c, now);
    }
  }

  lemma {:induction false} SkipKeeps(line: seq<ClientId>, beats: map<ClientId, real>, c: ClientId, now: real)
    requires c in line && !Lapsed(beats, c, now)
    ensures c in SkipLapsed(line, beats, now)
  {
    if Lapsed(beats, line[0], now) {
      SkipKeeps(line[1..], beats, c, now);
    }
  }

  /** One more heartbeat never makes a cleanup evict more clients. */
  lemma {:induction false} SkipNoMore(
      line: seq<ClientId>, beats: map<ClientId, real>, more: map<ClientId, real>, now: real)
    requires forall d :: d in line && !Lapsed(beats, d, now) ==> !Lapsed(more, d, now)
    ensures |SkipLapsed(line, beats, now)| <= |SkipLapsed(line, more, now)|
  {
    if line != [] && Lapsed(beats, line[0], now) && Lapsed(more, line[0], now) {
      SkipNoMore(line[1..], beats, more, now);
    }
  }

  lemma {:induction false} SkipSame(
      line: seq<ClientId>, beats: map<ClientId, real>, more: map<ClientId, real>, now: real)
    requires forall d :: d in line ==> (Lapsed(beats, d, now) <==> Lapsed(more, d, now))
    ensures SkipLapsed(line, beats, now) == SkipLapsed(line, more, now)
  {
    if line != [] {
      SkipSame(line[1..], beats, more, now);
    }
  }

  lemma SuffixesNest(line: seq<ClientId>, a: seq<ClientId>, b: seq<ClientId>)
    requires |a| <= |line| && a == line[|line| - |a|..] && |b| <= |line| && b == line[|line| - |b|..]
    requires |a| <= |b|
    ensures forall d :: d in a ==> d in b
  {
    assert a == b[|b| - |a|..];
  }

  lemma {:induction false} SkipKeepsAll(
      line: seq<ClientId>, beats: map<ClientId, real>, more: map<ClientId, real>, now: real)
    requires forall d :: d in line && !Lapsed(beats, d, now) ==> !Lapsed(more, d, now)
    ensures forall d :: d in SkipLapsed(line, beats, now) ==> d in SkipLapsed(line, more, now)
  {
    SkipNoMore(line, beats, more, now);
    SuffixesNest(line, SkipLapsed(line, beats, now), SkipLapsed(line, more, now));
  }

  /**
   What a heartbeat is for: until its expiry no cleanup evicts the client. It costs nobody else a place or a
   score, and changes nothing for the holders.
   */
  lemma BeatKeepsPlace(s: Store, c: ClientId, expiry: real, now: real)
    requires expiry > now
    ensures var t, u := Cleanup(Beat(s, c, expiry), now), Cleanup(s, now);
            && (c in s.waiters ==> c in t.waiters)
            && (forall d :: d in u.waiters ==> d in t.waiters)
            && (c !in s.waiters ==> t.waiters == u.waiters)
            && t.heartbeats == u.heartbeats[c := expiry] && t.holders == u.holders
  {
    assert DropUpTo(s.heartbeats[c := expiry], now) == DropUpTo(s.heartbeats, now)[c := expiry];
    var beats := DropUpTo(s.heartbeats, now);
    SkipKeepsAll(s.waiters, beats, beats[c := expiry], now);
    if c in s.waiters {
      SkipKeeps(s.waiters, beats[c := expiry], c, now);
    } else {
      SkipSame(s.waiters, beats, beats[c := expiry], now);
    }
  }

  /** From each store to the next the client at the front of the line asks for a lease. */
  ghost predicate AskInTurn(stores: seq<Store>, maxLeases: int, expiry: real) {
    && stores != []
    && (forall k :: 0 < k < |stores| ==> FrontAsks(stores[k - 1], stores[k], maxLeases, expiry))
  }

  ghost predicate FrontAsks(s: Store, t: Store, maxLeases: int, expiry: real) {
    s.waiters != [] && t == Acquire(s, s.waiters[0], maxLeases, expiry)
  }

  lemma OneTurn(s: Store, maxLeases: int, expiry: real)
    requires s.waiters != [] && |s.holders| < maxLeases
    ensures var t := Acquire(s, s.waiters[0], maxLeases, expiry);
            && t.waiters == s.waiters[1..]
            && t.holders.Keys == s.holders.Keys + {s.waiters[0]} && |t.holders| <= |s.holders| + 1
  {
    var t := Acquire(s, s.waiters[0], maxLeases, expiry);
    assert |t.holders.Keys| <= |s.holders.Keys| + 1;
  }

  /** No lease is left unused: as many clients as leases are free get one when they ask in turn. */
  lemma {:induction false} FreeLeasesAreGranted(stores: seq<Store>, maxLeases: int, expiry: real, k: nat)
    requires AskInTurn(stores, maxLeases, expiry) && k < |stores| && |stores[0].holders| + k <= maxLeases
    ensures k <= |stores[0].waiters| && stores[k].waiters == stores[0].waiters[k..]
    ensures |stores[k].holders| <= |stores[0].holders| + k
    ensures forall i :: 0 <= i < k ==> stores[0].waiters[i] in stores[k].holders
  {
    if k > 0 {
      FreeLeasesAreGranted(stores, maxLeases, expiry, k - 1);
      assert FrontAsks(stores[k - 1], stores[k], maxLeases, expiry);
      OneTurn(stores[k - 1], maxLeases, expiry);
    }
  }

  /** The keys as Redis holds them, with one method for each script. */
  class SemaphoreKeys {
    var holders: map<ClientId, real>
    var waiters: seq<ClientId>
    var heartbeats: map<ClientId, real>

    function Value(): Store
      reads this
    {
      Store(holders, waiters, heartbeats)
    }

    constructor ()
      ensures Value() == Store(map[], [], map[])
    {
      holders, waiters, heartbeats := map[], [], map[];
    }

    method LuaEnsureInQueue(clientId: ClientId)
      modifies this`waiters
      ensures Value() == EnsureInQueue(old(Value()), clientId)
      ensures waiters == old(waiters) + if clientId in old(waiters) then [] else [clientId]
    {
      for i := 0 to |waiters|
        invariant clientId !in waiters[..i]
      {
        if waiters[i] == clientId {
          return;
        }
      }
      assert waiters[..|waiters|] == waiters;
      waiters := waiters + [clientId];
    }

    method LuaCleanupStaleClients(now: real)
      modifies this
      ensures Value() == Cleanup(old(Value()), now)
      ensures holders == map c | c in old(holders) && old(holders)[c] > now :: old(holders)[c]
      ensures heartbeats == map c | c in old(heartbeats) && old(heartbeats)[c] > now :: old(heartbeats)[c]
    {
      holders := DropUpTo(holders, now);
      heartbeats := DropUpTo(heartbeats, now);
      while true
        invariant holders == DropUpTo(old(holders), now)
        invariant heartbeats == DropUpTo(old(heartbeats), now)
        invariant SkipLapsed(waiters, heartbeats, now) == SkipLapsed(old(waiters), heartbeats, now)
        decreases |waiters|
      {
        if waiters == [] {
          break;
        }
        var firstClientId := waiters[0];
        if firstClientId !in heartbeats || heartbeats[firstClientId] < now {
          waiters := waiters[1..];
        } else {
          break;
        }
      }
    }

    method LuaAcquireAndDequeue(clientId: ClientId, maxLeases: int, ttl: real, now: real) returns (acquired: bool)
      modifies this
      ensures acquired == CanAcquire(old(Value()), clientId, maxLeases)
      ensures Value() == Acquire(old(Value()), clientId, maxLeases, now + ttl)
      ensures acquired <==> old(waiters) != [] && old(waiters)[0] == clientId && |old(holders)| < maxLeases
      ensures acquired ==>
                && holders == old(holders)[clientId := now + ttl]
                && waiters == old(waiters)[1..] && heartbeats == old(heartbeats) - {clientId}
      ensures !acquired ==> Value() == old(Value())
    {
      if waiters == [] || waiters[0] != clientId {
        return false;
      }
      if |holders| >= maxLeases {
        return false;
      }
      holders := holders[clientId := now + ttl];
      waiters := waiters[1..];
      heartbeats := heartbeats - {clientId};
      return true;
    }

    method LuaRemoveClient(clientId: ClientId) returns (released: bool)
      modifies this`holders
      ensures released == (clientId in old(holders))
      ensures Value() == Release(old(Value()), clientId)
      ensures holders == old(holders) - {clientId}
    {
      if clientId !in holders {
        assert holders - {clientId} == holders;
        return false;
      }
      holders := holders - {clientId};
      return true;
    }

    method LuaExtendClient(clientId: ClientId, newExpiry: real) returns (extended: bool)
      modifies this`holders
      ensures extended == (clientId in old(holders))
      ensures Value() == Extend(old(Value()), clientId, newExpiry)
      ensures holders == if extended then old(holders)[clientId := newExpiry] else old(holders)
    {
      if clientId !in holders {
        return false;
      }
      holders := holders[clientId := newExpiry];
      return true;
    }

    method SetHeartbeat(clientId: ClientId, expiry: real)
      modifies this`heartbeats
      ensures Value() == Beat(old(Value()), clientId, expiry)
      ensures heartbeats == old(heartbeats)[clientId := expiry]
    {
      heartbeats := heartbeats[clientId := expiry];
    }
  }
}
