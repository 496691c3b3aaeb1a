/** Cancelling and deleting a run together with the runs below it, and the sweep that cancels silent runs. */
module Cascades {
  import opened TaskRunStates
  import opened Options
  import opened Clocks

  ghost predicate IsPath(rows: Rows, allowed: set<Uuid>, p: seq<Uuid>) {
    && p != []
    && (forall i :: 0 <= i < |p| ==> p[i] in rows && p[i] in allowed)
    && (forall i :: 0 < i < |p| ==> rows[p[i]].parent == Some(p[i - 1]))
  }

  ghost predicate Reaches(rows: Rows, allowed: set<Uuid>, u: Uuid, x: Uuid) {
    exists p :: IsPath(rows, allowed, p) && p[0] == u && p[|p| - 1] == x
  }

  /** The runs reachable from `u` over children, through `allowed` runs only. The child relation may have cycles. */
  ghost function Region(rows: Rows, allowed: set<Uuid>, u: Uuid): set<Uuid> {
    set x | x in rows && Reaches(rows, allowed, u, x)
  }

  function Children(rows: Rows, u: Uuid): set<Uuid> {
    set c | c in rows && rows[c].parent == Some(u)
  }

  function NonTerminal(rows: Rows): set<Uuid> {
    set u | u in rows && !rows[u].state.Terminal()
  }

  // ---------------------------------------------------------------- regions

  lemma RegionRoot(rows: Rows, allowed: set<Uuid>, u: Uuid)
    requires u in rows
    ensures u in allowed ==> u in Region(rows, allowed, u)
    ensures u !in allowed ==> Region(rows, allowed, u) == {}
    ensures Region(rows, allowed, u) <= allowed
  {
    if u in allowed {
      assert IsPath(rows, allowed, [u]);
    }
  }

  lemma RegionClosed(rows: Rows, allowed: set<Uuid>, u: Uuid, x: Uuid, c: Uuid)
    requires x in Region(rows, allowed, u) && c in Children(rows, x) && c in allowed
    ensures c in Region(rows, allowed, u)
  {
    var p :| IsPath(rows, allowed, p) && p[0] == u && p[|p| - 1] == x;
    assert IsPath(rows, allowed, p + [c]);
  }

  lemma RegionOfChild(rows: Rows, allowed: set<Uuid>, u: Uuid, c: Uuid)
    requires u in rows && u in allowed && c in Children(rows, u)
    ensures Region(rows, allowed, c) <= Region(rows, allowed, u)
  {
    forall x | x in Region(rows, allowed, c)
      ensures x in Region(rows, allowed, u)
    {
      var p :| IsPath(rows, allowed, p) && p[0] == c && p[|p| - 1] == x;
      assert IsPath(rows, allowed, [u] + p);
    }
  }

  ghost predicate SameParents(small: Rows, large: Rows) {
    small.Keys <= large.Keys && forall u :: u in small ==> small[u].parent == large[u].parent
  }

  lemma RegionMonotone(small: Rows, few: set<Uuid>, large: Rows, many: set<Uuid>, u: Uuid)
    requires SameParents(small, large) && few <= many
    ensures Region(small, few, u) <= Region(large, many, u)
  {
    forall x | x in Region(small, few, u)
      ensures x in Region(large, many, u)
    {
      var p :| IsPath(small, few, p) && p[0] == u && p[|p| - 1] == x;
      assert IsPath(large, many, p);
    }
  }

  /** A set that contains the root and is closed under allowed children contains the region. */
  lemma RegionLeast(rows: Rows, allowed: set<Uuid>, u: Uuid, s: set<Uuid>)
    requires u in allowed ==> u in s
    requires forall x, c :: x in s && c in Children(rows, x) && c in allowed ==> c in s
    ensures Region(rows, allowed, u) <= s
  {
    forall x | x in Region(rows, allowed, u)
      ensures x in s
    {
      var p :| IsPath(rows, allowed, p) && p[0] == u && p[|p| - 1] == x;
      PathStaysIn(rows, allowed, p, s, |p| - 1);
    }
  }

  lemma {:induction false} PathStaysIn(rows: Rows, allowed: set<Uuid>, p: seq<Uuid>, s: set<Uuid>, i: nat)
    requires IsPath(rows, allowed, p) && p[0] in s && i < |p|
    requires forall x, c :: x in s && c in Children(rows, x) && c in allowed ==> c in s
    ensures p[i] in s
  {
    if i > 0 {
      PathStaysIn(rows, allowed, p, s, i - 1);
      assert p[i] in Children(rows, p[i - 1]);
    }
  }

  // ---------------------------------------------------------------- effects

  function MarkCancelled(rows: Rows, changed: set<Uuid>): Rows {
    map u | u in rows :: if u in changed then rows[u].(state := CANCELLED) else rows[u]
  }

  /** Cancelled rows keep everything but their state, and the runs that can be cancelled are those in an open state. */
  lemma CancelledFields(rows: Rows, changed: set<Uuid>)
    ensures var after := MarkCancelled(rows, changed);
            && after.Keys == rows.Keys
            && (forall u :: u in rows ==>
                  && after[u].runCount == rows[u].runCount && after[u].parent == rows[u].parent
                  && after[u].heartbeat == rows[u].heartbeat
                  && after[u].state == if u in changed then CANCELLED else rows[u].state)
    ensures forall u :: u in NonTerminal(rows) <==>
              u in rows && rows[u].state in {CREATED, RUNNING, TIMEOUT, RETRYING}
  {
  }

  /** Each changed run got exactly one more transition, from its old state to CANCELLED; no other run did. */
  ghost predicate LoggedOnce(before: Database, after: seq<Transition>, changed: set<Uuid>)
    requires changed <= before.rows.Keys
  {
    forall u :: LogOf(after, u) == LogOf(before.log, u)
                + if u in changed then [Transition(u, before.rows[u].state, CANCELLED)] else []
  }

  lemma LoggedTwice(before: Database, mid: Database, after: seq<Transition>, first: set<Uuid>, second: set<Uuid>)
    requires first <= before.rows.Keys && second <= before.rows.Keys && first !! second
    requires mid.rows == MarkCancelled(before.rows, first)
    requires LoggedOnce(before, mid.log, first) && LoggedOnce(mid, after, second)
    ensures LoggedOnce(before, after, first + second)
  {
    forall u
      ensures LogOf(after, u) == LogOf(before.log, u)
              + if u in first + second then [Transition(u, before.rows[u].state, CANCELLED)] else []
    {
      assert LogOf(after, u) == LogOf(mid.log, u)
             + if u in second then [Transition(u, mid.rows[u].state, CANCELLED)] else [];
      assert u in second ==> mid.rows[u] == before.rows[u];
    }
  }

  lemma MarkTwice(rows: Rows, first: set<Uuid>, second: set<Uuid>)
    ensures MarkCancelled(MarkCancelled(rows, first), second) == MarkCancelled(rows, first + second)
    ensures NonTerminal(MarkCancelled(rows, first)) == NonTerminal(rows) - first
    ensures SameParents(MarkCancelled(rows, first), rows)
  {
  }

  /** What is left to do in a cancellation of `u` that has changed the runs `changed` so far. */
  ghost predicate Cancelling(rows: Rows, u: Uuid, changed: set<Uuid>, todo: set<Uuid>) {
    && u in changed && changed <= Region(rows, NonTerminal(rows), u)
    && todo <= Children(rows, u)
    && ClosedBut(rows, u, changed, todo)
  }

  /** Open children of changed runs are changed too, except those of `u` that are still to do. */
  ghost predicate ClosedBut(rows: Rows, u: Uuid, changed: set<Uuid>, todo: set<Uuid>) {
    forall x, c :: x in changed && c in Children(rows, x) && c in NonTerminal(rows)
                   ==> c in changed || (x == u && c in todo)
  }

  lemma CancelNothingYet(rows: Rows, u: Uuid)
    requires u in NonTerminal(rows)
    ensures Cancelling(rows, u, {u}, Children(rows, u))
  {
    RegionRoot(rows, NonTerminal(rows), u);
  }

  /** The runs that cancelling one child still changes, in terms of the rows before the cancellation. */
  lemma ChildRegion(rows: Rows, u: Uuid, changed: set<Uuid>, c: Uuid)
    requires u in NonTerminal(rows) && c in Children(rows, u)
    ensures var mid := MarkCancelled(rows, changed);
            var more := Region(mid, NonTerminal(mid), c);
            && more <= Region(rows, NonTerminal(rows), u) && changed !! more
            && (c in NonTerminal(rows) ==> c in changed || c in more)
  {
    var mid := MarkCancelled(rows, changed);
    MarkTwice(rows, changed, {});
    RegionRoot(mid, NonTerminal(mid), c);
    RegionMonotone(mid, NonTerminal(mid), rows, NonTerminal(rows), c);
    RegionOfChild(rows, NonTerminal(rows), u, c);
  }

  lemma ChildRegionClosed(rows: Rows, changed: set<Uuid>, c: Uuid, x: Uuid, d: Uuid)
    requires var mid := MarkCancelled(rows, changed); x in Region(mid, NonTerminal(mid), c)
    requires d in Children(rows, x) && d in NonTerminal(rows) && d !in changed
    ensures var mid := MarkCancelled(rows, changed); d in Region(mid, NonTerminal(mid), c)
  {
    var mid := MarkCancelled(rows, changed);
    MarkTwice(rows, changed, {});
    assert d in Children(mid, x);
    RegionClosed(mid, NonTerminal(mid), c, x, d);
  }

  lemma OneChildCloses(rows: Rows, u: Uuid, changed: set<Uuid>, todo: set<Uuid>, c: Uuid, more: set<Uuid>)
    requires ClosedBut(rows, u, changed, todo) && c in Children(rows, u) && u in NonTerminal(rows)
    requires var mid := MarkCancelled(rows, changed); more == Region(mid, NonTerminal(mid), c)
    ensures ClosedBut(rows, u, changed + more, todo - {c})
  {
    ChildRegion(rows, u, changed, c);
    forall x, d | x in changed + more && d in Children(rows, x) && d in NonTerminal(rows)
      ensures d in changed + more || (x == u && d in todo - {c})
    {
      if x in more && d !in changed {
        ChildRegionClosed(rows, changed, c, x, d);
      }
    }
  }

  lemma CancelOneChild(rows: Rows, u: Uuid, changed: set<Uuid>, todo: set<Uuid>, c: Uuid, more: set<Uuid>)
    requires Cancelling(rows, u, changed, todo) && c in todo && u in rows && u in NonTerminal(rows)
    requires var mid := MarkCancelled(rows, changed); more == Region(mid, NonTerminal(mid), c)
    ensures Cancelling(rows, u, changed + more, todo - {c})
    ensures changed !! more
  {
    ChildRegion(rows, u, changed, c);
    OneChildCloses(rows, u, changed, todo, c, more);
  }

  lemma CancelDone(rows: Rows, u: Uuid, changed: set<Uuid>)
    requires Cancelling(rows, u, changed, {})
    ensures changed == Region(rows, NonTerminal(rows), u)
  {
    RegionLeast(rows, NonTerminal(rows), u, changed);
  }

  // ---------------------------------------------------------------- whole histories

  /** A new run's row, without any transition yet. */
  ghost predicate IsCreation(a: Database, b: Database) {
    exists u, row: Row :: u !in a.rows && LogOf(a.log, u) == [] && row.state == CREATED && row.runCount == 0
                          && b == a.(rows := a.rows[u := row])
  }

  ghost predicate IsTransition(a: Database, b: Database) {
    exists u, s :: u in a.rows && b == TransitionState(a, u, s)
  }

  ghost predicate IsCancellation(a: Database, b: Database) {
    exists u :: u in a.rows && CancelledFrom(a, b, u)
  }

  ghost predicate CancelledFrom(a: Database, b: Database, u: Uuid)
    requires u in a.rows
  {
    var changed := Region(a.rows, NonTerminal(a.rows), u);
    b.rows == MarkCancelled(a.rows, changed) && LoggedOnce(a, b.log, changed)
  }

  lemma CreationKeepsReplay(a: Database, b: Database)
    requires LogReplays(a) && IsCreation(a, b)
    ensures LogReplays(b)
  {
    forall u | u in b.rows
      ensures Replays(b, u)
    {
      if u in a.rows {
        assert Replays(a, u);
      }
    }
  }

  lemma CancelledRowReplays(a: Database, b: Database, changed: set<Uuid>, v: Uuid)
    requires v in a.rows && Replays(a, v) && changed <= NonTerminal(a.rows)
    requires b.rows == MarkCancelled(a.rows, changed) && LoggedOnce(a, b.log, changed)
    ensures Replays(b, v)
  {
    if v in changed {
      AppendToChain(LogOf(a.log, v), Transition(v, a.rows[v].state, CANCELLED), CREATED);
    } else {
      assert LogOf(a.log, v) + [] == LogOf(a.log, v);
    }
  }

  lemma CancellationKeepsReplay(a: Database, b: Database, u: Uuid)
    requires LogReplays(a) && u in a.rows && CancelledFrom(a, b, u)
    ensures LogReplays(b)
  {
    RegionRoot(a.rows, NonTerminal(a.rows), u);
    forall v | v in b.rows
      ensures Replays(b, v)
    {
      CancelledRowReplays(a, b, Region(a.rows, NonTerminal(a.rows), u), v);
    }
  }

  ghost predicate IsStep(a: Database, b: Database) {
    IsCreation(a, b) || IsTransition(a, b) || IsCancellation(a, b)
  }

  lemma StepKeepsReplay(a: Database, b: Database)
    requires LogReplays(a) && IsStep(a, b)
    ensures LogReplays(b)
  {
    if IsCreation(a, b) {
      CreationKeepsReplay(a, b);
    } else if IsTransition(a, b) {
      var u, s :| u in a.rows && b == TransitionState(a, u, s);
      TransitionKeepsReplay(a, u, s);
    } else {
      var u :| u in a.rows && CancelledFrom(a, b, u);
      CancellationKeepsReplay(a, b, u);
    }
  }

  /** Over any history of creations, transitions and cancellations the log replays to every row. */
  lemma {:induction false} HistoryReplays(history: seq<Database>, i: nat)
    requires i < |history| && history[0] == Database(map[], [])
    requires forall k :: 0 < k < |history| ==> IsStep(history[k - 1], history[k])
    ensures LogReplays(history[i])
  {
    if i > 0 {
      HistoryReplays(history, i - 1);
      StepKeepsReplay(history[i - 1], history[i]);
    }
  }

  // ---------------------------------------------------------------- forests and references

  /** `u` lies on a cycle of parents. */
  ghost predicate OwnAncestor(rows: Rows, u: Uuid) {
    exists p :: IsPath(rows, rows.Keys, p) && |p| > 1 && p[0] == u && p[|p| - 1] == u
  }

  /** Neither a row nor a transition refers to a row that is not there. */
  ghost predicate NoDangling(db: Database) {
    && (forall u :: u in db.rows && db.rows[u].parent.Some? ==> db.rows[u].parent.value in db.rows)
    && (forall t :: t in db.log ==> t.uuid in db.rows)
  }

  function LogWithout(log: seq<Transition>, gone: set<Uuid>): (r: seq<Transition>)
    ensures forall t :: t in r <==> t in log && t.uuid !in gone
  {
    if log == [] then []
    else if log[0].uuid in gone then LogWithout(log[1..], gone)
    else [log[0]] + LogWithout(log[1..], gone)
  }

  lemma {:induction false} LogWithoutTwice(log: seq<Transition>, a: set<Uuid>, b: set<Uuid>)
    ensures LogWithout(LogWithout(log, a), b) == LogWithout(log, a + b)
  {
    if log != [] {
      LogWithoutTwice(log[1..], a, b);
    }
  }

  lemma {:induction false} LogWithoutAbsent(log: seq<Transition>, gone: set<Uuid>)
    requires forall t :: t in log ==> t.uuid !in gone
    ensures LogWithout(log, gone) == log
  {
    if log != [] {
      LogWithoutAbsent(log[1..], gone);
    }
  }

  lemma {:induction false} LogWithoutDeleted(log: seq<Transition>, gone: set<Uuid>, i: nat)
    requires i < |log| && log[i].uuid in gone
    ensures LogWithout(log[..i] + log[i + 1..], gone) == LogWithout(log, gone)
  {
    if i == 0 {
      assert log[..0] + log[1..] == log[1..];
    } else {
      var rest := log[1..];
      assert log[..i] + log[i + 1..] == [log[0]] + (rest[..i - 1] + rest[i..]);
      assert ([log[0]] + (rest[..i - 1] + rest[i..]))[1..] == rest[..i - 1] + rest[i..];
      LogWithoutDeleted(rest, gone, i - 1);
    }
  }

  lemma ParentIsOutside(rows: Rows, u: Uuid, c: Uuid)
    requires u in rows && !OwnAncestor(rows, u) && c in Children(rows, u)
    ensures u !in Region(rows, rows.Keys, c)
  {
    if u in Region(rows, rows.Keys, c) {
      var p :| IsPath(rows, rows.Keys, p) && p[0] == c && p[|p| - 1] == u;
      assert IsPath(rows, rows.Keys, [u] + p);
    }
  }

  /** A run has one parent, so only the root of a region can close a cycle through it. */
  lemma ChildIsNoOwnAncestor(rows: Rows, u: Uuid, c: Uuid)
    requires !OwnAncestor(rows, u) && c in Children(rows, u)
    ensures !OwnAncestor(rows, c)
  {
    if OwnAncestor(rows, c) {
      var p :| IsPath(rows, rows.Keys, p) && |p| > 1 && p[0] == c && p[|p| - 1] == c;
      var q := [u] + p[..|p| - 1];
      assert p[|p| - 2] == u;
      assert q[|q| - 1] == u;
      assert IsPath(rows, rows.Keys, q);
    }
  }

  lemma FewerOwnAncestors(small: Rows, large: Rows, u: Uuid)
    requires SameParents(small, large) && !OwnAncestor(large, u)
    ensures !OwnAncestor(small, u)
  {
    if OwnAncestor(small, u) {
      var p :| IsPath(small, small.Keys, p) && |p| > 1 && p[0] == u && p[|p| - 1] == u;
      assert IsPath(large, large.Keys, p);
    }
  }

  // ---------------------------------------------------------------- how deep a deletion nests

  /** The calls that are open at once in a deletion of `u`: each was made for a child of the run before. */
  ghost predicate IsNesting(rows: Rows, u: Uuid, p: seq<Uuid>) {
    IsPath(rows, rows.Keys, p) && p[0] == u
  }

  /** Going up from two equal runs leads to equal runs. */
  lemma {:induction false} MeetingPaths(rows: Rows, p: seq<Uuid>, i: nat, j: nat)
    requires IsPath(rows, rows.Keys, p) && i < j < |p| && p[i] == p[j]
    ensures p[0] == p[j - i]
  {
    if i > 0 {
      assert rows[p[i]].parent == Some(p[i - 1]) && rows[p[j]].parent == Some(p[j - 1]);
      MeetingPaths(rows, p, i - 1, j - 1);
    }
  }

  lemma NestingIsDistinct(rows: Rows, u: Uuid, p: seq<Uuid>, i: nat, j: nat)
    requires IsNesting(rows, u, p) && !OwnAncestor(rows, u) && i < j < |p|
    ensures p[i] != p[j]
  {
    if p[i] == p[j] {
      MeetingPaths(rows, p, i, j);
      var q := p[..j - i + 1];
      assert q[|q| - 1] == u;
      assert IsPath(rows, rows.Keys, q);
    }
  }

  lemma {:induction false} DistinctFit(p: seq<Uuid>, s: set<Uuid>)
    requires forall i :: 0 <= i < |p| ==> p[i] in s
    requires forall i, j :: 0 <= i < j < |p| ==> p[i] != p[j]
    ensures |p| <= |s|
  {
    if p != [] {
      DistinctFit(p[1..], s - {p[0]});
    }
  }

  /** On a cycle one can go round as often as one likes. */
  lemma {:induction false} GoRound(rows: Rows, u: Uuid, n: nat) returns (p: seq<Uuid>)
    requires OwnAncestor(rows, u)
    ensures IsNesting(rows, u, p) && p[|p| - 1] == u && |p| > n
  {
    var round :| IsPath(rows, rows.Keys, round) && |round| > 1 && round[0] == u && round[|round| - 1] == u;
    if n == 0 {
      p := round;
    } else {
      var q := GoRound(rows, u, n - 1);
      p := q + round[1..];
      assert p[|q| - 1] == u;
      forall i | 0 < i < |p|
        ensures rows[p[i]].parent == Some(p[i - 1])
      {
        if i >= |q| {
          assert p[i] == round[i - |q| + 1] && p[i - 1] == round[i - |q|];
        }
      }
    }
  }

  /**
   Exactly when deleting a run comes to an end. The calls for the children come before any delete, so calls
   nest along paths of the rows as they were: on a cycle without bound, and otherwise no deeper than there are rows.
   */
  lemma NestingIsBounded(rows: Rows, u: Uuid)
    ensures (forall p :: IsNesting(rows, u, p) ==> |p| <= |rows|) <==> !OwnAncestor(rows, u)
  {
    if OwnAncestor(rows, u) {
      var p := GoRound(rows, u, |rows|);
    } else {
      forall p | IsNesting(rows, u, p)
        ensures |p| <= |rows|
      {
        forall i, j | 0 <= i < j < |p|
          ensures p[i] != p[j]
        {
          NestingIsDistinct(rows, u, p, i, j);
        }
        DistinctFit(p, rows.Keys);
        assert |rows.Keys| == |rows|;
      }
    }
  }

  // ---------------------------------------------------------------- deleting one child after the other

  lemma RegionHasParent(rows: Rows, c: Uuid, u: Uuid, d: Uuid)
    requires d in Region(rows, rows.Keys, c) && d in Children(rows, u) && d != c
    ensures u in Region(rows, rows.Keys, c)
  {
    var p :| IsPath(rows, rows.Keys, p) && p[0] == c && p[|p| - 1] == d;
    var q := p[..|p| - 1];
    assert IsPath(rows, rows.Keys, q) && q[0] == c && q[|q| - 1] == u;
  }

  /** Off the cycles the subtree of a child holds neither its parent nor a sibling. */
  lemma SubtreesAreDisjoint(rows: Rows, u: Uuid, c: Uuid, d: Uuid)
    requires u in rows && !OwnAncestor(rows, u) && c in Children(rows, u) && d in Children(rows, u) && c != d
    ensures d !in Region(rows, rows.Keys, c)
  {
    ParentIsOutside(rows, u, c);
    if d in Region(rows, rows.Keys, c) {
      RegionHasParent(rows, c, u, d);
    }
  }

  /** What is left to do in a deletion of `u` that has removed the rows `gone` so far. */
  ghost predicate Deleting(rows: Rows, u: Uuid, gone: set<Uuid>, todo: set<Uuid>) {
    && u in rows && u !in gone && gone <= Region(rows, rows.Keys, u)
    && todo <= Children(rows, u) && todo !! gone
    && Children(rows, u) <= todo + gone
    && (forall x, c :: x in gone && c in Children(rows, x) ==> c in gone)
  }

  lemma DeleteOneChild(rows: Rows, u: Uuid, gone: set<Uuid>, todo: set<Uuid>, c: Uuid, more: set<Uuid>)
    requires !OwnAncestor(rows, u) && Deleting(rows, u, gone, todo) && c in todo
    requires var mid := rows - gone; more == Region(mid, mid.Keys, c)
    ensures Deleting(rows, u, gone + more, todo - {c})
  {
    var mid := rows - gone;
    RegionRoot(mid, mid.Keys, c);
    RegionMonotone(mid, mid.Keys, rows, rows.Keys, c);
    RegionOfChild(rows, rows.Keys, u, c);
    ParentIsOutside(rows, u, c);
    forall d | d in todo - {c}
      ensures d !in more
    {
      SubtreesAreDisjoint(rows, u, c, d);
    }
    forall x, d | x in gone + more && d in Children(rows, x)
      ensures d in gone + more
    {
      if x in more && d !in gone {
        assert d in Children(mid, x);
        RegionClosed(mid, mid.Keys, c, x, d);
      }
    }
  }

  lemma DeleteDone(rows: Rows, u: Uuid, gone: set<Uuid>)
    requires Deleting(rows, u, gone, {})
    ensures gone + {u} == Region(rows, rows.Keys, u)
  {
    RegionRoot(rows, rows.Keys, u);
    RegionLeast(rows, rows.Keys, u, gone + {u});
  }

  ghost predicate ClearUpTo(log: seq<Transition>, u: Uuid, n: nat)
    requires n <= |log|
  {
    forall i :: 0 <= i < n ==> log[i].uuid != u
  }

  lemma ClearStep(log: seq<Transition>, u: Uuid, i: nat)
    requires i < |log| && ClearUpTo(log, u, i)
    ensures log[i].uuid != u ==> ClearUpTo(log, u, i + 1)
    ensures log[i].uuid == u ==>
              var rest := log[..i] + log[i + 1..];
              ClearUpTo(rest, u, i) && LogWithout(rest, {u}) == LogWithout(log, {u})
  {
    if log[i].uuid == u {
      LogWithoutDeleted(log, {u}, i);
    }
  }

  lemma AllClear(log: seq<Transition>, u: Uuid)
    requires ClearUpTo(log, u, |log|)
    ensures LogWithout(log, {u}) == log
  {
    LogWithoutAbsent(log, {u});
  }

  function DeleteFrom(db: Database, gone: set<Uuid>): Database {
    Database(db.rows - gone, LogWithout(db.log, gone))
  }

  lemma DeleteNothing(db: Database)
    ensures DeleteFrom(db, {}) == db
  {
    LogWithoutAbsent(db.log, {});
    assert db.rows - {} == db.rows;
  }

  lemma DeleteTwice(db: Database, a: set<Uuid>, b: set<Uuid>)
    ensures DeleteFrom(DeleteFrom(db, a), b) == DeleteFrom(db, a + b)
  {
    LogWithoutTwice(db.log, a, b);
    assert db.rows - a - b == db.rows - (a + b);
  }

  lemma DeletionDescends(rows: Rows, u: Uuid, gone: set<Uuid>, todo: set<Uuid>, c: Uuid)
    requires !OwnAncestor(rows, u) && Deleting(rows, u, gone, todo) && c in todo
    ensures c in rows - gone && !OwnAncestor(rows - gone, c)
    ensures Region(rows - gone, (rows - gone).Keys, c) < Region(rows, rows.Keys, u)
  {
    var mid := rows - gone;
    ChildIsNoOwnAncestor(rows, u, c);
    FewerOwnAncestors(mid, rows, c);
    RegionMonotone(mid, mid.Keys, rows, rows.Keys, c);
    RegionOfChild(rows, rows.Keys, u, c);
    ParentIsOutside(rows, u, c);
    RegionRoot(rows, rows.Keys, u);
  }

  // ---------------------------------------------------------------- the methods

  class TaskRunStore {
    var rows: Rows
    var log: seq<Transition>

    function Value(): Database
      reads this
    {
      Database(rows, log)
    }

    constructor (rows: Rows)
      ensures Value() == Database(rows, [])
    {
      this.rows, this.log := rows, [];
    }

    method Transition(u: Uuid, newState: TaskState)
      requires u in rows
      modifies this
      ensures Value() == TransitionState(old(Value()), u, newState)
      ensures old(LogReplays(Value())) ==> LogReplays(Value())
    {
      if LogReplays(Value()) {
        TransitionKeepsReplay(Value(), u, newState);
      }
      var oldState := rows[u].state;
      if oldState == newState {
        return;
      }
      var row := rows[u];
      if newState == RUNNING {
        row := row.(runCount := row.runCount + 1);
      }
      row := row.(state := newState);
      rows := rows[u := row];
      log := log + [TaskRunStates.Transition(u, oldState, newState)];
    }

    /**
     Cancels exactly the runs reachable from `u` through runs that were not terminal beforehand, logs one
     transition for each, and terminates on any child relation, cycles included.
     */
    method CancelTaskRun(u: Uuid) returns (ghost changed: set<Uuid>)
      requires u in rows
      modifies this
      ensures changed == Region(old(rows), NonTerminal(old(rows)), u) <= NonTerminal(old(rows))
      ensures rows == MarkCancelled(old(rows), changed)
      ensures LoggedOnce(old(Value()), log, changed)
      ensures old(LogReplays(Value())) ==> LogReplays(Value())
      decreases |NonTerminal(rows)|
    {
      ghost var before := Value();
      RegionRoot(rows, NonTerminal(rows), u);
      if rows[u].state.Terminal() {
        MarkNothing(Value());
        return {};
      }
      CancelFirst(before, u);
      Transition(u, CANCELLED);
      changed := {u};
      var todo := Children(rows, u);
      while todo != {}
        invariant CancelState(before, u, changed, todo, Value())
        invariant old(LogReplays(Value())) ==> LogReplays(Value())
        decreases |todo|
      {
        var child :| child in todo;
        ghost var mid := Value();
        FewerNonTerminal(before.rows, changed, u);
        ghost var more := CancelTaskRun(child);
        CancelNext(before, u, changed, todo, mid, child, more, log);
        changed := changed + more;
        todo := todo - {child};
      }
      CancelDone(before.rows, u, changed);
    }

    /** One transition object is deleted. */
    method SessionDeleteTransition(i: nat)
      requires i < |log| && NoDangling(Value())
      modifies this`log
      ensures log == old(log)[..i] + old(log)[i + 1..] && NoDangling(Value())
    {
      log := log[..i] + log[i + 1..];
    }

    /** One row is deleted; the database refuses this while anything still refers to the row. */
    method SessionDeleteRow(u: Uuid)
      requires u in rows && NoDangling(Value())
      requires Children(rows, u) == {} && forall t :: t in log ==> t.uuid != u
      modifies this`rows
      ensures rows == old(rows) - {u} && NoDangling(Value())
    {
      rows := rows - {u};
    }

    method DeleteTransitions(u: Uuid)
      requires NoDangling(Value())
      modifies this`log
      ensures log == LogWithout(old(log), {u}) && NoDangling(Value())
    {
      var i := 0;
      ghost var original := log;
      while i < |log|
        invariant i <= |log| && NoDangling(Value())
        invariant ClearUpTo(log, u, i)
        invariant LogWithout(log, {u}) == LogWithout(original, {u})
        decreases |log| - i
      {
        ClearStep(log, u, i);
        if log[i].uuid == u {
          SessionDeleteTransition(i);
        } else {
          i := i + 1;
        }
      }
      AllClear(log, u);
    }

    /**
     Unless `u` is its own ancestor: removes exactly the subtree of `u` and its transitions. References are
     intact after every single delete, because each of them requires and ensures `NoDangling`.
     */
    method DeleteTaskRun(u: Uuid) returns (ghost gone: set<Uuid>)
      requires u in rows && !OwnAncestor(rows, u) && NoDangling(Value())
      modifies this
      ensures gone == Region(old(rows), old(rows).Keys, u)
      ensures Value() == DeleteFrom(old(Value()), gone)
      ensures rows == old(rows) - gone
      ensures forall t :: t in log <==> t in old(log) && t.uuid !in gone
      ensures NoDangling(Value())
      decreases Region(rows, rows.Keys, u)
    {
      ghost var before := Value();
      gone := {};
      var todo := Children(rows, u);
      DeleteNothing(before);
      while todo != {}
        invariant Deleting(before.rows, u, gone, todo)
        invariant Value() == DeleteFrom(before, gone) && NoDangling(Value())
        decreases |todo|
      {
        var child :| child in todo;
        DeletionDescends(before.rows, u, gone, todo, child);
        ghost var more := DeleteTaskRun(child);
        DeleteOneChild(before.rows, u, gone, todo, child, more);
        DeleteTwice(before, gone, more);
        gone := gone + more;
        todo := todo - {child};
      }
      DeleteTransitions(u);
      SessionDeleteRow(u);
      DeleteTwice(before, gone, {u});
      DeleteDone(before.rows, u, gone);
      gone := gone + {u};
    }

    /** SELECT: at most `limit` non-terminal runs with a heartbeat before the threshold, newest heartbeat first. */
    method SelectSilent(threshold: real, limit: nat) returns (batch: seq<Uuid>)
      ensures |batch| <= limit && NewestFirst(rows, batch)
      ensures forall u :: u in batch ==> u in Silent(rows, threshold)
      ensures forall u :: u in batch ==>
                rows[u].state !in {CANCELLED, FAILURE, SUCCESS, CACHED} && rows[u].heartbeat < threshold
      ensures |batch| < limit ==> forall u :: u in Silent(rows, threshold) ==> u in batch
      ensures forall u :: u in Silent(rows, threshold) && u !in batch
                          ==> forall v :: v in batch ==> rows[v].heartbeat >= rows[u].heartbeat
    {
      var left := Silent(rows, threshold);
      batch := [];
      while left != {} && |batch| < limit
        invariant |batch| <= limit && Selecting(rows, threshold, batch, left)
        decreases |left|
      {
        ghost var newest := NewestExists(rows, left);
        var next :| next in left && forall u :: u in left ==> rows[u].heartbeat <= rows[next].heartbeat;
        SelectNext(rows, threshold, batch, left, next);
        batch := batch + [next];
        left := left - {next};
      }
    }

    /**
     The sweep terminates, and after its last look at the clock no run that was silent for longer than the limit is
     left open. It changed runs only by cancelling them, and only runs below (or at) an open one that was silent
     for longer than the limit.
     */
    method Stonith(maxHeartbeatSeconds: real, batchSize: nat, clock: Clock)
      returns (ghost lastThreshold: real, ghost changed: set<Uuid>)
      requires batchSize >= 1
      modifies this, clock
      ensures old(clock.time) - maxHeartbeatSeconds <= lastThreshold <= clock.time - maxHeartbeatSeconds
      ensures forall u :: u in rows && rows[u].heartbeat < lastThreshold
                          ==> rows[u].state in {CANCELLED, FAILURE, SUCCESS, CACHED}
      ensures rows == MarkCancelled(old(rows), changed)
      ensures forall x :: x in changed ==>
                exists u :: && u in old(rows) && old(rows)[u].heartbeat < clock.time - maxHeartbeatSeconds
                            && x in Region(old(rows), NonTerminal(old(rows)), u)
      ensures old(LogReplays(Value())) ==> LogReplays(Value())
    {
      changed := {};
      MarkNothing(Value());
      lastThreshold := clock.time - maxHeartbeatSeconds;
      while true
        invariant rows == MarkCancelled(old(rows), changed) && SweptBelow(old(rows), lastThreshold, changed)
        invariant old(LogReplays(Value())) ==> LogReplays(Value())
        invariant old(clock.time) - maxHeartbeatSeconds <= lastThreshold <= clock.time - maxHeartbeatSeconds
        decreases |NonTerminal(rows)|
      {
        var now := clock.time;
        var heartbeatThreshold := now - maxHeartbeatSeconds;
        SweepLater(old(rows), lastThreshold, heartbeatThreshold, changed);
        lastThreshold := heartbeatThreshold;
        var taskRuns := SelectSilent(heartbeatThreshold, batchSize);
        assert forall i :: 0 <= i < |taskRuns| ==> taskRuns[i] in taskRuns;
        ghost var more := CancelBatch(taskRuns, heartbeatThreshold, old(rows), changed);
        BatchEffect(old(rows), heartbeatThreshold, changed, more, taskRuns);
        changed := more;
        clock.Sleep(1.0);
        if |taskRuns| < batchSize {
          break;
        }
      }
      NoneSilent(rows, lastThreshold);
      BelowSilent(old(rows), lastThreshold, clock.time - maxHeartbeatSeconds, changed);
    }

    /** The loop over one batch: afterwards every run of the batch is terminal. */
    method CancelBatch(batch: seq<Uuid>, threshold: real, ghost original: Rows, ghost changedBefore: set<Uuid>)
      returns (ghost changed: set<Uuid>)
      requires forall i :: 0 <= i < |batch| ==> batch[i] in Silent(rows, threshold)
      requires rows == MarkCancelled(original, changedBefore) && SweptBelow(original, threshold, changedBefore)
      modifies this
      ensures changedBefore <= changed
      ensures rows == MarkCancelled(original, changed) && SweptBelow(original, threshold, changed)
      ensures rows.Keys == old(rows).Keys
      ensures TerminalUpTo(rows, batch, |batch|)
      ensures old(LogReplays(Value())) ==> LogReplays(Value())
    {
      changed := changedBefore;
      for i := 0 to |batch|
        invariant changedBefore <= changed
        invariant rows == MarkCancelled(original, changed) && SweptBelow(original, threshold, changed)
        invariant rows.Keys == old(rows).Keys
        invariant TerminalUpTo(rows, batch, i)
        invariant old(LogReplays(Value())) ==> LogReplays(Value())
      {
        ghost var mid := rows;
        assert batch[i] in old(rows);
        RegionRoot(mid, NonTerminal(mid), batch[i]);
        ghost var more := CancelTaskRun(batch[i]);
        MarkTwice(original, changed, more);
        MarkKeepsTerminal(mid, more, batch, i);
        SweepOne(original, threshold, changed, batch[i], more);
        changed := changed + more;
      }
    }
  }

  ghost predicate TerminalUpTo(rows: Rows, batch: seq<Uuid>, n: nat)
    requires n <= |batch|
  {
    forall i :: 0 <= i < n ==> batch[i] in rows && rows[batch[i]].state.Terminal()
  }

  /** Cancelling the region of the next run of a batch makes that run terminal too. */
  lemma MarkKeepsTerminal(rows: Rows, more: set<Uuid>, batch: seq<Uuid>, i: nat)
    requires i < |batch| && TerminalUpTo(rows, batch, i) && batch[i] in rows
    requires batch[i] in NonTerminal(rows) ==> batch[i] in more
    ensures TerminalUpTo(MarkCancelled(rows, more), batch, i + 1)
  {
  }

  ghost predicate NewestFirst(rows: Rows, batch: seq<Uuid>) {
    && (forall i :: 0 <= i < |batch| ==> batch[i] in rows)
    && (forall i, j :: 0 <= i < j < |batch| ==>
          batch[i] != batch[j] && rows[batch[i]].heartbeat >= rows[batch[j]].heartbeat)
  }

  /** The batch so far and the silent runs not selected yet. */
  ghost predicate Selecting(rows: Rows, threshold: real, batch: seq<Uuid>, left: set<Uuid>) {
    && NewestFirst(rows, batch)
    && (forall u :: u in Silent(rows, threshold) <==> u in batch || u in left)
    && (forall u :: u in batch ==> u !in left)
    && (forall u, v :: u in left && v in batch ==> rows[v].heartbeat >= rows[u].heartbeat)
  }

  lemma SelectNext(rows: Rows, threshold: real, batch: seq<Uuid>, left: set<Uuid>, next: Uuid)
    requires Selecting(rows, threshold, batch, left)
    requires next in left && forall u :: u in left ==> rows[u].heartbeat <= rows[next].heartbeat
    ensures Selecting(rows, threshold, batch + [next], left - {next})
  {
    assert forall i :: 0 <= i < |batch| ==> batch[i] in batch;
  }

  function Silent(rows: Rows, threshold: real): set<Uuid> {
    set u | u in rows && !rows[u].state.Terminal() && rows[u].heartbeat < threshold
  }

  /** Only runs that were not terminal, and lie in the region of a silent run, were changed. */
  ghost predicate SweptBelow(rows: Rows, threshold: real, changed: set<Uuid>) {
    forall x :: x in changed ==>
      exists u :: u in Silent(rows, threshold) && x in Region(rows, NonTerminal(rows), u)
  }

  lemma NoneSilent(rows: Rows, threshold: real)
    requires Silent(rows, threshold) == {}
    ensures forall u :: u in rows && rows[u].heartbeat < threshold
                        ==> rows[u].state in {CANCELLED, FAILURE, SUCCESS, CACHED}
  {
    forall u | u in rows && rows[u].heartbeat < threshold
      ensures rows[u].state in {CANCELLED, FAILURE, SUCCESS, CACHED}
    {
      assert u !in Silent(rows, threshold);
    }
  }

  lemma BelowSilent(rows: Rows, threshold: real, limit: real, changed: set<Uuid>)
    requires SweptBelow(rows, threshold, changed) && threshold <= limit
    ensures forall x :: x in changed ==>
              exists u :: u in rows && rows[u].heartbeat < limit && x in Region(rows, NonTerminal(rows), u)
  {
    forall x | x in changed
      ensures exists u :: u in rows && rows[u].heartbeat < limit && x in Region(rows, NonTerminal(rows), u)
    {
      var u :| u in Silent(rows, threshold) && x in Region(rows, NonTerminal(rows), u);
      assert rows[u].heartbeat < limit;
    }
  }

  lemma SweepLater(rows: Rows, early: real, late: real, changed: set<Uuid>)
    requires SweptBelow(rows, early, changed) && early <= late
    ensures SweptBelow(rows, late, changed)
  {
    forall x | x in changed
      ensures exists u :: u in Silent(rows, late) && x in Region(rows, NonTerminal(rows), u)
    {
      var u :| u in Silent(rows, early) && x in Region(rows, NonTerminal(rows), u);
      assert u in Silent(rows, late);
    }
  }

  lemma SweepOne(rows: Rows, threshold: real, changed: set<Uuid>, u: Uuid, more: set<Uuid>)
    requires SweptBelow(rows, threshold, changed) && u in rows && rows[u].heartbeat < threshold
    requires var mid := MarkCancelled(rows, changed); more == Region(mid, NonTerminal(mid), u)
    ensures SweptBelow(rows, threshold, changed + more)
  {
    var mid := MarkCancelled(rows, changed);
    MarkTwice(rows, changed, {});
    RegionRoot(mid, NonTerminal(mid), u);
    RegionMonotone(mid, NonTerminal(mid), rows, NonTerminal(rows), u);
    if more != {} {
      assert u in Silent(rows, threshold);
    }
  }

  /** A cancelled batch leaves fewer non-terminal runs, and no silent one if it held them all. */
  lemma BatchEffect(rows: Rows, threshold: real, changed: set<Uuid>, more: set<Uuid>, batch: seq<Uuid>)
    requires changed <= more
    requires forall i :: 0 <= i < |batch| ==> batch[i] in Silent(MarkCancelled(rows, changed), threshold)
    requires TerminalUpTo(MarkCancelled(rows, more), batch, |batch|)
    ensures batch != [] ==> |NonTerminal(MarkCancelled(rows, more))| < |NonTerminal(MarkCancelled(rows, changed))|
    ensures (forall u :: u in Silent(MarkCancelled(rows, changed), threshold) ==> u in batch)
            ==> Silent(MarkCancelled(rows, more), threshold) == {}
  {
    var before, after := NonTerminal(MarkCancelled(rows, changed)), NonTerminal(MarkCancelled(rows, more));
    assert before == after + (before - after);
    if batch != [] {
      assert batch[0] in before - after;
    }
    forall u | u in Silent(MarkCancelled(rows, more), threshold)
      ensures u in Silent(MarkCancelled(rows, changed), threshold) && u !in batch
    {
    }
  }

  lemma {:induction false} NewestExists(rows: Rows, s: set<Uuid>) returns (newest: Uuid)
    requires s != {} && s <= rows.Keys
    ensures newest in s && forall u :: u in s ==> rows[u].heartbeat <= rows[newest].heartbeat
  {
    newest :| newest in s;
    if s != {newest} {
      assert s - {newest} != {};
      var other := NewestExists(rows, s - {newest});
      if rows[other].heartbeat > rows[newest].heartbeat {
        newest := other;
      }
    }
  }

  lemma MarkNothing(db: Database)
    ensures MarkCancelled(db.rows, {}) == db.rows && LoggedOnce(db, db.log, {})
  {
    forall u
      ensures LogOf(db.log, u) == LogOf(db.log, u) + []
    {
    }
  }

  lemma CancelRoot(db: Database, u: Uuid)
    requires u in NonTerminal(db.rows)
    ensures TransitionState(db, u, CANCELLED).rows == MarkCancelled(db.rows, {u})
    ensures LoggedOnce(db, TransitionState(db, u, CANCELLED).log, {u})
  {
    forall v
      ensures LogOf(TransitionState(db, u, CANCELLED).log, v)
           == LogOf(db.log, v) + if v == u then [Transition(u, db.rows[u].state, CANCELLED)] else []
    {
      LogOfAppended(db.log, Transition(u, db.rows[u].state, CANCELLED), v);
    }
  }

  /** The rows and the log of a cancellation in progress. */
  ghost predicate CancelState(before: Database, u: Uuid, changed: set<Uuid>, todo: set<Uuid>, now: Database) {
    && u in NonTerminal(before.rows) && changed <= before.rows.Keys
    && Cancelling(before.rows, u, changed, todo)
    && now.rows == MarkCancelled(before.rows, changed)
    && LoggedOnce(before, now.log, changed)
  }

  lemma CancelFirst(before: Database, u: Uuid)
    requires u in NonTerminal(before.rows)
    ensures var now := TransitionState(before, u, CANCELLED);
            CancelState(before, u, {u}, Children(now.rows, u), now)
  {
    CancelNothingYet(before.rows, u);
    CancelRoot(before, u);
    assert Children(MarkCancelled(before.rows, {u}), u) == Children(before.rows, u);
  }

  lemma CancelNext(before: Database, u: Uuid, changed: set<Uuid>, todo: set<Uuid>, mid: Database, c: Uuid,
                   more: set<Uuid>, log: seq<Transition>)
    requires CancelState(before, u, changed, todo, mid) && c in todo
    requires more == Region(mid.rows, NonTerminal(mid.rows), c) && LoggedOnce(mid, log, more)
    ensures CancelState(before, u, changed + more, todo - {c}, Database(MarkCancelled(mid.rows, more), log))
  {
    CancelOneChild(before.rows, u, changed, todo, c, more);
    MarkTwice(before.rows, changed, more);
    LoggedTwice(before, mid, log, changed, more);
  }

  lemma FewerNonTerminal(rows: Rows, changed: set<Uuid>, u: Uuid)
    requires u in changed && u in NonTerminal(rows)
    ensures |NonTerminal(MarkCancelled(rows, changed))| < |NonTerminal(rows)|
  {
    MarkTwice(rows, changed, {});
    var left := NonTerminal(MarkCancelled(rows, changed));
    assert NonTerminal(rows) == left + (NonTerminal(rows) - left);
    assert u in NonTerminal(rows) - left;
  }
}
