/** The query for the runs of one stack of task types: a chain of self-joins over the run table. */
module JoinChains {
  import opened TaskRunStates
  import opened Options
  import opened Ancestry

  datatype TableRow = TableRow(parent: Option<Uuid>, typeId: int, state: string, createdAt: int)

  /** The table in some scan order, with unique uuids. */
  datatype Table = Table(order: seq<Uuid>, rows: map<Uuid, TableRow>) {
    ghost predicate Valid() {
      && (forall u :: u in order <==> u in rows)
      && (forall i, j :: 0 <= i < j < |order| ==> order[i] != order[j])
    }
  }

  function ParentsOf(t: Table): Parents {
    map u | u in t.rows :: t.rows[u].parent
  }

  /** One row of the joined result: the selected run and the row of the table joined last. */
  datatype Binding = Binding(first: Uuid, last: Uuid)

  predicate PassesStates(row: TableRow, states: seq<string>) {
    states == [] || row.state in states
  }

  ghost predicate FirstsDiffer(bindings: seq<Binding>) {
    forall i, j :: 0 <= i < j < |bindings| ==> bindings[i].first != bindings[j].first
  }

  ghost predicate AllDiffer(runs: seq<Uuid>) {
    forall i, j :: 0 <= i < j < |runs| ==> runs[i] != runs[j]
  }

  /** SELECT with the type and state filters. */
  function SelectRuns(order: seq<Uuid>, rows: map<Uuid, TableRow>, typeId: int, states: seq<string>): seq<Binding>
    requires forall u :: u in order ==> u in rows
  {
    if order == [] then []
    else
      (if rows[order[0]].typeId == typeId && PassesStates(rows[order[0]], states)
       then [Binding(order[0], order[0])] else [])
      + SelectRuns(order[1..], rows, typeId, states)
  }

  /** JOIN one binding with the rows whose uuid is its last row's parent, and filter by type. */
  function JoinOne(b: Binding, order: seq<Uuid>, rows: map<Uuid, TableRow>, typeId: int): seq<Binding>
    requires b.last in rows && forall u :: u in order ==> u in rows
  {
    if order == [] then []
    else
      (if rows[b.last].parent == Some(order[0]) && rows[order[0]].typeId == typeId
       then [Binding(b.first, order[0])] else [])
      + JoinOne(b, order[1..], rows, typeId)
  }

  function JoinParent(bindings: seq<Binding>, t: Table, typeId: int): seq<Binding>
    requires forall b :: b in bindings ==> b.last in t.rows
    requires forall u :: u in t.order ==> u in t.rows
  {
    if bindings == [] then []
    else JoinOne(bindings[0], t.order, t.rows, typeId) + JoinParent(bindings[1..], t, typeId)
  }

  function RootsOnly(bindings: seq<Binding>, t: Table): seq<Uuid>
    requires forall b :: b in bindings ==> b.last in t.rows
  {
    if bindings == [] then []
    else (if t.rows[bindings[0].last].parent == None then [bindings[0].first] else []) + RootsOnly(bindings[1..], t)
  }

  // ---------------------------------------------------------------- the reference: ancestry

  /** The ancestor `n` steps up. */
  function Ancestor(t: Table, u: Uuid, n: nat): Option<Uuid>
    requires u in t.rows
  {
    if n == 0 then Some(u)
    else
      var below := Ancestor(t, u, n - 1);
      if below.Some? && below.value in t.rows && t.rows[below.value].parent.Some?
         && t.rows[below.value].parent.value in t.rows
      then t.rows[below.value].parent else None
  }

  predicate TypeAt(t: Table, u: Uuid, m: nat, typeId: int)
    requires u in t.rows
  {
    var a := Ancestor(t, u, m);
    a.Some? && a.value in t.rows && t.rows[a.value].typeId == typeId
  }

  predicate LevelFits(t: Table, u: Uuid, typeIds: seq<int>, m: nat)
    requires u in t.rows && m < |typeIds|
  {
    TypeAt(t, u, m, typeIds[|typeIds| - 1 - m])
  }

  /** `u` and its nearest ancestors have the last `n` of the given types, and `u` passes the filter. */
  ghost predicate Matches(t: Table, u: Uuid, typeIds: seq<int>, states: seq<string>, n: nat)
    requires n <= |typeIds|
  {
    && u in t.rows && PassesStates(t.rows[u], states)
    && (forall m :: 0 <= m < n ==> LevelFits(t, u, typeIds, m))
  }

  ghost predicate Fits(t: Table, b: Binding, typeIds: seq<int>, states: seq<string>, n: nat)
    requires 0 < n <= |typeIds|
  {
    Matches(t, b.first, typeIds, states, n) && Ancestor(t, b.first, n - 1) == Some(b.last)
  }

  /** The joined rows after `n` tables: one for each matching run, with its ancestor joined last. */
  ghost predicate Joined(t: Table, bindings: seq<Binding>, typeIds: seq<int>, states: seq<string>, n: nat)
    requires 0 < n <= |typeIds|
  {
    && (forall b :: b in bindings ==> b.last in t.rows)
    && (forall b :: b in bindings <==> Fits(t, b, typeIds, states, n))
    && FirstsDiffer(bindings)
  }

  lemma {:induction false} SelectFacts(order: seq<Uuid>, rows: map<Uuid, TableRow>, typeId: int, states: seq<string>)
    requires forall u :: u in order ==> u in rows
    requires forall i, j :: 0 <= i < j < |order| ==> order[i] != order[j]
    ensures var r := SelectRuns(order, rows, typeId, states);
            && (forall b :: b in r <==> b.first == b.last && b.first in order && rows[b.first].typeId == typeId
                                        && PassesStates(rows[b.first], states))
            && FirstsDiffer(r)
  {
    if order != [] {
      SelectFacts(order[1..], rows, typeId, states);
      assert order == [order[0]] + order[1..];
      var rest := SelectRuns(order[1..], rows, typeId, states);
      forall i | 0 <= i < |rest|
        ensures rest[i].first != order[0]
      {
        assert rest[i] in rest;
      }
    }
  }

  lemma {:induction false} JoinOneFacts(b: Binding, order: seq<Uuid>, rows: map<Uuid, TableRow>, typeId: int)
    requires b.last in rows && forall u :: u in order ==> u in rows
    requires forall i, j :: 0 <= i < j < |order| ==> order[i] != order[j]
    ensures var p := rows[b.last].parent;
            JoinOne(b, order, rows, typeId) ==
            if p.Some? && p.value in order && rows[p.value].typeId == typeId then [Binding(b.first, p.value)] else []
  {
    if order != [] {
      var rest := order[1..];
      JoinOneFacts(b, rest, rows, typeId);
      assert forall u :: u in order <==> u == order[0] || u in rest;
      assert order[0] !in rest;
    }
  }

  /** `b` extends `a` by the parent of its last row. */
  predicate Extends(t: Table, a: Binding, b: Binding, typeId: int) {
    && b.first == a.first && a.last in t.rows && t.rows[a.last].parent == Some(b.last)
    && b.last in t.rows && t.rows[b.last].typeId == typeId
  }

  ghost predicate ExtendsSome(t: Table, bindings: seq<Binding>, b: Binding, typeId: int) {
    exists a :: a in bindings && Extends(t, a, b, typeId)
  }

  lemma ExtendsSplit(t: Table, bindings: seq<Binding>, b: Binding, typeId: int)
    requires bindings != []
    ensures ExtendsSome(t, bindings, b, typeId)
            <==> Extends(t, bindings[0], b, typeId) || ExtendsSome(t, bindings[1..], b, typeId)
  {
    assert bindings == [bindings[0]] + bindings[1..];
    assert bindings[0] in bindings;
  }

  lemma FirstsDifferCons(head: Binding, joined: seq<Binding>, rest: seq<Binding>)
    requires joined == [] || (|joined| == 1 && joined[0].first == head.first)
    requires FirstsDiffer(rest) && forall b :: b in rest ==> b.first != head.first
    ensures FirstsDiffer(joined + rest)
  {
    assert forall i :: 0 <= i < |rest| ==> rest[i] in rest;
  }

  lemma {:induction false} JoinParentFacts(bindings: seq<Binding>, t: Table, typeId: int)
    requires t.Valid() && forall b :: b in bindings ==> b.last in t.rows
    requires FirstsDiffer(bindings)
    ensures forall b :: b in JoinParent(bindings, t, typeId) <==> ExtendsSome(t, bindings, b, typeId)
    ensures FirstsDiffer(JoinParent(bindings, t, typeId))
  {
    if bindings != [] {
      var head := bindings[0];
      JoinOneFacts(head, t.order, t.rows, typeId);
      JoinParentFacts(bindings[1..], t, typeId);
      var joined, rest := JoinOne(head, t.order, t.rows, typeId), JoinParent(bindings[1..], t, typeId);
      forall b
        ensures ExtendsSome(t, bindings, b, typeId) <==> b in joined || b in rest
      {
        ExtendsSplit(t, bindings, b, typeId);
      }
      forall b | b in rest
        ensures b.first != head.first
      {
        var a :| a in bindings[1..] && Extends(t, a, b, typeId);
      }
      FirstsDifferCons(head, joined, rest);
    }
  }

  predicate IsRootBinding(t: Table, b: Binding) {
    b.last in t.rows && t.rows[b.last].parent == None
  }

  ghost predicate HasRoot(t: Table, bindings: seq<Binding>, u: Uuid) {
    exists b :: b in bindings && b.first == u && IsRootBinding(t, b)
  }

  lemma {:induction false} RootsFacts(bindings: seq<Binding>, t: Table)
    requires forall b :: b in bindings ==> b.last in t.rows
    requires FirstsDiffer(bindings)
    ensures forall u :: u in RootsOnly(bindings, t) <==> HasRoot(t, bindings, u)
    ensures AllDiffer(RootsOnly(bindings, t))
  {
    if bindings != [] {
      var head := bindings[0];
      RootsFacts(bindings[1..], t);
      assert bindings == [head] + bindings[1..];
      var rest := RootsOnly(bindings[1..], t);
      forall u
        ensures HasRoot(t, bindings, u) <==> (u == head.first && IsRootBinding(t, head)) || HasRoot(t, bindings[1..], u)
      {
        if u == head.first && IsRootBinding(t, head) {
          assert head in bindings;
        }
      }
      assert !HasRoot(t, bindings[1..], head.first);
      assert head.first !in rest;
      assert forall i :: 0 <= i < |rest| ==> rest[i] in rest;
      assert RootsOnly(bindings, t) == (if IsRootBinding(t, head) then [head.first] else []) + rest;
    }
  }

  lemma FirstTable(t: Table, typeIds: seq<int>, states: seq<string>)
    requires t.Valid() && typeIds != []
    ensures Joined(t, SelectRuns(t.order, t.rows, typeIds[|typeIds| - 1], states), typeIds, states, 1)
  {
    var r := SelectRuns(t.order, t.rows, typeIds[|typeIds| - 1], states);
    SelectFacts(t.order, t.rows, typeIds[|typeIds| - 1], states);
    forall b: Binding
      ensures b in r <==> Fits(t, b, typeIds, states, 1)
    {
      if b.first in t.rows {
        assert Ancestor(t, b.first, 0) == Some(b.first);
        assert LevelFits(t, b.first, typeIds, 0) == (t.rows[b.first].typeId == typeIds[|typeIds| - 1]);
      }
    }
  }

  lemma StepUp(t: Table, a: Binding, b: Binding, typeIds: seq<int>, states: seq<string>, n: nat)
    requires 0 < n < |typeIds| && Fits(t, a, typeIds, states, n) && Extends(t, a, b, typeIds[|typeIds| - 1 - n])
    ensures Fits(t, b, typeIds, states, n + 1)
  {
    assert Ancestor(t, b.first, n) == Some(b.last);
    assert LevelFits(t, b.first, typeIds, n);
  }

  lemma StepDown(t: Table, b: Binding, typeIds: seq<int>, states: seq<string>, n: nat) returns (a: Binding)
    requires 0 < n < |typeIds| && Fits(t, b, typeIds, states, n + 1)
    ensures Fits(t, a, typeIds, states, n) && Extends(t, a, b, typeIds[|typeIds| - 1 - n])
  {
    assert LevelFits(t, b.first, typeIds, n);
    a := Binding(b.first, Ancestor(t, b.first, n - 1).value);
  }

  lemma NextTable(t: Table, bindings: seq<Binding>, typeIds: seq<int>, states: seq<string>, n: nat)
    requires t.Valid() && 0 < n < |typeIds| && Joined(t, bindings, typeIds, states, n)
    ensures Joined(t, JoinParent(bindings, t, typeIds[|typeIds| - 1 - n]), typeIds, states, n + 1)
  {
    var typeId := typeIds[|typeIds| - 1 - n];
    var r := JoinParent(bindings, t, typeId);
    JoinParentFacts(bindings, t, typeId);
    forall b: Binding
      ensures b in r <==> Fits(t, b, typeIds, states, n + 1)
    {
      if b in r {
        assert ExtendsSome(t, bindings, b, typeId);
        var a :| a in bindings && Extends(t, a, b, typeId);
        StepUp(t, a, b, typeIds, states, n);
      }
      if Fits(t, b, typeIds, states, n + 1) {
        var a := StepDown(t, b, typeIds, states, n);
        assert a in bindings;
      }
    }
  }

  // ---------------------------------------------------------------- order and limit

  /** ORDER BY created_at DESC, by insertion. */
  function InsertNewest(u: Uuid, sorted: seq<Uuid>, t: Table): seq<Uuid>
    requires u in t.rows && forall v :: v in sorted ==> v in t.rows
  {
    if sorted == [] || t.rows[u].createdAt >= t.rows[sorted[0]].createdAt then [u] + sorted
    else [sorted[0]] + InsertNewest(u, sorted[1..], t)
  }

  ghost predicate NewestFirst(t: Table, runs: seq<Uuid>) {
    && (forall i :: 0 <= i < |runs| ==> runs[i] in t.rows)
    && (forall i, j :: 0 <= i < j < |runs| ==>
          runs[i] != runs[j] && t.rows[runs[i]].createdAt >= t.rows[runs[j]].createdAt)
  }

  lemma {:induction false} InsertFacts(u: Uuid, sorted: seq<Uuid>, t: Table)
    requires u in t.rows && u !in sorted && NewestFirst(t, sorted)
    ensures var r := InsertNewest(u, sorted, t);
            && |r| == |sorted| + 1
            && (forall v :: v in r <==> v == u || v in sorted)
            && NewestFirst(t, r)
  {
    if sorted != [] && t.rows[u].createdAt < t.rows[sorted[0]].createdAt {
      InsertFacts(u, sorted[1..], t);
      assert sorted == [sorted[0]] + sorted[1..];
      var rest := InsertNewest(u, sorted[1..], t);
      forall i | 0 <= i < |rest|
        ensures rest[i] != sorted[0] && t.rows[sorted[0]].createdAt >= t.rows[rest[i]].createdAt
      {
        assert rest[i] in rest;
      }
    }
  }

  const MAX_RESULTS: nat := 100

  datatype Result<+T> = Success(value: T) | BadRequest

  /** The run's whole ancestry, root first, has exactly these types, and the run passes the state filter. */
  ghost predicate HasTypeStack(t: Table, u: Uuid, typeIds: seq<int>, states: seq<string>) {
    && u in t.rows && (states == [] || t.rows[u].state in states)
    && exists stack :: IsStack(ParentsOf(t), stack) && stack[|stack| - 1] == u && TypesOf(t, stack) == typeIds
  }

  ghost function TypesOf(t: Table, stack: seq<Uuid>): seq<int> {
    seq(|stack|, i requires 0 <= i < |stack| => if stack[i] in t.rows then t.rows[stack[i]].typeId else 0)
  }

  ghost function AncestorStack(t: Table, u: Uuid, n: nat): (stack: seq<Uuid>)
    requires u in t.rows
    ensures |stack| == n
  {
    seq(n, i requires 0 <= i < n => var a := Ancestor(t, u, n - 1 - i); if a.Some? then a.value else u)
  }

  lemma AncestorsAreAChain(t: Table, u: Uuid, n: nat)
    requires u in t.rows && forall m :: 0 <= m < n ==> Ancestor(t, u, m).Some? && Ancestor(t, u, m).value in t.rows
    ensures IsChain(ParentsOf(t), AncestorStack(t, u, n))
  {
    var stack := AncestorStack(t, u, n);
    forall i | 0 <= i < n
      ensures Ancestor(t, u, n - 1 - i) == Some(stack[i]) && stack[i] in t.rows
    {
    }
    forall i | 0 < i < n
      ensures ParentsOf(t)[stack[i]] == Some(stack[i - 1])
    {
      assert Ancestor(t, u, n - i) == Some(stack[i - 1]) && Ancestor(t, u, n - i - 1) == Some(stack[i]);
    }
  }

  /** A full match that ends at a root is a type stack ... */
  lemma MatchIsStack(t: Table, u: Uuid, typeIds: seq<int>, states: seq<string>, root: Uuid)
    requires typeIds != [] && Fits(t, Binding(u, root), typeIds, states, |typeIds|)
    requires root in t.rows && t.rows[root].parent == None
    ensures HasTypeStack(t, u, typeIds, states)
  {
    var n := |typeIds|;
    var stack := AncestorStack(t, u, n);
    forall m | 0 <= m < n
      ensures Ancestor(t, u, m).Some? && Ancestor(t, u, m).value in t.rows
    {
      assert LevelFits(t, u, typeIds, m);
    }
    AncestorsAreAChain(t, u, n);
    assert stack[0] == root && ParentsOf(t)[root] == None;
    assert Ancestor(t, u, 0) == Some(u);
    forall i | 0 <= i < n
      ensures TypesOf(t, stack)[i] == typeIds[i]
    {
      assert LevelFits(t, u, typeIds, n - 1 - i);
    }
    assert TypesOf(t, stack) == typeIds;
  }

  /** ... and the other way round. */
  lemma {:induction false} StackGivesAncestors(t: Table, stack: seq<Uuid>, m: nat)
    requires IsStack(ParentsOf(t), stack) && m < |stack|
    ensures stack[|stack| - 1] in t.rows && stack[|stack| - 1 - m] in t.rows
    ensures Ancestor(t, stack[|stack| - 1], m) == Some(stack[|stack| - 1 - m])
  {
    assert stack[|stack| - 1] in ParentsOf(t) && stack[|stack| - 1 - m] in ParentsOf(t);
    if m > 0 {
      StackGivesAncestors(t, stack, m - 1);
      var below := stack[|stack| - m];
      assert ParentsOf(t)[below] == Some(stack[|stack| - 1 - m]);
    }
  }

  lemma StackLevels(t: Table, stack: seq<Uuid>, typeIds: seq<int>, m: nat)
    requires IsStack(ParentsOf(t), stack) && TypesOf(t, stack) == typeIds && m < |stack|
    ensures stack[|stack| - 1] in t.rows && LevelFits(t, stack[|stack| - 1], typeIds, m)
  {
    var i := |stack| - 1 - m;
    StackGivesAncestors(t, stack, m);
    assert TypesOf(t, stack)[i] == t.rows[stack[i]].typeId;
  }

  lemma StackIsMatch(t: Table, u: Uuid, typeIds: seq<int>, states: seq<string>) returns (root: Uuid)
    requires typeIds != [] && HasTypeStack(t, u, typeIds, states)
    ensures Fits(t, Binding(u, root), typeIds, states, |typeIds|)
    ensures root in t.rows && t.rows[root].parent == None
  {
    var stack :| IsStack(ParentsOf(t), stack) && stack[|stack| - 1] == u && TypesOf(t, stack) == typeIds;
    var n := |typeIds|;
    forall m | 0 <= m < n
      ensures LevelFits(t, u, typeIds, m)
    {
      StackLevels(t, stack, typeIds, m);
    }
    root := stack[0];
    StackGivesAncestors(t, stack, n - 1);
    assert ParentsOf(t)[root] == None;
  }

  /** The joined rows whose last table row is a root select exactly the runs with the given type stack. */
  lemma JoinedRoots(t: Table, bindings: seq<Binding>, typeIds: seq<int>, states: seq<string>, u: Uuid)
    requires typeIds != [] && Joined(t, bindings, typeIds, states, |typeIds|)
    ensures HasRoot(t, bindings, u) <==> HasTypeStack(t, u, typeIds, states)
  {
    if HasRoot(t, bindings, u) {
      var b :| b in bindings && b.first == u && IsRootBinding(t, b);
      assert Fits(t, b, typeIds, states, |typeIds|);
      MatchIsStack(t, u, typeIds, states, b.last);
    }
    if HasTypeStack(t, u, typeIds, states) {
      var root := StackIsMatch(t, u, typeIds, states);
      assert Binding(u, root) in bindings && IsRootBinding(t, Binding(u, root));
    }
  }

  method OrderByNewest(runs: seq<Uuid>, t: Table) returns (sorted: seq<Uuid>)
    requires forall i :: 0 <= i < |runs| ==> runs[i] in t.rows
    requires AllDiffer(runs)
    ensures NewestFirst(t, sorted) && |sorted| == |runs|
    ensures forall u :: u in sorted <==> u in runs
  {
    sorted := [];
    for i := 0 to |runs|
      invariant NewestFirst(t, sorted) && |sorted| == i
      invariant forall u :: u in sorted <==> u in runs[..i]
    {
      assert runs[i] !in runs[..i];
      InsertFacts(runs[i], sorted, t);
      sorted := InsertNewest(runs[i], sorted, t);
      assert runs[..i + 1] == runs[..i] + [runs[i]];
    }
    assert runs[..|runs|] == runs;
  }

  /** Cutting a newest-first list keeps the newest. */
  lemma NewestPrefix(t: Table, sorted: seq<Uuid>, n: nat)
    requires NewestFirst(t, sorted) && n <= |sorted|
    ensures NewestFirst(t, sorted[..n])
    ensures forall u, v :: u in sorted && u !in sorted[..n] && v in sorted[..n]
                           ==> t.rows[v].createdAt >= t.rows[u].createdAt
  {
    assert sorted == sorted[..n] + sorted[n..];
  }

  /** Selected without duplicates, exactly the runs with the type stack. */
  ghost predicate Selects(t: Table, runs: seq<Uuid>, typeIds: seq<int>, states: seq<string>) {
    && AllDiffer(runs)
    && (forall u :: u in runs <==> HasTypeStack(t, u, typeIds, states))
  }

  lemma RootsSelect(t: Table, bindings: seq<Binding>, typeIds: seq<int>, states: seq<string>)
    requires typeIds != [] && Joined(t, bindings, typeIds, states, |typeIds|)
    ensures Selects(t, RootsOnly(bindings, t), typeIds, states)
  {
    RootsFacts(bindings, t);
    forall u
      ensures u in RootsOnly(bindings, t) <==> HasTypeStack(t, u, typeIds, states)
    {
      JoinedRoots(t, bindings, typeIds, states, u);
    }
  }

  /** One turn of the loop, which walks the types from the last to the first. */
  lemma NextStatement(t: Table, statement: seq<Binding>, typeIds: seq<int>, states: seq<string>, i: nat)
    requires t.Valid() && i < |typeIds| - 1 && Joined(t, statement, typeIds, states, |typeIds| - 1 - i)
    ensures Joined(t, JoinParent(statement, t, typeIds[i]), typeIds, states, |typeIds| - i)
  {
    NextTable(t, statement, typeIds, states, |typeIds| - 1 - i);
  }

  /** The iterated self-join equals ancestry: it selects exactly the runs whose ancestry has the given types. */
  method SelectByJoins(t: Table, taskTypeIds: seq<int>, states: seq<string>) returns (selected: seq<Uuid>)
    requires t.Valid() && taskTypeIds != []
    ensures Selects(t, selected, taskTypeIds, states)
  {
    var n := |taskTypeIds|;
    FirstTable(t, taskTypeIds, states);
    var statement := SelectRuns(t.order, t.rows, taskTypeIds[n - 1], states);
    for i := n - 1 downto 0
      invariant Joined(t, statement, taskTypeIds, states, n - i)
    {
      NextStatement(t, statement, taskTypeIds, states, i);
      statement := JoinParent(statement, t, taskTypeIds[i]);
    }
    RootsSelect(t, statement, taskTypeIds, states);
    selected := RootsOnly(statement, t);
  }

  /** The query: newest first, and of more than the maximum the newest. */
  method GetTaskTypeStackRuns(t: Table, taskTypeIds: seq<int>, states: seq<string>) returns (r: Result<seq<Uuid>>)
    requires t.Valid()
    ensures r.BadRequest? <==> taskTypeIds == []
    ensures r.Success? ==> NewestFirst(t, r.value) && |r.value| <= 100
    ensures r.Success? ==> forall u :: u in r.value ==> HasTypeStack(t, u, taskTypeIds, states)
    ensures r.Success? ==> forall u :: HasTypeStack(t, u, taskTypeIds, states) && u !in r.value ==>
              |r.value| == 100 && forall v :: v in r.value ==> t.rows[v].createdAt >= t.rows[u].createdAt
  {
    if |taskTypeIds| == 0 {
      return BadRequest;
    }
    var selected := SelectByJoins(t, taskTypeIds, states);
    assert forall i :: 0 <= i < |selected| ==> selected[i] in selected;
    var sorted := OrderByNewest(selected, t);
    var limit := if |sorted| > MAX_RESULTS then MAX_RESULTS else |sorted|;
    NewestPrefix(t, sorted, limit);
    assert sorted[..|sorted|] == sorted;
    r := Success(sorted[..limit]);
  }
}
