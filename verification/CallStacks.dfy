/**
 Call stacks in context variables, and the parents that get recorded from them. Every process, spawned
 task and call owns a context; spawning copies the stack, and push and pop replace it in one context only.
 */
module CallStacks {
  import opened TaskRunStates
  import opened Options
  import opened Ancestry

  /** A run object; the same run may have one object in the caller's process and one in a worker. */
  datatype Run = Run(uuid: Uuid, handle: nat)

  type Stack = seq<Run>

  function Push(stack: Stack, run: Run): Stack { stack + [run] }

  function Pop(stack: Stack): Stack { if |stack| > 0 then stack[..|stack| - 1] else stack }

  function Peek(stack: Stack): Option<Run> { if |stack| == 0 then None else Some(stack[|stack| - 1]) }

  /** The context variable as one context sees it. Lists are copied, never changed. */
  class ContextVar {
    var current: Stack

    constructor (inherited: Stack)
      ensures current == inherited
    {
      current := inherited;
    }

    method PushTaskRun(run: Run)
      modifies this
      ensures current == Push(old(current), run)
      ensures Pop(current) == old(current) && Peek(current) == Some(run)
    {
      current := current + [run];
    }

    method PopTaskRun()
      modifies this
      ensures current == Pop(old(current))
      ensures old(current) != [] ==> Push(current, Peek(old(current)).value) == old(current)
      ensures old(current) == [] ==> current == []
    {
      if |current| > 0 {
        current := current[..|current| - 1];
      }
    }

    method PeekTaskRun() returns (top: Option<Run>)
      ensures top == Peek(current)
      ensures top.None? <==> current == []
      ensures top.Some? ==> Push(Pop(current), top.value) == current
    {
      if |current| == 0 {
        return None;
      }
      return Some(current[|current| - 1]);
    }
  }

  function Pushes(stack: Stack, runs: seq<Run>): Stack
    decreases runs
  {
    if runs == [] then stack else Pushes(Push(stack, runs[0]), runs[1..])
  }

  function Pops(stack: Stack, n: nat): Stack {
    if n == 0 then stack else Pops(Pop(stack), n - 1)
  }

  lemma {:induction false} PushesAppend(stack: Stack, runs: seq<Run>)
    ensures Pushes(stack, runs) == stack + runs
    decreases runs
  {
    if runs != [] {
      PushesAppend(Push(stack, runs[0]), runs[1..]);
      assert stack + [runs[0]] + runs[1..] == stack + runs;
    }
  }

  lemma {:induction false} PopsDrop(stack: Stack, n: nat)
    requires n <= |stack|
    ensures Pops(stack, n) == stack[..|stack| - n]
  {
    if n > 0 {
      PopsDrop(Pop(stack), n - 1);
      assert Pop(stack)[..|stack| - n] == stack[..|stack| - n];
    }
  }

  /** Frames nest: after any number of pushes, fewer pops bring the earlier runs back to the top in turn. */
  lemma FramesNest(stack: Stack, runs: seq<Run>, n: nat)
    requires n <= |runs|
    ensures Pops(Pushes(stack, runs), n) == Pushes(stack, runs[..|runs| - n])
    ensures n < |runs| ==> Peek(Pops(Pushes(stack, runs), n)) == Some(runs[|runs| - 1 - n])
    ensures n == |runs| ==> Pops(Pushes(stack, runs), n) == stack
  {
    PushesAppend(stack, runs);
    PushesAppend(stack, runs[..|runs| - n]);
    PopsDrop(stack + runs, n);
    assert (stack + runs)[..|stack + runs| - n] == stack + runs[..|runs| - n];
    assert n == |runs| ==> stack + runs[..0] == stack;
  }

  // ---------------------------------------------------------------- the machine

  /** A started run object: the stack copied when it was started, and the context of its body once spawned. */
  datatype Call = Call(base: Stack, context: Option<nat>)

  /**
   `parents` are the recorded rows in the order of `rowOrder`. `ownRow` holds the run objects whose own start
   recorded the row; the others found a row that a request had recorded before.
   */
  datatype State = State(
    contexts: seq<Stack>,
    calls: map<Run, Call>,
    inBody: set<Run>,
    parents: Parents,
    rowOrder: seq<Uuid>,
    ownRow: set<Run>)

  datatype Step =
    | NewProcess
    | Spawn(context: nat)
    | Request(context: nat, run: Run)
    | Start(context: nat, run: Run)
    | BeforeCall(run: Run)
    | SpawnCall(run: Run)
    | EnterBody(run: Run)
    | LeaveBody(run: Run)

  predicate Init(s: State) {
    s == State([], map[], {}, map[], [], {})
  }

  /** No object of this run was started yet, and its row was not recorded. */
  predicate Unknown(s: State, u: Uuid) {
    u !in s.parents && forall r :: r in s.calls ==> r.uuid != u
  }

  /**
   A run is requested by the code that creates it, possibly after it was started there on creation. Only a run
   that has a row already can get a second object: workers learn of a run after the caller recorded it.
   */
  predicate Enabled(s: State, step: Step) {
    match step
    case NewProcess => true
    case Spawn(context) => context < |s.contexts|
    case Request(context, run) =>
      && context < |s.contexts|
      && (Unknown(s, run.uuid) || (run in s.calls && s.calls[run].base == s.contexts[context]))
    case Start(context, run) =>
      && context < |s.contexts|
      && (Unknown(s, run.uuid) || run in s.calls || run.uuid in s.parents)
    case BeforeCall(run) => run in s.calls
    case SpawnCall(run) => run in s.calls && s.calls[run].context.None? && run.uuid in s.parents
    case EnterBody(run) => HasBody(s, run) && run !in s.inBody
    case LeaveBody(run) => HasBody(s, run) && run in s.inBody
  }

  predicate HasBody(s: State, run: Run) {
    run in s.calls && s.calls[run].context.Some? && s.calls[run].context.value < |s.contexts|
  }

  /** Check, then insert: the row records the top of the given stack as its parent. */
  function Register(s: State, run: Run, stack: Stack): State {
    if run.uuid in s.parents then s
    else s.(
      parents := s.parents[run.uuid := UuidOf(Peek(stack))],
      rowOrder := s.rowOrder + [run.uuid])
  }

  function UuidOf(run: Option<Run>): Option<Uuid> {
    if run.Some? then Some(run.value.uuid) else None
  }

  function Next(s: State, step: Step): State
    requires Enabled(s, step)
  {
    match step
    case NewProcess => s.(contexts := s.contexts + [[]])
    case Spawn(context) => s.(contexts := s.contexts + [s.contexts[context]])
    case Request(context, run) => Register(s, run, s.contexts[context])
    case Start(context, run) =>
      if run in s.calls then s else s.(calls := s.calls[run := Call(s.contexts[context], None)])
    case BeforeCall(run) =>
      Register(s, run, s.calls[run].base).(ownRow := s.ownRow + if run.uuid in s.parents then {} else {run})
    case SpawnCall(run) =>
      var call := s.calls[run].(context := Some(|s.contexts|));
      s.(contexts := s.contexts + [call.base], calls := s.calls[run := call])
    case EnterBody(run) =>
      var k := s.calls[run].context.value;
      s.(contexts := s.contexts[k := Push(s.contexts[k], run)], inBody := s.inBody + {run})
    case LeaveBody(run) =>
      var k := s.calls[run].context.value;
      s.(contexts := s.contexts[k := Pop(s.contexts[k])], inBody := s.inBody - {run})
  }

  ghost predicate IsRun(states: seq<State>, steps: seq<Step>) {
    && |states| == |steps| + 1
    && Init(states[0])
    && (forall i :: 0 <= i < |steps| ==> Enabled(states[i], steps[i]) && states[i + 1] == Next(states[i], steps[i]))
  }

  // ---------------------------------------------------------------- invariant

  /** All runs of a stack have rows; one that recorded its own row is the child of the run below it. */
  ghost predicate StackOk(s: State, stack: Stack) {
    forall i :: 0 <= i < |stack| ==>
      && stack[i].uuid in s.parents
      && (stack[i] in s.ownRow ==> s.parents[stack[i].uuid] == UuidOf(Peek(stack[..i])))
  }

  ghost predicate CallOk(s: State, run: Run) {
    run in s.calls ==>
      && StackOk(s, s.calls[run].base)
      && (run in s.ownRow ==> run.uuid in s.parents && s.parents[run.uuid] == UuidOf(Peek(s.calls[run].base)))
      && (s.calls[run].context.Some? ==>
            && run.uuid in s.parents
            && s.calls[run].context.value < |s.contexts|
            && s.contexts[s.calls[run].context.value]
               == s.calls[run].base + if run in s.inBody then [run] else [])
      && (s.calls[run].context.None? ==> run !in s.inBody)
  }

  ghost predicate CallsApart(s: State) {
    forall q, r :: q in s.calls && r in s.calls && q != r && s.calls[q].context.Some?
                   ==> s.calls[q].context != s.calls[r].context
  }

  /** Rows are recorded once, and a row's parent was recorded before it. */
  ghost predicate RowsOk(s: State) {
    && (forall u :: u in s.parents <==> u in s.rowOrder)
    && (forall i, j :: 0 <= i < j < |s.rowOrder| ==> s.rowOrder[i] != s.rowOrder[j])
    && (forall i :: 0 <= i < |s.rowOrder| && s.parents[s.rowOrder[i]].Some?
                    ==> s.parents[s.rowOrder[i]].value in s.rowOrder[..i])
  }

  ghost predicate Inv(s: State) {
    && (forall k :: 0 <= k < |s.contexts| ==> StackOk(s, s.contexts[k]))
    && (forall run :: run in s.calls ==> CallOk(s, run))
    && s.ownRow <= s.calls.Keys && s.inBody <= s.calls.Keys
    && CallsApart(s)
    && RowsOk(s)
  }

  /** Stacks stay fine when a row is added, whoever's it is. */
  lemma RegisterKeepsStack(s: State, t: State, run: Run, own: bool, stack: Stack)
    requires StackOk(s, stack)
    requires run.uuid !in s.parents && t.parents.Keys == s.parents.Keys + {run.uuid}
    requires forall u :: u in s.parents ==> t.parents[u] == s.parents[u]
    requires t.ownRow == s.ownRow + if own then {run} else {}
    ensures StackOk(t, stack)
  {
  }

  lemma InvRegister(s: State, run: Run, stack: Stack, own: bool)
    requires Inv(s) && StackOk(s, stack) && run.uuid !in s.parents
    requires own ==> run in s.calls && stack == s.calls[run].base
    ensures Inv(Register(s, run, stack).(ownRow := s.ownRow + if own then {run} else {}))
  {
    var t := Register(s, run, stack).(ownRow := s.ownRow + if own then {run} else {});
    forall k | 0 <= k < |t.contexts|
      ensures StackOk(t, t.contexts[k])
    {
      RegisterKeepsStack(s, t, run, own, s.contexts[k]);
    }
    forall r | r in t.calls
      ensures CallOk(t, r)
    {
      assert CallOk(s, r);
      RegisterKeepsStack(s, t, run, own, s.calls[r].base);
    }
    RegisterKeepsRows(s, t, run.uuid, UuidOf(Peek(stack)));
  }

  lemma RegisterKeepsRows(s: State, t: State, u: Uuid, parent: Option<Uuid>)
    requires RowsOk(s) && u !in s.parents && (parent.Some? ==> parent.value in s.parents)
    requires t.parents == s.parents[u := parent] && t.rowOrder == s.rowOrder + [u]
    ensures RowsOk(t)
  {
    var n := |s.rowOrder|;
    forall i | 0 <= i <= n && t.parents[t.rowOrder[i]].Some?
      ensures t.parents[t.rowOrder[i]].value in t.rowOrder[..i]
    {
      assert t.rowOrder[..i] == s.rowOrder[..i];
      if i < n {
        assert s.rowOrder[i] in s.rowOrder && t.rowOrder[i] == s.rowOrder[i];
      } else {
        assert t.rowOrder[..n] == s.rowOrder;
      }
    }
  }

  lemma SameRows(s: State, t: State, stack: Stack)
    requires StackOk(s, stack) && t.parents == s.parents && t.ownRow == s.ownRow
    ensures StackOk(t, stack)
  {
  }

  lemma InvNewContext(s: State, stack: Stack)
    requires Inv(s) && StackOk(s, stack)
    ensures Inv(s.(contexts := s.contexts + [stack]))
  {
    var t := s.(contexts := s.contexts + [stack]);
    forall k | 0 <= k < |t.contexts|
      ensures StackOk(t, t.contexts[k])
    {
      SameRows(s, t, if k < |s.contexts| then s.contexts[k] else stack);
    }
    forall run | run in t.calls
      ensures CallOk(t, run)
    {
      assert CallOk(s, run);
      SameRows(s, t, s.calls[run].base);
    }
  }

  lemma InvStart(s: State, context: nat, run: Run)
    requires Inv(s) && Enabled(s, Start(context, run)) && run !in s.calls
    ensures Inv(Next(s, Start(context, run)))
  {
    var t := Next(s, Start(context, run));
    forall k | 0 <= k < |t.contexts|
      ensures StackOk(t, t.contexts[k])
    {
      SameRows(s, t, s.contexts[k]);
    }
    forall r | r in t.calls
      ensures CallOk(t, r)
    {
      if r == run {
        SameRows(s, t, s.contexts[context]);
      } else {
        assert CallOk(s, r);
        SameRows(s, t, s.calls[r].base);
      }
    }
  }

  lemma SpawnKeepsCall(s: State, run: Run, r: Run)
    requires Enabled(s, SpawnCall(run)) && r in s.calls && CallOk(s, r)
    ensures CallOk(Next(s, SpawnCall(run)), r)
  {
    SameRows(s, Next(s, SpawnCall(run)), s.calls[r].base);
    assert s.calls[r].base + [] == s.calls[r].base;
  }

  lemma SpawnKeepsApart(s: State, run: Run)
    requires Enabled(s, SpawnCall(run)) && CallsApart(s) && forall r :: r in s.calls ==> CallOk(s, r)
    ensures CallsApart(Next(s, SpawnCall(run)))
  {
    forall r | r in s.calls && s.calls[r].context.Some?
      ensures s.calls[r].context.value < |s.contexts|
    {
      assert CallOk(s, r);
    }
  }

  lemma InvSpawnCall(s: State, run: Run)
    requires Inv(s) && Enabled(s, SpawnCall(run))
    ensures Inv(Next(s, SpawnCall(run)))
  {
    var t := Next(s, SpawnCall(run));
    assert CallOk(s, run);
    forall k | 0 <= k < |t.contexts|
      ensures StackOk(t, t.contexts[k])
    {
      SameRows(s, t, if k < |s.contexts| then s.contexts[k] else s.calls[run].base);
    }
    forall r | r in t.calls
      ensures CallOk(t, r)
    {
      SpawnKeepsCall(s, run, r);
    }
    SpawnKeepsApart(s, run);
  }

  function SetBody(s: State, run: Run, stack: Stack, inBody: set<Run>): State
    requires HasBody(s, run)
  {
    s.(contexts := s.contexts[s.calls[run].context.value := stack], inBody := inBody)
  }

  lemma SetBodyKeepsCall(s: State, run: Run, stack: Stack, inBody: set<Run>, r: Run)
    requires CallsApart(s) && HasBody(s, run) && r in s.calls && CallOk(s, r)
    requires stack == s.calls[run].base + if run in inBody then [run] else []
    requires r != run ==> (r in inBody <==> r in s.inBody)
    ensures CallOk(SetBody(s, run, stack, inBody), r)
  {
    SameRows(s, SetBody(s, run, stack, inBody), s.calls[r].base);
  }

  /** Setting the stack of one run's own context, inside or outside its body, disturbs nothing else. */
  lemma InvSetBody(s: State, run: Run, stack: Stack, inBody: set<Run>)
    requires Inv(s) && HasBody(s, run)
    requires stack == s.calls[run].base + if run in inBody then [run] else []
    requires inBody <= s.calls.Keys && forall r :: r != run ==> (r in inBody <==> r in s.inBody)
    ensures Inv(SetBody(s, run, stack, inBody))
  {
    var k := s.calls[run].context.value;
    var t := SetBody(s, run, stack, inBody);
    assert CallOk(s, run);
    OwnFrame(s, run);
    assert s.calls[run].base + [] == s.calls[run].base;
    forall j | 0 <= j < |t.contexts|
      ensures StackOk(t, t.contexts[j])
    {
      SameRows(s, t, if j == k then stack else s.contexts[j]);
    }
    forall r | r in t.calls
      ensures CallOk(t, r)
    {
      SetBodyKeepsCall(s, run, stack, inBody, r);
    }
  }

  lemma InvEnter(s: State, run: Run)
    requires Inv(s) && Enabled(s, EnterBody(run))
    ensures Inv(Next(s, EnterBody(run)))
  {
    assert CallOk(s, run);
    var base := s.calls[run].base;
    assert base + [] == base;
    InvSetBody(s, run, base + [run], s.inBody + {run});
  }

  lemma InvLeave(s: State, run: Run)
    requires Inv(s) && Enabled(s, LeaveBody(run))
    ensures Inv(Next(s, LeaveBody(run)))
  {
    assert CallOk(s, run);
    var base := s.calls[run].base;
    assert Pop(base + [run]) == base && base + [] == base;
    InvSetBody(s, run, base, s.inBody - {run});
  }

  /** Leaving a body right after entering it restores the state. */
  lemma LeaveUndoesEnter(s: State, run: Run)
    requires Enabled(s, EnterBody(run))
    ensures Enabled(Next(s, EnterBody(run)), LeaveBody(run))
    ensures Next(Next(s, EnterBody(run)), LeaveBody(run)) == s
  {
    var t := Next(s, EnterBody(run));
    var k := s.calls[run].context.value;
    assert Pop(Push(s.contexts[k], run)) == s.contexts[k];
    assert t.contexts[k := s.contexts[k]] == s.contexts;
    assert t.inBody - {run} == s.inBody;
  }

  /**
   Entering or leaving a body changes the stack of the run's own context and nothing else: no other context, no
   other call, no row.
   */
  lemma BodyStepIsLocal(s: State, step: Step)
    requires Inv(s) && Enabled(s, step) && (step.EnterBody? || step.LeaveBody?)
    ensures var t := Next(s, step);
            && |t.contexts| == |s.contexts| && t.calls == s.calls
            && t.parents == s.parents && t.rowOrder == s.rowOrder && t.ownRow == s.ownRow
            && (forall k :: 0 <= k < |s.contexts| && s.calls[step.run].context != Some(k)
                            ==> t.contexts[k] == s.contexts[k])
            && (forall r :: HasBody(s, r) && r != step.run
                            ==> t.contexts[t.calls[r].context.value] == s.contexts[s.calls[r].context.value])
            && t.inBody - {step.run} == s.inBody - {step.run}
  {
    var t := Next(s, step);
    forall r | HasBody(s, r) && r != step.run
      ensures t.contexts[t.calls[r].context.value] == s.contexts[s.calls[r].context.value]
    {
      assert CallsApart(s);
    }
  }

  lemma OwnFrame(s: State, run: Run)
    requires run in s.calls && CallOk(s, run) && s.calls[run].context.Some?
    ensures StackOk(s, s.calls[run].base + [run])
  {
    var base := s.calls[run].base;
    var stack := base + [run];
    forall i | 0 <= i < |stack|
      ensures stack[i].uuid in s.parents
      ensures stack[i] in s.ownRow ==> s.parents[stack[i].uuid] == UuidOf(Peek(stack[..i]))
    {
      if i < |base| {
        assert stack[..i] == base[..i];
      } else {
        assert stack[..i] == base;
      }
    }
  }

  lemma InvNext(s: State, step: Step)
    requires Inv(s) && Enabled(s, step)
    ensures Inv(Next(s, step))
  {
    match step
    case NewProcess => InvNewContext(s, []);
    case Spawn(context) => InvNewContext(s, s.contexts[context]);
    case Request(context, run) =>
      if run.uuid !in s.parents {
        InvRegister(s, run, s.contexts[context], false);
        assert Next(s, step) == Register(s, run, s.contexts[context]).(ownRow := s.ownRow + {});
      }
    case Start(context, run) =>
      if run !in s.calls {
        InvStart(s, context, run);
      }
    case BeforeCall(run) =>
      assert CallOk(s, run);
      if run.uuid !in s.parents {
        InvRegister(s, run, s.calls[run].base, true);
      } else {
        assert Next(s, step) == s;
      }
    case SpawnCall(run) => InvSpawnCall(s, run);
    case EnterBody(run) => InvEnter(s, run);
    case LeaveBody(run) => InvLeave(s, run);
  }

  lemma {:induction false} InvHolds(states: seq<State>, steps: seq<Step>, i: nat)
    requires IsRun(states, steps) && i < |states|
    ensures Inv(states[i])
  {
    if i > 0 {
      InvHolds(states, steps, i - 1);
      InvNext(states[i - 1], steps[i - 1]);
    }
  }

  /** New run objects start in any context, recorded ones get any number of copies, and bodies run once spawned. */
  lemma NothingElseBlocks(s: State, context: nat, run: Run)
    requires context < |s.contexts|
    ensures Enabled(s, NewProcess) && Enabled(s, Spawn(context))
    ensures run.uuid !in s.parents && (forall r :: r in s.calls ==> r.uuid != run.uuid)
            ==> Enabled(s, Request(context, run)) && Enabled(s, Start(context, run))
    ensures run.uuid in s.parents ==> Enabled(s, Start(context, run))
    ensures run in s.calls && s.calls[run].base == s.contexts[context] ==> Enabled(s, Request(context, run))
    ensures run in s.calls ==> Enabled(s, BeforeCall(run))
    ensures run in s.calls && run.uuid in s.parents && s.calls[run].context == None ==> Enabled(s, SpawnCall(run))
    ensures run in s.calls && s.calls[run].context.Some? && s.calls[run].context.value < |s.contexts|
            ==> Enabled(s, if run in s.inBody then LeaveBody(run) else EnterBody(run))
  {
  }

  /** What each step brings about: rows get recorded, contexts are copies, and run objects start once. */
  lemma StepEffects(s: State, step: Step)
    requires Enabled(s, step)
    ensures var t := Next(s, step);
            match step
            case NewProcess => t == s.(contexts := s.contexts + [[]])
            case Spawn(context) => t == s.(contexts := s.contexts + [s.contexts[context]])
            case Request(_, run) => run.uuid in t.parents && t.calls == s.calls && t.contexts == s.contexts
            case Start(context, run) =>
              && t.contexts == s.contexts && t.parents == s.parents && run in t.calls
              && (run in s.calls ==> t == s)
              && (run !in s.calls ==> t.calls[run].base == s.contexts[context])
            case BeforeCall(run) =>
              && run.uuid in t.parents && t.calls == s.calls && t.contexts == s.contexts
              && (run in t.ownRow <==> run in s.ownRow || run.uuid !in s.parents)
            case SpawnCall(run) =>
              && t.contexts == s.contexts + [s.calls[run].base] && t.parents == s.parents
              && t.calls[run].context == Some(|s.contexts|)
            case EnterBody(run) => run in t.inBody && t.contexts[t.calls[run].context.value] ==
                                                      s.contexts[s.calls[run].context.value] + [run]
            case LeaveBody(run) => run !in t.inBody
    ensures forall u :: u in s.parents ==> u in Next(s, step).parents && Next(s, step).parents[u] == s.parents[u]
  {
  }

  // ---------------------------------------------------------------- theorems

  function Uuids(stack: Stack): (r: seq<Uuid>)
    ensures |r| == |stack| && forall i :: 0 <= i < |stack| ==> r[i] == stack[i].uuid
  {
    if stack == [] then [] else [stack[0].uuid] + Uuids(stack[1..])
  }

  function IndexIn(order: seq<Uuid>, u: Uuid): nat
    requires u in order
    ensures IndexIn(order, u) < |order| && order[IndexIn(order, u)] == u
  {
    if order[0] == u then 0 else 1 + IndexIn(order[1..], u)
  }

  /** In every reachable state the recorded parents form a forest, ranked by the order of recording. */
  lemma ParentsFormAForest(states: seq<State>, steps: seq<Step>, i: nat) returns (rank: map<Uuid, nat>)
    requires IsRun(states, steps) && i < |states|
    ensures Forest(states[i].parents, rank)
  {
    InvHolds(states, steps, i);
    var s := states[i];
    rank := map u | u in s.parents :: IndexIn(s.rowOrder, u);
    forall u | u in s.parents && s.parents[u].Some?
      ensures s.parents[u].value in s.parents && rank[s.parents[u].value] < rank[u]
    {
      var n := IndexIn(s.rowOrder, u);
      var j :| 0 <= j < n && s.rowOrder[..n][j] == s.parents[u].value;
      assert s.rowOrder[j] == s.parents[u].value;
    }
  }

  lemma OwnStackIsAncestry(s: State, stack: Stack)
    requires stack != [] && StackOk(s, stack) && forall r :: r in stack ==> r in s.ownRow
    ensures IsStack(s.parents, Uuids(stack))
  {
    forall j | 0 <= j < |stack|
      ensures s.parents[stack[j].uuid] == if j == 0 then None else Some(stack[j - 1].uuid)
    {
      assert stack[j] in stack;
    }
  }

  /**
   While the body of a run executes, its context's stack is exactly the run's ancestry, root first (what the
   walk over the rows returns), provided that all runs on the stack recorded their own rows; whatever other
   contexts do in the meantime.
   */
  lemma BodySeesItsAncestry(states: seq<State>, steps: seq<Step>, i: nat, run: Run)
    requires IsRun(states, steps) && i < |states| && run in states[i].inBody
    ensures run in states[i].calls && states[i].calls[run].context.Some?
    ensures var s := states[i];
            var k := s.calls[run].context.value;
            && k < |s.contexts| && Peek(s.contexts[k]) == Some(run)
            && ((forall r :: r in s.contexts[k] ==> r in s.ownRow)
                ==> && IsStack(s.parents, Uuids(s.contexts[k]))
                    && forall stack :: IsStack(s.parents, stack) && stack[|stack| - 1] == run.uuid
                                       ==> stack == Uuids(s.contexts[k]))
  {
    InvHolds(states, steps, i);
    var s := states[i];
    assert CallOk(s, run);
    var stack := s.contexts[s.calls[run].context.value];
    assert stack == s.calls[run].base + [run];
    if forall r :: r in stack ==> r in s.ownRow {
      OwnStackIsAncestry(s, stack);
      forall other | IsStack(s.parents, other) && other[|other| - 1] == run.uuid
        ensures other == Uuids(stack)
      {
        StackUnique(s.parents, other, Uuids(stack));
      }
    }
  }

  /** A call's copied stack is that of the context in which the run object was first started. */
  lemma {:induction false} CallsComeFromStarts(states: seq<State>, steps: seq<Step>, i: nat, run: Run) returns (j: nat)
    requires IsRun(states, steps) && i < |states| && run in states[i].calls
    ensures j < i && steps[j].Start? && steps[j].run == run && run !in states[j].calls
    ensures steps[j].context < |states[j].contexts|
    ensures states[i].calls[run].base == states[j].contexts[steps[j].context]
  {
    if run in states[i - 1].calls {
      j := CallsComeFromStarts(states, steps, i - 1, run);
    } else {
      j := i - 1;
    }
  }

  predicate Introduces(step: Step, u: Uuid) {
    (step.Request? || step.Start?) && step.run.uuid == u
  }

  /** As long as a run is unknown nobody has requested or started it. */
  lemma {:induction false} UnknownIsUntouched(states: seq<State>, steps: seq<Step>, i: nat, u: Uuid)
    requires IsRun(states, steps) && i < |states| && Unknown(states[i], u)
    ensures forall k :: 0 <= k < i ==> !Introduces(steps[k], u)
  {
    if i > 0 {
      var s, t := states[i - 1], states[i];
      assert forall r :: r in s.calls ==> r in t.calls;
      UnknownIsUntouched(states, steps, i - 1, u);
    }
  }

  lemma {:induction false} RowsStay(states: seq<State>, steps: seq<Step>, j: nat, i: nat, u: Uuid)
    requires IsRun(states, steps) && j <= i < |states| && u in states[j].parents
    ensures u in states[i].parents && states[i].parents[u] == states[j].parents[u]
    decreases i - j
  {
    if j < i {
      RowsStay(states, steps, j, i - 1, u);
    }
  }

  /** Every run on a stack had its body entered before. */
  ghost predicate Entered(steps: seq<Step>, i: nat, stack: Stack)
    requires i <= |steps|
  {
    forall r :: r in stack ==> exists k :: 0 <= k < i && steps[k] == EnterBody(r)
  }

  ghost predicate AllEntered(s: State, steps: seq<Step>, i: nat)
    requires i <= |steps|
  {
    && (forall k :: 0 <= k < |s.contexts| ==> Entered(steps, i, s.contexts[k]))
    && (forall r :: r in s.calls ==> Entered(steps, i, s.calls[r].base))
  }

  lemma EnteredLater(steps: seq<Step>, i: nat, stack: Stack, shorter: Stack)
    requires i < |steps| && Entered(steps, i, stack)
    requires forall r :: r in shorter ==> r in stack || steps[i] == EnterBody(r)
    ensures Entered(steps, i + 1, shorter)
  {
  }

  lemma {:induction false} StacksWereEntered(states: seq<State>, steps: seq<Step>, i: nat)
    requires IsRun(states, steps) && i < |states|
    ensures AllEntered(states[i], steps, i)
  {
    if i > 0 {
      var s, t, step := states[i - 1], states[i], steps[i - 1];
      StacksWereEntered(states, steps, i - 1);
      forall k | 0 <= k < |t.contexts|
        ensures Entered(steps, i, t.contexts[k])
      {
        var origin := ContextOrigin(s, step, k);
        EnteredLater(steps, i - 1, origin, t.contexts[k]);
      }
      forall r | r in t.calls
        ensures Entered(steps, i, t.calls[r].base)
      {
        var origin := if r in s.calls then s.calls[r].base else s.contexts[step.context];
        EnteredLater(steps, i - 1, origin, t.calls[r].base);
      }
    }
  }

  /** Where the runs on a context's stack come from: a stack of the state before, and the body just entered. */
  lemma ContextOrigin(s: State, step: Step, k: nat) returns (origin: Stack)
    requires Enabled(s, step) && k < |Next(s, step).contexts|
    ensures origin == [] || origin in s.contexts || exists r :: r in s.calls && origin == s.calls[r].base
    ensures forall r :: r in Next(s, step).contexts[k] ==> r in origin || step == EnterBody(r)
  {
    if k < |s.contexts| {
      origin := s.contexts[k];
    } else {
      origin := Next(s, step).contexts[k];
    }
  }

  /** The stack from which the row was recorded is that of the step that first introduced the run. */
  lemma RowComesFromIntroduction(states: seq<State>, steps: seq<Step>, i: nat, u: Uuid) returns (j: nat)
    requires IsRun(states, steps) && i < |steps|
    requires u !in states[i].parents && u in states[i + 1].parents
    ensures j <= i && Introduces(steps[j], u) && Unknown(states[j], u)
    ensures steps[j].context < |states[j].contexts|
    ensures states[i + 1].parents[u] == UuidOf(Peek(states[j].contexts[steps[j].context]))
  {
    var s, run := states[i], steps[i].run;
    j := i;
    if run in s.calls {
      j := CallsComeFromStarts(states, steps, i, run);
      if u in states[j].parents {
        RowsStay(states, steps, j, i, u);
      }
    }
  }

  /**
   In every reachable state a recorded parent is the run on top of the context in which the child was requested
   or started for the very first time. That run has a row, and its body had been entered before.
   */
  lemma {:induction false} ParentIsTheStarter(states: seq<State>, steps: seq<Step>, i: nat, u: Uuid) returns (j: nat)
    requires IsRun(states, steps) && i < |states| && u in states[i].parents
    ensures j < i && Introduces(steps[j], u)
    ensures forall k :: 0 <= k < j ==> !Introduces(steps[k], u)
    ensures steps[j].context < |states[j].contexts|
    ensures var starter := Peek(states[j].contexts[steps[j].context]);
            && states[i].parents[u] == UuidOf(starter)
            && (starter.Some? ==>
                  && starter.value.uuid in states[j].parents
                  && exists k :: 0 <= k < j && steps[k] == EnterBody(starter.value))
  {
    if u in states[i - 1].parents {
      j := ParentIsTheStarter(states, steps, i - 1, u);
      RowsStay(states, steps, i - 1, i, u);
    } else {
      j := RowComesFromIntroduction(states, steps, i - 1, u);
      UnknownIsUntouched(states, steps, j, u);
      if states[j].contexts[steps[j].context] != [] {
        StarterWasEntered(states, steps, j, steps[j].context);
      }
    }
  }

  lemma StarterWasEntered(states: seq<State>, steps: seq<Step>, j: nat, context: nat)
    requires IsRun(states, steps) && j < |states| && context < |states[j].contexts|
    requires states[j].contexts[context] != []
    ensures var starter := Peek(states[j].contexts[context]).value;
            && starter.uuid in states[j].parents
            && exists k :: 0 <= k < j && steps[k] == EnterBody(starter)
  {
    InvHolds(states, steps, j);
    StacksWereEntered(states, steps, j);
    var stack := states[j].contexts[context];
    assert StackOk(states[j], stack) && Entered(steps, j, stack);
    assert stack[|stack| - 1] in stack;
  }
}
