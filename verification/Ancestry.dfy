/** The parent relation of task runs, and the walk from a run up to its root. */
module Ancestry {
  import opened TaskRunStates
  import opened Options

  type Parents = map<Uuid, Option<Uuid>>

  ghost predicate Closed(parents: Parents) {
    forall u :: u in parents && parents[u].Some? ==> parents[u].value in parents
  }

  /** The relation is a forest: every parent ranks below its children. */
  ghost predicate Forest(parents: Parents, rank: map<Uuid, nat>) {
    && Closed(parents)
    && (forall u :: u in parents ==> u in rank)
    && (forall u :: u in parents && parents[u].Some? ==> rank[parents[u].value] < rank[u])
  }

  /** Each run of the list is the parent of the next. */
  ghost predicate IsChain(parents: Parents, chain: seq<Uuid>) {
    && (forall i :: 0 <= i < |chain| ==> chain[i] in parents)
    && (forall i :: 0 < i < |chain| ==> parents[chain[i]] == Some(chain[i - 1]))
  }

  /** A chain that starts at a root: all ancestors of its last run, root first, and that run. */
  ghost predicate IsStack(parents: Parents, stack: seq<Uuid>) {
    stack != [] && IsChain(parents, stack) && parents[stack[0]] == None
  }

  /** A run has only one stack. */
  lemma {:induction false} StackUnique(parents: Parents, s: seq<Uuid>, t: seq<Uuid>)
    requires IsStack(parents, s) && IsStack(parents, t) && s[|s| - 1] == t[|t| - 1]
    ensures s == t
  {
    var m, n := |s| - 1, |t| - 1;
    assert m > 0 ==> parents[s[m]] == Some(s[m - 1]);
    assert n > 0 ==> parents[t[n]] == Some(t[n - 1]);
    if m > 0 && n > 0 {
      assert s[..m][m - 1] == t[..n][n - 1];
      StackUnique(parents, s[..m], t[..n]);
      assert s == s[..m] + [s[m]] && t == t[..n] + [t[n]];
    }
  }

  function Reversed(s: seq<Uuid>): (r: seq<Uuid>)
    ensures |r| == |s| && forall i :: 0 <= i < |s| ==> r[i] == s[|s| - 1 - i]
  {
    if s == [] then [] else Reversed(s[1..]) + [s[0]]
  }

  /** The walk: it terminates on a forest and returns the stack of the run. */
  method TaskRunsStack(parents: Parents, u: Uuid, ghost rank: map<Uuid, nat>) returns (stack: seq<Uuid>)
    requires u in parents && Forest(parents, rank)
    ensures IsStack(parents, stack) && stack[|stack| - 1] == u
  {
    var current := u;
    var taskRunsStack := [current];
    while parents[current].Some?
      invariant current in parents && taskRunsStack != []
      invariant taskRunsStack[0] == u && taskRunsStack[|taskRunsStack| - 1] == current
      invariant IsChain(parents, Reversed(taskRunsStack))
      decreases rank[current]
    {
      var parent := parents[current].value;
      ghost var before := Reversed(taskRunsStack);
      taskRunsStack := taskRunsStack + [parent];
      assert Reversed(taskRunsStack) == [parent] + before;
      current := parent;
    }
    stack := Reversed(taskRunsStack);
  }
}
