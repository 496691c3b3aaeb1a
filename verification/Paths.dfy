/** Printing the path to a run in one tree of runs, and following such a path in another tree. */
module Paths {
  import opened Options

  type TypeId = int

  datatype TaskRun = TaskRun(id: int, typeId: TypeId, childTasks: seq<TaskRun>)

  datatype PathNode = PathNode(siblingIndex: nat, childIndex: nat, childTypeId: TypeId)

  function OfType(children: seq<TaskRun>, typeId: TypeId): (r: seq<TaskRun>)
    ensures forall child :: child in r ==> child in children && child.typeId == typeId
  {
    if children == [] then []
    else if children[0].typeId == typeId then [children[0]] + OfType(children[1..], typeId)
    else OfType(children[1..], typeId)
  }

  /** The place of child `i`, as an object, among its siblings of the same type. */
  function SiblingIndex(children: seq<TaskRun>, i: nat): nat
    requires i < |children|
  {
    |OfType(children[..i], children[i].typeId)|
  }

  function GetPathTo(parent: TaskRun, taskRun: TaskRun): Option<seq<PathNode>>
    decreases parent, |parent.childTasks| + 1
  {
    if parent.id == taskRun.id then Some([]) else PathThroughChildren(parent, taskRun, 0)
  }

  function PathThroughChildren(parent: TaskRun, taskRun: TaskRun, childIndex: nat): Option<seq<PathNode>>
    requires childIndex <= |parent.childTasks|
    decreases parent, |parent.childTasks| - childIndex
  {
    if childIndex == |parent.childTasks| then None
    else
      var child := parent.childTasks[childIndex];
      var path := GetPathTo(child, taskRun);
      if path.Some?
      then Some([PathNode(SiblingIndex(parent.childTasks, childIndex), childIndex, child.typeId)] + path.value)
      else PathThroughChildren(parent, taskRun, childIndex + 1)
  }

  function ApplyPath(root: TaskRun, path: seq<PathNode>): TaskRun
    decreases path
  {
    if path == [] then root
    else
      var candidates := OfType(root.childTasks, path[0].childTypeId);
      if |candidates| <= path[0].siblingIndex then root
      else ApplyPath(candidates[path[0].siblingIndex], path[1..])
  }

  /** The loop; a missing root stays missing. */
  method ApplyPathLoop(rootTaskRun: Option<TaskRun>, path: seq<PathNode>) returns (current: Option<TaskRun>)
    ensures current == if rootTaskRun.None? then None else Some(ApplyPath(rootTaskRun.value, path))
  {
    current := rootTaskRun;
    for i := 0 to |path|
      invariant current.Some? == rootTaskRun.Some?
      invariant current.Some? ==> ApplyPath(rootTaskRun.value, path) == ApplyPath(current.value, path[i..])
    {
      if current.None? {
        break;
      }
      assert path[i..][1..] == path[i + 1..];
      var node := path[i];
      var childrenWithNodeType := OfType(current.value.childTasks, node.childTypeId);
      if |childrenWithNodeType| <= node.siblingIndex {
        break;
      }
      current := Some(childrenWithNodeType[node.siblingIndex]);
    }
  }

  // ---------------------------------------------------------------- references

  ghost predicate Contains(root: TaskRun, n: TaskRun) {
    root == n || exists i :: 0 <= i < |root.childTasks| && Contains(root.childTasks[i], n)
  }

  ghost predicate HasId(root: TaskRun, id: int) {
    exists n :: Contains(root, n) && n.id == id
  }

  ghost predicate UniqueIds(root: TaskRun) {
    forall a, b :: Contains(root, a) && Contains(root, b) && a.id == b.id ==> a == b
  }

  /** Following a path to its very end, if that is possible. */
  function Follow(root: TaskRun, path: seq<PathNode>): Option<TaskRun>
    decreases path
  {
    if path == [] then Some(root)
    else
      var candidates := OfType(root.childTasks, path[0].childTypeId);
      if |candidates| <= path[0].siblingIndex then None
      else Follow(candidates[path[0].siblingIndex], path[1..])
  }

  /** The other coordinate of a path: positions among all children. */
  function FollowPositions(root: TaskRun, path: seq<PathNode>): Option<TaskRun>
    decreases path
  {
    if path == [] then Some(root)
    else if path[0].childIndex >= |root.childTasks| then None
    else FollowPositions(root.childTasks[path[0].childIndex], path[1..])
  }

  lemma {:induction false} SiblingIndexFinds(children: seq<TaskRun>, i: nat)
    requires i < |children|
    ensures var same := OfType(children, children[i].typeId);
            SiblingIndex(children, i) < |same| && same[SiblingIndex(children, i)] == children[i]
  {
    if i > 0 {
      assert children[..i][1..] == children[1..][..i - 1];
      SiblingIndexFinds(children[1..], i - 1);
    }
  }

  /** ... and the candidates of a type are just these children: each is one child, at its own index. */
  lemma {:induction false} SiblingIndexOnto(children: seq<TaskRun>, typeId: TypeId, n: nat) returns (i: nat)
    requires n < |OfType(children, typeId)|
    ensures i < |children| && children[i].typeId == typeId && SiblingIndex(children, i) == n
    ensures OfType(children, typeId)[n] == children[i]
  {
    if children[0].typeId == typeId && n == 0 {
      i := 0;
      assert children[..0] == [];
    } else {
      i := SiblingIndexOnto(children[1..], typeId, if children[0].typeId == typeId then n - 1 else n);
      i := i + 1;
      assert children[..i][1..] == children[1..][..i - 1];
      assert children[..i] != [] && children[..i][0] == children[0];
    }
  }

  /** The printed path leads, by either coordinate, to a node of the tree with the wanted id. */
  lemma {:induction false} PathLeadsToId(root: TaskRun, t: TaskRun)
    requires GetPathTo(root, t).Some?
    ensures var path := GetPathTo(root, t).value;
            && Contains(root, ApplyPath(root, path)) && ApplyPath(root, path).id == t.id
            && Follow(root, path) == Some(ApplyPath(root, path)) == FollowPositions(root, path)
    decreases root, |root.childTasks| + 1
  {
    if root.id != t.id {
      ChildPathLeadsToId(root, t, 0);
    }
  }

  lemma {:induction false} ChildPathLeadsToId(root: TaskRun, t: TaskRun, i: nat)
    requires i <= |root.childTasks| && PathThroughChildren(root, t, i).Some?
    ensures var path := PathThroughChildren(root, t, i).value;
            && Contains(root, ApplyPath(root, path)) && ApplyPath(root, path).id == t.id
            && Follow(root, path) == Some(ApplyPath(root, path)) == FollowPositions(root, path)
    decreases root, |root.childTasks| - i
  {
    var child := root.childTasks[i];
    if GetPathTo(child, t).Some? {
      PathLeadsToId(child, t);
      SiblingIndexFinds(root.childTasks, i);
      assert PathThroughChildren(root, t, i).value[1..] == GetPathTo(child, t).value;
    } else {
      ChildPathLeadsToId(root, t, i + 1);
    }
  }

  /** No node before the end of a path has the id, and none below an earlier sibling on the way. */
  ghost predicate FirstOnTheWay(root: TaskRun, path: seq<PathNode>, id: int)
    decreases path
  {
    path != [] ==>
      && root.id != id && path[0].childIndex < |root.childTasks|
      && (forall j :: 0 <= j < path[0].childIndex ==> !HasId(root.childTasks[j], id))
      && FirstOnTheWay(root.childTasks[path[0].childIndex], path[1..], id)
  }

  /** With repeated ids the printed path leads to the first node with the id, parents before children. */
  lemma {:induction false} PathLeadsToFirst(root: TaskRun, t: TaskRun)
    requires GetPathTo(root, t).Some?
    ensures FirstOnTheWay(root, GetPathTo(root, t).value, t.id)
    decreases root, |root.childTasks| + 1
  {
    if root.id != t.id {
      ChildPathLeadsToFirst(root, t, 0);
    }
  }

  lemma {:induction false} ChildPathLeadsToFirst(root: TaskRun, t: TaskRun, i: nat)
    requires i <= |root.childTasks| && PathThroughChildren(root, t, i).Some? && root.id != t.id
    requires forall j :: 0 <= j < i ==> !HasId(root.childTasks[j], t.id)
    ensures FirstOnTheWay(root, PathThroughChildren(root, t, i).value, t.id)
    decreases root, |root.childTasks| - i
  {
    var child := root.childTasks[i];
    PathExistsIff(child, t);
    if GetPathTo(child, t).Some? {
      PathLeadsToFirst(child, t);
      assert PathThroughChildren(root, t, i).value[1..] == GetPathTo(child, t).value;
    } else {
      ChildPathLeadsToFirst(root, t, i + 1);
    }
  }

  /** There is a path exactly when some node of the tree has the id. */
  lemma {:induction false} PathExistsIff(root: TaskRun, t: TaskRun)
    ensures GetPathTo(root, t).Some? <==> HasId(root, t.id)
    decreases root, |root.childTasks| + 1
  {
    if GetPathTo(root, t).Some? {
      PathLeadsToId(root, t);
    } else {
      NoChildPath(root, t, 0);
      forall n | Contains(root, n)
        ensures n.id != t.id
      {
        if n != root {
          var i :| 0 <= i < |root.childTasks| && Contains(root.childTasks[i], n);
          assert !HasId(root.childTasks[i], t.id);
        }
      }
    }
  }

  lemma {:induction false} NoChildPath(root: TaskRun, t: TaskRun, i: nat)
    requires i <= |root.childTasks| && PathThroughChildren(root, t, i).None?
    ensures forall j :: i <= j < |root.childTasks| ==> !HasId(root.childTasks[j], t.id)
    decreases root, |root.childTasks| - i
  {
    if i < |root.childTasks| {
      PathExistsIff(root.childTasks[i], t);
      NoChildPath(root, t, i + 1);
    }
  }

  /** The round trip: in a tree with unique ids, following the path to a node of the tree reaches that node. */
  lemma RoundTrip(root: TaskRun, t: TaskRun)
    requires UniqueIds(root)
    ensures Contains(root, t) ==> GetPathTo(root, t).Some? && ApplyPath(root, GetPathTo(root, t).value) == t
    ensures GetPathTo(root, t).None? ==> !Contains(root, t)
  {
    PathExistsIff(root, t);
    if GetPathTo(root, t).Some? {
      PathLeadsToId(root, t);
    }
  }

  /** On any other tree a path is followed exactly as far as it can be. */
  lemma {:induction false} LongestFollowablePrefix(root: TaskRun, path: seq<PathNode>) returns (k: nat)
    ensures k <= |path|
    ensures Follow(root, path[..k]) == Some(ApplyPath(root, path))
    ensures forall j :: 0 <= j <= |path| ==> (Follow(root, path[..j]).Some? <==> j <= k)
    decreases path
  {
    k := 0;
    if path != [] {
      var candidates := OfType(root.childTasks, path[0].childTypeId);
      if path[0].siblingIndex < |candidates| {
        var next := candidates[path[0].siblingIndex];
        k := LongestFollowablePrefix(next, path[1..]);
        k := k + 1;
        forall j | 1 <= j <= |path|
          ensures Follow(root, path[..j]) == Follow(next, path[1..][..j - 1])
        {
          assert path[..j][1..] == path[1..][..j - 1];
        }
      }
    }
  }
}
