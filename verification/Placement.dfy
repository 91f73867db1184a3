/** Reading a node list back: parents, ancestors and absolute boxes.

    A node's parent is the nearest node before it that carries the id it names; a node whose
    parent id is not found stands on its own. Positions add up along that chain. */
module Placement {
  import opened Options
  import opened Layout

  datatype Rect = Rect(x: int, y: int, w: int, h: int)

  /** The last of the first `k` nodes with that id, or -1. */
  function FindLast(nodes: seq<Node>, k: nat, id: string): (j: int)
    requires k <= |nodes|
    ensures -1 <= j < k
    ensures j >= 0 ==> nodes[j].id == id
    ensures forall i | j < i < k :: nodes[i].id != id
  {
    if k == 0 then -1
    else if nodes[k - 1].id == id then k - 1
    else FindLast(nodes, k - 1, id)
  }

  function ParentIndex(nodes: seq<Node>, k: nat): (j: int)
    requires k < |nodes|
    ensures -1 <= j < k
    ensures j >= 0 ==> nodes[k].parent == Some(nodes[j].id)
  {
    match nodes[k].parent
    case None => -1
    case Some(id) => FindLast(nodes, k, id)
  }

  predicate IsAncestor(nodes: seq<Node>, j: nat, k: nat)
    requires k < |nodes|
    decreases k
  {
    var p := ParentIndex(nodes, k);
    p >= 0 && (p == j || IsAncestor(nodes, j, p))
  }

  /** The absolute box of a node. */
  function Abs(nodes: seq<Node>, k: nat): Rect
    requires k < |nodes|
    decreases k
  {
    var p := ParentIndex(nodes, k);
    var own := Rect(nodes[k].x, nodes[k].y, nodes[k].w, nodes[k].h);
    if p < 0 then own else Shift(own, Abs(nodes, p).x, Abs(nodes, p).y)
  }

  function Shift(r: Rect, dx: int, dy: int): Rect {
    Rect(r.x + dx, r.y + dy, r.w, r.h)
  }

  /** A list of nodes drawn directly inside `parent`, or inside others of the list. */
  predicate Closed(nodes: seq<Node>, parent: Option<string>) {
    && (forall k | 0 <= k < |nodes| :: ParentIndex(nodes, k) < 0 ==> nodes[k].parent == parent)
    && (forall k | 0 <= k < |nodes| :: parent != Some(nodes[k].id))
  }

  lemma AncestorIsEarlier(nodes: seq<Node>, j: nat, k: nat)
    requires k < |nodes| && IsAncestor(nodes, j, k)
    ensures j < k
  {
  }

  // ---------- two lists side by side

  lemma {:induction false} FindLastPrefix(a: seq<Node>, b: seq<Node>, k: nat, id: string)
    requires k <= |a|
    ensures FindLast(a + b, k, id) == FindLast(a, k, id)
  {
    if k > 0 {
      assert (a + b)[k - 1] == a[k - 1];
      FindLastPrefix(a, b, k - 1, id);
    }
  }

  lemma {:induction false} FindLastSuffix(a: seq<Node>, b: seq<Node>, k: nat, id: string)
    requires k <= |b|
    ensures FindLast(a + b, |a| + k, id) ==
            if FindLast(b, k, id) >= 0 then |a| + FindLast(b, k, id) else FindLast(a, |a|, id)
  {
    if k == 0 {
      FindLastPrefix(a, b, |a|, id);
    } else {
      assert (a + b)[|a| + k - 1] == b[k - 1];
      FindLastSuffix(a, b, k - 1, id);
    }
  }

  lemma {:induction false} JoinLeft(a: seq<Node>, b: seq<Node>, k: nat)
    requires k < |a|
    ensures ParentIndex(a + b, k) == ParentIndex(a, k)
    ensures Abs(a + b, k) == Abs(a, k)
    ensures forall j: nat :: IsAncestor(a + b, j, k) == IsAncestor(a, j, k)
    decreases k
  {
    assert (a + b)[k] == a[k];
    if a[k].parent.Some? {
      FindLastPrefix(a, b, k, a[k].parent.value);
    }
    var p := ParentIndex(a, k);
    if p >= 0 {
      JoinLeft(a, b, p);
    }
  }

  lemma {:induction false} JoinRight(a: seq<Node>, b: seq<Node>, k: nat, parent: Option<string>)
    requires k < |b| && Closed(a, parent) && Closed(b, parent)
    ensures ParentIndex(a + b, |a| + k) == if ParentIndex(b, k) >= 0 then |a| + ParentIndex(b, k) else -1
    ensures Abs(a + b, |a| + k) == Abs(b, k)
    ensures var all, m := a + b, |a| + k;
            forall j: nat :: IsAncestor(all, j, m) == (j >= |a| && IsAncestor(b, j - |a|, k))
    decreases k
  {
    assert (a + b)[|a| + k] == b[k];
    if b[k].parent.Some? {
      FindLastSuffix(a, b, k, b[k].parent.value);
    }
    var p := ParentIndex(b, k);
    if p >= 0 {
      JoinRight(a, b, p, parent);
    }
  }

  lemma {:induction false} JoinClosed(a: seq<Node>, b: seq<Node>, parent: Option<string>)
    requires Closed(a, parent) && Closed(b, parent)
    ensures Closed(a + b, parent)
  {
    forall k | 0 <= k < |a + b| ensures ParentIndex(a + b, k) < 0 ==> (a + b)[k].parent == parent {
      if k < |a| {
        JoinLeft(a, b, k);
      } else {
        JoinRight(a, b, k - |a|, parent);
      }
    }
  }

  lemma {:induction false} SingleNode(node: Node)
    ensures node.parent != Some(node.id) ==> Closed([node], node.parent)
    ensures Abs([node], 0) == Rect(node.x, node.y, node.w, node.h)
    ensures ParentIndex([node], 0) == -1
  {
  }

  // ---------- a group in front of its contents

  lemma {:induction false} Inside(group: Node, inner: seq<Node>, k: nat)
    requires k < |inner| && Closed(inner, Some(group.id))
    ensures ParentIndex([group] + inner, 1 + k) == if ParentIndex(inner, k) >= 0 then 1 + ParentIndex(inner, k) else 0
    ensures Abs([group] + inner, 1 + k) == Shift(Abs(inner, k), group.x, group.y)
    ensures var all, m := [group] + inner, 1 + k;
            forall j: nat :: IsAncestor(all, j, m) == (j == 0 || IsAncestor(inner, j - 1, k))
    decreases k
  {
    assert ([group] + inner)[1 + k] == inner[k];
    if inner[k].parent.Some? {
      FindLastSuffix([group], inner, k, inner[k].parent.value);
    }
    assert Abs([group] + inner, 0) == Rect(group.x, group.y, group.w, group.h) by {
      JoinLeft([group], inner, 0);
      assert ([group] + inner)[0] == group;
      SingleNode(group);
    }
    var p := ParentIndex(inner, k);
    if p >= 0 {
      Inside(group, inner, p);
    }
  }

  lemma {:induction false} GroupClosed(group: Node, inner: seq<Node>)
    requires Closed(inner, Some(group.id))
    requires group.parent != Some(group.id)
    requires forall k | 0 <= k < |inner| :: group.parent != Some(inner[k].id)
    ensures Closed([group] + inner, group.parent)
    ensures ParentIndex([group] + inner, 0) == -1
    ensures Abs([group] + inner, 0) == Rect(group.x, group.y, group.w, group.h)
  {
    JoinLeft([group], inner, 0);
    SingleNode(group);
    forall k | 0 <= k < |[group] + inner|
      ensures ParentIndex([group] + inner, k) < 0 ==> ([group] + inner)[k].parent == group.parent
    {
      if k > 0 {
        Inside(group, inner, k - 1);
      }
    }
  }
}
