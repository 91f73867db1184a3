/** Collapsing a group erases what is drawn inside it and lets nothing else grow or move away. */
module Collapse {
  import opened Options
  import opened Layout
  import opened Placement
  import opened Geometry

  /** Some group around the node is one of `groups`. */
  predicate Hidden(nodes: seq<Node>, k: nat, groups: set<string>)
    requires k < |nodes|
    decreases k
  {
    var p := ParentIndex(nodes, k);
    p >= 0 && (nodes[p].id in groups || Hidden(nodes, p, groups))
  }

  lemma {:induction false} HiddenMeansInside(nodes: seq<Node>, k: nat, groups: set<string>)
    requires k < |nodes|
    ensures Hidden(nodes, k, groups) <==>
            exists j: nat :: j < |nodes| && IsAncestor(nodes, j, k) && nodes[j].id in groups
    decreases k
  {
    var p := ParentIndex(nodes, k);
    if p >= 0 {
      HiddenMeansInside(nodes, p, groups);
      assert IsAncestor(nodes, p, k);
    }
  }

  datatype View = View(node: Node, box: Rect)

  /** The first `n` nodes that are not hidden, in order, with their absolute boxes. */
  function Visible(nodes: seq<Node>, n: nat, groups: set<string>): seq<View>
    requires n <= |nodes|
  {
    if n == 0 then []
    else Visible(nodes, n - 1, groups) + Last(nodes, n - 1, groups)
  }

  function AllVisible(nodes: seq<Node>, groups: set<string>): seq<View> {
    Visible(nodes, |nodes|, groups)
  }

  function ShiftAll(views: seq<View>, dx: int, dy: int): seq<View> {
    if views == [] then []
    else ShiftAll(views[..|views| - 1], dx, dy) +
         [View(views[|views| - 1].node, Shift(views[|views| - 1].box, dx, dy))]
  }

  // ---------- lists side by side, groups around their contents

  lemma {:induction false} HiddenJoin(a: seq<Node>, b: seq<Node>, k: nat, parent: Option<string>, groups: set<string>)
    requires Closed(a, parent) && Closed(b, parent) && k < |a + b|
    ensures Hidden(a + b, k, groups) == if k < |a| then Hidden(a, k, groups) else Hidden(b, k - |a|, groups)
    decreases k
  {
    hide FindLast, Abs, IsAncestor, Closed;
    if k < |a| {
      JoinLeft(a, b, k);
      var p := ParentIndex(a, k);
      if p >= 0 { HiddenJoin(a, b, p, parent, groups); }
    } else {
      JoinRight(a, b, k - |a|, parent);
      var p := ParentIndex(b, k - |a|);
      if p >= 0 { HiddenJoin(a, b, |a| + p, parent, groups); }
    }
  }

  lemma {:induction false} VisibleJoin(a: seq<Node>, b: seq<Node>, n: nat, parent: Option<string>, groups: set<string>)
    requires Closed(a, parent) && Closed(b, parent) && n <= |b|
    ensures Visible(a + b, |a| + n, groups) == AllVisible(a, groups) + Visible(b, n, groups)
  {
    hide Visible, Last, Closed, Hidden, ParentIndex, Abs;
    if n == 0 {
      VisibleLeft(a, b, |a|, parent, groups);
      VisibleNone(b, groups);
    } else {
      VisibleJoin(a, b, n - 1, parent, groups);
      LastJoined(a, b, n - 1, parent, groups);
      VisibleOneMore(a + b, |a| + n - 1, groups);
      VisibleOneMore(b, n - 1, groups);
    }
  }

  lemma {:induction false} VisibleNone(nodes: seq<Node>, groups: set<string>)
    ensures Visible(nodes, 0, groups) == []
  {
  }

  lemma {:induction false} VisibleOneMore(nodes: seq<Node>, k: nat, groups: set<string>)
    requires k < |nodes|
    ensures Visible(nodes, k + 1, groups) == Visible(nodes, k, groups) + Last(nodes, k, groups)
  {
    hide Last;
  }

  /** What the node at `k` adds to the visible ones. */
  function Last(nodes: seq<Node>, k: nat, groups: set<string>): seq<View>
    requires k < |nodes|
  {
    if Hidden(nodes, k, groups) then [] else [View(nodes[k], Abs(nodes, k))]
  }

  lemma {:induction false} LastJoined(a: seq<Node>, b: seq<Node>, k: nat, parent: Option<string>, groups: set<string>)
    requires Closed(a, parent) && Closed(b, parent) && k < |b|
    ensures Last(a + b, |a| + k, groups) == Last(b, k, groups)
  {
    hide FindLast, Closed, IsAncestor;
    HiddenJoin(a, b, |a| + k, parent, groups);
    JoinRight(a, b, k, parent);
    hide Hidden, Abs, ParentIndex, Closed;
  }

  lemma {:induction false} VisibleLeft(a: seq<Node>, b: seq<Node>, k: nat, parent: Option<string>, groups: set<string>)
    requires Closed(a, parent) && Closed(b, parent) && k <= |a|
    ensures Visible(a + b, k, groups) == Visible(a, k, groups)
  {
    if k > 0 {
      hide Visible, Last, Closed;
      VisibleLeft(a, b, k - 1, parent, groups);
      LastLeft(a, b, k - 1, parent, groups);
      VisibleOneMore(a + b, k - 1, groups);
      VisibleOneMore(a, k - 1, groups);
    } else {
      VisibleNone(a, groups);
      VisibleNone(a + b, groups);
    }
  }

  lemma {:induction false} LastLeft(a: seq<Node>, b: seq<Node>, k: nat, parent: Option<string>, groups: set<string>)
    requires Closed(a, parent) && Closed(b, parent) && k < |a|
    ensures Last(a + b, k, groups) == Last(a, k, groups)
  {
    hide FindLast, Closed, IsAncestor;
    HiddenJoin(a, b, k, parent, groups);
    JoinLeft(a, b, k);
    hide Hidden, Abs, ParentIndex;
  }

  lemma {:induction false} HiddenInside(group: Node, inner: seq<Node>, k: nat, groups: set<string>)
    requires Closed(inner, Some(group.id)) && k < |inner|
    ensures Hidden([group] + inner, 1 + k, groups) == (group.id in groups || Hidden(inner, k, groups))
    decreases k
  {
    Inside(group, inner, k);
    var p := ParentIndex(inner, k);
    if p >= 0 {
      HiddenInside(group, inner, p, groups);
      assert ([group] + inner)[1 + p] == inner[p];
    }
  }

  lemma {:induction false} VisibleGroup(group: Node, inner: seq<Node>, n: nat, groups: set<string>)
    requires Closed(inner, Some(group.id)) && n <= |inner|
    ensures Visible([group] + inner, 1 + n, groups) ==
            [View(group, Rect(group.x, group.y, group.w, group.h))] +
            if group.id in groups then [] else ShiftAll(Visible(inner, n, groups), group.x, group.y)
  {
    hide Visible, Last, Closed, Hidden, ParentIndex, Abs, ShiftAll;
    if n == 0 {
      VisibleHead(group, inner, groups);
      VisibleOneMore([group] + inner, 0, groups);
      VisibleNone(inner, groups);
      ShiftNone(group.x, group.y);
    } else {
      VisibleGroup(group, inner, n - 1, groups);
      LastInside(group, inner, n - 1, groups);
      VisibleOneMore([group] + inner, n, groups);
      ShiftedOneMore(inner, n - 1, groups, group.x, group.y);
    }
  }

  lemma {:induction false} VisibleHead(group: Node, inner: seq<Node>, groups: set<string>)
    ensures Visible([group] + inner, 0, groups) == []
    ensures Last([group] + inner, 0, groups) == [View(group, Rect(group.x, group.y, group.w, group.h))]
  {
    JoinLeft([group], inner, 0);
    SingleNode(group);
    assert ([group] + inner)[0] == group;
  }

  lemma {:induction false} LastInside(group: Node, inner: seq<Node>, k: nat, groups: set<string>)
    requires Closed(inner, Some(group.id)) && k < |inner|
    ensures Last([group] + inner, 1 + k, groups) ==
            if group.id in groups then [] else ShiftAll(Last(inner, k, groups), group.x, group.y)
  {
    HiddenInside(group, inner, k, groups);
    Inside(group, inner, k);
    assert ([group] + inner)[1 + k] == inner[k];
    hide Hidden, Abs, ParentIndex, Closed;
    var v := [View(inner[k], Abs(inner, k))];
    assert v[..|v| - 1] == [];
  }

  lemma {:induction false} ShiftNone(dx: int, dy: int)
    ensures ShiftAll([], dx, dy) == []
  {
  }

  lemma {:induction false} ShiftedOneMore(nodes: seq<Node>, k: nat, groups: set<string>, dx: int, dy: int)
    requires k < |nodes|
    ensures ShiftAll(Visible(nodes, k + 1, groups), dx, dy) ==
            ShiftAll(Visible(nodes, k, groups), dx, dy) + ShiftAll(Last(nodes, k, groups), dx, dy)
  {
    hide Visible, Last, ShiftAll;
    VisibleOneMore(nodes, k, groups);
    LastIsOne(nodes, k, groups);
    ShiftConcat(Visible(nodes, k, groups), Last(nodes, k, groups), dx, dy);
  }

  lemma {:induction false} LastIsOne(nodes: seq<Node>, k: nat, groups: set<string>)
    requires k < |nodes|
    ensures |Last(nodes, k, groups)| <= 1
  {
  }

  lemma {:induction false} ShiftConcat(a: seq<View>, b: seq<View>, dx: int, dy: int)
    requires |b| <= 1
    ensures ShiftAll(a + b, dx, dy) == ShiftAll(a, dx, dy) + ShiftAll(b, dx, dy)
  {
    if b == [] {
      assert a + b == a;
    } else {
      assert (a + b)[..|a + b| - 1] == a && b[..|b| - 1] == [];
    }
  }

  // ---------- the same nodes, no larger and no further out

  predicate SameData(a: NodeData, b: NodeData) {
    match a
    case StageData(c, t) => b == a
    case RailData(v, _) => b.RailData? && b.variant == v
    case GroupData(c, t, _) => b.GroupData? && b.caption == c && b.status == t
  }

  predicate Smaller(a: View, b: View) {
    && a.node.id == b.node.id && a.node.parent == b.node.parent && SameData(a.node.data, b.node.data)
    && a.node.x <= b.node.x && a.node.y <= b.node.y && a.node.w <= b.node.w && a.node.h <= b.node.h
    && a.box.x <= b.box.x && a.box.y <= b.box.y && a.box.w <= b.box.w && a.box.h <= b.box.h
  }

  predicate AllSmaller(a: seq<View>, b: seq<View>) {
    |a| == |b| && forall i | 0 <= i < |a| :: Smaller(a[i], b[i])
  }

  lemma {:induction false} ShiftSmaller(a: seq<View>, b: seq<View>, dx: int, dy: int, dx': int, dy': int)
    requires AllSmaller(a, b) && dx <= dx' && dy <= dy'
    ensures AllSmaller(ShiftAll(a, dx, dy), ShiftAll(b, dx', dy'))
  {
    if a != [] {
      ShiftSmaller(a[..|a| - 1], b[..|b| - 1], dx, dy, dx', dy');
    }
  }

  lemma {:induction false} SmallerConcat(a: seq<View>, a': seq<View>, b: seq<View>, b': seq<View>)
    requires AllSmaller(a', a) && AllSmaller(b', b)
    ensures AllSmaller(a' + b', a + b)
  {
    hide Smaller;
  }

  /** `nodes` is what is left of `before` when the groups are collapsed. */
  predicate Left(nodes: seq<Node>, before: seq<Node>, groups: set<string>) {
    AllSmaller(AllVisible(nodes, {}), AllVisible(before, groups))
  }

  lemma {:induction false} LeftJoin(
    a: seq<Node>, a': seq<Node>, b: seq<Node>, b': seq<Node>, parent: Option<string>, groups: set<string>)
    requires Closed(a, parent) && Closed(a', parent) && Closed(b, parent) && Closed(b', parent)
    requires Left(a', a, groups) && Left(b', b, groups)
    ensures Left(a' + b', a + b, groups)
  {
    hide Visible, Closed, AllSmaller, Hidden, ParentIndex;
    VisibleJoin(a, b, |b|, parent, groups);
    VisibleJoin(a', b', |b'|, parent, {});
    SmallerConcat(AllVisible(a, groups), AllVisible(a', {}), AllVisible(b, groups), AllVisible(b', {}));
  }

  lemma {:induction false} LeftSingle(node': Node, node: Node, groups: set<string>)
    requires Smaller(View(node', Rect(node'.x, node'.y, node'.w, node'.h)),
                     View(node, Rect(node.x, node.y, node.w, node.h)))
    ensures Left([node'], [node], groups)
  {
    SingleVisible(node', {});
    SingleVisible(node, groups);
  }

  lemma {:induction false} SingleVisible(node: Node, groups: set<string>)
    ensures AllVisible([node], groups) == [View(node, Rect(node.x, node.y, node.w, node.h))]
  {
    SingleNode(node);
    assert Visible([node], 0, groups) == [];
  }

  lemma {:induction false} OneSmaller(a: View, b: View)
    requires Smaller(a, b)
    ensures AllSmaller([a], [b])
  {
  }

  lemma {:induction false} NoViews()
    ensures AllVisible([], {}) == []
    ensures forall dx, dy :: ShiftAll([], dx, dy) == []
    ensures forall v: View :: [v] + [] == [v]
  {
  }

  lemma {:induction false} HeadAndRest(group: Node, inner: seq<Node>, groups: set<string>)
    requires Closed(inner, Some(group.id))
    ensures AllVisible([group] + inner, groups) ==
            [View(group, Rect(group.x, group.y, group.w, group.h))] +
            if group.id in groups then [] else ShiftAll(AllVisible(inner, groups), group.x, group.y)
  {
    hide Closed, Visible, ShiftAll;
    VisibleGroup(group, inner, |inner|, groups);
    assert |[group] + inner| == 1 + |inner|;
  }

  lemma {:induction false} LeftGroup(
    group': Node, group: Node, inner': seq<Node>, inner: seq<Node>, groups: set<string>)
    requires Closed(inner, Some(group.id)) && Closed(inner', Some(group'.id))
    requires Smaller(View(group', Rect(group'.x, group'.y, group'.w, group'.h)),
                     View(group, Rect(group.x, group.y, group.w, group.h)))
    requires if group.id in groups then inner' == [] else Left(inner', inner, groups)
    ensures Left([group'] + inner', [group] + inner, groups)
  {
    HeadAndRest(group', inner', {});
    HeadAndRest(group, inner, groups);
    hide Visible, Closed, ShiftAll, AllSmaller, Smaller, Hidden, ParentIndex, Abs;
    var head := View(group, Rect(group.x, group.y, group.w, group.h));
    var head' := View(group', Rect(group'.x, group'.y, group'.w, group'.h));
    OneSmaller(head', head);
    if group.id in groups {
      NoViews();
    } else {
      ShiftSmaller(AllVisible(inner', {}), AllVisible(inner, groups), group'.x, group'.y, group.x, group.y);
      SmallerConcat([head], [head'], ShiftAll(AllVisible(inner, groups), group.x, group.y),
                    ShiftAll(AllVisible(inner', {}), group'.x, group'.y));
    }
  }

  // ---------- the parts of two drawings, the second with more groups collapsed

  predicate Shrinks(seg': Segment, seg: Segment, groups: set<string>) {
    && Left(seg'.nodes, seg.nodes, groups)
    && seg'.width <= seg.width && seg'.height <= seg.height
    && seg'.entries == seg.entries && seg'.exits == seg.exits
  }

  lemma {:induction false} StageShrinks(
    s: Stage, id: string, x: int, y: int, x': int, y': int,
    parent: Option<string>, some: set<string>, more: set<string>)
    requires ShorterThan(parent, id) && some <= more && x' <= x && y' <= y
    ensures Shrinks(LayoutStage(s, id, x', y', parent, more), LayoutStage(s, id, x, y, parent, some), more)
    decreases s, 2
  {
    if IsParallel(s) {
      BlockShrinks(s, id, x, y, x', y', parent, some, more);
    } else if IsNested(s) {
      GroupShrinks(s, id, x, y, x', y', parent, some, more);
    } else {
      LeftSingle(LayoutLeaf(s, id, x', y', parent).nodes[0], LayoutLeaf(s, id, x, y, parent).nodes[0], more);
    }
  }

  lemma {:induction false} GroupShrinks(
    s: Stage, id: string, x: int, y: int, x': int, y': int,
    parent: Option<string>, some: set<string>, more: set<string>)
    requires ShorterThan(parent, id) && some <= more && x' <= x && y' <= y && s.nestedPipeline.Some?
    ensures Shrinks(LayoutNestedPipeline(s, id, x', y', parent, more),
                    LayoutNestedPipeline(s, id, x, y, parent, some), more)
    decreases s, 1
  {
    hide LayoutStages, Left, Closed;
    var seg', seg := LayoutNestedPipeline(s, id, x', y', parent, more), LayoutNestedPipeline(s, id, x, y, parent, some);
    var stages, path := s.nestedPipeline.value.stages, NestedPath(id);
    if !IsOpen(s, id, some) {
      LeftSingle(seg'.nodes[0], seg.nodes[0], more);
    } else {
      var inner := LayoutStages(stages, path, GROUP_PAD, HEADER_H + GROUP_PAD, Some(id), some);
      InnerNeat(stages, id, some);
      if IsOpen(s, id, more) {
        var inner' := LayoutStages(stages, path, GROUP_PAD, HEADER_H + GROUP_PAD, Some(id), more);
        InnerNeat(stages, id, more);
        InnerShrinks(stages, id, some, more);
        LeftGroup(seg'.nodes[0], seg.nodes[0], inner'.nodes, inner.nodes, more);
      } else {
        EmptyClosed(Some(id));
        LeftGroup(seg'.nodes[0], seg.nodes[0], [], inner.nodes, more);
        assert seg'.nodes == [seg'.nodes[0]] + [];
      }
    }
  }

  lemma {:induction false} EmptyClosed(parent: Option<string>)
    ensures Closed([], parent)
  {
  }

  lemma {:induction false} InnerShrinks(stages: seq<Stage>, id: string, some: set<string>, more: set<string>)
    requires some <= more
    ensures var inner := LayoutStages(stages, NestedPath(id), GROUP_PAD, HEADER_H + GROUP_PAD, Some(id), some);
            var inner' := LayoutStages(stages, NestedPath(id), GROUP_PAD, HEADER_H + GROUP_PAD, Some(id), more);
            Left(inner'.nodes, inner.nodes, more) && inner'.width <= inner.width && inner'.height <= inner.height
    decreases stages, 1
  {
    hide Left;
    RowShrinks(stages, |stages|, NestedPath(id), GROUP_PAD, HEADER_H + GROUP_PAD, GROUP_PAD, HEADER_H + GROUP_PAD,
               Some(id), some, more);
  }

  lemma {:induction false} InnerNeat(stages: seq<Stage>, id: string, collapsed: set<string>)
    ensures var inner := LayoutStages(stages, NestedPath(id), GROUP_PAD, HEADER_H + GROUP_PAD, Some(id), collapsed);
            Closed(inner.nodes, Some(id)) && inner.width >= 0 && inner.height >= 0
  {
    RowNeat(stages, |stages|, NestedPath(id), GROUP_PAD, HEADER_H + GROUP_PAD, Some(id), collapsed);
  }

  predicate BranchesShrink(b': Branches, b: Branches, y': int, y: int, groups: set<string>) {
    Left(b'.nodes, b.nodes, groups) && b'.nextY - y' <= b.nextY - y && b'.maxW <= b.maxW
  }

  lemma {:induction false} AddBranchShrinks(
    acc': Branches, acc: Branches, placed': Segment, placed: Segment, i: nat, prefix: string, y': int, y: int,
    parent: Option<string>, groups: set<string>)
    requires BranchesShrink(acc', acc, y', y, groups) && Shrinks(placed', placed, groups)
    requires Closed(acc.nodes, parent) && Closed(acc'.nodes, parent)
    requires Closed(placed.nodes, parent) && Closed(placed'.nodes, parent)
    ensures BranchesShrink(AddBranch(acc', placed', i, prefix, y'), AddBranch(acc, placed, i, prefix, y), y', y, groups)
  {
    hide Left, Closed;
    LeftJoin(acc.nodes, acc'.nodes, placed.nodes, placed'.nodes, parent, groups);
  }

  lemma {:induction false} ShrinkBelow(b': Branches, b: Branches, y': int, y: int, groups: set<string>)
    requires BranchesShrink(b', b, y', y, groups) && y' <= y
    ensures b'.nextY <= b.nextY
  {
  }

  lemma {:induction false} BranchClosed(
    stages: seq<Stage>, n: nat, prefix: string, childX: int, y: int, parent: Option<string>, groups: set<string>)
    requires 0 < n <= |stages| && ShorterThan(parent, prefix)
    ensures var acc := BranchesUpTo(stages, n - 1, prefix, childX, y, parent, groups);
            var id := Child(prefix, stages[n - 1].id);
            && Closed(acc.nodes, parent) && ShorterThan(parent, id)
            && Closed(LayoutStage(stages[n - 1], id, childX, acc.nextY, parent, groups).nodes, parent)
  {
    hide LayoutStage, BranchesUpTo, Closed, Tidy;
    BranchesNeat(stages, n - 1, prefix, childX, y, parent, groups);
    var acc, id := BranchesUpTo(stages, n - 1, prefix, childX, y, parent, groups), Child(prefix, stages[n - 1].id);
    StageNeat(stages[n - 1], id, childX, acc.nextY, parent, groups);
  }

  lemma {:induction false} BranchesShrinkAll(
    stages: seq<Stage>, n: nat, prefix: string, childX: int, y: int, childX': int, y': int,
    parent: Option<string>, some: set<string>, more: set<string>)
    requires n <= |stages| && ShorterThan(parent, prefix) && some <= more && childX' <= childX && y' <= y
    ensures BranchesShrink(BranchesUpTo(stages, n, prefix, childX', y', parent, more),
                           BranchesUpTo(stages, n, prefix, childX, y, parent, some), y', y, more)
    decreases stages, 0, n
  {
    if n > 0 {
      hide LayoutStage, Left, Closed, AddBranch, BranchesShrink, Shrinks, ShorterThan;
      var acc' := BranchesUpTo(stages, n - 1, prefix, childX', y', parent, more);
      var acc := BranchesUpTo(stages, n - 1, prefix, childX, y, parent, some);
      var id := Child(prefix, stages[n - 1].id);
      BranchesShrinkAll(stages, n - 1, prefix, childX, y, childX', y', parent, some, more);
      BranchClosed(stages, n, prefix, childX, y, parent, some);
      BranchClosed(stages, n, prefix, childX', y', parent, more);
      ShrinkBelow(acc', acc, y', y, more);
      StageShrinks(stages[n - 1], id, childX, acc.nextY, childX', acc'.nextY, parent, some, more);
      AddBranchShrinks(
        acc', acc, LayoutStage(stages[n - 1], id, childX', acc'.nextY, parent, more),
        LayoutStage(stages[n - 1], id, childX, acc.nextY, parent, some), n - 1, prefix, y', y, parent, more);
    } else {
      NothingLeft(more);
      hide Left;
    }
  }

  lemma {:induction false} NothingLeft(groups: set<string>)
    ensures Left([], [], groups)
  {
  }

  lemma {:induction false} BlockShrinks(
    s: Stage, id: string, x: int, y: int, x': int, y': int,
    parent: Option<string>, some: set<string>, more: set<string>)
    requires ShorterThan(parent, id) && some <= more && x' <= x && y' <= y && |s.parallelStages| > 0
    ensures Shrinks(LayoutParallelBlock(s, id, x', y', parent, more),
                    LayoutParallelBlock(s, id, x, y, parent, some), more)
    decreases s, 1
  {
    hide Left, Closed, Tidy, BranchesUpTo, CloseBlock, Shrinks, BranchesShrink;
    var stages, n := s.parallelStages, |s.parallelStages|;
    var childX, childX' := x + RAIL_GAP + RAIL_W, x' + RAIL_GAP + RAIL_W;
    BranchesShrinkAll(stages, n, id, childX, y, childX', y', parent, some, more);
    BranchesNeat(stages, n, id, childX, y, parent, some);
    BranchesNeat(stages, n, id, childX', y', parent, more);
    CloseBlockShrinks(BranchesUpTo(stages, n, id, childX', y', parent, more),
                      BranchesUpTo(stages, n, id, childX, y, parent, some), n, id, x, y, x', y', parent, more);
  }

  lemma {:induction false} CloseBlockShrinks(
    b': Branches, b: Branches, n: nat, id: string, x: int, y: int, x': int, y': int,
    parent: Option<string>, groups: set<string>)
    requires n > 0 && ShorterThan(parent, id) && x' <= x && y' <= y
    requires Closed(b.nodes, parent) && Closed(b'.nodes, parent) && BranchesShrink(b', b, y', y, groups)
    ensures Shrinks(CloseBlock(b', n, id, x', y', parent), CloseBlock(b, n, id, x, y, parent), groups)
  {
    hide Closed;
    var seg', seg := CloseBlock(b', n, id, x', y', parent), CloseBlock(b, n, id, x, y, parent);
    var split, merge := seg.nodes[|b.nodes|], seg.nodes[|b.nodes| + 1];
    var split', merge' := seg'.nodes[|b'.nodes|], seg'.nodes[|b'.nodes| + 1];
    SingleNode(split);
    SingleNode(merge);
    SingleNode(split');
    SingleNode(merge');
    LeftSingle(split', split, groups);
    LeftSingle(merge', merge, groups);
    assert seg.nodes == b.nodes + [split] + [merge] && seg'.nodes == b'.nodes + [split'] + [merge'];
    hide Left, CloseBlock;
    LeftJoin(b.nodes, b'.nodes, [split], [split'], parent, groups);
    JoinClosed(b.nodes, [split], parent);
    JoinClosed(b'.nodes, [split'], parent);
    LeftJoin(b.nodes + [split], b'.nodes + [split'], [merge], [merge'], parent, groups);
  }

  predicate RowsShrink(row': Row, row: Row, x': int, x: int, groups: set<string>) {
    && Left(row'.nodes, row.nodes, groups) && row'.nextX - x' <= row.nextX - x && row'.maxH <= row.maxH
    && row'.firstEntries == row.firstEntries && row'.prevExits == row.prevExits
  }

  lemma {:induction false} AddStageShrinks(
    acc': Row, acc: Row, placed': Segment, placed: Segment, i: nat, x': int, x: int,
    parent: Option<string>, groups: set<string>)
    requires RowsShrink(acc', acc, x', x, groups) && Shrinks(placed', placed, groups)
    requires Closed(acc.nodes, parent) && Closed(acc'.nodes, parent)
    requires Closed(placed.nodes, parent) && Closed(placed'.nodes, parent)
    ensures RowsShrink(AddStage(acc', placed', i), AddStage(acc, placed, i), x', x, groups)
  {
    hide Left, Closed, Connect;
    LeftJoin(acc.nodes, acc'.nodes, placed.nodes, placed'.nodes, parent, groups);
  }

  lemma {:induction false} RowPartsClosed(
    stages: seq<Stage>, n: nat, path: string, x: int, y: int, parent: Option<string>, collapsed: set<string>)
    requires n < |stages| && ShorterThan(parent, path)
    ensures var acc := RowUpTo(stages, n, path, x, y, parent, collapsed);
            && Closed(acc.nodes, parent)
            && Closed(LayoutStage(stages[n], Child(path, stages[n].id), acc.nextX, y, parent, collapsed).nodes, parent)
  {
    hide Closed, Tidy, LayoutStage, RowUpTo;
    RowNeat(stages, n, path, x, y, parent, collapsed);
    StageNeat(stages[n], Child(path, stages[n].id), RowUpTo(stages, n, path, x, y, parent, collapsed).nextX, y,
              parent, collapsed);
  }

  lemma {:induction false} RowShrinks(
    stages: seq<Stage>, n: nat, path: string, x: int, y: int, x': int, y': int,
    parent: Option<string>, some: set<string>, more: set<string>)
    requires n <= |stages| && ShorterThan(parent, path) && some <= more && x' <= x && y' <= y
    ensures RowsShrink(RowUpTo(stages, n, path, x', y', parent, more), RowUpTo(stages, n, path, x, y, parent, some),
                       x', x, more)
    decreases stages, 0, n
  {
    hide LayoutStage, Left, Closed, AddStage;
    if n > 0 {
      var acc' := RowUpTo(stages, n - 1, path, x', y', parent, more);
      var acc := RowUpTo(stages, n - 1, path, x, y, parent, some);
      var id := Child(path, stages[n - 1].id);
      RowShrinks(stages, n - 1, path, x, y, x', y', parent, some, more);
      StageShrinks(stages[n - 1], id, acc.nextX, y, acc'.nextX, y', parent, some, more);
      RowPartsClosed(stages, n - 1, path, x, y, parent, some);
      RowPartsClosed(stages, n - 1, path, x', y', parent, more);
      AddStageShrinks(acc', acc, LayoutStage(stages[n - 1], id, acc'.nextX, y', parent, more),
                      LayoutStage(stages[n - 1], id, acc.nextX, y, parent, some), n - 1, x', x, parent, more);
    } else {
      NothingLeft(more);
    }
  }
}
