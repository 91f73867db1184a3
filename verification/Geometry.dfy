/** No two boxes of a drawing overlap unless one is drawn inside the other. */
module Geometry {
  import opened Options
  import opened Layout
  import opened Placement

  predicate Within(inner: Rect, outer: Rect) {
    && outer.x <= inner.x && inner.x + inner.w <= outer.x + outer.w
    && outer.y <= inner.y && inner.y + inner.h <= outer.y + outer.h
  }

  /** The margins a group keeps around everything in it; its header sits in the upper one. */
  predicate Margins(outer: Rect, inner: Rect) {
    && outer.x + GROUP_PAD <= inner.x && inner.x + inner.w + GROUP_PAD <= outer.x + outer.w
    && outer.y + HEADER_H + GROUP_PAD <= inner.y && inner.y + inner.h + GROUP_PAD <= outer.y + outer.h
  }

  predicate Apart(a: Rect, b: Rect) {
    || a.x + a.w + GAP_Y <= b.x || b.x + b.w + GAP_Y <= a.x
    || a.y + a.h + GAP_Y <= b.y || b.y + b.h + GAP_Y <= a.y
  }

  predicate Intersect(a: Rect, b: Rect) {
    && a.x < b.x + b.w && b.x < a.x + a.w
    && a.y < b.y + b.h && b.y < a.y + a.h
  }

  predicate PairOk(nodes: seq<Node>, j: nat, k: nat)
    requires j < k < |nodes|
  {
    if IsAncestor(nodes, j, k) then Margins(Abs(nodes, j), Abs(nodes, k)) else Apart(Abs(nodes, j), Abs(nodes, k))
  }

  predicate AllWithin(nodes: seq<Node>, r: Rect) {
    forall k | 0 <= k < |nodes| :: Within(Abs(nodes, k), r) && nodes[k].w > 0 && nodes[k].h > 0
  }

  predicate AllPairsOk(nodes: seq<Node>) {
    forall j, k | 0 <= j < k < |nodes| :: PairOk(nodes, j, k)
  }

  predicate Tidy(nodes: seq<Node>, r: Rect) {
    AllWithin(nodes, r) && AllPairsOk(nodes)
  }

  lemma {:induction false} JoinTidy(
    a: seq<Node>, ra: Rect, b: seq<Node>, rb: Rect, r: Rect, parent: Option<string>)
    requires Closed(a, parent) && Closed(b, parent) && Tidy(a, ra) && Tidy(b, rb)
    requires a != [] && b != [] ==> Apart(ra, rb)
    requires (a != [] ==> Within(ra, r)) && (b != [] ==> Within(rb, r))
    ensures Closed(a + b, parent) && Tidy(a + b, r)
  {
    JoinClosed(a, b, parent);
    JoinWithin(a, ra, b, rb, r, parent);
    JoinPairs(a, ra, b, rb, parent);
  }

  lemma {:induction false} JoinWithin(
    a: seq<Node>, ra: Rect, b: seq<Node>, rb: Rect, r: Rect, parent: Option<string>)
    requires Closed(a, parent) && Closed(b, parent) && AllWithin(a, ra) && AllWithin(b, rb)
    requires (a != [] ==> Within(ra, r)) && (b != [] ==> Within(rb, r))
    ensures AllWithin(a + b, r)
  {
    hide Abs, IsAncestor, ParentIndex, FindLast, Closed;
    forall k | 0 <= k < |a + b|
      ensures Within(Abs(a + b, k), r) && (a + b)[k].w > 0 && (a + b)[k].h > 0
    {
      if k < |a| {
        JoinLeft(a, b, k);
        assert Within(Abs(a, k), ra) && (a + b)[k] == a[k];
      } else {
        JoinRight(a, b, k - |a|, parent);
        assert Within(Abs(b, k - |a|), rb) && (a + b)[k] == b[k - |a|];
      }
    }
  }

  lemma {:induction false} JoinPairs(
    a: seq<Node>, ra: Rect, b: seq<Node>, rb: Rect, parent: Option<string>)
    requires Closed(a, parent) && Closed(b, parent) && AllWithin(a, ra) && AllWithin(b, rb)
    requires AllPairsOk(a) && AllPairsOk(b)
    requires a != [] && b != [] ==> Apart(ra, rb)
    ensures AllPairsOk(a + b)
  {
    hide Abs, IsAncestor, ParentIndex, FindLast, Closed, Apart, Within, PairOk;
    var all := a + b;
    forall j, k | 0 <= j < k < |all| ensures PairOk(all, j, k) {
      if k < |a| {
        JoinPairLeft(a, b, j, k);
      } else if j < |a| {
        JoinPairAcross(a, ra, b, rb, parent, j, k - |a|);
      } else {
        JoinPairRight(a, b, parent, j - |a|, k - |a|);
      }
    }
  }

  lemma {:induction false} JoinPairLeft(a: seq<Node>, b: seq<Node>, j: nat, k: nat)
    requires j < k < |a| && PairOk(a, j, k)
    ensures PairOk(a + b, j, k)
  {
    JoinLeft(a, b, j);
    JoinLeft(a, b, k);
    hide Abs, IsAncestor;
  }

  lemma {:induction false} JoinPairAcross(
    a: seq<Node>, ra: Rect, b: seq<Node>, rb: Rect, parent: Option<string>, j: nat, k: nat)
    requires Closed(a, parent) && Closed(b, parent)
    requires j < |a| && k < |b|
    requires Within(Abs(a, j), ra) && Within(Abs(b, k), rb) && Apart(ra, rb)
    ensures PairOk(a + b, j, |a| + k)
  {
    JoinLeft(a, b, j);
    JoinRight(a, b, k, parent);
    hide Abs, IsAncestor, Closed;
  }

  lemma {:induction false} JoinPairRight(a: seq<Node>, b: seq<Node>, parent: Option<string>, j: nat, k: nat)
    requires Closed(a, parent) && Closed(b, parent)
    requires j < k < |b| && PairOk(b, j, k)
    ensures PairOk(a + b, |a| + j, |a| + k)
  {
    JoinRight(a, b, j, parent);
    JoinRight(a, b, k, parent);
    hide Abs, IsAncestor, Closed;
  }

  lemma {:induction false} GroupTidy(group: Node, inner: seq<Node>, ri: Rect)
    requires Closed(inner, Some(group.id)) && Tidy(inner, ri)
    requires group.parent != Some(group.id)
    requires forall k | 0 <= k < |inner| :: group.parent != Some(inner[k].id)
    requires Margins(Rect(0, 0, group.w, group.h), ri)
    requires group.w > 0 && group.h > 0
    ensures Closed([group] + inner, group.parent)
    ensures Tidy([group] + inner, Rect(group.x, group.y, group.w, group.h))
  {
    GroupClosed(group, inner);
    hide Abs, IsAncestor, ParentIndex, FindLast, Closed, Within, Margins;
    GroupWithin(group, inner, ri);
    GroupPairs(group, inner, ri);
  }

  lemma {:induction false} GroupWithin(group: Node, inner: seq<Node>, ri: Rect)
    requires Closed(inner, Some(group.id)) && AllWithin(inner, ri)
    requires Margins(Rect(0, 0, group.w, group.h), ri) && group.w > 0 && group.h > 0
    requires Abs([group] + inner, 0) == Rect(group.x, group.y, group.w, group.h)
    ensures AllWithin([group] + inner, Rect(group.x, group.y, group.w, group.h))
  {
    hide Abs, IsAncestor, ParentIndex, FindLast, Closed;
    var nodes := [group] + inner;
    forall k | 0 <= k < |nodes|
      ensures Within(Abs(nodes, k), Rect(group.x, group.y, group.w, group.h)) && nodes[k].w > 0 && nodes[k].h > 0
    {
      if k > 0 {
        Inside(group, inner, k - 1);
        assert Within(Abs(inner, k - 1), ri) && nodes[k] == inner[k - 1];
      }
    }
  }

  lemma {:induction false} GroupPairs(group: Node, inner: seq<Node>, ri: Rect)
    requires Closed(inner, Some(group.id)) && AllWithin(inner, ri) && AllPairsOk(inner)
    requires Margins(Rect(0, 0, group.w, group.h), ri)
    requires Abs([group] + inner, 0) == Rect(group.x, group.y, group.w, group.h)
    ensures AllPairsOk([group] + inner)
  {
    hide Abs, IsAncestor, ParentIndex, FindLast, Closed, PairOk, Within, Margins;
    var nodes := [group] + inner;
    forall j, k | 0 <= j < k < |nodes| ensures PairOk(nodes, j, k) {
      if j == 0 {
        GroupPairOuter(group, inner, ri, k - 1);
      } else {
        GroupPairInner(group, inner, j - 1, k - 1);
      }
    }
  }

  lemma {:induction false} GroupPairOuter(group: Node, inner: seq<Node>, ri: Rect, k: nat)
    requires Closed(inner, Some(group.id)) && k < |inner| && Within(Abs(inner, k), ri)
    requires Margins(Rect(0, 0, group.w, group.h), ri)
    requires Abs([group] + inner, 0) == Rect(group.x, group.y, group.w, group.h)
    ensures PairOk([group] + inner, 0, 1 + k)
  {
    Inside(group, inner, k);
    hide Abs, IsAncestor, Closed;
  }

  lemma {:induction false} GroupPairInner(group: Node, inner: seq<Node>, j: nat, k: nat)
    requires Closed(inner, Some(group.id)) && j < k < |inner| && PairOk(inner, j, k)
    ensures PairOk([group] + inner, 1 + j, 1 + k)
  {
    Inside(group, inner, j);
    Inside(group, inner, k);
    hide Abs, IsAncestor, Closed;
  }

  // ---------- what every part of a drawing keeps

  predicate ShorterThan(parent: Option<string>, id: string) {
    parent.Some? ==> |parent.value| < |id|
  }

  predicate LongIds(nodes: seq<Node>, length: nat) {
    forall k | 0 <= k < |nodes| :: |nodes[k].id| >= length
  }

  predicate Sized(width: int, height: int) {
    width >= RAIL_W && height >= LEAF_H && height % 2 == 0
  }

  predicate Neat(seg: Segment, x: int, y: int, parent: Option<string>, idLength: nat) {
    && Sized(seg.width, seg.height) && seg.nodes != []
    && LongIds(seg.nodes, idLength)
    && Closed(seg.nodes, parent)
    && Tidy(seg.nodes, Rect(x, y, seg.width, seg.height))
  }

  lemma {:induction false} LeafTidy(node: Node)
    requires node.parent != Some(node.id) && node.w > 0 && node.h > 0
    ensures Closed([node], node.parent) && Tidy([node], Rect(node.x, node.y, node.w, node.h))
  {
    SingleNode(node);
  }

  lemma {:induction false} StageNeat(
    s: Stage, id: string, x: int, y: int, parent: Option<string>, collapsed: set<string>)
    requires ShorterThan(parent, id)
    ensures Neat(LayoutStage(s, id, x, y, parent, collapsed), x, y, parent, |id|)
    decreases s, 2
  {
    if IsParallel(s) {
      BlockNeat(s, id, x, y, parent, collapsed);
    } else if IsNested(s) {
      GroupNeat(s, id, x, y, parent, collapsed);
    } else {
      LeafTidy(LayoutLeaf(s, id, x, y, parent).nodes[0]);
    }
  }

  lemma {:induction false} GroupNeat(
    s: Stage, id: string, x: int, y: int, parent: Option<string>, collapsed: set<string>)
    requires ShorterThan(parent, id) && s.nestedPipeline.Some?
    ensures Neat(LayoutNestedPipeline(s, id, x, y, parent, collapsed), x, y, parent, |id|)
    decreases s, 1
  {
    hide Abs, IsAncestor, ParentIndex, FindLast, Closed, Tidy;
    var seg := LayoutNestedPipeline(s, id, x, y, parent, collapsed);
    if IsOpen(s, id, collapsed) {
      var stages := s.nestedPipeline.value.stages;
      var inner := LayoutStages(stages, NestedPath(id), GROUP_PAD, HEADER_H + GROUP_PAD, Some(id), collapsed);
      RowNeat(stages, |stages|, NestedPath(id), GROUP_PAD, HEADER_H + GROUP_PAD, Some(id), collapsed);
      GroupTidy(seg.nodes[0], inner.nodes, Rect(GROUP_PAD, HEADER_H + GROUP_PAD, inner.width, inner.height));
    } else {
      LeafTidy(seg.nodes[0]);
    }
  }

  lemma {:induction false} BlockNeat(
    s: Stage, id: string, x: int, y: int, parent: Option<string>, collapsed: set<string>)
    requires ShorterThan(parent, id) && |s.parallelStages| > 0
    ensures Neat(LayoutParallelBlock(s, id, x, y, parent, collapsed), x, y, parent, |id|)
    decreases s, 1
  {
    hide Abs, IsAncestor, ParentIndex, FindLast, Closed, Tidy;
    var stages := s.parallelStages;
    var childX := x + RAIL_GAP + RAIL_W;
    BranchesNeat(stages, |stages|, id, childX, y, parent, collapsed);
    var b := BranchesUpTo(stages, |stages|, id, childX, y, parent, collapsed);
    var seg := CloseBlock(b, |stages|, id, x, y, parent);
    var split, merge := seg.nodes[|b.nodes|], seg.nodes[|b.nodes| + 1];
    LeafTidy(split);
    LeafTidy(merge);
    JoinTidy([split], Rect(split.x, split.y, split.w, split.h), [merge], Rect(merge.x, merge.y, merge.w, merge.h),
             Rect(x, y, seg.width, seg.height), parent);
    RailsAround(b.nodes, Rect(childX, y, b.maxW, seg.height), split, merge,
                Rect(x, y, seg.width, seg.height), parent);
    assert seg.nodes == b.nodes + [split, merge];
  }

  /** Putting the rails on either side of the branches keeps the drawing tidy. */
  lemma {:induction false} RailsAround(
    nodes: seq<Node>, inner: Rect, split: Node, merge: Node, r: Rect, parent: Option<string>)
    requires Closed(nodes, parent) && Tidy(nodes, inner)
    requires split.parent == merge.parent == parent && parent != Some(split.id) && parent != Some(merge.id)
    requires split.w > 0 && split.h > 0 && merge.w > 0 && merge.h > 0
    requires split.x + split.w + GAP_Y <= inner.x && inner.x + inner.w + GAP_Y <= merge.x && inner.w >= 0
    requires Within(Rect(split.x, split.y, split.w, split.h), r)
    requires Within(Rect(merge.x, merge.y, merge.w, merge.h), r)
    requires Within(inner, r)
    ensures Closed(nodes + [split, merge], parent) && Tidy(nodes + [split, merge], r)
  {
    hide Abs, IsAncestor, ParentIndex, FindLast, Closed, Tidy;
    LeafTidy(split);
    LeafTidy(merge);
    JoinTidy(nodes, inner, [split], Rect(split.x, split.y, split.w, split.h),
             Rect(r.x, r.y, merge.x - GAP_Y - r.x, r.h), parent);
    JoinTidy(nodes + [split], Rect(r.x, r.y, merge.x - GAP_Y - r.x, r.h),
             [merge], Rect(merge.x, merge.y, merge.w, merge.h), r, parent);
    assert nodes + [split, merge] == (nodes + [split]) + [merge];
  }

  lemma {:induction false} EmptyTidy(parent: Option<string>, r: Rect)
    ensures Closed([], parent) && Tidy([], r) && forall n: nat :: LongIds([], n)
  {
  }

  predicate NeatBranches(b: Branches, childX: int, y: int, parent: Option<string>, idLength: nat) {
    && Closed(b.nodes, parent) && LongIds(b.nodes, idLength)
    && Tidy(b.nodes, Rect(childX, y, b.maxW, b.nextY - y - GAP_Y))
    && b.maxW >= 0 && (b.nodes == [] ==> b.nextY == y)
    && (b.nodes != [] ==> b.maxW >= RAIL_W && b.nextY - y - GAP_Y >= LEAF_H && (b.nextY - y) % 2 == 0)
  }

  lemma {:induction false} AddBranchNeat(
    acc: Branches, placed: Segment, i: nat, prefix: string, childX: int, y: int, parent: Option<string>)
    requires NeatBranches(acc, childX, y, parent, |prefix|)
    requires Neat(placed, childX, acc.nextY, parent, |prefix|)
    ensures NeatBranches(AddBranch(acc, placed, i, prefix, y), childX, y, parent, |prefix|)
  {
    JoinTidy(acc.nodes, Rect(childX, y, acc.maxW, acc.nextY - y - GAP_Y),
             placed.nodes, Rect(childX, acc.nextY, placed.width, placed.height),
             Rect(childX, y, Max(acc.maxW, placed.width), acc.nextY + placed.height - y), parent);
    hide Closed, AllWithin, AllPairsOk;
  }

  lemma {:induction false} BranchesNeat(
    stages: seq<Stage>, n: nat, prefix: string, childX: int, y: int, parent: Option<string>, collapsed: set<string>)
    requires n <= |stages| && ShorterThan(parent, prefix)
    ensures var b := BranchesUpTo(stages, n, prefix, childX, y, parent, collapsed);
            NeatBranches(b, childX, y, parent, |prefix|) && (n > 0 ==> b.nodes != [])
    decreases stages, 0, n
  {
    EmptyTidy(parent, Rect(childX, y, 0, -GAP_Y));
    hide Closed, Tidy, LayoutStage;
    if n > 0 {
      var acc := BranchesUpTo(stages, n - 1, prefix, childX, y, parent, collapsed);
      var id := Child(prefix, stages[n - 1].id);
      var placed := LayoutStage(stages[n - 1], id, childX, acc.nextY, parent, collapsed);
      BranchesNeat(stages, n - 1, prefix, childX, y, parent, collapsed);
      StageNeat(stages[n - 1], id, childX, acc.nextY, parent, collapsed);
      AddBranchNeat(acc, placed, n - 1, prefix, childX, y, parent);
    }
  }

  predicate NeatRow(row: Row, x: int, y: int, parent: Option<string>, idLength: nat) {
    && Closed(row.nodes, parent) && LongIds(row.nodes, idLength)
    && Tidy(row.nodes, Rect(x, y, row.nextX - x - GAP_X, row.maxH))
    && (row.nodes == [] ==> row.nextX == x && row.maxH == 0)
    && (row.nodes != [] ==> Sized(row.nextX - x - GAP_X, row.maxH))
  }

  lemma {:induction false} AddStageNeat(
    acc: Row, placed: Segment, i: nat, x: int, y: int, parent: Option<string>, idLength: nat)
    requires NeatRow(acc, x, y, parent, idLength)
    requires Neat(placed, acc.nextX, y, parent, idLength)
    ensures NeatRow(AddStage(acc, placed, i), x, y, parent, idLength)
  {
    JoinTidy(acc.nodes, Rect(x, y, acc.nextX - x - GAP_X, acc.maxH),
             placed.nodes, Rect(acc.nextX, y, placed.width, placed.height),
             Rect(x, y, acc.nextX + placed.width - x, Max(acc.maxH, placed.height)), parent);
    hide Closed, AllWithin, AllPairsOk, Connect;
  }

  lemma {:induction false} RowNeat(
    stages: seq<Stage>, n: nat, path: string, x: int, y: int, parent: Option<string>, collapsed: set<string>)
    requires n <= |stages| && ShorterThan(parent, path)
    ensures var row := RowUpTo(stages, n, path, x, y, parent, collapsed);
            NeatRow(row, x, y, parent, |path|) && (n > 0 ==> row.nodes != [])
    decreases stages, 0, n
  {
    EmptyTidy(parent, Rect(x, y, -GAP_X, 0));
    hide Closed, Tidy, LayoutStage;
    if n > 0 {
      var acc := RowUpTo(stages, n - 1, path, x, y, parent, collapsed);
      var id := Child(path, stages[n - 1].id);
      var placed := LayoutStage(stages[n - 1], id, acc.nextX, y, parent, collapsed);
      RowNeat(stages, n - 1, path, x, y, parent, collapsed);
      StageNeat(stages[n - 1], id, acc.nextX, y, parent, collapsed);
      AddStageNeat(acc, placed, n - 1, x, y, parent, |path|);
    }
  }

  // ---------- the theorem

  /** For every report and every collapsed set: two boxes of the drawing overlap exactly when one is
      an ancestor of the other; then the inner one keeps the group's margins, else they are a gap apart. */
  lemma NoOverlap(stages: seq<Stage>, collapsed: set<string>, j: nat, k: nat)
    requires var nodes := LayoutReport(stages, collapsed).nodes; j < |nodes| && k < |nodes| && j != k
    ensures var nodes := LayoutReport(stages, collapsed).nodes;
            && (Intersect(Abs(nodes, j), Abs(nodes, k)) <==> IsAncestor(nodes, j, k) || IsAncestor(nodes, k, j))
            && (IsAncestor(nodes, j, k) ==> j < k && Margins(Abs(nodes, j), Abs(nodes, k)))
            && (!IsAncestor(nodes, j, k) && !IsAncestor(nodes, k, j) ==> Apart(Abs(nodes, j), Abs(nodes, k)))
  {
    var nodes := LayoutReport(stages, collapsed).nodes;
    RowNeat(stages, |stages|, "root", ROOT_OFFSET, ROOT_OFFSET, None, collapsed);
    if IsAncestor(nodes, j, k) { AncestorIsEarlier(nodes, j, k); }
    if IsAncestor(nodes, k, j) { AncestorIsEarlier(nodes, k, j); }
    if j < k { assert PairOk(nodes, j, k); } else { assert PairOk(nodes, k, j); }
    assert Abs(nodes, j).w == nodes[j].w && Abs(nodes, k).w == nodes[k].w;
  }
}
