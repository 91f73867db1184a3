/** Node ids are paths. In a well-named report they are pairwise different, and an id ends like a
    rail's exactly when its node is a rail. */
module Names {
  import opened Options
  import opened Text
  import opened Layout
  import opened Placement
  import Geometry

  /** A stage id that cannot be mistaken for a path or for a rail. */
  predicate PlainName(id: string) {
    '/' !in id && id != "split" && id != "merge"
  }

  /** Every stage has a plain id, different from those of its siblings. */
  predicate WellNamed(stages: seq<Stage>) {
    && (forall i | 0 <= i < |stages| :: WellNamedStage(stages[i]))
    && (forall i, j | 0 <= i < j < |stages| :: stages[i].id != stages[j].id)
  }

  predicate WellNamedStage(s: Stage) {
    && PlainName(s.id)
    && (IsParallel(s) ==> WellNamed(s.parallelStages))
    && (IsNested(s) ==> WellNamed(s.nestedPipeline.value.stages))
  }

  /** The id itself, or a path below it. */
  predicate Under(path: string, id: string) {
    id == path || StartsWith(id, path + "/")
  }

  lemma {:induction false} UnderChild(path: string, name: string, id: string)
    requires Under(Child(path, name), id)
    ensures Under(path, id) && id != path && |id| > |path|
  {
    assert path + "/" <= Child(path, name);
  }

  /** Children of one path with different plain names share no id. */
  lemma {:induction false} SiblingsApart(path: string, a: string, b: string, id: string)
    requires '/' !in a && '/' !in b && Under(Child(path, a), id) && Under(Child(path, b), id)
    ensures a == b
  {
    if |a| <= |b| { SiblingPrefix(path, a, b, id); } else { SiblingPrefix(path, b, a, id); }
  }

  lemma {:induction false} SiblingPrefix(path: string, a: string, b: string, id: string)
    requires '/' !in b && |a| <= |b| && Under(Child(path, a), id) && Under(Child(path, b), id)
    ensures a == b
  {
    var n := |path| + 1;
    assert Child(path, a) <= id && Child(path, b) <= id;
    assert forall p | n <= p < n + |a| :: id[p] == a[p - n];
    assert forall p | n <= p < n + |b| :: id[p] == b[p - n];
    assert |id| > n + |a| ==> id[n + |a|] == '/';
    assert |a| == |b|;
    assert a == id[n..n + |a|] == b;
  }

  /** The last path segment decides whether an id looks like a rail's. */
  lemma {:induction false} RailNames(path: string, name: string)
    requires '/' !in name
    ensures EndsWith(Child(path, name), "/split") <==> name == "split"
    ensures EndsWith(Child(path, name), "/merge") <==> name == "merge"
  {
    RailName(path, name, "split");
    RailName(path, name, "merge");
  }

  lemma {:induction false} RailName(path: string, name: string, rail: string)
    requires '/' !in name && '/' !in rail
    ensures EndsWith(Child(path, name), "/" + rail) <==> name == rail
  {
    var id := Child(path, name);
    var at := |id| - |rail| - 1;
    if EndsWith(id, "/" + rail) {
      assert id[at..] == "/" + rail;
      assert id[at] == '/' && id[|path|] == '/';
      assert forall p | |path| < p < |id| :: id[p] == name[p - |path| - 1];
      assert forall p | at < p < |id| :: id[p] == id[at..][p - at] == rail[p - at - 1];
      assert at == |path|;
      assert id[at + 1..] == name && id[at..][1..] == rail;
    }
    if name == rail {
      assert id[at..] == "/" + rail;
    }
  }

  // ---------- what every part of a well-named drawing keeps

  predicate UniqueIds(nodes: seq<Node>) {
    forall i, j | 0 <= i < j < |nodes| :: nodes[i].id != nodes[j].id
  }

  predicate RailsNamed(nodes: seq<Node>) {
    forall k | 0 <= k < |nodes| :: IsRailNodeId(nodes[k].id) <==> nodes[k].data.RailData?
  }

  predicate AllUnder(nodes: seq<Node>, path: string) {
    forall k | 0 <= k < |nodes| :: Under(path, nodes[k].id)
  }

  predicate Named(nodes: seq<Node>, path: string) {
    UniqueIds(nodes) && RailsNamed(nodes) && AllUnder(nodes, path)
  }

  predicate UnderSome(id: string, path: string, stages: seq<Stage>, n: nat)
    requires n <= |stages|
  {
    exists i :: 0 <= i < n && Under(Child(path, stages[i].id), id)
  }

  /** Each node belongs to one of the first `n` siblings. */
  predicate UnderSiblings(nodes: seq<Node>, path: string, stages: seq<Stage>, n: nat)
    requires n <= |stages|
  {
    forall k | 0 <= k < |nodes| :: UnderSome(nodes[k].id, path, stages, n)
  }

  predicate NamedSiblings(nodes: seq<Node>, path: string, stages: seq<Stage>, n: nat)
    requires n <= |stages|
  {
    UniqueIds(nodes) && RailsNamed(nodes) && UnderSiblings(nodes, path, stages, n)
  }

  lemma {:induction false} AddSibling(nodes: seq<Node>, placed: seq<Node>, path: string, stages: seq<Stage>, n: nat)
    requires n < |stages| && WellNamed(stages)
    requires NamedSiblings(nodes, path, stages, n) && Named(placed, Child(path, stages[n].id))
    ensures NamedSiblings(nodes + placed, path, stages, n + 1)
  {
    var all := nodes + placed;
    assert WellNamedStage(stages[n]);
    forall i, j | 0 <= i < j < |all| ensures all[i].id != all[j].id {
      if i < |nodes| <= j && all[i].id == all[j].id {
        assert UnderSome(nodes[i].id, path, stages, n) && Under(Child(path, stages[n].id), placed[j - |nodes|].id);
        SomeSiblingApart(nodes[i].id, path, stages, n);
      }
    }
    forall k | 0 <= k < |all| ensures UnderSome(all[k].id, path, stages, n + 1) {
      if k < |nodes| {
        assert UnderSome(nodes[k].id, path, stages, n);
        MoreSiblings(nodes[k].id, path, stages, n);
      } else {
        assert Under(Child(path, stages[n].id), placed[k - |nodes|].id);
      }
    }
  }

  lemma {:induction false} SomeSiblingApart(id: string, path: string, stages: seq<Stage>, n: nat)
    requires n < |stages| && WellNamed(stages) && UnderSome(id, path, stages, n)
    ensures !Under(Child(path, stages[n].id), id)
  {
    var m :| 0 <= m < n && Under(Child(path, stages[m].id), id);
    assert WellNamedStage(stages[m]) && WellNamedStage(stages[n]);
    if Under(Child(path, stages[n].id), id) {
      SiblingsApart(path, stages[m].id, stages[n].id, id);
    }
  }

  lemma {:induction false} MoreSiblings(id: string, path: string, stages: seq<Stage>, n: nat)
    requires n < |stages| && UnderSome(id, path, stages, n)
    ensures UnderSome(id, path, stages, n + 1)
  {
  }

  lemma {:induction false} SiblingsUnder(nodes: seq<Node>, path: string, stages: seq<Stage>)
    requires UnderSiblings(nodes, path, stages, |stages|)
    ensures AllUnder(nodes, path)
    ensures forall k | 0 <= k < |nodes| :: nodes[k].id != path
  {
    forall k | 0 <= k < |nodes| ensures Under(path, nodes[k].id) && nodes[k].id != path {
      assert UnderSome(nodes[k].id, path, stages, |stages|);
      var i :| 0 <= i < |stages| && Under(Child(path, stages[i].id), nodes[k].id);
      UnderChild(path, stages[i].id, nodes[k].id);
    }
  }

  /** A rail's id belongs to no branch. */
  lemma {:induction false} RailApart(nodes: seq<Node>, prefix: string, stages: seq<Stage>, rail: string)
    requires UnderSiblings(nodes, prefix, stages, |stages|) && WellNamed(stages)
    requires rail == "split" || rail == "merge"
    ensures forall k | 0 <= k < |nodes| :: nodes[k].id != Child(prefix, rail)
  {
    forall k | 0 <= k < |nodes| ensures nodes[k].id != Child(prefix, rail) {
      assert UnderSome(nodes[k].id, prefix, stages, |stages|);
      var i :| 0 <= i < |stages| && Under(Child(prefix, stages[i].id), nodes[k].id);
      assert WellNamedStage(stages[i]);
      if nodes[k].id == Child(prefix, rail) {
        SiblingsApart(prefix, stages[i].id, rail, nodes[k].id);
      }
    }
  }

  // ---------- the parts of a drawing

  lemma {:induction false} StageNamed(
    s: Stage, path: string, x: int, y: int, parent: Option<string>, collapsed: set<string>)
    requires WellNamedStage(s)
    ensures Named(LayoutStage(s, Child(path, s.id), x, y, parent, collapsed).nodes, Child(path, s.id))
    decreases s, 2
  {
    RailNames(path, s.id);
    if IsParallel(s) {
      BlockNamed(s, Child(path, s.id), x, y, parent, collapsed);
    } else if IsNested(s) {
      GroupNamed(s, path, x, y, parent, collapsed);
    }
  }

  lemma {:induction false} GroupNamed(
    s: Stage, path: string, x: int, y: int, parent: Option<string>, collapsed: set<string>)
    requires WellNamedStage(s) && IsNested(s)
    ensures Named(LayoutNestedPipeline(s, Child(path, s.id), x, y, parent, collapsed).nodes, Child(path, s.id))
    decreases s, 1
  {
    var id := Child(path, s.id);
    var seg := LayoutNestedPipeline(s, id, x, y, parent, collapsed);
    RailNames(path, s.id);
    if IsOpen(s, id, collapsed) {
      var stages, inner := s.nestedPipeline.value.stages, NestedPath(id);
      var row := RowUpTo(stages, |stages|, inner, GROUP_PAD, HEADER_H + GROUP_PAD, Some(id), collapsed);
      RowNamed(stages, |stages|, inner, GROUP_PAD, HEADER_H + GROUP_PAD, Some(id), collapsed);
      assert LayoutStages(stages, inner, GROUP_PAD, HEADER_H + GROUP_PAD, Some(id), collapsed).nodes == row.nodes;
      SiblingsUnder(row.nodes, inner, stages);
      forall k | 0 <= k < |row.nodes| ensures Under(id, row.nodes[k].id) && row.nodes[k].id != id {
        assert Under(inner, row.nodes[k].id);
        assert inner == Child(id, "nested");
        UnderChild(id, "nested", row.nodes[k].id);
      }
      assert seg.nodes[1..] == row.nodes;
    }
  }

  lemma {:induction false} BlockNamed(
    s: Stage, id: string, x: int, y: int, parent: Option<string>, collapsed: set<string>)
    requires WellNamed(s.parallelStages) && |s.parallelStages| > 0
    ensures Named(LayoutParallelBlock(s, id, x, y, parent, collapsed).nodes, id)
    decreases s, 1
  {
    var stages, childX := s.parallelStages, x + RAIL_GAP + RAIL_W;
    BranchesNamed(stages, |stages|, id, childX, y, parent, collapsed);
    CloseBlockNamed(BranchesUpTo(stages, |stages|, id, childX, y, parent, collapsed), stages, id, x, y, parent);
  }

  /** The two rails of a block have different ids below it that are those of rails. */
  lemma {:induction false} RailIds(id: string)
    ensures var split, merge := Child(id, "split"), Child(id, "merge");
            && split != merge && IsRailNodeId(split) && IsRailNodeId(merge) && Under(id, split) && Under(id, merge)
  {
    RailNames(id, "split");
    RailNames(id, "merge");
    assert Child(id, "split")[|id| + 1] == 's' && Child(id, "merge")[|id| + 1] == 'm';
  }

  lemma {:induction false} CloseBlockNamed(
    b: Branches, stages: seq<Stage>, id: string, x: int, y: int, parent: Option<string>)
    requires NamedSiblings(b.nodes, id, stages, |stages|) && WellNamed(stages)
    ensures Named(CloseBlock(b, |stages|, id, x, y, parent).nodes, id)
  {
    var nodes := CloseBlock(b, |stages|, id, x, y, parent).nodes;
    var split, merge := nodes[|b.nodes|], nodes[|b.nodes| + 1];
    assert split.id == Child(id, "split") && merge.id == Child(id, "merge");
    assert nodes == b.nodes + [split] + [merge];
    hide UnderSiblings, WellNamed, IsRailNodeId, Under, EndsWith, CloseBlock, AllUnder;
    RailApart(b.nodes, id, stages, "split");
    RailApart(b.nodes, id, stages, "merge");
    SiblingsUnder(b.nodes, id, stages);
    RailIds(id);
    AddNamed(b.nodes, split, id);
    AddNamed(b.nodes + [split], merge, id);
  }

  lemma {:induction false} AddNamed(nodes: seq<Node>, node: Node, path: string)
    requires Named(nodes, path) && Under(path, node.id) && (IsRailNodeId(node.id) <==> node.data.RailData?)
    requires forall k | 0 <= k < |nodes| :: nodes[k].id != node.id
    ensures Named(nodes + [node], path)
  {
    hide Under, IsRailNodeId;
  }

  lemma {:induction false} MemberNamed(stages: seq<Stage>, i: nat)
    requires WellNamed(stages) && i < |stages|
    ensures WellNamedStage(stages[i])
  {
  }

  lemma {:induction false} NoSiblings(path: string, stages: seq<Stage>)
    ensures NamedSiblings([], path, stages, 0)
  {
  }

  lemma {:induction false} BranchesNamed(
    stages: seq<Stage>, n: nat, prefix: string, childX: int, y: int, parent: Option<string>, collapsed: set<string>)
    requires n <= |stages| && WellNamed(stages)
    ensures NamedSiblings(BranchesUpTo(stages, n, prefix, childX, y, parent, collapsed).nodes, prefix, stages, n)
    decreases stages, 0, n
  {
    hide LayoutStage, NamedSiblings, Named, WellNamed, WellNamedStage, SplitEdges, MergeEdges, Child;
    if n == 0 {
      NoSiblings(prefix, stages);
    } else {
      MemberNamed(stages, n - 1);
      var acc := BranchesUpTo(stages, n - 1, prefix, childX, y, parent, collapsed);
      var placed := LayoutStage(stages[n - 1], Child(prefix, stages[n - 1].id), childX, acc.nextY, parent, collapsed);
      assert BranchesUpTo(stages, n, prefix, childX, y, parent, collapsed).nodes == acc.nodes + placed.nodes;
      BranchesNamed(stages, n - 1, prefix, childX, y, parent, collapsed);
      hide BranchesUpTo;
      StageNamed(stages[n - 1], prefix, childX, acc.nextY, parent, collapsed);
      AddSibling(acc.nodes, placed.nodes, prefix, stages, n - 1);
    }
  }

  lemma {:induction false} RowNamed(
    stages: seq<Stage>, n: nat, path: string, x: int, y: int, parent: Option<string>, collapsed: set<string>)
    requires n <= |stages| && WellNamed(stages)
    ensures NamedSiblings(RowUpTo(stages, n, path, x, y, parent, collapsed).nodes, path, stages, n)
    decreases stages, 0, n
  {
    hide LayoutStage, NamedSiblings, Named, WellNamed, WellNamedStage, Connect, Child;
    if n == 0 {
      NoSiblings(path, stages);
    } else {
      MemberNamed(stages, n - 1);
      var acc := RowUpTo(stages, n - 1, path, x, y, parent, collapsed);
      var placed := LayoutStage(stages[n - 1], Child(path, stages[n - 1].id), acc.nextX, y, parent, collapsed);
      assert RowUpTo(stages, n, path, x, y, parent, collapsed).nodes == acc.nodes + placed.nodes;
      RowNamed(stages, n - 1, path, x, y, parent, collapsed);
      hide RowUpTo;
      StageNamed(stages[n - 1], path, acc.nextX, y, parent, collapsed);
      AddSibling(acc.nodes, placed.nodes, path, stages, n - 1);
    }
  }

  /** In a well-named report no two nodes share an id, exactly the rails have rail ids, and a node's
      parent is the one node with the id it names, standing before it. */
  lemma NodesWellFormed(stages: seq<Stage>, collapsed: set<string>)
    requires WellNamed(stages)
    ensures var nodes := LayoutReport(stages, collapsed).nodes;
            && UniqueIds(nodes) && RailsNamed(nodes)
            && forall k | 0 <= k < |nodes| :: nodes[k].parent.Some? ==>
                 ParentIndex(nodes, k) >= 0 &&
                 forall j | 0 <= j < |nodes| :: nodes[j].id == nodes[k].parent.value <==> j == ParentIndex(nodes, k)
  {
    var nodes := LayoutReport(stages, collapsed).nodes;
    RowNamed(stages, |stages|, "root", ROOT_OFFSET, ROOT_OFFSET, None, collapsed);
    Geometry.RowNeat(stages, |stages|, "root", ROOT_OFFSET, ROOT_OFFSET, None, collapsed);
    forall k | 0 <= k < |nodes| && nodes[k].parent.Some?
      ensures ParentIndex(nodes, k) >= 0 &&
              forall j | 0 <= j < |nodes| :: nodes[j].id == nodes[k].parent.value <==> j == ParentIndex(nodes, k)
    {
      assert ParentIndex(nodes, k) >= 0;
    }
  }
}
