/** No two edges of a well-named drawing share an id. */
module EdgeIds {
  import opened Options
  import opened Text
  import opened Layout
  import opened Names
  import Flow
  import Precedence

  function Depth(id: string): nat {
    Count(id, '/')
  }

  /** How the ends of an edge lie: at most one level of paths apart, the deeper end being a rail. */
  predicate Shape(e: Edge) {
    && StartsWith(e.source, "root/") && StartsWith(e.target, "root/")
    && ':' !in e.sourceHandle && ':' !in e.targetHandle && '/' !in e.sourceHandle
    && Depth(e.source) <= Depth(e.target) + 1 && Depth(e.target) <= Depth(e.source) + 1
    && (Depth(e.target) == Depth(e.source) + 1 ==> EndsWith(e.target, "/split"))
    && (Depth(e.source) == Depth(e.target) + 1 ==> !EndsWith(e.target, "/split"))
  }

  predicate PairsUnique(edges: seq<Edge>) {
    forall i, j | 0 <= i < j < |edges| :: edges[i].source != edges[j].source || edges[i].target != edges[j].target
  }

  // ---------- reading an id back

  lemma {:induction false} LastColon(a: string, h: string, b: string, k: string)
    requires a + ":" + h == b + ":" + k && ':' !in h && ':' !in k
    ensures a == b && h == k
  {
    var s := a + ":" + h;
    assert s[|a|] == ':' && s[|b|] == (b + ":" + k)[|b|] == ':';
    assert forall p | |a| < p < |s| :: s[p] == h[p - |a| - 1];
    assert forall p | |b| < p < |s| :: s[p] == (b + ":" + k)[p] == k[p - |b| - 1];
    assert |a| == |b|;
    assert a == s[..|a|] == b && h == s[|a| + 1..] == (b + ":" + k)[|b| + 1..] == k;
  }

  lemma {:induction false} IdDeterminesEnds(e: Edge, f: Edge)
    requires Shape(e) && Shape(f) && e.Id() == f.Id()
    ensures e.source == f.source && e.target == f.target
  {
    var a := e.source + ":" + e.sourceHandle + "->" + e.target;
    var b := f.source + ":" + f.sourceHandle + "->" + f.target;
    assert e.Id() == a + ":" + e.targetHandle && f.Id() == b + ":" + f.targetHandle;
    LastColon(a, e.targetHandle, b, f.targetHandle);
    NoLongerTarget(e, f);
    NoLongerTarget(f, e);
    assert a[|a| - |e.target|..] == e.target && b[|b| - |f.target|..] == f.target;
    var m := |a| - |e.target| - 2;
    assert a[..m] == e.source + ":" + e.sourceHandle && b[..m] == f.source + ":" + f.sourceHandle;
    LastColon(e.source, e.sourceHandle, f.source, f.sourceHandle);
  }

  lemma {:induction false} SplitIdDepth(e: Edge)
    requires '/' !in e.sourceHandle
    ensures Depth(e.source + ":" + e.sourceHandle + "->" + e.target) == Depth(e.source) + Depth(e.target)
  {
    CountConcat(e.source + ":" + e.sourceHandle + "->", e.target, '/');
    CountConcat(e.source + ":" + e.sourceHandle, "->", '/');
    CountConcat(e.source + ":", e.sourceHandle, '/');
    CountConcat(e.source, ":", '/');
    CountAbsent(e.sourceHandle, '/');
    CountAbsent(":", '/');
    CountAbsent("->", '/');
  }

  lemma {:induction false} SameTail(p: string, s: string, q: string, t: string)
    requires p + s == q + t && |s| > |t|
    ensures s == s[..|s| - |t|] + t && s[|s| - |t|..] == t
  {
    var all, n := p + s, |s| - |t|;
    assert all[|all| - |t|..] == t;
    assert s[n..] == all[|all| - |t|..];
  }

  /** What stands before a second `root/` in an id has a slash of its own. */
  lemma {:induction false} DeeperPrefix(s: string, n: nat)
    requires n < |s| && StartsWith(s, "root/") && n > 0 && s[n] == 'r'
    ensures Depth(s[..n]) > 0
  {
    assert forall i | 0 <= i < 5 :: s[i] == "root/"[i];
    assert n >= 5 && s[..n][4] == '/';
    CountAbsent(s[..n], '/');
  }

  /** Of two edges with the same text up to the target handle, neither has the longer target. */
  lemma {:induction false} NoLongerTarget(e: Edge, f: Edge)
    requires Shape(e) && Shape(f)
    requires e.source + ":" + e.sourceHandle + "->" + e.target == f.source + ":" + f.sourceHandle + "->" + f.target
    ensures |e.target| <= |f.target|
  {
    SplitIdDepth(e);
    SplitIdDepth(f);
    if |e.target| > |f.target| {
      SameTail(e.source + ":" + e.sourceHandle + "->", e.target, f.source + ":" + f.sourceHandle + "->", f.target);
      var n := |e.target| - |f.target|;
      DeeperPrefix(e.target, n);
      CountConcat(e.target[..n], f.target, '/');
      assert EndsWith(e.target, "/split");
      SuffixOfSplit(e.target, f.target);
    }
  }

  lemma {:induction false} SuffixOfSplit(s: string, t: string)
    requires EndsWith(s, "/split") && EndsWith(s, t) && StartsWith(t, "root/")
    ensures EndsWith(t, "/split")
  {
    assert s[|s| - 6..] == "/split";
    assert forall p | |s| - 6 <= p < |s| :: s[p] == "/split"[p - (|s| - 6)];
    assert forall p | |s| - |t| <= p < |s| :: s[p] == t[p - (|s| - |t|)];
    assert s[|s| - 5] == 's' && t[0] == 'r' && t[0] == s[|s| - |t|];
    assert |t| > 5;
    assert t[|t| - 6..] == s[|s| - 6..];
  }

  // ---------- the ends of parts

  /** A part is entered at its own id or at its split rail, and left at its own id or at its merge rail. */
  predicate Ends(seg: Segment, id: string) {
    && |seg.entries| == 1 && |seg.exits| == 1
    && (seg.entries[0] == id || seg.entries[0] == Child(id, "split"))
    && (seg.exits[0] == id || seg.exits[0] == Child(id, "merge"))
  }

  lemma {:induction false} StageEnds(
    s: Stage, id: string, x: int, y: int, parent: Option<string>, collapsed: set<string>)
    ensures Ends(LayoutStage(s, id, x, y, parent, collapsed), id)
  {
  }

  lemma {:induction false} ChildDepth(path: string, name: string)
    requires '/' !in name
    ensures Depth(Child(path, name)) == Depth(path) + 1
  {
    CountConcat(path + "/", name, '/');
    CountConcat(path, "/", '/');
    CountAbsent(name, '/');
    assert Count("", '/') == 0 && "/"[1..] == "";
  }

  lemma {:induction false} EndDepths(path: string, name: string, entry: string, exit: string)
    requires PlainName(name)
    requires entry == Child(path, name) || entry == Child(Child(path, name), "split")
    requires exit == Child(path, name) || exit == Child(Child(path, name), "merge")
    ensures Depth(path) + 1 <= Depth(entry) <= Depth(path) + 2
    ensures Depth(entry) == Depth(path) + 2 <==> EndsWith(entry, "/split")
    ensures Depth(path) + 1 <= Depth(exit) <= Depth(path) + 2
    ensures Under(Child(path, name), entry) && Under(Child(path, name), exit)
  {
    ChildDepth(path, name);
    ChildDepth(Child(path, name), "split");
    ChildDepth(Child(path, name), "merge");
    RailNames(path, name);
    RailNames(Child(path, name), "split");
    assert Child(path, name) + "/" <= Child(Child(path, name), "split");
    assert Child(path, name) + "/" <= Child(Child(path, name), "merge");
  }

  // ---------- what every part of a well-named drawing keeps

  predicate AllShaped(edges: seq<Edge>) {
    forall e | e in edges :: Shape(e)
  }

  predicate EdgesUnder(edges: seq<Edge>, path: string) {
    forall e | e in edges :: Under(path, e.source) && Under(path, e.target)
  }

  predicate Distinct(edges: seq<Edge>) {
    AllShaped(edges) && PairsUnique(edges)
  }

  lemma {:induction false} JoinDistinct(a: seq<Edge>, b: seq<Edge>)
    requires Distinct(a) && Distinct(b)
    requires forall e, f | e in a && f in b :: e.source != f.source || e.target != f.target
    ensures Distinct(a + b)
  {
    forall i, j | 0 <= i < j < |a + b|
      ensures (a + b)[i].source != (a + b)[j].source || (a + b)[i].target != (a + b)[j].target
    {
      if i < |a| <= j { assert (a + b)[i] in a && (a + b)[j] in b; }
    }
  }

  lemma {:induction false} StageDistinct(
    s: Stage, path: string, x: int, y: int, parent: Option<string>, collapsed: set<string>)
    requires WellNamedStage(s) && StartsWith(path + "/", "root/")
    ensures var edges := LayoutStage(s, Child(path, s.id), x, y, parent, collapsed).edges;
            Distinct(edges) && EdgesUnder(edges, Child(path, s.id))
    decreases s, 2
  {
    var id := Child(path, s.id);
    var seg := LayoutStage(s, id, x, y, parent, collapsed);
    assert path + "/" <= id + "/";
    assert StartsWith(id + "/", "root/");
    Precedence.StageFollows(s, id, x, y, parent, collapsed);
    forall e | e in seg.edges ensures Under(id, e.source) && Under(id, e.target) {
      Precedence.InStageUnder(s, id, collapsed, e.source, e.target);
    }
    if IsParallel(s) {
      BranchesDistinct(s.parallelStages, |s.parallelStages|, id, x + RAIL_GAP + RAIL_W, y, parent, collapsed);
    } else if IsNested(s) && IsOpen(s, id, collapsed) {
      var stages, inner := s.nestedPipeline.value.stages, NestedPath(id);
      assert id + "/" <= inner + "/";
      RowDistinct(stages, |stages|, inner, GROUP_PAD, HEADER_H + GROUP_PAD, Some(id), collapsed);
      assert seg == LayoutNestedPipeline(s, id, x, y, parent, collapsed);
      assert seg.edges == LayoutStages(stages, inner, GROUP_PAD, HEADER_H + GROUP_PAD, Some(id), collapsed).edges;
    }
  }

  /** An edge of the first `n` branches touches one of them, and otherwise only the rails. */
  predicate Touches(e: Edge, path: string, name: string) {
    || (Under(Child(path, name), e.source) && (Under(Child(path, name), e.target) || e.target == Child(path, "merge")))
    || (Under(Child(path, name), e.target) && e.source == Child(path, "split"))
  }

  predicate TouchesSome(e: Edge, path: string, stages: seq<Stage>, n: nat)
    requires n <= |stages|
  {
    exists i :: 0 <= i < n && Touches(e, path, stages[i].id)
  }

  lemma {:induction false} TouchesApart(e: Edge, f: Edge, path: string, stages: seq<Stage>, n: nat)
    requires n < |stages| && WellNamed(stages)
    requires TouchesSome(e, path, stages, n) && Touches(f, path, stages[n].id)
    ensures e.source != f.source || e.target != f.target
  {
    var i :| 0 <= i < n && Touches(e, path, stages[i].id);
    assert WellNamedStage(stages[i]) && WellNamedStage(stages[n]);
    if e.source == f.source && e.target == f.target {
      NotUnderSibling(path, stages[i].id, stages[n].id, e.source);
      NotUnderSibling(path, stages[i].id, stages[n].id, e.target);
      NotUnderSibling(path, stages[i].id, "split", e.source);
      NotUnderSibling(path, stages[i].id, "merge", e.target);
      NotUnderSibling(path, stages[n].id, "split", e.source);
      NotUnderSibling(path, stages[n].id, "merge", e.target);
    }
  }

  lemma {:induction false} NotUnderSibling(path: string, a: string, b: string, id: string)
    requires '/' !in a && '/' !in b && a != b
    ensures !(Under(Child(path, a), id) && Under(Child(path, b), id))
  {
    if Under(Child(path, a), id) && Under(Child(path, b), id) { SiblingsApart(path, a, b, id); }
  }

  lemma {:induction false} RailEdgeShapes(prefix: string, name: string, entry: string, exit: string, i: nat)
    requires PlainName(name) && StartsWith(prefix + "/", "root/")
    requires entry == Child(prefix, name) || entry == Child(Child(prefix, name), "split")
    requires exit == Child(prefix, name) || exit == Child(Child(prefix, name), "merge")
    ensures var e := Edge(Child(prefix, "split"), entry, "s" + Decimal(i), ""); Shape(e) && Touches(e, prefix, name)
    ensures var e := Edge(exit, Child(prefix, "merge"), "", "t" + Decimal(i)); Shape(e) && Touches(e, prefix, name)
  {
    EndDepths(prefix, name, entry, exit);
    ChildDepth(prefix, "split");
    ChildDepth(prefix, "merge");
    RailNames(prefix, "merge");
    RootPrefix(prefix, name, entry);
    RootPrefix(prefix, name, exit);
    assert prefix + "/" <= Child(prefix, "split") && prefix + "/" <= Child(prefix, "merge");
    HandleText("s", i);
    HandleText("t", i);
    hide Depth, Count, Child, EndsWith, Decimal;
  }

  lemma {:induction false} HandleText(letter: string, i: nat)
    requires letter == "s" || letter == "t"
    ensures ':' !in letter + Decimal(i) && '/' !in letter + Decimal(i)
  {
  }

  lemma {:induction false} RootPrefix(path: string, name: string, id: string)
    requires Under(Child(path, name), id) && StartsWith(path + "/", "root/")
    ensures StartsWith(id, "root/")
  {
    assert path + "/" <= Child(path, name) <= id;
  }

  lemma {:induction false} AddBranchDistinct(
    acc: Branches, placed: Segment, stages: seq<Stage>, i: nat, prefix: string, y: int)
    requires i < |stages| && WellNamed(stages) && StartsWith(prefix + "/", "root/")
    requires Distinct(acc.edges) && (forall e | e in acc.edges :: TouchesSome(e, prefix, stages, i))
    requires Distinct(placed.edges) && EdgesUnder(placed.edges, Child(prefix, stages[i].id))
    requires Ends(placed, Child(prefix, stages[i].id))
    ensures var edges := AddBranch(acc, placed, i, prefix, y).edges;
            Distinct(edges) && (forall e | e in edges :: TouchesSome(e, prefix, stages, i + 1))
  {
    var name := stages[i].id;
    assert WellNamedStage(stages[i]);
    assert placed.entries == [placed.entries[0]] && placed.exits == [placed.exits[0]];
    Flow.SingleRailEdges(prefix + "/split", placed.entries[0], placed.exits[0], prefix + "/merge", i);
    assert Child(prefix, "split") == prefix + "/split" && Child(prefix, "merge") == prefix + "/merge";
    var rails := [Edge(Child(prefix, "split"), placed.entries[0], "s" + Decimal(i), ""),
                  Edge(placed.exits[0], Child(prefix, "merge"), "", "t" + Decimal(i))];
    hide Distinct, EdgesUnder, TouchesSome, Touches, WellNamed, WellNamedStage, SplitEdges, MergeEdges, Decimal;
    BranchEdgesDistinct(placed, prefix, name, i);
    JoinTouching(acc.edges, placed.edges + rails, prefix, stages, i);
    assert AddBranch(acc, placed, i, prefix, y).edges == acc.edges + (placed.edges + rails);
  }

  /** The edges added with one branch: its own and the two to the rails. */
  lemma {:induction false} BranchEdgesDistinct(placed: Segment, prefix: string, name: string, i: nat)
    requires PlainName(name) && StartsWith(prefix + "/", "root/") && Ends(placed, Child(prefix, name))
    requires Distinct(placed.edges) && EdgesUnder(placed.edges, Child(prefix, name))
    ensures var edges := placed.edges + [Edge(Child(prefix, "split"), placed.entries[0], "s" + Decimal(i), ""),
                                         Edge(placed.exits[0], Child(prefix, "merge"), "", "t" + Decimal(i))];
            Distinct(edges) && forall e | e in edges :: Touches(e, prefix, name)
  {
    var first := Edge(Child(prefix, "split"), placed.entries[0], "s" + Decimal(i), "");
    var last := Edge(placed.exits[0], Child(prefix, "merge"), "", "t" + Decimal(i));
    RailEdgeShapes(prefix, name, placed.entries[0], placed.exits[0], i);
    NotUnderSibling(prefix, name, "split", Child(prefix, "split"));
    NotUnderSibling(prefix, name, "merge", Child(prefix, "merge"));
    EndDepths(prefix, name, placed.entries[0], placed.exits[0]);
    assert Under(Child(prefix, "split"), Child(prefix, "split"));
    assert Under(Child(prefix, "merge"), Child(prefix, "merge"));
    hide Shape, Child, Depth, Decimal, Under;
    JoinDistinct([first], [last]);
    JoinDistinct(placed.edges, [first] + [last]);
    assert placed.edges + ([first] + [last]) == placed.edges + [first, last];
  }

  /** Edges that touch one more branch are different from those that touch the earlier ones. */
  lemma {:induction false} JoinTouching(before: seq<Edge>, added: seq<Edge>, prefix: string, stages: seq<Stage>, i: nat)
    requires i < |stages| && WellNamed(stages)
    requires Distinct(before) && (forall e | e in before :: TouchesSome(e, prefix, stages, i))
    requires Distinct(added) && (forall e | e in added :: Touches(e, prefix, stages[i].id))
    ensures Distinct(before + added) && (forall e | e in before + added :: TouchesSome(e, prefix, stages, i + 1))
  {
    hide Distinct, Touches, WellNamed;
    forall e, f | e in before && f in added ensures e.source != f.source || e.target != f.target {
      TouchesApart(e, f, prefix, stages, i);
    }
    JoinDistinct(before, added);
  }

  lemma {:induction false} BranchesDistinct(
    stages: seq<Stage>, n: nat, prefix: string, childX: int, y: int, parent: Option<string>, collapsed: set<string>)
    requires n <= |stages| && WellNamed(stages) && StartsWith(prefix + "/", "root/")
    ensures var edges := BranchesUpTo(stages, n, prefix, childX, y, parent, collapsed).edges;
            Distinct(edges) && (forall e | e in edges :: TouchesSome(e, prefix, stages, n))
    decreases stages, 0, n
  {
    if n > 0 {
      assert WellNamedStage(stages[n - 1]);
      hide LayoutStage, Distinct, EdgesUnder, Ends, AddBranch, WellNamed, WellNamedStage;
      var acc := BranchesUpTo(stages, n - 1, prefix, childX, y, parent, collapsed);
      var id := Child(prefix, stages[n - 1].id);
      BranchesDistinct(stages, n - 1, prefix, childX, y, parent, collapsed);
      StageDistinct(stages[n - 1], prefix, childX, acc.nextY, parent, collapsed);
      StageEnds(stages[n - 1], id, childX, acc.nextY, parent, collapsed);
      AddBranchDistinct(acc, LayoutStage(stages[n - 1], id, childX, acc.nextY, parent, collapsed),
                        stages, n - 1, prefix, y);
    }
  }

  predicate TargetsSome(e: Edge, path: string, stages: seq<Stage>, n: nat)
    requires n <= |stages|
  {
    UnderSome(e.target, path, stages, n)
  }

  lemma {:induction false} ConnectionShape(path: string, a: string, b: string, exit: string, entry: string)
    requires PlainName(a) && PlainName(b) && StartsWith(path + "/", "root/")
    requires exit == Child(path, a) || exit == Child(Child(path, a), "merge")
    requires entry == Child(path, b) || entry == Child(Child(path, b), "split")
    ensures Connect([exit], [entry]) != [] && Distinct(Connect([exit], [entry]))
    ensures forall e | e in Connect([exit], [entry]) :: e.source == exit && e.target == entry
  {
    Flow.SingleConnection(exit, entry);
    EndDepths(path, a, Child(path, a), exit);
    EndDepths(path, b, entry, Child(path, b));
    RootPrefix(path, a, exit);
    RootPrefix(path, b, entry);
    hide Depth, Count, Child, EndsWith;
  }

  lemma {:induction false} AddStageDistinct(acc: Row, placed: Segment, stages: seq<Stage>, i: nat, path: string)
    requires i < |stages| && WellNamed(stages) && StartsWith(path + "/", "root/")
    requires Distinct(acc.edges) && (forall e | e in acc.edges :: TargetsSome(e, path, stages, i))
    requires Distinct(placed.edges) && EdgesUnder(placed.edges, Child(path, stages[i].id))
    requires Ends(placed, Child(path, stages[i].id))
    requires |acc.prevExits| == (if i == 0 then 0 else 1)
    requires i > 0 ==> var id := Child(path, stages[i - 1].id);
                       acc.prevExits[0] == id || acc.prevExits[0] == Child(id, "merge")
    ensures var edges := AddStage(acc, placed, i).edges;
            Distinct(edges) && (forall e | e in edges :: TargetsSome(e, path, stages, i + 1))
  {
    var name := stages[i].id;
    var joined := Connect(acc.prevExits, placed.entries);
    assert WellNamedStage(stages[i]);
    assert placed.entries == [placed.entries[0]];
    EndDepths(path, name, placed.entries[0], placed.exits[0]);
    if i == 0 {
      Flow.NoConnection(placed.entries);
      assert joined == [];
    } else {
      assert WellNamedStage(stages[i - 1]);
      assert acc.prevExits == [acc.prevExits[0]];
      ConnectionShape(path, stages[i - 1].id, name, acc.prevExits[0], placed.entries[0]);
      EndDepths(path, stages[i - 1].id, Child(path, stages[i - 1].id), acc.prevExits[0]);
      NotUnderSibling(path, stages[i - 1].id, name, acc.prevExits[0]);
    }
    assert forall e | e in joined :: Under(Child(path, name), e.target) && !Under(Child(path, name), e.source);
    hide Shape, Connect, WellNamedStage, Child, Depth, Ends;
    JoinDistinct(placed.edges, joined);
    var added := placed.edges + joined;
    forall e, f | e in acc.edges && f in added ensures e.source != f.source || e.target != f.target {
      SomeSiblingApart(e.target, path, stages, i);
    }
    JoinDistinct(acc.edges, added);
    assert acc.edges + placed.edges + joined == acc.edges + added;
    forall e | e in acc.edges + added ensures TargetsSome(e, path, stages, i + 1) {
      if e in acc.edges { MoreSiblings(e.target, path, stages, i); }
    }
  }

  lemma {:induction false} RowDistinct(
    stages: seq<Stage>, n: nat, path: string, x: int, y: int, parent: Option<string>, collapsed: set<string>)
    requires n <= |stages| && WellNamed(stages) && StartsWith(path + "/", "root/")
    ensures var row := RowUpTo(stages, n, path, x, y, parent, collapsed);
            && Distinct(row.edges) && (forall e | e in row.edges :: TargetsSome(e, path, stages, n))
            && |row.prevExits| == (if n == 0 then 0 else 1)
            && (n > 0 ==> var id := Child(path, stages[n - 1].id);
                          row.prevExits[0] == id || row.prevExits[0] == Child(id, "merge"))
    decreases stages, 0, n
  {
    if n > 0 {
      var acc := RowUpTo(stages, n - 1, path, x, y, parent, collapsed);
      var id := Child(path, stages[n - 1].id);
      assert WellNamedStage(stages[n - 1]);
      RowDistinct(stages, n - 1, path, x, y, parent, collapsed);
      StageDistinct(stages[n - 1], path, acc.nextX, y, parent, collapsed);
      StageEnds(stages[n - 1], id, acc.nextX, y, parent, collapsed);
      hide LayoutStage, Distinct, EdgesUnder, Connect, WellNamed, WellNamedStage, TargetsSome;
      AddStageDistinct(acc, LayoutStage(stages[n - 1], id, acc.nextX, y, parent, collapsed), stages, n - 1, path);
    }
  }

  /** In a well-named drawing all edge ids are different. */
  lemma EdgeIdsUnique(stages: seq<Stage>, collapsed: set<string>)
    requires WellNamed(stages)
    ensures var edges := LayoutReport(stages, collapsed).edges;
            forall i, j | 0 <= i < j < |edges| :: edges[i].Id() != edges[j].Id()
  {
    var edges := LayoutReport(stages, collapsed).edges;
    RowDistinct(stages, |stages|, "root", ROOT_OFFSET, ROOT_OFFSET, None, collapsed);
    forall i, j | 0 <= i < j < |edges| ensures edges[i].Id() != edges[j].Id() {
      if edges[i].Id() == edges[j].Id() {
        assert edges[i] in edges && edges[j] in edges;
        IdDeterminesEnds(edges[i], edges[j]);
      }
    }
  }
}
