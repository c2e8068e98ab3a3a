/** What `build_graph` guarantees: a graph the rest of the program may take for a forest, whatever
    GetParent says, and the exact window tree when GetParent agrees with it. */
module BuiltGraph {
  import opened Model
  import opened Desktop
  import opened Ordering
  import opened Trees
  import opened GraphBuild
  import Search
  import Undo

  // ---------------------------------------------------------------- any GetParent

  /** Enumerating below a window lists child windows only, each once. */
  ghost predicate Sane(src: Source) {
    forall t | t in src.windows :: Search.NoDuplicates(src.below(t)) && NoTopLevel(src, src.below(t))
  }

  predicate NoTopLevel(src: Source, hs: seq<Hwnd>) {
    forall i | 0 <= i < |hs| :: hs[i] in src.windows ==> src.windows[hs[i]].parent != 0
  }

  predicate AllBelow(src: Source, p: Hwnd, hs: seq<Hwnd>) { forall i | 0 <= i < |hs| :: src.parentOf(hs[i]) == p }

  /** A list of children of `p`. */
  predicate ListFits(src: Source, p: Hwnd, hs: seq<Hwnd>) {
    Search.NoDuplicates(hs) && NoTopLevel(src, hs) && AllBelow(src, p, hs)
  }

  /** Where a node may hang: top-level windows have no tree parent, the others GetParent's answer. */
  predicate ParentFits(src: Source, h: Hwnd, parent: Option<Hwnd>) {
    h in src.windows ==>
      match parent
      case None => src.windows[h].parent == 0
      case Some(p) => src.windows[h].parent != 0 && src.parentOf(h) == p
  }

  /** The node says of the window what the system says: handle, class, text, rectangle, visibility, and
      for a window without tree parent its owner, which is what GetParent then answers. */
  predicate Reported(src: Source, h: Hwnd, n: WindowNode)
    requires h in src.windows
  {
    && n.hwnd == h
    && n.className == src.windows[h].className
    && n.title == src.text(h)
    && n.rect == src.windows[h].rect
    && n.visible == src.shown(h)
    && (n.owner.Some? <==> n.structuralParent.None? && src.parentOf(h) != 0)
    && (n.owner.Some? ==> n.owner.value == src.parentOf(h))
  }

  predicate NodeFits(src: Source, pids: set<Pid>, h: Hwnd, n: WindowNode) {
    && h in src.windows
    && n.pid in pids
    && Reported(src, h, n)
    && ParentFits(src, h, n.structuralParent)
  }

  predicate Shaped(src: Source, pids: set<Pid>, b: Build) {
    && b.children.Keys == b.nodes.Keys
    && (forall h | h in b.nodes :: NodeFits(src, pids, h, b.nodes[h]))
    && (forall p | p in b.children :: ListFits(src, p, b.children[p]))
  }

  lemma {:induction false} PickedOnce(order: seq<Hwnd>, parentOf: Hwnd -> Hwnd, p: Hwnd)
    requires Search.NoDuplicates(order)
    ensures Search.NoDuplicates(ChildrenIn(order, parentOf, p))
  {
    if order != [] {
      PickedOnce(order[1..], parentOf, p);
      PickedAre(order[1..], parentOf, p);
    }
  }

  lemma PickedListFits(src: Source, order: seq<Hwnd>, p: Hwnd)
    requires Search.NoDuplicates(order) && NoTopLevel(src, order)
    ensures ListFits(src, p, ChildrenIn(order, src.parentOf, p))
  {
    var kids := ChildrenIn(order, src.parentOf, p);
    PickedOnce(order, src.parentOf, p);
    PickedAre(order, src.parentOf, p);
    forall i | 0 <= i < |kids|
      ensures src.parentOf(kids[i]) == p && (kids[i] in src.windows ==> src.windows[kids[i]].parent != 0)
    {
      var j := PickedAt(order, src.parentOf, p, i);
    }
  }

  lemma {:induction false} LoadShaped(src: Source, pids: set<Pid>, b: Build, h: Hwnd, parent: Option<Hwnd>, pid: Pid, order: seq<Hwnd>, all: set<Hwnd>)
    requires h in all && Bounded(order, all) && Search.NoDuplicates(order) && NoTopLevel(src, order)
    requires Shaped(src, pids, b) && pid in pids && ParentFits(src, h, parent)
    ensures Shaped(src, pids, Load(src, b, h, parent, pid, order, all))
    decreases all - b.visited, 0
  {
    if h !in b.visited && h in src.windows {
      var kids := ChildrenIn(order, src.parentOf, h);
      PickedAre(order, src.parentOf, h);
      PickedListFits(src, order, h);
      var b1 := Entered(src, b, h, parent, pid);
      assert h in all - b.visited && h !in all - b1.visited;
      assert Shaped(src, pids, b1);
      LoadAllShaped(src, pids, b1, kids, h, pid, order, all);
      NodesStay(src, b1, kids, h, pid, order, all, h);
    }
  }

  lemma {:induction false} LoadAllShaped(src: Source, pids: set<Pid>, b: Build, kids: seq<Hwnd>, parent: Hwnd, pid: Pid, order: seq<Hwnd>, all: set<Hwnd>)
    requires Bounded(kids, all) && Bounded(order, all) && Search.NoDuplicates(order) && NoTopLevel(src, order)
    requires Shaped(src, pids, b) && pid in pids && NoTopLevel(src, kids) && AllBelow(src, parent, kids)
    ensures Shaped(src, pids, LoadAll(src, b, kids, parent, pid, order, all))
    decreases all - b.visited, 1 + |kids|
  {
    if kids != [] {
      var b1 := Load(src, b, kids[0], Some(parent), pid, order, all);
      assert all - b1.visited <= all - b.visited;
      LoadShaped(src, pids, b, kids[0], Some(parent), pid, order, all);
      LoadAllShaped(src, pids, b1, kids[1..], parent, pid, order, all);
    }
  }

  /** Loading never drops a node. */
  lemma {:induction false} NodesStay(src: Source, b: Build, kids: seq<Hwnd>, parent: Hwnd, pid: Pid, order: seq<Hwnd>, all: set<Hwnd>, x: Hwnd)
    requires Bounded(kids, all) && Bounded(order, all) && x in b.nodes
    ensures x in LoadAll(src, b, kids, parent, pid, order, all).nodes
    decreases all - b.visited, 1 + |kids|
  {
    if kids != [] {
      var b1 := Load(src, b, kids[0], Some(parent), pid, order, all);
      assert all - b1.visited <= all - b.visited;
      NodeStays(src, b, kids[0], Some(parent), pid, order, all, x);
      NodesStay(src, b1, kids[1..], parent, pid, order, all, x);
    }
  }

  lemma {:induction false} NodeStays(src: Source, b: Build, h: Hwnd, parent: Option<Hwnd>, pid: Pid, order: seq<Hwnd>, all: set<Hwnd>, x: Hwnd)
    requires h in all && Bounded(order, all) && x in b.nodes
    ensures x in Load(src, b, h, parent, pid, order, all).nodes
    decreases all - b.visited, 0
  {
    if h !in b.visited && h in src.windows {
      PickedAre(order, src.parentOf, h);
      var b1 := Entered(src, b, h, parent, pid);
      assert h in all - b.visited && h !in all - b1.visited;
      NodesStay(src, b1, ChildrenIn(order, src.parentOf, h), h, pid, order, all, x);
    }
  }

  lemma {:induction false} LoadTopsShaped(src: Source, pids: set<Pid>, b: Build, tops: seq<Hwnd>)
    requires Sane(src) && Shaped(src, pids, b)
    requires forall i | 0 <= i < |tops| ::
      tops[i] in src.windows && src.windows[tops[i]].parent == 0 && src.windows[tops[i]].pid in pids
    ensures Shaped(src, pids, LoadTops(src, b, tops))
    decreases tops
  {
    if tops != [] {
      var h := tops[0];
      LoadShaped(src, pids, b, h, None, src.windows[h].pid, src.below(h), Reachable(h, src.below(h)));
      LoadTopsShaped(src, pids, LoadTop(src, b, h), tops[1..]);
    }
  }

  lemma TopsAre(src: Source, pids: set<Pid>)
    ensures Ascending(Tops(src, pids))
    ensures forall h :: h in Tops(src, pids) <==> (h in src.windows && src.windows[h].parent == 0 && src.windows[h].pid in pids)
  {
    SortedSeqSorts(set h | h in src.windows && src.windows[h].parent == 0 && src.windows[h].pid in pids);
  }

  /** Even if GetParent contradicts the enumerations, the graph is a forest of live windows of watched
      top-level windows: every edge is recorded on both ends, and top-level windows are the roots. */
  lemma BuiltGraphIsForest(src: Source, pids: set<Pid>)
    requires Sane(src)
    ensures var g := Graph(src, pids);
            && Search.Forest(g)
            && (forall h | h in g.nodes :: NodeFits(src, pids, h, g.nodes[h]))
    ensures Graph(src, pids).pids == pids
  {
    TopsAre(src, pids);
    var tops := Tops(src, pids);
    forall i | 0 <= i < |tops|
      ensures tops[i] in src.windows && src.windows[tops[i]].parent == 0 && src.windows[tops[i]].pid in pids
    {
      assert tops[i] in tops;
    }
    LoadTopsShaped(src, pids, NOTHING, tops);
    var g := Graph(src, pids);
    assert Shaped(src, pids, Build(g.nodes, g.children, {}));
    ShapedIsForest(src, pids, g);
  }

  /** Whatever GetParent says, the graph repeats it for every node, and a node has an owner exactly if it
      is a top-level window for which GetParent names one. */
  lemma NodesRepeatTheSystem(src: Source, pids: set<Pid>, h: Hwnd)
    requires Sane(src) && h in Graph(src, pids).nodes
    ensures h in src.windows
    ensures var n := Graph(src, pids).nodes[h];
            && n.Win32Parent() == src.parentOf(h)
            && (n.owner.Some? <==> src.windows[h].parent == 0 && src.parentOf(h) != 0)
            && (n.structuralParent.Some? <==> src.windows[h].parent != 0)
            && n.hwnd == h && n.className == src.windows[h].className && n.title == src.text(h)
            && n.rect == src.windows[h].rect && n.visible == src.shown(h) && n.pid in pids
  {
    BuiltGraphIsForest(src, pids);
    assert NodeFits(src, pids, h, Graph(src, pids).nodes[h]);
  }

  lemma ShapedIsForest(src: Source, pids: set<Pid>, g: WindowGraph)
    requires Shaped(src, pids, Build(g.nodes, g.children, {}))
    ensures Search.Forest(g)
  {
    var b := Build(g.nodes, g.children, {});
    forall h | h in g.nodes ensures g.nodes[h].hwnd == h {
      assert NodeFits(src, pids, h, b.nodes[h]);
    }
    forall p | p in g.children ensures Search.NoDuplicates(g.children[p]) {
      assert ListFits(src, p, b.children[p]);
    }
    forall p, c | p in g.children && c in g.children[p] ensures src.parentOf(c) == p && (c in g.nodes ==> g.nodes[c].structuralParent == Some(p)) {
      assert ListFits(src, p, b.children[p]);
      var i :| 0 <= i < |g.children[p]| && g.children[p][i] == c;
      if c in g.nodes {
        assert NodeFits(src, pids, c, b.nodes[c]);
      }
    }
  }

  /** The graph is the one the engine's undo argument assumes, as long as the desktop has not changed. */
  lemma BuiltGraphFits(src: Source, pids: set<Pid>, d: Desk)
    requires Sane(src) && d.windows == src.windows
    ensures Undo.GraphFits(d, Graph(src, pids))
  {
    BuiltGraphIsForest(src, pids);
    var g := Graph(src, pids);
    forall h | h in g.nodes && h in d.windows
      ensures g.nodes[h].rect == d.windows[h].rect
      ensures g.nodes[h].structuralParent.None? <==> d.windows[h].parent == 0
    {
      assert NodeFits(src, pids, h, g.nodes[h]);
    }
  }

  // ---------------------------------------------------------------- a GetParent that fits the windows

  predicate Listed(f: seq<Tree>, h: Hwnd) { h in Dfs(f) }

  /** The graph holds exactly these trees: nodes, tree parents and child lists in enumeration order. */
  ghost predicate Mirrors(src: Source, b: Build, f: seq<Tree>, parent: Option<Hwnd>, pid: Pid) {
    f != [] ==>
      && f[0].hwnd in src.windows && f[0].hwnd in b.nodes
      && Reported(src, f[0].hwnd, b.nodes[f[0].hwnd])
      && b.nodes[f[0].hwnd].structuralParent == parent && b.nodes[f[0].hwnd].pid == pid
      && f[0].hwnd in b.children && b.children[f[0].hwnd] == Handles(f[0].kids)
      && Mirrors(src, b, f[0].kids, Some(f[0].hwnd), pid)
      && Mirrors(src, b, f[1..], parent, pid)
  }

  predicate Same(b: Build, r: Build, h: Hwnd) {
    && (h in b.visited <==> h in r.visited)
    && (h in b.nodes <==> h in r.nodes)
    && (h in b.children <==> h in r.children)
    && (h in b.nodes ==> b.nodes[h] == r.nodes[h])
    && (h in b.children ==> b.children[h] == r.children[h])
  }

  /** Nothing but the windows of `f` was added. */
  ghost predicate Grown(b: Build, r: Build, f: seq<Tree>) {
    forall h :: if Listed(f, h) then h in r.visited && h in r.nodes else Same(b, r, h)
  }

  ghost predicate AllNew(src: Source, b: Build, f: seq<Tree>) {
    forall h :: Listed(f, h) ==> h in src.windows && h !in b.visited
  }

  /** The enumeration yields the child list of every window of the forest. */
  ghost predicate Lists(src: Source, order: seq<Hwnd>, f: seq<Tree>) {
    f != [] ==>
      && ChildrenIn(order, src.parentOf, f[0].hwnd) == Handles(f[0].kids)
      && Lists(src, order, f[0].kids)
      && Lists(src, order, f[1..])
  }

  lemma ListedSplit(f: seq<Tree>, h: Hwnd)
    requires f != []
    ensures Listed(f, h) <==> (h == f[0].hwnd || Listed(f[0].kids, h) || Listed(f[1..], h))
  {
  }

  lemma ListedOne(t: Tree, h: Hwnd)
    ensures Listed([t], h) <==> h == t.hwnd || Listed(t.kids, h)
  {
    assert Dfs([t][1..]) == [];
    ListedSplit([t], h);
  }

  lemma {:induction false} MirrorsStable(src: Source, b: Build, r: Build, f: seq<Tree>, parent: Option<Hwnd>, pid: Pid)
    requires Mirrors(src, b, f, parent, pid) && forall h :: Listed(f, h) ==> Same(b, r, h)
    ensures Mirrors(src, r, f, parent, pid)
  {
    if f != [] {
      forall h ensures Listed(f, h) <==> (h == f[0].hwnd || Listed(f[0].kids, h) || Listed(f[1..], h)) {
        ListedSplit(f, h);
      }
      assert Listed(f, f[0].hwnd);
      MirrorsStable(src, b, r, f[0].kids, Some(f[0].hwnd), pid);
      MirrorsStable(src, b, r, f[1..], parent, pid);
    }
  }

  /** What `Load` does around the recursive loads of a window's children. */
  lemma KidsThenTree(src: Source, b: Build, b2: Build, t: Tree, parent: Option<Hwnd>, pid: Pid)
    requires t.hwnd in src.windows && !Listed(t.kids, t.hwnd)
    requires Grown(Entered(src, b, t.hwnd, parent, pid), b2, t.kids) && Mirrors(src, b2, t.kids, Some(t.hwnd), pid)
    ensures var r := b2.(children := b2.children[t.hwnd := Handles(t.kids)]);
            Grown(b, r, [t]) && Mirrors(src, r, [t], parent, pid)
  {
    var b1 := Entered(src, b, t.hwnd, parent, pid);
    var r := b2.(children := b2.children[t.hwnd := Handles(t.kids)]);
    forall h ensures if Listed([t], h) then h in r.visited && h in r.nodes else Same(b, r, h) {
      ListedOne(t, h);
      assert if Listed(t.kids, h) then h in b2.visited && h in b2.nodes else Same(b1, b2, h);
    }
    forall h | Listed(t.kids, h) ensures Same(b2, r, h) {
    }
    MirrorsStable(src, b2, r, t.kids, Some(t.hwnd), pid);
    assert Same(b1, b2, t.hwnd);
    assert Mirrors(src, r, [t][1..], parent, pid);
  }

  lemma KidsAreNew(src: Source, b: Build, t: Tree, parent: Option<Hwnd>, pid: Pid, order: seq<Hwnd>)
    requires Distinct([t]) && Lists(src, order, [t]) && AllNew(src, b, [t])
    ensures t.hwnd in src.windows && t.hwnd !in b.visited && !Listed(t.kids, t.hwnd)
    ensures Distinct(t.kids) && Lists(src, order, t.kids) && AllNew(src, Entered(src, b, t.hwnd, parent, pid), t.kids)
  {
    SplitDistinct([t]);
    ListedOne(t, t.hwnd);
    forall h | Listed(t.kids, h) ensures h in src.windows && h !in b.visited && h != t.hwnd {
      ListedOne(t, h);
    }
  }

  lemma {:induction false} LoadMirrorsTree(src: Source, b: Build, t: Tree, parent: Option<Hwnd>, pid: Pid, order: seq<Hwnd>, all: set<Hwnd>)
    requires t.hwnd in all && Bounded(order, all)
    requires Distinct([t]) && Lists(src, order, [t]) && AllNew(src, b, [t])
    ensures var r := Load(src, b, t.hwnd, parent, pid, order, all);
            Grown(b, r, [t]) && Mirrors(src, r, [t], parent, pid)
    decreases t, 0
  {
    KidsAreNew(src, b, t, parent, pid, order);
    PickedAre(order, src.parentOf, t.hwnd);
    var b1 := Entered(src, b, t.hwnd, parent, pid);
    LoadMirrorsForest(src, b1, t.kids, t.hwnd, pid, order, all);
    KidsThenTree(src, b, LoadAll(src, b1, Handles(t.kids), t.hwnd, pid, order, all), t, parent, pid);
  }

  lemma {:induction false} LoadMirrorsForest(src: Source, b: Build, f: seq<Tree>, parent: Hwnd, pid: Pid, order: seq<Hwnd>, all: set<Hwnd>)
    requires Bounded(Handles(f), all) && Bounded(order, all)
    requires Distinct(f) && Lists(src, order, f) && AllNew(src, b, f)
    ensures var r := LoadAll(src, b, Handles(f), parent, pid, order, all);
            Grown(b, r, f) && Mirrors(src, r, f, Some(parent), pid)
    decreases f, 1
  {
    if f != [] {
      var t, rest := f[0], f[1..];
      assert Handles(f)[1..] == Handles(rest);
      FirstApart(src, order, f);
      var b1 := Load(src, b, t.hwnd, Some(parent), pid, order, all);
      LoadMirrorsTree(src, b, t, Some(parent), pid, order, all);
      var r := LoadAll(src, b1, Handles(rest), parent, pid, order, all);
      assert AllNew(src, b1, rest);
      LoadMirrorsForest(src, b1, rest, parent, pid, order, all);
      MirrorsStable(src, b1, r, [t], Some(parent), pid);
    }
  }

  /** The first tree of a forest and the others, seen as two forests. */
  lemma FirstApart(src: Source, order: seq<Hwnd>, f: seq<Tree>)
    requires f != [] && Distinct(f) && Lists(src, order, f)
    ensures Distinct([f[0]]) && Distinct(f[1..]) && Lists(src, order, [f[0]])
    ensures forall h :: Listed(f, h) <==> Listed([f[0]], h) || Listed(f[1..], h)
    ensures forall h :: !(Listed([f[0]], h) && Listed(f[1..], h))
  {
    TopsApart(f);
    assert [f[0]][1..] == [];
  }

  // ---------------------------------------------------------------- the whole desktop

  /** The desktop's windows are exactly this forest, GetParent agrees with it and descendants are
      enumerated in one of the two orders. */
  ghost predicate RealForest(src: Source, forest: seq<Tree>) {
    && Distinct(forest)
    && (forall h :: Listed(forest, h) <==> h in src.windows)
    && (forall t | t in forest :: RealTop(src, t))
    && (forall h | h in src.windows && src.windows[h].parent == 0 :: HasRoot(forest, h))
  }

  ghost predicate RealTop(src: Source, t: Tree) {
    && t.hwnd in src.windows && src.windows[t.hwnd].parent == 0
    && Fits(src.parentOf, [t])
    && Enumerates(src.below(t.hwnd), t)
  }

  predicate HasRoot(forest: seq<Tree>, h: Hwnd) { exists t :: t in forest && t.hwnd == h }

  function Root(forest: seq<Tree>, h: Hwnd): (t: Tree)
    requires HasRoot(forest, h)
    ensures t in forest && t.hwnd == h
  {
    if forest[0].hwnd == h then forest[0] else Root(forest[1..], h)
  }

  function Roots(forest: seq<Tree>, hs: seq<Hwnd>): (ts: seq<Tree>)
    requires forall i | 0 <= i < |hs| :: HasRoot(forest, hs[i])
    ensures |ts| == |hs| && forall i | 0 <= i < |hs| :: ts[i] in forest && ts[i].hwnd == hs[i]
  {
    seq(|hs|, i requires 0 <= i < |hs| => Root(forest, hs[i]))
  }

  lemma {:induction false} RemoveCount(forest: seq<Tree>, i: nat, h: Hwnd)
    requires i < |forest|
    ensures Count(Dfs(forest), h) == Count(Dfs([forest[i]]), h) + Count(Dfs(forest[..i] + forest[i + 1..]), h)
  {
    var a, t, b := forest[..i], forest[i], forest[i + 1..];
    assert forest == a + ([t] + b);
    DfsConcat(a, [t] + b);
    DfsConcat([t], b);
    DfsConcat(a, b);
    CountConcat(Dfs(a), Dfs([t] + b), h);
    CountConcat(Dfs([t]), Dfs(b), h);
    CountConcat(Dfs(a), Dfs(b), h);
  }

  /** A selection of different trees of a forest lists nothing more often than the forest does. */
  lemma {:induction false} SelectionCount(forest: seq<Tree>, ts: seq<Tree>, h: Hwnd)
    requires (forall t | t in ts :: t in forest) && Search.NoDuplicates(ts)
    ensures Count(Dfs(ts), h) <= Count(Dfs(forest), h)
  {
    if ts != [] {
      assert ts[0] in ts;
      var i :| 0 <= i < |forest| && forest[i] == ts[0];
      var others := forest[..i] + forest[i + 1..];
      forall t | t in ts[1..] ensures t in others {
        var j :| 0 <= j < |ts[1..]| && ts[1..][j] == t;
        assert ts[j + 1] != ts[0] && t in ts;
        var k :| 0 <= k < |forest| && forest[k] == t;
        assert k < i ==> others[k] == t;
        assert k > i ==> others[k - 1] == t;
      }
      SelectionCount(others, ts[1..], h);
      RemoveCount(forest, i, h);
      assert ts == [ts[0]] + ts[1..];
      DfsConcat([ts[0]], ts[1..]);
      CountConcat(Dfs([ts[0]]), Dfs(ts[1..]), h);
    }
  }

  /** Each of the trees, with its own top window's process. */
  ghost predicate MirrorsTops(src: Source, b: Build, ts: seq<Tree>) {
    ts != [] ==>
      && ts[0].hwnd in src.windows
      && Mirrors(src, b, [ts[0]], None, src.windows[ts[0].hwnd].pid)
      && MirrorsTops(src, b, ts[1..])
  }

  lemma {:induction false} ListsOfTree(src: Source, order: seq<Hwnd>, top: Tree, f: seq<Tree>)
    requires Fits(src.parentOf, [top]) && Distinct([top]) && Enumerates(order, top)
    requires forall n :: Within(n, f) ==> Within(n, [top])
    ensures Lists(src, order, f)
  {
    if f != [] {
      assert Within(f[0], f);
      OnePassIsEnough(top, f[0], src.parentOf, order, Dfs(f[0].kids));
      ListsOfTree(src, order, top, f[0].kids);
      ListsOfTree(src, order, top, f[1..]);
    }
  }

  lemma LoadTopMirrors(src: Source, b: Build, t: Tree)
    requires RealTop(src, t) && Distinct([t]) && AllNew(src, b, [t])
    ensures var r := LoadTop(src, b, t.hwnd);
            Grown(b, r, [t]) && Mirrors(src, r, [t], None, src.windows[t.hwnd].pid)
  {
    var order := src.below(t.hwnd);
    ListsOfTree(src, order, t, [t]);
    LoadMirrorsTree(src, b, t, None, src.windows[t.hwnd].pid, order, Reachable(t.hwnd, order));
  }

  lemma TopsApart(ts: seq<Tree>)
    requires ts != [] && Distinct(ts)
    ensures Distinct([ts[0]]) && Distinct(ts[1..])
    ensures forall h :: Listed(ts, h) <==> Listed([ts[0]], h) || Listed(ts[1..], h)
    ensures forall h :: !(Listed([ts[0]], h) && Listed(ts[1..], h))
  {
    assert ts == [ts[0]] + ts[1..];
    DfsConcat([ts[0]], ts[1..]);
    forall h ensures Count(Dfs([ts[0]]), h) + Count(Dfs(ts[1..]), h) <= 1 {
      CountConcat(Dfs([ts[0]]), Dfs(ts[1..]), h);
      assert Count(Dfs(ts), h) <= 1;
    }
    forall h ensures !(Listed([ts[0]], h) && Listed(ts[1..], h)) {
      assert Count(Dfs([ts[0]]), h) + Count(Dfs(ts[1..]), h) <= 1;
    }
  }

  lemma {:induction false} LoadTopsMirrors(src: Source, b: Build, ts: seq<Tree>)
    requires (forall t | t in ts :: RealTop(src, t)) && Distinct(ts) && AllNew(src, b, ts)
    ensures var r := LoadTops(src, b, Handles(ts));
            Grown(b, r, ts) && MirrorsTops(src, r, ts)
    decreases ts
  {
    if ts != [] {
      var t, rest := ts[0], ts[1..];
      assert t in ts && Handles(ts)[1..] == Handles(rest);
      TopsApart(ts);
      var b1 := LoadTop(src, b, t.hwnd);
      LoadTopMirrors(src, b, t);
      assert AllNew(src, b1, rest);
      var r := LoadTops(src, b1, Handles(rest));
      LoadTopsMirrors(src, b1, rest);
      MirrorsStable(src, b1, r, [t], None, src.windows[t.hwnd].pid);
    }
  }

  /** The watched part of the desktop, top-level windows in handle order. */
  function Watched(src: Source, forest: seq<Tree>, pids: set<Pid>): seq<Tree>
    requires RealForest(src, forest)
  {
    TopsHaveRoots(src, forest, pids);
    Roots(forest, Tops(src, pids))
  }

  lemma TopsHaveRoots(src: Source, forest: seq<Tree>, pids: set<Pid>)
    requires RealForest(src, forest)
    ensures forall i | 0 <= i < |Tops(src, pids)| :: HasRoot(forest, Tops(src, pids)[i])
  {
    TopsAre(src, pids);
    forall i | 0 <= i < |Tops(src, pids)| ensures HasRoot(forest, Tops(src, pids)[i]) {
      assert Tops(src, pids)[i] in Tops(src, pids);
    }
  }

  /** On a real desktop the graph is exactly the window trees of the watched processes: every node,
      every tree parent, every child list in order, and nothing else. */
  lemma GraphIsTheWindowForest(src: Source, forest: seq<Tree>, pids: set<Pid>)
    requires RealForest(src, forest)
    ensures var g, ts := Graph(src, pids), Watched(src, forest, pids);
            && Handles(ts) == Tops(src, pids)
            && MirrorsTops(src, Build(g.nodes, g.children, {}), ts)
            && forall h :: h in g.nodes <==> Listed(ts, h)
  {
    var tops, ts := Tops(src, pids), Watched(src, forest, pids);
    TopsHaveRoots(src, forest, pids);
    TopsAre(src, pids);
    assert Handles(ts) == tops;
    assert forall i, j | 0 <= i < j < |ts| :: ts[i].hwnd < ts[j].hwnd;
    forall h ensures Count(Dfs(ts), h) <= 1 {
      SelectionCount(forest, ts, h);
      assert Count(Dfs(forest), h) <= 1;
    }
    forall h | Listed(ts, h) ensures h in src.windows {
      SelectionCount(forest, ts, h);
      assert Count(Dfs(ts), h) > 0;
      assert Listed(forest, h);
    }
    LoadTopsMirrors(src, NOTHING, ts);
    var r := LoadTops(src, NOTHING, tops);
    if pids == {} {
      assert (set h | h in src.windows && src.windows[h].parent == 0 && src.windows[h].pid in pids) == {};
    }
    assert forall h :: if Listed(ts, h) then h in r.nodes else Same(NOTHING, r, h);
    MirrorsForget(src, r, ts);
  }

  /** Which windows were visited does not matter to the mirror. */
  lemma {:induction false} MirrorsForget(src: Source, b: Build, ts: seq<Tree>)
    requires MirrorsTops(src, b, ts)
    ensures MirrorsTops(src, Build(b.nodes, b.children, {}), ts)
  {
    if ts != [] {
      MirrorForgets(src, b, [ts[0]], None, src.windows[ts[0].hwnd].pid);
      MirrorsForget(src, b, ts[1..]);
    }
  }

  lemma {:induction false} MirrorForgets(src: Source, b: Build, f: seq<Tree>, parent: Option<Hwnd>, pid: Pid)
    requires Mirrors(src, b, f, parent, pid)
    ensures Mirrors(src, Build(b.nodes, b.children, {}), f, parent, pid)
  {
    if f != [] {
      MirrorForgets(src, b, f[0].kids, Some(f[0].hwnd), pid);
      MirrorForgets(src, b, f[1..], parent, pid);
    }
  }
}
