/** Reading the window graph from the system: one enumeration per top-level window, then a recursive
    load along the child lists it yields. */
module GraphBuild {
  import opened Model
  import opened Desktop
  import opened Ordering
  import opened Trees
  import Search
  import Undo

  /** What the builder asks the system. `shown` is IsWindowVisible, which depends on ancestors too, and
      `below` the enumeration of a window's descendants; nothing is assumed of `parentOf` here, so
      GetParent may contradict it. */
  datatype Source = Source(
    windows: map<Hwnd, WindowRec>,
    text: Hwnd -> WindowText,
    shown: Hwnd -> bool,
    parentOf: Hwnd -> Hwnd,
    below: Hwnd -> seq<Hwnd>)

  datatype Build = Build(nodes: map<Hwnd, WindowNode>, children: map<Hwnd, seq<Hwnd>>, visited: set<Hwnd>)

  const NOTHING := Build(map[], map[], {})

  function NodeOf(src: Source, h: Hwnd, parent: Option<Hwnd>, pid: Pid): WindowNode
    requires h in src.windows
  {
    var owner := src.parentOf(h);
    WindowNode(h, pid, src.windows[h].className, src.text(h), parent,
               if parent.None? && owner != 0 then Some(owner) else None,
               src.windows[h].rect, src.shown(h))
  }

  function Entered(src: Source, b: Build, h: Hwnd, parent: Option<Hwnd>, pid: Pid): Build
    requires h in src.windows
  {
    Build(b.nodes[h := NodeOf(src, h, parent, pid)],
          if h in b.children then b.children else b.children[h := []],
          b.visited + {h})
  }

  predicate Bounded(hs: seq<Hwnd>, all: set<Hwnd>) { forall h | h in hs :: h in all }

  predicate NodesKeyed(b: Build) { forall h | h in b.nodes :: b.nodes[h].hwnd == h }

  /** `all` bounds what can be reached; every step visits one more window of it. */
  function Load(src: Source, b: Build, h: Hwnd, parent: Option<Hwnd>, pid: Pid, order: seq<Hwnd>, ghost all: set<Hwnd>): (r: Build)
    requires h in all && Bounded(order, all)
    ensures b.visited <= r.visited && (NodesKeyed(b) ==> NodesKeyed(r))
    decreases all - b.visited, 0
  {
    if h in b.visited || h !in src.windows then b.(visited := b.visited + {h})
    else
      var kids := ChildrenIn(order, src.parentOf, h);
      PickedAre(order, src.parentOf, h);
      var b1 := Entered(src, b, h, parent, pid);
      assert h in all - b.visited && h !in all - b1.visited;
      var b2 := LoadAll(src, b1, kids, h, pid, order, all);
      b2.(children := b2.children[h := kids])
  }

  function LoadAll(src: Source, b: Build, kids: seq<Hwnd>, parent: Hwnd, pid: Pid, order: seq<Hwnd>, ghost all: set<Hwnd>): (r: Build)
    requires Bounded(kids, all) && Bounded(order, all)
    ensures b.visited <= r.visited && (NodesKeyed(b) ==> NodesKeyed(r))
    decreases all - b.visited, 1 + |kids|
  {
    if kids == [] then b
    else
      var b1 := Load(src, b, kids[0], Some(parent), pid, order, all);
      assert all - b1.visited <= all - b.visited;
      LoadAll(src, b1, kids[1..], parent, pid, order, all)
  }

  function Reachable(h: Hwnd, order: seq<Hwnd>): set<Hwnd> { {h} + set x | x in order }

  function LoadTop(src: Source, b: Build, h: Hwnd): Build {
    Load(src, b, h, None, if h in src.windows then src.windows[h].pid else 0, src.below(h), Reachable(h, src.below(h)))
  }

  function LoadTops(src: Source, b: Build, tops: seq<Hwnd>): (r: Build)
    ensures NodesKeyed(b) ==> NodesKeyed(r)
    decreases tops
  {
    if tops == [] then b else LoadTops(src, LoadTop(src, b, tops[0]), tops[1..])
  }

  function Tops(src: Source, pids: set<Pid>): seq<Hwnd> {
    SortedSeq(set h | h in src.windows && src.windows[h].parent == 0 && src.windows[h].pid in pids)
  }

  function Graph(src: Source, pids: set<Pid>): (g: WindowGraph)
    ensures g.WellKeyed()
  {
    var b := if pids == {} then NOTHING else LoadTops(src, NOTHING, Tops(src, pids));
    WindowGraph(pids, b.nodes, b.children)
  }

  // ---------------------------------------------------------------- the loops

  /** The child lists of everything below one top-level window. */
  function ChildLists(order: seq<Hwnd>, parentOf: Hwnd -> Hwnd): map<Hwnd, seq<Hwnd>> {
    map p | p in (set i | 0 <= i < |order| :: parentOf(order[i])) :: ChildrenIn(order, parentOf, p)
  }

  function Lookup(lists: map<Hwnd, seq<Hwnd>>, h: Hwnd): seq<Hwnd> { if h in lists then lists[h] else [] }

  ghost predicate ListsOf(lists: map<Hwnd, seq<Hwnd>>, order: seq<Hwnd>, parentOf: Hwnd -> Hwnd) {
    forall h :: Lookup(lists, h) == ChildrenIn(order, parentOf, h)
  }

  lemma LookupPicks(order: seq<Hwnd>, parentOf: Hwnd -> Hwnd, h: Hwnd)
    ensures Lookup(ChildLists(order, parentOf), h) == ChildrenIn(order, parentOf, h)
  {
    if h !in ChildLists(order, parentOf) {
      forall i | 0 <= i < |order| ensures parentOf(order[i]) != h {
        assert parentOf(order[i]) in ChildLists(order, parentOf);
      }
      PickNone(order, parentOf, h);
    }
  }

  lemma ListsGrow(order: seq<Hwnd>, parentOf: Hwnd -> Hwnd, i: nat)
    requires i < |order|
    ensures var lists, p := ChildLists(order[..i], parentOf), parentOf(order[i]);
            ChildLists(order[..i + 1], parentOf) == lists[p := Lookup(lists, p) + [order[i]]]
  {
    var before, after := order[..i], order[..i + 1];
    var lists, p := ChildLists(before, parentOf), parentOf(order[i]);
    assert after == before + [order[i]];
    LookupPicks(before, parentOf, p);
    var grown := lists[p := Lookup(lists, p) + [order[i]]];
    assert ChildLists(after, parentOf).Keys == grown.Keys by {
      assert forall j | 0 <= j < i :: after[j] == before[j];
      assert after[i] == order[i];
    }
    forall q | q in grown ensures ChildrenIn(after, parentOf, q) == grown[q] {
      PickConcat(before, [order[i]], parentOf, q);
      assert [order[i]][1..] == [];
    }
  }

  method ChildMap(src: Source, top: Hwnd) returns (lists: map<Hwnd, seq<Hwnd>>)
    ensures lists == ChildLists(src.below(top), src.parentOf)
    ensures ListsOf(lists, src.below(top), src.parentOf)
  {
    var order := src.below(top);
    lists := map[];
    var i := 0;
    while i < |order|
      invariant 0 <= i <= |order|
      invariant lists == ChildLists(order[..i], src.parentOf)
    {
      ListsGrow(order, src.parentOf, i);
      var p := src.parentOf(order[i]);
      lists := lists[p := Lookup(lists, p) + [order[i]]];
      i := i + 1;
    }
    assert order[..|order|] == order;
    forall h ensures Lookup(lists, h) == ChildrenIn(order, src.parentOf, h) {
      LookupPicks(order, src.parentOf, h);
    }
  }

  class GraphBuilder {
    var nodes: map<Hwnd, WindowNode>
    var children: map<Hwnd, seq<Hwnd>>
    var visited: set<Hwnd>
    const src: Source

    constructor (src: Source)
      ensures Value() == NOTHING && this.src == src
    {
      this.src, nodes, children, visited := src, map[], map[], {};
    }

    ghost function Value(): Build
      reads this
    {
      Build(nodes, children, visited)
    }

    method InsertNode(node: WindowNode)
      modifies this
      ensures visited == old(visited) && nodes == old(nodes)[node.hwnd := node]
      ensures children == if node.hwnd in old(children) then old(children) else old(children)[node.hwnd := []]
    {
      if node.hwnd !in children {
        children := children[node.hwnd := []];
      }
      nodes := nodes[node.hwnd := node];
    }

    method LoadTree(h: Hwnd, parent: Option<Hwnd>, pid: Pid, lists: map<Hwnd, seq<Hwnd>>, ghost order: seq<Hwnd>, ghost all: set<Hwnd>)
      requires h in all && Bounded(order, all) && ListsOf(lists, order, src.parentOf)
      modifies this
      ensures Value() == Load(src, old(Value()), h, parent, pid, order, all)
      decreases all - visited, 0
    {
      if h in visited {
        return;
      }
      visited := visited + {h};
      if h !in src.windows {
        return;
      }
      InsertNode(NodeOf(src, h, parent, pid));
      var kids := Lookup(lists, h);
      PickedAre(order, src.parentOf, h);
      assert h in all - old(visited) && h !in all - visited;
      LoadKids(kids, h, pid, lists, order, all);
      children := children[h := kids];
    }

    method LoadKids(kids: seq<Hwnd>, parent: Hwnd, pid: Pid, lists: map<Hwnd, seq<Hwnd>>, ghost order: seq<Hwnd>, ghost all: set<Hwnd>)
      requires Bounded(kids, all) && Bounded(order, all) && ListsOf(lists, order, src.parentOf)
      modifies this
      ensures Value() == LoadAll(src, old(Value()), kids, parent, pid, order, all)
      decreases all - visited, 1
    {
      var i := 0;
      while i < |kids|
        invariant 0 <= i <= |kids|
        invariant old(visited) <= visited
        invariant LoadAll(src, Value(), kids[i..], parent, pid, order, all) == LoadAll(src, old(Value()), kids, parent, pid, order, all)
      {
        assert kids[i..][1..] == kids[i + 1..];
        assert all - visited <= all - old(visited);
        LoadTree(kids[i], Some(parent), pid, lists, order, all);
        i := i + 1;
      }
    }

    method LoadAllTops(tops: seq<Hwnd>)
      requires forall h | h in tops :: h in src.windows
      modifies this
      ensures Value() == LoadTops(src, old(Value()), tops)
    {
      var i := 0;
      while i < |tops|
        invariant 0 <= i <= |tops|
        invariant LoadTops(src, Value(), tops[i..]) == LoadTops(src, old(Value()), tops)
      {
        assert tops[i..][1..] == tops[i + 1..];
        var lists := ChildMap(src, tops[i]);
        assert tops[i] in tops;
        LoadTree(tops[i], None, src.windows[tops[i]].pid, lists, src.below(tops[i]), Reachable(tops[i], src.below(tops[i])));
        i := i + 1;
      }
    }
  }

  method BuildGraph(src: Source, pids: set<Pid>) returns (g: WindowGraph)
    ensures g == Graph(src, pids)
  {
    if pids == {} {
      return WindowGraph(pids, map[], map[]);
    }
    var tops := Tops(src, pids);
    SortedSeqSorts(set h | h in src.windows && src.windows[h].parent == 0 && src.windows[h].pid in pids);
    var builder := new GraphBuilder(src);
    builder.LoadAllTops(tops);
    g := WindowGraph(pids, builder.nodes, builder.children);
  }
}
