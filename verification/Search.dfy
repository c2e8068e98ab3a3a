/** Walking the window graph: the queue loop of `enum_descendants` and the depth-bounded recursive
    searches, both against child paths. */
module Search {
  import opened Model
  import opened Ordering

  type Hit = (Hwnd, int)

  function Kids(g: WindowGraph, hs: seq<Hwnd>): seq<Hwnd> {
    if hs == [] then [] else g.ChildrenOf(hs[0]) + Kids(g, hs[1..])
  }

  function Tag(hs: seq<Hwnd>, depth: int): (r: seq<Hit>)
    ensures |r| == |hs| && forall i | 0 <= i < |r| :: r[i] == (hs[i], depth)
  {
    seq(|hs|, i requires 0 <= i < |hs| => (hs[i], depth))
  }

  /** Level by level from a frontier at `depth`, down to `maxDepth`. */
  function Levels(g: WindowGraph, frontier: seq<Hwnd>, depth: int, maxDepth: int): seq<Hit>
    decreases maxDepth - depth + 1
  {
    if depth > maxDepth then [] else Tag(frontier, depth) + Levels(g, Kids(g, frontier), depth + 1, maxDepth)
  }

  function Descendants(g: WindowGraph, parent: Hwnd, maxDepth: int): seq<Hit> {
    if maxDepth <= 0 || parent !in g.nodes then [] else Levels(g, g.ChildrenOf(parent), 1, maxDepth)
  }

  /** What a queue holding `here` at `depth` and `next` one deeper has still to deliver. */
  function Remaining(g: WindowGraph, here: seq<Hwnd>, next: seq<Hwnd>, depth: int, maxDepth: int): seq<Hit> {
    Tag(here, depth) + Levels(g, next + Kids(g, here), depth + 1, maxDepth)
  }

  lemma NextLevel(g: WindowGraph, next: seq<Hwnd>, depth: int, maxDepth: int)
    requires depth < maxDepth
    ensures Remaining(g, [], next, depth, maxDepth) == Remaining(g, next, [], depth + 1, maxDepth)
  {
    assert next + Kids(g, []) == next && [] + Kids(g, next) == Kids(g, next);
  }

  lemma PopOne(g: WindowGraph, here: seq<Hwnd>, next: seq<Hwnd>, depth: int, maxDepth: int)
    requires here != [] && depth <= maxDepth
    ensures var more := if depth < maxDepth then g.ChildrenOf(here[0]) else [];
            Remaining(g, here, next, depth, maxDepth) == [(here[0], depth)] + Remaining(g, here[1..], next + more, depth, maxDepth)
  {
    assert Tag(here, depth) == [(here[0], depth)] + Tag(here[1..], depth);
    assert next + Kids(g, here) == (next + g.ChildrenOf(here[0])) + Kids(g, here[1..]);
  }

  /** The loop invariant of `EnumDescendants`: what was delivered and what the queue stands for make the whole. */
  predicate Progress(g: WindowGraph, total: seq<Hit>, descendants: seq<Hit>, queue: seq<Hit>,
                     here: seq<Hwnd>, next: seq<Hwnd>, depth: int, maxDepth: int) {
    && depth <= maxDepth && (depth == maxDepth ==> next == [])
    && Queued(queue, |descendants|, here, next, depth)
    && descendants + Remaining(g, here, next, depth, maxDepth) == total
  }

  lemma ProgressStarts(g: WindowGraph, parent: Hwnd, maxDepth: int)
    requires 0 < maxDepth
    ensures Progress(g, Levels(g, g.ChildrenOf(parent), 1, maxDepth), [], Tag(g.ChildrenOf(parent), 1),
                     g.ChildrenOf(parent), [], 1, maxDepth)
  {
    assert [] + Kids(g, g.ChildrenOf(parent)) == Kids(g, g.ChildrenOf(parent));
  }

  lemma ProgressTurns(g: WindowGraph, total: seq<Hit>, descendants: seq<Hit>, queue: seq<Hit>,
                      next: seq<Hwnd>, depth: int, maxDepth: int)
    requires Progress(g, total, descendants, queue, [], next, depth, maxDepth) && |descendants| < |queue|
    ensures Progress(g, total, descendants, queue, next, [], depth + 1, maxDepth) && next != []
  {
    NextLevel(g, next, depth, maxDepth);
    QueueTurns(queue, |descendants|, next, depth);
  }

  lemma ProgressSteps(g: WindowGraph, total: seq<Hit>, descendants: seq<Hit>, queue: seq<Hit>,
                      here: seq<Hwnd>, next: seq<Hwnd>, depth: int, maxDepth: int)
    requires Progress(g, total, descendants, queue, here, next, depth, maxDepth) && here != []
    ensures |descendants| < |queue| && |descendants| < |total| && queue[|descendants|] == (here[0], depth)
    ensures var more := if depth < maxDepth then g.ChildrenOf(here[0]) else [];
            Progress(g, total, descendants + [(here[0], depth)], queue + Tag(more, depth + 1), here[1..], next + more, depth, maxDepth)
  {
    var more := if depth < maxDepth then g.ChildrenOf(here[0]) else [];
    PopOne(g, here, next, depth, maxDepth);
    QueueStep(queue, |descendants|, here, next, depth);
    QueueGrows(queue, |descendants| + 1, here[1..], next, more, depth);
    Regroup(descendants, [(here[0], depth)], Remaining(g, here[1..], next + more, depth, maxDepth));
  }

  lemma ProgressEnds(g: WindowGraph, total: seq<Hit>, descendants: seq<Hit>, queue: seq<Hit>,
                     here: seq<Hwnd>, next: seq<Hwnd>, depth: int, maxDepth: int)
    requires Progress(g, total, descendants, queue, here, next, depth, maxDepth) && |descendants| == |queue|
    ensures descendants == total
  {
    QueueIsEmpty(g, queue, here, next, depth, maxDepth);
  }

  /** The queue loop: one pass over a growing list of (handle, depth). */
  method EnumDescendants(g: WindowGraph, parent: Hwnd, maxDepth: int) returns (descendants: seq<Hit>)
    ensures descendants == Descendants(g, parent, maxDepth)
  {
    descendants := [];
    if maxDepth <= 0 || parent !in g.nodes {
      return;
    }
    var queue := Tag(g.ChildrenOf(parent), 1);
    var index := 0;
    // The rest of the current level, the part of the next level already queued, and the current depth.
    ghost var here, next, depth := g.ChildrenOf(parent), [], 1;
    ghost var total := Levels(g, g.ChildrenOf(parent), 1, maxDepth);
    ProgressStarts(g, parent, maxDepth);
    while index < |queue|
      invariant 0 <= index == |descendants| <= |queue|
      invariant Progress(g, total, descendants, queue, here, next, depth, maxDepth)
      decreases |total| - index
    {
      if here == [] {
        ProgressTurns(g, total, descendants, queue, next, depth, maxDepth);
        here, next, depth := next, [], depth + 1;
      }
      queue, descendants, here, next := VisitNext(g, maxDepth, queue, index, descendants, here, next, depth, total);
      index := index + 1;
    }
    ProgressEnds(g, total, descendants, queue, here, next, depth, maxDepth);
  }

  /** The body of the loop: deliver the front of the queue and append its children one level deeper. */
  method VisitNext(g: WindowGraph, maxDepth: int, queue: seq<Hit>, index: nat, descendants: seq<Hit>,
                   ghost here: seq<Hwnd>, ghost next: seq<Hwnd>, ghost depth: int, ghost total: seq<Hit>)
    returns (queue': seq<Hit>, descendants': seq<Hit>, ghost here': seq<Hwnd>, ghost next': seq<Hwnd>)
    requires index == |descendants| < |queue| && here != []
    requires Progress(g, total, descendants, queue, here, next, depth, maxDepth)
    ensures |descendants'| == |descendants| + 1 <= |queue'| && |descendants| < |total|
    ensures Progress(g, total, descendants', queue', here', next', depth, maxDepth)
  {
    ProgressSteps(g, total, descendants, queue, here, next, depth, maxDepth);
    var (hwnd, d) := queue[index];
    descendants' := descendants + [(hwnd, d)];
    var more := if d >= maxDepth then [] else g.ChildrenOf(hwnd);
    queue' := queue + Tag(more, d + 1);
    here', next' := here[1..], next + more;
  }

  predicate Queued(queue: seq<Hit>, index: nat, here: seq<Hwnd>, next: seq<Hwnd>, depth: int) {
    index <= |queue| && queue[index..] == Tag(here, depth) + Tag(next, depth + 1)
  }

  lemma QueueTurns(queue: seq<Hit>, index: nat, next: seq<Hwnd>, depth: int)
    requires Queued(queue, index, [], next, depth)
    ensures Queued(queue, index, next, [], depth + 1)
  {
    assert Tag([], depth) + Tag(next, depth + 1) == Tag(next, depth + 1) + Tag([], depth + 2);
  }

  lemma QueueStep(queue: seq<Hit>, index: nat, here: seq<Hwnd>, next: seq<Hwnd>, depth: int)
    requires Queued(queue, index, here, next, depth) && here != []
    ensures index < |queue| && queue[index] == (here[0], depth)
    ensures Queued(queue, index + 1, here[1..], next, depth)
  {
    assert queue[index..][0] == Tag(here, depth)[0];
    assert queue[index + 1..] == queue[index..][1..];
    assert Tag(here, depth)[1..] == Tag(here[1..], depth);
  }

  lemma QueueGrows(queue: seq<Hit>, index: nat, here: seq<Hwnd>, next: seq<Hwnd>, more: seq<Hwnd>, depth: int)
    requires Queued(queue, index, here, next, depth)
    ensures Queued(queue + Tag(more, depth + 1), index, here, next + more, depth)
  {
    assert (queue + Tag(more, depth + 1))[index..] == queue[index..] + Tag(more, depth + 1);
    assert Tag(next + more, depth + 1) == Tag(next, depth + 1) + Tag(more, depth + 1);
  }

  lemma QueueIsEmpty(g: WindowGraph, queue: seq<Hit>, here: seq<Hwnd>, next: seq<Hwnd>, depth: int, maxDepth: int)
    requires Queued(queue, |queue|, here, next, depth)
    ensures here == [] && next == [] && Remaining(g, here, next, depth, maxDepth) == []
  {
    assert |here| == |Tag(here, depth)| && |next| == |Tag(next, depth + 1)|;
    LevelsOfNothing(g, depth + 1, maxDepth);
  }

  lemma {:induction false} LevelsOfNothing(g: WindowGraph, depth: int, maxDepth: int)
    ensures Levels(g, [], depth, maxDepth) == []
    decreases maxDepth - depth + 1
  {
    if depth <= maxDepth {
      LevelsOfNothing(g, depth + 1, maxDepth);
    }
  }

  // ---------------------------------------------------------------- child paths

  /** A child path of exactly `d` edges leads from `p` to `h`. */
  ghost predicate Reach(g: WindowGraph, p: Hwnd, h: Hwnd, d: nat)
    decreases d
  {
    if d == 0 then p == h else exists c :: c in g.ChildrenOf(p) && Reach(g, c, h, d - 1)
  }

  lemma {:induction false} KidsAreChildren(g: WindowGraph, hs: seq<Hwnd>, c: Hwnd)
    ensures c in Kids(g, hs) <==> exists h :: h in hs && c in g.ChildrenOf(h)
  {
    if hs != [] {
      KidsAreChildren(g, hs[1..], c);
      assert hs == [hs[0]] + hs[1..];
      assert hs[0] in hs;
    }
  }

  lemma {:induction false} LevelsArePaths(g: WindowGraph, frontier: seq<Hwnd>, depth: int, maxDepth: int, h: Hwnd, d: int)
    ensures (h, d) in Levels(g, frontier, depth, maxDepth)
       <==> depth <= d <= maxDepth && exists f :: f in frontier && Reach(g, f, h, d - depth)
    decreases maxDepth - depth + 1
  {
    if depth <= maxDepth {
      var rest := Levels(g, Kids(g, frontier), depth + 1, maxDepth);
      LevelsArePaths(g, Kids(g, frontier), depth + 1, maxDepth, h, d);
      TagContains(frontier, depth, h, d);
      assert Levels(g, frontier, depth, maxDepth) == Tag(frontier, depth) + rest;
      if depth < d <= maxDepth {
        PathsThroughKids(g, frontier, h, d - depth, d - (depth + 1));
      } else if d == depth {
        assert (h, d) !in rest;
        assert h in frontier ==> Reach(g, h, h, 0);
      }
    }
  }

  lemma TagContains(hs: seq<Hwnd>, depth: int, h: Hwnd, d: int)
    ensures (h, d) in Tag(hs, depth) <==> d == depth && h in hs
  {
    if h in hs {
      var i :| 0 <= i < |hs| && hs[i] == h;
      assert Tag(hs, depth)[i] == (h, depth);
    }
  }

  lemma PathsThroughKids(g: WindowGraph, frontier: seq<Hwnd>, h: Hwnd, d: nat, less: nat)
    requires d == less + 1
    ensures (exists f :: f in frontier && Reach(g, f, h, d)) <==> (exists c :: c in Kids(g, frontier) && Reach(g, c, h, less))
  {
    if exists f :: f in frontier && Reach(g, f, h, d) {
      var f :| f in frontier && Reach(g, f, h, d);
      var c :| c in g.ChildrenOf(f) && Reach(g, c, h, d - 1);
      KidsAreChildren(g, frontier, c);
    }
    if exists c :: c in Kids(g, frontier) && Reach(g, c, h, less) {
      var c :| c in Kids(g, frontier) && Reach(g, c, h, less);
      KidsAreChildren(g, frontier, c);
      var f :| f in frontier && c in g.ChildrenOf(f);
      assert Reach(g, f, h, d);
    }
  }

  /** The enumeration lists a window at a depth if and only if a child path of that length leads to it. */
  lemma DescendantsArePaths(g: WindowGraph, p: Hwnd, m: int, h: Hwnd, d: int)
    ensures (h, d) in Descendants(g, p, m) <==> p in g.nodes && 1 <= d <= m && Reach(g, p, h, d)
  {
    if m > 0 && p in g.nodes {
      LevelsArePaths(g, g.ChildrenOf(p), 1, m, h, d);
    }
  }

  /** Nearest first, nothing above `depth`. */
  predicate NearestFirst(r: seq<Hit>, depth: int) {
    && (forall i | 0 <= i < |r| :: depth <= r[i].1)
    && (forall i, j | 0 <= i < j < |r| :: r[i].1 <= r[j].1)
  }

  /** No window is listed twice. */
  predicate Once(r: seq<Hit>) {
    forall i, j | 0 <= i < j < |r| :: r[i].0 != r[j].0
  }

  lemma {:induction false} LevelsAreOrdered(g: WindowGraph, frontier: seq<Hwnd>, depth: int, maxDepth: int)
    ensures NearestFirst(Levels(g, frontier, depth, maxDepth), depth)
    decreases maxDepth - depth + 1
  {
    if depth <= maxDepth {
      LevelsAreOrdered(g, Kids(g, frontier), depth + 1, maxDepth);
      ConcatOrdered(Tag(frontier, depth), Levels(g, Kids(g, frontier), depth + 1, maxDepth), depth);
    }
  }

  lemma ConcatOrdered(tags: seq<Hit>, rest: seq<Hit>, depth: int)
    requires forall i | 0 <= i < |tags| :: tags[i].1 == depth
    requires NearestFirst(rest, depth + 1)
    ensures NearestFirst(tags + rest, depth)
  {
  }

  lemma ConcatOnce(tags: seq<Hit>, rest: seq<Hit>)
    requires Once(tags) && Once(rest)
    requires forall i, j | 0 <= i < |tags| && 0 <= j < |rest| :: tags[i].0 != rest[j].0
    ensures Once(tags + rest)
  {
  }

  // ---------------------------------------------------------------- forests

  predicate NoDuplicates<T(==)>(s: seq<T>) { forall i, j | 0 <= i < j < |s| :: s[i] != s[j] }

  /** Every child edge agrees with the child's recorded tree parent, and no list repeats a child. */
  predicate Forest(g: WindowGraph) {
    && g.WellKeyed()
    && g.children.Keys <= g.nodes.Keys
    && (forall p | p in g.children :: NoDuplicates(g.children[p]))
    && (forall p, c | p in g.children && c in g.children[p] && c in g.nodes :: g.nodes[c].structuralParent == Some(p))
    && (forall p, q, c | p in g.children && q in g.children && c in g.children[p] && c in g.children[q] :: p == q)
  }

  lemma OneParent(g: WindowGraph, p: Hwnd, q: Hwnd, c: Hwnd)
    requires Forest(g) && c in g.ChildrenOf(p) && c in g.ChildrenOf(q)
    ensures p == q
  {
  }

  lemma NotAChild(g: WindowGraph, q: Hwnd, root: Hwnd)
    requires Forest(g) && root in g.nodes && g.nodes[root].structuralParent.None?
    ensures root !in g.ChildrenOf(q)
  {
  }

  /** A nonempty path ends with one last edge. */
  lemma {:induction false} LastEdge(g: WindowGraph, p: Hwnd, h: Hwnd, d: nat) returns (q: Hwnd)
    requires d > 0 && Reach(g, p, h, d)
    ensures Reach(g, p, q, d - 1) && h in g.ChildrenOf(q)
    decreases d
  {
    var c :| c in g.ChildrenOf(p) && Reach(g, c, h, d - 1);
    if d == 1 {
      q := p;
    } else {
      q := LastEdge(g, c, h, d - 1);
    }
  }

  /** From a top-level window only one depth leads to any given window. */
  lemma {:induction false} OneDepth(g: WindowGraph, root: Hwnd, h: Hwnd, d1: nat, d2: nat)
    requires Forest(g) && root in g.nodes && g.nodes[root].structuralParent.None?
    requires Reach(g, root, h, d1) && Reach(g, root, h, d2)
    ensures d1 == d2
    decreases d1
  {
    if d1 > 0 {
      var q1 := LastEdge(g, root, h, d1);
      if d2 > 0 {
        var q2 := LastEdge(g, root, h, d2);
        OneParent(g, q1, q2, h);
        OneDepth(g, root, q1, d1 - 1, d2 - 1);
      }
    } else if d2 > 0 {
      var q2 := LastEdge(g, root, h, d2);
      NotAChild(g, q2, root);
    }
  }

  lemma {:induction false} KidsOnce(g: WindowGraph, hs: seq<Hwnd>)
    requires Forest(g) && NoDuplicates(hs)
    ensures NoDuplicates(Kids(g, hs))
  {
    if hs != [] {
      var rest := hs[1..];
      KidsOnce(g, rest);
      forall c | c in g.ChildrenOf(hs[0]) ensures c !in Kids(g, rest) {
        KidsAreChildren(g, rest, c);
        if c in Kids(g, rest) {
          var i :| 0 <= i < |rest| && c in g.ChildrenOf(rest[i]);
          assert hs[i + 1] == rest[i];
          OneParent(g, hs[0], rest[i], c);
        }
      }
      var kids, more := g.ChildrenOf(hs[0]), Kids(g, rest);
      forall i, j | 0 <= i < j < |kids + more| ensures (kids + more)[i] != (kids + more)[j] {
        if i < |kids| <= j {
          assert (kids + more)[i] in kids && (kids + more)[j] in more;
        }
      }
    }
  }

  lemma DeeperIsNew(g: WindowGraph, root: Hwnd, frontier: seq<Hwnd>, depth: nat, maxDepth: int, h: Hwnd, d: int)
    requires Forest(g) && root in g.nodes && g.nodes[root].structuralParent.None?
    requires forall f | f in frontier :: Reach(g, root, f, depth)
    requires (h, d) in Levels(g, Kids(g, frontier), depth + 1, maxDepth)
    ensures h !in frontier
  {
    LevelsArePaths(g, Kids(g, frontier), depth + 1, maxDepth, h, d);
    var c :| c in Kids(g, frontier) && Reach(g, c, h, d - (depth + 1));
    PathBelow(g, root, frontier, c, depth);
    TwoDepths(g, root, c, h, depth, d - (depth + 1));
  }

  lemma TwoDepths(g: WindowGraph, root: Hwnd, c: Hwnd, h: Hwnd, depth: nat, below: nat)
    requires Forest(g) && root in g.nodes && g.nodes[root].structuralParent.None?
    requires Reach(g, root, c, depth + 1) && Reach(g, c, h, below)
    ensures !Reach(g, root, h, depth)
  {
    JoinPaths(g, root, c, h, depth + 1, below);
    if Reach(g, root, h, depth) {
      OneDepth(g, root, h, depth, depth + 1 + below);
    }
  }

  lemma PathBelow(g: WindowGraph, root: Hwnd, frontier: seq<Hwnd>, c: Hwnd, depth: nat)
    requires forall f | f in frontier :: Reach(g, root, f, depth)
    requires c in Kids(g, frontier)
    ensures Reach(g, root, c, depth + 1)
  {
    KidsAreChildren(g, frontier, c);
    var f :| f in frontier && c in g.ChildrenOf(f);
    ExtendPath(g, root, f, c, depth);
  }

  lemma {:induction false} LevelsOnce(g: WindowGraph, root: Hwnd, frontier: seq<Hwnd>, depth: nat, maxDepth: int)
    requires Forest(g) && root in g.nodes && g.nodes[root].structuralParent.None?
    requires NoDuplicates(frontier) && forall f | f in frontier :: Reach(g, root, f, depth)
    ensures Once(Levels(g, frontier, depth, maxDepth))
    decreases maxDepth - depth + 1
  {
    if depth <= maxDepth {
      var kids := Kids(g, frontier);
      var rest := Levels(g, kids, depth + 1, maxDepth);
      forall c | c in kids ensures Reach(g, root, c, depth + 1) {
        PathBelow(g, root, frontier, c, depth);
      }
      KidsOnce(g, frontier);
      LevelsOnce(g, root, kids, depth + 1, maxDepth);
      forall i, j | 0 <= i < |frontier| && 0 <= j < |rest| ensures Tag(frontier, depth)[i].0 != rest[j].0 {
        DeeperIsNew(g, root, frontier, depth, maxDepth, rest[j].0, rest[j].1);
        assert frontier[i] in frontier;
      }
      ConcatOnce(Tag(frontier, depth), rest);
    }
  }

  lemma ExtendPath(g: WindowGraph, p: Hwnd, q: Hwnd, c: Hwnd, d: nat)
    requires Reach(g, p, q, d) && c in g.ChildrenOf(q)
    ensures Reach(g, p, c, d + 1)
  {
    assert Reach(g, c, c, 0);
    assert Reach(g, q, c, 1);
    JoinPaths(g, p, q, c, d, 1);
  }

  lemma {:induction false} JoinPaths(g: WindowGraph, p: Hwnd, q: Hwnd, h: Hwnd, d1: nat, d2: nat)
    requires Reach(g, p, q, d1) && Reach(g, q, h, d2)
    ensures Reach(g, p, h, d1 + d2)
    decreases d1
  {
    if d1 > 0 {
      var c :| c in g.ChildrenOf(p) && Reach(g, c, q, d1 - 1);
      JoinPaths(g, c, q, h, d1 - 1, d2);
    }
  }

  /** On a forest the enumeration below a top-level window lists each descendant once, nearest first. */
  lemma DescendantsOnceInOrder(g: WindowGraph, root: Hwnd, m: int)
    requires Forest(g) && root in g.nodes && g.nodes[root].structuralParent.None?
    ensures Once(Descendants(g, root, m)) && NearestFirst(Descendants(g, root, m), 1)
  {
    if m > 0 {
      LevelsAreOrdered(g, g.ChildrenOf(root), 1, m);
      forall f | f in g.ChildrenOf(root) ensures Reach(g, root, f, 1) {
        assert Reach(g, f, f, 0);
      }
      assert NoDuplicates(g.ChildrenOf(root));
      LevelsOnce(g, root, g.ChildrenOf(root), 1, m);
    }
  }

  // ---------------------------------------------------------------- recursive searches

  /** The shape of every subtree search: the window itself, then its children with one level less. */
  predicate SubtreeAny(g: WindowGraph, test: WindowNode -> bool, h: Hwnd, depth: int)
    decreases depth + 1
  {
    && depth >= 0
    && h in g.nodes
    && (test(g.nodes[h]) || exists c | c in g.ChildrenOf(h) :: SubtreeAny(g, test, c, depth - 1))
  }

  lemma {:induction false} SubtreeAnyIsPath(g: WindowGraph, test: WindowNode -> bool, h: Hwnd, depth: int)
    requires g.children.Keys <= g.nodes.Keys
    ensures SubtreeAny(g, test, h, depth)
       <==> exists x, d: nat :: d <= depth && Reach(g, h, x, d) && x in g.nodes && test(g.nodes[x])
    decreases depth + 1
  {
    if depth >= 0 {
      forall c | c in g.ChildrenOf(h)
        ensures SubtreeAny(g, test, c, depth - 1)
           <==> exists x, d: nat :: d <= depth - 1 && Reach(g, c, x, d) && x in g.nodes && test(g.nodes[x])
      {
        SubtreeAnyIsPath(g, test, c, depth - 1);
      }
      if SubtreeAny(g, test, h, depth) {
        if test(g.nodes[h]) {
          assert Reach(g, h, h, 0);
        } else {
          var c :| c in g.ChildrenOf(h) && SubtreeAny(g, test, c, depth - 1);
          var x, d: nat :| d <= depth - 1 && Reach(g, c, x, d) && x in g.nodes && test(g.nodes[x]);
          assert Reach(g, h, x, d + 1);
        }
      }
      if exists x, d: nat :: d <= depth && Reach(g, h, x, d) && x in g.nodes && test(g.nodes[x]) {
        var x, d: nat :| d <= depth && Reach(g, h, x, d) && x in g.nodes && test(g.nodes[x]);
        if d > 0 {
          var c :| c in g.ChildrenOf(h) && Reach(g, c, x, d - 1);
          assert SubtreeAny(g, test, c, depth - 1);
        }
      }
    }
  }

  /** The two walks agree: a search of a subtree succeeds if and only if the window itself or one of
      its enumerated descendants passes the test. */
  lemma SearchAgreesWithEnumeration(g: WindowGraph, test: WindowNode -> bool, h: Hwnd, depth: nat)
    requires g.children.Keys <= g.nodes.Keys && h in g.nodes
    ensures SubtreeAny(g, test, h, depth)
       <==> test(g.nodes[h]) || exists hit :: hit in Descendants(g, h, depth) && hit.0 in g.nodes && test(g.nodes[hit.0])
  {
    SubtreeAnyIsPath(g, test, h, depth);
    if SubtreeAny(g, test, h, depth) && !test(g.nodes[h]) {
      var x, d: nat :| d <= depth && Reach(g, h, x, d) && x in g.nodes && test(g.nodes[x]);
      DescendantsArePaths(g, h, depth, x, d);
      var hit: Hit := (x, d);
      assert d != 0;
      assert hit in Descendants(g, h, depth) && hit.0 in g.nodes && test(g.nodes[hit.0]);
    }
    assert Reach(g, h, h, 0);
    if exists hit :: hit in Descendants(g, h, depth) && hit.0 in g.nodes && test(g.nodes[hit.0]) {
      var hit :| hit in Descendants(g, h, depth) && hit.0 in g.nodes && test(g.nodes[hit.0]);
      DescendantsArePaths(g, h, depth, hit.0, hit.1);
      var d: nat := hit.1;
      assert d <= depth && Reach(g, h, hit.0, d);
    }
  }
}
