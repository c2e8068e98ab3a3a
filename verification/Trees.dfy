/** Window trees and the two orders in which their descendants are enumerated: depth-first, as the
    system does, and breadth-first, as the test double does. One enumeration of a tree is enough to
    recover the child list of every window in it. */
module Trees {
  import opened Model
  import opened Ordering

  datatype Tree = Tree(hwnd: Hwnd, kids: seq<Tree>)

  function Handles(f: seq<Tree>): (r: seq<Hwnd>)
    ensures |r| == |f| && forall i | 0 <= i < |f| :: r[i] == f[i].hwnd
  {
    seq(|f|, i requires 0 <= i < |f| => f[i].hwnd)
  }

  function Dfs(f: seq<Tree>): seq<Hwnd> {
    if f == [] then [] else [f[0].hwnd] + Dfs(f[0].kids) + Dfs(f[1..])
  }

  function AllKids(f: seq<Tree>): seq<Tree> {
    if f == [] then [] else f[0].kids + AllKids(f[1..])
  }

  function Bfs(f: seq<Tree>): seq<Hwnd>
    decreases |Dfs(f)|
  {
    if f == [] then [] else
      LevelSplit(f);
      Handles(f) + Bfs(AllKids(f))
  }

  /** The windows of an enumeration whose GetParent is `p`, in order. */
  function ChildrenIn(order: seq<Hwnd>, parentOf: Hwnd -> Hwnd, p: Hwnd): seq<Hwnd> {
    if order == [] then []
    else (if parentOf(order[0]) == p then [order[0]] else []) + ChildrenIn(order[1..], parentOf, p)
  }

  /** GetParent agrees with the tree below the roots. */
  ghost predicate Fits(parentOf: Hwnd -> Hwnd, f: seq<Tree>) {
    f != [] ==>
      && (forall k | k in f[0].kids :: parentOf(k.hwnd) == f[0].hwnd)
      && Fits(parentOf, f[0].kids)
      && Fits(parentOf, f[1..])
  }

  /** `n` is a root of the forest or lies below one. */
  ghost predicate Within(n: Tree, f: seq<Tree>) {
    f != [] && (n == f[0] || Within(n, f[0].kids) || Within(n, f[1..]))
  }

  /** How often `h` occurs. */
  function Count(s: seq<Hwnd>, h: Hwnd): (n: nat)
    ensures n > 0 <==> h in s
  {
    if s == [] then 0 else (if s[0] == h then 1 else 0) + Count(s[1..], h)
  }

  ghost predicate Distinct(f: seq<Tree>) { forall h :: Count(Dfs(f), h) <= 1 }

  /** No root is recorded as a child of a window of the forest. */
  ghost predicate Rooted(parentOf: Hwnd -> Hwnd, f: seq<Tree>) {
    forall r | r in f :: parentOf(r.hwnd) !in Dfs(f)
  }

  // ---------------------------------------------------------------- enumerations

  lemma {:induction false} DfsConcat(a: seq<Tree>, b: seq<Tree>)
    ensures Dfs(a + b) == Dfs(a) + Dfs(b)
  {
    if a == [] {
      assert a + b == b;
    } else {
      assert (a + b)[1..] == a[1..] + b;
      DfsConcat(a[1..], b);
    }
  }

  lemma {:induction false} CountConcat(a: seq<Hwnd>, b: seq<Hwnd>, h: Hwnd)
    ensures Count(a + b, h) == Count(a, h) + Count(b, h)
  {
    if a == [] {
      assert a + b == b;
    } else {
      assert (a + b)[1..] == a[1..] + b;
      CountConcat(a[1..], b, h);
    }
  }

  lemma CountFirst(f: seq<Tree>, h: Hwnd)
    requires f != []
    ensures Count(Dfs(f), h) == (if f[0].hwnd == h then 1 else 0) + Count(Dfs(f[0].kids), h) + Count(Dfs(f[1..]), h)
    ensures Handles(f) == [f[0].hwnd] + Handles(f[1..])
    ensures Count(Handles(f), h) == (if f[0].hwnd == h then 1 else 0) + Count(Handles(f[1..]), h)
  {
    CountConcat([f[0].hwnd] + Dfs(f[0].kids), Dfs(f[1..]), h);
    CountConcat([f[0].hwnd], Dfs(f[0].kids), h);
    CountConcat([f[0].hwnd], Handles(f[1..]), h);
  }

  /** A forest is its roots and the forest one level down. */
  lemma {:induction false} LevelSplit(f: seq<Tree>)
    ensures |Dfs(f)| == |f| + |Dfs(AllKids(f))|
  {
    if f != [] {
      LevelSplit(f[1..]);
      DfsConcat(f[0].kids, AllKids(f[1..]));
    }
  }

  lemma {:induction false} LevelCount(f: seq<Tree>, h: Hwnd)
    ensures Count(Dfs(f), h) == Count(Handles(f), h) + Count(Dfs(AllKids(f)), h)
  {
    if f != [] {
      LevelCount(f[1..], h);
      CountFirst(f, h);
      DfsConcat(f[0].kids, AllKids(f[1..]));
      CountConcat(Dfs(f[0].kids), Dfs(AllKids(f[1..])), h);
    }
  }

  /** Both orders list the same windows the same number of times. */
  lemma {:induction false} OrdersArePermutations(f: seq<Tree>, h: Hwnd)
    ensures Count(Bfs(f), h) == Count(Dfs(f), h)
    decreases |Dfs(f)|
  {
    if f != [] {
      LevelSplit(f);
      LevelCount(f, h);
      CountConcat(Handles(f), Bfs(AllKids(f)), h);
      OrdersArePermutations(AllKids(f), h);
    }
  }

  lemma {:induction false} WithinIsListed(n: Tree, f: seq<Tree>)
    requires Within(n, f)
    ensures n.hwnd in Dfs(f)
  {
    if n != f[0] {
      if Within(n, f[0].kids) {
        WithinIsListed(n, f[0].kids);
      } else {
        WithinIsListed(n, f[1..]);
      }
    }
  }

  lemma {:induction false} RootsAreListed(f: seq<Tree>)
    ensures forall r | r in f :: r.hwnd in Dfs(f)
  {
    if f != [] {
      RootsAreListed(f[1..]);
    }
  }

  /** The first tree, what is below it and the other trees share no handle. */
  lemma SplitDistinct(f: seq<Tree>)
    requires f != [] && Distinct(f)
    ensures Distinct(f[0].kids) && Distinct(f[1..])
    ensures f[0].hwnd !in Dfs(f[0].kids) && f[0].hwnd !in Dfs(f[1..])
    ensures forall h | h in Dfs(f[0].kids) :: h !in Dfs(f[1..])
  {
    forall h ensures Count(Dfs(f[0].kids), h) + Count(Dfs(f[1..]), h) + (if h == f[0].hwnd then 1 else 0) <= 1 {
      CountFirst(f, h);
    }
    assert Count(Dfs(f[0].kids), f[0].hwnd) == 0 == Count(Dfs(f[1..]), f[0].hwnd);
    forall h | h in Dfs(f[0].kids) ensures h !in Dfs(f[1..]) {
      assert Count(Dfs(f[0].kids), h) > 0;
    }
  }

  // ---------------------------------------------------------------- picking children

  lemma {:induction false} PickConcat(a: seq<Hwnd>, b: seq<Hwnd>, parentOf: Hwnd -> Hwnd, p: Hwnd)
    ensures ChildrenIn(a + b, parentOf, p) == ChildrenIn(a, parentOf, p) + ChildrenIn(b, parentOf, p)
  {
    if a == [] {
      assert a + b == b;
    } else {
      PickConcat(a[1..], b, parentOf, p);
      PickFirst(a, parentOf, p);
      PickFirst(a + b, parentOf, p);
      assert (a + b)[1..] == a[1..] + b && (a + b)[0] == a[0];
      Regroup(if parentOf(a[0]) == p then [a[0]] else [], ChildrenIn(a[1..], parentOf, p), ChildrenIn(b, parentOf, p));
    }
  }

  lemma PickFirst(order: seq<Hwnd>, parentOf: Hwnd -> Hwnd, p: Hwnd)
    requires order != []
    ensures ChildrenIn(order, parentOf, p) == (if parentOf(order[0]) == p then [order[0]] else []) + ChildrenIn(order[1..], parentOf, p)
  {
  }

  lemma {:induction false} PickNone(order: seq<Hwnd>, parentOf: Hwnd -> Hwnd, p: Hwnd)
    requires forall i | 0 <= i < |order| :: parentOf(order[i]) != p
    ensures ChildrenIn(order, parentOf, p) == []
  {
    if order != [] {
      PickNone(order[1..], parentOf, p);
    }
  }

  lemma {:induction false} PickAll(order: seq<Hwnd>, parentOf: Hwnd -> Hwnd, p: Hwnd)
    requires forall i | 0 <= i < |order| :: parentOf(order[i]) == p
    ensures ChildrenIn(order, parentOf, p) == order
  {
    if order != [] {
      PickAll(order[1..], parentOf, p);
    }
  }

  lemma {:induction false} PickedAre(order: seq<Hwnd>, parentOf: Hwnd -> Hwnd, p: Hwnd)
    ensures forall h :: h in ChildrenIn(order, parentOf, p) <==> h in order && parentOf(h) == p
  {
    if order != [] {
      PickedAre(order[1..], parentOf, p);
    }
  }

  /** Where a picked window stands in the enumeration. */
  lemma {:induction false} PickedAt(order: seq<Hwnd>, parentOf: Hwnd -> Hwnd, p: Hwnd, i: nat) returns (j: nat)
    requires i < |ChildrenIn(order, parentOf, p)|
    ensures j < |order| && order[j] == ChildrenIn(order, parentOf, p)[i] && parentOf(order[j]) == p
  {
    if parentOf(order[0]) != p {
      j := PickedAt(order[1..], parentOf, p, i);
      j := j + 1;
    } else if i == 0 {
      j := 0;
    } else {
      j := PickedAt(order[1..], parentOf, p, i - 1);
      j := j + 1;
    }
  }

  lemma PickThree(f: seq<Tree>, parentOf: Hwnd -> Hwnd, p: Hwnd)
    requires f != []
    ensures ChildrenIn(Dfs(f), parentOf, p)
         == (if parentOf(f[0].hwnd) == p then [f[0].hwnd] else [])
            + ChildrenIn(Dfs(f[0].kids), parentOf, p) + ChildrenIn(Dfs(f[1..]), parentOf, p)
  {
    PickConcat([f[0].hwnd] + Dfs(f[0].kids), Dfs(f[1..]), parentOf, p);
    PickConcat([f[0].hwnd], Dfs(f[0].kids), parentOf, p);
  }

  /** Depth-first, nothing below a forest that does not contain `p` has it for a parent. */
  lemma {:induction false} DfsNone(f: seq<Tree>, parentOf: Hwnd -> Hwnd, p: Hwnd)
    requires Fits(parentOf, f) && p !in Dfs(f) && forall r | r in f :: parentOf(r.hwnd) != p
    ensures ChildrenIn(Dfs(f), parentOf, p) == []
  {
    if f != [] {
      PickThree(f, parentOf, p);
      assert f[0] in f;
      DfsNone(f[0].kids, parentOf, p);
      DfsNone(f[1..], parentOf, p);
    }
  }

  lemma {:induction false} DfsDirect(f: seq<Tree>, parentOf: Hwnd -> Hwnd, p: Hwnd)
    requires Fits(parentOf, f) && p !in Dfs(f) && forall r | r in f :: parentOf(r.hwnd) == p
    ensures ChildrenIn(Dfs(f), parentOf, p) == Handles(f)
  {
    if f != [] {
      PickThree(f, parentOf, p);
      assert f[0] in f;
      DfsNone(f[0].kids, parentOf, p);
      DfsDirect(f[1..], parentOf, p);
    }
  }

  /** Filtering the depth-first enumeration of a whole forest by GetParent gives the child list of
      each window in it, in order. */
  lemma {:induction false} DfsPicksChildren(f: seq<Tree>, parentOf: Hwnd -> Hwnd, n: Tree)
    requires Fits(parentOf, f) && Distinct(f) && Rooted(parentOf, f) && Within(n, f)
    ensures ChildrenIn(Dfs(f), parentOf, n.hwnd) == Handles(n.kids)
  {
    var t, rest := f[0], f[1..];
    PickThree(f, parentOf, n.hwnd);
    SplitDistinct(f);
    WithinIsListed(n, f);
    assert t in f && parentOf(t.hwnd) != n.hwnd;
    assert forall r | r in rest :: r in f;
    if n == t {
      DfsDirect(t.kids, parentOf, n.hwnd);
      DfsNone(rest, parentOf, n.hwnd);
    } else if Within(n, t.kids) {
      WithinIsListed(n, t.kids);
      DfsPicksChildren(t.kids, parentOf, n);
      DfsNone(rest, parentOf, n.hwnd);
    } else {
      WithinIsListed(n, rest);
      DfsNone(t.kids, parentOf, n.hwnd);
      DfsPicksChildren(rest, parentOf, n);
    }
  }

  // ---------------------------------------------------------------- breadth first

  lemma {:induction false} FitsBelow(f: seq<Tree>, parentOf: Hwnd -> Hwnd)
    requires Fits(parentOf, f)
    ensures Fits(parentOf, AllKids(f))
    ensures forall k | k in AllKids(f) :: parentOf(k.hwnd) in Handles(f)
  {
    if f != [] {
      FitsBelow(f[1..], parentOf);
      FitsConcat(f[0].kids, AllKids(f[1..]), parentOf);
      assert Handles(f) == [f[0].hwnd] + Handles(f[1..]);
    }
  }

  lemma {:induction false} FitsConcat(a: seq<Tree>, b: seq<Tree>, parentOf: Hwnd -> Hwnd)
    requires Fits(parentOf, a) && Fits(parentOf, b)
    ensures Fits(parentOf, a + b)
  {
    if a == [] {
      assert a + b == b;
    } else {
      assert (a + b)[1..] == a[1..] + b;
      FitsConcat(a[1..], b, parentOf);
    }
  }

  lemma DistinctBelow(f: seq<Tree>)
    requires Distinct(f)
    ensures Distinct(AllKids(f)) && forall h | h in Handles(f) :: h !in Dfs(AllKids(f))
  {
    forall h ensures Count(Handles(f), h) + Count(Dfs(AllKids(f)), h) <= 1 {
      LevelCount(f, h);
    }
    forall h | h in Handles(f) ensures h !in Dfs(AllKids(f)) {
      assert Count(Handles(f), h) > 0;
    }
  }

  lemma {:induction false} BfsNone(f: seq<Tree>, parentOf: Hwnd -> Hwnd, p: Hwnd)
    requires Fits(parentOf, f) && p !in Dfs(f) && forall r | r in f :: parentOf(r.hwnd) != p
    ensures ChildrenIn(Bfs(f), parentOf, p) == []
    decreases |Dfs(f)|
  {
    if f != [] {
      LevelSplit(f);
      FitsBelow(f, parentOf);
      PickConcat(Handles(f), Bfs(AllKids(f)), parentOf, p);
      PickNone(Handles(f), parentOf, p);
      LevelCount(f, p);
      BfsNone(AllKids(f), parentOf, p);
    }
  }

  lemma HandlesConcat(a: seq<Tree>, b: seq<Tree>)
    ensures Handles(a + b) == Handles(a) + Handles(b)
  {
  }

  lemma NextLevelSplit(f: seq<Tree>, parentOf: Hwnd -> Hwnd, p: Hwnd)
    requires f != []
    ensures ChildrenIn(Handles(AllKids(f)), parentOf, p)
         == ChildrenIn(Handles(f[0].kids), parentOf, p) + ChildrenIn(Handles(AllKids(f[1..])), parentOf, p)
  {
    HandlesConcat(f[0].kids, AllKids(f[1..]));
    PickConcat(Handles(f[0].kids), Handles(AllKids(f[1..])), parentOf, p);
  }

  lemma NextLevelNone(f: seq<Tree>, parentOf: Hwnd -> Hwnd, p: Hwnd)
    requires Fits(parentOf, f) && p !in Dfs(f)
    ensures ChildrenIn(Handles(AllKids(f)), parentOf, p) == []
  {
    FitsBelow(f, parentOf);
    RootsAreListed(f);
    forall i | 0 <= i < |AllKids(f)| ensures parentOf(Handles(AllKids(f))[i]) != p {
      assert AllKids(f)[i] in AllKids(f);
    }
    PickNone(Handles(AllKids(f)), parentOf, p);
  }

  /** Among the windows one level down, those below a given root are its children. */
  lemma {:induction false} NextLevelPicks(f: seq<Tree>, parentOf: Hwnd -> Hwnd, n: Tree)
    requires Fits(parentOf, f) && Distinct(f) && n in f
    ensures ChildrenIn(Handles(AllKids(f)), parentOf, n.hwnd) == Handles(n.kids)
  {
    SplitDistinct(f);
    RootsAreListed(f[1..]);
    NextLevelSplit(f, parentOf, n.hwnd);
    if n == f[0] {
      PickAll(Handles(n.kids), parentOf, n.hwnd);
      NextLevelNone(f[1..], parentOf, n.hwnd);
    } else {
      assert n.hwnd != f[0].hwnd;
      PickNone(Handles(f[0].kids), parentOf, n.hwnd);
      NextLevelPicks(f[1..], parentOf, n);
    }
  }

  lemma {:induction false} WithinBelow(n: Tree, f: seq<Tree>)
    requires Within(n, f)
    ensures n in f || Within(n, AllKids(f))
  {
    if n != f[0] {
      if Within(n, f[0].kids) {
        WithinConcat(n, f[0].kids, AllKids(f[1..]));
      } else {
        WithinBelow(n, f[1..]);
        if n !in f[1..] {
          WithinConcat(n, f[0].kids, AllKids(f[1..]));
        }
      }
    }
  }

  lemma {:induction false} WithinConcat(n: Tree, a: seq<Tree>, b: seq<Tree>)
    requires Within(n, a) || Within(n, b)
    ensures Within(n, a + b)
  {
    if a == [] {
      assert a + b == b;
    } else {
      assert (a + b)[1..] == a[1..] + b;
      if n != a[0] && !Within(n, a[0].kids) {
        WithinConcat(n, a[1..], b);
      }
    }
  }

  /** The same holds of the breadth-first enumeration. */
  lemma {:induction false} BfsPicksChildren(f: seq<Tree>, parentOf: Hwnd -> Hwnd, n: Tree)
    requires Fits(parentOf, f) && Distinct(f) && Rooted(parentOf, f) && Within(n, f)
    ensures ChildrenIn(Bfs(f), parentOf, n.hwnd) == Handles(n.kids)
    decreases |Dfs(f)|
  {
    var below := AllKids(f);
    LevelSplit(f);
    FitsBelow(f, parentOf);
    DistinctBelow(f);
    WithinIsListed(n, f);
    PickConcat(Handles(f), Bfs(below), parentOf, n.hwnd);
    PickNone(Handles(f), parentOf, n.hwnd);
    if n in f {
      assert n.hwnd in Handles(f);
      if below == [] {
        NextLevelPicks(f, parentOf, n);
      } else {
        LevelSplit(below);
        FitsBelow(below, parentOf);
        RootsAreListed(below);
        NextLevelPicks(f, parentOf, n);
        PickConcat(Handles(below), Bfs(AllKids(below)), parentOf, n.hwnd);
        LevelCount(below, n.hwnd);
        BfsNone(AllKids(below), parentOf, n.hwnd);
      }
    } else {
      WithinBelow(n, f);
      BfsPicksChildren(below, parentOf, n);
    }
  }

  // ---------------------------------------------------------------- one pass is enough

  /** What either enumeration of the windows below `t` yields. */
  ghost predicate Enumerates(order: seq<Hwnd>, t: Tree) { order == Dfs(t.kids) || order == Bfs(t.kids) }

  /** For any window of a tree, filtering one enumeration of the top window gives the same list, in the
      same order, as enumerating below the window itself and filtering that. */
  lemma OnePassIsEnough(top: Tree, n: Tree, parentOf: Hwnd -> Hwnd, whole: seq<Hwnd>, own: seq<Hwnd>)
    requires Fits(parentOf, [top]) && Distinct([top]) && Within(n, [top])
    requires Enumerates(whole, top) && Enumerates(own, n)
    ensures ChildrenIn(whole, parentOf, n.hwnd) == ChildrenIn(own, parentOf, n.hwnd) == Handles(n.kids)
  {
    SplitDistinct([top]);
    FitsInside(n, [top], parentOf);
    DfsDirect(n.kids, parentOf, n.hwnd);
    BfsDirect(n.kids, parentOf, n.hwnd);
    if n == top {
      DfsDirect(top.kids, parentOf, n.hwnd);
      BfsDirect(top.kids, parentOf, n.hwnd);
    } else {
      assert Within(n, top.kids);
      DfsPicksChildren(top.kids, parentOf, n);
      BfsPicksChildren(top.kids, parentOf, n);
    }
  }

  lemma {:induction false} BfsDirect(f: seq<Tree>, parentOf: Hwnd -> Hwnd, p: Hwnd)
    requires Fits(parentOf, f) && p !in Dfs(f) && forall r | r in f :: parentOf(r.hwnd) == p
    ensures ChildrenIn(Bfs(f), parentOf, p) == Handles(f)
  {
    if f != [] {
      LevelSplit(f);
      FitsBelow(f, parentOf);
      RootsAreListed(f);
      PickConcat(Handles(f), Bfs(AllKids(f)), parentOf, p);
      PickAll(Handles(f), parentOf, p);
      LevelCount(f, p);
      BfsNone(AllKids(f), parentOf, p);
    }
  }

  lemma {:induction false} FitsInside(n: Tree, f: seq<Tree>, parentOf: Hwnd -> Hwnd)
    requires Fits(parentOf, f) && Distinct(f) && Within(n, f)
    ensures Fits(parentOf, n.kids) && (forall k | k in n.kids :: parentOf(k.hwnd) == n.hwnd)
    ensures n.hwnd !in Dfs(n.kids) && forall h | h in Dfs(n.kids) :: h in Dfs(f)
  {
    SplitDistinct(f);
    if n != f[0] {
      if Within(n, f[0].kids) {
        FitsInside(n, f[0].kids, parentOf);
      } else {
        FitsInside(n, f[1..], parentOf);
      }
    }
  }

  // ---------------------------------------------------------------- the queue

  /** What a queue of trees has still to deliver: the rest of this level, then the level below. */
  function Pending(here: seq<Tree>, next: seq<Tree>): seq<Hwnd> { Handles(here) + Bfs(next + AllKids(here)) }

  lemma FirstApart(f: seq<Tree>)
    requires f != []
    ensures Handles(f) == [f[0].hwnd] + Handles(f[1..]) && AllKids(f) == f[0].kids + AllKids(f[1..])
  {
  }

  lemma PendingStep(here: seq<Tree>, next: seq<Tree>)
    requires here != []
    ensures Pending(here, next) == [here[0].hwnd] + Pending(here[1..], next + here[0].kids)
  {
    FirstApart(here);
    Regroup(next, here[0].kids, AllKids(here[1..]));
    Regroup([here[0].hwnd], Handles(here[1..]), Bfs(next + AllKids(here)));
  }

  lemma PendingTurn(next: seq<Tree>)
    ensures Pending([], next) == Pending(next, [])
  {
    assert next + AllKids([]) == next && [] + AllKids(next) == AllKids(next);
    assert next == [] ==> Handles(next) == [];
  }

  /** From its `i`-th element on the queue holds the rest of this level and the start of the next. */
  predicate Queued(queue: seq<Tree>, i: nat, here: seq<Tree>, next: seq<Tree>) { i <= |queue| && queue[i..] == here + next }

  predicate Due(total: seq<Hwnd>, out: seq<Hwnd>, here: seq<Tree>, next: seq<Tree>) { out + Pending(here, next) == total }

  /** What was delivered and what the queue stands for make the whole. */
  predicate Collecting(total: seq<Hwnd>, out: seq<Hwnd>, queue: seq<Tree>, here: seq<Tree>, next: seq<Tree>) {
    Queued(queue, |out|, here, next) && Due(total, out, here, next)
  }

  lemma CollectStarts(kids: seq<Tree>)
    ensures Collecting(Bfs(kids), [], kids, kids, [])
  {
    assert [] + AllKids(kids) == AllKids(kids);
    assert kids == [] ==> Handles(kids) == [];
  }

  lemma CollectTurns(total: seq<Hwnd>, out: seq<Hwnd>, queue: seq<Tree>, next: seq<Tree>)
    requires Collecting(total, out, queue, [], next)
    ensures Collecting(total, out, queue, next, [])
  {
    PendingTurn(next);
  }

  lemma QueueTail(queue: seq<Tree>, i: nat, here: seq<Tree>, next: seq<Tree>, more: seq<Tree>)
    requires Queued(queue, i, here, next) && here != []
    ensures i < |queue| && queue[i] == here[0]
    ensures Queued(queue + more, i + 1, here[1..], next + more)
  {
    assert queue[i..][0] == here[0];
    assert queue[i..][1..] == queue[i + 1..];
    assert (here + next)[1..] == here[1..] + next;
    assert (queue + more)[i + 1..] == queue[i + 1..] + more;
  }

  lemma DueStep(total: seq<Hwnd>, out: seq<Hwnd>, here: seq<Tree>, next: seq<Tree>)
    requires Due(total, out, here, next) && here != []
    ensures Due(total, out + [here[0].hwnd], here[1..], next + here[0].kids) && |out| < |total|
  {
    PendingStep(here, next);
    Regroup(out, [here[0].hwnd], Pending(here[1..], next + here[0].kids));
  }

  lemma CollectSteps(total: seq<Hwnd>, out: seq<Hwnd>, queue: seq<Tree>, here: seq<Tree>, next: seq<Tree>)
    requires Collecting(total, out, queue, here, next) && here != []
    ensures |out| < |queue| && |out| < |total| && queue[|out|] == here[0]
    ensures Collecting(total, out + [here[0].hwnd], queue + here[0].kids, here[1..], next + here[0].kids)
  {
    QueueTail(queue, |out|, here, next, here[0].kids);
    DueStep(total, out, here, next);
    assert |out + [here[0].hwnd]| == |out| + 1;
  }

  /** The queue loop of the test double: one growing list, visited from the front. */
  method CollectDescendants(kids: seq<Tree>) returns (out: seq<Hwnd>)
    ensures out == Bfs(kids)
  {
    out := [];
    var queue, index := kids, 0;
    ghost var here, next, total := kids, [], Bfs(kids);
    CollectStarts(kids);
    while index < |queue|
      invariant 0 <= index == |out| <= |queue|
      invariant Collecting(total, out, queue, here, next)
      decreases |total| - index
    {
      if here == [] {
        CollectTurns(total, out, queue, next);
        here, next := next, [];
      }
      CollectSteps(total, out, queue, here, next);
      var t := queue[index];
      index := index + 1;
      out := out + [t.hwnd];
      queue := queue + t.kids;
      here, next := here[1..], next + t.kids;
    }
    CollectEnds(total, out, queue, here, next);
  }

  lemma CollectEnds(total: seq<Hwnd>, out: seq<Hwnd>, queue: seq<Tree>, here: seq<Tree>, next: seq<Tree>)
    requires Collecting(total, out, queue, here, next) && |out| == |queue|
    ensures out == total
  {
    assert here == [] && next == [];
    assert Pending([], []) == [] + Bfs([] + AllKids([]));
  }
}
