/** Sorted, duplicate-free handle lists, and the one law of concatenation the proofs keep needing. */
module Ordering {

  lemma Regroup<T>(a: seq<T>, b: seq<T>, c: seq<T>)
    ensures (a + b) + c == a + (b + c)
  {
  }

  predicate Ascending(hs: seq<int>) { forall i, j | 0 <= i < j < |hs| :: hs[i] < hs[j] }

  lemma Pick<T>(s: set<T>) returns (x: T)
    requires s != {}
    ensures x in s
  {
    x :| x in s;
  }

  predicate IsMin(m: int, s: set<int>) { m in s && forall x | x in s :: m <= x }

  lemma {:induction false} MinExists(s: set<int>) returns (m: int)
    requires s != {}
    ensures IsMin(m, s)
  {
    var x := Pick(s);
    if s == {x} {
      m := x;
    } else {
      var rest := MinExists(s - {x});
      m := if rest <= x then rest else x;
      forall y | y in s ensures m <= y {
        assert y == x || y in s - {x};
      }
    }
  }

  function SortedSeq(s: set<int>): seq<int> {
    if s == {} then []
    else
      var m := Least(s);
      [m] + SortedSeq(s - {m})
  }

  function Least(s: set<int>): (m: int)
    requires s != {}
    ensures IsMin(m, s)
  {
    assert exists m :: IsMin(m, s) by { var m := MinExists(s); }
    var m :| IsMin(m, s);
    m
  }

  lemma {:induction false} SortedSeqSorts(s: set<int>)
    ensures Ascending(SortedSeq(s)) && forall x :: x in SortedSeq(s) <==> x in s
  {
    if s != {} {
      var m := Least(s);
      SortedSeqSorts(s - {m});
      assert SortedSeq(s) == [m] + SortedSeq(s - {m});
      forall h | h in SortedSeq(s - {m}) ensures m < h {
        assert h in s - {m};
      }
      ConsAscending(m, SortedSeq(s - {m}));
    }
  }

  function Filtered(hs: seq<int>, keep: int -> bool): seq<int> {
    if hs == [] then [] else (if keep(hs[0]) then [hs[0]] else []) + Filtered(hs[1..], keep)
  }

  lemma {:induction false} FilteredKeeps(hs: seq<int>, keep: int -> bool)
    ensures forall h :: h in Filtered(hs, keep) <==> h in hs && keep(h)
    ensures Ascending(hs) ==> Ascending(Filtered(hs, keep))
  {
    if hs != [] {
      FilteredKeeps(hs[1..], keep);
      if Ascending(hs) {
        ConsAscending(hs[0], Filtered(hs[1..], keep));
      }
    }
  }

  lemma ConsAscending(first: int, rest: seq<int>)
    ensures Ascending(rest) && (forall h | h in rest :: first < h) ==> Ascending([first] + rest)
  {
    if Ascending(rest) && forall h | h in rest :: first < h {
      forall i, j | 0 <= i < j < |[first] + rest| ensures ([first] + rest)[i] < ([first] + rest)[j] {
        assert ([first] + rest)[j] == rest[j - 1] && rest[j - 1] in rest;
      }
    }
  }
}
