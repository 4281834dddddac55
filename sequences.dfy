/** `Array.prototype.filter` and a stable `Array.prototype.sort`, as
    functions on sequences. The sort orders by an optional integer rank; an
    absent rank stands for a comparator result of NaN, which `sort` treats as
    "equal". */
module Sequences {
  import opened JsValues

  /** `s.filter(keep)`: the elements of `s` that `keep` accepts, in order. */
  function Filter<T>(s: seq<T>, keep: T -> bool): seq<T> {
    if s == [] then []
    else if keep(s[|s| - 1]) then Filter(s[..|s| - 1], keep) + [s[|s| - 1]]
    else Filter(s[..|s| - 1], keep)
  }

  /** Filtering a concatenation filters each part. */
  lemma {:induction false} FilterAppend<T>(a: seq<T>, b: seq<T>, keep: T -> bool)
    ensures Filter(a + b, keep) == Filter(a, keep) + Filter(b, keep)
  {
    if b != [] {
      var b' := b[..|b| - 1];
      assert (a + b)[..|a + b| - 1] == a + b';
      assert (a + b)[|a + b| - 1] == b[|b| - 1];
      var tail := if keep(b[|b| - 1]) then [b[|b| - 1]] else [];
      FilterAppend(a, b', keep);
      assert Filter(a + b, keep) == Filter(a + b', keep) + tail;
      assert Filter(b, keep) == Filter(b', keep) + tail;
    } else {
      assert a + b == a;
    }
  }

  /** The filtered sequence holds exactly the kept elements of the input. */
  lemma {:induction false} FilterMembers<T>(s: seq<T>, keep: T -> bool)
    ensures forall x | x in Filter(s, keep) :: x in s && keep(x)
    ensures forall x | x in s && keep(x) :: x in Filter(s, keep)
  {
    if s != [] {
      FilterMembers(s[..|s| - 1], keep);
      assert s == s[..|s| - 1] + [s[|s| - 1]];
    }
  }

  /** A filter that accepts every element keeps the sequence whole. */
  lemma {:induction false} FilterKeepsAll<T>(s: seq<T>, keep: T -> bool)
    requires forall i | 0 <= i < |s| :: keep(s[i])
    ensures Filter(s, keep) == s
  {
    if s != [] {
      FilterKeepsAll(s[..|s| - 1], keep);
      assert s == s[..|s| - 1] + [s[|s| - 1]];
    }
  }

  /** An element counts as often in the filtered sequence as in the input
      when it is kept, and not at all otherwise. */
  lemma {:induction false} FilterCount<T>(s: seq<T>, keep: T -> bool, x: T)
    ensures multiset(Filter(s, keep))[x] == if keep(x) then multiset(s)[x] else 0
  {
    if s != [] {
      FilterCount(s[..|s| - 1], keep, x);
      assert s == s[..|s| - 1] + [s[|s| - 1]];
    }
  }

  /** `x` must precede `y`: the comparator says `x` ranks strictly lower. */
  predicate Before<T>(rank: T -> Option<int>, x: T, y: T) {
    rank(x).Some? && rank(y).Some? && rank(x).value < rank(y).value
  }

  /** No element is placed after one it must precede. */
  predicate Sorted<T>(s: seq<T>, rank: T -> Option<int>) {
    forall i, j | 0 <= i < j < |s| :: !Before(rank, s[j], s[i])
  }

  /** Every element has a rank, so the comparator is consistent. */
  predicate Ranked<T>(s: seq<T>, rank: T -> Option<int>) {
    forall i | 0 <= i < |s| :: rank(s[i]).Some?
  }

  /** Where `x` goes among `s`: after the leading elements it need not
      precede, before the first one it must precede (if any). */
  function InsertPos<T>(x: T, s: seq<T>, rank: T -> Option<int>): (p: nat)
    ensures p <= |s|
  {
    if s == [] || Before(rank, x, s[0]) then 0 else InsertPos(x, s[1..], rank) + 1
  }

  /** `x` need not precede anything before its position and must precede
      what is at it. */
  lemma {:induction false} InsertPosSpec<T>(x: T, s: seq<T>, rank: T -> Option<int>)
    ensures forall i | 0 <= i < InsertPos(x, s, rank) :: !Before(rank, x, s[i])
    ensures InsertPos(x, s, rank) < |s| ==> Before(rank, x, s[InsertPos(x, s, rank)])
  {
    if s != [] && !Before(rank, x, s[0]) {
      InsertPosSpec(x, s[1..], rank);
      assert forall i | 0 < i < |s| :: s[i] == s[1..][i - 1];
    }
  }

  /** Inserts `x` after every leading element it need not precede. */
  function Insert<T>(x: T, s: seq<T>, rank: T -> Option<int>): seq<T> {
    var p := InsertPos(x, s, rank);
    s[..p] + [x] + s[p..]
  }

  /** Insertion adds `x` and keeps every other element. */
  lemma InsertMultiset<T>(x: T, s: seq<T>, rank: T -> Option<int>)
    ensures multiset(Insert(x, s, rank)) == multiset(s) + multiset{x}
    ensures |Insert(x, s, rank)| == |s| + 1
  {
    var p := InsertPos(x, s, rank);
    assert s == s[..p] + s[p..];
  }

  /** Insertion sort: each element in turn is inserted into the sorted
      earlier ones, so elements of equal rank keep their input order. */
  function SortBy<T>(s: seq<T>, rank: T -> Option<int>): seq<T> {
    if s == [] then [] else Insert(s[|s| - 1], SortBy(s[..|s| - 1], rank), rank)
  }

  /** The sort is a permutation. */
  lemma {:induction false} SortMultiset<T>(s: seq<T>, rank: T -> Option<int>)
    ensures multiset(SortBy(s, rank)) == multiset(s)
    ensures |SortBy(s, rank)| == |s|
  {
    if s != [] {
      var init := s[..|s| - 1];
      SortMultiset(init, rank);
      InsertMultiset(s[|s| - 1], SortBy(init, rank), rank);
      assert s == init + [s[|s| - 1]];
    }
  }

  /** Inserting an element with a rank into a sorted, fully ranked sequence
      keeps it sorted. */
  lemma InsertSorted<T>(x: T, s: seq<T>, rank: T -> Option<int>)
    requires Sorted(s, rank) && Ranked(s, rank) && rank(x).Some?
    ensures Sorted(Insert(x, s, rank), rank)
  {
    var m := InsertPos(x, s, rank);
    var r := Insert(x, s, rank);
    InsertPosSpec(x, s, rank);
    forall i, j | 0 <= i < j < |r|
      ensures !Before(rank, r[j], r[i])
    {
      if i < m && j == m {
        assert r[i] == s[i] && r[j] == x;
      } else if i == m && j > m {
        assert r[i] == x && r[j] == s[j - 1];
        assert s[m] in s && s[j - 1] in s;
        assert m == j - 1 || !Before(rank, s[j - 1], s[m]);
      } else if i < m && j > m {
        assert r[i] == s[i] && r[j] == s[j - 1];
      } else if j < m {
        assert r[i] == s[i] && r[j] == s[j];
      } else {
        assert r[i] == s[i - 1] && r[j] == s[j - 1];
      }
    }
  }

  /** When every element has a rank, the sort orders them by rank. */
  lemma {:induction false} SortSorted<T>(s: seq<T>, rank: T -> Option<int>)
    requires Ranked(s, rank)
    ensures Sorted(SortBy(s, rank), rank)
  {
    if s != [] {
      var init := s[..|s| - 1];
      assert forall x | x in init :: x in s;
      SortSorted(init, rank);
      SortKeepsRanked(init, rank);
      InsertSorted(s[|s| - 1], SortBy(init, rank), rank);
    }
  }

  /** Every element of the sorted sequence comes from the input. */
  lemma SortMembers<T>(s: seq<T>, rank: T -> Option<int>)
    ensures forall i | 0 <= i < |SortBy(s, rank)| :: SortBy(s, rank)[i] in s
  {
    SortMultiset(s, rank);
    var r := SortBy(s, rank);
    assert forall i | 0 <= i < |r| :: r[i] in multiset(s);
  }

  lemma SortKeepsRanked<T>(s: seq<T>, rank: T -> Option<int>)
    requires Ranked(s, rank)
    ensures Ranked(SortBy(s, rank), rank)
  {
    SortMembers(s, rank);
  }

  /** When every element has a rank, the sort yields elements of the input
      in ascending order of rank. */
  lemma SortByRank<T>(s: seq<T>, rank: T -> Option<int>)
    requires Ranked(s, rank)
    ensures forall i | 0 <= i < |SortBy(s, rank)| :: SortBy(s, rank)[i] in s && rank(SortBy(s, rank)[i]).Some?
    ensures forall i, j | 0 <= i < j < |SortBy(s, rank)| ::
      rank(SortBy(s, rank)[i]).value <= rank(SortBy(s, rank)[j]).value
  {
    SortSorted(s, rank);
    SortMembers(s, rank);
    var r := SortBy(s, rank);
    forall i, j | 0 <= i < j < |r| ensures rank(r[i]).value <= rank(r[j]).value {
      assert !Before(rank, r[j], r[i]);
    }
  }

  /** The elements of one rank `v`, in order. */
  function OfRank<T>(s: seq<T>, rank: T -> Option<int>, v: Option<int>): seq<T> {
    Filter(s, HasRank(rank, v))
  }

  function HasRank<T>(rank: T -> Option<int>, v: Option<int>): T -> bool {
    x => rank(x) == v
  }

  /** Filtering a one-element sequence. */
  lemma FilterSingle<T>(x: T, keep: T -> bool)
    ensures Filter([x], keep) == if keep(x) then [x] else []
  {
    assert [x][..0] == [];
  }

  /** Filtering a sequence with `x` inserted at `m` filters the parts. */
  lemma FilterAround<T>(s: seq<T>, x: T, m: nat, keep: T -> bool)
    requires m <= |s|
    ensures Filter(s[..m] + [x] + s[m..], keep) == Filter(s[..m], keep) + Filter([x], keep) + Filter(s[m..], keep)
  {
    FilterAppend(s[..m] + [x], s[m..], keep);
    FilterAppend(s[..m], [x], keep);
  }

  /** When `x` has rank `v`, nothing of rank `v` sits after its insertion
      point. */
  lemma NoneOfRankAfter<T>(x: T, s: seq<T>, rank: T -> Option<int>)
    requires Sorted(s, rank) && Ranked(s, rank) && rank(x).Some?
    ensures Filter(s[InsertPos(x, s, rank)..], HasRank(rank, rank(x))) == []
  {
    var m := InsertPos(x, s, rank);
    BackOutranks(x, s, rank);
    var back := s[m..];
    assert forall k | 0 <= k < |back| :: back[k] == s[m + k];
    NoneKept(back, HasRank(rank, rank(x)));
  }

  /** Inserting into a sorted, fully ranked sequence appends `x` to the
      elements of its own rank and leaves the other ranks alone. */
  lemma InsertStable<T>(x: T, s: seq<T>, rank: T -> Option<int>, v: Option<int>)
    requires Sorted(s, rank) && Ranked(s, rank) && rank(x).Some?
    ensures OfRank(Insert(x, s, rank), rank, v) == OfRank(s + [x], rank, v)
  {
    var keep := HasRank(rank, v);
    var m := InsertPos(x, s, rank);
    var front, back := s[..m], s[m..];
    var tail := Filter([x], keep);
    FilterSingle(x, keep);
    assert Filter(back, keep) == [] || tail == [] by {
      if rank(x) == v {
        NoneOfRankAfter(x, s, rank);
      }
    }
    calc {
      OfRank(Insert(x, s, rank), rank, v);
      Filter(front + [x] + back, keep);
      { FilterAround(s, x, m, keep); }
      Filter(front, keep) + tail + Filter(back, keep);
      Filter(front, keep) + Filter(back, keep) + tail;
      { FilterAppend(front, back, keep); assert s == front + back; }
      Filter(s, keep) + tail;
      { FilterAppend(s, [x], keep); }
      OfRank(s + [x], rank, v);
    }
  }

  /** In a sorted, fully ranked sequence, everything from the insertion
      point of `x` on ranks strictly above `x`. */
  lemma BackOutranks<T>(x: T, s: seq<T>, rank: T -> Option<int>)
    requires Sorted(s, rank) && Ranked(s, rank) && rank(x).Some?
    ensures forall k | InsertPos(x, s, rank) <= k < |s| :: rank(s[k]).Some? && rank(x).value < rank(s[k]).value
  {
    var m := InsertPos(x, s, rank);
    InsertPosSpec(x, s, rank);
    forall k | m <= k < |s| ensures rank(s[k]).Some? && rank(x).value < rank(s[k]).value {
      assert s[k] in s && s[m] in s;
      assert k == m || !Before(rank, s[k], s[m]);
    }
  }

  /** Nothing survives a filter that rejects every element. */
  lemma {:induction false} NoneKept<T>(s: seq<T>, keep: T -> bool)
    requires forall k | 0 <= k < |s| :: !keep(s[k])
    ensures Filter(s, keep) == []
  {
    if s != [] {
      var init := s[..|s| - 1];
      assert forall k | 0 <= k < |init| :: init[k] == s[k];
      NoneKept(init, keep);
    }
  }

  /** The sort is stable: when every element has a rank, the elements of any
      one rank come out in their input order. */
  lemma {:induction false} SortStable<T>(s: seq<T>, rank: T -> Option<int>, v: Option<int>)
    requires Ranked(s, rank)
    ensures OfRank(SortBy(s, rank), rank, v) == OfRank(s, rank, v)
  {
    if s != [] {
      var init, last := s[..|s| - 1], s[|s| - 1];
      var sorted := SortBy(init, rank);
      var keep := HasRank(rank, v);
      assert Ranked(init, rank) by {
        assert forall x | x in init :: x in s;
      }
      SortStable(init, rank, v);
      SortSorted(init, rank);
      SortKeepsRanked(init, rank);
      InsertStable(last, sorted, rank, v);
      FilterAppend(sorted, [last], keep);
      FilterAppend(init, [last], keep);
      assert s == init + [last];
    }
  }
}
