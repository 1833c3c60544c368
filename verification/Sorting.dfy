/** Stable sorting by a comparison, as the roadmap and worklist views use it. */
module Sorting {
  import opened Seqs

  ghost predicate TotalPreorder<T(!new)>(le: (T, T) -> bool) {
    && (forall x, y :: le(x, y) || le(y, x))
    && forall x, y, z :: le(x, y) && le(y, z) ==> le(x, z)
  }

  ghost predicate SortedBy<T>(s: seq<T>, le: (T, T) -> bool) {
    forall i, j :: 0 <= i < j < |s| ==> le(s[i], s[j])
  }

  /** Puts `x` behind everything that may precede it. */
  function Insert<T>(s: seq<T>, x: T, le: (T, T) -> bool): seq<T> {
    if s == [] then [x]
    else if le(s[|s| - 1], x) then s + [x]
    else Insert(s[..|s| - 1], x, le) + [s[|s| - 1]]
  }

  function StableSort<T>(s: seq<T>, le: (T, T) -> bool): seq<T> {
    if s == [] then [] else Insert(StableSort(s[..|s| - 1], le), s[|s| - 1], le)
  }

  lemma SortedSnoc<T(!new)>(s: seq<T>, x: T, le: (T, T) -> bool)
    requires SortedBy(s, le) && forall y :: y in s ==> le(y, x)
    ensures SortedBy(s + [x], le)
  {
  }

  lemma {:induction false} InsertSorts<T(!new)>(s: seq<T>, x: T, le: (T, T) -> bool)
    requires TotalPreorder(le) && SortedBy(s, le)
    ensures SortedBy(Insert(s, x, le), le)
    ensures multiset(Insert(s, x, le)) == multiset(s) + multiset{x}
  {
    if s != [] {
      var s', last := s[..|s| - 1], s[|s| - 1];
      assert s == s' + [last];
      if !le(last, x) {
        InsertSorts(s', x, le);
        var t := Insert(s', x, le);
        forall y | y in t
          ensures le(y, last)
        {
          assert y in multiset(t);
          assert y in multiset(s') || y == x;
        }
        SortedSnoc(t, last, le);
      } else {
        forall y | y in s
          ensures le(y, x)
        {
          assert y == last || y in s';
        }
        SortedSnoc(s, x, le);
      }
    }
  }

  /** The result is a sorted rearrangement of the input. */
  lemma {:induction false} StableSortSorts<T(!new)>(s: seq<T>, le: (T, T) -> bool)
    requires TotalPreorder(le)
    ensures SortedBy(StableSort(s, le), le)
    ensures multiset(StableSort(s, le)) == multiset(s)
  {
    if s != [] {
      var s', last := s[..|s| - 1], s[|s| - 1];
      assert multiset(s) == multiset(s') + multiset{last} by {
        assert s == s' + [last];
      }
      StableSortSorts(s', le);
      InsertSorts(StableSort(s', le), last, le);
    }
  }

  lemma PermutationFacts<T>(s: seq<T>, t: seq<T>)
    requires multiset(s) == multiset(t)
    ensures |s| == |t| && forall x :: x in s <==> x in t
    ensures NoDup(s) ==> NoDup(t)
  {
    assert |multiset(s)| == |s| && |multiset(t)| == |t|;
    forall x
      ensures x in s <==> x in t
    {
      assert x in s <==> x in multiset(s);
      assert x in t <==> x in multiset(t);
    }
    if NoDup(s) {
      NoDupSize(s);
      assert Elements(s) == Elements(t);
      ElementsSize(t);
    }
  }

  /** A sequence that is in order already stays as it is. */
  lemma {:induction false} SortedStays<T>(s: seq<T>, le: (T, T) -> bool)
    requires SortedBy(s, le)
    ensures StableSort(s, le) == s
  {
    if s != [] {
      SortedStays(s[..|s| - 1], le);
      assert s == s[..|s| - 1] + [s[|s| - 1]];
      assert |s| > 1 ==> le(s[|s| - 2], s[|s| - 1]);
    }
  }

  /** Inserting puts an element behind the elements that it ties with. */
  lemma {:induction false} InsertKeeps<T(!new)>(s: seq<T>, x: T, le: (T, T) -> bool, tied: T -> bool)
    requires forall a, b :: tied(a) && tied(b) ==> le(a, b)
    ensures Filter(Insert(s, x, le), tied) == Filter(s, tied) + if tied(x) then [x] else []
  {
    if s == [] {
      assert [x][..0] == [];
    } else {
      var s', last := s[..|s| - 1], s[|s| - 1];
      if le(last, x) {
        assert (s + [x])[..|s|] == s;
      } else {
        InsertKeeps(s', x, le, tied);
        assert (Insert(s', x, le) + [last])[..|Insert(s', x, le)|] == Insert(s', x, le);
      }
    }
  }

  /** The sort is stable: elements that tie keep their order. */
  lemma {:induction false} StableSortKeeps<T(!new)>(s: seq<T>, le: (T, T) -> bool, tied: T -> bool)
    requires forall a, b :: tied(a) && tied(b) ==> le(a, b)
    ensures Filter(StableSort(s, le), tied) == Filter(s, tied)
  {
    if s != [] {
      StableSortKeeps(s[..|s| - 1], le, tied);
      InsertKeeps(StableSort(s[..|s| - 1], le), s[|s| - 1], le, tied);
    }
  }
}
