/** The standard library's stable sort, as the source uses it: semantic-token
    edits, install backups, completion items and language servers all go
    through it. Insertion sort is stable, so it names the one stable answer. */
module StableSort {

  ghost predicate TotalPreorder<T(!new)>(le: (T, T) -> bool) {
    && (forall x, y :: le(x, y) || le(y, x))
    && (forall x, y, z :: le(x, y) && le(y, z) ==> le(x, z))
  }

  ghost predicate Sorted<T>(le: (T, T) -> bool, xs: seq<T>) {
    forall i, j | 0 <= i < j < |xs| :: le(xs[i], xs[j])
  }

  function Insert<T>(le: (T, T) -> bool, x: T, xs: seq<T>): seq<T> {
    if xs == [] || le(x, xs[0]) then [x] + xs else [xs[0]] + Insert(le, x, xs[1..])
  }

  function Sort<T>(le: (T, T) -> bool, xs: seq<T>): seq<T> {
    if xs == [] then [] else Insert(le, xs[0], Sort(le, xs[1..]))
  }

  function Filter<T>(p: T -> bool, xs: seq<T>): seq<T> {
    if xs == [] then [] else (if p(xs[0]) then [xs[0]] else []) + Filter(p, xs[1..])
  }

  lemma {:induction false} InsertPermutes<T>(le: (T, T) -> bool, x: T, xs: seq<T>)
    ensures multiset(Insert(le, x, xs)) == multiset([x] + xs)
    ensures |Insert(le, x, xs)| == 1 + |xs|
  {
    if xs != [] && !le(x, xs[0]) {
      InsertPermutes(le, x, xs[1..]);
      assert xs == [xs[0]] + xs[1..];
    }
  }

  /** Sorting only rearranges: the same elements, with the same multiplicity. */
  lemma {:induction false} SortPermutes<T>(le: (T, T) -> bool, xs: seq<T>)
    ensures multiset(Sort(le, xs)) == multiset(xs)
    ensures |Sort(le, xs)| == |xs|
  {
    if xs != [] {
      SortPermutes(le, xs[1..]);
      InsertPermutes(le, xs[0], Sort(le, xs[1..]));
      assert xs == [xs[0]] + xs[1..];
    }
  }

  lemma SameElements<T>(le: (T, T) -> bool, xs: seq<T>)
    ensures forall x :: x in Sort(le, xs) <==> x in xs
  {
    SortPermutes(le, xs);
    forall x ensures x in Sort(le, xs) <==> x in xs {
      assert x in Sort(le, xs) <==> x in multiset(Sort(le, xs));
    }
  }

  lemma {:induction false} InsertSorted<T(!new)>(le: (T, T) -> bool, x: T, xs: seq<T>)
    requires TotalPreorder(le) && Sorted(le, xs)
    ensures Sorted(le, Insert(le, x, xs))
  {
    if xs != [] && !le(x, xs[0]) {
      var rest := Insert(le, x, xs[1..]);
      InsertSorted(le, x, xs[1..]);
      InsertPermutes(le, x, xs[1..]);
      forall j | 0 <= j < |rest| ensures le(xs[0], rest[j]) {
        assert rest[j] in multiset([x] + xs[1..]);
        assert le(xs[0], x);
      }
    } else if xs != [] {
      forall j | 0 <= j < |xs| ensures le(x, xs[j]) {
        assert j == 0 || le(xs[0], xs[j]);
      }
    }
  }

  lemma {:induction false} SortSorted<T(!new)>(le: (T, T) -> bool, xs: seq<T>)
    requires TotalPreorder(le)
    ensures Sorted(le, Sort(le, xs))
  {
    if xs != [] {
      SortSorted(le, xs[1..]);
      InsertSorted(le, xs[0], Sort(le, xs[1..]));
    }
  }

  /** A class of elements that the order cannot tell apart. */
  ghost predicate Tied<T(!new)>(le: (T, T) -> bool, p: T -> bool) {
    forall x, y :: p(x) && p(y) ==> le(x, y)
  }

  lemma {:induction false} InsertFilter<T(!new)>(le: (T, T) -> bool, p: T -> bool, x: T, xs: seq<T>)
    requires Tied(le, p)
    ensures Filter(p, Insert(le, x, xs)) == Filter(p, [x] + xs)
  {
    assert ([x] + xs)[1..] == xs;
    if xs != [] && !le(x, xs[0]) {
      InsertFilter(le, p, x, xs[1..]);
      assert ([x] + xs[1..])[1..] == xs[1..];
      assert !(p(x) && p(xs[0]));
      assert ([xs[0]] + Insert(le, x, xs[1..]))[1..] == Insert(le, x, xs[1..]);
    }
  }

  /** Stability: elements tied under the order keep the order they came in. */
  lemma {:induction false} SortStable<T(!new)>(le: (T, T) -> bool, p: T -> bool, xs: seq<T>)
    requires Tied(le, p)
    ensures Filter(p, Sort(le, xs)) == Filter(p, xs)
  {
    if xs != [] {
      SortStable(le, p, xs[1..]);
      var tail := Sort(le, xs[1..]);
      InsertFilter(le, p, xs[0], tail);
      assert ([xs[0]] + tail)[1..] == tail;
    }
  }

  lemma LeastFirst<T(!new)>(le: (T, T) -> bool, xs: seq<T>, x: T)
    requires TotalPreorder(le) && Sorted(le, xs) && xs != [] && x in multiset(xs)
    ensures le(xs[0], x)
  {
    var i :| 0 <= i < |xs| && xs[i] == x;
    if i == 0 {
      assert le(x, x);
    }
  }

  lemma TailMultiset<T>(xs: seq<T>)
    requires xs != []
    ensures multiset(xs[1..]) == multiset(xs) - multiset{xs[0]}
  {
    assert xs == [xs[0]] + xs[1..];
  }

  /** A strict order leaves no choice: two sorted sequences with the same
      elements and no ties are the same sequence. */
  lemma {:induction false} SortedUnique<T(!new)>(le: (T, T) -> bool, xs: seq<T>, ys: seq<T>)
    requires TotalPreorder(le)
    requires forall x, y :: le(x, y) && le(y, x) ==> x == y
    requires Sorted(le, xs) && Sorted(le, ys)
    requires multiset(xs) == multiset(ys)
    ensures xs == ys
  {
    assert |xs| == |multiset(xs)| == |multiset(ys)| == |ys|;
    if xs != [] {
      assert xs[0] in multiset(ys) && ys[0] in multiset(xs);
      LeastFirst(le, xs, ys[0]);
      LeastFirst(le, ys, xs[0]);
      TailMultiset(xs);
      TailMultiset(ys);
      SortedUnique(le, xs[1..], ys[1..]);
      assert xs == [xs[0]] + xs[1..] && ys == [ys[0]] + ys[1..];
    }
  }

  // ---- what a stable sort is ----

  /** The elements the order cannot tell apart from `x`, in sequence order. */
  function TiedTo<T>(le: (T, T) -> bool, x: T, xs: seq<T>): seq<T> {
    Filter(y => le(x, y) && le(y, x), xs)
  }

  ghost predicate SameTies<T(!new)>(le: (T, T) -> bool, xs: seq<T>, ys: seq<T>) {
    forall x :: TiedTo(le, x, xs) == TiedTo(le, x, ys)
  }

  lemma {:induction false} FilterKeeps<T>(p: T -> bool, xs: seq<T>, x: T)
    ensures x in Filter(p, xs) <==> x in xs && p(x)
  {
    if xs != [] {
      FilterKeeps(p, xs[1..], x);
      assert xs == [xs[0]] + xs[1..];
    }
  }

  lemma TiesStart<T(!new)>(le: (T, T) -> bool, xs: seq<T>, ys: seq<T>)
    requires TotalPreorder(le) && Sorted(le, xs) && Sorted(le, ys) && SameTies(le, xs, ys)
    requires xs != []
    ensures ys != [] && xs[0] == ys[0]
  {
    var x := xs[0];
    assert le(x, x) && TiedTo(le, x, xs) == TiedTo(le, x, ys);
    FilterKeeps(y => le(x, y) && le(y, x), xs, x);
    FilterKeeps(y => le(x, y) && le(y, x), ys, x);
    var i :| 0 <= i < |ys| && ys[i] == x;
    var z := ys[0];
    assert le(z, z) && TiedTo(le, z, xs) == TiedTo(le, z, ys);
    FilterKeeps(y => le(z, y) && le(y, z), ys, z);
    FilterKeeps(y => le(z, y) && le(y, z), xs, z);
    LeastFirst(le, ys, x);
    LeastFirst(le, xs, z);
    assert TiedTo(le, x, xs)[0] == x && TiedTo(le, x, ys)[0] == z;
  }

  lemma TiesOfTail<T(!new)>(le: (T, T) -> bool, xs: seq<T>, ys: seq<T>)
    requires SameTies(le, xs, ys) && xs != [] && ys != [] && xs[0] == ys[0]
    ensures SameTies(le, xs[1..], ys[1..])
  {
    forall x ensures TiedTo(le, x, xs[1..]) == TiedTo(le, x, ys[1..]) {
      assert TiedTo(le, x, xs) == TiedTo(le, x, ys);
      var head := if le(x, xs[0]) && le(xs[0], x) then [xs[0]] else [];
      assert TiedTo(le, x, xs) == head + TiedTo(le, x, xs[1..]);
      assert TiedTo(le, x, ys) == head + TiedTo(le, x, ys[1..]);
      assert TiedTo(le, x, xs[1..]) == TiedTo(le, x, xs)[|head|..];
      assert TiedTo(le, x, ys[1..]) == TiedTo(le, x, ys)[|head|..];
    }
  }

  lemma {:induction false} StableUnique<T(!new)>(le: (T, T) -> bool, xs: seq<T>, ys: seq<T>)
    requires TotalPreorder(le) && Sorted(le, xs) && Sorted(le, ys) && SameTies(le, xs, ys)
    ensures xs == ys
    decreases |xs|
  {
    hide *;
    if xs == [] {
      if ys != [] {
        SameTiesSymmetric(le, xs, ys);
        TiesStart(le, ys, xs);
      }
    } else {
      TiesStart(le, xs, ys);
      TiesOfTail(le, xs, ys);
      SortedTail(le, xs);
      SortedTail(le, ys);
      StableUnique(le, xs[1..], ys[1..]);
      assert xs == [xs[0]] + xs[1..] && ys == [ys[0]] + ys[1..];
    }
  }

  lemma SameTiesSymmetric<T(!new)>(le: (T, T) -> bool, xs: seq<T>, ys: seq<T>)
    requires SameTies(le, xs, ys)
    ensures SameTies(le, ys, xs)
  {
  }

  lemma SortedTail<T>(le: (T, T) -> bool, xs: seq<T>)
    requires Sorted(le, xs) && xs != []
    ensures Sorted(le, xs[1..])
  {
  }

  /** Sorting gives the one sequence that is in order and keeps every tie in
      the order it came in. */
  lemma SortIsTheStableOne<T(!new)>(le: (T, T) -> bool, xs: seq<T>, ys: seq<T>)
    requires TotalPreorder(le)
    ensures ys == Sort(le, xs) <==> Sorted(le, ys) && SameTies(le, ys, xs)
  {
    hide *;
    SortSorted(le, xs);
    SortSameTies(le, xs);
    if Sorted(le, ys) && SameTies(le, ys, xs) {
      SameTiesChain(le, ys, xs, Sort(le, xs));
      StableUnique(le, ys, Sort(le, xs));
    }
  }

  lemma SortSameTies<T(!new)>(le: (T, T) -> bool, xs: seq<T>)
    requires TotalPreorder(le)
    ensures SameTies(le, Sort(le, xs), xs)
  {
    forall x ensures TiedTo(le, x, Sort(le, xs)) == TiedTo(le, x, xs) {
      SortStable(le, y => le(x, y) && le(y, x), xs);
    }
  }

  lemma SameTiesChain<T(!new)>(le: (T, T) -> bool, xs: seq<T>, ys: seq<T>, zs: seq<T>)
    requires SameTies(le, xs, ys) && SameTies(le, zs, ys)
    ensures SameTies(le, xs, zs)
  {
    forall x ensures TiedTo(le, x, xs) == TiedTo(le, x, zs) {
      assert TiedTo(le, x, xs) == TiedTo(le, x, ys) == TiedTo(le, x, zs);
    }
  }

  lemma {:induction false} FilterInsert<T(!new)>(le: (T, T) -> bool, p: T -> bool, x: T, xs: seq<T>)
    requires TotalPreorder(le) && Sorted(le, xs)
    ensures Filter(p, Insert(le, x, xs)) == if p(x) then Insert(le, x, Filter(p, xs)) else Filter(p, xs)
  {
    if xs == [] {
    } else if le(x, xs[0]) {
      assert ([x] + xs)[1..] == xs;
      if Filter(p, xs) != [] {
        var y := Filter(p, xs)[0];
        FilterKeeps(p, xs, y);
        LeastFirst(le, xs, y);
      }
    } else {
      FilterInsert(le, p, x, xs[1..]);
      assert ([xs[0]] + Insert(le, x, xs[1..]))[1..] == Insert(le, x, xs[1..]);
      if p(xs[0]) {
        assert ([xs[0]] + Filter(p, xs[1..]))[1..] == Filter(p, xs[1..]);
      } else if p(x) {
        assert Filter(p, xs) == Filter(p, xs[1..]);
      }
    }
  }

  /** Sorting a whole list sorts every group of it the same way. */
  lemma {:induction false} FilterSort<T(!new)>(le: (T, T) -> bool, p: T -> bool, xs: seq<T>)
    requires TotalPreorder(le)
    ensures Filter(p, Sort(le, xs)) == Sort(le, Filter(p, xs))
  {
    if xs != [] {
      FilterSort(le, p, xs[1..]);
      SortSorted(le, xs[1..]);
      FilterInsert(le, p, xs[0], Sort(le, xs[1..]));
      if p(xs[0]) {
        assert ([xs[0]] + Filter(p, xs[1..]))[1..] == Filter(p, xs[1..]);
      } else {
        assert Filter(p, xs) == Filter(p, xs[1..]);
      }
    }
  }

  lemma SortFixed<T(!new)>(le: (T, T) -> bool, xs: seq<T>)
    requires TotalPreorder(le)
    ensures Sort(le, xs) == xs <==> Sorted(le, xs)
  {
    SortIsTheStableOne(le, xs, xs);
    assert SameTies(le, xs, xs);
  }
}
