// SELECT over a table of rows: WHERE, ORDER BY up to two descending keys and a unique third one,
// LIMIT and OFFSET.

module Queries {
  datatype Option<+T> = None | Some(value: T)

  function Filter<T>(p: T -> bool, xs: seq<T>): (ys: seq<T>)
    ensures forall y <- ys :: y in xs && p(y)
    ensures forall x <- xs :: p(x) ==> x in ys
    ensures |ys| <= |xs|
  {
    if xs == [] then [] else if p(xs[0]) then [xs[0]] + Filter(p, xs[1..]) else Filter(p, xs[1..])
  }

  /** ORDER BY k1 DESC, k2 DESC, k3. The third key stands for a text column: its place in the
      collation order. Any total order on strings can be given by such places. */
  datatype Order<!T> = Order(k1: T -> int, k2: T -> int, k3: T -> real)

  predicate Before<T>(o: Order<T>, x: T, y: T) {
    o.k1(x) > o.k1(y)
    || (o.k1(x) == o.k1(y) && (o.k2(x) > o.k2(y) || (o.k2(x) == o.k2(y) && o.k3(x) < o.k3(y))))
  }

  /** The third key tells the rows apart. */
  ghost predicate Keyed<T>(o: Order<T>, xs: seq<T>) {
    forall i, j | 0 <= i < j < |xs| :: o.k3(xs[i]) != o.k3(xs[j])
  }

  ghost predicate Sorted<T>(o: Order<T>, xs: seq<T>) {
    forall i, j | 0 <= i < j < |xs| :: Before(o, xs[i], xs[j])
  }

  function Insert<T>(o: Order<T>, x: T, xs: seq<T>): (ys: seq<T>)
    ensures multiset(ys) == multiset{x} + multiset(xs)
    ensures |ys| == |xs| + 1
  {
    if xs == [] then [x]
    else if Before(o, xs[0], x) then
      assert xs == [xs[0]] + xs[1..];
      [xs[0]] + Insert(o, x, xs[1..])
    else [x] + xs
  }

  function OrderBy<T>(o: Order<T>, xs: seq<T>): (ys: seq<T>)
    ensures multiset(ys) == multiset(xs) && |ys| == |xs|
  {
    if xs == [] then []
    else
      assert xs == [xs[0]] + xs[1..];
      Insert(o, xs[0], OrderBy(o, xs[1..]))
  }

  lemma SameMembers<T>(xs: seq<T>, ys: seq<T>)
    requires multiset(xs) == multiset(ys)
    ensures forall x :: x in xs <==> x in ys
  {
    forall x ensures x in xs <==> x in ys {
      assert x in xs <==> x in multiset(xs);
    }
  }

  lemma {:induction false} InsertSorts<T>(o: Order<T>, x: T, xs: seq<T>)
    requires Sorted(o, xs) && forall y <- xs :: o.k3(y) != o.k3(x)
    ensures Sorted(o, Insert(o, x, xs))
  {
    if xs != [] && Before(o, xs[0], x) {
      InsertSorts(o, x, xs[1..]);
      var rest := Insert(o, x, xs[1..]);
      forall y <- rest ensures Before(o, xs[0], y) {
        assert y in multiset(rest);
        assert y == x || y in xs[1..];
      }
    }
  }

  lemma {:induction false} OrderBySorts<T>(o: Order<T>, xs: seq<T>)
    requires Keyed(o, xs)
    ensures Sorted(o, OrderBy(o, xs))
  {
    if xs != [] {
      OrderBySorts(o, xs[1..]);
      forall y <- OrderBy(o, xs[1..]) ensures o.k3(y) != o.k3(xs[0]) {
        assert y in multiset(OrderBy(o, xs[1..]));
        assert y in xs[1..];
        var k :| 0 <= k < |xs[1..]| && xs[1..][k] == y;
        assert y == xs[k + 1];
      }
      InsertSorts(o, xs[0], OrderBy(o, xs[1..]));
    }
  }

  lemma SortedHead<T>(o: Order<T>, xs: seq<T>, ys: seq<T>)
    requires Sorted(o, xs) && Sorted(o, ys) && multiset(xs) == multiset(ys) && xs != [] && ys != []
    ensures xs[0] == ys[0]
  {
    SameMembers(xs, ys);
    assert xs[0] in ys && ys[0] in xs;
    var i :| 0 <= i < |ys| && ys[i] == xs[0];
    var j :| 0 <= j < |xs| && xs[j] == ys[0];
    assert i > 0 ==> Before(o, ys[0], xs[0]);
    assert j > 0 ==> Before(o, xs[0], ys[0]);
  }

  lemma TailMembers<T>(xs: seq<T>)
    requires xs != []
    ensures xs == [xs[0]] + xs[1..] && multiset(xs[1..]) == multiset(xs) - multiset{xs[0]}
  {
    assert xs == [xs[0]] + xs[1..];
  }

  /** There is one sorted arrangement of given rows, so the answer does not depend on how the table
      stores them. */
  lemma {:induction false} SortedUnique<T>(o: Order<T>, xs: seq<T>, ys: seq<T>)
    requires Sorted(o, xs) && Sorted(o, ys) && multiset(xs) == multiset(ys)
    ensures xs == ys
  {
    assert |xs| == |multiset(xs)| == |multiset(ys)| == |ys|;
    if xs != [] {
      SortedHead(o, xs, ys);
      TailMembers(xs);
      TailMembers(ys);
      SortedUnique(o, xs[1..], ys[1..]);
    }
  }

  lemma OrderByIgnoresStorage<T>(o: Order<T>, xs: seq<T>, ys: seq<T>)
    requires Keyed(o, xs) && Keyed(o, ys) && multiset(xs) == multiset(ys)
    ensures OrderBy(o, xs) == OrderBy(o, ys)
  {
    OrderBySorts(o, xs);
    OrderBySorts(o, ys);
    SortedUnique(o, OrderBy(o, xs), OrderBy(o, ys));
  }

  // ----- WHERE and ORDER BY commute -----

  lemma FilterCons<T>(p: T -> bool, x: T, xs: seq<T>)
    ensures Filter(p, [x] + xs) == if p(x) then [x] + Filter(p, xs) else Filter(p, xs)
  {
    assert ([x] + xs)[1..] == xs;
  }

  lemma {:induction false} FilterAppend<T>(p: T -> bool, a: seq<T>, b: seq<T>)
    ensures Filter(p, a + b) == Filter(p, a) + Filter(p, b)
  {
    if a == [] {
      assert a + b == b;
    } else {
      assert (a + b)[1..] == a[1..] + b;
      FilterAppend(p, a[1..], b);
    }
  }

  lemma InsertInFront<T>(o: Order<T>, x: T, xs: seq<T>)
    requires forall y <- xs :: !Before(o, y, x)
    ensures Insert(o, x, xs) == [x] + xs
  {}

  lemma InsertFurther<T>(o: Order<T>, x: T, y: T, xs: seq<T>)
    requires Before(o, y, x)
    ensures Insert(o, x, [y] + xs) == [y] + Insert(o, x, xs)
  {
    assert ([y] + xs)[1..] == xs;
  }

  lemma {:induction false} FilterInsert<T>(o: Order<T>, p: T -> bool, x: T, xs: seq<T>)
    requires Sorted(o, xs)
    ensures Filter(p, Insert(o, x, xs)) == if p(x) then Insert(o, x, Filter(p, xs)) else Filter(p, xs)
  {
    if xs == [] || !Before(o, xs[0], x) {
      InsertInFront(o, x, xs);
      InsertInFront(o, x, Filter(p, xs));
      FilterCons(p, x, xs);
    } else {
      var y, rest := xs[0], xs[1..];
      FilterInsert(o, p, x, rest);
      FilterCons(p, y, Insert(o, x, rest));
      if p(y) {
        InsertFurther(o, x, y, Filter(p, rest));
      }
    }
  }

  lemma {:induction false} FilterOrderBy<T>(o: Order<T>, p: T -> bool, xs: seq<T>)
    requires Keyed(o, xs)
    ensures Filter(p, OrderBy(o, xs)) == OrderBy(o, Filter(p, xs))
  {
    if xs != [] {
      var rest := xs[1..];
      FilterOrderBy(o, p, rest);
      OrderBySorts(o, rest);
      FilterInsert(o, p, xs[0], OrderBy(o, rest));
      assert p(xs[0]) ==> Filter(p, xs)[1..] == Filter(p, rest);
    }
  }

  lemma {:induction false} FilterKeyed<T>(o: Order<T>, p: T -> bool, xs: seq<T>)
    requires Keyed(o, xs)
    ensures Keyed(o, Filter(p, xs))
  {
    if xs != [] {
      var rest := Filter(p, xs[1..]);
      FilterKeyed(o, p, xs[1..]);
      forall y <- rest ensures o.k3(y) != o.k3(xs[0]) {
        var k :| 0 <= k < |xs[1..]| && xs[1..][k] == y;
        assert y == xs[k + 1];
      }
    }
  }

  lemma {:induction false} FilterTwice<T>(p: T -> bool, q: T -> bool, both: T -> bool, xs: seq<T>)
    requires forall x <- xs :: both(x) == (p(x) && q(x))
    ensures Filter(q, Filter(p, xs)) == Filter(both, xs)
  {
    if xs != [] {
      FilterTwice(p, q, both, xs[1..]);
      FilterCons(q, xs[0], Filter(p, xs[1..]));
    }
  }

  lemma {:induction false} FilterAgree<T>(p: T -> bool, q: T -> bool, xs: seq<T>)
    requires forall x <- xs :: p(x) == q(x)
    ensures Filter(p, xs) == Filter(q, xs)
  {
    if xs != [] {
      FilterAgree(p, q, xs[1..]);
    }
  }

  // ----- ORDER BY .. LIMIT 1 -----

  function First<T>(xs: seq<T>): Option<T> {
    if xs == [] then None else Some(xs[0])
  }

  lemma FirstIsLeast<T>(o: Order<T>, xs: seq<T>)
    requires Keyed(o, xs)
    ensures First(OrderBy(o, xs)).None? <==> xs == []
    ensures xs != [] ==> var m := First(OrderBy(o, xs)).value;
                         m in xs && forall y <- xs :: y == m || Before(o, m, y)
  {
    OrderBySorts(o, xs);
    SameMembers(OrderBy(o, xs), xs);
  }

  /** The least row of what follows position `i` of a sorted list is the one at `i + 1`. */
  lemma LeastAfter<T>(o: Order<T>, xs: seq<T>, i: nat, found: seq<T>)
    requires Sorted(o, xs) && i < |xs| && Keyed(o, found)
    requires forall y :: y in found <==> y in xs[i + 1..]
    ensures First(OrderBy(o, found)) == if i + 1 < |xs| then Some(xs[i + 1]) else None
  {
    FirstIsLeast(o, found);
    if i + 1 < |xs| {
      assert xs[i + 1..][0] in found;
      var m := First(OrderBy(o, found)).value;
      assert m in xs[i + 1..];
      var k :| i + 1 <= k < |xs| && xs[k] == m;
      assert Before(o, xs[i + 1], xs[k]) || k == i + 1;
    }
  }

  /** The same for what comes before `i`, read backwards. */
  lemma GreatestBefore<T>(o: Order<T>, back: Order<T>, xs: seq<T>, i: nat, found: seq<T>)
    requires Sorted(o, xs) && i < |xs| && Keyed(back, found)
    requires forall x <- xs, y <- xs :: Before(back, x, y) <==> Before(o, y, x)
    requires forall y :: y in found <==> y in xs[..i]
    ensures First(OrderBy(back, found)) == if i > 0 then Some(xs[i - 1]) else None
  {
    FirstIsLeast(back, found);
    if i > 0 {
      assert xs[..i][i - 1] in found;
      var m := First(OrderBy(back, found)).value;
      assert m in xs[..i];
      var k :| 0 <= k < i && xs[k] == m;
      assert Before(o, xs[k], xs[i - 1]) || k == i - 1;
    }
  }

  // ----- OFFSET and LIMIT -----

  function Min(a: int, b: int): int {
    if a < b then a else b
  }

  /** OFFSET (page - 1) * size LIMIT size */
  function Page<T>(xs: seq<T>, page: nat, size: nat): (ys: seq<T>)
    requires page >= 1 && size >= 1
    ensures |ys| <= size
  {
    assert (page - 1) * size + size == page * size;
    var from := Min((page - 1) * size, |xs|);
    xs[from..Min(from + size, |xs|)]
  }

  /** Pages 1 to n, one after another. */
  function Pages<T>(xs: seq<T>, n: nat, size: nat): seq<T>
    requires size >= 1
  {
    if n == 0 then [] else Pages(xs, n - 1, size) + Page(xs, n, size)
  }

  /** The pages cut the list into consecutive pieces without repetition or gap. */
  lemma {:induction false} PagesPartition<T>(xs: seq<T>, n: nat, size: nat)
    requires size >= 1
    ensures Pages(xs, n, size) == xs[..Min(n * size, |xs|)]
  {
    if n > 0 {
      PagesPartition(xs, n - 1, size);
      assert (n - 1) * size + size == n * size;
    }
  }

  /** Whether there is a next page. */
  function HasNext(total: nat, page: nat, size: nat): bool {
    page * size < total
  }

  lemma HasNextIsExact<T>(xs: seq<T>, page: nat, size: nat)
    requires page >= 1 && size >= 1
    ensures HasNext(|xs|, page, size) <==> Page(xs, page + 1, size) != []
  {
    assert (page + 1 - 1) * size == page * size;
  }

  // ----- unique() on the rows received -----

  function Unique<T(==)>(xs: seq<T>): seq<T> {
    if xs == [] then []
    else
      var init := Unique(xs[..|xs| - 1]);
      if xs[|xs| - 1] in xs[..|xs| - 1] then init else init + [xs[|xs| - 1]]
  }

  ghost predicate NoDup<T>(xs: seq<T>) {
    forall i, j | 0 <= i < j < |xs| :: xs[i] != xs[j]
  }

  lemma {:induction false} UniqueOfDistinct<T>(xs: seq<T>)
    requires NoDup(xs)
    ensures Unique(xs) == xs
  {
    if xs != [] {
      UniqueOfDistinct(xs[..|xs| - 1]);
    }
  }

  lemma SortedMeans<T>(o: Order<T>, xs: seq<T>)
    requires Sorted(o, xs)
    ensures forall i, j | 0 <= i < j < |xs| ::
              o.k1(xs[i]) > o.k1(xs[j])
              || (o.k1(xs[i]) == o.k1(xs[j])
                  && (o.k2(xs[i]) > o.k2(xs[j]) || (o.k2(xs[i]) == o.k2(xs[j]) && o.k3(xs[i]) < o.k3(xs[j]))))
  {
    forall i, j | 0 <= i < j < |xs| ensures Before(o, xs[i], xs[j]) {}
  }

  lemma SortedNoDup<T>(o: Order<T>, xs: seq<T>)
    requires Sorted(o, xs)
    ensures NoDup(xs)
  {
    forall i, j | 0 <= i < j < |xs| ensures xs[i] != xs[j] {
      assert Before(o, xs[i], xs[j]);
    }
  }

  lemma SliceNoDup<T>(xs: seq<T>, lo: int, hi: int)
    requires NoDup(xs) && 0 <= lo <= hi <= |xs|
    ensures NoDup(xs[lo..hi])
  {}

  /** unique() finds nothing to drop on a page of distinct rows. */
  lemma UniquePage<T>(xs: seq<T>, page: nat, size: nat)
    requires NoDup(xs) && page >= 1 && size >= 1
    ensures Unique(Page(xs, page, size)) == Page(xs, page, size)
  {
    assert (page - 1) * size + size == page * size;
    var from := Min((page - 1) * size, |xs|);
    SliceNoDup(xs, from, Min(from + size, |xs|));
    UniqueOfDistinct(Page(xs, page, size));
  }
}
