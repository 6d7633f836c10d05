/** Sorting duplicate-free lists by a caller's strict order, and the order of strings. */
module Sorting {

  /** `lt` is a strict linear order on the members of `xs`. */
  ghost predicate Linear<T(!new)>(lt: (T, T) -> bool, xs: seq<T>) {
    && (forall a, b :: a in xs && b in xs && a != b ==> lt(a, b) || lt(b, a))
    && (forall a, b :: a in xs && b in xs && lt(a, b) ==> !lt(b, a))
    && (forall a, b, c :: a in xs && b in xs && c in xs && lt(a, b) && lt(b, c) ==> lt(a, c))
  }

  ghost predicate SameMembers<T(!new)>(xs: seq<T>, ys: seq<T>) {
    forall x :: x in xs <==> x in ys
  }

  ghost predicate Ordered<T>(lt: (T, T) -> bool, xs: seq<T>) {
    forall i, j :: 0 <= i < j < |xs| ==> lt(xs[i], xs[j])
  }

  ghost predicate Distinct<T>(xs: seq<T>) {
    forall i, j :: 0 <= i < j < |xs| ==> xs[i] != xs[j]
  }

  function Insert<T>(lt: (T, T) -> bool, x: T, xs: seq<T>): seq<T> {
    if xs == [] || lt(x, xs[0]) then [x] + xs else [xs[0]] + Insert(lt, x, xs[1..])
  }

  function Sort<T>(lt: (T, T) -> bool, xs: seq<T>): seq<T> {
    if xs == [] then [] else Insert(lt, xs[0], Sort(lt, xs[1..]))
  }

  lemma {:induction false} InsertMembers<T(!new)>(lt: (T, T) -> bool, x: T, xs: seq<T>)
    ensures |Insert(lt, x, xs)| == |xs| + 1
    ensures forall y :: y in Insert(lt, x, xs) <==> y == x || y in xs
  {
    if xs != [] && !lt(x, xs[0]) {
      InsertMembers(lt, x, xs[1..]);
    }
  }

  lemma {:induction false} InsertIsOrdered<T(!new)>(lt: (T, T) -> bool, x: T, xs: seq<T>)
    requires Linear(lt, [x] + xs) && x !in xs && Ordered(lt, xs)
    ensures Ordered(lt, Insert(lt, x, xs))
  {
    if xs != [] {
      assert forall y :: y in xs ==> y in [x] + xs;
      assert x in [x] + xs;
      if lt(x, xs[0]) {
        assert forall j :: 0 <= j < |xs| ==> lt(x, xs[j]);
      } else {
        assert forall y :: y in [x] + xs[1..] ==> y in [x] + xs;
        InsertIsOrdered(lt, x, xs[1..]);
        InsertMembers(lt, x, xs[1..]);
        var rest := Insert(lt, x, xs[1..]);
        forall j | 0 <= j < |rest| ensures lt(xs[0], rest[j]) {
          assert rest[j] == x || rest[j] in xs[1..];
        }
      }
    }
  }

  lemma {:induction false} SortMembers<T(!new)>(lt: (T, T) -> bool, xs: seq<T>)
    ensures SameMembers(Sort(lt, xs), xs) && |Sort(lt, xs)| == |xs|
  {
    if xs != [] {
      SortMembers(lt, xs[1..]);
      InsertMembers(lt, xs[0], Sort(lt, xs[1..]));
    }
  }

  /** `Sort` lists the same members in order. */
  lemma {:induction false} SortIsOrdered<T(!new)>(lt: (T, T) -> bool, xs: seq<T>)
    requires Linear(lt, xs) && Distinct(xs)
    ensures Ordered(lt, Sort(lt, xs)) && SameMembers(Sort(lt, xs), xs) && |Sort(lt, xs)| == |xs|
  {
    SortMembers(lt, xs);
    if xs != [] {
      var rest := Sort(lt, xs[1..]);
      SortMembers(lt, xs[1..]);
      assert forall y :: y in xs[1..] ==> y in xs;
      SortIsOrdered(lt, xs[1..]);
      assert forall y :: y in [xs[0]] + rest ==> y in xs;
      InsertIsOrdered(lt, xs[0], rest);
    }
  }

  /** An ordered list is determined by its members. */
  lemma {:induction false} OrderedIsUnique<T(!new)>(lt: (T, T) -> bool, xs: seq<T>, ys: seq<T>)
    requires Linear(lt, xs) && SameMembers(xs, ys) && Ordered(lt, xs) && Ordered(lt, ys)
    ensures xs == ys
  {
    if xs == [] {
      assert forall i :: 0 <= i < |ys| ==> ys[i] in xs;
    } else {
      assert xs[0] in ys && ys != [] && ys[0] in xs;
      assert xs[0] == ys[0] by {
        var i :| 0 <= i < |ys| && ys[i] == xs[0];
        var j :| 0 <= j < |xs| && xs[j] == ys[0];
      }
      assert forall y :: y in xs[1..] ==> y in xs;
      TailMembers(lt, xs);
      TailMembers(lt, ys);
      OrderedIsUnique(lt, xs[1..], ys[1..]);
    }
  }

  lemma TailMembers<T(!new)>(lt: (T, T) -> bool, xs: seq<T>)
    requires xs != [] && Ordered(lt, xs) && !lt(xs[0], xs[0])
    ensures forall x :: x in xs[1..] <==> x in xs && x != xs[0]
  {
    assert xs == [xs[0]] + xs[1..];
  }

  /** Sorting forgets the order of a duplicate-free list. */
  lemma SortForgetsOrder<T(!new)>(lt: (T, T) -> bool, xs: seq<T>, ys: seq<T>)
    requires Distinct(xs) && Distinct(ys) && SameMembers(xs, ys) && Linear(lt, xs)
    ensures Sort(lt, xs) == Sort(lt, ys)
  {
    SortIsOrdered(lt, xs);
    SortIsOrdered(lt, ys);
    OrderedIsUnique(lt, Sort(lt, xs), Sort(lt, ys));
  }

  function Take<T>(xs: seq<T>, n: nat): seq<T> {
    if |xs| <= n then xs else xs[..n]
  }

  /** A cut of an ordered list keeps the best. */
  lemma TakeIsBest<T(!new)>(lt: (T, T) -> bool, sorted: seq<T>, n: nat)
    requires Ordered(lt, sorted)
    ensures var chosen := Take(sorted, n);
      && Ordered(lt, chosen) && |chosen| == (if |sorted| <= n then |sorted| else n)
      && (forall r :: r in chosen ==> r in sorted)
      && (forall r, c :: r in sorted && r !in chosen && c in chosen ==> lt(c, r))
  {
    var chosen := Take(sorted, n);
    assert forall k :: 0 <= k < |chosen| ==> chosen[k] == sorted[k] && chosen[k] in chosen;
  }

  /** Dictionary order of strings by code point. */
  predicate StringLe(a: string, b: string) {
    if a == [] then true
    else if b == [] then false
    else if a[0] != b[0] then a[0] < b[0]
    else StringLe(a[1..], b[1..])
  }

  lemma {:induction false} StringLeLinear(a: string, b: string, c: string)
    ensures StringLe(a, b) || StringLe(b, a)
    ensures StringLe(a, b) && StringLe(b, a) ==> a == b
    ensures StringLe(a, b) && StringLe(b, c) ==> StringLe(a, c)
  {
    if a != [] && b != [] && a[0] == b[0] {
      assert a == [a[0]] + a[1..] && b == [b[0]] + b[1..];
      StringLeLinear(a[1..], b[1..], if c == [] then [] else c[1..]);
    }
  }

  /** The strict order that sorting strings uses. */
  predicate StringLt(a: string, b: string) {
    a != b && StringLe(a, b)
  }

  lemma StringLtIsLinear(xs: seq<string>)
    ensures Linear(StringLt, xs)
  {
    forall a, b, c | a in xs && b in xs && c in xs
      ensures (a != b ==> StringLt(a, b) || StringLt(b, a)) && (StringLt(a, b) ==> !StringLt(b, a))
      ensures StringLt(a, b) && StringLt(b, c) ==> StringLt(a, c)
    {
      StringLeLinear(a, b, c);
      StringLeLinear(b, a, c);
    }
  }
}
