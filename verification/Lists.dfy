/** Order-preserving list operations, and the laws the model-name and key lists rest on. */
module Lists {
  import opened Wrappers

  /** The elements of `xs` that satisfy `keep`, in order. */
  function Filter<T>(xs: seq<T>, keep: T -> bool): seq<T> {
    if xs == [] then []
    else Filter(xs[..|xs| - 1], keep) + (if keep(xs[|xs| - 1]) then [xs[|xs| - 1]] else [])
  }

  /** lo.FilterMap: the defined images, in order. */
  function FilterMap<T>(xs: seq<T>, f: T -> Option<T>): seq<T> {
    if xs == [] then []
    else
      var y := f(xs[|xs| - 1]);
      FilterMap(xs[..|xs| - 1], f) + (if y.Some? then [y.value] else [])
  }

  function AddNew<T(==)>(u: seq<T>, x: T): seq<T> {
    if x in u then u else u + [x]
  }

  /** lo.Uniq: the first occurrence of every element. */
  function Uniq<T(==)>(xs: seq<T>): seq<T> {
    if xs == [] then []
    else
      AddNew(Uniq(xs[..|xs| - 1]), xs[|xs| - 1])
  }

  ghost predicate Distinct<T>(xs: seq<T>) {
    forall i, j | 0 <= i < j < |xs| :: xs[i] != xs[j]
  }

  // ---------------------------------------------------------------- filtering

  lemma {:induction false} FilterMember<T>(xs: seq<T>, keep: T -> bool, x: T)
    ensures x in Filter(xs, keep) <==> x in xs && keep(x)
  {
    if xs != [] {
      FilterMember(xs[..|xs| - 1], keep, x);
      assert xs == xs[..|xs| - 1] + [xs[|xs| - 1]];
    }
  }

  lemma FilterMembers<T>(xs: seq<T>, keep: T -> bool)
    ensures forall x :: x in Filter(xs, keep) <==> x in xs && keep(x)
  {
    forall x ensures x in Filter(xs, keep) <==> x in xs && keep(x) {
      FilterMember(xs, keep, x);
    }
  }

  lemma {:induction false} FilterCongruent<T>(xs: seq<T>, p: T -> bool, q: T -> bool)
    requires forall x | x in xs :: p(x) == q(x)
    ensures Filter(xs, p) == Filter(xs, q)
  {
    if xs != [] {
      assert xs[|xs| - 1] in xs;
      FilterCongruent(xs[..|xs| - 1], p, q);
    }
  }

  lemma {:induction false} FilterAppend<T>(a: seq<T>, b: seq<T>, p: T -> bool)
    ensures Filter(a + b, p) == Filter(a, p) + Filter(b, p)
  {
    if b == [] {
      assert a + b == a;
    } else {
      FilterAppend(a, b[..|b| - 1], p);
      assert (a + b)[..|a + b| - 1] == a + b[..|b| - 1];
    }
  }

  lemma FilterOne<T>(x: T, p: T -> bool)
    ensures Filter([x], p) == if p(x) then [x] else []
  {
    assert [x][..0] == [];
  }

  lemma {:induction false} FilterFilter<T>(xs: seq<T>, p: T -> bool, q: T -> bool)
    ensures Filter(Filter(xs, p), q) == Filter(xs, x => p(x) && q(x))
  {
    if xs != [] {
      var front, last := xs[..|xs| - 1], xs[|xs| - 1];
      FilterFilter(front, p, q);
      if p(last) {
        FilterAppend(Filter(front, p), [last], q);
        FilterOne(last, q);
      } else {
        assert Filter(xs, p) == Filter(front, p);
      }
    }
  }

  lemma FilterTwice<T>(xs: seq<T>, p: T -> bool, q: T -> bool, r: T -> bool)
    requires forall x | x in xs :: r(x) == (p(x) && q(x))
    ensures Filter(Filter(xs, p), q) == Filter(xs, r)
  {
    FilterFilter(xs, p, q);
    FilterCongruent(xs, x => p(x) && q(x), r);
  }

  lemma {:induction false} FilterAll<T>(xs: seq<T>, p: T -> bool)
    requires forall x | x in xs :: p(x)
    ensures Filter(xs, p) == xs
  {
    if xs != [] {
      assert xs[|xs| - 1] in xs;
      FilterAll(xs[..|xs| - 1], p);
    }
  }

  lemma {:induction false} FilterNone<T>(xs: seq<T>, p: T -> bool)
    requires forall x | x in xs :: !p(x)
    ensures Filter(xs, p) == []
  {
    if xs != [] {
      assert xs[|xs| - 1] in xs;
      FilterNone(xs[..|xs| - 1], p);
    }
  }

  lemma {:induction false} FilterDistinct<T>(xs: seq<T>, p: T -> bool)
    requires Distinct(xs)
    ensures Distinct(Filter(xs, p))
  {
    if xs != [] {
      FilterDistinct(xs[..|xs| - 1], p);
      FilterMember(xs[..|xs| - 1], p, xs[|xs| - 1]);
    }
  }

  lemma AppendDistinct<T>(a: seq<T>, b: seq<T>)
    requires Distinct(a) && Distinct(b) && forall x | x in b :: x !in a
    ensures Distinct(a + b)
  {
    forall i, j | 0 <= i < j < |a + b| ensures (a + b)[i] != (a + b)[j] {
      if i < |a| <= j {
        assert b[j - |a|] in b;
      }
    }
  }

  // ---------------------------------------------------------------- mapping and deduplicating

  lemma {:induction false} FilterMapAppend<T>(a: seq<T>, b: seq<T>, f: T -> Option<T>)
    ensures FilterMap(a + b, f) == FilterMap(a, f) + FilterMap(b, f)
  {
    if b == [] {
      assert a + b == a;
    } else {
      FilterMapAppend(a, b[..|b| - 1], f);
      assert (a + b)[..|a + b| - 1] == a + b[..|b| - 1];
    }
  }

  /** An element without an image can be left out at either end. */
  lemma FilterMapDrop<T>(xs: seq<T>, f: T -> Option<T>, x: T)
    requires f(x).None?
    ensures FilterMap([x] + xs, f) == FilterMap(xs, f) && FilterMap(xs + [x], f) == FilterMap(xs, f)
  {
    FilterMapAppend([x], xs, f);
    FilterMapOne(f, x);
    assert (xs + [x])[..|xs|] == xs;
  }

  lemma FilterMapOne<T>(f: T -> Option<T>, x: T)
    requires f(x).None?
    ensures FilterMap([x], f) == []
  {
    assert FilterMap([x][..0], f) == [];
  }

  /** All images, one after the other. */
  function FlatMap<S, T>(xs: seq<S>, f: S -> seq<T>): seq<T> {
    if xs == [] then [] else f(xs[0]) + FlatMap(xs[1..], f)
  }

  lemma {:induction false} FlatMapAppend<S, T>(a: seq<S>, b: seq<S>, f: S -> seq<T>)
    ensures FlatMap(a + b, f) == FlatMap(a, f) + FlatMap(b, f)
  {
    if a == [] {
      assert a + b == b;
    } else {
      FlatMapAppend(a[1..], b, f);
      assert (a + b)[1..] == a[1..] + b;
    }
  }

  lemma {:induction false} FlatMapMember<S, T>(xs: seq<S>, f: S -> seq<T>, y: T)
    ensures y in FlatMap(xs, f) <==> exists x :: x in xs && y in f(x)
  {
    if xs != [] {
      FlatMapMember(xs[1..], f, y);
      assert xs == [xs[0]] + xs[1..];
      assert xs[0] in xs;
    }
  }

  lemma {:induction false} FlatMapFixed<T>(xs: seq<T>, f: T -> seq<T>)
    requires forall x | x in xs :: f(x) == [x]
    ensures FlatMap(xs, f) == xs
  {
    if xs != [] {
      assert xs[0] in xs;
      FlatMapFixed(xs[1..], f);
    }
  }

  lemma {:induction false} FilterMapMember<T>(xs: seq<T>, f: T -> Option<T>, y: T)
    ensures y in FilterMap(xs, f) <==> exists x :: x in xs && f(x) == Some(y)
  {
    if xs != [] {
      FilterMapMember(xs[..|xs| - 1], f, y);
      assert xs == xs[..|xs| - 1] + [xs[|xs| - 1]];
      assert xs[|xs| - 1] in xs;
    }
  }

  /** A list of fixed points is left alone. */
  lemma {:induction false} FilterMapFixed<T>(xs: seq<T>, f: T -> Option<T>)
    requires forall x | x in xs :: f(x) == Some(x)
    ensures FilterMap(xs, f) == xs
  {
    if xs != [] {
      assert xs[|xs| - 1] in xs;
      FilterMapFixed(xs[..|xs| - 1], f);
    }
  }

  lemma {:induction false} UniqMember<T>(xs: seq<T>, x: T)
    ensures x in Uniq(xs) <==> x in xs
  {
    if xs != [] {
      UniqMember(xs[..|xs| - 1], x);
      assert xs == xs[..|xs| - 1] + [xs[|xs| - 1]];
    }
  }

  lemma {:induction false} UniqDistinct<T>(xs: seq<T>)
    ensures Distinct(Uniq(xs))
  {
    if xs != [] {
      UniqDistinct(xs[..|xs| - 1]);
    }
  }

  lemma {:induction false} UniqFixed<T>(xs: seq<T>)
    requires Distinct(xs)
    ensures Uniq(xs) == xs
  {
    if xs != [] {
      UniqFixed(xs[..|xs| - 1]);
    }
  }

  /** Deduplicating an append keeps the first list and adds what is new in the second. */
  lemma {:induction false} UniqAppend<T>(a: seq<T>, b: seq<T>, isNew: T -> bool)
    requires forall m :: isNew(m) <==> m !in Uniq(a)
    ensures Uniq(a + b) == Uniq(a) + Filter(Uniq(b), isNew)
  {
    if b == [] {
      assert a + b == a;
    } else {
      var front, last := b[..|b| - 1], b[|b| - 1];
      UniqAppend(a, front, isNew);
      assert b == front + [last];
      UniqAppendOne(a, front, last, isNew);
    }
  }

  lemma UniqAppendOne<T>(a: seq<T>, front: seq<T>, last: T, isNew: T -> bool)
    requires forall m :: isNew(m) <==> m !in Uniq(a)
    requires Uniq(a + front) == Uniq(a) + Filter(Uniq(front), isNew)
    ensures Uniq(a + (front + [last])) == Uniq(a) + Filter(Uniq(front + [last]), isNew)
  {
    var u := Uniq(a + front);
    calc {
      Uniq(a + (front + [last]));
    == { assert (a + front) + [last] == a + (front + [last]); }
      Uniq((a + front) + [last]);
    == { UniqSnoc(a + front, last); }
      AddNew(u, last);
    == { AppendNew(Uniq(a), Uniq(front), last, isNew); }
      Uniq(a) + Filter(AddNew(Uniq(front), last), isNew);
    == { UniqSnoc(front, last); }
      Uniq(a) + Filter(Uniq(front + [last]), isNew);
    }
  }

  lemma UniqSnoc<T>(xs: seq<T>, x: T)
    ensures Uniq(xs + [x]) == AddNew(Uniq(xs), x)
  {
    assert (xs + [x])[..|xs|] == xs;
  }

  /** One round of deduplicating an append. */
  lemma AppendNew<T>(a: seq<T>, front: seq<T>, last: T, keep: T -> bool)
    requires forall m :: keep(m) <==> m !in a
    ensures AddNew(a + Filter(front, keep), last) == a + Filter(AddNew(front, last), keep)
  {
    FilterMember(front, keep, last);
    if last !in front {
      FilterSnoc(front, last, keep);
    }
  }

  lemma UniqFilterMapStep<T>(xs: seq<T>, f: T -> Option<T>, i: nat)
    requires i < |xs|
    ensures var n := Uniq(FilterMap(xs[..i], f));
            var y := f(xs[i]);
            Uniq(FilterMap(xs[..i + 1], f)) == if y.None? || y.value in n then n else n + [y.value]
  {
    assert xs[..i + 1][..i] == xs[..i];
    var m, y := FilterMap(xs[..i], f), f(xs[i]);
    if y.Some? {
      assert (m + [y.value])[..|m|] == m;
    } else {
      assert FilterMap(xs[..i + 1], f) == m;
    }
  }

  /** Two filters of one list agree exactly when they keep the same elements. */
  lemma FilterEqual<T>(xs: seq<T>, p: T -> bool, q: T -> bool)
    ensures Filter(xs, p) == Filter(xs, q) <==> forall x | x in xs :: p(x) == q(x)
  {
    if Filter(xs, p) == Filter(xs, q) {
      forall x | x in xs ensures p(x) == q(x) {
        FilterMember(xs, p, x);
        FilterMember(xs, q, x);
      }
    } else if forall x | x in xs :: p(x) == q(x) {
      FilterCongruent(xs, p, q);
    }
  }

  lemma FilterSnoc<T>(xs: seq<T>, x: T, p: T -> bool)
    ensures Filter(xs + [x], p) == Filter(xs, p) + if p(x) then [x] else []
  {
    assert (xs + [x])[..|xs|] == xs;
  }

  /** The loop that skips undefined images and what was seen before. */
  method CollectUnseen<T(==)>(xs: seq<T>, f: T -> Option<T>, seen: set<T>) returns (out: seq<T>, seen': set<T>)
    ensures out == Filter(Uniq(FilterMap(xs, f)), x => x !in seen)
    ensures forall x :: x in seen' <==> x in seen || x in Uniq(FilterMap(xs, f))
  {
    out, seen' := [], seen;
    ghost var isNew, names := (x: T) => x !in seen, [];
    for i := 0 to |xs|
      invariant names == Uniq(FilterMap(xs[..i], f))
      invariant out == Filter(names, isNew)
      invariant forall x :: x in seen' <==> x in seen || x in names
    {
      UniqFilterMapStep(xs, f, i);
      var y := f(xs[i]);
      if y.Some? && y.value !in seen' {
        FilterSnoc(names, y.value, isNew);
        seen' := seen' + {y.value};
        out := out + [y.value];
        names := names + [y.value];
      } else if y.Some? && y.value !in names {
        FilterSnoc(names, y.value, isNew);
        names := names + [y.value];
      }
    }
    assert xs[..|xs|] == xs;
  }
}
