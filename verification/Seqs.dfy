/** Options, and the sequence folds that the specifications are written with. */
module Seqs {

  datatype Option<+T> = None | Some(value: T) {
    function GetOr(default: T): T {
      match this
      case Some(v) => v
      case None => default
    }
  }

  function Abs(n: int): (a: nat)
    ensures a == n || a == -n
  {
    if n < 0 then -n else n
  }

  function Min(a: real, b: real): (m: real)
    ensures m <= a && m <= b && (m == a || m == b)
  {
    if a <= b then a else b
  }

  function Max(a: real, b: real): (m: real)
    ensures m >= a && m >= b && (m == a || m == b)
  {
    if a >= b then a else b
  }

  function Filter<T>(keep: T -> bool, xs: seq<T>): seq<T> {
    if xs == [] then []
    else (if keep(xs[0]) then [xs[0]] else []) + Filter(keep, xs[1..])
  }

  function Map<T, U>(f: T -> U, xs: seq<T>): (ys: seq<U>)
    ensures |ys| == |xs|
    ensures forall i :: 0 <= i < |xs| ==> ys[i] == f(xs[i])
  {
    seq(|xs|, i requires 0 <= i < |xs| => f(xs[i]))
  }

  function SumInt<T>(f: T -> int, xs: seq<T>): int {
    if xs == [] then 0 else f(xs[0]) + SumInt(f, xs[1..])
  }

  function SumReal<T>(f: T -> real, xs: seq<T>): real {
    if xs == [] then 0.0 else f(xs[0]) + SumReal(f, xs[1..])
  }

  lemma {:induction false} FilterAppend<T>(keep: T -> bool, xs: seq<T>, ys: seq<T>)
    ensures Filter(keep, xs + ys) == Filter(keep, xs) + Filter(keep, ys)
  {
    if xs == [] {
      assert xs + ys == ys;
    } else {
      var first := if keep(xs[0]) then [xs[0]] else [];
      assert (xs + ys)[0] == xs[0] && (xs + ys)[1..] == xs[1..] + ys;
      FilterAppend(keep, xs[1..], ys);
      assert Filter(keep, xs + ys) == first + (Filter(keep, xs[1..]) + Filter(keep, ys));
      assert Filter(keep, xs) == first + Filter(keep, xs[1..]);
    }
  }

  lemma {:induction false} FilterMembers<T>(keep: T -> bool, xs: seq<T>)
    ensures forall x :: x in Filter(keep, xs) <==> x in xs && keep(x)
  {
    if xs == [] {
    } else {
      FilterMembers(keep, xs[1..]);
      assert xs == [xs[0]] + xs[1..];
    }
  }

  lemma {:induction false} FilterAll<T>(keep: T -> bool, xs: seq<T>)
    requires forall x :: x in xs ==> keep(x)
    ensures Filter(keep, xs) == xs
  {
    if xs == [] {
    } else {
      FilterAll(keep, xs[1..]);
      assert xs == [xs[0]] + xs[1..];
    }
  }

  lemma {:induction false} FilterNone<T>(keep: T -> bool, xs: seq<T>)
    requires forall x :: x in xs ==> !keep(x)
    ensures Filter(keep, xs) == []
  {
    if xs == [] {
    } else {
      FilterNone(keep, xs[1..]);
    }
  }

  lemma {:induction false} FilterOfMap<T, U>(f: T -> U, keepT: T -> bool, keepU: U -> bool, xs: seq<T>)
    requires forall x :: x in xs ==> (keepU(f(x)) <==> keepT(x))
    ensures Filter(keepU, Map(f, xs)) == Map(f, Filter(keepT, xs))
  {
    if xs == [] {
    } else {
      assert Map(f, xs)[1..] == Map(f, xs[1..]);
      FilterOfMap(f, keepT, keepU, xs[1..]);
    }
  }

  lemma {:induction false} FilterTwice<T>(a: T -> bool, b: T -> bool, both: T -> bool, xs: seq<T>)
    requires forall x :: x in xs ==> (both(x) <==> a(x) && b(x))
    ensures Filter(both, xs) == Filter(b, Filter(a, xs))
  {
    if xs == [] {
    } else {
      FilterTwice(a, b, both, xs[1..]);
      FilterAppend(b, if a(xs[0]) then [xs[0]] else [], Filter(a, xs[1..]));
    }
  }

  lemma {:induction false} SumIntAppend<T>(f: T -> int, xs: seq<T>, ys: seq<T>)
    ensures SumInt(f, xs + ys) == SumInt(f, xs) + SumInt(f, ys)
  {
    if xs == [] {
      assert xs + ys == ys;
    } else {
      assert (xs + ys)[1..] == xs[1..] + ys;
      SumIntAppend(f, xs[1..], ys);
    }
  }

  lemma {:induction false} SumRealAppend<T>(f: T -> real, xs: seq<T>, ys: seq<T>)
    ensures SumReal(f, xs + ys) == SumReal(f, xs) + SumReal(f, ys)
  {
    if xs == [] {
      assert xs + ys == ys;
    } else {
      assert (xs + ys)[1..] == xs[1..] + ys;
      SumRealAppend(f, xs[1..], ys);
    }
  }

  /** Summing a part of each element is summing it over the elements that have it. */
  lemma {:induction false} SumIntOfPart<T>(part: T -> int, keep: T -> bool, whole: T -> int, xs: seq<T>)
    requires forall x :: x in xs ==> part(x) == if keep(x) then whole(x) else 0
    ensures SumInt(part, xs) == SumInt(whole, Filter(keep, xs))
  {
    if xs == [] {
    } else {
      var rest := Filter(keep, xs[1..]);
      SumIntOfPart(part, keep, whole, xs[1..]);
      if keep(xs[0]) {
        assert Filter(keep, xs) == [xs[0]] + rest && ([xs[0]] + rest)[1..] == rest;
      } else {
        assert Filter(keep, xs) == rest;
      }
    }
  }

  lemma {:induction false} SumIntOfMap<T, U>(f: T -> U, g: U -> int, h: T -> int, xs: seq<T>)
    requires forall x :: x in xs ==> g(f(x)) == h(x)
    ensures SumInt(g, Map(f, xs)) == SumInt(h, xs)
  {
    if xs == [] {
    } else {
      assert Map(f, xs)[1..] == Map(f, xs[1..]);
      SumIntOfMap(f, g, h, xs[1..]);
    }
  }

  lemma {:induction false} SumRealOfMap<T, U>(f: T -> U, g: U -> real, h: T -> real, xs: seq<T>)
    requires forall x :: x in xs ==> g(f(x)) == h(x)
    ensures SumReal(g, Map(f, xs)) == SumReal(h, xs)
  {
    if xs == [] {
    } else {
      assert Map(f, xs)[1..] == Map(f, xs[1..]);
      SumRealOfMap(f, g, h, xs[1..]);
    }
  }

  lemma {:induction false} FilterSnoc<T>(keep: T -> bool, xs: seq<T>, x: T)
    ensures Filter(keep, xs + [x]) == if keep(x) then Filter(keep, xs) + [x] else Filter(keep, xs)
  {
    FilterAppend(keep, xs, [x]);
  }

  lemma {:induction false} SumIntSnoc<T>(f: T -> int, xs: seq<T>, x: T)
    ensures SumInt(f, xs + [x]) == SumInt(f, xs) + f(x)
  {
    SumIntAppend(f, xs, [x]);
  }

  lemma {:induction false} SumRealSnoc<T>(f: T -> real, xs: seq<T>, x: T)
    ensures SumReal(f, xs + [x]) == SumReal(f, xs) + f(x)
  {
    SumRealAppend(f, xs, [x]);
  }

  lemma MapAppend<T, U>(f: T -> U, xs: seq<T>, ys: seq<T>)
    ensures Map(f, xs + ys) == Map(f, xs) + Map(f, ys)
  {
  }

  // ---- Permutations ----

  function Without<T>(xs: seq<T>, k: nat): seq<T>
    requires k < |xs|
  {
    xs[..k] + xs[k + 1..]
  }

  lemma WithoutOne<T>(xs: seq<T>, k: nat)
    requires k < |xs|
    ensures multiset(xs) == multiset{xs[k]} + multiset(Without(xs, k))
  {
    assert xs == xs[..k] + ([xs[k]] + xs[k + 1..]);
  }

  lemma MapWithout<T, U>(f: T -> U, xs: seq<T>, k: nat)
    requires k < |xs|
    ensures Map(f, Without(xs, k)) == Without(Map(f, xs), k)
  {
  }

  /** Where the first element of one list is in a permutation of it, and what is left of both. */
  lemma FirstIsAt<T>(xs: seq<T>, ys: seq<T>) returns (k: nat)
    requires multiset(xs) == multiset(ys) && xs != []
    ensures k < |ys| && ys[k] == xs[0] && multiset(xs[1..]) == multiset(Without(ys, k))
  {
    assert xs[0] in multiset(ys);
    k :| 0 <= k < |ys| && ys[k] == xs[0];
    WithoutOne(ys, k);
    assert xs == [xs[0]] + xs[1..];
    assert multiset(xs[1..]) == multiset(xs) - multiset{xs[0]};
  }

  /** A sum depends only on which elements occur how often. */
  lemma {:induction false} SumIntPermutation<T>(f: T -> int, xs: seq<T>, ys: seq<T>)
    requires multiset(xs) == multiset(ys)
    ensures SumInt(f, xs) == SumInt(f, ys)
  {
    if xs == [] {
      assert |multiset(ys)| == 0;
    } else {
      var k := FirstIsAt(xs, ys);
      SumIntPermutation(f, xs[1..], Without(ys, k));
      assert ys == ys[..k] + ([xs[0]] + ys[k + 1..]);
      SumIntAppend(f, ys[..k], ys[k + 1..]);
      SumIntAppend(f, ys[..k], [xs[0]] + ys[k + 1..]);
      SumIntAppend(f, [xs[0]], ys[k + 1..]);
    }
  }

  lemma {:induction false} MapPermutation<T, U>(f: T -> U, xs: seq<T>, ys: seq<T>)
    requires multiset(xs) == multiset(ys)
    ensures multiset(Map(f, xs)) == multiset(Map(f, ys))
  {
    if xs == [] {
      assert |multiset(ys)| == 0;
    } else {
      var k := FirstIsAt(xs, ys);
      MapPermutation(f, xs[1..], Without(ys, k));
      MapWithout(f, ys, k);
      WithoutOne(Map(f, ys), k);
      assert Map(f, xs) == [f(xs[0])] + Map(f, xs[1..]);
    }
  }

  /** A permutation of a mapped list is a mapped permutation of the list. */
  lemma {:induction false} PermutationLifts<T, U>(f: T -> U, ys: seq<U>, rows: seq<T>) returns (xs: seq<T>)
    requires multiset(ys) == multiset(Map(f, rows))
    ensures multiset(xs) == multiset(rows) && Map(f, xs) == ys
    decreases |ys|
  {
    if ys == [] {
      assert |multiset(Map(f, rows))| == 0;
      xs := [];
    } else {
      var k := FirstIsAt(ys, Map(f, rows));
      MapWithout(f, rows, k);
      var rest := PermutationLifts(f, ys[1..], Without(rows, k));
      xs := [rows[k]] + rest;
      WithoutOne(rows, k);
    }
  }
}
