/** Shared vocabulary of the gaming-data monitor: optional values, calendar
    dates as day numbers, sums of amounts, and the two orders the reports use
    (code-point order on brand names, descending order on dates). */
module Basics {

  datatype Option<+T> = None | Some(value: T)

  /** A calendar date, as a day number: consecutive days differ by one. */
  type Date = int

  function Abs(x: real): (r: real)
    ensures r >= 0.0 && (r == x || r == -x)
  {
    if x < 0.0 then -x else x
  }

  /** Sum of a sequence of amounts, first to last. */
  function Sum(xs: seq<real>): real
  {
    if xs == [] then 0.0 else xs[0] + Sum(xs[1..])
  }

  lemma {:induction false} SumAppend(xs: seq<real>, ys: seq<real>)
    ensures Sum(xs + ys) == Sum(xs) + Sum(ys)
  {
    if xs == [] {
      assert xs + ys == ys;
    } else {
      assert (xs + ys)[1..] == xs[1..] + ys;
      SumAppend(xs[1..], ys);
    }
  }

  /** Python's comparison of two `str` values: code point by code point,
      a proper prefix coming first. */
  predicate StrLess(a: string, b: string)
  {
    if |a| == 0 then |b| > 0
    else if |b| == 0 then false
    else a[0] < b[0] || (a[0] == b[0] && StrLess(a[1..], b[1..]))
  }

  lemma {:induction false} StrLessIrreflexive(a: string)
    ensures !StrLess(a, a)
  {
    if |a| > 0 {
      StrLessIrreflexive(a[1..]);
    }
  }

  lemma {:induction false} StrLessTransitive(a: string, b: string, c: string)
    requires StrLess(a, b) && StrLess(b, c)
    ensures StrLess(a, c)
  {
    if |a| > 0 && |b| > 0 && |c| > 0 && a[0] == b[0] && b[0] == c[0] {
      StrLessTransitive(a[1..], b[1..], c[1..]);
    }
  }

  lemma {:induction false} StrLessTotal(a: string, b: string)
    ensures a == b || StrLess(a, b) || StrLess(b, a)
  {
    if |a| > 0 && |b| > 0 && a[0] == b[0] {
      StrLessTotal(a[1..], b[1..]);
      if a[1..] == b[1..] {
        assert a == [a[0]] + a[1..] && b == [b[0]] + b[1..];
      }
    }
  }

  /** No element occurs twice. */
  ghost predicate Distinct<T>(xs: seq<T>)
  {
    forall i, j :: 0 <= i < j < |xs| ==> xs[i] != xs[j]
  }

  lemma IncreasingIsDistinct(xs: seq<string>)
    requires StrictlyIncreasing(xs)
    ensures Distinct(xs)
  {
    forall i, j | 0 <= i < j < |xs| ensures xs[i] != xs[j] {
      StrLessIrreflexive(xs[i]);
    }
  }

  /** Brand names in strictly increasing code-point order (so without repeats). */
  ghost predicate StrictlyIncreasing(xs: seq<string>)
  {
    forall i, j :: 0 <= i < j < |xs| ==> StrLess(xs[i], xs[j])
  }

  /** Dates in strictly decreasing order (most recent first, no repeats). */
  ghost predicate StrictlyDescending(ds: seq<Date>)
  {
    forall i, j :: 0 <= i < j < |ds| ==> ds[i] > ds[j]
  }

  /** Inserts a brand name into a strictly increasing list, keeping it so. */
  function InsertName(xs: seq<string>, x: string): (r: seq<string>)
    requires StrictlyIncreasing(xs)
    ensures StrictlyIncreasing(r)
    ensures forall y :: y in r <==> y in xs || y == x
  {
    if xs == [] then [x]
    else if x == xs[0] then xs
    else if StrLess(x, xs[0]) then
      assert forall j :: 0 < j < |xs| ==> StrLess(x, xs[j]) by {
        forall j | 0 < j < |xs| ensures StrLess(x, xs[j]) {
          StrLessTransitive(x, xs[0], xs[j]);
        }
      }
      [x] + xs
    else
      StrLessTotal(x, xs[0]);
      var rest := InsertName(xs[1..], x);
      assert forall y :: y in rest ==> StrLess(xs[0], y) by {
        forall y | y in rest ensures StrLess(xs[0], y) {
          if y != x {
            var j :| 0 <= j < |xs[1..]| && xs[1..][j] == y;
            assert xs[j + 1] == y;
          }
        }
      }
      [xs[0]] + rest
  }

  /** A date later than every date of a descending list can head it. */
  lemma ConsDescending(d: Date, ds: seq<Date>)
    requires StrictlyDescending(ds) && forall e :: e in ds ==> d > e
    ensures StrictlyDescending([d] + ds)
  {
    var r := [d] + ds;
    forall i, j | 0 <= i < j < |r| ensures r[i] > r[j] {
      assert r[j] == ds[j - 1] && ds[j - 1] in ds;
      if 0 < i {
        assert r[i] == ds[i - 1];
      }
    }
  }

  /** Inserts a date into a strictly descending list, keeping it so. */
  function InsertDate(ds: seq<Date>, d: Date): (r: seq<Date>)
    requires StrictlyDescending(ds)
    ensures StrictlyDescending(r)
    ensures forall e :: e in r <==> e in ds || e == d
  {
    if ds == [] then [d]
    else if d == ds[0] then ds
    else if d > ds[0] then [d] + ds
    else
      var rest := InsertDate(ds[1..], d);
      assert forall e :: e in ds[1..] ==> ds[0] > e by {
        forall e | e in ds[1..] ensures ds[0] > e {
          var j :| 0 <= j < |ds[1..]| && ds[1..][j] == e;
          assert ds[j + 1] == e;
        }
      }
      assert ds == [ds[0]] + ds[1..];
      ConsDescending(ds[0], rest);
      [ds[0]] + rest
  }

  lemma AppendAssoc<T>(a: seq<T>, b: seq<T>, c: seq<T>)
    ensures (a + b) + c == a + (b + c)
  {
  }

  lemma DistinctAppend<T>(xs: seq<T>, x: T)
    requires Distinct(xs) && x !in xs
    ensures Distinct(xs + [x])
  {
    forall i, j | 0 <= i < j < |xs + [x]| ensures (xs + [x])[i] != (xs + [x])[j] {
      assert (xs + [x])[i] == xs[i];
      if j == |xs| {
        assert xs[i] in xs;
      } else {
        assert (xs + [x])[j] == xs[j];
      }
    }
  }

  /** A duplicate-free sequence splits into a duplicate-free front and a last
      element that does not occur in it. */
  lemma DistinctSplit<T>(xs: seq<T>)
    requires Distinct(xs) && xs != []
    ensures Distinct(xs[..|xs| - 1]) && xs[|xs| - 1] !in xs[..|xs| - 1]
  {
    var front := xs[..|xs| - 1];
    forall i | 0 <= i < |front| ensures front[i] != xs[|xs| - 1] {
      assert front[i] == xs[i];
    }
    forall i, j | 0 <= i < j < |front| ensures front[i] != front[j] {
      assert front[i] == xs[i] && front[j] == xs[j];
    }
  }

  /** An element is in a non-empty sequence iff it is in its front or is
      its last element. */
  lemma InFrontOrLast<T>(xs: seq<T>, x: T)
    requires xs != []
    ensures x in xs <==> x in xs[..|xs| - 1] || x == xs[|xs| - 1]
  {
    assert xs == xs[..|xs| - 1] + [xs[|xs| - 1]];
  }

  /** `f` applied to each element, in order. */
  function Map<A, B>(f: A -> B, xs: seq<A>): (ys: seq<B>)
    ensures |ys| == |xs|
  {
    if xs == [] then [] else Map(f, xs[..|xs| - 1]) + [f(xs[|xs| - 1])]
  }

  lemma {:induction false} MapAt<A, B>(f: A -> B, xs: seq<A>, k: nat)
    requires k < |xs|
    ensures Map(f, xs)[k] == f(xs[k])
  {
    var front := xs[..|xs| - 1];
    if k < |front| {
      MapAt(f, front, k);
      assert front[k] == xs[k];
    }
  }

  lemma MapPrefix<A, B>(f: A -> B, xs: seq<A>, i: nat)
    requires i < |xs|
    ensures Map(f, xs[..i + 1]) == Map(f, xs[..i]) + [f(xs[i])]
  {
    assert xs[..i + 1][..i] == xs[..i];
  }

  lemma MapWhole<A, B>(f: A -> B, xs: seq<A>)
    ensures Map(f, xs[..|xs|]) == Map(f, xs)
  {
    assert xs[..|xs|] == xs;
  }
}
