/** Generic facts about sequences: subsequences, counting the positions that hold
    `true`, and filtering by a test (`[x for x in xs if keep(x)]`). */
module Sequences {

  /** Adding an index beyond a set of smaller ones, or not, grows the count by one,
      or not: the step of `CountTrue`. */
  lemma CountStep(found: set<int>, last: int, here: bool)
    requires forall k :: k in found ==> k < last
    ensures |found + (if here then {last} else {})| == |found| + (if here then 1 else 0)
  {
    if here {
      assert last !in found;
    } else {
      assert found + {} == found;
    }
  }

  /** The number of positions of `flags` that hold `true`. */
  function CountTrue(flags: seq<bool>): (n: nat)
    ensures n == |set i | 0 <= i < |flags| && flags[i]|
    ensures n <= |flags|
    ensures n == 0 <==> forall i :: 0 <= i < |flags| ==> !flags[i]
  {
    if |flags| == 0 then 0
    else
      var init := flags[..|flags| - 1];
      var last := |flags| - 1;
      var m := CountTrue(init);
      var found := set i | 0 <= i < |init| && init[i];
      assert (set i | 0 <= i < |flags| && flags[i]) == found + (if flags[last] then {last} else {});
      CountStep(found, last, flags[last]);
      m + (if flags[last] then 1 else 0)
  }

  /** The head and the tail of `[h] + d`. */
  lemma ConsParts<T>(h: T, d: seq<T>)
    ensures ([h] + d)[0] == h && ([h] + d)[1..] == d
  {
  }

  lemma TakeDrop<T>(s: seq<T>, n: nat)
    requires n <= |s|
    ensures s[..n] + s[n..] == s
  {
  }

  /** Slicing `a + u` at a position inside `a`. */
  lemma SliceAppend<T>(a: seq<T>, u: seq<T>, n: nat)
    requires n <= |a|
    ensures (a + u)[..n] == a[..n] && (a + u)[n..] == a[n..] + u
  {
  }

  lemma SliceOfSuffix<T>(s: seq<T>, i: nat, m: nat)
    requires i + m <= |s|
    ensures s[i..][..m] == s[i..i + m]
  {
  }

  lemma SubsliceOfSuffix<T>(s: seq<T>, i: nat, a: nat, b: nat)
    requires a <= b && i + b <= |s|
    ensures s[i..][a..b] == s[i + a..i + b]
  {
  }

  lemma AppendAssoc<T>(a: seq<T>, b: seq<T>, c: seq<T>)
    ensures a + (b + c) == (a + b) + c
  {
  }

  /** `xs` is `ys` with some elements left out, the rest in their order. */
  predicate IsSubsequence<T(==)>(xs: seq<T>, ys: seq<T>)
    decreases |ys|
  {
    if |xs| == 0 then true
    else if |ys| == 0 then false
    else if xs[0] == ys[0] then IsSubsequence(xs[1..], ys[1..])
    else IsSubsequence(xs, ys[1..])
  }

  lemma {:induction false} SubsequenceOfPrefix<T>(xs: seq<T>, ys: seq<T>, n: nat)
    requires IsSubsequence(xs, ys)
    ensures IsSubsequence(xs[..if n < |xs| then n else |xs|], ys)
    decreases |ys|
  {
    var m := if n < |xs| then n else |xs|;
    if m > 0 && |ys| > 0 {
      if xs[0] == ys[0] {
        SubsequenceOfPrefix(xs[1..], ys[1..], n - 1);
        assert xs[..m][1..] == xs[1..][..m - 1];
      } else {
        SubsequenceOfPrefix(xs, ys[1..], n);
      }
    }
  }

  /** Appending an element to the longer sequence keeps a subsequence one, whether
      or not the element is also appended to the shorter. */
  lemma {:induction false} SubsequenceSnoc<T>(xs: seq<T>, ys: seq<T>, x: T, keep: bool)
    requires IsSubsequence(xs, ys)
    ensures IsSubsequence(if keep then xs + [x] else xs, ys + [x])
    decreases |ys|
  {
    if |ys| == 0 {
      assert |xs| == 0;
      if keep {
        assert [] + [x] == [x] && [] + [x] == [x];
      }
    } else {
      var xs' := if keep then xs + [x] else xs;
      assert (ys + [x])[0] == ys[0] && (ys + [x])[1..] == ys[1..] + [x];
      if |xs| == 0 {
        if keep {
          if x != ys[0] {
            SubsequenceSnoc(xs, ys[1..], x, keep);
          } else {
            assert xs'[1..] == [];
          }
        }
      } else if xs[0] == ys[0] {
        SubsequenceSnoc(xs[1..], ys[1..], x, keep);
        assert xs'[0] == xs[0];
        assert xs'[1..] == if keep then xs[1..] + [x] else xs[1..];
      } else {
        SubsequenceSnoc(xs, ys[1..], x, keep);
        assert xs'[0] == xs[0];
      }
    }
  }

  /** The list comprehension `[x for x in xs if keep(x)]`: the elements of `xs` that
      satisfy `keep`, in their order; `FilterIsSubsequence` and `FilterCount` say
      that none is lost. */
  function Filter<T(==)>(xs: seq<T>, keep: T -> bool): (r: seq<T>)
    ensures forall i :: 0 <= i < |r| ==> keep(r[i]) && r[i] in xs
    ensures forall i :: 0 <= i < |xs| && keep(xs[i]) ==> xs[i] in r
    ensures (forall i :: 0 <= i < |xs| ==> keep(xs[i])) ==> r == xs
  {
    if |xs| == 0 then []
    else
      var init := xs[..|xs| - 1];
      var x := xs[|xs| - 1];
      assert xs == init + [x];
      if keep(x) then Filter(init, keep) + [x] else Filter(init, keep)
  }

  /** The filtered elements are a subsequence of the input. */
  lemma {:induction false} FilterIsSubsequence<T>(xs: seq<T>, keep: T -> bool)
    ensures IsSubsequence(Filter(xs, keep), xs)
    decreases |xs|
  {
    if |xs| > 0 {
      var init := xs[..|xs| - 1];
      var x := xs[|xs| - 1];
      FilterIsSubsequence(init, keep);
      SubsequenceSnoc(Filter(init, keep), init, x, keep(x));
      assert xs == init + [x];
    }
  }

  /** Whether each element of `xs` satisfies `keep`, position by position. */
  function Marks<T>(xs: seq<T>, keep: T -> bool): (m: seq<bool>)
    ensures |m| == |xs|
    ensures forall i :: 0 <= i < |xs| ==> m[i] == keep(xs[i])
  {
    seq(|xs|, i requires 0 <= i < |xs| => keep(xs[i]))
  }

  lemma {:induction false} FilterCountMarks<T>(xs: seq<T>, keep: T -> bool)
    ensures |Filter(xs, keep)| == CountTrue(Marks(xs, keep))
    decreases |xs|
  {
    if |xs| > 0 {
      var init := xs[..|xs| - 1];
      FilterCountMarks(init, keep);
      assert Marks(xs, keep)[..|xs| - 1] == Marks(init, keep);
    }
  }

  /** Counting distributes over concatenation. */
  lemma {:induction false} CountTrueAppend(a: seq<bool>, b: seq<bool>)
    ensures CountTrue(a + b) == CountTrue(a) + CountTrue(b)
    decreases |b|
  {
    if |b| == 0 {
      assert a + b == a;
    } else {
      var init := b[..|b| - 1];
      CountTrueAppend(a, init);
      assert (a + b)[..|a + b| - 1] == a + init;
    }
  }

  /** The number of positions of `xs` whose element satisfies `p`. */
  function CountWhere<T>(xs: seq<T>, p: T -> bool): nat {
    |set i | 0 <= i < |xs| && p(xs[i])|
  }

  /** Two sequences of one length whose elements agree position by position on `p` and
      `q` have as many positions satisfying each. */
  lemma CountWhereSame<T, U>(xs: seq<T>, p: T -> bool, ys: seq<U>, q: U -> bool)
    requires |xs| == |ys|
    requires forall i :: 0 <= i < |xs| ==> p(xs[i]) == q(ys[i])
    ensures CountWhere(xs, p) == CountWhere(ys, q)
  {
    assert (set i | 0 <= i < |xs| && p(xs[i])) == (set i | 0 <= i < |ys| && q(ys[i]));
  }

  /** As many elements are kept as there are positions whose element satisfies `keep`. */
  lemma FilterCount<T>(xs: seq<T>, keep: T -> bool)
    ensures |Filter(xs, keep)| == CountWhere(xs, keep)
  {
    FilterCountMarks(xs, keep);
    var m := Marks(xs, keep);
    assert (set i | 0 <= i < |m| && m[i]) == (set i | 0 <= i < |xs| && keep(xs[i]));
  }

  lemma FilterOne<T>(x: T, keep: T -> bool)
    ensures Filter([x], keep) == if keep(x) then [x] else []
  {
    assert [x][..0] == [];
  }

  /** Filtering distributes over concatenation. */
  lemma {:induction false} FilterAppend<T>(a: seq<T>, b: seq<T>, keep: T -> bool)
    ensures Filter(a + b, keep) == Filter(a, keep) + Filter(b, keep)
    decreases |b|
  {
    if |b| == 0 {
      assert a + b == a;
    } else {
      var init := b[..|b| - 1];
      FilterAppend(a, init, keep);
      assert (a + b)[..|a + b| - 1] == a + init;
      assert (a + b)[|a + b| - 1] == b[|b| - 1];
    }
  }

  /** Filtering twice keeps what satisfies both tests. */
  lemma {:induction false} FilterTwice<T>(xs: seq<T>, p: T -> bool, q: T -> bool, both: T -> bool)
    requires forall x :: both(x) == (p(x) && q(x))
    ensures Filter(Filter(xs, p), q) == Filter(xs, both)
    decreases |xs|
  {
    if |xs| > 0 {
      var init := xs[..|xs| - 1];
      var x := xs[|xs| - 1];
      FilterTwice(init, p, q, both);
      var m := Filter(init, p);
      if p(x) {
        assert Filter(xs, p) == m + [x];
        assert (m + [x])[..|m + [x]| - 1] == m;
        assert (m + [x])[|m + [x]| - 1] == x;
      }
    }
  }
}
