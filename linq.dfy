/**
 * The LINQ operators the query engine is built from, on finite sequences:
 * `Where`, `Select`, `Sum`, and the subsequence relation that filtering keeps.
 * `SelectMany` is specific to each level of the hierarchy and lives with the
 * pipeline.
 */
module Linq {

  /** `xs.Where(p)`: the elements satisfying `p`, in their original order. */
  function Where<T(!new)>(xs: seq<T>, p: T -> bool): (r: seq<T>)
    ensures |r| <= |xs|
    ensures forall x :: x in r <==> x in xs && p(x)
    ensures forall i :: 0 <= i < |r| ==> p(r[i])
  {
    if xs == [] then []
    else (if p(xs[0]) then [xs[0]] else []) + Where(xs[1..], p)
  }

  /** `xs.Select(f)`: `f` applied to every element, in order. */
  function Select<A, B>(xs: seq<A>, f: A -> B): (r: seq<B>)
    ensures |r| == |xs|
    ensures forall i :: 0 <= i < |xs| ==> r[i] == f(xs[i])
  {
    if xs == [] then [] else [f(xs[0])] + Select(xs[1..], f)
  }

  /** `xs.Sum()`: 0 for the empty sequence. */
  function Sum(xs: seq<int>): int {
    if xs == [] then 0 else xs[0] + Sum(xs[1..])
  }

  /** The conjunction of two predicates: two `Where` calls in a row. */
  function And<T>(p: T -> bool, q: T -> bool): T -> bool {
    x => p(x) && q(x)
  }

  /** `a` is obtained from `b` by deleting elements. */
  ghost predicate IsSubsequence<T>(a: seq<T>, b: seq<T>)
    decreases |b|
  {
    if b == [] then a == []
    else (a != [] && a[0] == b[0] && IsSubsequence(a[1..], b[1..])) || IsSubsequence(a, b[1..])
  }

  lemma {:induction false} WhereConcat<T(!new)>(a: seq<T>, b: seq<T>, p: T -> bool)
    ensures Where(a + b, p) == Where(a, p) + Where(b, p)
  {
    if a == [] {
      assert a + b == b;
    } else {
      assert (a + b)[1..] == a[1..] + b;
      WhereConcat(a[1..], b, p);
    }
  }

  lemma {:induction false} SelectConcat<A, B>(a: seq<A>, b: seq<A>, f: A -> B)
    ensures Select(a + b, f) == Select(a, f) + Select(b, f)
  {
    if a == [] {
      assert a + b == b;
    } else {
      assert (a + b)[1..] == a[1..] + b;
      SelectConcat(a[1..], b, f);
    }
  }

  lemma {:induction false} SumConcat(a: seq<int>, b: seq<int>)
    ensures Sum(a + b) == Sum(a) + Sum(b)
  {
    if a == [] {
      assert a + b == b;
    } else {
      assert (a + b)[1..] == a[1..] + b;
      SumConcat(a[1..], b);
    }
  }

  lemma SumSelectConcat<A>(a: seq<A>, b: seq<A>, f: A -> int)
    ensures Sum(Select(a + b, f)) == Sum(Select(a, f)) + Sum(Select(b, f))
  {
    SelectConcat(a, b, f);
    SumConcat(Select(a, f), Select(b, f));
  }

  /** Dropping elements that contribute 0 leaves a sum unchanged. */
  lemma {:induction false} SumWithoutZeros<A(!new)>(xs: seq<A>, p: A -> bool, f: A -> int)
    requires forall x :: x in xs && !p(x) ==> f(x) == 0
    ensures Sum(Select(Where(xs, p), f)) == Sum(Select(xs, f))
  {
    if xs != [] {
      SumWithoutZeros(xs[1..], p, f);
      var h := if p(xs[0]) then [xs[0]] else [];
      SumSelectConcat(h, Where(xs[1..], p), f);
      if p(xs[0]) {
        assert Select(h, f) == [f(xs[0])];
        assert [f(xs[0])][1..] == [];
      }
    }
  }

  /** A filter that every element passes changes nothing. */
  lemma {:induction false} WhereAll<T(!new)>(xs: seq<T>, p: T -> bool)
    requires forall x :: x in xs ==> p(x)
    ensures Where(xs, p) == xs
  {
    if xs != [] {
      WhereAll(xs[1..], p);
    }
  }

  /** A filter that no element passes leaves nothing. */
  lemma {:induction false} WhereNone<T(!new)>(xs: seq<T>, p: T -> bool)
    requires forall x :: x in xs ==> !p(x)
    ensures Where(xs, p) == []
  {
    if xs != [] {
      WhereNone(xs[1..], p);
    }
  }

  /** Filters that agree on every element give the same result. */
  lemma {:induction false} WhereCongruent<T(!new)>(xs: seq<T>, p: T -> bool, q: T -> bool)
    requires forall x :: x in xs ==> p(x) == q(x)
    ensures Where(xs, p) == Where(xs, q)
  {
    if xs != [] {
      WhereCongruent(xs[1..], p, q);
    }
  }

  /** Two `Where` calls in a row filter by the conjunction. */
  lemma {:induction false} WhereWhere<T(!new)>(xs: seq<T>, p: T -> bool, q: T -> bool)
    ensures Where(Where(xs, p), q) == Where(xs, And(p, q))
  {
    if xs != [] {
      WhereWhere(xs[1..], p, q);
      var h := if p(xs[0]) then [xs[0]] else [];
      WhereConcat(h, Where(xs[1..], p), q);
    }
  }

  lemma {:induction false} SubsequenceEmpty<T>(b: seq<T>)
    ensures IsSubsequence([], b)
  {
    if b != [] {
      SubsequenceEmpty(b[1..]);
    }
  }

  lemma {:induction false} SubsequenceReflexive<T>(a: seq<T>)
    ensures IsSubsequence(a, a)
  {
    if a != [] {
      SubsequenceReflexive(a[1..]);
    }
  }

  lemma {:induction false} SubsequenceConcat<T>(a1: seq<T>, b1: seq<T>, a2: seq<T>, b2: seq<T>)
    requires IsSubsequence(a1, b1) && IsSubsequence(a2, b2)
    ensures IsSubsequence(a1 + a2, b1 + b2)
    decreases |b1|
  {
    if b1 == [] {
      assert a1 + a2 == a2 && b1 + b2 == b2;
    } else {
      assert (b1 + b2)[1..] == b1[1..] + b2;
      if a1 != [] && a1[0] == b1[0] && IsSubsequence(a1[1..], b1[1..]) {
        SubsequenceConcat(a1[1..], b1[1..], a2, b2);
        assert (a1 + a2)[1..] == a1[1..] + a2;
      } else {
        SubsequenceConcat(a1, b1[1..], a2, b2);
      }
    }
  }

  lemma {:induction false} SubsequenceTransitive<T>(a: seq<T>, b: seq<T>, c: seq<T>)
    requires IsSubsequence(a, b) && IsSubsequence(b, c)
    ensures IsSubsequence(a, c)
    decreases |c|
  {
    if c != [] {
      if IsSubsequence(b, c[1..]) {
        SubsequenceTransitive(a, b, c[1..]);
      } else {
        assert b != [] && b[0] == c[0] && IsSubsequence(b[1..], c[1..]);
        if a != [] && a[0] == b[0] && IsSubsequence(a[1..], b[1..]) {
          SubsequenceTransitive(a[1..], b[1..], c[1..]);
        } else {
          SubsequenceTransitive(a, b[1..], c[1..]);
        }
      }
    }
  }

  /** Filtering only deletes elements. */
  lemma {:induction false} WhereIsSubsequence<T(!new)>(xs: seq<T>, p: T -> bool)
    ensures IsSubsequence(Where(xs, p), xs)
  {
    if xs != [] {
      WhereIsSubsequence(xs[1..], p);
      if p(xs[0]) {
        assert Where(xs, p)[1..] == Where(xs[1..], p);
      } else {
        assert Where(xs, p) == Where(xs[1..], p);
      }
    }
  }

  /** A filter that lets fewer elements through keeps a subsequence of the other's output. */
  lemma {:induction false} WhereStronger<T(!new)>(xs: seq<T>, p: T -> bool, q: T -> bool)
    requires forall x :: x in xs && p(x) ==> q(x)
    ensures IsSubsequence(Where(xs, p), Where(xs, q))
  {
    if xs != [] {
      WhereStronger(xs[1..], p, q);
      var hp := if p(xs[0]) then [xs[0]] else [];
      var hq := if q(xs[0]) then [xs[0]] else [];
      if p(xs[0]) {
        SubsequenceReflexive(hp);
      } else {
        SubsequenceEmpty(hq);
      }
      SubsequenceConcat(hp, hq, Where(xs[1..], p), Where(xs[1..], q));
    }
  }

  /** A prefix step `h` that both sides share, or that only the right side has, keeps a subsequence. */
  lemma SubsequenceStep<T>(h: seq<T>, a: seq<T>, b: seq<T>, shared: bool)
    requires IsSubsequence(a, b)
    ensures IsSubsequence((if shared then h else []) + a, h + b)
  {
    if shared {
      SubsequenceReflexive(h);
      SubsequenceConcat(h, h, a, b);
    } else {
      SubsequenceEmpty(h);
      SubsequenceConcat([], h, a, b);
      assert [] + a == a;
    }
  }

  /** `Where` keeps the subsequence relation. */
  lemma {:induction false} WhereMonotone<T(!new)>(a: seq<T>, b: seq<T>, p: T -> bool)
    requires IsSubsequence(a, b)
    ensures IsSubsequence(Where(a, p), Where(b, p))
    decreases |b|
  {
    if b != [] {
      var h := if p(b[0]) then [b[0]] else [];
      if a != [] && a[0] == b[0] && IsSubsequence(a[1..], b[1..]) {
        WhereMonotone(a[1..], b[1..], p);
        SubsequenceStep(h, Where(a[1..], p), Where(b[1..], p), true);
      } else {
        WhereMonotone(a, b[1..], p);
        SubsequenceStep(h, Where(a, p), Where(b[1..], p), false);
        assert [] + Where(a, p) == Where(a, p);
      }
    }
  }

  /** `Select` keeps the subsequence relation. */
  lemma {:induction false} SelectMonotone<A, B>(a: seq<A>, b: seq<A>, f: A -> B)
    requires IsSubsequence(a, b)
    ensures IsSubsequence(Select(a, f), Select(b, f))
    decreases |b|
  {
    if b != [] {
      if a != [] && a[0] == b[0] && IsSubsequence(a[1..], b[1..]) {
        SelectMonotone(a[1..], b[1..], f);
        SubsequenceStep([f(b[0])], Select(a[1..], f), Select(b[1..], f), true);
      } else {
        SelectMonotone(a, b[1..], f);
        SubsequenceStep([f(b[0])], Select(a, f), Select(b[1..], f), false);
        assert [] + Select(a, f) == Select(a, f);
      }
    }
  }
}
