/**
  Order-preserving selection over sequences. The scraper selects in three
  places (blank CIK lines, excluded form codes, filings since the cutoff) and
  strips hyphens from accession numbers; all four are this one filter.
  Both functions recurse on the last element, so appending to the input
  appends to the output by definition, as a loop that appends does.
 */
module Seqs {

  datatype Option<+T> = None | Some(value: T) {
    function GetOr(default: T): T {
      match this
      case Some(v) => v
      case None => default
    }
  }

  datatype Result<+T, +E> = Ok(value: T) | Err(error: E)

  /** The elements of `s` that satisfy `p`, in their original order. */
  function Filter<T(!new)>(s: seq<T>, p: T -> bool): (r: seq<T>)
    ensures |r| <= |s|
    ensures forall x :: x in r <==> x in s && p(x)
  {
    if |s| == 0 then []
    else
      var last := s[|s| - 1];
      Filter(s[..|s| - 1], p) + (if p(last) then [last] else [])
  }

  /** The positions of `s` whose element satisfies `p`, in increasing order. */
  function KeptIndices<T>(s: seq<T>, p: T -> bool): (r: seq<nat>)
    ensures forall k :: 0 <= k < |r| ==> r[k] < |s|
  {
    if |s| == 0 then []
    else KeptIndices(s[..|s| - 1], p) + (if p(s[|s| - 1]) then [|s| - 1] else [])
  }

  ghost predicate StrictlyIncreasing(r: seq<nat>) {
    forall k, l :: 0 <= k < l < |r| ==> r[k] < r[l]
  }

  /** The filter and the kept positions grow together, one step at a time. */
  lemma FilterSnoc<T(!new)>(s: seq<T>, p: T -> bool)
    requires |s| > 0
    ensures Filter(s, p) == Filter(s[..|s| - 1], p) + (if p(s[|s| - 1]) then [s[|s| - 1]] else [])
    ensures KeptIndices(s, p) == KeptIndices(s[..|s| - 1], p) + (if p(s[|s| - 1]) then [|s| - 1] else [])
  {
  }

  lemma {:induction false} FilterLength<T(!new)>(s: seq<T>, p: T -> bool)
    ensures |Filter(s, p)| == |KeptIndices(s, p)|
  {
    if |s| > 0 {
      FilterLength(s[..|s| - 1], p);
      FilterSnoc(s, p);
    }
  }

  lemma {:induction false} KeptIndicesIncrease<T>(s: seq<T>, p: T -> bool)
    ensures StrictlyIncreasing(KeptIndices(s, p))
  {
    if |s| > 0 {
      var init := s[..|s| - 1];
      KeptIndicesIncrease(init, p);
      var ks, K := KeptIndices(init, p), KeptIndices(s, p);
      assert K == ks + (if p(s[|s| - 1]) then [|s| - 1] else []);
      forall k, l | 0 <= k < l < |K| ensures K[k] < K[l] {
        if l == |ks| {
          assert K[k] == ks[k] < |init|;
        } else {
          assert K[k] == ks[k] && K[l] == ks[l];
        }
      }
    }
  }

  lemma {:induction false} FilterElements<T(!new)>(s: seq<T>, p: T -> bool)
    ensures forall k :: 0 <= k < |KeptIndices(s, p)| && k < |Filter(s, p)| ==>
      Filter(s, p)[k] == s[KeptIndices(s, p)[k]]
  {
    if |s| > 0 {
      var init := s[..|s| - 1];
      FilterElements(init, p);
      FilterLength(init, p);
      FilterSnoc(s, p);
      var fs, ks := Filter(init, p), KeptIndices(init, p);
      var F, K := Filter(s, p), KeptIndices(s, p);
      forall k | 0 <= k < |K| && k < |F| ensures F[k] == s[K[k]] {
        if k < |ks| {
          assert F[k] == fs[k] == init[ks[k]];
        }
      }
    }
  }

  lemma {:induction false} KeptIndicesMembership<T>(s: seq<T>, p: T -> bool)
    ensures forall j :: 0 <= j < |s| ==> (p(s[j]) <==> j in KeptIndices(s, p))
  {
    if |s| > 0 {
      var init := s[..|s| - 1];
      KeptIndicesMembership(init, p);
      var ks, K := KeptIndices(init, p), KeptIndices(s, p);
      assert K == ks + (if p(s[|s| - 1]) then [|s| - 1] else []);
      forall j | 0 <= j < |s| ensures p(s[j]) <==> j in K {
        if j < |init| {
          assert s[j] == init[j];
          assert j in K <==> j in ks;
        } else {
          assert |s| - 1 !in ks;
        }
      }
    }
  }

  /**
    The filter keeps exactly the positions that satisfy `p`, each once, in
    their original order: its k-th element is the element at the k-th kept
    position.
   */
  lemma FilterIndices<T(!new)>(s: seq<T>, p: T -> bool)
    ensures |Filter(s, p)| == |KeptIndices(s, p)|
    ensures StrictlyIncreasing(KeptIndices(s, p))
    ensures forall k :: 0 <= k < |KeptIndices(s, p)| ==>
      Filter(s, p)[k] == s[KeptIndices(s, p)[k]]
    ensures forall j :: 0 <= j < |s| ==> (p(s[j]) <==> j in KeptIndices(s, p))
  {
    FilterLength(s, p);
    KeptIndicesIncrease(s, p);
    FilterElements(s, p);
    KeptIndicesMembership(s, p);
  }

  /** Filtering a concatenation filters each part. */
  lemma {:induction false} FilterAppend<T(!new)>(a: seq<T>, b: seq<T>, p: T -> bool)
    ensures Filter(a + b, p) == Filter(a, p) + Filter(b, p)
  {
    if |b| == 0 {
      assert a + b == a;
    } else {
      var b', last := b[..|b| - 1], b[|b| - 1];
      var tail := if p(last) then [last] else [];
      calc {
        Filter(a + b, p);
      == { assert (a + b)[..|a + b| - 1] == a + b';
           assert (a + b)[|a + b| - 1] == last;
           FilterSnoc(a + b, p); }
        Filter(a + b', p) + tail;
      == { FilterAppend(a, b', p); }
        Filter(a, p) + Filter(b', p) + tail;
      == { FilterSnoc(b, p); }
        Filter(a, p) + Filter(b, p);
      }
    }
  }

  /** A second pass of the same filter removes nothing more. */
  lemma {:induction false} FilterIdempotent<T(!new)>(s: seq<T>, p: T -> bool)
    ensures Filter(Filter(s, p), p) == Filter(s, p)
  {
    if |s| > 0 {
      var last := s[|s| - 1];
      FilterIdempotent(s[..|s| - 1], p);
      FilterAppend(Filter(s[..|s| - 1], p), if p(last) then [last] else [], p);
      if p(last) {
        assert Filter([last], p) == Filter([], p) + [last];
      }
    }
  }

  /** Duplicates survive: every kept value occurs as often as before, every dropped one never. */
  lemma {:induction false} FilterMultiplicity<T(!new)>(s: seq<T>, p: T -> bool, x: T)
    ensures multiset(Filter(s, p))[x] == if p(x) then multiset(s)[x] else 0
  {
    if |s| > 0 {
      var init, last := s[..|s| - 1], s[|s| - 1];
      FilterMultiplicity(init, p, x);
      FilterSnoc(s, p);
      assert s == init + [last];
    }
  }
}
