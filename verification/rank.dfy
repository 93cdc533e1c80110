/**
 * The relevance function `make_rank_func(weights)` returns (`rank`), which SQLite
 * calls with the FTS4 `matchinfo` statistics of one matched row. The statistics
 * arrive here already decoded into naturals; arithmetic is over `real`.
 *
 * `rank` drops the first two values, groups the rest into consecutive triples
 * (a trailing partial triple is dropped by `zip(it, it, it)`), pairs the triples
 * with the weights (`zip` stops at the shorter) and sums `t0 * w / t1` over the
 * pairs whose `t1` is non-zero.
 */
module Rank {

  /** One `matchinfo` triple, named by its position: `x[0]`, `x[1]`, `x[2]`. */
  datatype Triple = Triple(first: nat, second: nat, third: nat)

  /** The weights the plugin registers `rank` with: `(1., .1, 0, 0)`. */
  const DefaultWeights: seq<real> := [1.0, 0.1, 0.0, 0.0]

  /** `matchinfo[2:]`. */
  function Body(matchinfo: seq<nat>): seq<nat>
  {
    if |matchinfo| < 2 then [] else matchinfo[2..]
  }

  /** `zip(it, it, it)` over one iterator: consecutive full triples. */
  function Triples(s: seq<nat>): (ts: seq<Triple>)
    ensures |ts| == |s| / 3
  {
    if |s| < 3 then [] else [Triple(s[0], s[1], s[2])] + Triples(s[3..])
  }

  /** `zip(triples, weights)`: pairs up to the shorter of the two. */
  function Zip(ts: seq<Triple>, ws: seq<real>): seq<(Triple, real)>
  {
    if ts == [] || ws == [] then [] else [(ts[0], ws[0])] + Zip(ts[1..], ws[1..])
  }

  /** What one triple adds with weight `w`: `x[0] * w / x[1]`, or nothing when `x[1]` is 0 (the `if x[1]` filter). */
  function Term(hits: nat, divisor: nat, w: real): real
  {
    if divisor == 0 then 0.0 else (hits as real) * w / (divisor as real)
  }

  /** `sum(x[0]*w/x[1] for x, w in pairs if x[1])`. */
  function SumTerms(pairs: seq<(Triple, real)>): real
  {
    if pairs == [] then 0.0
    else
      var (x, w) := pairs[0];
      Term(x.first, x.second, w) + SumTerms(pairs[1..])
  }

  /** The score `rank(matchinfo)` returns for `make_rank_func(weights)`. */
  function Rank(matchinfo: seq<nat>, weights: seq<real>): real
  {
    SumTerms(Zip(Triples(Body(matchinfo)), weights))
  }

  // ---------------------------------------------------------------------------
  // The closed formula, stated on positions of the flat statistics.

  /** The number of full triples after the two leading values. */
  function TripleCount(matchinfo: seq<nat>): nat
  {
    if |matchinfo| < 2 then 0 else (|matchinfo| - 2) / 3
  }

  /** The number of positions that are scored: min(#triples, #weights). */
  function Positions(matchinfo: seq<nat>, weights: seq<real>): nat
  {
    if TripleCount(matchinfo) < |weights| then TripleCount(matchinfo) else |weights|
  }

  /** What position `i` adds: `matchinfo[2+3i] * w[i] / matchinfo[3+3i]`, or nothing when the divisor is 0. */
  function Contribution(matchinfo: seq<nat>, weights: seq<real>, i: nat): real
    requires i < Positions(matchinfo, weights)
  {
    Term(matchinfo[2 + 3 * i], matchinfo[3 + 3 * i], weights[i])
  }

  /** The sum of the contributions of positions `lo` up to (not including) `hi`. */
  function SumContributions(matchinfo: seq<nat>, weights: seq<real>, lo: nat, hi: nat): real
    requires lo <= hi <= Positions(matchinfo, weights)
    decreases hi - lo
  {
    if lo == hi then 0.0
    else Contribution(matchinfo, weights, lo) + SumContributions(matchinfo, weights, lo + 1, hi)
  }

  lemma {:induction false} TriplesShape(s: seq<nat>)
    ensures |Triples(s)| == |s| / 3
    ensures forall k :: 0 <= k < |s| / 3 ==> Triples(s)[k] == Triple(s[3 * k], s[3 * k + 1], s[3 * k + 2])
    decreases |s|
  {
    if |s| >= 3 {
      var tail := s[3..];
      TriplesShape(tail);
      assert |tail| / 3 == |s| / 3 - 1;
      forall k | 0 <= k < |s| / 3
        ensures Triples(s)[k] == Triple(s[3 * k], s[3 * k + 1], s[3 * k + 2])
      {
        if k > 0 {
          var j := k - 1;
          assert Triples(s)[k] == Triples(tail)[j];
          assert 3 * j + 3 == 3 * k;
          assert tail[3 * j] == s[3 * k] && tail[3 * j + 1] == s[3 * k + 1] && tail[3 * j + 2] == s[3 * k + 2];
        }
      }
    }
  }

  lemma {:induction false} SumTermsFrom(matchinfo: seq<nat>, weights: seq<real>, lo: nat)
    requires lo <= Positions(matchinfo, weights)
    ensures SumTerms(Zip(Triples(Body(matchinfo))[lo..], weights[lo..]))
         == SumContributions(matchinfo, weights, lo, Positions(matchinfo, weights))
    decreases Positions(matchinfo, weights) - lo
  {
    var ts := Triples(Body(matchinfo));
    TriplesShape(Body(matchinfo));
    assert |ts| == TripleCount(matchinfo);
    var n := Positions(matchinfo, weights);
    if lo == n {
      assert ts[lo..] == [] || weights[lo..] == [];
    } else {
      assert ts[lo..][1..] == ts[lo + 1..];
      assert weights[lo..][1..] == weights[lo + 1..];
      assert ts[lo] == Triple(matchinfo[2 + 3 * lo], matchinfo[3 + 3 * lo], matchinfo[4 + 3 * lo]);
      SumTermsFrom(matchinfo, weights, lo + 1);
    }
  }

  /**
   * The score is the sum, over the first min(#triples, #weights) positions, of
   * `hits * weight / divisor`, where a zero divisor contributes nothing.
   */
  lemma RankFormula(matchinfo: seq<nat>, weights: seq<real>)
    ensures Rank(matchinfo, weights) == SumContributions(matchinfo, weights, 0, Positions(matchinfo, weights))
  {
    SumTermsFrom(matchinfo, weights, 0);
    assert Triples(Body(matchinfo))[0..] == Triples(Body(matchinfo));
    assert weights[0..] == weights;
  }

  /** Two statistics/weights pairs that agree on every scored position give the same sum. */
  lemma {:induction false} SumContributionsAgree(m1: seq<nat>, w1: seq<real>, m2: seq<nat>, w2: seq<real>, lo: nat, hi: nat)
    requires lo <= hi <= Positions(m1, w1) && hi <= Positions(m2, w2)
    requires forall i :: lo <= i < hi ==> m1[2 + 3 * i] == m2[2 + 3 * i] && m1[3 + 3 * i] == m2[3 + 3 * i] && w1[i] == w2[i]
    ensures SumContributions(m1, w1, lo, hi) == SumContributions(m2, w2, lo, hi)
    decreases hi - lo
  {
    if lo < hi {
      SumContributionsAgree(m1, w1, m2, w2, lo + 1, hi);
    }
  }

  /** A trailing group of fewer than three values never changes the score. */
  lemma RankIgnoresPartialTriple(matchinfo: seq<nat>, weights: seq<real>, extra: seq<nat>)
    requires |matchinfo| >= 2 && (|matchinfo| - 2) % 3 == 0
    requires |extra| < 3
    ensures Rank(matchinfo + extra, weights) == Rank(matchinfo, weights)
  {
    var longer := matchinfo + extra;
    assert TripleCount(longer) == TripleCount(matchinfo);
    RankFormula(matchinfo, weights);
    RankFormula(longer, weights);
    SumContributionsAgree(longer, weights, matchinfo, weights, 0, Positions(matchinfo, weights));
  }

  /** Once every weight has a triple, further triples do not affect the score. */
  lemma RankIgnoresTriplesBeyondWeights(matchinfo: seq<nat>, weights: seq<real>, more: seq<nat>)
    requires TripleCount(matchinfo) >= |weights|
    ensures Rank(matchinfo + more, weights) == Rank(matchinfo, weights)
  {
    var longer := matchinfo + more;
    assert TripleCount(longer) >= TripleCount(matchinfo);
    RankFormula(matchinfo, weights);
    RankFormula(longer, weights);
    SumContributionsAgree(longer, weights, matchinfo, weights, 0, |weights|);
  }

  /** The two leading values are never read. */
  lemma RankIgnoresHeader(body: seq<nat>, a: nat, b: nat, c: nat, d: nat, weights: seq<real>)
    ensures Rank([a, b] + body, weights) == Rank([c, d] + body, weights)
  {
    assert Body([a, b] + body) == body;
    assert Body([c, d] + body) == body;
  }

  lemma {:induction false} SumContributionsNonNegative(matchinfo: seq<nat>, weights: seq<real>, lo: nat, hi: nat)
    requires lo <= hi <= Positions(matchinfo, weights)
    requires forall i :: 0 <= i < |weights| ==> weights[i] >= 0.0
    ensures SumContributions(matchinfo, weights, lo, hi) >= 0.0
    decreases hi - lo
  {
    if lo < hi {
      SumContributionsNonNegative(matchinfo, weights, lo + 1, hi);
    }
  }

  /** Non-negative weights give a non-negative score. */
  lemma RankNonNegative(matchinfo: seq<nat>, weights: seq<real>)
    requires forall i :: 0 <= i < |weights| ==> weights[i] >= 0.0
    ensures Rank(matchinfo, weights) >= 0.0
  {
    RankFormula(matchinfo, weights);
    SumContributionsNonNegative(matchinfo, weights, 0, Positions(matchinfo, weights));
  }

  /** What triple `i` adds with weight `w`, or nothing when there is no such triple or its divisor is 0. */
  function Weighted(matchinfo: seq<nat>, i: nat, w: real): real
  {
    if i >= TripleCount(matchinfo) then 0.0 else Term(matchinfo[2 + 3 * i], matchinfo[3 + 3 * i], w)
  }

  /** With the plugin's weights only the first two triples count: the first at full weight, the second at a tenth. */
  lemma DefaultRankUsesFirstTwoTriples(matchinfo: seq<nat>)
    ensures Rank(matchinfo, DefaultWeights) == Weighted(matchinfo, 0, 1.0) + Weighted(matchinfo, 1, 0.1)
  {
    var w := DefaultWeights;
    var n := Positions(matchinfo, w);
    RankFormula(matchinfo, w);
    if n >= 3 {
      assert SumContributions(matchinfo, w, 2, n) == 0.0 by {
        if n == 4 {
          assert SumContributions(matchinfo, w, 3, 4) == 0.0;
        }
      }
    }
  }

  /** One triple (5, 10, 2) with weight 1: the divisor is the second value, so the score is 5/10. */
  lemma RankExample()
    ensures Rank([0, 0, 5, 10, 2], [1.0]) == 0.5
  {
    RankFormula([0, 0, 5, 10, 2], [1.0]);
  }
}
