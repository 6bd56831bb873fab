/**
 * The quality-aware consensus vote of `determine_cons`: every base call of
 * quality above 2 adds the probability that it is right to its base's score;
 * the best-scoring of A, C, G, T wins unless the runner-up is within 1e-6
 * of it, in which case the vote is `N`.
 *
 * The probability that a call of quality q is right, `1 - 10^(-q/10)`, is a
 * parameter `weight` here: every property below holds for any weight.
 */
module Vote {
  import opened Text
  import opened Evidence

  /** The bases that take part in the vote, in the order of the score vector; `N` does not. */
  const VoteBases: seq<char> := ['A', 'C', 'G', 'T']

  /** Scores closer than this are a tie. */
  const Epsilon: real := 0.000001

  /** One quality's contribution: `count * weight(q)`, nothing at quality 2 or below. */
  function ScoreTerm(h: Hist, q: int, weight: int -> real): real
  {
    if q <= 2 then 0.0 else Get(h, q) as real * weight(q)
  }

  /** The score contributions of the qualities in `keys`. */
  ghost function ScoreOver(h: Hist, keys: set<int>, weight: int -> real): real
    decreases keys
  {
    if keys == {} then 0.0
    else
      NonEmpty(keys);
      var q :| q in keys;
      ScoreTerm(h, q, weight) + ScoreOver(h, keys - {q}, weight)
  }

  /** A score may be split at any of its qualities. */
  lemma {:induction false} ScoreOverSplit(h: Hist, keys: set<int>, weight: int -> real, p: int)
    requires p in keys
    ensures ScoreOver(h, keys, weight) == ScoreTerm(h, p, weight) + ScoreOver(h, keys - {p}, weight)
    decreases keys
  {
    var q :| q in keys && ScoreOver(h, keys, weight) == ScoreTerm(h, q, weight) + ScoreOver(h, keys - {q}, weight);
    if q != p {
      ScoreOverSplit(h, keys - {q}, weight, p);
      ScoreOverSplit(h, keys - {p}, weight, q);
      assert keys - {q} - {p} == keys - {p} - {q};
    }
  }

  /** One recorded quality's contribution, as the vote adds it up. */
  lemma ScoreTermIn(h: Hist, q: int, weight: int -> real)
    requires q in h
    ensures ScoreTerm(h, q, weight) == if q <= 2 then 0.0 else h[q] as real * weight(q)
  {
  }

  /** One quality's contribution depends only on its count and its weight. */
  lemma ScoreTermFrame(h: Hist, h': Hist, q: int, weight: int -> real, weight': int -> real)
    requires q > 2 ==> Get(h, q) == Get(h', q) && weight(q) == weight'(q)
    ensures ScoreTerm(h, q, weight) == ScoreTerm(h', q, weight')
  {
    if q > 2 {
      var n, x := Get(h, q), weight(q);
      assert ScoreTerm(h, q, weight) == n as real * x;
      assert ScoreTerm(h', q, weight') == n as real * x;
    }
  }

  /** A score depends only on the counts and weights above quality 2 at the qualities it ranges over. */
  lemma {:induction false} ScoreOverFrame(h: Hist, h': Hist, keys: set<int>, weight: int -> real, weight': int -> real)
    requires forall q :: q in keys && q > 2 ==> Get(h, q) == Get(h', q) && weight(q) == weight'(q)
    ensures ScoreOver(h, keys, weight) == ScoreOver(h', keys, weight')
    decreases keys
  {
    if keys != {} {
      NonEmpty(keys);
      var q :| q in keys;
      ScoreOverSplit(h, keys, weight, q);
      ScoreOverSplit(h', keys, weight', q);
      ScoreTermFrame(h, h', q, weight, weight');
      ScoreOverFrame(h, h', keys - {q}, weight, weight');
    }
  }

  /** Qualities absent from the histogram contribute nothing. */
  lemma {:induction false} ScoreOverRestrict(h: Hist, keys: set<int>, weight: int -> real)
    ensures ScoreOver(h, keys, weight) == ScoreOver(h, keys * h.Keys, weight)
    decreases keys
  {
    if keys != {} {
      NonEmpty(keys);
      var q :| q in keys;
      ScoreOverSplit(h, keys, weight, q);
      ScoreOverRestrict(h, keys - {q}, weight);
      if q in h {
        ScoreOverSplit(h, keys * h.Keys, weight, q);
        assert (keys - {q}) * h.Keys == keys * h.Keys - {q};
      } else {
        assert (keys - {q}) * h.Keys == keys * h.Keys;
      }
    }
  }

  /** `probsum` of one base: its histogram's contributions over all its qualities. */
  ghost function Score(h: Hist, weight: int -> real): real
  {
    ScoreOver(h, h.Keys, weight)
  }

  /**
   * Two histograms with the same counts above quality 2 score the same, and
   * so do two weights that agree above quality 2: qualities 0 to 2 take no
   * part in the vote.
   */
  lemma ScoreIgnoresLowQualities(h: Hist, h': Hist, weight: int -> real, weight': int -> real)
    requires forall q :: q > 2 ==> Get(h, q) == Get(h', q) && weight(q) == weight'(q)
    ensures Score(h, weight) == Score(h', weight')
  {
    var all := h.Keys + h'.Keys;
    ScoreOverRestrict(h, all, weight);
    assert all * h.Keys == h.Keys;
    ScoreOverFrame(h, h', all, weight, weight');
    ScoreOverRestrict(h', all, weight');
    assert all * h'.Keys == h'.Keys;
  }

  /** The score vector of A, C, G, T over a strand-collapsed store. */
  ghost function Scores(hists: Evidence, weight: int -> real): (s: seq<real>)
    requires hists.Keys == UpperKeys
    ensures |s| == |VoteBases|
    ensures forall k :: 0 <= k < |s| ==> s[k] == Score(hists[VoteBases[k]], weight)
  {
    seq(|VoteBases|, k requires 0 <= k < |VoteBases| => Score(hists[VoteBases[k]], weight))
  }

  /** The position of a largest score (the last one, on ties). */
  function MaxIndex(s: seq<real>): (k: nat)
    requires |s| > 0
    ensures k < |s|
    ensures forall j :: 0 <= j < |s| ==> s[j] <= s[k]
    decreases |s|
  {
    if |s| == 1 then 0
    else
      var k := MaxIndex(s[..|s| - 1]);
      assert forall j :: 0 <= j < |s| - 1 ==> s[..|s| - 1][j] == s[j];
      if s[|s| - 1] >= s[k] then |s| - 1 else k
  }

  /** The largest score at any position other than `top`: the second entry from the end once sorted. */
  function RunnerUp(s: seq<real>, top: nat): (v: real)
    requires 2 <= |s| && top < |s|
    ensures exists j :: 0 <= j < |s| && j != top && v == s[j]
    ensures forall j :: 0 <= j < |s| && j != top ==> s[j] <= v
  {
    var rest := s[..top] + s[top + 1..];
    var k := MaxIndex(rest);
    assert forall j :: 0 <= j < top ==> rest[j] == s[j];
    assert forall j :: top < j < |s| ==> rest[j - 1] == s[j];
    if k < top then
      assert rest[k] == s[k];
      rest[k]
    else
      assert rest[k] == s[k + 1];
      rest[k]
  }

  /**
   * The vote over the score vector: `N` when the best score leads the
   * runner-up by less than `Epsilon`, else the best-scoring base.
   */
  function Pick(s: seq<real>): (c: char)
    requires |s| == |VoteBases|
  {
    var top := MaxIndex(s);
    if s[top] - RunnerUp(s, top) < Epsilon then 'N' else VoteBases[top]
  }

  /** Base `k`'s score leads every other base's by at least `Epsilon`. */
  predicate Leads(s: seq<real>, k: int)
  {
    0 <= k < |s| && forall j :: 0 <= j < |s| && j != k ==> s[k] - s[j] >= Epsilon
  }

  /**
   * The vote names a base exactly when that base leads all others by at
   * least `Epsilon`, and then it names that base; otherwise it is `N`. The
   * winner does not depend on the order in which the scores are sorted.
   */
  lemma PickLeader(s: seq<real>)
    requires |s| == |VoteBases|
    ensures Pick(s) != 'N' <==> exists k :: Leads(s, k)
    ensures forall k :: Leads(s, k) ==> Pick(s) == VoteBases[k]
    ensures Pick(s) in ValidBases && Pick(s) != '-'
  {
    var top := MaxIndex(s);
    var v := RunnerUp(s, top);
    if s[top] - v >= Epsilon {
      assert Leads(s, top);
    }
    forall k | Leads(s, k)
      ensures k == top && s[top] - v >= Epsilon
    {
      var j :| 0 <= j < |s| && j != top && v == s[j];
      assert s[k] - s[j] >= Epsilon;
    }
  }

  /**
   * `determine_cons`: the vote over the strand-collapsed store, `N`
   * excluded from the candidates.
   */
  ghost function Consensus(ev: Evidence, weight: int -> real): (c: char)
    requires ev.Keys == TenKeys
  {
    Pick(Scores(Collapse(ev), weight))
  }

  /**
   * The consensus is `N` or the one base whose score leads all others by
   * `Epsilon`; it is never a gap.
   */
  lemma ConsensusLeader(ev: Evidence, weight: int -> real)
    requires ev.Keys == TenKeys
    ensures var s := Scores(Collapse(ev), weight);
      && (Consensus(ev, weight) != 'N' <==> exists k :: Leads(s, k))
      && (forall k :: Leads(s, k) ==> Consensus(ev, weight) == VoteBases[k])
    ensures Consensus(ev, weight) in ValidBases && Consensus(ev, weight) != '-'
  {
    PickLeader(Scores(Collapse(ev), weight));
  }

  /**
   * Calls of quality 2 or below, and the weight given to them, never change
   * the consensus; nor does the strand a call came from.
   */
  lemma ConsensusIgnoresLowQualities(ev: Evidence, ev': Evidence, weight: int -> real, weight': int -> real)
    requires ev.Keys == TenKeys && ev'.Keys == TenKeys
    requires forall b :: b in UpperKeys ==> forall q :: q > 2 ==>
      Get(ev[b], q) + Get(ev[LowerChar(b)], q) == Get(ev'[b], q) + Get(ev'[LowerChar(b)], q)
    requires forall q :: q > 2 ==> weight(q) == weight'(q)
    ensures Consensus(ev, weight) == Consensus(ev', weight')
  {
    var c, c' := Collapse(ev), Collapse(ev');
    forall k | 0 <= k < |VoteBases|
      ensures Scores(c, weight)[k] == Scores(c', weight')[k]
    {
      CollapsedScoreAgrees(ev, ev', VoteBases[k], weight, weight');
    }
    assert Scores(c, weight) == Scores(c', weight');
  }

  /** One base's score over the strand-collapsed store sees only its calls above quality 2. */
  lemma CollapsedScoreAgrees(ev: Evidence, ev': Evidence, b: char, weight: int -> real, weight': int -> real)
    requires ev.Keys == TenKeys && ev'.Keys == TenKeys && b in UpperKeys
    requires forall q :: q > 2 ==> Get(ev[b], q) + Get(ev[LowerChar(b)], q) == Get(ev'[b], q) + Get(ev'[LowerChar(b)], q)
    requires forall q :: q > 2 ==> weight(q) == weight'(q)
    ensures Score(Collapse(ev)[b], weight) == Score(Collapse(ev')[b], weight')
  {
    ScoreIgnoresLowQualities(Collapse(ev)[b], Collapse(ev')[b], weight, weight');
  }

  /** An empty column has no leader: its consensus is `N`, whatever the weight. */
  lemma EmptyColumnConsensus(weight: int -> real)
    ensures Consensus(EmptyEvidence, weight) == 'N'
  {
    var c := Collapse(EmptyEvidence);
    var s := Scores(c, weight);
    forall k | 0 <= k < |VoteBases|
      ensures s[k] == 0.0
    {
      assert c[VoteBases[k]] == map[];
    }
    PickLeader(s);
    assert !Leads(s, MaxIndex(s)) by {
      var j := if MaxIndex(s) == 0 then 1 else 0;
      assert s[MaxIndex(s)] - s[j] == 0.0;
    }
  }
}
