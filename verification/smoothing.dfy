/** The score smoother: a bounded FIFO of the most recent classifier scores whose
    arithmetic mean is the smoothed confidence. */
module Smoothing {

  /** LinkedList.pollFirst: drop the oldest score; an empty list stays empty. */
  function PollFirst(q: seq<real>): (r: seq<real>)
    ensures q != [] ==> r == q[1..]
    ensures q == [] ==> r == []
  {
    if q == [] then q else q[1..]
  }

  /** The last n elements of s. */
  function Latest(s: seq<real>, n: nat): seq<real>
    requires n <= |s|
  {
    s[|s| - n..]
  }

  function Min(a: nat, b: nat): nat { if a <= b then a else b }

  /** addScore: when the queue is full, evict the oldest score; then append. */
  function PushScore(q: seq<real>, score: real, maxScores: nat): (r: seq<real>)
    ensures |q| <= maxScores && maxScores >= 1 ==> |r| == Min(maxScores, |q| + 1)
    ensures 1 <= |r| <= |q| + 1 && r == Latest(q + [score], |r|)
  {
    (if |q| == maxScores then PollFirst(q) else q) + [score]
  }

  /** The queue after pushing a stream of scores, oldest first. */
  function PushAll(q: seq<real>, scores: seq<real>, maxScores: nat): seq<real>
    decreases |scores|
  {
    if scores == [] then q else PushAll(PushScore(q, scores[0], maxScores), scores[1..], maxScores)
  }

  /** Keeping the latest a of s and then the latest m of that followed by t is
      keeping the latest m of s followed by t. */
  lemma LatestOfLatest(s: seq<real>, t: seq<real>, a: nat, m: nat)
    requires a <= |s| && m <= a + |t|
    ensures Latest(Latest(s, a) + t, m) == Latest(s + t, m)
  {
    assert Latest(s, a) + t == (s + t)[|s| - a..];
  }

  /** One push followed by the rest of the stream keeps the same latest scores as
      the stream appended to the queue. */
  lemma PushStep(q: seq<real>, scores: seq<real>, maxScores: nat)
    requires 1 <= maxScores && |q| <= maxScores && scores != []
    ensures Min(maxScores, |PushScore(q, scores[0], maxScores)| + |scores| - 1) == Min(maxScores, |q| + |scores|)
    ensures Latest(PushScore(q, scores[0], maxScores) + scores[1..], Min(maxScores, |q| + |scores|))
      == Latest(q + scores, Min(maxScores, |q| + |scores|))
  {
    LatestOfLatest(q + [scores[0]], scores[1..], |PushScore(q, scores[0], maxScores)|, Min(maxScores, |q| + |scores|));
    AppendFirst(q, scores);
  }

  /** Appending the first element and then the rest is appending the whole. */
  lemma AppendFirst(q: seq<real>, s: seq<real>)
    requires s != []
    ensures q + [s[0]] + s[1..] == q + s
  {
    assert [s[0]] + s[1..] == s;
  }

  /** Whatever the stream, the queue holds exactly the min(maxScores, all) most
      recent scores, in arrival order. */
  lemma {:induction false} PushAllKeepsLatest(q: seq<real>, scores: seq<real>, maxScores: nat)
    requires 1 <= maxScores && |q| <= maxScores
    ensures |q| + |scores| >= Min(maxScores, |q| + |scores|)
    ensures PushAll(q, scores, maxScores) == Latest(q + scores, Min(maxScores, |q| + |scores|))
    decreases |scores|
  {
    if scores != [] {
      PushAllKeepsLatest(PushScore(q, scores[0], maxScores), scores[1..], maxScores);
      PushStep(q, scores, maxScores);
    }
  }

  /** Starting from an empty queue, the queue holds the min(maxScores, all) most
      recent scores of the stream. */
  lemma PushAllFromEmptyKeepsLatest(scores: seq<real>, maxScores: nat)
    requires 1 <= maxScores
    ensures Min(maxScores, |scores|) <= |scores|
    ensures PushAll([], scores, maxScores) == Latest(scores, Min(maxScores, |scores|))
  {
    PushAllKeepsLatest([], scores, maxScores);
    assert [] + scores == scores;
  }

  /** Sum of the scores, added oldest first as Iterable.average does. */
  function Sum(q: seq<real>): real
  {
    if q == [] then 0.0 else Sum(q[..|q| - 1]) + q[|q| - 1]
  }

  /** Iterable.average on a non-empty queue. */
  function Mean(q: seq<real>): real
    requires q != []
  {
    Sum(q) / (|q| as real)
  }

  lemma {:induction false} SumWithin(q: seq<real>, lo: real, hi: real)
    requires forall i :: 0 <= i < |q| ==> lo <= q[i] <= hi
    ensures (|q| as real) * lo <= Sum(q) <= (|q| as real) * hi
  {
    if q != [] {
      SumWithin(q[..|q| - 1], lo, hi);
    }
  }

  /** The smoothed confidence lies between the smallest and largest bound of the
      scores it averages. */
  lemma MeanWithin(q: seq<real>, lo: real, hi: real)
    requires q != []
    requires forall i :: 0 <= i < |q| ==> lo <= q[i] <= hi
    ensures lo <= Mean(q) <= hi
  {
    SumWithin(q, lo, hi);
    var n := |q| as real;
    assert Sum(q) == Mean(q) * n;
  }

  /** With a queue of one score, the smoothed confidence is the last score. */
  lemma MeanOfSingleQueue(q: seq<real>, score: real)
    requires |q| <= 1
    ensures PushScore(q, score, 1) == [score]
    ensures Mean(PushScore(q, score, 1)) == score
  {
    assert Sum([score]) == Sum([]) + score;
  }

  /** Adding the scores up to index k is adding those before it and then s[k - 1]. */
  lemma SumPrefix(s: seq<real>, k: nat)
    requires 1 <= k <= |s|
    ensures Sum(s[..k]) == Sum(s[..k - 1]) + s[k - 1]
  {
    assert s[..k][..k - 1] == s[..k - 1];
  }

  lemma ExampleSum(s: seq<real>)
    requires s == [0.1, 0.2, 0.3, 0.4, 0.5, 0.6, 0.7]
    ensures Sum(s) == 2.8
  {
    assert s[..0] == [];
    SumPrefix(s, 1);
    SumPrefix(s, 2);
    SumPrefix(s, 3);
    SumPrefix(s, 4);
    SumPrefix(s, 5);
    SumPrefix(s, 6);
    SumPrefix(s, 7);
    assert s[..7] == s;
  }

  lemma ExampleMean(s: seq<real>)
    requires s == [0.1, 0.2, 0.3, 0.4, 0.5, 0.6, 0.7]
    ensures Mean(s) == 0.4
  {
    ExampleSum(s);
    assert |s| == 7;
  }

  /** Up to maxScores pushes into an empty queue keep every score. */
  lemma PushAllFromEmpty(s: seq<real>, maxScores: nat)
    requires 1 <= maxScores && |s| <= maxScores
    ensures PushAll([], s, maxScores) == s
  {
    PushAllKeepsLatest([], s, maxScores);
    assert [] + s == s;
  }

  /** Seven pushes of 0.1, 0.2, ..., 0.7 into a seven-score queue keep all seven,
      and they average 0.4. */
  lemma SevenScoresAverage(s: seq<real>)
    requires s == [0.1, 0.2, 0.3, 0.4, 0.5, 0.6, 0.7]
    ensures PushAll([], s, 7) == s
    ensures Mean(PushAll([], s, 7)) == 0.4
  {
    PushAllFromEmpty(s, 7);
    ExampleMean(s);
  }
}
