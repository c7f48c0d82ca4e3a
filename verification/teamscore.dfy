/**
 The team-score loop of the playground: every individual score strictly
 above 50 is worth 3 points to the team, every other score 1 point.
 */
module Scores {

  /** The threshold a score must strictly exceed to be worth 3 points. */
  const Threshold: int := 50

  /** Points one individual score adds to the team score. */
  function Points(score: int): int {
    if score > Threshold then 3 else 1
  }

  /** The fold `for score in scores { if score > 50 { teamScore += 3 } else { teamScore += 1 } }`
      starting from `teamScore == 0`. */
  function TeamScore(scores: seq<int>): (total: int)
    ensures |scores| <= total <= 3 * |scores|
    decreases |scores|
  {
    if |scores| == 0 then 0
    else TeamScore(scores[..|scores| - 1]) + Points(scores[|scores| - 1])
  }

  /** The number of scores strictly above `threshold`, counted front to back. */
  function CountAbove(threshold: int, scores: seq<int>): (n: nat)
    ensures n <= |scores|
    decreases |scores|
  {
    if |scores| == 0 then 0
    else (if scores[0] > threshold then 1 else 0) + CountAbove(threshold, scores[1..])
  }

  /** Appending one score adds one to the count exactly when it is above the threshold. */
  lemma {:induction false} CountAboveSnoc(threshold: int, scores: seq<int>, x: int)
    ensures CountAbove(threshold, scores + [x]) == CountAbove(threshold, scores) + (if x > threshold then 1 else 0)
    decreases |scores|
  {
    if |scores| == 0 {
      assert [] + [x] == [x];
    } else {
      assert (scores + [x])[1..] == scores[1..] + [x];
      CountAboveSnoc(threshold, scores[1..], x);
    }
  }

  /** Closed form: one point per score plus two more per score above 50. */
  lemma {:induction false} TeamScoreClosedForm(scores: seq<int>)
    ensures TeamScore(scores) == |scores| + 2 * CountAbove(Threshold, scores)
    decreases |scores|
  {
    if |scores| > 0 {
      var prefix := scores[..|scores| - 1];
      var last := scores[|scores| - 1];
      assert scores == prefix + [last];
      TeamScoreClosedForm(prefix);
      CountAboveSnoc(Threshold, prefix, last);
    }
  }

  /** The team score is |scores| exactly when no score is above 50, and
      3 * |scores| exactly when every score is. */
  lemma {:induction false} TeamScoreExtremes(scores: seq<int>)
    ensures TeamScore(scores) == |scores| <==> forall i :: 0 <= i < |scores| ==> scores[i] <= Threshold
    ensures TeamScore(scores) == 3 * |scores| <==> forall i :: 0 <= i < |scores| ==> scores[i] > Threshold
    decreases |scores|
  {
    if |scores| > 0 {
      var prefix := scores[..|scores| - 1];
      TeamScoreExtremes(prefix);
      assert forall i :: 0 <= i < |prefix| ==> prefix[i] == scores[i];
    }
  }

  /** The imperative loop of lines 39-47. */
  method ComputeTeamScore(individualScores: seq<int>) returns (teamScore: int)
    ensures teamScore == TeamScore(individualScores)
    ensures teamScore == |individualScores| + 2 * CountAbove(Threshold, individualScores)
  {
    teamScore := 0;
    var i := 0;
    while i < |individualScores|
      invariant 0 <= i <= |individualScores|
      invariant teamScore == TeamScore(individualScores[..i])
    {
      assert individualScores[..i + 1][..i] == individualScores[..i];
      var score := individualScores[i];
      if score > Threshold {
        teamScore := teamScore + 3;
      } else {
        teamScore := teamScore + 1;
      }
      i := i + 1;
    }
    assert individualScores[..i] == individualScores;
    TeamScoreClosedForm(individualScores);
  }

  /** The playground's scores give a team score of 11. */
  lemma PlaygroundTeamScore()
    ensures TeamScore([75, 43, 103, 87, 12]) == 11
  {
    assert [75][..0] == [];
    assert TeamScore([75]) == 3;
    assert [75, 43][..1] == [75];
    assert TeamScore([75, 43]) == 4;
    assert [75, 43, 103][..2] == [75, 43];
    assert TeamScore([75, 43, 103]) == 7;
    assert [75, 43, 103, 87][..3] == [75, 43, 103];
    assert TeamScore([75, 43, 103, 87]) == 10;
    assert [75, 43, 103, 87, 12][..4] == [75, 43, 103, 87];
  }
}
