/** The answer choices of `_createAnswers`: the correct value, decoys drawn near it until
    enough distinct ones exist, a shuffle, and the index where the correct value landed. */
module Answers {
  import opened Wrappers
  import opened Draws

  /** `answerDifference`: decoys are drawn from a window of this half-width. */
  const AnswerDifference: int := 20

  predicate AllDraws(draws: seq<real>) { forall i :: 0 <= i < |draws| ==> IsDraw(draws[i]) }

  predicate Distinct(s: seq<real>) { forall i, j :: 0 <= i < j < |s| ==> s[i] != s[j] }

  /** Where a decoy can land: an integer in the half-open window of width 40 below
      `correct + 20`. */
  predicate InDecoyRange(correct: real, v: real) {
    && v == v.Floor as real
    && correct - (AnswerDifference as real) - 1.0 < v
    && v < correct + AnswerDifference as real
  }

  /** `_generateRandomAnswer(correct, diff)`:
      `Math.floor(Math.random() * (correct + diff - (correct - diff)) + (correct - diff))`. */
  function GenerateRandomAnswer(correct: real, diff: int, r: real): (a: int)
    requires IsDraw(r) && 0 < diff
    ensures correct - (diff as real) - 1.0 < a as real < correct + diff as real
    ensures correct == correct.Floor as real ==> correct.Floor - diff <= a < correct.Floor + diff
  {
    var width := (correct + diff as real) - (correct - diff as real);
    var offset := r * width;
    ScaledDraw(r, width);
    var x := offset + (correct - diff as real);
    assert x.Floor as real <= x < x.Floor as real + 1.0;
    x.Floor
  }

  /** A draw scaled by a positive width stays below the width. */
  lemma ScaledDraw(r: real, width: real)
    requires IsDraw(r) && 0.0 < width
    ensures 0.0 <= r * width < width
  {
    assert r * width <= 1.0 * width;
    assert r * width != width;
  }

  /** The retry loop of `_createAnswers` as a function of the draws it is given: from
      draw `d` on, each draw proposes `GenerateRandomAnswer(correct, 20, draw)`, which is
      kept when it is not yet among the answers. None when the draws run out before
      `missing` more answers were found. */
  function Fill(acc: seq<real>, correct: real, draws: seq<real>, d: nat, missing: nat)
    : (r: Option<seq<real>>)
    requires AllDraws(draws)
    ensures r.Some? ==> |r.value| == |acc| + missing && r.value[..|acc|] == acc
    ensures r.Some? && Distinct(acc) ==> Distinct(r.value)
    ensures r.Some? ==> forall i :: |acc| <= i < |r.value| ==> InDecoyRange(correct, r.value[i])
    decreases |draws| - d
  {
    if missing == 0 then Some(acc)
    else if d >= |draws| then None
    else
      var proposal := GenerateRandomAnswer(correct, AnswerDifference, draws[d]) as real;
      if proposal in acc then Fill(acc, correct, draws, d + 1, missing)
      else
        var r := Fill(acc + [proposal], correct, draws, d + 1, missing - 1);
        assert r.Some? ==> r.value[..|acc|] == (acc + [proposal])[..|acc|];
        r
  }

  /** A shuffle order for `n` answers: position `j` of the shuffled list holds the
      answer that was at `p[j]`. */
  predicate IsPermutation(p: seq<int>, n: int) {
    && |p| == n
    && (forall j :: 0 <= j < n ==> 0 <= p[j] < n)
    && (forall i, j :: 0 <= i < j < n ==> p[i] != p[j])
    && (forall k :: 0 <= k < n ==> k in p)
  }

  function Permute(s: seq<real>, p: seq<int>): (r: seq<real>)
    requires IsPermutation(p, |s|)
    ensures |r| == |s| && forall j :: 0 <= j < |s| ==> r[j] == s[p[j]]
    ensures forall v :: v in r <==> v in s
    ensures Distinct(s) ==> Distinct(r)
  {
    var r := seq(|s|, j requires 0 <= j < |s| => s[p[j]]);
    forall v | v in s
      ensures v in r
    {
      var k :| 0 <= k < |s| && s[k] == v;
      assert k in p;
      var j :| 0 <= j < |p| && p[j] == k;
      assert r[j] == v;
    }
    r
  }

  /** `Array.prototype.indexOf`: the first position holding `x`, or -1. */
  function IndexOf(s: seq<real>, x: real): (i: int)
    ensures -1 <= i < |s|
    ensures i == -1 <==> x !in s
    ensures 0 <= i ==> s[i] == x && x !in s[..i]
  {
    if s == [] then -1
    else if s[0] == x then 0
    else
      var k := IndexOf(s[1..], x);
      if k == -1 then -1
      else
        assert s[..k + 1] == [s[0]] + s[1..][..k];
        k + 1
  }

  /** What the environment must supply for one call of `CreateAnswers`: random numbers
      in [0, 1) with which the retry loop finishes, and a shuffle order. */
  predicate DrawsFit(correct: real, n: int, draws: seq<real>, shuffle: seq<int>) {
    && 1 <= n
    && AllDraws(draws)
    && Fill([correct], correct, draws, 0, n - 1).Some?
    && IsPermutation(shuffle, n)
  }

  /** `_createAnswers` without its DOM part: `n` pairwise distinct answers, one of them
      `correct` at `correctIndex` and every other one a decoy near it. */
  method CreateAnswers(correct: real, n: int, draws: seq<real>, shuffle: seq<int>)
    returns (answers: seq<real>, correctIndex: int)
    requires DrawsFit(correct, n, draws, shuffle)
    ensures |answers| == n && Distinct(answers)
    ensures 0 <= correctIndex < n && answers[correctIndex] == correct
    ensures forall j :: 0 <= j < n && j != correctIndex ==> InDecoyRange(correct, answers[j])
    ensures forall v :: v in answers <==> v in Fill([correct], correct, draws, 0, n - 1).value
  {
    ghost var filled := Fill([correct], correct, draws, 0, n - 1).value;
    var all := [correct];
    var i := 0;
    var d := 0;
    while i < n - 1
      invariant 0 <= i <= n - 1 && 0 <= d <= |draws|
      invariant Fill(all, correct, draws, d, n - 1 - i) == Some(filled)
      decreases |draws| - d
    {
      var proposal := GenerateRandomAnswer(correct, AnswerDifference, draws[d]) as real;
      if IndexOf(all, proposal) == -1 {
        all := all + [proposal];
        i := i + 1;
      }
      d := d + 1;
    }
    assert all == filled;
    answers := Permute(all, shuffle);
    correctIndex := IndexOf(answers, correct);
    ShuffledAnswers(correct, n, draws, shuffle);
  }

  /** What survives the shuffle: distinctness, the correct value, the decoys and the
      set of values. */
  lemma ShuffledAnswers(correct: real, n: int, draws: seq<real>, shuffle: seq<int>)
    requires DrawsFit(correct, n, draws, shuffle)
    ensures var filled := Fill([correct], correct, draws, 0, n - 1).value;
      var answers := Permute(filled, shuffle);
      && Distinct(answers)
      && correct in answers
      && (forall j :: 0 <= j < |answers| && answers[j] != correct ==> InDecoyRange(correct, answers[j]))
      && (forall v :: v in answers <==> v in filled)
  {
    var filled := Fill([correct], correct, draws, 0, n - 1).value;
    assert filled[0] == filled[..1][0] == correct;
  }

  /** Distinct integers within `[lo, hi)` number at most `hi - lo`. */
  lemma {:induction false} DistinctIntegersInWindow(s: seq<real>, lo: int, hi: int)
    requires lo <= hi && Distinct(s)
    requires forall i :: 0 <= i < |s| ==> s[i] == s[i].Floor as real && lo <= s[i].Floor < hi
    ensures |s| <= hi - lo
    decreases hi - lo
  {
    if s != [] {
      var top := (hi - 1) as real;
      if k :| 0 <= k < |s| && s[k] == top {
        var t := s[..k] + s[k + 1..];
        assert forall i :: 0 <= i < |t| ==> t[i] == s[if i < k then i else i + 1];
        DistinctIntegersInWindow(t, lo, hi - 1);
      } else {
        assert lo <= s[0].Floor < hi;
        DistinctIntegersInWindow(s, lo, hi - 1);
      }
    }
  }

  /** For a correct value that is an integer, the retry loop can only finish when it
      looks for at most 40 answers: the decoy window holds 40 integers, the correct
      value among them. With more answers configured the loop never ends. */
  lemma NoDecoysBeyondWindow(correct: real, n: int, draws: seq<real>, shuffle: seq<int>)
    requires correct == correct.Floor as real
    requires DrawsFit(correct, n, draws, shuffle)
    ensures n <= 2 * AnswerDifference
  {
    var filled := Fill([correct], correct, draws, 0, n - 1).value;
    assert filled[0] == filled[..1][0] == correct;
    DistinctIntegersInWindow(filled, correct.Floor - AnswerDifference, correct.Floor + AnswerDifference);
  }

  /** The draws `k / 40` for `k` in `0 .. 39`: draw `k` proposes `floor(correct) - 20 + k`,
      so they walk once through the whole decoy window. */
  function EvenDraws(): (draws: seq<real>)
    ensures |draws| == 2 * AnswerDifference && AllDraws(draws)
  {
    seq(2 * AnswerDifference, k => k as real / (2 * AnswerDifference) as real)
  }

  lemma EvenDrawProposes(correct: real, d: nat)
    requires d < 2 * AnswerDifference
    ensures GenerateRandomAnswer(correct, AnswerDifference, EvenDraws()[d])
            == correct.Floor - AnswerDifference + d
  {
    var r := EvenDraws()[d];
    assert r * ((correct + AnswerDifference as real) - (correct - AnswerDifference as real)) == d as real;
  }

  /** Walking the even draws from `d` on finds `missing` more answers whenever that
      many proposals are left that are not already taken: every earlier proposal lies
      below the next one, and only the correct value can repeat. */
  lemma {:induction false} FillFromEvenDraws(acc: seq<real>, correct: real, d: nat, missing: nat)
    requires d <= 2 * AnswerDifference
    requires forall i :: 0 <= i < |acc| ==>
      acc[i] == correct || acc[i] < (correct.Floor - AnswerDifference + d) as real
    requires missing + (if d <= AnswerDifference then 1 else 0) <= 2 * AnswerDifference - d
    ensures Fill(acc, correct, EvenDraws(), d, missing).Some?
    decreases 2 * AnswerDifference - d
  {
    if missing > 0 {
      var draws := EvenDraws();
      assert d < |draws|;
      EvenDrawProposes(correct, d);
      var proposal := GenerateRandomAnswer(correct, AnswerDifference, draws[d]) as real;
      assert proposal == (correct.Floor - AnswerDifference + d) as real;
      if proposal in acc {
        // Only the correct value can be proposed again, and it is proposed at d = 20.
        assert proposal == correct;
        assert d == AnswerDifference;
        FillFromEvenDraws(acc, correct, d + 1, missing);
        assert Fill(acc, correct, draws, d, missing) == Fill(acc, correct, draws, d + 1, missing);
      } else {
        var next := acc + [proposal];
        assert forall i :: 0 <= i < |next| ==>
          next[i] == correct || next[i] < (correct.Floor - AnswerDifference + d + 1) as real;
        FillFromEvenDraws(next, correct, d + 1, missing - 1);
        assert Fill(acc, correct, draws, d, missing) == Fill(next, correct, draws, d + 1, missing - 1);
      }
    }
  }

  /** The identity shuffle order. */
  function Unshuffled(n: nat): (p: seq<int>)
    ensures IsPermutation(p, n)
  {
    var p := seq(n, i => i);
    forall k | 0 <= k < n
      ensures k in p
    {
      assert p[k] == k;
    }
    p
  }

  /** With at most 40 answers configured the retry loop can always finish: the even
      draws let it find the decoys, whatever the correct value. */
  lemma SomeDrawsFit(correct: real, n: int)
    requires 1 <= n <= 2 * AnswerDifference
    ensures DrawsFit(correct, n, EvenDraws(), Unshuffled(n))
  {
    FillFromEvenDraws([correct], correct, 0, n - 1);
  }
}
