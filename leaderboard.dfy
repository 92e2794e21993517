/** The high-score list: its entries, the in-place `reverse` and `sort` the quiz applies
    to it, and the admission rule of `_updateHighScores`, both as written and corrected. */
module Leaderboard {
  import opened Text

  datatype Entry = Entry(name: string, score: int)

  predicate SortedDesc(h: seq<Entry>) {
    forall i, j :: 0 <= i < j < |h| ==> h[i].score >= h[j].score
  }

  predicate SortedAsc(h: seq<Entry>) {
    forall i, j :: 0 <= i < j < |h| ==> h[i].score <= h[j].score
  }

  /** `Array.prototype.reverse`. */
  function Reverse(h: seq<Entry>): (r: seq<Entry>)
    ensures |r| == |h|
    ensures forall i :: 0 <= i < |h| ==> r[i] == h[|h| - 1 - i]
  {
    if h == [] then [] else Reverse(h[1..]) + [h[0]]
  }

  /** Reversing turns a list sorted one way into a list sorted the other way. */
  lemma ReverseFlipsOrder(h: seq<Entry>)
    ensures SortedDesc(h) ==> SortedAsc(Reverse(h))
    ensures SortedAsc(h) ==> SortedDesc(Reverse(h))
  {
  }

  /** Reversing twice gives the list back. */
  lemma ReverseInvolution(h: seq<Entry>)
    ensures Reverse(Reverse(h)) == h
  {
  }

  /** Reversing keeps the entries. */
  lemma {:induction false} ReverseKeepsEntries(h: seq<Entry>)
    ensures multiset(Reverse(h)) == multiset(h)
  {
    if h != [] {
      ReverseKeepsEntries(h[1..]);
      assert h == [h[0]] + h[1..];
    }
  }

  /** Inserts `e` into a list sorted by descending score, after every entry that
      scores at least as much. */
  function Insert(e: Entry, h: seq<Entry>): (r: seq<Entry>)
    requires SortedDesc(h)
    ensures |r| == |h| + 1 && SortedDesc(r)
    ensures multiset(r) == multiset(h) + multiset{e}
    ensures r[0] == e || (h != [] && r[0] == h[0])
  {
    if h == [] then [e]
    else if h[0].score >= e.score then
      var rest := Insert(e, h[1..]);
      InsertBehindHead(e, h, rest);
      [h[0]] + rest
    else
      assert multiset([e] + h) == multiset{e} + multiset(h);
      [e] + h
  }

  lemma InsertBehindHead(e: Entry, h: seq<Entry>, rest: seq<Entry>)
    requires h != [] && SortedDesc(h) && h[0].score >= e.score
    requires |rest| == |h| && SortedDesc(rest)
    requires multiset(rest) == multiset(h[1..]) + multiset{e}
    requires rest[0] == e || (|h| > 1 && rest[0] == h[1])
    ensures SortedDesc([h[0]] + rest)
    ensures multiset([h[0]] + rest) == multiset(h) + multiset{e}
  {
    var r := [h[0]] + rest;
    assert h == [h[0]] + h[1..];
    forall i, j | 0 <= i < j < |r|
      ensures r[i].score >= r[j].score
    {
      assert r[j] == rest[j - 1];
      if i > 0 { assert r[i] == rest[i - 1]; }
    }
  }

  /** `highScores.sort((p, n) => n.score - p.score)`: the same entries, by descending
      score (equal scores keep their order, as in a stable sort). */
  function SortByScore(h: seq<Entry>): (r: seq<Entry>)
    ensures |r| == |h| && SortedDesc(r)
    ensures multiset(r) == multiset(h)
  {
    if h == [] then []
    else
      var last := |h| - 1;
      assert h == h[..last] + [h[last]];
      Insert(h[last], SortByScore(h[..last]))
  }

  /** The name `_showHighScores` stores: `playerName.trim() || "Anonymous"`. It is never
      empty and never starts or ends with whitespace. */
  function CommitName(playerName: string): (name: string)
    ensures name != [] && !IsWhitespace(name[0]) && !IsWhitespace(name[|name| - 1])
    ensures Trim(playerName) != [] ==> name == Trim(playerName)
    ensures Trim(playerName) == [] ==> name == "Anonymous"
  {
    var trimmed := Trim(playerName);
    if trimmed == [] then "Anonymous" else trimmed
  }

  /** The decision of `_updateHighScores` exactly as written: the list it reads after
      `highScores.reverse()` is in reverse order of what it was. */
  function AdmitsAsWritten(h: seq<Entry>, name: string, results: int, capacity: int): (ok: bool)
    ensures ok <==> && 0 < results && 3 <= |name| && |h| < capacity
                    && (h == [] || h[|h| - 1].score < results)
  {
    var noResultsOrPlayerName := results <= 0 || |name| < 3;
    var notEnoughPoints := |h| > 0 && Reverse(h)[0].score >= results;
    var listIsFull := |h| >= capacity;
    !(noResultsOrPlayerName || notEnoughPoints || listIsFull)
  }

  /** The lowest score on a non-empty list. */
  function MinScore(h: seq<Entry>): (m: int)
    requires h != []
    ensures forall i :: 0 <= i < |h| ==> m <= h[i].score
    ensures exists i :: 0 <= i < |h| && h[i].score == m
  {
    if |h| == 1 then h[0].score
    else
      var m := MinScore(h[1..]);
      assert forall i :: 1 <= i < |h| ==> h[i] == h[1..][i - 1];
      if h[0].score <= m then h[0].score else m
  }

  /** The admission rule as intended: a positive score by a player whose name has at
      least three characters enters a list that is not full when it beats the lowest
      entry there. */
  function Admits(h: seq<Entry>, name: string, results: int, capacity: int): (ok: bool)
    ensures ok <==> && 0 < results && 3 <= |name| && |h| < capacity
                    && (h == [] || exists i :: 0 <= i < |h| && h[i].score < results)
  {
    0 < results && 3 <= |name| && |h| < capacity && (h == [] || MinScore(h) < results)
  }

  /** The intended decision depends on the entries on the list, not on their order. */
  lemma AdmitsIgnoresOrder(h: seq<Entry>, h': seq<Entry>, name: string, results: int, capacity: int)
    requires multiset(h) == multiset(h')
    ensures Admits(h, name, results, capacity) == Admits(h', name, results, capacity)
  {
    assert |h| == |multiset(h)| == |h'|;
    if i :| 0 <= i < |h| && h[i].score < results {
      assert h[i] in multiset(h');
    }
    if i :| 0 <= i < |h'| && h'[i].score < results {
      assert h'[i] in multiset(h);
    }
  }

  /** On a list sorted by descending score the reversed list starts with the lowest
      entry, so the check as written makes the intended decision. */
  lemma AsWrittenAgreesWhenSorted(h: seq<Entry>, name: string, results: int, capacity: int)
    requires SortedDesc(h)
    ensures AdmitsAsWritten(h, name, results, capacity) == Admits(h, name, results, capacity)
  {
    if h != [] {
      assert Reverse(h)[0] == h[|h| - 1];
    }
  }

  /** The side effect of the reversal: a rejected result leaves the list in ascending
      order, and the next check then compares against the HIGHEST score. With the list
      [50, 10] and room for 15, a quiz scoring 0 is rejected and leaves [10, 50]; a quiz
      scoring 30 is then rejected although it beats the 10 on the list. */
  lemma ReversedBoardRejectsQualifyingScore()
    ensures var board := [Entry("Ann", 50), Entry("Bob", 10)];
      && SortedDesc(board)
      && !AdmitsAsWritten(board, "Anonymous", 0, 15)
      && Reverse(board) == [Entry("Bob", 10), Entry("Ann", 50)]
      && !AdmitsAsWritten(Reverse(board), "Anonymous", 30, 15)
      && Admits(Reverse(board), "Anonymous", 30, 15)
  {
    var board := [Entry("Ann", 50), Entry("Bob", 10)];
    assert Reverse(board) == [Entry("Bob", 10), Entry("Ann", 50)];
    assert Reverse(Reverse(board))[0] == Entry("Ann", 50);
    assert Reverse(board)[0].score < 30;
  }
}
