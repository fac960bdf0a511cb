/**
 * `detect_question_matches`: which questions an answer may be responding to,
 * by the share of each question's words that also occur in the answer, highest
 * share first. Confidences are exact rationals.
 */
module QuestionMatching {
  import opened Text

  /** `set(s.lower().split())`. */
  function WordSet(s: string): (ws: set<string>)
    ensures forall w :: w in ws ==> w != []
  {
    set w | w in Words(Lower(s))
  }

  /** A candidate: the question's position, its text and the confidence. */
  datatype Match = Match(index: nat, question: string, confidence: real)

  /** The words the answer and the question share. */
  function Common(answer: string, question: string): (c: set<string>)
    ensures c <= WordSet(question) && c <= WordSet(answer)
  {
    WordSet(answer) * WordSet(question)
  }

  /** `len(common) / max(len(question_words), 1)` for a question that shares a word. */
  function Confidence(answer: string, question: string): (r: real)
    requires Common(answer, question) != {}
    ensures 0.0 < r <= 1.0
  {
    var c := Common(answer, question);
    var w := WordSet(question);
    SubsetCard(c, w);
    ShareInUnitInterval(|c|, if |w| > 1 then |w| else 1);
    |c| as real / (if |w| > 1 then |w| else 1) as real
  }

  /** A positive count over a count at least as large lies in (0, 1]. */
  lemma ShareInUnitInterval(n: nat, d: nat)
    requires 0 < n <= d
    ensures 0.0 < n as real / d as real <= 1.0
  {
  }

  /** A subset has no more elements than its superset. */
  lemma {:induction false} SubsetCard<T>(a: set<T>, b: set<T>)
    requires a <= b
    ensures |a| <= |b|
  {
    assert b == a + (b - a);
  }

  /** The candidate for question `i`. */
  function MatchOf(answer: string, questions: seq<string>, i: nat): (m: Match)
    requires i < |questions| && Common(answer, questions[i]) != {}
    ensures m.index == i && m.question == questions[i] && 0.0 < m.confidence <= 1.0
  {
    Match(i, questions[i], Confidence(answer, questions[i]))
  }

  /** The question shares at least one word with the answer. */
  predicate Overlaps(answer: string, question: string)
  {
    Common(answer, question) != {}
  }

  /** `m` is the candidate the loop builds for its question. */
  predicate IsCandidate(answer: string, questions: seq<string>, m: Match)
  {
    m.index < |questions| && Overlaps(answer, questions[m.index]) &&
    m == MatchOf(answer, questions, m.index)
  }

  /** Positions strictly ascending. */
  predicate Increasing(r: seq<Match>)
  {
    forall k, l :: 0 <= k < l < |r| ==> r[k].index < r[l].index
  }

  /** The elements of `[m] + rest` are `m` followed by those of `rest`. */
  lemma Prepend(m: Match, rest: seq<Match>)
    ensures |[m] + rest| == |rest| + 1 && ([m] + rest)[0] == m
    ensures forall k :: 1 <= k < |rest| + 1 ==> ([m] + rest)[k] == rest[k - 1]
    ensures forall x :: x in [m] + rest <==> x == m || x in rest
  {
  }

  /** A position before all of an ascending sequence's can be put in front. */
  lemma {:induction false} PrependIncreasing(m: Match, rest: seq<Match>)
    requires Increasing(rest)
    requires forall k :: 0 <= k < |rest| ==> m.index < rest[k].index
    ensures Increasing([m] + rest)
  {
    Prepend(m, rest);
  }

  /** The loop over the questions from `i` on: one candidate per question sharing a word. */
  function Candidates(answer: string, questions: seq<string>, i: nat): (r: seq<Match>)
    requires i <= |questions|
    ensures forall k :: 0 <= k < |r| ==> i <= r[k].index && IsCandidate(answer, questions, r[k])
    ensures forall j :: i <= j < |questions| && Overlaps(answer, questions[j]) ==>
      MatchOf(answer, questions, j) in r
    ensures Increasing(r)
    decreases |questions| - i
  {
    if i == |questions| then []
    else
      var rest := Candidates(answer, questions, i + 1);
      if Overlaps(answer, questions[i]) then
        var m := MatchOf(answer, questions, i);
        Prepend(m, rest);
        PrependIncreasing(m, rest);
        [m] + rest
      else rest
  }

  /** `x` comes before `y`: higher confidence, or equal confidence and earlier position. */
  predicate Precedes(x: Match, y: Match)
  {
    x.confidence > y.confidence || (x.confidence == y.confidence && x.index < y.index)
  }

  /** Highest confidence first, and equal confidences by ascending position. */
  predicate Ordered(r: seq<Match>)
  {
    forall k, l :: 0 <= k < l < |r| ==> Precedes(r[k], r[l])
  }

  /** An element that precedes all of an ordered sequence can be put in front. */
  lemma {:induction false} ConsOrdered(x: Match, rest: seq<Match>)
    requires Ordered(rest)
    requires forall y :: y in rest ==> Precedes(x, y)
    ensures Ordered([x] + rest)
  {
    var s := [x] + rest;
    forall k, l | 0 <= k < l < |s| ensures Precedes(s[k], s[l]) {
      assert s[l] == rest[l - 1] && rest[l - 1] in rest;
      if k > 0 {
        assert s[k] == rest[k - 1];
      }
    }
  }

  /** The head of an ordered sequence precedes the rest. */
  lemma {:induction false} HeadPrecedes(r: seq<Match>)
    requires Ordered(r) && r != []
    ensures forall y :: y in r[1..] ==> Precedes(r[0], y)
  {
    forall y | y in r[1..] ensures Precedes(r[0], y) {
      var j :| 0 <= j < |r[1..]| && r[1..][j] == y;
      assert r[j + 1] == y;
    }
  }

  /** Places `m` after every element whose confidence is at least its own. */
  function Insert(m: Match, r: seq<Match>): (s: seq<Match>)
    requires Ordered(r)
    requires forall k :: 0 <= k < |r| ==> r[k].index < m.index
    ensures forall x :: x in s <==> x == m || x in r
    ensures multiset(s) == multiset(r) + multiset{m}
    ensures Ordered(s)
  {
    if r == [] then [m]
    else if r[0].confidence >= m.confidence then
      var rest := Insert(m, r[1..]);
      assert r == [r[0]] + r[1..];
      HeadPrecedes(r);
      ConsOrdered(r[0], rest);
      [r[0]] + rest
    else
      HeadPrecedes(r);
      assert forall y :: y in r ==> y == r[0] || y in r[1..];
      ConsOrdered(m, r);
      [m] + r
  }

  /**
   * `sorted(xs, key=confidence, reverse=True)`: a stable sort, given candidates
   * in ascending position.
   */
  function SortDescending(xs: seq<Match>): (r: seq<Match>)
    requires Increasing(xs)
    ensures forall x :: x in r <==> x in xs
    ensures multiset(r) == multiset(xs)
    ensures Ordered(r)
  {
    if xs == [] then []
    else
      var init := xs[..|xs| - 1];
      var last := xs[|xs| - 1];
      var sorted := SortDescending(init);
      assert xs == init + [last];
      assert forall x :: x in xs <==> x in init || x == last;
      forall k | 0 <= k < |sorted| ensures sorted[k].index < last.index {
        assert sorted[k] in init;
        var j :| 0 <= j < |init| && init[j] == sorted[k];
      }
      Insert(last, sorted)
  }

  /** `detect_question_matches(user_answer, questions)`. */
  function DetectQuestionMatches(answer: string, questions: seq<string>): (r: seq<Match>)
    ensures multiset(r) == multiset(Candidates(answer, questions, 0))
    ensures Ordered(r)
  {
    SortDescending(Candidates(answer, questions, 0))
  }

  /**
   * The result lists exactly the questions that share a word with the answer,
   * each with its text and its confidence, which lies in (0, 1].
   */
  lemma {:induction false} MatchesAreTheOverlappingQuestions(answer: string, questions: seq<string>)
    ensures forall m :: m in DetectQuestionMatches(answer, questions) ==>
      m.index < |questions| && m.question == questions[m.index] &&
      Overlaps(answer, questions[m.index]) &&
      m.confidence == Confidence(answer, questions[m.index]) && 0.0 < m.confidence <= 1.0
    ensures forall j :: 0 <= j < |questions| && Overlaps(answer, questions[j]) ==>
      MatchOf(answer, questions, j) in DetectQuestionMatches(answer, questions)
  {
    var c := Candidates(answer, questions, 0);
    var r := DetectQuestionMatches(answer, questions);
    assert r == SortDescending(c);
    forall m | m in r
      ensures m.index < |questions| && m.question == questions[m.index] &&
        Overlaps(answer, questions[m.index]) &&
        m.confidence == Confidence(answer, questions[m.index]) && 0.0 < m.confidence <= 1.0
    {
      var k :| 0 <= k < |c| && c[k] == m;
      assert IsCandidate(answer, questions, c[k]);
    }
  }
}
