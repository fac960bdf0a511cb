/**
 * `safe_initialize_answers`: keeps a section's answer list as long as its
 * question list, keeping the answers that still have a question.
 */
module AnswerLedger {
  import opened Wrappers
  import opened Json
  import opened ResumeState

  /** `[""] * n`. */
  function Blank(n: nat): (r: seq<string>)
    ensures |r| == n && forall k :: 0 <= k < n ==> r[k] == ""
  {
    seq(n, _ => "")
  }

  function Min(a: nat, b: nat): nat
  {
    if a < b then a else b
  }

  /**
   * The answer list `safe_initialize_answers` leaves for a section whose list is
   * `current` (`None` when the section has none) and whose question list has
   * `n` entries.
   */
  function Reconciled(current: Option<seq<string>>, n: nat): (r: seq<string>)
    ensures |r| == n
    ensures current.None? ==> r == Blank(n)
    ensures current.Some? ==> forall k :: 0 <= k < Min(|current.value|, n) ==> r[k] == current.value[k]
    ensures current.Some? ==> forall k :: |current.value| <= k < n ==> r[k] == ""
    ensures current.Some? && |current.value| == n ==> r == current.value
  {
    if current.None? then Blank(n)
    else if |current.value| == n then current.value
    else seq(n, k requires 0 <= k < n => if k < |current.value| then current.value[k] else "")
  }

  /**
   * `safe_initialize_answers(state, section, questions)`. `len(questions)`
   * raises when the question value has no length; the record is then unchanged.
   */
  method SafeInitializeAnswers(state: ResumeBuilderState, section: string, questions: Json)
    returns (raised: bool)
    modifies state
    ensures raised <==> Len(questions).None?
    ensures raised ==> state.View() == old(state.View())
    ensures !raised ==> state.View() == old(state.View()).(recommendedAnswers :=
      old(state.recommendedAnswers)[section := Reconciled(Lookup(old(state.recommendedAnswers), section),
                                                          Len(questions).value)])
  {
    var count := Len(questions);
    if count.None? {
      return true;
    }
    var n := count.value;
    if section !in state.recommendedAnswers {
      state.recommendedAnswers := state.recommendedAnswers[section := Blank(n)];
    } else {
      var current := state.recommendedAnswers[section];
      if |current| != n {
        var resized := new string[n](_ => "");
        var i := 0;
        while i < Min(|current|, n)
          invariant 0 <= i <= Min(|current|, n)
          invariant forall k :: 0 <= k < i ==> resized[k] == current[k]
          invariant forall k :: i <= k < n ==> resized[k] == ""
          modifies resized
        {
          resized[i] := current[i];
          i := i + 1;
        }
        assert resized[..] == Reconciled(Some(current), n);
        state.recommendedAnswers := state.recommendedAnswers[section := resized[..]];
      } else {
        assert state.recommendedAnswers[section := current] == state.recommendedAnswers;
      }
    }
    return false;
  }
}
