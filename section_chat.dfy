/**
 * `section_chat_node`: the conversation inside one section. It keeps the
 * section's answer list in step with its questions, writes the answers the
 * model extracted, then dispatches on the decision's action (stay, switch
 * section, exit, or hand over to the updater or the applier).
 */
module SectionChat {
  import opened Wrappers
  import opened Json
  import opened Text
  import opened ResumeState
  import opened SectionResolver
  import opened AnswerLedger
  import DecisionExtractor

  /**
   * `all_questions_answered`: there are questions, one answer per question, and
   * no answer is blank.
   */
  predicate AllQuestionsAnswered(questions: Json, answers: seq<string>)
  {
    var n := Len(questions);
    n.Some? && n.value > 0 && |answers| == n.value &&
    forall k :: 0 <= k < |answers| ==> !IsBlank(answers[k])
  }

  /** The answer list after the `updated_answers` loop, and whether the loop raised. */
  datatype Updated = Updated(answers: seq<string>, raised: bool)

  /**
   * The `updated_answers` loop from position `i` on: a truthy entry at a position
   * the list has is stored stripped unless it strips to nothing; a truthy entry
   * that is not a string has no `strip()` and raises, leaving the writes so far.
   */
  function UpdateAnswers(answers: seq<string>, updates: seq<Json>, i: nat): (r: Updated)
    requires i <= |updates|
    ensures |r.answers| == |answers|
    decreases |updates| - i
  {
    if i == |updates| then Updated(answers, false)
    else if i < |answers| && Truthy(updates[i]) then
      if !updates[i].JStr? then Updated(answers, true)
      else if Strip(updates[i].s) != "" then UpdateAnswers(answers[i := Strip(updates[i].s)], updates, i + 1)
      else UpdateAnswers(answers, updates, i + 1)
    else UpdateAnswers(answers, updates, i + 1)
  }

  /**
   * The loop from position `i` touches no position before `i` or beyond the
   * updates, changes a position only to a stripped non-blank string from that
   * position, and raises exactly when a truthy non-string sits at a position the
   * list has.
   */
  lemma {:induction false} UpdateAnswersEffect(answers: seq<string>, updates: seq<Json>, i: nat)
    requires i <= |updates|
    ensures var r := UpdateAnswers(answers, updates, i);
      forall k :: 0 <= k < |answers| && (k < i || k >= |updates|) ==> r.answers[k] == answers[k]
    ensures var r := UpdateAnswers(answers, updates, i);
      forall k :: 0 <= k < |answers| && r.answers[k] != answers[k] ==>
        k < |updates| && updates[k].JStr? && r.answers[k] == Strip(updates[k].s) && r.answers[k] != ""
    ensures UpdateAnswers(answers, updates, i).raised <==>
      exists k :: i <= k < |updates| && k < |answers| && Truthy(updates[k]) && !updates[k].JStr?
    decreases |updates| - i
  {
    if i < |updates| {
      if i < |answers| && Truthy(updates[i]) {
        if !updates[i].JStr? {
        } else if Strip(updates[i].s) != "" {
          UpdateAnswersEffect(answers[i := Strip(updates[i].s)], updates, i + 1);
        } else {
          UpdateAnswersEffect(answers, updates, i + 1);
        }
      } else {
        UpdateAnswersEffect(answers, updates, i + 1);
      }
    }
  }

  /** One pass of the `updated_answers` loop, case by case. */
  lemma UpdateStep(answers: seq<string>, updates: seq<Json>, i: nat)
    requires i < |updates|
    ensures i < |answers| && Truthy(updates[i]) && !updates[i].JStr? ==>
      UpdateAnswers(answers, updates, i) == Updated(answers, true)
    ensures i < |answers| && Truthy(updates[i]) && updates[i].JStr? && Strip(updates[i].s) != "" ==>
      UpdateAnswers(answers, updates, i) == UpdateAnswers(answers[i := Strip(updates[i].s)], updates, i + 1)
    ensures !(i < |answers| && Truthy(updates[i])) || (updates[i].JStr? && Strip(updates[i].s) == "") ==>
      UpdateAnswers(answers, updates, i) == UpdateAnswers(answers, updates, i + 1)
  {
  }

  /** Without a failing entry, a non-blank string entry with a position is stored stripped. */
  lemma {:induction false} UpdateIsStored(answers: seq<string>, updates: seq<Json>, i: nat, k: nat)
    requires i <= k < |updates| && k < |answers|
    requires updates[k].JStr? && Strip(updates[k].s) != ""
    requires !UpdateAnswers(answers, updates, i).raised
    ensures UpdateAnswers(answers, updates, i).answers[k] == Strip(updates[k].s)
    decreases |updates| - i
  {
    var u := updates[i];
    if i < |answers| && Truthy(u) {
      if !u.JStr? {
        assert false;
      } else if Strip(u.s) != "" {
        if i < k {
          UpdateIsStored(answers[i := Strip(u.s)], updates, i + 1, k);
        } else {
          UpdateAnswersEffect(answers[i := Strip(u.s)], updates, i + 1);
        }
      } else {
        UpdateIsStored(answers, updates, i + 1, k);
      }
    } else {
      UpdateIsStored(answers, updates, i + 1, k);
    }
  }

  /** `s` with the model's `answer` appended when it is truthy. */
  function SaidIf(s: Snapshot, stamp: Stamp, answer: Json): (r: Snapshot)
    ensures Truthy(answer) ==> r == Said(s, stamp, Verbatim(answer))
    ensures !Truthy(answer) ==> r == s
  {
    if Truthy(answer) then Said(s, stamp, Verbatim(answer)) else s
  }

  /** `parsed.get("action", "stay")`. */
  function ActionOf(decision: map<string, Json>): Json
  {
    Get(decision, "action", JStr("stay"))
  }

  /** A `switch_section` decision with a truthy target. */
  predicate IsSwitch(decision: map<string, Json>)
  {
    ActionOf(decision) == JStr("switch_section") && Truthy(Get(decision, "target_section", JNull))
  }

  /**
   * The dispatch on the decision's action for the current section; `None` when
   * resolving the target section raises.
   */
  function Dispatch(s: Snapshot, decision: map<string, Json>, stamp: Stamp): (r: Option<Snapshot>)
    requires HasSection(s)
    ensures r.None? <==> IsSwitch(decision) && Resolve(Get(decision, "target_section", JNull), s.sectionKeys).Err?
    // only the pointer, the history and the next step change; at most one message is appended
    ensures r.Some? ==> r.value == s.(currentSection := r.value.currentSection, context := r.value.context,
                                       nextAction := r.value.nextAction)
    ensures r.Some? ==> (r.value.context == s.context ||
      (|r.value.context| == |s.context| + 1 && r.value.context[..|s.context|] == s.context))
    // a switch: another section is entered, the same one acknowledged, an unknown one reported
    ensures r.Some? && IsSwitch(decision) ==> r.value.nextAction == Some(SectionChatTag)
    ensures r.Some? && IsSwitch(decision) && r.value.currentSection != s.currentSection ==>
      r.value.currentSection.Some? && r.value.currentSection.value in s.sectionKeys &&
      r.value.currentSection == Resolve(Get(decision, "target_section", JNull), s.sectionKeys).value
    ensures r.Some? && IsSwitch(decision) && r.value.currentSection == s.currentSection ==>
      |r.value.context| == |s.context| + 1
    // exit, hand-overs, and staying
    ensures !IsSwitch(decision) && ActionOf(decision) == JStr("exit_section") ==>
      r.Some? && r.value.currentSection == None && r.value.nextAction == Some(ExitToGeneralTag) &&
      |r.value.context| == |s.context| + 1
    ensures !IsSwitch(decision) && ActionOf(decision) == JStr("trigger_updater") ==>
      r.Some? && r.value.currentSection == s.currentSection && r.value.nextAction == Some(SectionUpdaterTag)
    ensures !IsSwitch(decision) && ActionOf(decision) == JStr("trigger_applier") ==>
      r.Some? && r.value.currentSection == s.currentSection && r.value.nextAction == Some(SectionApplierTag)
    ensures !IsSwitch(decision) && !(ActionOf(decision) in {JStr("exit_section"), JStr("trigger_updater"), JStr("trigger_applier")}) ==>
      r.Some? && r.value.currentSection == s.currentSection && r.value.nextAction == None
  {
    var section := s.currentSection.value;
    var action := ActionOf(decision);
    var target := Get(decision, "target_section", JNull);
    var answer := Get(decision, "answer", JStr(""));
    if IsSwitch(decision) then
      match Resolve(target, s.sectionKeys)
      case Err(_) => None
      case Ok(found) =>
        if found.Some? && found.value != "" && found != s.currentSection then
          Some(SaidIf(s.(currentSection := found, nextAction := Some(SectionChatTag)), stamp, answer))
        else if found == s.currentSection then
          Some(Said(s.(nextAction := Some(SectionChatTag)), stamp,
                    if Truthy(answer) then Verbatim(answer) else AlreadyInSection(section)))
        else
          Some(Said(s.(nextAction := Some(SectionChatTag)), stamp,
                    SectionNotFoundStaying(target, s.sectionKeys, section)))
    else if action == JStr("exit_section") then
      Some(Said(s.(currentSection := None, nextAction := Some(ExitToGeneralTag)), stamp,
                if Truthy(answer) then Verbatim(answer) else ReturningToGeneral))
    else if action == JStr("trigger_updater") then
      Some(SaidIf(s.(nextAction := Some(SectionUpdaterTag)), stamp, answer))
    else if action == JStr("trigger_applier") then
      Some(SaidIf(s.(nextAction := Some(SectionApplierTag)), stamp, answer))
    else
      Some(SaidIf(s.(nextAction := None), stamp, answer))
  }

  /**
   * The message a dispatch appends: the model's answer when it is truthy, and
   * otherwise the fixed text of the branch taken; none for a hand-over or a stay
   * without an answer.
   */
  lemma DispatchMessage(s: Snapshot, decision: map<string, Json>, stamp: Stamp)
    requires HasSection(s)
    ensures var r, answer := Dispatch(s, decision, stamp), Get(decision, "answer", JStr(""));
      r.Some? && IsSwitch(decision) && Resolve(Get(decision, "target_section", JNull), s.sectionKeys).value == s.currentSection ==>
        r.value.context == s.context + [MakeMessage(stamp, "assistant",
          if Truthy(answer) then Verbatim(answer) else AlreadyInSection(s.currentSection.value))]
    ensures var r, target := Dispatch(s, decision, stamp), Get(decision, "target_section", JNull);
      var found := Resolve(target, s.sectionKeys);
      r.Some? && IsSwitch(decision) && found.value != s.currentSection && (found.value.None? || found.value.value == "") ==>
        r.value.currentSection == s.currentSection &&
        r.value.context == s.context + [MakeMessage(stamp, "assistant",
          SectionNotFoundStaying(target, s.sectionKeys, s.currentSection.value))]
    ensures var r, answer := Dispatch(s, decision, stamp), Get(decision, "answer", JStr(""));
      r.Some? && IsSwitch(decision) && r.value.currentSection != s.currentSection ==>
        r.value.context == if Truthy(answer) then s.context + [MakeMessage(stamp, "assistant", Verbatim(answer))] else s.context
    ensures var r, answer := Dispatch(s, decision, stamp), Get(decision, "answer", JStr(""));
      !IsSwitch(decision) && ActionOf(decision) == JStr("exit_section") ==>
        r.Some? && r.value.context == s.context + [MakeMessage(stamp, "assistant",
          if Truthy(answer) then Verbatim(answer) else ReturningToGeneral)]
    ensures var r, answer := Dispatch(s, decision, stamp), Get(decision, "answer", JStr(""));
      !IsSwitch(decision) && ActionOf(decision) != JStr("exit_section") ==>
        r.Some? && (r.value.context == s.context <==> !Truthy(answer)) &&
        (Truthy(answer) ==> r.value.context == s.context + [MakeMessage(stamp, "assistant", Verbatim(answer))])
  {
  }

  /** The `except` handler: a help message, and the turn stays in the section. */
  function Recovered(s: Snapshot, stamp: Stamp): (r: Snapshot)
    requires HasSection(s)
    ensures r == s.(context := r.context, nextAction := Some(SectionChatTag))
    ensures |r.context| == |s.context| + 1 && r.context[..|s.context|] == s.context
  {
    Said(s.(nextAction := Some(SectionChatTag)), stamp, HereToHelp(s.currentSection.value))
  }

  /** The record after `safe_initialize_answers` for the current section. */
  function Initialized(s: Snapshot, n: nat): (r: Snapshot)
    requires HasSection(s)
    ensures r == s.(recommendedAnswers := r.recommendedAnswers)
    ensures r.recommendedAnswers.Keys == s.recommendedAnswers.Keys + {s.currentSection.value}
    ensures |r.recommendedAnswers[s.currentSection.value]| == n
    ensures forall k :: k in s.recommendedAnswers && k != s.currentSection.value ==>
      r.recommendedAnswers[k] == s.recommendedAnswers[k]
  {
    var section := s.currentSection.value;
    s.(recommendedAnswers := s.recommendedAnswers[section :=
         Reconciled(Lookup(s.recommendedAnswers, section), n)])
  }

  /** The record after the `updated_answers` loop, and whether it raised. */
  function AfterUpdates(s: Snapshot, decision: map<string, Json>): (r: (Snapshot, bool))
    requires HasSection(s) && s.currentSection.value in s.recommendedAnswers
    ensures r.0 == s.(recommendedAnswers := r.0.recommendedAnswers)
    ensures r.0.recommendedAnswers.Keys == s.recommendedAnswers.Keys
    ensures forall k :: k in s.recommendedAnswers && k != s.currentSection.value ==>
      r.0.recommendedAnswers[k] == s.recommendedAnswers[k]
    ensures |r.0.recommendedAnswers[s.currentSection.value]| == |s.recommendedAnswers[s.currentSection.value]|
    ensures r.1 ==> Get(decision, "updated_answers", JNull).JArr?
  {
    var section := s.currentSection.value;
    var updates := Get(decision, "updated_answers", JNull);
    if updates.JArr? then
      var u := UpdateAnswers(s.recommendedAnswers[section], updates.items, 0);
      (s.(recommendedAnswers := s.recommendedAnswers[section := u.answers]), u.raised)
    else (s, false)
  }

  /** One invocation of `section_chat_node` on the record `s`. */
  function SectionChatStep(s: Snapshot, decision: map<string, Json>, stamp: Stamp): (r: Outcome)
    // the guard
    ensures !HasSection(s) ==>
      r == Outcome(Said(s.(nextAction := Some(ExitToGeneralTag)), stamp, PleaseSelectSection), false)
    // `len(recommended_questions)` raises before anything changes
    ensures HasSection(s) ==>
      (r.raised <==> Len(QuestionsOf(s, s.currentSection.value)).None?)
    ensures r.raised ==> r.state == s
  {
    if !HasSection(s) then
      Outcome(Said(s.(nextAction := Some(ExitToGeneralTag)), stamp, PleaseSelectSection), false)
    else
      var n := Len(QuestionsOf(s, s.currentSection.value));
      if n.None? then Outcome(s, true)
      else
        var (updated, failed) := AfterUpdates(Initialized(s, n.value), decision);
        if failed then Outcome(Recovered(updated, stamp), false)
        else
          match Dispatch(updated, decision, stamp)
          case None => Outcome(Recovered(updated, stamp), false)
          case Some(next) => Outcome(next, false)
  }

  /**
   * Only the section pointer, the history, the answer lists and the next step
   * change, and the history grows by at most one message.
   */
  lemma {:induction false} SectionChatFrame(s: Snapshot, decision: map<string, Json>, stamp: Stamp)
    ensures var r := SectionChatStep(s, decision, stamp).state;
      r == s.(currentSection := r.currentSection, context := r.context,
              recommendedAnswers := r.recommendedAnswers, nextAction := r.nextAction)
    ensures var r := SectionChatStep(s, decision, stamp).state;
      r.context == s.context || (|r.context| == |s.context| + 1 && r.context[..|s.context|] == s.context)
  {
    if HasSection(s) {
      var n := Len(QuestionsOf(s, s.currentSection.value));
      if n.Some? {
        var (updated, failed) := AfterUpdates(Initialized(s, n.value), decision);
        assert updated.context == s.context;
      }
    }
  }

  /**
   * After a step that did not raise, the current section's answer list is as
   * long as its question list, every other list is untouched, and each answer
   * is the one `safe_initialize_answers` kept or a stripped, non-blank string
   * from `updated_answers` at that position.
   */
  lemma {:induction false} SectionChatLedger(s: Snapshot, decision: map<string, Json>, stamp: Stamp)
    requires HasSection(s) && !SectionChatStep(s, decision, stamp).raised
    ensures var r := SectionChatStep(s, decision, stamp).state;
      var section := s.currentSection.value;
      && r.recommendedAnswers.Keys == s.recommendedAnswers.Keys + {section}
      && (forall k :: k in s.recommendedAnswers && k != section ==> r.recommendedAnswers[k] == s.recommendedAnswers[k])
      && |r.recommendedAnswers[section]| == Len(QuestionsOf(s, section)).value
      && forall k :: 0 <= k < |r.recommendedAnswers[section]| ==>
           var kept := Reconciled(Lookup(s.recommendedAnswers, section), Len(QuestionsOf(s, section)).value)[k];
           var updates := Get(decision, "updated_answers", JNull);
           r.recommendedAnswers[section][k] == kept ||
           (updates.JArr? && k < |updates.items| && updates.items[k].JStr? &&
            r.recommendedAnswers[section][k] == Strip(updates.items[k].s) != "")
  {
    var section := s.currentSection.value;
    var n := Len(QuestionsOf(s, section)).value;
    var init := Initialized(s, n);
    var (updated, failed) := AfterUpdates(init, decision);
    var r := SectionChatStep(s, decision, stamp).state;
    assert r.recommendedAnswers == updated.recommendedAnswers;
    assert init.recommendedAnswers[section] == Reconciled(Lookup(s.recommendedAnswers, section), n);
    var updates := Get(decision, "updated_answers", JNull);
    if updates.JArr? {
      UpdateAnswersEffect(init.recommendedAnswers[section], updates.items, 0);
    }
  }

  /** The answer lists a step leaves are those after the `updated_answers` loop. */
  lemma {:induction false} StepAnswers(s: Snapshot, decision: map<string, Json>, stamp: Stamp)
    requires HasSection(s) && Len(QuestionsOf(s, s.currentSection.value)).Some?
    ensures SectionChatStep(s, decision, stamp).state.recommendedAnswers ==
      AfterUpdates(Initialized(s, Len(QuestionsOf(s, s.currentSection.value)).value), decision).0.recommendedAnswers
  {
  }

  /**
   * A decision whose `updated_answers` holds a non-blank string at a position
   * the current section has a question for stores it, stripped, when every
   * entry is a string (so that none raises).
   */
  lemma {:induction false} SectionChatStoresAnswer(s: Snapshot, decision: map<string, Json>, stamp: Stamp, k: nat)
    requires HasSection(s)
    requires Len(QuestionsOf(s, s.currentSection.value)).Some? && k < Len(QuestionsOf(s, s.currentSection.value)).value
    requires "updated_answers" in decision && decision["updated_answers"].JArr?
    requires k < |decision["updated_answers"].items| && decision["updated_answers"].items[k].JStr?
    requires Strip(decision["updated_answers"].items[k].s) != ""
    requires forall j :: 0 <= j < |decision["updated_answers"].items| ==> decision["updated_answers"].items[j].JStr?
    ensures var answers := SectionChatStep(s, decision, stamp).state.recommendedAnswers;
      s.currentSection.value in answers && k < |answers[s.currentSection.value]| &&
      answers[s.currentSection.value][k] == Strip(decision["updated_answers"].items[k].s)
  {
    var section := s.currentSection.value;
    var init := Initialized(s, Len(QuestionsOf(s, section)).value);
    var updates := decision["updated_answers"].items;
    var u := UpdateAnswers(init.recommendedAnswers[section], updates, 0);
    UpdateAnswersEffect(init.recommendedAnswers[section], updates, 0);
    assert !u.raised;
    UpdateIsStored(init.recommendedAnswers[section], updates, 0, k);
    assert AfterUpdates(init, decision).0.recommendedAnswers == init.recommendedAnswers[section := u.answers];
    StepAnswers(s, decision, stamp);
  }

  /** The step keeps the record's invariants. */
  lemma {:induction false} SectionChatKeepsInvariants(s: Snapshot, decision: map<string, Json>, stamp: Stamp)
    requires KeysInOrder(s)
    ensures KeysInOrder(SectionChatStep(s, decision, stamp).state)
    ensures PointerValid(s) ==> PointerValid(SectionChatStep(s, decision, stamp).state)
    ensures LedgerValid(s) ==> LedgerValid(SectionChatStep(s, decision, stamp).state)
  {
    SectionChatKeepsPointer(s, decision, stamp);
    SectionChatKeepsLedger(s, decision, stamp);
  }

  /** The section tables are untouched, and a switch lands on a known section. */
  lemma {:induction false} SectionChatKeepsPointer(s: Snapshot, decision: map<string, Json>, stamp: Stamp)
    requires KeysInOrder(s)
    ensures KeysInOrder(SectionChatStep(s, decision, stamp).state)
    ensures PointerValid(s) ==> PointerValid(SectionChatStep(s, decision, stamp).state)
  {
    var o := SectionChatStep(s, decision, stamp);
    var r := o.state;
    SectionChatFrame(s, decision, stamp);
    assert r.sectionObjects == s.sectionObjects && r.sectionKeys == s.sectionKeys;
    if HasSection(s) && !o.raised && PointerValid(s) && r.currentSection != s.currentSection {
      var n := Len(QuestionsOf(s, s.currentSection.value)).value;
      var (updated, failed) := AfterUpdates(Initialized(s, n), decision);
      assert !failed && Dispatch(updated, decision, stamp).Some?;
      assert r.currentSection.None? || r.currentSection.value in s.sectionKeys;
    }
  }

  /** Every answer list stays as long as its section's question list. */
  lemma {:induction false} SectionChatKeepsLedger(s: Snapshot, decision: map<string, Json>, stamp: Stamp)
    ensures LedgerValid(s) ==> LedgerValid(SectionChatStep(s, decision, stamp).state)
  {
    var o := SectionChatStep(s, decision, stamp);
    var r := o.state;
    SectionChatFrame(s, decision, stamp);
    assert r.sectionObjects == s.sectionObjects;
    if HasSection(s) && !o.raised && LedgerValid(s) {
      SectionChatLedger(s, decision, stamp);
      forall k | k in r.recommendedAnswers && k in r.sectionObjects && Len(QuestionsOf(r, k)).Some?
        ensures |r.recommendedAnswers[k]| == Len(QuestionsOf(r, k)).value
      {
        assert QuestionsOf(r, k) == QuestionsOf(s, k);
      }
    }
  }

  /**
   * The next step the handler asks for: `exit_to_general` only with no section
   * set, `section_chat` after a switch or the error handler, the updater or the
   * applier only on their trigger actions, and nothing after staying.
   */
  lemma {:induction false} SectionChatNextAction(s: Snapshot, decision: map<string, Json>, stamp: Stamp)
    requires !SectionChatStep(s, decision, stamp).raised
    ensures var r := SectionChatStep(s, decision, stamp).state;
      r.nextAction in {None, Some(SectionChatTag), Some(ExitToGeneralTag), Some(SectionUpdaterTag), Some(SectionApplierTag)}
    ensures var r := SectionChatStep(s, decision, stamp).state;
      r.nextAction == Some(ExitToGeneralTag) ==> !HasSection(r)
    ensures var r := SectionChatStep(s, decision, stamp).state;
      r.nextAction == Some(SectionUpdaterTag) ==> ActionOf(decision) == JStr("trigger_updater")
    ensures var r := SectionChatStep(s, decision, stamp).state;
      r.nextAction == Some(SectionApplierTag) ==> ActionOf(decision) == JStr("trigger_applier")
    ensures var r := SectionChatStep(s, decision, stamp).state;
      HasSection(s) && r.currentSection != s.currentSection && r.currentSection.Some? ==>
        IsSwitch(decision) && r.nextAction == Some(SectionChatTag)
  {
    if HasSection(s) {
      var n := Len(QuestionsOf(s, s.currentSection.value)).value;
      var (updated, failed) := AfterUpdates(Initialized(s, n), decision);
      assert updated.currentSection == s.currentSection;
    }
  }

  /**
   * Fed by `call_llm_json_decision`, whose action is always "answer" or
   * "route", the handler never switches, exits or hands over: it stays in the
   * section and asks for `section_chat` only from its error handler, and for no
   * next step otherwise.
   */
  lemma {:induction false} SectionChatWithRealDecision(s: Snapshot, reply: DecisionExtractor.LlmReply,
                                                       parse: DecisionExtractor.Parser, stamp: Stamp)
    requires HasSection(s)
    requires !SectionChatStep(s, DecisionExtractor.CallLlmJsonDecision(reply, parse), stamp).raised
    ensures var r := SectionChatStep(s, DecisionExtractor.CallLlmJsonDecision(reply, parse), stamp).state;
      r.currentSection == s.currentSection && (r.nextAction == None || r.nextAction == Some(SectionChatTag))
    ensures var d := DecisionExtractor.CallLlmJsonDecision(reply, parse);
      SectionChatStep(s, d, stamp).state.nextAction == Some(SectionChatTag) ==>
        Get(d, "updated_answers", JNull).JArr?
  {
    var d := DecisionExtractor.CallLlmJsonDecision(reply, parse);
    assert DecisionExtractor.ValidAction(ActionOf(d));
    assert !IsSwitch(d);
    var n := Len(QuestionsOf(s, s.currentSection.value)).value;
    var (updated, failed) := AfterUpdates(Initialized(s, n), d);
    assert updated.currentSection == s.currentSection;
  }

  /**
   * The `updated_answers` loop over the section's list in the record; `raised`
   * when an entry has no `strip()`.
   */
  method ApplyUpdatedAnswers(state: ResumeBuilderState, section: string, updates: seq<Json>)
    returns (raised: bool)
    requires section in state.recommendedAnswers
    modifies state`recommendedAnswers
    ensures var u := UpdateAnswers(old(state.recommendedAnswers[section]), updates, 0);
      raised == u.raised &&
      state.View() == old(state.View()).(recommendedAnswers := old(state.recommendedAnswers)[section := u.answers])
  {
    ghost var goal := UpdateAnswers(state.recommendedAnswers[section], updates, 0);
    var i := 0;
    while i < |updates|
      invariant 0 <= i <= |updates|
      invariant state.recommendedAnswers.Keys == old(state.recommendedAnswers).Keys
      invariant forall k :: k in state.recommendedAnswers && k != section ==>
        state.recommendedAnswers[k] == old(state.recommendedAnswers)[k]
      invariant UpdateAnswers(state.recommendedAnswers[section], updates, i) == goal
    {
      var current := state.recommendedAnswers[section];
      var answer := updates[i];
      UpdateStep(current, updates, i);
      if i < |current| && Truthy(answer) {
        if !answer.JStr? {
          assert state.recommendedAnswers == old(state.recommendedAnswers)[section := current];
          return true;
        }
        var stripped := Strip(answer.s);
        if stripped != "" {
          state.recommendedAnswers := state.recommendedAnswers[section := current[i := stripped]];
        }
      }
      i := i + 1;
    }
    assert state.recommendedAnswers == old(state.recommendedAnswers)[section := state.recommendedAnswers[section]];
    return false;
  }

  /** The `switch_section` branch; `resolveFailed` when resolving the target raises. */
  method SwitchSection(state: ResumeBuilderState, decision: map<string, Json>, stamp: Stamp)
    returns (resolveFailed: bool)
    requires HasSection(state.View()) && IsSwitch(decision)
    modifies state
    ensures resolveFailed <==> Dispatch(old(state.View()), decision, stamp).None?
    ensures resolveFailed ==> state.View() == old(state.View())
    ensures !resolveFailed ==> state.View() == Dispatch(old(state.View()), decision, stamp).value
  {
    var section := state.currentSection.value;
    var target := Get(decision, "target_section", JNull);
    var answer := Get(decision, "answer", JStr(""));
    var resolved := Resolve(target, state.sectionKeys);
    if resolved.Err? {
      return true;
    }
    var found := resolved.value;
    state.nextAction := Some(SectionChatTag);
    if found.Some? && found.value != "" && found != state.currentSection {
      state.currentSection := found;
      if Truthy(answer) {
        state.Say(stamp, Verbatim(answer));
      }
    } else if found == state.currentSection {
      state.Say(stamp, if Truthy(answer) then Verbatim(answer) else AlreadyInSection(section));
    } else {
      state.Say(stamp, SectionNotFoundStaying(target, state.sectionKeys, section));
    }
    return false;
  }

  /** The dispatch on the action; `resolveFailed` when resolving the target raises. */
  method DispatchAction(state: ResumeBuilderState, decision: map<string, Json>, stamp: Stamp)
    returns (resolveFailed: bool)
    requires HasSection(state.View())
    modifies state
    ensures resolveFailed <==> Dispatch(old(state.View()), decision, stamp).None?
    ensures resolveFailed ==> state.View() == old(state.View())
    ensures !resolveFailed ==> state.View() == Dispatch(old(state.View()), decision, stamp).value
  {
    if IsSwitch(decision) {
      resolveFailed := SwitchSection(state, decision, stamp);
      return;
    }
    var action := ActionOf(decision);
    var answer := Get(decision, "answer", JStr(""));
    if action == JStr("exit_section") {
      state.currentSection := None;
      state.nextAction := Some(ExitToGeneralTag);
      state.Say(stamp, if Truthy(answer) then Verbatim(answer) else ReturningToGeneral);
    } else {
      state.nextAction := if action == JStr("trigger_updater") then Some(SectionUpdaterTag)
                          else if action == JStr("trigger_applier") then Some(SectionApplierTag)
                          else None;
      if Truthy(answer) {
        state.Say(stamp, Verbatim(answer));
      }
    }
    return false;
  }

  /** `section_chat_node(state, config)`; `raised` when an exception escapes. */
  method SectionChatNode(state: ResumeBuilderState, decision: map<string, Json>, stamp: Stamp)
    returns (raised: bool)
    modifies state
    ensures Outcome(state.View(), raised) == SectionChatStep(old(state.View()), decision, stamp)
  {
    if state.currentSection.None? || state.currentSection.value == "" {
      state.Say(stamp, PleaseSelectSection);
      state.nextAction := Some(ExitToGeneralTag);
      return false;
    }
    ghost var s := state.View();
    var section := state.currentSection.value;
    var questions := QuestionsOf(state.View(), section);
    raised := SafeInitializeAnswers(state, section, questions);
    if raised {
      return;
    }
    assert state.View() == Initialized(s, Len(questions).value);
    var updates := Get(decision, "updated_answers", JNull);
    var failed := false;
    if updates.JArr? {
      failed := ApplyUpdatedAnswers(state, section, updates.items);
    }
    assert (state.View(), failed) == AfterUpdates(Initialized(s, Len(questions).value), decision);
    if !failed {
      failed := DispatchAction(state, decision, stamp);
    }
    if failed {
      state.Say(stamp, HereToHelp(section));
      state.nextAction := Some(SectionChatTag);
    }
  }
}
