/**
 * `section_updater_node`: stages new content for the current section from the
 * model's `updated_content`, for the user to confirm.
 */
module SectionUpdater {
  import opened Wrappers
  import opened Json
  import opened ResumeState
  import opened BraceSpan
  import opened DecisionExtractor

  /**
   * Building the prompt raises before the decision call: `resume_sections` is
   * unset (`None.get`), or the question value cannot be iterated by `zip`.
   */
  predicate PromptFails(s: Snapshot)
    requires HasSection(s)
  {
    s.resumeSections.None? || Len(QuestionsOf(s, s.currentSection.value)).None?
  }

  /** `parsed.get("updated_content", "")`. */
  function ContentOf(decision: map<string, Json>): Json
  {
    Get(decision, "updated_content", JStr(""))
  }

  /** One invocation of `section_updater_node` on the record `s`. */
  function SectionUpdaterStep(s: Snapshot, decision: map<string, Json>, stamp: Stamp): (r: Outcome)
    // the guard only names the next step
    ensures !HasSection(s) ==> r == Outcome(s.(nextAction := Some(ExitToGeneralTag)), false)
    ensures r.raised <==> HasSection(s) && PromptFails(s)
    ensures r.raised ==> r.state == s
    // otherwise: one message, back to section chat, and only the staged content may change
    ensures HasSection(s) && !r.raised ==>
      && r.state == s.(context := r.state.context, proposedSectionContent := r.state.proposedSectionContent,
                       nextAction := Some(SectionChatTag))
      && |r.state.context| == |s.context| + 1 && r.state.context[..|s.context|] == s.context
      && r.state.proposedSectionContent ==
           (if Truthy(ContentOf(decision)) then Some(ContentOf(decision)) else s.proposedSectionContent)
  {
    if !HasSection(s) then Outcome(s.(nextAction := Some(ExitToGeneralTag)), false)
    else if PromptFails(s) then Outcome(s, true)
    else
      var section := s.currentSection.value;
      var content := ContentOf(decision);
      var summary := Get(decision, "summary", JStr("Content updated"));
      if Truthy(content) then
        Outcome(Said(s.(proposedSectionContent := Some(content), nextAction := Some(SectionChatTag)), stamp,
                     ProposedUpdate(summary, section, content)), false)
      else
        Outcome(Said(s.(nextAction := Some(SectionChatTag)), stamp, HavingTroubleUpdating(section)), false)
  }

  /**
   * The reply format the updater's prompt asks for has no `action` key, so
   * `call_llm_json_decision` turns such a reply into its error answer and the
   * updater reports that it had trouble, staging nothing.
   */
  lemma {:induction false} RequestedFormatIsRejected(s: Snapshot, prefix: string, obj: string, suffix: string,
                                                     parse: Parser, stamp: Stamp)
    requires HasSection(s) && !PromptFails(s)
    requires forall i :: 0 <= i < |prefix| ==> prefix[i] != '{'
    requires FlatObject(obj)
    requires parse(obj).Some? && parse(obj).value.JObj? && "action" !in parse(obj).value.fields
    ensures SectionUpdaterStep(s, CallLlmJsonDecision(Replied(prefix + obj + suffix), parse), stamp) ==
      Outcome(Said(s.(nextAction := Some(SectionChatTag)), stamp, HavingTroubleUpdating(s.currentSection.value)), false)
  {
    ObjectWithoutActionIsRejected(prefix, obj, suffix, parse);
    assert !Truthy(ContentOf(AnswerDecision(JStr(ErrorAnswer))));
  }

  /** `section_updater_node(state, config)`; `raised` when an exception escapes. */
  method SectionUpdaterNode(state: ResumeBuilderState, decision: map<string, Json>, stamp: Stamp)
    returns (raised: bool)
    modifies state
    ensures Outcome(state.View(), raised) == SectionUpdaterStep(old(state.View()), decision, stamp)
  {
    if state.currentSection.None? || state.currentSection.value == "" {
      state.nextAction := Some(ExitToGeneralTag);
      return false;
    }
    var section := state.currentSection.value;
    if state.resumeSections.None? || Len(QuestionsOf(state.View(), section)).None? {
      return true;
    }
    var content := ContentOf(decision);
    var summary := Get(decision, "summary", JStr("Content updated"));
    if Truthy(content) {
      state.proposedSectionContent := Some(content);
      state.Say(stamp, ProposedUpdate(summary, section, content));
    } else {
      state.Say(stamp, HavingTroubleUpdating(section));
    }
    state.nextAction := Some(SectionChatTag);
    return false;
  }
}
