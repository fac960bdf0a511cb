/**
 * `section_applier_node` and `apply_section_changes_internal`: commit content
 * to the current section, re-analyse it, overwrite the section's analysis
 * metadata and restart its questions.
 */
module SectionApplier {
  import opened Wrappers
  import opened Json
  import opened ResumeState
  import opened BraceSpan
  import opened AnswerLedger
  import opened DecisionExtractor

  /** The four values the re-analysis supplies once its defaults are filled in. */
  datatype Analysis = Analysis(score: Json, missing: Json, questions: Json, summary: Json)

  /** The `setdefault` calls on a decoded analysis object. */
  function WithDefaults(fields: map<string, Json>): (a: Analysis)
    ensures "alignment_score" !in fields ==> a.score == JNum(70)
    ensures "missing_requirements" !in fields ==> a.missing == JArr([])
    ensures "recommended_questions" !in fields ==> a.questions == JArr([])
    ensures "analysis_summary" !in fields ==> a.summary == JStr("Updated successfully")
    ensures "alignment_score" in fields ==> a.score == fields["alignment_score"]
    ensures "missing_requirements" in fields ==> a.missing == fields["missing_requirements"]
    ensures "recommended_questions" in fields ==> a.questions == fields["recommended_questions"]
    ensures "analysis_summary" in fields ==> a.summary == fields["analysis_summary"]
  {
    Analysis(Get(fields, "alignment_score", JNum(70)), Get(fields, "missing_requirements", JArr([])),
             Get(fields, "recommended_questions", JArr([])), Get(fields, "analysis_summary", JStr("Updated successfully")))
  }

  /** The fixed analysis used when no API key is configured. */
  function OfflineAnalysis(section: string): Analysis
  {
    Analysis(JNum(75), JArr([JStr("More examples needed")]),
             JArr([JStr("Add more examples to " + section + "?")]), JStr("Offline mode"))
  }

  /**
   * The re-analysis of `section`; `None` when it raises: the call fails, or the
   * decoded block is not an object (it has no `setdefault`). Text without a
   * block, or a block that does not decode, leaves every default in place.
   */
  function Analyze(reply: LlmReply, parse: Parser, section: string): Option<Analysis>
  {
    match reply
    case Offline => Some(OfflineAnalysis(section))
    case CallFailed => None
    case Replied(raw) =>
      var span := Search(raw);
      if span.None? then Some(WithDefaults(map[]))
      else
        match parse(raw[span.value.lo..span.value.hi])
        case None => Some(WithDefaults(map[]))
        case Some(v) => if v.JObj? then Some(WithDefaults(v.fields)) else None
  }

  /**
   * The re-analysis raises exactly when the call fails or the first brace
   * block decodes to something other than an object; a reply the decoder
   * rejects, or one without a block, falls back to every default.
   */
  lemma AnalyzeRaises(reply: LlmReply, parse: Parser, section: string)
    ensures Analyze(reply, parse, section).None? <==>
      reply.CallFailed? ||
      (reply.Replied? && Search(reply.raw).Some? &&
       var parsed := parse(reply.raw[Search(reply.raw).value.lo..Search(reply.raw).value.hi]);
       parsed.Some? && !parsed.value.JObj?)
    ensures reply.Replied? && Analyze(reply, parse, section).Some? ==>
      exists fields :: Analyze(reply, parse, section) == Some(WithDefaults(fields))
  {
    if reply.Replied? && Analyze(reply, parse, section).Some? {
      var span := Search(reply.raw);
      if span.None? || parse(reply.raw[span.value.lo..span.value.hi]).None? {
        assert Analyze(reply, parse, section) == Some(WithDefaults(map[]));
      } else {
        assert Analyze(reply, parse, section) == Some(WithDefaults(parse(reply.raw[span.value.lo..span.value.hi]).value.fields));
      }
    }
  }

  /** `section_objects[section]` with the three analysis keys overwritten. */
  function Remeta(meta: map<string, Json>, a: Analysis): (r: map<string, Json>)
    ensures r.Keys == meta.Keys + {"alignment_score", "missing_requirements", "recommended_questions"}
    ensures r["alignment_score"] == a.score && r["missing_requirements"] == a.missing
    ensures r["recommended_questions"] == a.questions
    ensures forall k :: k in meta && k !in {"alignment_score", "missing_requirements", "recommended_questions"} ==>
      r[k] == meta[k]
  {
    meta["alignment_score" := a.score]["missing_requirements" := a.missing]["recommended_questions" := a.questions]
  }

  /** The record with `section`'s metadata updated from `a`, the section added to the keys if new. */
  function WithMeta(s: Snapshot, section: string, a: Analysis): Snapshot
  {
    var meta := if section in s.sectionObjects then s.sectionObjects[section] else map[];
    s.(sectionObjects := s.sectionObjects[section := Remeta(meta, a)],
       sectionKeys := if section in s.sectionObjects then s.sectionKeys else s.sectionKeys + [section])
  }

  /**
   * `apply_section_changes_internal(state, section, content)` with the
   * re-analysis `analysis`. Writing into an unset `resume_sections` raises
   * before anything changes; everything after the commit is caught.
   */
  function ApplyChanges(s: Snapshot, section: string, content: Json, analysis: Option<Analysis>, stamp: Stamp)
    : (r: Outcome)
    ensures r.raised <==> s.resumeSections.None?
    ensures r.raised ==> r.state == s
    // the commit comes first and survives a failed analysis
    ensures !r.raised ==> r.state.resumeSections == Some(s.resumeSections.value[section := content])
    ensures !r.raised ==> |r.state.context| == |s.context| + 1 && r.state.context[..|s.context|] == s.context
    ensures !r.raised ==>
      r.state == s.(resumeSections := r.state.resumeSections, sectionObjects := r.state.sectionObjects,
                    sectionKeys := r.state.sectionKeys, context := r.state.context,
                    recommendedAnswers := r.state.recommendedAnswers)
    ensures !r.raised && analysis.None? ==>
      r.state.sectionObjects == s.sectionObjects && r.state.sectionKeys == s.sectionKeys &&
      r.state.recommendedAnswers == s.recommendedAnswers &&
      r.state.context[|s.context|].content == SavedButAnalysisFailed(section)
    // a successful analysis overwrites the metadata and restarts the questions
    ensures !r.raised && analysis.Some? ==>
      r.state.sectionObjects == WithMeta(s, section, analysis.value).sectionObjects &&
      r.state.sectionKeys == WithMeta(s, section, analysis.value).sectionKeys
    ensures !r.raised && analysis.Some? && !Truthy(analysis.value.questions) ==>
      r.state.recommendedAnswers == s.recommendedAnswers[section := []]
    ensures !r.raised && analysis.Some? && Truthy(analysis.value.questions) && Len(analysis.value.questions).Some? ==>
      r.state.recommendedAnswers == s.recommendedAnswers[section := Blank(Len(analysis.value.questions).value)]
    ensures !r.raised && analysis.Some? && Truthy(analysis.value.questions) && Len(analysis.value.questions).None? ==>
      r.state.recommendedAnswers == s.recommendedAnswers
  {
    if s.resumeSections.None? then Outcome(s, true)
    else
      var committed := s.(resumeSections := Some(s.resumeSections.value[section := content]));
      match analysis
      case None => Outcome(Said(committed, stamp, SavedButAnalysisFailed(section)), false)
      case Some(a) =>
        var updated := WithMeta(committed, section, a);
        if !Truthy(a.questions) then
          Outcome(Said(updated.(recommendedAnswers := s.recommendedAnswers[section := []]), stamp,
                       AppliedChanges(section, a.score, a.summary, 0)), false)
        else
          match Len(a.questions)
          case None => Outcome(Said(updated, stamp, SavedButAnalysisFailed(section)), false)
          case Some(n) =>
            Outcome(Said(updated.(recommendedAnswers := s.recommendedAnswers[section := Blank(n)]), stamp,
                         AppliedChanges(section, a.score, a.summary, n)), false)
  }

  /** The content the applier commits: the staged content if truthy, else the stored one. */
  function ContentToApply(s: Snapshot): (r: Option<Json>)
    requires HasSection(s)
    ensures r.None? <==> !(s.proposedSectionContent.Some? && Truthy(s.proposedSectionContent.value)) &&
                         s.resumeSections.None?
    ensures s.proposedSectionContent.Some? && Truthy(s.proposedSectionContent.value) ==>
      r == s.proposedSectionContent
    ensures !(s.proposedSectionContent.Some? && Truthy(s.proposedSectionContent.value)) && s.resumeSections.Some? ==>
      r == Some(Get(s.resumeSections.value, s.currentSection.value, JStr("")))
  {
    if s.proposedSectionContent.Some? && Truthy(s.proposedSectionContent.value) then s.proposedSectionContent
    else if s.resumeSections.None? then None
    else Some(Get(s.resumeSections.value, s.currentSection.value, JStr("")))
  }

  /** One invocation of `section_applier_node` on the record `s`. */
  function SectionApplierStep(s: Snapshot, reply: LlmReply, parse: Parser, stamp: Stamp): (r: Outcome)
    // the guard only names the next step
    ensures !HasSection(s) ==> r == Outcome(s.(nextAction := Some(ExitToGeneralTag)), false)
    ensures r.raised <==> HasSection(s) && s.resumeSections.None?
    ensures r.raised ==> r.state == s
    ensures HasSection(s) && !r.raised ==> r.state.nextAction == Some(SectionChatTag)
    ensures HasSection(s) && !r.raised ==> r.state.currentSection == s.currentSection
    ensures HasSection(s) && !r.raised ==> |r.state.context| == |s.context| + 1
    // nothing to apply: one message and nothing else changes
    ensures HasSection(s) && ContentToApply(s).Some? && !Truthy(ContentToApply(s).value) ==>
      r == Outcome(Said(s.(nextAction := Some(SectionChatTag)), stamp, NoContentToApply(s.currentSection.value)), false)
    // something applied: it is committed and the staged content is cleared
    ensures HasSection(s) && ContentToApply(s).Some? && Truthy(ContentToApply(s).value) && !r.raised ==>
      r.state.resumeSections == Some(s.resumeSections.value[s.currentSection.value := ContentToApply(s).value]) &&
      r.state.proposedSectionContent == None
  {
    if !HasSection(s) then Outcome(s.(nextAction := Some(ExitToGeneralTag)), false)
    else
      var section := s.currentSection.value;
      match ContentToApply(s)
      case None => Outcome(s, true)
      case Some(content) =>
        if !Truthy(content) then
          Outcome(Said(s.(nextAction := Some(SectionChatTag)), stamp, NoContentToApply(section)), false)
        else
          var applied := ApplyChanges(s, section, content, Analyze(reply, parse, section), stamp);
          if applied.raised then applied
          else Outcome(applied.state.(proposedSectionContent := None, nextAction := Some(SectionChatTag)), false)
  }

  /**
   * Without an API key the applied section gets the fixed offline analysis:
   * score 75, one new question, and one blank answer for it.
   */
  lemma {:induction false} OfflineApplyAsksOneQuestion(s: Snapshot, parse: Parser, stamp: Stamp)
    requires HasSection(s) && s.resumeSections.Some?
    requires ContentToApply(s).Some? && Truthy(ContentToApply(s).value)
    ensures var r := SectionApplierStep(s, Offline, parse, stamp).state;
      var section := s.currentSection.value;
      && section in r.sectionObjects && r.sectionObjects[section]["alignment_score"] == JNum(75)
      && r.recommendedAnswers == s.recommendedAnswers[section := [""]]
      && r.context == s.context + [MakeMessage(stamp, "assistant",
                                               AppliedChanges(section, JNum(75), JStr("Offline mode"), 1))]
  {
    var section := s.currentSection.value;
    assert Len(OfflineAnalysis(section).questions) == Some(1);
    assert Blank(1) == [""];
  }

  /**
   * A reply with no brace at all leaves every default: score 70, no questions,
   * an empty answer list, and the "section complete" confirmation.
   */
  lemma {:induction false} PlainReplyAppliesDefaults(s: Snapshot, raw: string, parse: Parser, stamp: Stamp)
    requires HasSection(s) && s.resumeSections.Some?
    requires ContentToApply(s).Some? && Truthy(ContentToApply(s).value)
    requires forall i :: 0 <= i < |raw| ==> raw[i] != '{'
    ensures var r := SectionApplierStep(s, Replied(raw), parse, stamp).state;
      var section := s.currentSection.value;
      && section in r.sectionObjects
      && "alignment_score" in r.sectionObjects[section] && r.sectionObjects[section]["alignment_score"] == JNum(70)
      && "recommended_questions" in r.sectionObjects[section]
      && r.sectionObjects[section]["recommended_questions"] == JArr([])
      && r.recommendedAnswers == s.recommendedAnswers[section := []]
      && r.context == s.context + [MakeMessage(stamp, "assistant",
                                               AppliedChanges(section, JNum(70), JStr("Updated successfully"), 0))]
  {
    var section := s.currentSection.value;
    NoBraceNoAnalysisFields(raw, parse, section);
    var a := WithDefaults(map[]);
    assert a == Analysis(JNum(70), JArr([]), JArr([]), JStr("Updated successfully"));
    assert !Truthy(a.questions);
    var applied := ApplyChanges(s, section, ContentToApply(s).value, Some(a), stamp);
    assert SectionApplierStep(s, Replied(raw), parse, stamp).state ==
      applied.state.(proposedSectionContent := None, nextAction := Some(SectionChatTag));
  }

  /** A reply without a brace decodes to no fields, so every default applies. */
  lemma NoBraceNoAnalysisFields(raw: string, parse: Parser, section: string)
    requires forall i :: 0 <= i < |raw| ==> raw[i] != '{'
    ensures Analyze(Replied(raw), parse, section) == Some(WithDefaults(map[]))
  {
    forall q | 0 <= q <= |raw| ensures MatchAt(raw, q).None? {
    }
    assert Search(raw).None?;
  }

  /** The applier keeps the record's invariants. */
  lemma {:induction false} SectionApplierKeepsInvariants(s: Snapshot, reply: LlmReply, parse: Parser, stamp: Stamp)
    requires KeysInOrder(s)
    ensures KeysInOrder(SectionApplierStep(s, reply, parse, stamp).state)
    ensures PointerValid(s) ==> PointerValid(SectionApplierStep(s, reply, parse, stamp).state)
    ensures LedgerValid(s) ==> LedgerValid(SectionApplierStep(s, reply, parse, stamp).state)
  {
    var r := SectionApplierStep(s, reply, parse, stamp);
    if HasSection(s) && ContentToApply(s).Some? && Truthy(ContentToApply(s).value) && !r.raised {
      var section := s.currentSection.value;
      var content := ContentToApply(s).value;
      var analysis := Analyze(reply, parse, section);
      var applied := ApplyChanges(s, section, content, analysis, stamp);
      assert r.state.sectionObjects == applied.state.sectionObjects;
      assert r.state.sectionKeys == applied.state.sectionKeys;
      assert r.state.recommendedAnswers == applied.state.recommendedAnswers;
      if analysis.Some? {
        AppliedMetaKeepsInvariants(s, section, analysis.value, applied.state);
      } else {
        assert applied.state.sectionObjects == s.sectionObjects;
        assert forall k :: QuestionsOf(r.state, k) == QuestionsOf(s, k);
      }
    } else {
      assert r.state.sectionObjects == s.sectionObjects && r.state.sectionKeys == s.sectionKeys;
      assert r.state.recommendedAnswers == s.recommendedAnswers;
      assert forall k :: QuestionsOf(r.state, k) == QuestionsOf(s, k);
    }
  }

  /**
   * The metadata and answers a successful analysis leaves keep the key order
   * and the ledger: the section's new answer list matches its new questions.
   */
  lemma {:induction false} AppliedMetaKeepsInvariants(s: Snapshot, section: string, a: Analysis, t: Snapshot)
    requires KeysInOrder(s)
    requires t.sectionObjects == WithMeta(s, section, a).sectionObjects
    requires t.sectionKeys == WithMeta(s, section, a).sectionKeys
    requires t.currentSection == s.currentSection
    requires !Truthy(a.questions) ==> t.recommendedAnswers == s.recommendedAnswers[section := []]
    requires Truthy(a.questions) && Len(a.questions).Some? ==>
      t.recommendedAnswers == s.recommendedAnswers[section := Blank(Len(a.questions).value)]
    requires Truthy(a.questions) && Len(a.questions).None? ==> t.recommendedAnswers == s.recommendedAnswers
    ensures KeysInOrder(t)
    ensures PointerValid(s) ==> PointerValid(t)
    ensures LedgerValid(s) ==> LedgerValid(t)
  {
    var meta := if section in s.sectionObjects then s.sectionObjects[section] else map[];
    assert t.sectionObjects == s.sectionObjects[section := Remeta(meta, a)];
    assert QuestionsOf(t, section) == a.questions;
    if section !in s.sectionObjects {
      assert t.sectionKeys == s.sectionKeys + [section];
      assert section !in s.sectionKeys;
      assert (set k | k in t.sectionKeys) == (set k | k in s.sectionKeys) + {section};
    } else {
      assert t.sectionKeys == s.sectionKeys;
    }
    if LedgerValid(s) {
      forall k | k in t.recommendedAnswers && k in t.sectionObjects && Len(QuestionsOf(t, k)).Some?
        ensures |t.recommendedAnswers[k]| == Len(QuestionsOf(t, k)).value
      {
        if k != section {
          assert QuestionsOf(t, k) == QuestionsOf(s, k);
        }
      }
    }
  }

  /** `section_objects[section].update(...)`, creating the entry when it is missing. */
  method UpdateMeta(state: ResumeBuilderState, section: string, a: Analysis)
    modifies state`sectionObjects, state`sectionKeys
    ensures state.View() == WithMeta(old(state.View()), section, a)
  {
    ghost var objects := state.sectionObjects;
    if section !in state.sectionObjects {
      state.sectionObjects := state.sectionObjects[section := map[]];
      state.sectionKeys := state.sectionKeys + [section];
    }
    var meta := state.sectionObjects[section];
    state.sectionObjects := state.sectionObjects[section := Remeta(meta, a)];
    assert state.sectionObjects == objects[section := Remeta(meta, a)];
  }

  /** `apply_section_changes_internal`; `raised` when an exception escapes. */
  method ApplySectionChangesInternal(state: ResumeBuilderState, section: string, content: Json,
                                     analysis: Option<Analysis>, stamp: Stamp)
    returns (raised: bool)
    modifies state`resumeSections, state`sectionObjects, state`sectionKeys, state`context, state`recommendedAnswers
    ensures Outcome(state.View(), raised) == ApplyChanges(old(state.View()), section, content, analysis, stamp)
  {
    if state.resumeSections.None? {
      return true;
    }
    ghost var s := state.View();
    state.resumeSections := Some(state.resumeSections.value[section := content]);
    if analysis.None? {
      state.Say(stamp, SavedButAnalysisFailed(section));
      return false;
    }
    var a := analysis.value;
    UpdateMeta(state, section, a);
    if Truthy(a.questions) {
      var count := Len(a.questions);
      if count.None? {
        state.Say(stamp, SavedButAnalysisFailed(section));
        return false;
      }
      state.recommendedAnswers := state.recommendedAnswers[section := Blank(count.value)];
      state.Say(stamp, AppliedChanges(section, a.score, a.summary, count.value));
    } else {
      state.recommendedAnswers := state.recommendedAnswers[section := []];
      state.Say(stamp, AppliedChanges(section, a.score, a.summary, 0));
    }
    return false;
  }

  /** `section_applier_node(state, config)`; `raised` when an exception escapes. */
  method SectionApplierNode(state: ResumeBuilderState, reply: LlmReply, parse: Parser, stamp: Stamp)
    returns (raised: bool)
    modifies state`resumeSections, state`sectionObjects, state`sectionKeys, state`context, state`recommendedAnswers,
             state`proposedSectionContent, state`nextAction
    ensures Outcome(state.View(), raised) == SectionApplierStep(old(state.View()), reply, parse, stamp)
  {
    if state.currentSection.None? || state.currentSection.value == "" {
      state.nextAction := Some(ExitToGeneralTag);
      return false;
    }
    var section := state.currentSection.value;
    var content := ContentToApply(state.View());
    if content.None? {
      return true;
    }
    if !Truthy(content.value) {
      state.Say(stamp, NoContentToApply(section));
      state.nextAction := Some(SectionChatTag);
      return false;
    }
    raised := ApplySectionChangesInternal(state, section, content.value, Analyze(reply, parse, section), stamp);
    if raised {
      return;
    }
    state.proposedSectionContent := None;
    state.nextAction := Some(SectionChatTag);
  }
}
