/**
 * The conversation record shared by the four handler nodes
 * (`ResumeBuilderState`), its messages, and the invariants the handlers keep.
 */
module ResumeState {
  import opened Wrappers
  import opened Json

  /** The eleven canonical section names, in the order the record lists them. */
  const SectionNames: seq<string> := [
    "skills", "experiences", "education", "projects", "summary", "contact",
    "certificates", "publications", "languages", "recommendations", "custom"
  ]

  /** The `next_action` tags the handlers set. `None` ends the handler chain. */
  const SectionChatTag: string := "section_chat"
  const SectionUpdaterTag: string := "section_updater"
  const SectionApplierTag: string := "section_applier"
  const ExitToGeneralTag: string := "exit_to_general"

  /**
   * What an assistant message says. Text the model supplied is kept verbatim;
   * each fixed or formatted reply of a handler is one variant carrying the values
   * it interpolates (its rendering into words is not modelled).
   */
  datatype Content =
    | Verbatim(text: Json)                 // the model's own `answer`
    | StartFresh                           // "Let's start fresh - how can I help you with your resume?"
    | SectionNotFound(name: Json, available: seq<string>)
                                           // "I couldn't find section '<name>'. Available: <sorted>. Which ...?"
    | HowCanIHelpToday                     // "How can I help you with your resume today?"
    | PleaseRephrase                       // "Could you please rephrase your request?"
    | HowCanIHelp                          // "How can I help you with your resume?"
    | PleaseSelectSection                  // "Please select a section to work on."
    | AlreadyInSection(section: string)    // "You're already in the <section> section. ..."
    | SectionNotFoundStaying(name: Json, available: seq<string>, staying: string)
                                           // "I couldn't find section '<name>'. Available: ... Staying in <staying>."
    | ReturningToGeneral                   // "Returning to general chat. How can I help with your resume?"
    | HereToHelp(section: string)          // "I'm here to help with your <section> section. ..."
    | ProposedUpdate(summary: Json, section: string, proposal: Json)
                                           // summary, the proposed content, "Apply these changes? ..."
    | HavingTroubleUpdating(section: string)   // "Having trouble updating <section>. Let's continue."
    | NoContentToApply(section: string)        // "No content to apply for <section>. Please try again."
    | AppliedChanges(section: string, score: Json, summary: Json, questionCount: nat)
                                           // "Applied changes ... New alignment: <score>% ..." and either
                                           // "Continue with <n> more questions?" or "Section complete! ..."
    | SavedButAnalysisFailed(section: string)  // "Changes saved to <section>, but analysis failed. ..."

  /** The fresh message id and the clock reading the environment supplies for one message. */
  datatype Stamp = Stamp(id: string, timestamp: string)

  datatype Message = Message(id: string, role: string, content: Content, timestamp: string)

  /** `make_message`: a message with the given role and content, identified by `stamp`. */
  function MakeMessage(stamp: Stamp, role: string, content: Content): (m: Message)
    ensures m.role == role && m.content == content
    ensures m.id == stamp.id && m.timestamp == stamp.timestamp
  {
    Message(stamp.id, role, content, stamp.timestamp)
  }

  /** The value of every field of the record at one moment. */
  datatype Snapshot = Snapshot(
    jdSummary: Option<string>,
    resumeSections: Option<map<string, Json>>,
    sectionObjects: map<string, map<string, Json>>,
    sectionKeys: seq<string>,             // the insertion order of `sectionObjects`' keys
    currentSection: Option<string>,
    sectionDone: map<string, bool>,
    context: seq<Message>,
    contextSummary: Option<string>,
    recommendedAnswers: map<string, seq<string>>,
    routingAttempts: int,
    nextAction: Option<string>,
    proposedSectionContent: Option<Json>)

  /** `s` with one assistant message appended to the history. */
  function Said(s: Snapshot, stamp: Stamp, c: Content): (r: Snapshot)
    ensures r.context == s.context + [MakeMessage(stamp, "assistant", c)]
    ensures r == s.(context := r.context)
  {
    s.(context := s.context + [MakeMessage(stamp, "assistant", c)])
  }

  /** `sectionKeys` lists each key of `sectionObjects` exactly once. */
  predicate KeysInOrder(s: Snapshot)
  {
    && (forall i, j :: 0 <= i < j < |s.sectionKeys| ==> s.sectionKeys[i] != s.sectionKeys[j])
    && (set k | k in s.sectionKeys) == s.sectionObjects.Keys
  }

  /** Python's `if state.current_section:` — a section is set and its name is not empty. */
  predicate HasSection(s: Snapshot)
  {
    s.currentSection.Some? && s.currentSection.value != ""
  }

  /** The section pointer is unset or names a section with metadata. */
  predicate PointerValid(s: Snapshot)
  {
    s.currentSection.None? || s.currentSection.value in s.sectionObjects
  }

  /** `section_objects.get(section, {}).get("recommended_questions", [])`. */
  function QuestionsOf(s: Snapshot, section: string): Json
  {
    Get(if section in s.sectionObjects then s.sectionObjects[section] else map[],
        "recommended_questions", JArr([]))
  }

  /**
   * The answer-ledger invariant: wherever a section has both metadata and an
   * answer list, and its question value has a length, the lengths agree.
   */
  predicate LedgerValid(s: Snapshot)
  {
    forall section ::
      (section in s.recommendedAnswers && section in s.sectionObjects && Len(QuestionsOf(s, section)).Some?)
      ==> |s.recommendedAnswers[section]| == Len(QuestionsOf(s, section)).value
  }

  /**
   * What one handler invocation leaves behind: the new record, and whether an
   * exception escaped the handler (which the handler itself does not catch).
   */
  datatype Outcome = Outcome(state: Snapshot, raised: bool)

  /** `ResumeBuilderState`: the mutable record every handler node updates in place. */
  class ResumeBuilderState {
    var jdSummary: Option<string>
    var resumeSections: Option<map<string, Json>>
    var sectionObjects: map<string, map<string, Json>>
    var sectionKeys: seq<string>
    var currentSection: Option<string>
    var sectionDone: map<string, bool>
    var context: seq<Message>
    var contextSummary: Option<string>
    var recommendedAnswers: map<string, seq<string>>
    var routingAttempts: int
    var nextAction: Option<string>
    var proposedSectionContent: Option<Json>

    function View(): Snapshot
      reads this
    {
      Snapshot(jdSummary, resumeSections, sectionObjects, sectionKeys, currentSection, sectionDone,
               context, contextSummary, recommendedAnswers, routingAttempts, nextAction,
               proposedSectionContent)
    }

    /** `state.context.append(state.make_message("assistant", c))`. */
    method Say(stamp: Stamp, c: Content)
      modifies this`context
      ensures View() == Said(old(View()), stamp, c)
    {
      context := context + [MakeMessage(stamp, "assistant", c)];
    }

    ghost predicate Valid()
      reads this
    {
      KeysInOrder(View())
    }

    /** A fresh record with the field defaults. */
    constructor ()
      ensures Valid() && PointerValid(View()) && LedgerValid(View())
      ensures currentSection == None && nextAction == None && routingAttempts == 0
      ensures proposedSectionContent == None
      ensures jdSummary == None && contextSummary == None
      ensures sectionObjects == map[] && sectionKeys == [] && recommendedAnswers == map[] && context == []
      ensures resumeSections == None
      ensures sectionDone.Keys == set k | k in SectionNames
      ensures forall k :: k in sectionDone ==> !sectionDone[k]
    {
      jdSummary := None;
      resumeSections := None;
      sectionObjects := map[];
      sectionKeys := [];
      currentSection := None;
      sectionDone := map k | k in SectionNames :: false;
      context := [];
      contextSummary := None;
      recommendedAnswers := map[];
      routingAttempts := 0;
      nextAction := None;
      proposedSectionContent := None;
    }
  }
}
