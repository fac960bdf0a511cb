/**
 * The transition table of the conversation graph (`graph_builder.py`): which
 * node runs after each handler, read off the record the handler left.
 */
module Graph {
  import opened Wrappers
  import opened Json
  import opened ResumeState
  import GC = GeneralChat
  import Chat = SectionChat
  import DecisionExtractor

  /** The graph's nodes, and `END`. */
  datatype Node = GeneralChat | SectionChat | SectionUpdater | SectionApplier | End

  /** The section names `route_from_general_chat` accepts. */
  const ValidSections: set<string> := {
    "skills", "experiences", "education", "projects",
    "summary", "contact", "certificates", "publications",
    "languages", "recommendations", "custom"
  }

  /** The hard-coded names are exactly the record's eleven section names. */
  lemma ValidSectionsAreTheSectionNames()
    ensures ValidSections == set k | k in SectionNames
  {
    assert SectionNames[0] == "skills" && SectionNames[10] == "custom";
  }

  /**
   * The destinations registered with `add_conditional_edges` for each node. Every
   * path map sends a name to the node of that name, so only its keys matter.
   */
  function Edges(from: Node): (targets: set<Node>)
    ensures End !in targets || from in {GeneralChat, SectionChat}
    ensures from != End ==> SectionChat in targets
  {
    match from
    case GeneralChat => {SectionChat, End}
    case SectionChat => {SectionUpdater, SectionApplier, GeneralChat, SectionChat, End}
    case SectionUpdater => {SectionChat, SectionApplier, GeneralChat}
    case SectionApplier => {SectionChat, GeneralChat}
    case End => {}
  }

  /** `route_from_general_chat`. */
  function RouteFromGeneralChat(s: Snapshot): (n: Node)
    ensures n in Edges(GeneralChat)
    ensures s.routingAttempts >= 3 ==> n == End
    ensures n == SectionChat <==>
      s.routingAttempts < 3 && s.nextAction == Some(SectionChatTag) &&
      s.currentSection.Some? && s.currentSection.value in ValidSections
  {
    if s.routingAttempts >= 3 then End
    else if s.nextAction == Some(SectionChatTag) && s.currentSection.Some? &&
            s.currentSection.value in ValidSections then SectionChat
    else End
  }

  /** `route_from_section_chat`, as written: anything but the three tags loops back. */
  function RouteFromSectionChat(s: Snapshot): (n: Node)
    ensures n in Edges(SectionChat) && n != End
    ensures n == SectionUpdater <==> s.nextAction == Some(SectionUpdaterTag)
    ensures n == SectionApplier <==> s.nextAction == Some(SectionApplierTag)
    ensures n == GeneralChat <==> s.nextAction == Some(ExitToGeneralTag)
  {
    if s.nextAction == Some(SectionUpdaterTag) then SectionUpdater
    else if s.nextAction == Some(SectionApplierTag) then SectionApplier
    else if s.nextAction == Some(ExitToGeneralTag) then GeneralChat
    else if s.nextAction == Some(SectionChatTag) then SectionChat
    else SectionChat
  }

  /**
   * `route_from_section_chat` as its edge map and the stay branch of
   * `section_chat_node` intend it: no next step ends the run.
   */
  function RouteFromSectionChatIntended(s: Snapshot): (n: Node)
    ensures n in Edges(SectionChat)
    ensures n == End <==> s.nextAction.None?
    ensures s.nextAction.Some? ==> n == RouteFromSectionChat(s)
  {
    if s.nextAction.None? then End else RouteFromSectionChat(s)
  }

  /** `route_from_section_updater`. */
  function RouteFromSectionUpdater(s: Snapshot): (n: Node)
    ensures n in Edges(SectionUpdater)
    ensures n == SectionApplier <==> s.nextAction == Some(SectionApplierTag)
    ensures n == GeneralChat <==> s.nextAction == Some(ExitToGeneralTag)
  {
    if s.nextAction == Some(SectionApplierTag) then SectionApplier
    else if s.nextAction == Some(ExitToGeneralTag) then GeneralChat
    else SectionChat
  }

  /** `route_from_section_applier`. */
  function RouteFromSectionApplier(s: Snapshot): (n: Node)
    ensures n in Edges(SectionApplier)
    ensures n == GeneralChat <==> s.nextAction == Some(ExitToGeneralTag)
  {
    if s.nextAction == Some(ExitToGeneralTag) then GeneralChat else SectionChat
  }

  /**
   * The node that runs after `from` has left the record `s`, with the routers
   * as written; `End` stays put, and section chat never ends the run.
   */
  function Transition(from: Node, s: Snapshot): (n: Node)
    ensures from != End ==> n in Edges(from)
    ensures from == End ==> n == End
    ensures from == SectionChat ==> n != End
  {
    match from
    case GeneralChat => RouteFromGeneralChat(s)
    case SectionChat => RouteFromSectionChat(s)
    case SectionUpdater => RouteFromSectionUpdater(s)
    case SectionApplier => RouteFromSectionApplier(s)
    case End => End
  }

  /**
   * The same step with the intended section-chat router: it differs from
   * `Transition` only when section chat leaves no next step, and then ends the run.
   */
  function TransitionIntended(from: Node, s: Snapshot): (n: Node)
    ensures from != End ==> n in Edges(from)
    ensures from == End ==> n == End
    ensures from != SectionChat || s.nextAction.Some? ==> n == Transition(from, s)
    ensures from == SectionChat ==> (n == End <==> s.nextAction.None?)
  {
    match from
    case SectionChat => RouteFromSectionChatIntended(s)
    case _ => Transition(from, s)
  }

  /**
   * After general chat, the run enters a section exactly when the handler
   * resolved a decision to a section key that is also one of the eleven names,
   * and ends otherwise.
   */
  lemma {:induction false} GeneralChatThenRoute(s: Snapshot, decision: map<string, Json>, stamp: Stamp)
    requires !GC.GeneralChatStep(s, decision, stamp).raised
    ensures var r := GC.GeneralChatStep(s, decision, stamp).state;
      RouteFromGeneralChat(r) == SectionChat <==>
        s.routingAttempts < GC.MaxRoutingAttempts && GC.Enters(decision, s.sectionKeys) &&
        r.currentSection.value in ValidSections
    ensures RouteFromGeneralChat(GC.GeneralChatStep(s, decision, stamp).state) in {SectionChat, End}
  {
    GC.GeneralChatStepEffect(s, decision, stamp);
  }

  /**
   * As written, a section-chat turn fed by `call_llm_json_decision` never leaves
   * the section: the router sends it straight back to `SectionChat`, so the run
   * can only stop at the engine's recursion limit.
   */
  lemma {:induction false} SectionChatTurnLoops(s: Snapshot, reply: DecisionExtractor.LlmReply,
                                                parse: DecisionExtractor.Parser, stamp: Stamp)
    requires HasSection(s)
    requires !Chat.SectionChatStep(s, DecisionExtractor.CallLlmJsonDecision(reply, parse), stamp).raised
    ensures RouteFromSectionChat(Chat.SectionChatStep(s, DecisionExtractor.CallLlmJsonDecision(reply, parse), stamp).state)
      == SectionChat
  {
    Chat.SectionChatWithRealDecision(s, reply, parse, stamp);
  }

  /**
   * With the intended router, the same turn ends the run unless the section
   * handler fell into its error handler, which asks for another pass.
   */
  lemma {:induction false} SectionChatTurnEnds(s: Snapshot, reply: DecisionExtractor.LlmReply,
                                               parse: DecisionExtractor.Parser, stamp: Stamp)
    requires HasSection(s)
    requires !Chat.SectionChatStep(s, DecisionExtractor.CallLlmJsonDecision(reply, parse), stamp).raised
    ensures var d := DecisionExtractor.CallLlmJsonDecision(reply, parse);
      var r := Chat.SectionChatStep(s, d, stamp).state;
      TransitionIntended(SectionChat, r) in {End, SectionChat} &&
      (TransitionIntended(SectionChat, r) == End <==> r.nextAction.None?) &&
      (TransitionIntended(SectionChat, r) == SectionChat ==> Get(d, "updated_answers", JNull).JArr?)
  {
    Chat.SectionChatWithRealDecision(s, reply, parse, stamp);
  }
}
