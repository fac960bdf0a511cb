/**
 * `general_chat_and_section_routing`: the general-chat handler, with its
 * routing-attempt counter and loop cap, and the only entry into a section.
 * The decision map is what `call_llm_json_decision` returned for this turn.
 */
module GeneralChat {
  import opened Wrappers
  import opened Json
  import opened ResumeState
  import opened Text
  import opened SectionResolver

  /** `MAX_ROUTING_ATTEMPTS`. */
  const MaxRoutingAttempts: int := 3

  /** The `missing_requirements` value of one section's metadata (default `[]`). */
  function MissingOf(meta: map<string, Json>): Json
  {
    Get(meta, "missing_requirements", JArr([]))
  }

  /** Building the compact section summaries slices `missing_requirements[:2]` of every section. */
  predicate SummaryFails(s: Snapshot)
  {
    exists section :: section in s.sectionObjects && !Sliceable(MissingOf(s.sectionObjects[section]))
  }

  /** How a `route` decision resolves against the section keys. */
  function RouteResolution(decision: map<string, Json>, available: seq<string>): Result<Option<string>, Fault>
  {
    Resolve(Get(decision, "route", JNull), available)
  }

  /** The decision asks for a section: its action is "route" and its target is truthy. */
  predicate AsksToRoute(decision: map<string, Json>)
  {
    Get(decision, "action", JNull) == JStr("route") && Truthy(Get(decision, "route", JNull))
  }

  /** The decision resolves to a section the handler enters. */
  predicate Enters(decision: map<string, Json>, available: seq<string>)
  {
    AsksToRoute(decision) &&
    var res := RouteResolution(decision, available);
    res.Ok? && res.value.Some? && res.value.value != ""
  }

  /** The record after the decision was handled, from the record `s` left before the call. */
  function Decide(s: Snapshot, decision: map<string, Json>, stamp: Stamp): Snapshot
  {
    var route := Get(decision, "route", JNull);
    var answer := Get(decision, "answer", JStr(""));
    if AsksToRoute(decision) then
      match RouteResolution(decision, s.sectionKeys)
      case Err(_) => Said(s.(nextAction := None), stamp, HowCanIHelp)
      case Ok(found) =>
        if found.Some? && found.value != "" then
          s.(currentSection := found, nextAction := Some(SectionChatTag))
        else
          Said(s.(nextAction := None), stamp, SectionNotFound(route, s.sectionKeys))
    else if Truthy(answer) then
      Said(s.(nextAction := None), stamp, Verbatim(answer))
    else
      Said(s.(nextAction := None), stamp, HowCanIHelpToday)
  }

  /** One invocation of the handler on the record `s`. */
  function GeneralChatStep(s: Snapshot, decision: map<string, Json>, stamp: Stamp): Outcome
  {
    if s.routingAttempts >= MaxRoutingAttempts then
      Outcome(Said(s.(currentSection := None, routingAttempts := 0, nextAction := None), stamp, StartFresh), false)
    else
      var counted := s.(routingAttempts := s.routingAttempts + 1);
      var general := if counted.currentSection.Some? then counted.(currentSection := None, nextAction := None)
                     else counted;
      if SummaryFails(general) then Outcome(general, true)
      else
        var returned := general.(routingAttempts := 0);
        Outcome(Decide(returned, decision, stamp), false)
  }

  /** The message list grew by exactly one message at its end. */
  predicate OneMore(before: seq<Message>, after: seq<Message>)
  {
    |after| == |before| + 1 && after[..|before|] == before
  }

  /**
   * What handling the decision does: entering the resolved section changes only
   * the pointer and the next step; anything else appends one message, clears the
   * next step and leaves the pointer alone.
   */
  lemma DecideEffect(s: Snapshot, decision: map<string, Json>, stamp: Stamp)
    ensures Enters(decision, s.sectionKeys) ==>
      Decide(s, decision, stamp) ==
        s.(currentSection := RouteResolution(decision, s.sectionKeys).value, nextAction := Some(SectionChatTag))
    ensures !Enters(decision, s.sectionKeys) ==>
      var r := Decide(s, decision, stamp);
      r == s.(context := r.context, nextAction := None) && OneMore(s.context, r.context)
  {
  }

  /** One invocation of the handler: the loop cap, the counter, the routing outcome. */
  lemma GeneralChatStepEffect(s: Snapshot, decision: map<string, Json>, stamp: Stamp)
    // the loop cap: one fixed message, everything reset
    ensures s.routingAttempts >= MaxRoutingAttempts ==>
      GeneralChatStep(s, decision, stamp) ==
        Outcome(Said(s.(currentSection := None, routingAttempts := 0, nextAction := None), stamp, StartFresh), false)
    // an unsliceable summary raises after the counter was incremented
    ensures GeneralChatStep(s, decision, stamp).raised <==> s.routingAttempts < MaxRoutingAttempts && SummaryFails(s)
    ensures var r := GeneralChatStep(s, decision, stamp);
      r.raised ==> r.state.routingAttempts == s.routingAttempts + 1 && r.state.context == s.context
    // otherwise the counter is reset, and the section is entered exactly when the decision resolves to one
    ensures var r := GeneralChatStep(s, decision, stamp);
      s.routingAttempts < MaxRoutingAttempts && !r.raised ==>
        && r.state.routingAttempts == 0
        && (r.state.currentSection.Some? <==> Enters(decision, s.sectionKeys))
        && (r.state.currentSection.Some? ==>
              r.state.currentSection.value in s.sectionKeys &&
              r.state.nextAction == Some(SectionChatTag) && r.state.context == s.context)
        && (r.state.currentSection.None? ==> r.state.nextAction == None && OneMore(s.context, r.state.context))
    // nothing else changes
    ensures var r := GeneralChatStep(s, decision, stamp).state;
      r == s.(currentSection := r.currentSection, context := r.context,
              routingAttempts := r.routingAttempts, nextAction := r.nextAction)
  {
    if s.routingAttempts < MaxRoutingAttempts {
      var counted := s.(routingAttempts := s.routingAttempts + 1);
      var general := if counted.currentSection.Some? then counted.(currentSection := None, nextAction := None)
                     else counted;
      DecideEffect(general.(routingAttempts := 0), decision, stamp);
    }
  }

  /** The handler keeps the record's invariants; the section pointer is a known key or unset. */
  lemma {:induction false} GeneralChatKeepsInvariants(s: Snapshot, decision: map<string, Json>, stamp: Stamp)
    requires KeysInOrder(s)
    ensures KeysInOrder(GeneralChatStep(s, decision, stamp).state)
    ensures LedgerValid(s) ==> LedgerValid(GeneralChatStep(s, decision, stamp).state)
    ensures PointerValid(GeneralChatStep(s, decision, stamp).state)
    ensures !GeneralChatStep(s, decision, stamp).raised ==>
      GeneralChatStep(s, decision, stamp).state.currentSection.None? ||
      GeneralChatStep(s, decision, stamp).state.currentSection.value in s.sectionObjects
  {
    GeneralChatStepEffect(s, decision, stamp);
    var r := GeneralChatStep(s, decision, stamp).state;
    assert r.sectionObjects == s.sectionObjects && r.sectionKeys == s.sectionKeys;
    assert QuestionsOf(r, "") == QuestionsOf(s, "");
    if r.currentSection.Some? {
      assert r.currentSection.value in s.sectionKeys;
    }
  }

  /**
   * A route decision naming an existing section exactly (already lower-case and
   * trimmed) enters that section, below the loop cap.
   */
  lemma {:induction false} RouteToKnownSection(s: Snapshot, decision: map<string, Json>, stamp: Stamp, section: string)
    requires s.routingAttempts < MaxRoutingAttempts && !SummaryFails(s)
    requires "action" in decision && decision["action"] == JStr("route")
    requires "route" in decision && decision["route"] == JStr(section)
    requires section != "" && section in s.sectionKeys
    requires forall i :: 0 <= i < |section| ==> !('A' <= section[i] <= 'Z')
    requires !IsSpace(section[0]) && !IsSpace(section[|section| - 1])
    ensures GeneralChatStep(s, decision, stamp) ==
      Outcome(s.(currentSection := Some(section), routingAttempts := 0, nextAction := Some(SectionChatTag)), false)
  {
    var counted := s.(routingAttempts := s.routingAttempts + 1);
    var general := if counted.currentSection.Some? then counted.(currentSection := None, nextAction := None)
                   else counted;
    assert general.sectionObjects == s.sectionObjects;
    assert !SummaryFails(general);
    var returned := general.(routingAttempts := 0);
    CanonicalNameResolvesToItself(section, s.sectionKeys);
    assert RouteResolution(decision, returned.sectionKeys) == Ok(Some(section));
    assert Enters(decision, returned.sectionKeys);
    assert GeneralChatStep(s, decision, stamp) == Outcome(Decide(returned, decision, stamp), false);
  }

  /** The `try` block after the decision call returned: routing or answering. */
  method ApplyDecision(state: ResumeBuilderState, decision: map<string, Json>, stamp: Stamp)
    modifies state`context, state`currentSection, state`nextAction
    ensures state.View() == Decide(old(state.View()), decision, stamp)
  {
    var route := Get(decision, "route", JNull);
    var answer := Get(decision, "answer", JStr(""));
    if AsksToRoute(decision) {
      var resolved := RouteResolution(decision, state.sectionKeys);
      if resolved.Err? {
        state.nextAction := None;
        state.Say(stamp, HowCanIHelp);
      } else if resolved.value.Some? && resolved.value.value != "" {
        state.currentSection := resolved.value;
        state.nextAction := Some(SectionChatTag);
      } else {
        state.nextAction := None;
        state.Say(stamp, SectionNotFound(route, state.sectionKeys));
      }
    } else {
      state.nextAction := None;
      if Truthy(answer) {
        state.Say(stamp, Verbatim(answer));
      } else {
        state.Say(stamp, HowCanIHelpToday);
      }
    }
  }

  /**
   * Builds the compact section summaries in insertion order; `false` when a
   * `missing_requirements` value cannot be sliced.
   */
  method CompactSummaries(objects: map<string, map<string, Json>>, keys: seq<string>) returns (ok: bool)
    requires (set k | k in keys) == objects.Keys
    ensures ok <==> forall section :: section in objects ==> Sliceable(MissingOf(objects[section]))
  {
    var i := 0;
    while i < |keys|
      invariant 0 <= i <= |keys|
      invariant forall j :: 0 <= j < i ==> Sliceable(MissingOf(objects[keys[j]]))
    {
      if !Sliceable(MissingOf(objects[keys[i]])) {
        assert keys[i] in objects;
        return false;
      }
      i := i + 1;
    }
    forall section | section in objects
      ensures Sliceable(MissingOf(objects[section]))
    {
      assert section in (set k | k in keys);
      var j :| 0 <= j < |keys| && keys[j] == section;
    }
    return true;
  }

  /** `general_chat_and_section_routing(state, config)`; `raised` when an exception escapes. */
  method GeneralChatAndSectionRouting(state: ResumeBuilderState, decision: map<string, Json>, stamp: Stamp)
    returns (raised: bool)
    requires state.Valid()
    modifies state`context, state`currentSection, state`nextAction, state`routingAttempts
    ensures Outcome(state.View(), raised) == GeneralChatStep(old(state.View()), decision, stamp)
  {
    ghost var s := state.View();
    if state.routingAttempts >= MaxRoutingAttempts {
      state.currentSection := None;
      state.routingAttempts := 0;
      state.nextAction := None;
      state.Say(stamp, StartFresh);
      return false;
    }
    state.routingAttempts := state.routingAttempts + 1;
    if state.currentSection.Some? {
      state.currentSection := None;
      state.nextAction := None;
    }
    var summarized := CompactSummaries(state.sectionObjects, state.sectionKeys);
    if !summarized {
      return true;
    }
    state.routingAttempts := 0;
    ghost var returned := state.View();
    assert GeneralChatStep(s, decision, stamp) == Outcome(Decide(returned, decision, stamp), false);
    ApplyDecision(state, decision, stamp);
    return false;
  }
}
