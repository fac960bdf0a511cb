# Resume builder conversation state machine, in Dafny

This project models the conversation state machine of the resume-editing
assistant. Four handler nodes update one shared `ResumeBuilderState` record:

- general chat with routing into a section;
- section chat;
- the section updater;
- the section applier.

A transition table chooses the next handler from the record each one leaves.
The language model is an input to the model. The handlers take the decoded
decision map. The decision extractor and the applier's re-analysis take the
raw reply (`LlmReply`: no API key, a failed call, or the reply text), plus
`json.loads` as a `Parser` parameter.

How the model is built:

- **State.** The record is a class, `ResumeState.ResumeBuilderState`, with the
  source's fields. `View()` reads it as a `Snapshot` value.
- **Handlers.** Each handler is a method over the class. Each method is proved
  equal to a pure step function on snapshots that returns the new record and
  whether an exception escaped. The handler properties are proved about those
  step functions.
- **Invariants.** Three record invariants are kept by every handler:
  - `KeysInOrder`: the insertion-order list of section keys matches the
    section metadata;
  - `PointerValid`: the current section is unset or a known section;
  - `LedgerValid`: each answer list is as long as its question list.
- **Helpers.** The pure helpers are functions with their properties proved:
  - section-name resolution, including a Ratcliff/Obershelp similarity ratio;
  - the leftmost brace-block search of the JSON extractor;
  - question matching, as a stable sort by confidence.
- **Ledger copy.** `safe_initialize_answers` is a method with a copy loop over
  an array.

Two behaviours of the source follow from the model:

- **The router loops.** Every decision from `call_llm_json_decision` has action
  "answer" or "route", so section chat never switches, exits or hands over when
  fed by the real call (`SectionChat.SectionChatWithRealDecision`). Its "stay"
  branch clears `next_action`, and `route_from_section_chat` as written sends
  that back to `SectionChat`, so the turn loops (see Findings).
- **The updater never stages content from a reply in the requested format.**
  The reply format in the updater's prompt has no `action` key, so a reply in
  that format becomes the extractor's error answer. The updater then reports
  trouble and stages nothing (`SectionUpdater.RequestedFormatIsRejected`). A
  reply with a valid `action` and a truthy `updated_content` is staged.

This is why the handlers are modelled over an arbitrary decision map, with the
composition with the real decision call stated as separate lemmas.

## Model

| member | source | states |
|---|---|---|
| ResumeState.MakeMessage | agents/resume_builder_state.py:32-40 | The message carries the given role and content, and the id and timestamp supplied for it |
| ResumeState.ResumeBuilderState.constructor | agents/resume_builder_state.py:11-30 | A fresh record: no section, no next step, counter 0, nothing staged; empty metadata, answers and history; `resume_sections` unset; `section_done` has exactly the eleven names, all false; all three invariants hold |
| ResumeState.ResumeBuilderState.Say | agents/general_chat_section_routing.py:375 | Appending an assistant message changes only the history, by exactly that message |
| ResumeState.PointerValid | agents/general_chat_section_routing.py:350-361 | The record invariant that the current section is unset or has metadata; kept by every handler (`GeneralChatKeepsInvariants`, `SectionChatKeepsPointer`, `SectionApplierKeepsInvariants`) |
| ResumeState.LedgerValid | agents/general_chat_section_routing.py:189-201 | The record invariant that each answer list with metadata and sized questions has one entry per question; kept by every handler (`GeneralChatKeepsInvariants`, `SectionChatKeepsLedger`, `SectionApplierKeepsInvariants`) |
| AnswerLedger.Blank | agents/general_chat_section_routing.py:192 | `[""] * n` has length n and only empty strings |
| AnswerLedger.Reconciled | agents/general_chat_section_routing.py:189-201 | The list has one entry per question; the first min(old, new) answers are kept and the rest are blank; a list of the right length is kept as is; a missing list becomes all blanks |
| AnswerLedger.SafeInitializeAnswers | agents/general_chat_section_routing.py:189-201 | Raises exactly when the question value has no length, changing nothing; otherwise only this section's list changes, to the reconciled list (copy loop over an array) |
| Text.Lower | agents/general_chat_section_routing.py:99 | Same length; each character is lower-cased |
| Text.Strip | agents/general_chat_section_routing.py:99 | The result is a slice of the text with only whitespace before and after it; it has no whitespace at either end, and is empty exactly when the text is all whitespace |
| Text.WordStartsAreAllStarts | agents/general_chat_section_routing.py:209 | The word starts listed are, in ascending order, exactly the positions holding a non-whitespace character at the start of the text or after whitespace |
| Text.Words | agents/general_chat_section_routing.py:209 | `split()` yields only non-empty words without whitespace |
| Text.WordsAreMaximalRuns | agents/general_chat_section_routing.py:209 | `split()` yields one word per word start, in order: word k is the maximal non-whitespace run starting at the k-th word start |
| BraceSpan.MatchAt | agents/general_chat_section_routing.py:162 | A match at p starts with `{` at p and ends with `}` inside the text |
| BraceSpan.Search | agents/general_chat_section_routing.py:162 | `re.search` returns the leftmost position where the pattern matches, and nothing only when no position matches |
| BraceSpan.MatchEndSound | agents/general_chat_section_routing.py:162 | Whatever the scan returns closes the object with braces nested at most one level |
| BraceSpan.MatchEndComplete | agents/general_chat_section_routing.py:162 | Every such closing position is the one the scan returns |
| BraceSpan.MatchAtIsFlatObject | agents/general_chat_section_routing.py:162 | The pattern matches `s[p..e]` exactly when that slice is an object with braces nested at most one level |
| BraceSpan.SearchIsLeftmost | agents/general_chat_section_routing.py:162-163 | The search finds a flat object with none starting further left, and finds nothing exactly when the text contains no flat object |
| DecisionExtractor.AnswerDecision | agents/general_chat_section_routing.py:165 | An answer decision has exactly the keys action, route and answer, with action "answer" and route None |
| DecisionExtractor.Validate | agents/general_chat_section_routing.py:168-187 | A ValueError exactly when the block does not decode, is not an object, or lacks `action`; an unhashable action raises another error; otherwise the keys are kept, every key but `action` is unchanged, a valid action is kept and any other becomes "answer" |
| DecisionExtractor.ExtractAndValidateJson | agents/general_chat_section_routing.py:153-187 | Blank text raises ValueError; text without a block becomes an answer decision with the stripped text; otherwise the leftmost block is decoded and validated; every result has action "answer" or "route" |
| DecisionExtractor.CallLlmJsonDecision | agents/general_chat_section_routing.py:239-254 | Never raises: offline gives the fixed offline answer; a failed call or a failed extraction gives the fixed error answer; otherwise the extracted decision; the action is always "answer" or "route" |
| DecisionExtractor.PlainReplyIsAnswered | agents/general_chat_section_routing.py:161-165 | A non-blank reply without `{` is answered with its stripped text |
| DecisionExtractor.EmbeddedObjectIsDecoded | agents/general_chat_section_routing.py:161-169 | A flat object preceded by brace-free text is the block that is decoded |
| DecisionExtractor.ObjectWithoutActionIsRejected | agents/general_chat_section_routing.py:243-254 | A reply whose block decodes to an object without `action` becomes the error answer |
| QuestionMatching.WordSet | agents/general_chat_section_routing.py:209 | The lower-cased word set contains no empty word |
| QuestionMatching.Common | agents/general_chat_section_routing.py:215 | The shared words lie in both word sets |
| QuestionMatching.Confidence | agents/general_chat_section_routing.py:216-218 | Shared words over question words (at least 1) lies in (0, 1] |
| QuestionMatching.Candidates | agents/general_chat_section_routing.py:211-219 | The loop lists, in ascending position, exactly one candidate per question sharing a word with the answer |
| QuestionMatching.Insert | agents/general_chat_section_routing.py:222 | Inserting a later candidate keeps the order (confidence descending, ties by position) and adds exactly that element |
| QuestionMatching.SortDescending | agents/general_chat_section_routing.py:222 | The stable sort is a permutation of its input, ordered by confidence descending with ties in position order |
| QuestionMatching.DetectQuestionMatches | agents/general_chat_section_routing.py:203-222 | The result is a permutation of the candidates, highest confidence first, ties by position |
| QuestionMatching.MatchesAreTheOverlappingQuestions | agents/general_chat_section_routing.py:211-222 | Every result is a question sharing a word with the answer, with its text and its confidence in (0, 1]; every such question is in the result |
| Similarity.Run | agents/general_chat_section_routing.py:146 | The run from (i, j) is a common block inside both windows, and cannot be extended |
| Similarity.LongestMatch | agents/general_chat_section_routing.py:146 | A common block of the two windows that no run in the windows is longer than; every run starting earlier (by row in `a`, then by column in `b`) is strictly shorter, so ties go to the earliest; with no common character it is `(alo, blo, 0)` |
| Similarity.MatchCount | agents/general_chat_section_routing.py:146 | The matching-block total is at most either window's length, and 0 exactly when the windows share no character |
| Similarity.Ratio | agents/general_chat_section_routing.py:146 | The ratio 2M/(\|a\|+\|b\|) lies in [0, 1] |
| Similarity.RatioZeroIffDisjoint | agents/general_chat_section_routing.py:146 | The ratio is 0 exactly when the strings share no character |
| Similarity.AboveThresholdInIntegers | agents/general_chat_section_routing.py:147 | The ratio exceeds 0.6 exactly when 10·M > 3·(\|a\|+\|b\|) |
| Similarity.RatioOfEqualStrings | agents/general_chat_section_routing.py:146 | A string's ratio against itself is 1 |
| Similarity.MatchCountOfEqualStrings | agents/general_chat_section_routing.py:146 | A non-empty string matches itself in full |
| SectionResolver.EntryFromIsFirst | agents/general_chat_section_routing.py:135-136 | A lookup in a table of entries finds the name in the first entry for the key, and nothing only when no entry has the key |
| SectionResolver.Alias | agents/general_chat_section_routing.py:106-136 | The lookup of a cleaned name in the 26-entry alias table, in its written order; its meaning is stated by `AliasIsFirstEntry` |
| SectionResolver.AliasIsFirstEntry | agents/general_chat_section_routing.py:106-136 | The alias of a key is the canonical name in the table's first entry for that key, and there is none exactly when the table has no entry for it |
| SectionResolver.Similarities | agents/general_chat_section_routing.py:145-146 | One ratio per candidate, in candidate order |
| SectionResolver.BestFrom | agents/general_chat_section_routing.py:142-149 | The loop keeps nothing when no ratio exceeds 0.6; otherwise it keeps a candidate with the highest ratio, above 0.6, with every earlier candidate strictly lower (the first maximum) |
| SectionResolver.FuzzyIndex | agents/general_chat_section_routing.py:141-151 | The same for the ratios against the cleaned input |
| SectionResolver.NormalizeSectionName | agents/general_chat_section_routing.py:90-151 | An empty name or no candidates gives None; any result is one of the candidates |
| SectionResolver.NormalizeExact | agents/general_chat_section_routing.py:99-103 | A cleaned name that is a candidate is returned as is |
| SectionResolver.NormalizeAlias | agents/general_chat_section_routing.py:135-139 | Otherwise an alias whose canonical name is a candidate resolves to that name |
| SectionResolver.NormalizeFuzzy | agents/general_chat_section_routing.py:141-151 | Otherwise the result is None exactly when no ratio exceeds 0.6, and else a candidate with the highest ratio, above 0.6, and the first one: every earlier candidate's ratio is strictly lower |
| SectionResolver.Resolve | agents/general_chat_section_routing.py:95-99 | Applied to a decision value: a falsy value or no candidates gives None; a truthy non-string raises at `.lower()`; a string is normalized; a found section is a candidate |
| SectionResolver.CanonicalNameResolvesToItself | agents/general_chat_section_routing.py:98-103 | A lower-case, trimmed candidate name resolves to itself |
| SectionResolver.AliasResolves | agents/general_chat_section_routing.py:106-139 | The name "exp", against the candidates "experiences" and "skills", resolves through the alias table to "experiences" |
| SectionResolver.NoSharedCharacter | agents/general_chat_section_routing.py:141-151 | A name that is no applicable alias and shares no character with any candidate resolves to None |
| GeneralChat.Decide | agents/general_chat_section_routing.py:339-388 | The decision branches below the cap: an unresolvable route, a route to a section, and an answer; its effect is stated by `DecideEffect` |
| GeneralChat.GeneralChatStep | agents/general_chat_section_routing.py:259-388 | One run of the handler on a record, with the decision as input; its effect is stated by `GeneralChatStepEffect` and `GeneralChatKeepsInvariants` |
| GeneralChat.DecideEffect | agents/general_chat_section_routing.py:350-378 | A route that resolves sets only the section and "section_chat" and appends nothing; every other decision clears the next step, keeps the pointer and appends exactly one message |
| GeneralChat.GeneralChatStepEffect | agents/general_chat_section_routing.py:273-388 | At the cap everything is reset and one fixed message is appended. It raises exactly when below the cap and a `missing_requirements` value cannot be sliced, with the counter incremented. Otherwise the counter is 0, and a section is entered exactly when the route decision resolves; it is a known key with "section_chat" and no message; without a section the next step is None and one message is appended. No other field changes |
| GeneralChat.GeneralChatKeepsInvariants | agents/general_chat_section_routing.py:350-361 | The handler keeps all three invariants, and a section it enters has metadata |
| GeneralChat.RouteToKnownSection | agents/general_chat_section_routing.py:350-361 | Below the cap, a route to an exact, already clean section key enters it with counter 0 and no message |
| GeneralChat.ApplyDecision | agents/general_chat_section_routing.py:339-388 | The method's new record is the decision function's |
| GeneralChat.CompactSummaries | agents/general_chat_section_routing.py:306-311 | The loop succeeds exactly when every section's `missing_requirements` can be sliced |
| GeneralChat.GeneralChatAndSectionRouting | agents/general_chat_section_routing.py:259-388 | The handler's new record and escaping exception are the step function's |
| SectionChat.AllQuestionsAnswered | agents/section_nodes.py:51-55 | The `all_questions_answered` flag: the questions have a length, at least one, with one non-blank answer each |
| SectionChat.UpdateAnswers | agents/section_nodes.py:106-112 | The answer list keeps its length |
| SectionChat.UpdateAnswersEffect | agents/section_nodes.py:106-112 | Positions outside the updates are untouched; a changed position holds the stripped, non-blank string from that position; the loop raises exactly when a truthy non-string sits at a position the list has |
| SectionChat.UpdateIsStored | agents/section_nodes.py:110-112 | Without a raise, a non-blank string at a position the list has is stored stripped |
| SectionChat.Dispatch | agents/section_nodes.py:117-173 | It raises only when resolving a switch target raises. Only the pointer, the history and the next step change, and at most one message is appended. A switch always asks for "section_chat": to a known section when the section changes, with one acknowledgement when it is the same (the message itself: `DispatchMessage`). Exit clears the section, asks for "exit_to_general" and appends one message. The two triggers ask for the updater and the applier. Anything else asks for no next step |
| SectionChat.DispatchMessage | agents/section_nodes.py:117-173 | The message appended: for a switch to the current section, the model's answer when truthy and otherwise "already in"; for a target that resolves to nothing or "", the "not found" message, staying put; for a switch to another section, the answer when truthy and nothing otherwise; for exit, the answer when truthy and otherwise "returning"; for the triggers and anything else, the answer exactly when it is truthy |
| SectionChat.Recovered | agents/section_nodes.py:175-182 | The error handler appends one message and asks for "section_chat", changing nothing else |
| SectionChat.Initialized | agents/section_nodes.py:36-38 | Only the current section's answer list changes, to one entry per question |
| SectionChat.AfterUpdates | agents/section_nodes.py:105-114 | Only the current section's answer list changes, and keeps its length; a raise needs an `updated_answers` list |
| SectionChat.SectionChatStep | agents/section_nodes.py:18-182 | Without a section: one "Please select" message and "exit_to_general". Otherwise it raises exactly when the question value has no length, changing nothing |
| SectionChat.SectionChatFrame | agents/section_nodes.py:102-182 | Only the pointer, the history, the answers and the next step change; the history grows by at most one message |
| SectionChat.SectionChatLedger | agents/section_nodes.py:36-114 | The current section's answer list has one entry per question, other lists are untouched, and each entry is the kept answer or the stripped non-blank update at that position |
| SectionChat.SectionChatStoresAnswer | agents/section_nodes.py:110-112 | With all-string updates, a non-blank update at a question's position is stored stripped |
| SectionChat.SectionChatKeepsInvariants | agents/section_nodes.py:117-152 | The handler keeps all three invariants |
| SectionChat.SectionChatKeepsPointer | agents/section_nodes.py:121-152 | The key order is kept, and a switched-to section is a known key |
| SectionChat.SectionChatKeepsLedger | agents/section_nodes.py:36-112 | Answer lists stay as long as their question lists |
| SectionChat.SectionChatNextAction | agents/section_nodes.py:117-182 | The next step is one of the four tags or None. "exit_to_general" only with no section set; the updater and the applier only on their triggers; a change of section only by a switch, with "section_chat" |
| SectionChat.SectionChatWithRealDecision | agents/section_nodes.py:102-173 | Fed by the real decision call, the section never changes, and the next step is None, or "section_chat" only after a failing `updated_answers` list |
| SectionChat.ApplyUpdatedAnswers | agents/section_nodes.py:106-114 | The in-place loop leaves the answers of the loop function and raises when it does |
| SectionChat.SwitchSection | agents/section_nodes.py:121-144 | The switch branch leaves the dispatch function's record, or raises with nothing changed |
| SectionChat.DispatchAction | agents/section_nodes.py:117-173 | The dispatch method leaves the dispatch function's record, or raises with nothing changed |
| SectionChat.SectionChatNode | agents/section_nodes.py:18-182 | The handler's new record and escaping exception are the step function's |
| SectionUpdater.SectionUpdaterStep | agents/section_nodes.py:184-253 | Without a section only "exit_to_general" is set. It raises exactly when `resume_sections` is unset or the questions cannot be zipped, changing nothing. Otherwise exactly one message is appended and the next step is "section_chat". Truthy `updated_content` is staged, and otherwise the staged content is kept. Nothing else changes |
| SectionUpdater.RequestedFormatIsRejected | agents/section_nodes.py:201-240 | A reply in the format the prompt requests (no `action`) stages nothing, and the handler reports trouble |
| SectionUpdater.SectionUpdaterNode | agents/section_nodes.py:184-253 | The handler's new record and escaping exception are the step function's |
| SectionApplier.WithDefaults | agents/section_nodes.py:341-345 | Missing values default to 70, [], [] and "Updated successfully"; present values are kept |
| SectionApplier.OfflineAnalysis | agents/section_nodes.py:320-326 | The fixed offline analysis; `OfflineApplyAsksOneQuestion` states that it gives score 75 and exactly one recommended question |
| SectionApplier.Analyze | agents/section_nodes.py:311-345 | The re-analysis of the committed content, `None` when it raises; its meaning is stated by `AnalyzeRaises` |
| SectionApplier.AnalyzeRaises | agents/section_nodes.py:320-345 | The re-analysis raises exactly when the call fails or the block decodes to a non-object. A reply without a decodable block keeps every default |
| SectionApplier.Remeta | agents/section_nodes.py:351-355 | Only the three analysis keys are overwritten, and every other metadata key is kept |
| SectionApplier.WithMeta | agents/section_nodes.py:347-355 | The metadata write of a successful analysis; `UpdateMeta` and `AppliedMetaKeepsInvariants` state what it changes and keeps |
| SectionApplier.ApplyChanges | agents/section_nodes.py:289-381 | It raises exactly when `resume_sections` is unset, changing nothing. The content is committed first and one message is appended. A failed analysis keeps the commit, changes no metadata or answers, and reports "saved but analysis failed". A successful one overwrites the metadata, adding the section key if new. The answers become `[]` for falsy questions and `[""] * len` otherwise; they are unchanged when the questions have no length |
| SectionApplier.ContentToApply | agents/section_nodes.py:265-268 | Truthy staged content wins. Otherwise, with `resume_sections` set, the section's stored content ("" when absent) is used; it raises only when `resume_sections` is unset |
| SectionApplier.SectionApplierStep | agents/section_nodes.py:255-287 | Without a section only "exit_to_general" is set. Empty content appends "No content to apply" and changes nothing else. Applied content is committed, the staged content is cleared, the section is kept, one message is appended and the next step is "section_chat" |
| SectionApplier.OfflineApplyAsksOneQuestion | agents/section_nodes.py:320-326 | Offline, the section gets score 75, one blank answer and the matching confirmation |
| SectionApplier.PlainReplyAppliesDefaults | agents/section_nodes.py:333-345 | A reply without a brace gives score 70, no questions, an empty answer list and the "complete" confirmation |
| SectionApplier.NoBraceNoAnalysisFields | agents/section_nodes.py:333-337 | A reply without a brace yields all the defaults |
| SectionApplier.SectionApplierKeepsInvariants | agents/section_nodes.py:347-361 | The handler keeps all three invariants |
| SectionApplier.AppliedMetaKeepsInvariants | agents/section_nodes.py:347-361 | New metadata and reset answers keep the key order, the pointer and the ledger |
| SectionApplier.UpdateMeta | agents/section_nodes.py:347-355 | The in-place metadata update matches the metadata function, and a new section key goes last |
| SectionApplier.ApplySectionChangesInternal | agents/section_nodes.py:289-381 | The method's new record and escaping exception are the apply function's |
| SectionApplier.SectionApplierNode | agents/section_nodes.py:255-287 | The handler's new record and escaping exception are the step function's |
| Graph.ValidSectionsAreTheSectionNames | graph_builder.py:91-95 | The router's hard-coded names are exactly the record's eleven section names |
| Graph.Edges | graph_builder.py:147-185 | Only general chat and section chat may end the run, and every handler can reach section chat |
| Graph.RouteFromGeneralChat | graph_builder.py:78-102 | The result is an edge of the node. At three attempts or more it is END. It is SectionChat exactly when the next step is "section_chat" and the section is one of the eleven names |
| Graph.RouteFromSectionChat | graph_builder.py:104-120 | The result is an edge and never END; each of the three other tags leads to its node, and everything else, None included, to SectionChat |
| Graph.RouteFromSectionChatIntended | graph_builder.py:104-120 | The same router, except that no next step ends the run |
| Graph.RouteFromSectionUpdater | graph_builder.py:122-133 | The result is an edge; "section_applier" leads to the applier and "exit_to_general" to general chat |
| Graph.RouteFromSectionApplier | graph_builder.py:135-144 | The result is an edge; general chat exactly on "exit_to_general" |
| Graph.Transition | graph_builder.py:78-185 | With the routers as written, every router's result is an edge registered for its node; END stays END; section chat never leads to END |
| Graph.TransitionIntended | graph_builder.py:147-185 | With the intended section-chat router, the results are still registered edges, equal to `Transition` except when section chat leaves no next step, which ends the run |
| Graph.GeneralChatThenRoute | graph_builder.py:78-102 | After general chat, the run enters a section exactly when the decision resolves to a key that is one of the eleven names, and ends otherwise |
| Graph.SectionChatTurnLoops | graph_builder.py:118-120 | As written, a section-chat turn fed by the real decision call is always routed back to SectionChat |
| Graph.SectionChatTurnEnds | graph_builder.py:163-164 | With the intended router, the same turn ends the run, unless the error handler asked for another pass |

## Left out

- The network call, response plumbing and API-key reading (`acompletion`, `safe_extract_text`, `maybe_print_usage`): the reply is a parameter (`LlmReply`).
- The prompt texts and payloads. They only feed the model. The `all_questions_answered` flag (`SectionChat.AllQuestionsAnswered`) is defined but feeds only the prompt.
- The handlers' first-turn detection, for the same reason.
- `json.loads` is a `Parser` parameter, and decoded numbers are integers only; fractional numbers are not modelled.
- Message texts: each fixed or formatted reply is a `Content` variant carrying the values it interpolates. The rendering into words, including `sorted(available_sections)`, is not modelled.
- The uuid and the clock reading in `make_message` are a `Stamp` parameter.
- The Pydantic fallback in `make_message` is out of scope.
- The `print` logging is left out.
- `Text.Lower`: maps only the ASCII letters, unlike Python's Unicode `lower()`.
- `Similarity.Ratio`: ignores difflib's autojunk heuristic. That heuristic only applies when the second string has at least 200 characters, and the candidates are section names.
- The pyagenity engine is not modelled: graph compilation, the checkpointer, `ainvoke`, the recursion limit of 50 (graph_builder.py:238), and async scheduling. The handlers run as sequential methods, and `Graph.Transition` gives one step of the run.
- `Graph.TransitionIntended` uses `RouteFromSectionChatIntended` for the section-chat edge, beside `Graph.Transition` with the routers as written (see Findings).
- `Graph.Edges`: each path map sends a name to the node of the same name, so only its keys are modelled.
- `run_interactive_session` is not modelled: terminal I/O and trimming the history to 20 messages. main.py is not part of this model.
- The `except ValueError` branch of general chat can never run, because `call_llm_json_decision` catches every exception. It is therefore not modelled.
- The `hasattr` checks are not modelled as such. After the `delattr` at agents/section_nodes.py:282-283 the staged content is modelled as None: `getattr(..., None)` at line 265 reads None for a missing attribute, and a false check at line 282 skips a `delattr` that would only remove it again, so the missing case behaves like None. The checks on `resume_sections` (agents/section_nodes.py:294) and `routing_attempts` (agents/general_chat_section_routing.py:270) name declared fields that nothing deletes, so they always hold.
- `delattr(state, 'proposed_section_content')` is modelled as resetting the staged content to None.
- `execution_meta` and its engine type are not modelled.

## Findings

| source | as written | input that shows it | evidently intended | confidence | as-written member | corrected member |
|---|---|---|---|---|---|---|
| graph_builder.py:118-120 | `route_from_section_chat` maps a cleared `next_action` (None) back to `SectionChat`, so the END edge registered at line 164 is unreachable | Any section-chat turn fed by `call_llm_json_decision` that does not fail in its answer updates: the action is "answer" or "route", the stay branch sets `next_action = None`, and the turn loops until the engine's recursion limit | None ends the run, as the edge map's comment at line 164 and the stay branch's comment at agents/section_nodes.py:170 say | not executed | Graph.SectionChatTurnLoops | Graph.SectionChatTurnEnds |
