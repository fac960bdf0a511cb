/**
 * `extract_and_validate_json` and the decision-shaping part of
 * `call_llm_json_decision`: how a language-model reply becomes a decision map.
 * The model's reply and `json.loads` are parameters.
 */
module DecisionExtractor {
  import opened Wrappers
  import opened Json
  import opened Text
  import opened BraceSpan

  /** `json.loads`: the decoded value, or `None` for a decoding error. */
  type Parser = string -> Option<Json>

  /** What the completion call produced. */
  datatype LlmReply =
    | Offline              // no API key is configured
    | CallFailed           // the call raised (connectivity, authentication, ...)
    | Replied(raw: string) // the reply text (empty when the reply had no text)

  /** A decision to answer in chat with `text`. */
  function AnswerDecision(text: Json): (d: map<string, Json>)
    ensures d.Keys == {"action", "route", "answer"}
    ensures d["action"] == JStr("answer") && d["route"] == JNull && d["answer"] == text
  {
    map["action" := JStr("answer"), "route" := JNull, "answer" := text]
  }

  /** The actions a general-chat decision may carry. */
  predicate ValidAction(v: Json)
  {
    v == JStr("answer") || v == JStr("route")
  }

  /** Python can test the value for set membership (lists and dicts are unhashable). */
  predicate Hashable(v: Json)
  {
    !v.JArr? && !v.JObj?
  }

  /**
   * The checks on the decoded block: it must decode, be an object and carry
   * `action`; an action outside {answer, route} becomes "answer".
   */
  function Validate(parsed: Option<Json>): (r: Result<map<string, Json>, Fault>)
    ensures r == Err(ValueError) <==>
      parsed.None? || !parsed.value.JObj? || "action" !in parsed.value.fields
    ensures r == Err(OtherError) <==>
      parsed.Some? && parsed.value.JObj? && "action" in parsed.value.fields &&
      !Hashable(parsed.value.fields["action"])
    ensures r.Ok? ==> parsed.Some? && parsed.value.JObj? && r.value.Keys == parsed.value.fields.Keys
    ensures r.Ok? ==> forall k :: k in r.value && k != "action" ==> r.value[k] == parsed.value.fields[k]
    ensures r.Ok? ==> ValidAction(r.value["action"])
    ensures r.Ok? && ValidAction(parsed.value.fields["action"]) ==> r.value == parsed.value.fields
  {
    if parsed.None? || !parsed.value.JObj? then Err(ValueError)
    else
      var fields := parsed.value.fields;
      if "action" !in fields then Err(ValueError)
      else if !Hashable(fields["action"]) then Err(OtherError)
      else if ValidAction(fields["action"]) then Ok(fields)
      else Ok(fields["action" := JStr("answer")])
  }

  /** `extract_and_validate_json(raw_text)`. */
  function ExtractAndValidateJson(raw: string, parse: Parser): (r: Result<map<string, Json>, Fault>)
    ensures IsBlank(raw) ==> r == Err(ValueError)
    ensures !IsBlank(raw) && Search(raw).None? ==> r == Ok(AnswerDecision(JStr(Strip(raw))))
    ensures !IsBlank(raw) && Search(raw).Some? ==>
      r == Validate(parse(raw[Search(raw).value.lo..Search(raw).value.hi]))
    ensures r.Ok? ==> "action" in r.value && ValidAction(r.value["action"])
  {
    if IsBlank(raw) then Err(ValueError)
    else
      var span := Search(raw);
      if span.None? then Ok(AnswerDecision(JStr(Strip(raw))))
      else Validate(parse(raw[span.value.lo..span.value.hi]))
  }

  /** The fixed answer when no API key is configured. */
  const OfflineAnswer: string :=
    "(Offline) I received your query and will help once an API key is configured."

  /** The fixed answer when the call or the extraction fails. */
  const ErrorAnswer: string :=
    "I encountered an error processing your request. Please try again."

  /**
   * `call_llm_json_decision`: never raises; every failure becomes an answer
   * decision, so its action is always "answer" or "route".
   */
  function CallLlmJsonDecision(reply: LlmReply, parse: Parser): (d: map<string, Json>)
    ensures "action" in d && ValidAction(d["action"])
    ensures reply.Offline? ==> d == AnswerDecision(JStr(OfflineAnswer))
    ensures reply.CallFailed? ==> d == AnswerDecision(JStr(ErrorAnswer))
    ensures reply.Replied? && ExtractAndValidateJson(reply.raw, parse).Err? ==>
      d == AnswerDecision(JStr(ErrorAnswer))
    ensures reply.Replied? && ExtractAndValidateJson(reply.raw, parse).Ok? ==>
      d == ExtractAndValidateJson(reply.raw, parse).value
  {
    match reply
    case Offline => AnswerDecision(JStr(OfflineAnswer))
    case CallFailed => AnswerDecision(JStr(ErrorAnswer))
    case Replied(raw) =>
      var r := ExtractAndValidateJson(raw, parse);
      if r.Ok? then r.value else AnswerDecision(JStr(ErrorAnswer))
  }

  /** A reply with no brace at all is answered with its stripped text, as is. */
  lemma {:induction false} PlainReplyIsAnswered(raw: string, parse: Parser)
    requires !IsBlank(raw)
    requires forall i :: 0 <= i < |raw| ==> raw[i] != '{'
    ensures CallLlmJsonDecision(Replied(raw), parse) == AnswerDecision(JStr(Strip(raw)))
  {
    forall q | 0 <= q <= |raw| ensures MatchAt(raw, q).None? {
    }
    assert Search(raw).None?;
    assert ExtractAndValidateJson(raw, parse) == Ok(AnswerDecision(JStr(Strip(raw))));
  }

  /**
   * An object whose braces nest at most one level, surrounded by text without
   * braces, is the block that gets decoded.
   */
  lemma {:induction false} EmbeddedObjectIsDecoded(prefix: string, obj: string, suffix: string, parse: Parser)
    requires forall i :: 0 <= i < |prefix| ==> prefix[i] != '{'
    requires FlatObject(obj)
    ensures Search(prefix + obj + suffix) == Some(Span(|prefix|, |prefix| + |obj|))
    ensures !IsBlank(prefix + obj + suffix) ==>
      ExtractAndValidateJson(prefix + obj + suffix, parse) == Validate(parse(obj))
  {
    var s := prefix + obj + suffix;
    assert s[|prefix|..|prefix| + |obj|] == obj;
    MatchAtIsFlatObject(s, |prefix|, |prefix| + |obj|);
    forall q | 0 <= q < |prefix| ensures MatchAt(s, q).None? {
      assert s[q] == prefix[q];
    }
    SearchFromSkips(s, 0, |prefix|);
  }

  /**
   * A reply whose decoded block is an object without `action` becomes the
   * error answer, whatever else the object carries.
   */
  lemma {:induction false} ObjectWithoutActionIsRejected(prefix: string, obj: string, suffix: string, parse: Parser)
    requires forall i :: 0 <= i < |prefix| ==> prefix[i] != '{'
    requires FlatObject(obj)
    requires parse(obj).Some? && parse(obj).value.JObj? && "action" !in parse(obj).value.fields
    ensures CallLlmJsonDecision(Replied(prefix + obj + suffix), parse) == AnswerDecision(JStr(ErrorAnswer))
  {
    EmbeddedObjectIsDecoded(prefix, obj, suffix, parse);
  }

  /** The search passes over positions where nothing matches. */
  lemma {:induction false} SearchFromSkips(s: string, p: nat, q: nat)
    requires p <= q <= |s|
    requires forall k :: p <= k < q ==> MatchAt(s, k).None?
    requires MatchAt(s, q).Some?
    ensures SearchFrom(s, p) == Some(Span(q, MatchAt(s, q).value))
    decreases q - p
  {
    if p < q {
      SearchFromSkips(s, p + 1, q);
    }
  }
}
