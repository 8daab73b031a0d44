/**
 * alexa_handler.py: the Alexa-facing entry points. A local command is run
 * through the same six handlers as a spoken one and answered with a fixed
 * sentence naming the handler that took it; a free query goes to the
 * language model; every answer is wrapped in the Alexa response envelope.
 */
module AlexaHandler {
  import opened Wrappers
  import opened PyStr
  import opened PyJson
  import opened Handlers

  const LocalFallback: string := "Sorry, I could not process the local command."

  /** The sentence `handle_local_command` answers with, given the handler
      that took the command. */
  function LocalReply(h: Option<Handler>): string {
    match h
    case Some(YouTube) => "YouTube task triggered."
    case Some(Media) => "Media task executed."
    case Some(System) => "System task executed."
    case Some(Todo) => "To-do task executed."
    case Some(Reminder) => "Reminder task added."
    case Some(Pictures) => "Picture slideshow started."
    case None => LocalFallback
  }

  /** `handle_local_command`: the command is lower-cased and stripped, then
      the handlers are tried in order. */
  function HandleLocalCommand(command: string): (reply: string)
    ensures reply == LocalFallback <==> NoneAccepted(AnswersOf(Strip(Lower(command))))
  {
    var c := Strip(Lower(command));
    RouteNone(c);
    LocalReplyInjective(Route(c), None);
    LocalReply(Route(c))
  }

  /** The length and first letter of each sentence. */
  function ReplyKey(h: Option<Handler>): (nat, char) {
    match h
    case Some(YouTube) => (23, 'Y')
    case Some(Media) => (20, 'M')
    case Some(System) => (21, 'S')
    case Some(Todo) => (20, 'T')
    case Some(Reminder) => (20, 'R')
    case Some(Pictures) => (26, 'P')
    case None => (45, 'S')
  }

  lemma ReplyKeyOf(h: Option<Handler>)
    ensures |LocalReply(h)| == ReplyKey(h).0
    ensures h.Some? ==> LocalReply(h)[0] == ReplyKey(h).1
  {
    if h.None? {
      assert |LocalFallback| == 45;
    }
  }

  /** Different outcomes of the chain are answered with different
      sentences. */
  lemma LocalReplyInjective(a: Option<Handler>, b: Option<Handler>)
    ensures LocalReply(a) == LocalReply(b) <==> a == b
  {
    if a != b {
      ReplyKeyOf(a);
      ReplyKeyOf(b);
      assert ReplyKey(a) != ReplyKey(b);
    }
  }

  /** Whatever the handlers answer, the sentence names the handler the
      first-match rule picks, and no other. */
  lemma ReplyNamesFirst(answers: Handler -> bool, h: Handler)
    ensures LocalReply(ScanFrom(answers, 0)) == LocalReply(Some(h)) <==> FirstAccepted(answers, h)
  {
    FirstMatch(answers, h);
    LocalReplyInjective(ScanFrom(answers, 0), Some(h));
  }

  /** The reply names the handler the first-match rule picks, and no other. */
  lemma LocalReplyNamesHandler(command: string, h: Handler)
    ensures HandleLocalCommand(command) == LocalReply(Some(h))
      <==> FirstAccepted(AnswersOf(Strip(Lower(command))), h)
  {
    ReplyNamesFirst(AnswersOf(Strip(Lower(command))), h);
  }

  /** `process_local_command`: the same order, on the command as given;
      True exactly when some handler accepts. */
  function ProcessLocalCommand(command: string): (ok: bool)
    ensures ok <==> !NoneAccepted(AnswersOf(command))
  {
    RouteNone(command);
    Route(command).Some?
  }

  /** `build_alexa_response` */
  function BuildAlexaResponse(message: string): (r: Json)
    ensures Lookup(r, ["version"]) == Ok(JString("1.0"))
    ensures Lookup(r, ["response", "outputSpeech", "type"]) == Ok(JString("PlainText"))
    ensures Lookup(r, ["response", "outputSpeech", "text"]) == Ok(JString(message))
    ensures Lookup(r, ["response", "shouldEndSession"]) == Ok(JBool(true))
  {
    JObject(map[
      "version" := JString("1.0"),
      "response" := JObject(map[
        "outputSpeech" := JObject(map["type" := JString("PlainText"), "text" := JString(message)]),
        "shouldEndSession" := JBool(true)])])
  }

  /** An Alexa response envelope: version 1.0, plain-text speech, and the
      session closed after it. */
  predicate WellFormedResponse(r: Json) {
    && Lookup(r, ["version"]) == Ok(JString("1.0"))
    && Lookup(r, ["response", "outputSpeech", "type"]) == Ok(JString("PlainText"))
    && Lookup(r, ["response", "outputSpeech", "text"]).Ok?
    && Lookup(r, ["response", "outputSpeech", "text"]).value.JString?
    && Lookup(r, ["response", "shouldEndSession"]) == Ok(JBool(true))
  }

  /** What Alexa says for a response envelope. */
  function SpokenText(r: Json): Option<string> {
    match Lookup(r, ["response", "outputSpeech", "text"])
    case Ok(JString(s)) => Some(s)
    case _ => None
  }

  /** Every message gives a well-formed envelope from which the message is
      read back unchanged, so different messages give different envelopes. */
  lemma ResponseRoundTrip(message: string, other: string)
    ensures WellFormedResponse(BuildAlexaResponse(message))
    ensures SpokenText(BuildAlexaResponse(message)) == Some(message)
    ensures BuildAlexaResponse(message) == BuildAlexaResponse(other) ==> message == other
  {
    assert SpokenText(BuildAlexaResponse(other)) == Some(other);
  }

  /** The slot path `handle_alexa_request` reads. */
  const QueryPath: seq<string> := ["request", "intent", "slots", "query", "value"]

  const LocalPrefix: string := "local to "

  /** The message `handle_alexa_request` answers with, `ask` standing for
      `query_groq_model`. A missing key on the slot path is answered with an
      apology; any other exception (a step that is not a dict, a value that
      is not a string) propagates to the caller. */
  function RequestReply(data: Json, ask: string -> string): (r: Py<string>)
    ensures r.Raise? ==> r.exc != KeyError
  {
    match Lookup(data, QueryPath)
    case Raise(KeyError) => Ok("Sorry, I didn't catch that.")
    case Raise(e) => Raise(e)
    case Ok(v) =>
      match LowerOf(v)
      case Raise(e) => Raise(e)
      case Ok(query) => Ok(QueryReply(query, ask))
  }

  /** The answer to a lower-cased query: "local to X" runs the stripped X
      through the handlers, anything else goes to the model. */
  function QueryReply(query: string, ask: string -> string): (r: string)
    ensures StartsWith(query, LocalPrefix) ==>
      r in {"Command executed.", "Sorry, I couldn't process that local command."}
    ensures !StartsWith(query, LocalPrefix) ==> r == ask(query)
  {
    if StartsWith(query, LocalPrefix) then
      var localCommand := Strip(ReplaceAll(query, LocalPrefix, ""));
      if ProcessLocalCommand(localCommand) then "Command executed."
      else "Sorry, I couldn't process that local command."
    else ask(query)
  }

  /** `handle_alexa_request`: the reply in an envelope, unless an exception
      other than KeyError escapes. */
  function HandleAlexaRequest(data: Json, ask: string -> string): (r: Py<Json>)
    ensures r.Raise? <==> RequestReply(data, ask).Raise?
    ensures r.Ok? ==> WellFormedResponse(r.value) && SpokenText(r.value) == Some(RequestReply(data, ask).value)
  {
    match RequestReply(data, ask)
    case Ok(message) =>
      ResponseRoundTrip(message, message);
      Ok(BuildAlexaResponse(message))
    case Raise(e) => Raise(e)
  }

  /** A key missing anywhere on `request.intent.slots.query.value` gives
      "Sorry, I didn't catch that.". */
  lemma MissingSlotKey(data: Json, ask: string -> string)
    requires MissingKey(data, QueryPath)
    ensures RequestReply(data, ask) == Ok("Sorry, I didn't catch that.")
  {
    KeyErrorIffMissingKey(data, QueryPath);
  }

  /** A query "local to X" runs X through the handlers with every further
      "local to " removed and the result stripped, and says whether one took
      it; when X holds no further "local to ", that is X stripped. */
  lemma LocalQueryRouted(text: string, rest: string, ask: string -> string)
    requires Lower(text) == LocalPrefix + rest
    ensures QueryReply(Lower(text), ask)
      == if ProcessLocalCommand(Strip(ReplaceAll(rest, LocalPrefix, ""))) then "Command executed."
         else "Sorry, I couldn't process that local command."
    ensures !Contains(rest, LocalPrefix) ==>
      QueryReply(Lower(text), ask)
        == if ProcessLocalCommand(Strip(rest)) then "Command executed."
           else "Sorry, I couldn't process that local command."
  {
    ReplaceLeadingPattern(LocalPrefix, rest);
    assert StartsWith(Lower(text), LocalPrefix);
  }

  /** A string slot value is lower-cased and answered; any other query
      goes to the model. */
  lemma StringSlotAnswered(data: Json, ask: string -> string, text: string)
    requires Lookup(data, QueryPath) == Ok(JString(text))
    ensures RequestReply(data, ask) == Ok(QueryReply(Lower(text), ask))
    ensures !StartsWith(Lower(text), LocalPrefix) ==> RequestReply(data, ask) == Ok(ask(Lower(text)))
  {
  }
}
