/** The web application: the in-memory registry of active calls that the
    call-placement, speech and status webhooks mutate, its read endpoints, and
    the scripted reply rule. Telephony calls are oracles passed in as values;
    `datetime.now()` is a `Clock` reading passed in by the caller. */
module App {
  import opened Text

  datatype HttpError = HttpError(status: int, detail: string)

  datatype Result<T> = Ok(value: T) | Err(error: HttpError)

  /** One reading of the clock in the three formats the handlers print:
      ISO 8601, `%I:%M %p` and `%A, %B %d, %Y`. */
  datatype Clock = Clock(iso: string, time: string, date: string)

  datatype Turn =
    | UserTurn(content: string, timestamp: string, confidence: real, recordingUrl: string, recordingSid: string)
    | AssistantTurn(content: string, timestamp: string)

  /** One entry of `active_sessions`. */
  datatype CallSession = CallSession(
    to: string,
    from: string,
    history: seq<Turn>,
    startedAt: string,
    initialMessage: Option<string>)

  /** The JSON body of `POST /make-call`; `None` for an absent member. */
  datatype CallRequest = CallRequest(toNumber: Option<string>, fromNumber: Option<string>, initialMessage: Option<string>)

  /** What the telephony provider did with a call request. */
  datatype Placement = Placed(sid: string, status: string) | Refused(reason: string)

  datatype CallPlaced = CallPlaced(callSid: string, status: string, to: string, from: string)

  /** The form of `POST /voice/process-speech`. `confidence` is `None` when the
      `Confidence` field does not parse as a float. */
  datatype SpeechForm = SpeechForm(
    callSid: string,
    speechResult: string,
    confidence: Option<real>,
    recordingUrl: string,
    recordingSid: string)

  datatype SessionSummary = SessionSummary(to: string, from: string, startedAt: string, messageCount: nat)

  datatype Overview = Overview(activeSessions: nat, sessions: map<string, SessionSummary>)

  /** Python truthiness of an optional string. */
  predicate Truthy(o: Option<string>) {
    o.Some? && o.value != ""
  }

  const TerminalStatuses: seq<string> := ["completed", "failed", "busy", "no-answer", "canceled"]

  // ---------------------------------------------------------------- scripted replies

  const GoodbyePhrases: seq<string> := ["goodbye", "bye", "thank you", "thanks", "that's all", "nothing else"]
  const GreetingWords: seq<string> := ["hello", "hi", "hey"]

  const ClosingReply: string := "Thank you for calling. Have a great day! Goodbye."
  const HelpReply: string := "मैं आपकी जानकारी, सवालों के जवाब या आपकी ज़रूरतों में मदद कर सकता हूँ। आप क्या जानना चाहेंगे?"
  const WeatherReply: string := "मैं एक AI सहायक हूँ। मौसम की जानकारी के लिए, कृपया मौसम की वेबसाइट देखें या मौसम सेवा से पूछें।"
  const GreetingReply: string := "नमस्ते! मैं आज आपकी कैसे मदद कर सकता हूँ?"
  const GenericPrefix: string := "मैंने सुना कि आपने कहा: "
  const GenericSuffix: string := "। मैं मदद के लिए यहाँ हूँ। क्या आप कृपया अधिक विवरण दे सकते हैं या कोई विशेष प्रश्न पूछ सकते हैं?"

  function TimeReply(time: string): string { "वर्तमान समय " + time + " है।" }

  function DateReply(date: string): string { "आज " + date + " है।" }

  function GenericReply(userInput: string): string { GenericPrefix + userInput + GenericSuffix }

  /** Some word of the list occurs in the text. */
  predicate MentionsAny(text: string, words: seq<string>) {
    exists i | 0 <= i < |words| :: Contains(text, words[i])
  }

  predicate SaysGoodbye(userInput: string) {
    MentionsAny(Lower(userInput), GoodbyePhrases)
  }

  /** `generate_ai_response_sync`: a goodbye phrase anywhere ends the call;
      otherwise the first keyword found, in priority order, picks the reply. */
  function Reply(userInput: string, now: Clock): string {
    if SaysGoodbye(userInput) then ClosingReply
    else
      var userLower := Lower(userInput);
      if Contains(userLower, "help") then HelpReply
      else if Contains(userLower, "weather") then WeatherReply
      else if Contains(userLower, "time") then TimeReply(now.time)
      else if Contains(userLower, "date") then DateReply(now.date)
      else if MentionsAny(userLower, GreetingWords) then GreetingReply
      else GenericReply(userInput)
  }

  /** The closing sentence comes back exactly when the input holds a goodbye
      phrase, whatever other keywords it holds. */
  lemma ClosingIffGoodbye(userInput: string, now: Clock)
    ensures Reply(userInput, now) == ClosingReply <==> SaysGoodbye(userInput)
  {
    // The replies are told apart by their last character.
    assert ClosingReply[|ClosingReply| - 1] == '.';
    if !SaysGoodbye(userInput) {
      var r := Reply(userInput, now);
      assert r[|r| - 1] != '.';
    }
  }

  /** Without a goodbye phrase, the first matching keyword in the order help,
      weather, time, date, greeting decides the reply. */
  lemma ReplyPriority(userInput: string, now: Clock)
    requires !SaysGoodbye(userInput)
    ensures Contains(Lower(userInput), "help") ==> Reply(userInput, now) == HelpReply
    ensures (!Contains(Lower(userInput), "help") && Contains(Lower(userInput), "weather")) ==>
      Reply(userInput, now) == WeatherReply
    ensures (!Contains(Lower(userInput), "help") && !Contains(Lower(userInput), "weather") &&
             Contains(Lower(userInput), "time")) ==>
      Reply(userInput, now) == TimeReply(now.time)
    ensures (!Contains(Lower(userInput), "help") && !Contains(Lower(userInput), "weather") &&
             !Contains(Lower(userInput), "time") && Contains(Lower(userInput), "date")) ==>
      Reply(userInput, now) == DateReply(now.date)
    ensures (!Contains(Lower(userInput), "help") && !Contains(Lower(userInput), "weather") &&
             !Contains(Lower(userInput), "time") && !Contains(Lower(userInput), "date") &&
             MentionsAny(Lower(userInput), GreetingWords)) ==>
      Reply(userInput, now) == GreetingReply
  {
  }

  /** When nothing matches, the reply quotes the caller's words verbatim. */
  lemma GenericQuotesInput(userInput: string, now: Clock)
    requires !SaysGoodbye(userInput)
    requires !Contains(Lower(userInput), "help") && !Contains(Lower(userInput), "weather")
    requires !Contains(Lower(userInput), "time") && !Contains(Lower(userInput), "date")
    requires !MentionsAny(Lower(userInput), GreetingWords)
    ensures Reply(userInput, now) == GenericReply(userInput)
    ensures Contains(Reply(userInput, now), userInput)
  {
    var r := GenericReply(userInput);
    assert r[|GenericPrefix|..|GenericPrefix| + |userInput|] == userInput;
    ContainsAt(r, userInput, |GenericPrefix|);
  }

  /** The exit-intent example: "ok thank you bye" gets the closing sentence. */
  lemma GoodbyeExample(now: Clock)
    ensures Reply("ok thank you bye", now) == ClosingReply
  {
    var lower := Lower("ok thank you bye");
    assert lower == "ok thank you bye";
    assert lower[3..12] == "thank you";
    ContainsAt(lower, "thank you", 3);
    assert GoodbyePhrases[2] == "thank you";
  }

  // ---------------------------------------------------------------- the registry

  /** `from_number`, or the configured number when it is missing or empty. */
  function FromNumber(req: CallRequest, defaultFrom: string): string {
    if Truthy(req.fromNumber) then req.fromNumber.value else defaultFrom
  }

  /** The entry `make_call` stores for a placed call. */
  function NewSession(req: CallRequest, defaultFrom: string, now: Clock): (s: CallSession)
    requires Truthy(req.toNumber)
    ensures s.to == req.toNumber.value && s.from == FromNumber(req, defaultFrom)
    ensures s.history == [] && s.startedAt == now.iso
    ensures s.initialMessage.Some? <==> Truthy(req.initialMessage)
    ensures s.initialMessage.Some? ==> s.initialMessage == req.initialMessage
  {
    CallSession(req.toNumber.value, FromNumber(req, defaultFrom), [], now.iso,
                if Truthy(req.initialMessage) then req.initialMessage else None)
  }

  /** The two turns one speech webhook appends to a known call. */
  function SpeechTurns(form: SpeechForm, confidence: real, reply: string, now: Clock): seq<Turn> {
    [UserTurn(form.speechResult, now.iso, confidence, form.recordingUrl, form.recordingSid),
     AssistantTurn(reply, now.iso)]
  }

  class CallRegistry {
    var activeSessions: map<string, CallSession>

    constructor ()
      ensures activeSessions == map[]
    {
      activeSessions := map[];
    }

    /** `POST /make-call`: 400 without a destination, 500 when the provider
        refuses, otherwise exactly one new entry under the provider's id. */
    method MakeCall(req: CallRequest, defaultFrom: string, placement: Placement, now: Clock)
      returns (r: Result<CallPlaced>)
      modifies this
      ensures !Truthy(req.toNumber) ==>
        r == Err(HttpError(400, "to_number is required")) && activeSessions == old(activeSessions)
      ensures Truthy(req.toNumber) && placement.Refused? ==>
        r == Err(HttpError(500, placement.reason)) && activeSessions == old(activeSessions)
      ensures Truthy(req.toNumber) && placement.Placed? ==>
        && r == Ok(CallPlaced(placement.sid, placement.status, req.toNumber.value, FromNumber(req, defaultFrom)))
        && activeSessions == old(activeSessions)[placement.sid := NewSession(req, defaultFrom, now)]
    {
      var fromNumber := FromNumber(req, defaultFrom);
      if !Truthy(req.toNumber) {
        return Err(HttpError(400, "to_number is required"));
      }
      var initialMessage: Option<string> := None;
      if Truthy(req.initialMessage) {
        initialMessage := req.initialMessage;
      }
      match placement {
        case Refused(reason) =>
          return Err(HttpError(500, reason));
        case Placed(sid, status) =>
          activeSessions := activeSessions[sid := CallSession(req.toNumber.value, fromNumber, [], now.iso, initialMessage)];
          return Ok(CallPlaced(sid, status, req.toNumber.value, fromNumber));
      }
    }

    /** `POST /voice/process-speech`: for a known call, the caller's turn and
        then the reply's turn are appended; an unknown call is left alone. A
        failed recording download or an unparsable confidence aborts the
        request before anything is recorded. */
    method ProcessSpeech(form: SpeechForm, recordingFetched: bool, now: Clock) returns (r: Result<string>)
      modifies this
      ensures form.recordingUrl != "" && !recordingFetched ==>
        r.Err? && r.error.status == 500 && activeSessions == old(activeSessions)
      ensures (form.recordingUrl == "" || recordingFetched) && form.callSid in old(activeSessions) &&
              form.confidence.None? ==>
        r.Err? && r.error.status == 500 && activeSessions == old(activeSessions)
      ensures (form.recordingUrl == "" || recordingFetched) && form.callSid !in old(activeSessions) ==>
        r == Ok(Reply(form.speechResult, now)) && activeSessions == old(activeSessions)
      ensures (form.recordingUrl == "" || recordingFetched) && form.callSid in old(activeSessions) &&
              form.confidence.Some? ==>
        var s := old(activeSessions)[form.callSid];
        && r == Ok(Reply(form.speechResult, now))
        && activeSessions == old(activeSessions)[form.callSid :=
             s.(history := s.history + SpeechTurns(form, form.confidence.value, r.value, now))]
    {
      if form.recordingUrl != "" && !recordingFetched {
        return Err(HttpError(500, "Internal Server Error"));
      }
      var sid := form.callSid;
      if sid in activeSessions {
        if form.confidence.None? {
          return Err(HttpError(500, "Internal Server Error"));
        }
        var s := activeSessions[sid];
        var userTurn := UserTurn(form.speechResult, now.iso, form.confidence.value, form.recordingUrl, form.recordingSid);
        activeSessions := activeSessions[sid := s.(history := s.history + [userTurn])];
      }
      var reply := Reply(form.speechResult, now);
      if sid in activeSessions {
        var s := activeSessions[sid];
        assert s.history + [AssistantTurn(reply, now.iso)] ==
               old(activeSessions)[sid].history + SpeechTurns(form, form.confidence.value, reply, now);
        activeSessions := activeSessions[sid := s.(history := s.history + [AssistantTurn(reply, now.iso)])];
      }
      return Ok(reply);
    }

    /** `POST /call-status`: a terminal status removes the call's entry; any
        other status, or an unknown call, changes nothing. */
    method CallStatus(callSid: string, status: string)
      modifies this
      ensures activeSessions == if status in TerminalStatuses && callSid in old(activeSessions)
                                then old(activeSessions) - {callSid}
                                else old(activeSessions)
    {
      if status in TerminalStatuses {
        if callSid in activeSessions {
          activeSessions := activeSessions - {callSid};
        }
      }
    }

    /** `GET /session/{call_sid}`: 404 exactly when the call is unknown. */
    function GetSession(callSid: string): (r: Result<CallSession>)
      reads this
      ensures r.Err? <==> callSid !in activeSessions
      ensures r.Err? ==> r.error.status == 404
      ensures r.Ok? ==> r.value == activeSessions[callSid]
    {
      if callSid !in activeSessions then Err(HttpError(404, "Session not found"))
      else Ok(activeSessions[callSid])
    }

    /** `GET /sessions`: one summary per active call. */
    function GetSessions(): (o: Overview)
      reads this
      ensures o.activeSessions == |activeSessions|
      ensures o.sessions.Keys == activeSessions.Keys
      ensures forall sid :: sid in o.sessions ==>
        o.sessions[sid].messageCount == |activeSessions[sid].history| &&
        o.sessions[sid].to == activeSessions[sid].to && o.sessions[sid].from == activeSessions[sid].from &&
        o.sessions[sid].startedAt == activeSessions[sid].startedAt
    {
      Overview(|activeSessions|,
               map sid | sid in activeSessions ::
                 SessionSummary(activeSessions[sid].to, activeSessions[sid].from,
                                activeSessions[sid].startedAt, |activeSessions[sid].history|))
    }

    /** `POST /interrupt-call/{call_sid}`: the 404 for an unknown call is caught
        by the handler's own catch-all and reported as a 500, like a failed
        provider update (`updateError`). */
    function InterruptCall(callSid: string, updateError: Option<string>): (r: Result<string>)
      reads this
      ensures r.Ok? <==> callSid in activeSessions && updateError.None?
      ensures r.Ok? ==> r.value == callSid
      ensures r.Err? ==> r.error.status == 500
    {
      if callSid !in activeSessions then Err(HttpError(500, "404: Call session not found"))
      else if updateError.Some? then Err(HttpError(500, updateError.value))
      else Ok(callSid)
    }
  }

  /** A call placed to +15551230000, one "help" utterance, then completion:
      the entry appears with an empty history, gains exactly two turns, and is
      gone after the terminal status. */
  method CallLifecycle(now: Clock)
  {
    var registry := new CallRegistry();
    var req := CallRequest(Some("+15551230000"), None, None);
    var placed := registry.MakeCall(req, "+15550000000", Placed("CA1", "queued"), now);
    assert placed.Ok?;
    assert registry.activeSessions["CA1"].to == "+15551230000";
    assert registry.activeSessions["CA1"].history == [];
    var form := SpeechForm("CA1", "help", Some(0.9), "", "");
    var reply := registry.ProcessSpeech(form, true, now);
    assert |registry.activeSessions["CA1"].history| == 2;
    assert registry.activeSessions["CA1"].history[0].UserTurn?;
    assert registry.activeSessions["CA1"].history[1].AssistantTurn?;
    registry.CallStatus("CA1", "completed");
    assert "CA1" !in registry.activeSessions;
  }
}
