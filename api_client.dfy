/**
 * The HTTP client of the agent backend: the chat request with its message
 * parts, the scan of the streamed response for the last event that carries
 * text, and the status handling of the metrics, subscription and
 * unsubscribe calls. The transport is the parameter `send`, JSON decoding the
 * parameter `decode`.
 */
module ApiClient {
  import opened Base
  import opened Json
  import PyText

  const AppName := "gemini_adk_demo"
  /** The prefix of a server-sent-event line that carries a payload. */
  const DataPrefix := "data:"
  const SessionIdPrefix := "test-session-"
  const MissingSecretMessage := "UNSUBSCRIBE_SECRET_KEY is not set in the environment."

  /** An HTTP response: its status code and its body as text. */
  datatype Response = Response(status: int, text: string)

  /** An HTTP request: verb, URL and optional JSON body. */
  datatype Request = Request(verb: string, url: string, body: Option<Json>)

  /** What a client call raises. */
  datatype ApiError =
    | HttpStatusError(status: int)   // raise_for_status on a status outside 2xx
    | JsonDecodeError                // response.json() on a body that is not JSON
    | ValueError(message: string)

  /** A call's result together with the requests it sent, in order. */
  datatype Call = Call(result: Result<Json, ApiError>, sent: seq<Request>)

  predicate IsSuccess(status: int)
  {
    200 <= status <= 299
  }

  /** `response.raise_for_status()` followed by `response.json()`. */
  function ReadJson(response: Response, decode: string -> Option<Json>): (r: Result<Json, ApiError>)
    ensures !IsSuccess(response.status) ==> r == Failure(HttpStatusError(response.status))
    ensures IsSuccess(response.status) ==> (r.Failure? <==> decode(response.text).None?)
    ensures r.Success? ==> decode(response.text) == Some(r.value)
    ensures r.Failure? && IsSuccess(response.status) ==> r.error == JsonDecodeError
  {
    if !IsSuccess(response.status) then Failure(HttpStatusError(response.status))
    else match decode(response.text)
      case Some(v) => Success(v)
      case None => Failure(JsonDecodeError)
  }

  // ---------------------------------------------------------------- the chat request

  /** `{"text": text}` */
  function TextPart(text: string): (part: Json)
  {
    JObject(map["text" := JString(text)])
  }

  /** `{"inline_data": {"mime_type": "audio/wav", "data": encoded}}` */
  function AudioPart(encoded: string): (part: Json)
  {
    JObject(map["inline_data" := JObject(map["mime_type" := JString(AudioMimeType), "data" := JString(encoded)])])
  }

  /** `"text" in part` */
  predicate HasText(part: Json)
  {
    Member(part, "text").Some?
  }

  lemma AudioPartHasNoText(encoded: string)
    ensures !HasText(AudioPart(encoded))
  {
    assert AudioPart(encoded).fields.Keys == {"inline_data"};
  }

  /**
   * The parts of the new message: a text part when the prompt is truthy, then
   * an audio part carrying the base64 of the file when the path is truthy.
   */
  function RequestParts(userPrompt: Option<string>, audioFilePath: Option<string>,
                        readFile: string -> seq<byte>, base64: seq<byte> -> string): (parts: seq<Json>)
    ensures |parts| == (if Truthy(userPrompt) then 1 else 0) + (if Truthy(audioFilePath) then 1 else 0)
    ensures Truthy(userPrompt) ==> parts[0] == TextPart(userPrompt.value)
    ensures Truthy(audioFilePath) ==> parts[|parts| - 1] == AudioPart(base64(readFile(audioFilePath.value)))
    ensures (exists i :: 0 <= i < |parts| && HasText(parts[i])) <==> Truthy(userPrompt)
  {
    var text := if Truthy(userPrompt) then [TextPart(userPrompt.value)] else [];
    var audio := if Truthy(audioFilePath) then [AudioPart(base64(readFile(audioFilePath.value)))] else [];
    assert forall i :: 0 <= i < |audio| ==> !HasText(audio[i]) by {
      if Truthy(audioFilePath) {
        AudioPartHasNoText(base64(readFile(audioFilePath.value)));
      }
    }
    assert Truthy(userPrompt) ==> HasText((text + audio)[0]);
    text + audio
  }

  /** `f"test-session-{uuid}"` */
  function SessionId(uuid: string): (id: string)
    ensures PyText.StartsWith(id, SessionIdPrefix) && id[|SessionIdPrefix|..] == uuid
  {
    SessionIdPrefix + uuid
  }

  /** The request of `create_session` for the user of a chat call. */
  function SessionRequest(apiUrl: string, userId: int, userEmail: string, userName: string, sessionId: string): (r: Request)
    ensures r.verb == "POST" && r.body.Some?
    ensures r.url == apiUrl + "/apps/" + AppName + "/users/" + PyText.IntToString(userId) + "/sessions/" + sessionId
    ensures Member(r.body.value, "user_id") == Some(JNumber(userId))
    ensures Member(r.body.value, "user_email") == Some(JString(userEmail))
    ensures Member(r.body.value, "user_name") == Some(JString(userName))
  {
    Request("POST", apiUrl + "/apps/" + AppName + "/users/" + PyText.IntToString(userId) + "/sessions/" + sessionId,
            Some(JObject(map["user_id" := JNumber(userId), "user_email" := JString(userEmail), "user_name" := JString(userName)])))
  }

  /** The `/run_sse` request carrying the new message. */
  function RunRequest(apiUrl: string, userId: int, sessionId: string, parts: seq<Json>): (r: Request)
    ensures r.verb == "POST" && r.url == apiUrl + "/run_sse" && r.body.Some?
    ensures Member(r.body.value, "app_name") == Some(JString(AppName))
    ensures Member(r.body.value, "user_id") == Some(JString(PyText.IntToString(userId)))
    ensures Member(r.body.value, "session_id") == Some(JString(sessionId))
    ensures Member(r.body.value, "streaming") == Some(JBool(false))
    ensures Member(r.body.value, "new_message") == Some(JObject(map["role" := JString("user"), "parts" := JArray(parts)]))
  {
    var userIdText := PyText.IntToString(userId);
    var message := JObject(map["role" := JString("user"), "parts" := JArray(parts)]);
    var payload := map[
      "app_name" := JString(AppName),
      "user_id" := JString(userIdText),
      "session_id" := JString(sessionId),
      "new_message" := message,
      "streaming" := JBool(false)];
    assert payload["app_name"] == JString(AppName) && payload["user_id"] == JString(userIdText);
    assert payload["session_id"] == JString(sessionId) && payload["new_message"] == message;
    Request("POST", apiUrl + "/run_sse", Some(JObject(payload)))
  }

  /**
   * The payload names the user by the decimal text of the id, which reads back
   * as that id; it is the user segment of the session URL, so both requests
   * name the same user.
   */
  lemma RunRequestNamesUser(apiUrl: string, userId: int, userEmail: string, userName: string,
                            sessionId: string, parts: seq<Json>)
    requires !PyText.StrRaises(userId)
    ensures var body := RunRequest(apiUrl, userId, sessionId, parts).body;
      && body.Some?
      && Member(body.value, "user_id").Some?
      && Member(body.value, "user_id").value.JString?
      && PyText.ParseInt(Member(body.value, "user_id").value.s) == Some(userId)
      && SessionRequest(apiUrl, userId, userEmail, userName, sessionId).url
         == apiUrl + "/apps/" + AppName + "/users/" + Member(body.value, "user_id").value.s + "/sessions/" + sessionId
  {
    var m := RunRequest(apiUrl, userId, sessionId, parts).body.value.fields;
    assert "user_id" in m && m["user_id"] == JString(PyText.IntToString(userId));
    PyText.ParseIntOfIntToString(userId);
  }

  // ---------------------------------------------------------------- the streamed response

  /** The event of a line: the JSON after the "data:" prefix, None for other lines and for text that is not JSON. */
  function LineEvent(line: string, decode: string -> Option<Json>): (e: Option<Json>)
    ensures PyText.StartsWith(line, DataPrefix) ==> e == decode(line[|DataPrefix|..])
    ensures !PyText.StartsWith(line, DataPrefix) ==> e.None?
  {
    if PyText.StartsWith(line, DataPrefix) then decode(line[|DataPrefix|..]) else None
  }

  /** `"content" in e and "parts" in e["content"]` with some part holding a "text" key. */
  predicate CarriesText(e: Json)
    ensures CarriesText(e) ==> e.JObject? && "content" in e.fields && e.fields["content"].JObject?
  {
    var content := Member(e, "content");
    && content.Some?
    && Member(content.value, "parts").Some?
    && Member(content.value, "parts").value.JArray?
    && exists i :: 0 <= i < |Member(content.value, "parts").value.items| && HasText(Member(content.value, "parts").value.items[i])
  }

  /** The line is a data line whose event carries text. */
  predicate Qualifies(line: string, decode: string -> Option<Json>)
  {
    LineEvent(line, decode).Some? && CarriesText(LineEvent(line, decode).value)
  }

  /** The event of the last qualifying line, or None when no line qualifies. */
  function FinalEvent(lines: seq<string>, decode: string -> Option<Json>): (r: Option<Json>)
    ensures r.Some? ==> CarriesText(r.value)
    ensures lines == [] ==> r.None?
  {
    if lines == [] then None
    else
      var last := lines[|lines| - 1];
      if Qualifies(last, decode) then LineEvent(last, decode) else FinalEvent(lines[..|lines| - 1], decode)
  }

  /** Line `i` qualifies and no later line does. */
  predicate IsLastQualifying(lines: seq<string>, decode: string -> Option<Json>, i: int)
  {
    0 <= i < |lines| && Qualifies(lines[i], decode) && forall j :: i < j < |lines| ==> !Qualifies(lines[j], decode)
  }

  /** The scan finds nothing exactly when no line qualifies. */
  lemma {:induction false} FinalEventNoneIff(lines: seq<string>, decode: string -> Option<Json>)
    ensures FinalEvent(lines, decode).None? <==> forall i :: 0 <= i < |lines| ==> !Qualifies(lines[i], decode)
  {
    if lines != [] {
      var init := lines[..|lines| - 1];
      FinalEventNoneIff(init, decode);
      assert forall i :: 0 <= i < |init| ==> init[i] == lines[i];
    }
  }

  /** The scan returns the event of the last qualifying line. */
  lemma {:induction false} FinalEventIsLastQualifying(lines: seq<string>, decode: string -> Option<Json>, i: int)
    requires IsLastQualifying(lines, decode, i)
    ensures FinalEvent(lines, decode) == LineEvent(lines[i], decode)
  {
    if i < |lines| - 1 {
      var init := lines[..|lines| - 1];
      assert IsLastQualifying(init, decode, i);
      FinalEventIsLastQualifying(init, decode, i);
    }
  }

  /** When something is found, it is the event of some last qualifying line. */
  lemma {:induction false} FinalEventHasLastQualifying(lines: seq<string>, decode: string -> Option<Json>)
    requires FinalEvent(lines, decode).Some?
    ensures exists i :: IsLastQualifying(lines, decode, i) && LineEvent(lines[i], decode) == FinalEvent(lines, decode)
  {
    var last := |lines| - 1;
    if Qualifies(lines[last], decode) {
      assert IsLastQualifying(lines, decode, last);
    } else {
      var init := lines[..last];
      FinalEventHasLastQualifying(init, decode);
      var i :| IsLastQualifying(init, decode, i) && LineEvent(init[i], decode) == FinalEvent(init, decode);
      assert IsLastQualifying(lines, decode, i);
    }
  }

  /** The scan over a concatenation prefers what the later lines give. */
  lemma {:induction false} FinalEventAppend(a: seq<string>, b: seq<string>, decode: string -> Option<Json>)
    ensures FinalEvent(a + b, decode) == if FinalEvent(b, decode).Some? then FinalEvent(b, decode) else FinalEvent(a, decode)
    decreases |b|
  {
    if b == [] {
      assert a + b == a;
    } else {
      var b' := b[..|b| - 1];
      assert (a + b)[..|a + b| - 1] == a + b';
      assert (a + b)[|a + b| - 1] == b[|b| - 1];
      FinalEventAppend(a, b', decode);
    }
  }

  /**
   * A line that does not qualify (not a data line, not JSON, no content or
   * parts, no text part) never changes the result.
   */
  lemma IrrelevantLine(a: seq<string>, line: string, b: seq<string>, decode: string -> Option<Json>)
    requires !Qualifies(line, decode)
    ensures FinalEvent(a + [line] + b, decode) == FinalEvent(a + b, decode)
  {
    FinalEventAppend(a + [line], b, decode);
    FinalEventAppend(a, [line], decode);
    FinalEventAppend(a, b, decode);
    assert [line][..0] == [];
  }

  /** The loop of `get_chat_response` over the lines of the response body. */
  method ScanEvents(text: string, decode: string -> Option<Json>) returns (fullResponse: Option<Json>)
    ensures fullResponse == FinalEvent(PyText.SplitLines(text), decode)
  {
    var lines := PyText.SplitLines(text);
    fullResponse := None;
    for i := 0 to |lines|
      invariant fullResponse == FinalEvent(lines[..i], decode)
    {
      var line := lines[i];
      assert lines[..i + 1][..i] == lines[..i];
      ghost var previous := fullResponse;
      if PyText.StartsWith(line, DataPrefix) {
        var decoded := decode(line[5..]);
        if decoded.Some? {
          var jsonData := decoded.value;
          var content := Member(jsonData, "content");
          if content.Some? && Member(content.value, "parts").Some? && Member(content.value, "parts").value.JArray? {
            var parts := Member(content.value, "parts").value.items;
            for j := 0 to |parts|
              invariant fullResponse == if exists k :: 0 <= k < j && HasText(parts[k]) then Some(jsonData) else previous
            {
              if HasText(parts[j]) {
                fullResponse := Some(jsonData);
              }
            }
          }
        }
      }
    }
    assert lines[..|lines|] == lines;
  }

  /** A body written as "\n"-terminated lines yields the event of its last qualifying line. */
  lemma ScanOfTerminatedLines(lines: seq<string>, decode: string -> Option<Json>)
    requires forall j :: 0 <= j < |lines| ==> PyText.NoLineBreak(lines[j])
    ensures FinalEvent(PyText.SplitLines(PyText.Terminated(lines, "\n")), decode) == FinalEvent(lines, decode)
  {
    PyText.SplitLinesOfTerminated(lines, "\n");
  }

  /**
   * `get_chat_response`: create the session, build the message parts, post
   * the run request and scan its body; `sent` lists the requests in order.
   * An id too large for `str` raises ValueError in the first log line, before
   * any request.
   */
  method GetChatResponse(apiUrl: string, userId: int, userEmail: string, userName: string,
                         userPrompt: Option<string>, audioFilePath: Option<string>, uuid: string,
                         readFile: string -> seq<byte>, base64: seq<byte> -> string,
                         send: Request -> Response, decode: string -> Option<Json>)
    returns (result: Result<Option<Json>, ApiError>, sent: seq<Request>)
    ensures PyText.StrRaises(userId) ==> sent == [] && result == Failure(ValueError(PyText.StrLimitMessage))
    ensures !PyText.StrRaises(userId) ==>
      |sent| >= 1 && sent[0] == SessionRequest(apiUrl, userId, userEmail, userName, SessionId(uuid))
    ensures !PyText.StrRaises(userId) && ReadJson(send(sent[0]), decode).Failure? ==>
      sent == [sent[0]] && result == Failure(ReadJson(send(sent[0]), decode).error)
    ensures !PyText.StrRaises(userId) && ReadJson(send(sent[0]), decode).Success? ==>
      && |sent| == 2
      && sent[1] == RunRequest(apiUrl, userId, SessionId(uuid), RequestParts(userPrompt, audioFilePath, readFile, base64))
      && result == if IsSuccess(send(sent[1]).status)
                   then Success(FinalEvent(PyText.SplitLines(send(sent[1]).text), decode))
                   else Failure(HttpStatusError(send(sent[1]).status))
  {
    if PyText.StrRaises(userId) {
      return Failure(ValueError(PyText.StrLimitMessage)), [];
    }
    var sessionId := SessionIdPrefix + uuid;
    var sessionRequest := SessionRequest(apiUrl, userId, userEmail, userName, sessionId);
    sent := [sessionRequest];
    var created := ReadJson(send(sessionRequest), decode);
    if created.Failure? {
      return Failure(created.error), sent;
    }

    var parts: seq<Json> := [];
    if Truthy(userPrompt) {
      parts := parts + [TextPart(userPrompt.value)];
    }
    if Truthy(audioFilePath) {
      var audioBytes := readFile(audioFilePath.value);
      var encodedAudio := base64(audioBytes);
      parts := parts + [AudioPart(encodedAudio)];
    }
    assert parts == RequestParts(userPrompt, audioFilePath, readFile, base64);

    var runRequest := RunRequest(apiUrl, userId, sessionId, parts);
    sent := sent + [runRequest];
    var response := send(runRequest);
    if !IsSuccess(response.status) {
      return Failure(HttpStatusError(response.status)), sent;
    }
    var fullResponse := ScanEvents(response.text, decode);
    result := Success(fullResponse);
  }

  // ---------------------------------------------------------------- metrics and newsletter preferences

  /**
   * `get_recent_metrics`: a 404 becomes None (JSON null); any other status is
   * raised or read as JSON. A limit too large for `str` raises ValueError while
   * the URL is formatted, before the request.
   */
  function GetRecentMetrics(apiUrl: string, userEmail: string, limit: int,
                            send: Request -> Response, decode: string -> Option<Json>): (c: Call)
    ensures PyText.StrRaises(limit) ==> c == Call(Failure(ValueError(PyText.StrLimitMessage)), [])
    ensures !PyText.StrRaises(limit) ==>
      c.sent == [Request("GET", apiUrl + "/metrics/user/" + userEmail + "?limit=" + PyText.IntToString(limit), None)]
    ensures !PyText.StrRaises(limit) ==> var response := send(c.sent[0]);
      c.result == if response.status == 404 then Success(JNull) else ReadJson(response, decode)
  {
    if PyText.StrRaises(limit) then Call(Failure(ValueError(PyText.StrLimitMessage)), [])
    else
      var request := Request("GET", apiUrl + "/metrics/user/" + userEmail + "?limit=" + PyText.IntToString(limit), None);
      var response := send(request);
      if response.status == 404 then Call(Success(JNull), [request]) else Call(ReadJson(response, decode), [request])
  }

  /** `get_subscription_status`: a 404 reads as not subscribed; any other status is raised or read as JSON. */
  function GetSubscriptionStatus(apiUrl: string, userEmail: string,
                                 send: Request -> Response, decode: string -> Option<Json>): (c: Call)
    ensures c.sent == [Request("GET", apiUrl + "/newsletter/preferences/" + userEmail, None)]
    ensures var response := send(c.sent[0]);
      c.result == if response.status == 404 then Success(JObject(map["subscribed" := JBool(false)])) else ReadJson(response, decode)
  {
    var request := Request("GET", apiUrl + "/newsletter/preferences/" + userEmail, None);
    var response := send(request);
    if response.status == 404 then Call(Success(JObject(map["subscribed" := JBool(false)])), [request])
    else Call(ReadJson(response, decode), [request])
  }

  /** Apart from 404, only 2xx responses with a JSON body succeed. */
  lemma OnlyNotFoundIsRecovered(apiUrl: string, userEmail: string, limit: int,
                                send: Request -> Response, decode: string -> Option<Json>)
    ensures var c := GetRecentMetrics(apiUrl, userEmail, limit, send, decode);
      c.result.Success? <==>
        && !PyText.StrRaises(limit)
        && var status := send(c.sent[0]).status;
           status == 404 || (IsSuccess(status) && decode(send(c.sent[0]).text).Some?)
    ensures var c := GetSubscriptionStatus(apiUrl, userEmail, send, decode);
      var status := send(c.sent[0]).status;
      c.result.Success? <==> status == 404 || (IsSuccess(status) && decode(send(c.sent[0]).text).Some?)
  {
  }

  /**
   * `unsubscribe_from_newsletter`: without a secret key it raises ValueError
   * and sends nothing; otherwise it posts to the URL carrying the SHA-256 hex
   * digest of the email followed by the key.
   */
  function UnsubscribeFromNewsletter(apiUrl: string, userEmail: string, secretKey: Option<string>,
                                     sha256Hex: string -> string,
                                     send: Request -> Response, decode: string -> Option<Json>): (c: Call)
    ensures !Truthy(secretKey) <==> c.sent == []
    ensures !Truthy(secretKey) ==> c.result == Failure(ValueError(MissingSecretMessage))
    ensures Truthy(secretKey) ==>
      && c.sent == [Request("POST", apiUrl + "/newsletter/unsubscribe/" + userEmail + "/" + sha256Hex(userEmail + secretKey.value), None)]
      && c.result == ReadJson(send(c.sent[0]), decode)
  {
    if !Truthy(secretKey) then Call(Failure(ValueError(MissingSecretMessage)), [])
    else
      var token := sha256Hex(userEmail + secretKey.value);
      var request := Request("POST", apiUrl + "/newsletter/unsubscribe/" + userEmail + "/" + token, None);
      Call(ReadJson(send(request), decode), [request])
  }
}
