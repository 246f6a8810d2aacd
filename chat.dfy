/**
 * One conversation turn against the language model: the conversation history
 * is a list that the turn extends in place, the model input is assembled from
 * that history and the new text or audio input, and the model's reply is
 * reduced to the concatenation of its non-empty text parts or to a fixed
 * apology.
 */
module Chat {
  import opened Base

  const NoInputReply := "Error: No input provided."
  const NoResponseReply := "Sorry, I couldn't generate a response."
  const ErrorReply := "Something went wrong. Can you try again?"
  /** The text item that precedes recorded audio in the model input. */
  const AudioInstruction := "(Audio input - transcribe and process)"
  /** What the history records for a turn whose input was audio. */
  const AudioTurnContent := "Audio input received."

  /** One entry of the conversation history, `{"role": role, "content": content}`. */
  datatype Turn = Turn(role: string, content: string)

  /** One element of the input handed to the model. */
  datatype ContentItem = TextItem(text: string) | AudioItem(data: seq<byte>, mimeType: string)

  /** A part of a candidate; `text` is None when the part has no text attribute. */
  datatype Part = Part(text: Option<string>)

  /**
   * A candidate of the model's response; `parts` is None when the candidate has
   * no content, a falsy content, or content without parts.
   */
  datatype Candidate = Candidate(parts: Option<seq<Part>>)

  /** What the model call produced: an exception, or a response with its candidates. */
  datatype Generation = Raised | Generated(candidates: seq<Candidate>)

  /** How a turn reads the model's response: a fixed apology, or the text parts to keep. */
  datatype Reply = Apology(message: string) | Answer(texts: seq<string>)

  /** What a turn leaves behind: the returned string, the history, and the model input if the model was called. */
  datatype Exchange = Exchange(reply: string, history: seq<Turn>, sent: Option<seq<ContentItem>>)

  /** The roles whose turns are passed back to the model. */
  predicate Conversational(role: string)
  {
    role == "user" || role == "model"
  }

  // ---------------------------------------------------------------- model input

  /** The content of every "user" and "model" turn of the history, in history order. */
  function HistoryContents(history: seq<Turn>): (contents: seq<ContentItem>)
    ensures |contents| <= |history|
    ensures forall i :: 0 <= i < |contents| ==> contents[i].TextItem?
  {
    if history == [] then []
    else
      var last := history[|history| - 1];
      HistoryContents(history[..|history| - 1]) + (if Conversational(last.role) then [TextItem(last.content)] else [])
  }

  /** Assembling the model input distributes over concatenated histories. */
  lemma {:induction false} HistoryContentsAppend(a: seq<Turn>, b: seq<Turn>)
    ensures HistoryContents(a + b) == HistoryContents(a) + HistoryContents(b)
    decreases |b|
  {
    if b == [] {
      assert a + b == a;
    } else {
      var b', t := b[..|b| - 1], b[|b| - 1];
      var x := if Conversational(t.role) then [TextItem(t.content)] else [];
      assert (a + b)[..|a + b| - 1] == a + b';
      assert (a + b)[|a + b| - 1] == t;
      calc {
        HistoryContents(a + b);
        HistoryContents(a + b') + x;
        { HistoryContentsAppend(a, b'); }
        HistoryContents(a) + HistoryContents(b') + x;
        HistoryContents(a) + HistoryContents(b);
      }
    }
  }

  /** A turn of any other role contributes nothing to the model input. */
  lemma HistoryContentsSkips(a: seq<Turn>, t: Turn, b: seq<Turn>)
    requires !Conversational(t.role)
    ensures HistoryContents(a + [t] + b) == HistoryContents(a + b)
  {
    HistoryContentsAppend(a + [t], b);
    HistoryContentsAppend(a, [t]);
    HistoryContentsAppend(a, b);
    assert HistoryContents([t]) == [];
  }

  /** When every turn is a user or model turn, the model sees the content of every turn, in order. */
  lemma {:induction false} HistoryContentsAllConversational(history: seq<Turn>)
    requires forall i :: 0 <= i < |history| ==> Conversational(history[i].role)
    ensures |HistoryContents(history)| == |history|
    ensures forall i :: 0 <= i < |history| ==> HistoryContents(history)[i] == TextItem(history[i].content)
  {
    if history != [] {
      HistoryContentsAllConversational(history[..|history| - 1]);
    }
  }

  /** The loop that copies the history into the model input. */
  method AssembleHistoryContents(history: seq<Turn>) returns (contents: seq<ContentItem>)
    ensures contents == HistoryContents(history)
  {
    contents := [];
    for i := 0 to |history|
      invariant contents == HistoryContents(history[..i])
    {
      assert history[..i + 1][..i] == history[..i];
      var turn := history[i];
      if turn.role == "user" {
        contents := contents + [TextItem(turn.content)];
      } else if turn.role == "model" {
        contents := contents + [TextItem(turn.content)];
      }
    }
    assert history[..|history|] == history;
  }

  // ---------------------------------------------------------------- the model's reply

  /** The texts of the parts that have a non-empty text, in order. */
  function NonEmptyTexts(parts: seq<Part>): (texts: seq<string>)
    ensures |texts| <= |parts|
    ensures forall i :: 0 <= i < |texts| ==> texts[i] != ""
  {
    if parts == [] then []
    else
      var last := parts[|parts| - 1];
      NonEmptyTexts(parts[..|parts| - 1]) + (if last.text.Some? && last.text.value != "" then [last.text.value] else [])
  }

  /** A text is kept exactly when it is non-empty and the text of some part. */
  lemma {:induction false} NonEmptyTextsMembers(parts: seq<Part>, t: string)
    ensures t in NonEmptyTexts(parts) <==> t != "" && Part(Some(t)) in parts
  {
    if parts != [] {
      var init := parts[..|parts| - 1];
      NonEmptyTextsMembers(init, t);
      assert parts == init + [parts[|parts| - 1]];
    }
  }

  /** The reply string: the texts, one after the other. */
  function Concat(texts: seq<string>): (reply: string)
  {
    if texts == [] then "" else Concat(texts[..|texts| - 1]) + texts[|texts| - 1]
  }

  /** Every text contributes its characters: non-empty texts give a reply at least as long as their number. */
  lemma {:induction false} ConcatLength(texts: seq<string>)
    ensures (forall i :: 0 <= i < |texts| ==> texts[i] != "") ==> |Concat(texts)| >= |texts|
  {
    if texts != [] {
      ConcatLength(texts[..|texts| - 1]);
    }
  }

  /** The answer is the empty string only when no part carries a non-empty text. */
  lemma EmptyAnswerIffNoText(parts: seq<Part>)
    ensures Concat(NonEmptyTexts(parts)) == "" <==> forall i :: 0 <= i < |parts| ==> parts[i].text.None? || parts[i].text.value == ""
  {
    var texts := NonEmptyTexts(parts);
    ConcatLength(texts);
    if texts != [] {
      NonEmptyTextsMembers(parts, texts[0]);
    } else if exists i :: 0 <= i < |parts| && parts[i].text.Some? && parts[i].text.value != "" {
      var i :| 0 <= i < |parts| && parts[i].text.Some? && parts[i].text.value != "";
      NonEmptyTextsMembers(parts, parts[i].text.value);
    }
  }

  /**
   * How a turn reads the model's response: an exception and a response without
   * a usable first candidate become fixed apologies; otherwise the non-empty
   * texts of the first candidate's parts are kept.
   */
  function Interpret(g: Generation): (r: Reply)
    ensures r.Apology? <==> (g.Raised? || g.candidates == [] || g.candidates[0].parts.None? || g.candidates[0].parts.value == [])
    ensures r.Apology? ==> r.message == (if g.Raised? then ErrorReply else NoResponseReply)
    ensures r.Answer? ==> r.texts == NonEmptyTexts(g.candidates[0].parts.value)
  {
    match g
    case Raised => Apology(ErrorReply)
    case Generated(candidates) =>
      if candidates == [] then Apology(NoResponseReply)
      else
        var parts := candidates[0].parts;
        if parts.None? || parts.value == [] then Apology(NoResponseReply)
        else Answer(NonEmptyTexts(parts.value))
  }

  /** Only the first candidate matters. */
  lemma FirstCandidateOnly(c: Candidate, rest1: seq<Candidate>, rest2: seq<Candidate>)
    ensures Interpret(Generated([c] + rest1)) == Interpret(Generated([c] + rest2))
  {
  }

  function ReplyText(r: Reply): (text: string)
  {
    match r
    case Apology(message) => message
    case Answer(texts) => Concat(texts)
  }

  /** The texts a turn records as model turns. */
  function ModelTexts(r: Reply): (texts: seq<string>)
  {
    match r
    case Apology(_) => []
    case Answer(texts) => texts
  }

  /** One "model" turn per text, in order. */
  function ModelTurns(texts: seq<string>): (turns: seq<Turn>)
    ensures |turns| == |texts|
    ensures forall i :: 0 <= i < |texts| ==> turns[i] == Turn("model", texts[i])
  {
    if texts == [] then [] else ModelTurns(texts[..|texts| - 1]) + [Turn("model", texts[|texts| - 1])]
  }

  lemma NonEmptyTextsSnoc(parts: seq<Part>, i: nat)
    requires i < |parts|
    ensures NonEmptyTexts(parts[..i + 1]) ==
      NonEmptyTexts(parts[..i]) + (if parts[i].text.Some? && parts[i].text.value != "" then [parts[i].text.value] else [])
  {
    assert parts[..i + 1][..i] == parts[..i];
  }

  lemma ConcatSnoc(texts: seq<string>, t: string)
    ensures Concat(texts + [t]) == Concat(texts) + t
  {
    assert (texts + [t])[..|texts|] == texts;
  }

  lemma ModelTurnsSnoc(texts: seq<string>, t: string)
    ensures ModelTurns(texts + [t]) == ModelTurns(texts) + [Turn("model", t)]
  {
    assert (texts + [t])[..|texts|] == texts;
  }

  // ---------------------------------------------------------------- the turn

  /** The turn once the user turn and the model input are fixed. */
  function Complete(history: seq<Turn>, userTurn: Turn, contents: seq<ContentItem>,
                    generate: seq<ContentItem> -> Generation): (x: Exchange)
  {
    var r := Interpret(generate(contents));
    Exchange(ReplyText(r), history + [userTurn] + ModelTurns(ModelTexts(r)), Some(contents))
  }

  /** The effect of one turn on the history, as `get_chat_response` computes it. */
  function Respond(history: seq<Turn>, userPrompt: Option<string>, audioFilePath: Option<string>,
                   readFile: string -> seq<byte>, generate: seq<ContentItem> -> Generation): (x: Exchange)
    ensures x.sent.None? <==> !Truthy(userPrompt) && !Truthy(audioFilePath)
    ensures x.sent.None? ==> x.reply == NoInputReply && x.history == history
    ensures x.sent.Some? ==> |x.history| > |history| && x.history[..|history|] == history
  {
    var previous := HistoryContents(history);
    if Truthy(userPrompt) then
      Complete(history, Turn("user", userPrompt.value), previous + [TextItem(userPrompt.value)], generate)
    else if Truthy(audioFilePath) then
      var audio := AudioItem(readFile(audioFilePath.value), AudioMimeType);
      Complete(history, Turn("user", AudioTurnContent), previous + [TextItem(AudioInstruction), audio], generate)
    else
      Exchange(NoInputReply, history, None)
  }

  /**
   * The shape of a turn: a truthy prompt takes precedence over a truthy audio
   * path; with neither, the turn records nothing and makes no model call;
   * otherwise the model input is the history's contents followed by the new
   * input, and one user turn, then one model turn per kept text, are appended.
   */
  lemma RespondShape(history: seq<Turn>, userPrompt: Option<string>, audioFilePath: Option<string>,
                     readFile: string -> seq<byte>, generate: seq<ContentItem> -> Generation)
    ensures var x := Respond(history, userPrompt, audioFilePath, readFile, generate);
      && (!Truthy(userPrompt) && !Truthy(audioFilePath) ==> x == Exchange(NoInputReply, history, None))
      && (Truthy(userPrompt) ==> x.sent == Some(HistoryContents(history) + [TextItem(userPrompt.value)]))
      && (!Truthy(userPrompt) && Truthy(audioFilePath) ==>
            x.sent == Some(HistoryContents(history) + [TextItem(AudioInstruction), AudioItem(readFile(audioFilePath.value), AudioMimeType)]))
      && (x.sent.Some? ==>
            var r := Interpret(generate(x.sent.value));
            && x.reply == ReplyText(r)
            && |x.history| == |history| + 1 + |ModelTexts(r)|
            && x.history[..|history|] == history
            && x.history[|history|] == Turn("user", if Truthy(userPrompt) then userPrompt.value else AudioTurnContent)
            && (forall i :: 0 <= i < |ModelTexts(r)| ==> x.history[|history| + 1 + i] == Turn("model", ModelTexts(r)[i])))
  {
    var x := Respond(history, userPrompt, audioFilePath, readFile, generate);
    if x.sent.Some? {
      var r := Interpret(generate(x.sent.value));
      var turns := ModelTurns(ModelTexts(r));
      forall i | 0 <= i < |ModelTexts(r)|
        ensures x.history[|history| + 1 + i] == Turn("model", ModelTexts(r)[i])
      {
        assert x.history[|history| + 1 + i] == turns[i];
      }
    }
  }

  /** Whatever the model does, the reply is one of the fixed strings or the model's own texts. */
  lemma ReplyCases(history: seq<Turn>, userPrompt: Option<string>, audioFilePath: Option<string>,
                   readFile: string -> seq<byte>, generate: seq<ContentItem> -> Generation)
    ensures var x := Respond(history, userPrompt, audioFilePath, readFile, generate);
      x.reply in {NoInputReply, NoResponseReply, ErrorReply} || (x.sent.Some? && x.reply == Concat(ModelTexts(Interpret(generate(x.sent.value)))))
  {
  }

  /** A failed model call still leaves the user turn in the history, and nothing else. */
  lemma FailureKeepsUserTurn(history: seq<Turn>, userPrompt: Option<string>, audioFilePath: Option<string>,
                             readFile: string -> seq<byte>, generate: seq<ContentItem> -> Generation)
    requires Truthy(userPrompt) || Truthy(audioFilePath)
    ensures var x := Respond(history, userPrompt, audioFilePath, readFile, generate);
      Interpret(generate(x.sent.value)).Apology? ==>
        (x.reply == NoResponseReply || x.reply == ErrorReply) && |x.history| == |history| + 1
  {
  }

  /**
   * A history made of user and model turns stays so after a turn, and the next
   * turn then passes every earlier turn's content to the model.
   */
  lemma {:induction false} TurnKeepsHistoryConversational(history: seq<Turn>, userPrompt: Option<string>, audioFilePath: Option<string>,
                                       readFile: string -> seq<byte>, generate: seq<ContentItem> -> Generation)
    requires forall i :: 0 <= i < |history| ==> Conversational(history[i].role)
    ensures var h := Respond(history, userPrompt, audioFilePath, readFile, generate).history;
      && (forall i :: 0 <= i < |h| ==> Conversational(h[i].role))
      && |HistoryContents(h)| == |h|
      && (forall i :: 0 <= i < |h| ==> HistoryContents(h)[i] == TextItem(h[i].content))
  {
    var x := Respond(history, userPrompt, audioFilePath, readFile, generate);
    var h := x.history;
    if x.sent.Some? {
      var userTurn := Turn("user", if Truthy(userPrompt) then userPrompt.value else AudioTurnContent);
      var added := ModelTurns(ModelTexts(Interpret(generate(x.sent.value))));
      assert h == history + [userTurn] + added;
      forall i | 0 <= i < |h|
        ensures Conversational(h[i].role)
      {
        if i > |history| {
          assert h[i] == added[i - |history| - 1];
        } else if i < |history| {
          assert h[i] == history[i];
        }
      }
    }
    HistoryContentsAllConversational(h);
  }

  /** The in-place conversation history list of a chat session. */
  class ConversationHistory {
    var turns: seq<Turn>

    /** `start_new_chat`: a new, empty history. */
    constructor StartNewChat()
      ensures turns == []
    {
      turns := [];
    }
  }

  /**
   * `get_chat_response`: extends `history` in place and returns the reply;
   * `sent` is the input handed to the model, None when the model was not called.
   * `readFile` gives the bytes of an audio file and `generate` is the model call.
   */
  method GetChatResponse(history: ConversationHistory, userPrompt: Option<string>, audioFilePath: Option<string>,
                         readFile: string -> seq<byte>, generate: seq<ContentItem> -> Generation)
    returns (reply: string, sent: Option<seq<ContentItem>>)
    modifies history
    ensures Exchange(reply, history.turns, sent) == Respond(old(history.turns), userPrompt, audioFilePath, readFile, generate)
  {
    ghost var previous := history.turns;
    var contents := AssembleHistoryContents(history.turns);
    ghost var userTurn: Turn;
    if Truthy(userPrompt) {
      contents := contents + [TextItem(userPrompt.value)];
      userTurn := Turn("user", userPrompt.value);
      history.turns := history.turns + [Turn("user", userPrompt.value)];
    } else if Truthy(audioFilePath) {
      var audioContent := readFile(audioFilePath.value);
      contents := contents + [TextItem(AudioInstruction)];
      contents := contents + [AudioItem(audioContent, AudioMimeType)];
      assert contents == HistoryContents(previous) + [TextItem(AudioInstruction), AudioItem(audioContent, AudioMimeType)];
      userTurn := Turn("user", AudioTurnContent);
      history.turns := history.turns + [Turn("user", AudioTurnContent)];
    } else {
      return NoInputReply, None;
    }
    assert Respond(previous, userPrompt, audioFilePath, readFile, generate) == Complete(previous, userTurn, contents, generate);
    assert history.turns == previous + [userTurn];
    sent := Some(contents);
    var response := generate(contents);
    if response.Raised? {
      return ErrorReply, sent;
    }
    if response.candidates == [] {
      return NoResponseReply, sent;
    }
    var candidate := response.candidates[0];
    if candidate.parts.None? || candidate.parts.value == [] {
      return NoResponseReply, sent;
    }
    var parts := candidate.parts.value;
    reply := AppendModelTurns(history, parts);
  }

  /** The loop that accumulates the reply and records each non-empty text part as a model turn. */
  method AppendModelTurns(history: ConversationHistory, parts: seq<Part>) returns (finalResponse: string)
    modifies history
    ensures finalResponse == Concat(NonEmptyTexts(parts))
    ensures history.turns == old(history.turns) + ModelTurns(NonEmptyTexts(parts))
  {
    finalResponse := "";
    for i := 0 to |parts|
      invariant finalResponse == Concat(NonEmptyTexts(parts[..i]))
      invariant history.turns == old(history.turns) + ModelTurns(NonEmptyTexts(parts[..i]))
    {
      NonEmptyTextsSnoc(parts, i);
      var part := parts[i];
      if part.text.Some? && part.text.value != "" {
        ConcatSnoc(NonEmptyTexts(parts[..i]), part.text.value);
        ModelTurnsSnoc(NonEmptyTexts(parts[..i]), part.text.value);
        finalResponse := finalResponse + part.text.value;
        history.turns := history.turns + [Turn("model", part.text.value)];
      } else {
        assert NonEmptyTexts(parts[..i + 1]) == NonEmptyTexts(parts[..i]);
      }
    }
    assert parts[..|parts|] == parts;
  }
}
