/** The AI assistant sidebar: a chat history, the message being typed, a
    loading flag that admits one request at a time, the API key field and
    its storage slot, and a microphone control that dictates into the
    message field. Sending is asynchronous, so it is split into `Send`, the
    part that runs before the request goes out, and `Complete`, the part
    that runs when it settles. */
module Assistant {
  import opened Options
  import opened Text
  import opened Store
  import opened Speech

  const KeySlot: string := "perplexity_api_key"
  const ModelName: string := "llama-3.1-sonar-small-128k-online"
  const SystemPrompt: string := "You are a helpful AI assistant integrated into a personal dashboard. Be concise, practical, and helpful. Focus on actionable advice and clear explanations."
  const FallbackReply: string := "Sorry, I could not generate a response."

  datatype Role = UserRole | AssistantRole

  /** A chat bubble. The id is the decimal rendering of a millisecond clock
      reading and the time stamp is that reading. */
  datatype Message = Message(id: string, role: Role, content: string, timestamp: nat)

  /** One entry of the request's `messages` array. */
  datatype Turn = Turn(role: string, content: string)

  /** The body (and bearer credential) of a chat-completion request. */
  datatype Request = Request(
    bearer: string,
    model: string,
    turns: seq<Turn>,
    temperature: real,
    topP: real,
    maxTokens: nat,
    returnImages: bool,
    returnRelatedQuestions: bool,
    frequencyPenalty: real,
    presencePenalty: real)

  /** How a request settles: an ok response, whose first choice may or may
      not carry message content; a response with a non-ok status; or a
      thrown error (network failure, unparsable or misshapen body). */
  datatype Outcome = Answered(content: Option<string>) | Rejected(status: int) | Failed

  datatype Session = Session(
    messages: seq<Message>,
    input: string,
    loading: bool,
    apiKey: string,
    showKeyInput: bool,
    speech: Listening,
    hasRecognizer: bool,
    store: Store)

  /** The result of `Send`: the new session and the request issued, if any. */
  datatype Sent = Sent(session: Session, request: Option<Request>)

  /** On mount: no history, nothing typed, the key field holding the stored
      key (or nothing), and the key panel shown exactly when it is empty. */
  function Init(store: Store, hasRecognizer: bool): (s: Session)
    ensures s.messages == [] && s.input == "" && !s.loading && s.speech == Idle
    ensures KeySlot in store && store[KeySlot] != "" ==> s.apiKey == store[KeySlot]
    ensures KeySlot !in store || store[KeySlot] == "" ==> s.apiKey == ""
    ensures s.showKeyInput <==> s.apiKey == ""
    ensures s.store == store && s.hasRecognizer == hasRecognizer
  {
    var key := OrElse(Get(store, KeySlot), "");
    Session([], "", false, key, key == "", Idle, hasRecognizer, store)
  }

  /** The request for one user message: the fixed instruction and that
      message alone, with the fixed sampling settings. */
  function RequestFor(key: string, content: string): (r: Request)
    ensures r.bearer == key && r.model == ModelName
    ensures |r.turns| == 2
    ensures r.turns[0] == Turn("system", SystemPrompt)
    ensures r.turns[1] == Turn("user", content)
    ensures r.temperature == 0.2 && r.topP == 0.9 && r.maxTokens == 1000
    ensures !r.returnImages && !r.returnRelatedQuestions
    ensures r.frequencyPenalty == 1.0 && r.presencePenalty == 0.0
  {
    Request(key, ModelName, [Turn("system", SystemPrompt), Turn("user", content)],
            0.2, 0.9, 1000, false, false, 1.0, 0.0)
  }

  /** The send button (and Enter), up to the request going out.
      A blank message, or a request still in flight, makes it do nothing.
      With an empty key field it only reveals the key panel. Otherwise the
      trimmed message joins the history as the one new entry, the field is
      cleared, loading begins, and exactly one request is issued carrying
      the key field's value and that message alone. */
  function Send(s: Session, now: nat): (r: Sent)
    ensures IsBlank(s.input) || s.loading ==> r == Sent(s, None)
    ensures !IsBlank(s.input) && !s.loading && s.apiKey == "" ==>
      r.request.None? && r.session == s.(showKeyInput := true)
    ensures !IsBlank(s.input) && !s.loading && s.apiKey != "" ==>
      && r.session.messages == s.messages + [Message(NatToString(now), UserRole, Trim(s.input), now)]
      && r.session.input == "" && r.session.loading
      && r.session.(messages := s.messages, input := s.input, loading := s.loading) == s
      && r.request == Some(RequestFor(s.apiKey, Trim(s.input)))
    ensures r.request.Some? ==> r.request.value.turns[1].content != ""
  {
    if Trim(s.input) == "" || s.loading then Sent(s, None)
    else if s.apiKey == "" then Sent(s.(showKeyInput := true), None)
    else
      var content := Trim(s.input);
      var msg := Message(NatToString(now), UserRole, content, now);
      Sent(s.(messages := s.messages + [msg], input := "", loading := true),
           Some(RequestFor(s.apiKey, content)))
  }

  /** The reply text of an ok response: its content, or the fixed apology
      when the content is missing or empty. */
  function ReplyText(content: Option<string>): (t: string)
    ensures t != ""
    ensures content.Some? && content.value != "" ==> t == content.value
    ensures content.None? || content.value == "" ==> t == FallbackReply
  {
    OrElse(content, FallbackReply)
  }

  /** The request settling at time `now`. An ok response adds exactly one
      assistant message; a failure adds nothing and keeps the history as it
      is. Either way loading ends and nothing else changes. */
  function Complete(s: Session, outcome: Outcome, now: nat): (r: Session)
    ensures !r.loading
    ensures outcome.Answered? ==>
      r.messages == s.messages + [Message(NatToString(now + 1), AssistantRole, ReplyText(outcome.content), now)]
    ensures !outcome.Answered? ==> r.messages == s.messages
    ensures r.(messages := s.messages, loading := s.loading) == s
  {
    match outcome
    case Answered(content) =>
      var reply := Message(NatToString(now + 1), AssistantRole, ReplyText(content), now);
      s.(messages := s.messages + [reply], loading := false)
    case _ => s.(loading := false)
  }

  /** Typing a message. */
  function Type(s: Session, text: string): (r: Session)
    ensures r.input == text
    ensures r.(input := s.input) == s
  {
    s.(input := text)
  }

  /** Typing into the key field: it updates the key used by the next send
      at once, before any save. */
  function TypeKey(s: Session, key: string): (r: Session)
    ensures r.apiKey == key && r.store == s.store
    ensures r.(apiKey := s.apiKey) == s
  {
    s.(apiKey := key)
  }

  /** The settings button shows or hides the key panel. */
  function ToggleKeyPanel(s: Session): (r: Session)
    ensures r.showKeyInput == !s.showKeyInput
    ensures r.(showKeyInput := s.showKeyInput) == s
  {
    s.(showKeyInput := !s.showKeyInput)
  }

  /** The key panel's save button. A blank key does nothing. Otherwise the
      trimmed key is stored and the panel hides; the field itself keeps what
      was typed. */
  function SaveApiKey(s: Session): (r: Session)
    ensures IsBlank(s.apiKey) ==> r == s
    ensures !IsBlank(s.apiKey) ==>
      && Get(r.store, KeySlot) == Some(Trim(s.apiKey))
      && !r.showKeyInput
      && r.(store := s.store, showKeyInput := s.showKeyInput) == s
    ensures !IsBlank(s.apiKey) ==> r.store.Keys == s.store.Keys + {KeySlot}
    ensures forall k :: k in s.store && k != KeySlot ==> k in r.store && r.store[k] == s.store[k]
  {
    var key := Trim(s.apiKey);
    if key != "" then s.(store := Set(s.store, KeySlot, key), showKeyInput := false)
    else s
  }

  /** The clear button empties the history and touches nothing else. */
  function ClearMessages(s: Session): (r: Session)
    ensures r.messages == []
    ensures r.(messages := s.messages) == s
  {
    s.(messages := [])
  }

  /** The field's key handler: Enter without Shift sends. */
  function OnKeyPress(s: Session, key: string, shift: bool, now: nat): (r: Sent)
    ensures key == "Enter" && !shift ==> r == Send(s, now)
    ensures !(key == "Enter" && !shift) ==> r == Sent(s, None)
  {
    if key == "Enter" && !shift then Send(s, now) else Sent(s, None)
  }

  /** The microphone button: nothing without a recogniser, otherwise it
      starts or stops listening. */
  function ToggleVoice(s: Session): (r: Session)
    ensures !s.hasRecognizer ==> r == s
    ensures s.hasRecognizer ==> r.speech != s.speech
    ensures r.(speech := s.speech) == s
  {
    s.(speech := Toggle(s.hasRecognizer, s.speech))
  }

  /** A recognised phrase replaces the typed message, unsent, and listening
      ends. */
  function OnResult(s: Session, transcript: string): (r: Session)
    ensures r.input == transcript && r.speech == Idle
    ensures r.(input := s.input, speech := s.speech) == s
  {
    s.(input := transcript, speech := Idle)
  }

  /** The recogniser's error and end events both end listening. */
  function OnErrorOrEnd(s: Session): (r: Session)
    ensures r.speech == Idle
    ensures r.(speech := s.speech) == s
  {
    s.(speech := Idle)
  }

  /** While a request is in flight a second send issues nothing, whatever
      has been typed meanwhile. */
  lemma SingleInFlight(s: Session, now: nat, typed: string, later: nat)
    requires Send(s, now).request.Some?
    ensures Send(Type(Send(s, now).session, typed), later) == Sent(Type(Send(s, now).session, typed), None)
  {
  }

  /** A turn that succeeds adds the user's message and then one reply. */
  lemma TurnAnswered(s: Session, now: nat, content: Option<string>, later: nat)
    requires Send(s, now).request.Some?
    ensures var r := Complete(Send(s, now).session, Answered(content), later);
      && |r.messages| == |s.messages| + 2
      && r.messages[..|s.messages|] == s.messages
      && r.messages[|s.messages|].role == UserRole
      && r.messages[|s.messages|].content == Trim(s.input)
      && r.messages[|s.messages| + 1].role == AssistantRole
      && !r.loading
  {
  }

  /** A turn that fails keeps the user's message, adds no reply, and ends
      loading, so the next message can be sent. */
  lemma TurnFailed(s: Session, now: nat, outcome: Outcome, later: nat)
    requires Send(s, now).request.Some? && !outcome.Answered?
    ensures var r := Complete(Send(s, now).session, outcome, later);
      && r.messages == s.messages + [Message(NatToString(now), UserRole, Trim(s.input), now)]
      && !r.loading
  {
  }

  /** With nothing stored, a first message is never sent: no request, an
      empty history, and the key panel showing. */
  lemma KeyGateOnFirstUse(hasRecognizer: bool, text: string, now: nat)
    ensures var s := Type(Init(map[], hasRecognizer), text);
      && Send(s, now).request.None?
      && Send(s, now).session.messages == []
      && Send(s, now).session.showKeyInput
  {
  }

  /** A saved key is what the next mount puts in the key field, and then the
      key panel starts hidden. */
  lemma SavedKeyReloads(s: Session, hasRecognizer: bool)
    requires !IsBlank(s.apiKey)
    ensures Init(SaveApiKey(s).store, hasRecognizer).apiKey == Trim(s.apiKey)
    ensures !Init(SaveApiKey(s).store, hasRecognizer).showKeyInput
  {
  }

  /** Everything that can happen to the sidebar apart from the clear button. */
  datatype Event =
    | Typed(text: string)
    | TypedKey(key: string)
    | KeyPanelButton
    | SaveKeyButton
    | KeyPressed(key: string, shift: bool, at: nat)
    | SendButton(at: nat)
    | Settled(outcome: Outcome, at: nat)
    | MicButton
    | Heard(transcript: string)
    | MicStopped

  /** The session after one event, with each event's own handler. No event
      takes anything out of the history. */
  function Step(s: Session, e: Event): (r: Session)
    ensures s.messages <= r.messages
  {
    match e
    case Typed(text) => Type(s, text)
    case TypedKey(key) => TypeKey(s, key)
    case KeyPanelButton => ToggleKeyPanel(s)
    case SaveKeyButton => SaveApiKey(s)
    case KeyPressed(key, shift, at) => OnKeyPress(s, key, shift, at).session
    case SendButton(at) => Send(s, at).session
    case Settled(outcome, at) => Complete(s, outcome, at)
    case MicButton => ToggleVoice(s)
    case Heard(transcript) => OnResult(s, transcript)
    case MicStopped => OnErrorOrEnd(s)
  }

  function Replay(s: Session, es: seq<Event>): Session
    decreases |es|
  {
    if |es| == 0 then s else Replay(Step(s, es[0]), es[1..])
  }

  /** Until the clear button is pressed the history only grows: whatever was
      in it stays, in the same places, at the front. */
  lemma {:induction false} HistoryOnlyGrows(s: Session, es: seq<Event>)
    ensures s.messages <= Replay(s, es).messages
    decreases |es|
  {
    if |es| > 0 {
      HistoryOnlyGrows(Step(s, es[0]), es[1..]);
    }
  }
}
