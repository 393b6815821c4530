/** The AI-assistant chat page: the message log, the input box, the loading flag,
    the request it sends to `POST /api/ai/chat` and the source links it renders. */
module AssistantPage {

  import opened Common
  import ChatRoute

  /** A message of the log; only assistant answers carry sources. */
  datatype Message = Message(role: string, content: string, sources: Option<seq<ChatRoute.Source>>)

  /** A turn of the history payload: role and content only. */
  datatype Turn = Turn(role: string, content: string)

  /** The JSON body the page posts. */
  datatype ChatRequest = ChatRequest(message: string, history: seq<Turn>)

  /** How the request ended: a successful response with its JSON fields, or a
      failure (a non-OK status or a network error). */
  datatype Outcome = Succeeded(response: string, sources: Option<seq<ChatRoute.Source>>) | Failed

  const WelcomeText: string :=
    "Привет! Я ИИ-помощник портала МКК ФК. Я могу ответить на вопросы по базе знаний, регламентам и инструкциям компании. Чем могу помочь?"

  const Welcome: Message := Message("assistant", WelcomeText, None)

  const Apology: string := "Извините, произошла ошибка. Попробуйте позже."

  /** `messages.map(m => ({ role, content }))`. */
  function HistoryOf(messages: seq<Message>): (r: seq<Turn>)
    ensures |r| == |messages|
    ensures forall i :: 0 <= i < |messages| ==> r[i] == Turn(messages[i].role, messages[i].content)
  {
    seq(|messages|, i requires 0 <= i < |messages| => Turn(messages[i].role, messages[i].content))
  }

  /** The assistant message appended when the request ends. */
  function ReplyMessage(outcome: Outcome): (m: Message)
    ensures m.role == "assistant"
    ensures outcome.Failed? ==> m.content == Apology && m.sources.None?
    ensures outcome.Succeeded? ==> m.content == outcome.response && m.sources == outcome.sources
  {
    match outcome
    case Succeeded(response, sources) => Message("assistant", response, sources)
    case Failed => Message("assistant", Apology, None)
  }

  /** What the page sees of the endpoint's response. */
  function OutcomeOf(res: ChatRoute.Response): (o: Outcome)
    ensures res.Failure? <==> o.Failed?
    ensures res.Answer? ==> o == Succeeded(res.response, Some(res.sources))
  {
    match res
    case Answer(response, sources) => Succeeded(response, Some(sources))
    case Failure(_, _) => Failed
  }

  /** The sources block is rendered only for a non-empty list. */
  predicate ShowSources(m: Message) {
    m.sources.Some? && |m.sources.value| > 0
  }

  /** The link of a source: `/` + type + `/` + id. */
  function SourceHref(s: ChatRoute.Source): string {
    "/" + s.kind + "/" + s.id
  }

  /** The text before and after the first `sep`, if there is one. */
  function SplitFirst(s: string, sep: char): (r: Option<(string, string)>)
    ensures r.Some? ==> r.value.0 + [sep] + r.value.1 == s && sep !in r.value.0
    ensures r.None? ==> sep !in s
  {
    if s == [] then None
    else if s[0] == sep then Some(("", s[1..]))
    else match SplitFirst(s[1..], sep)
      case None => None
      case Some(p) => Some(([s[0]] + p.0, p.1))
  }

  lemma {:induction false} SplitFirstAt(a: string, sep: char, b: string)
    requires sep !in a
    ensures SplitFirst(a + [sep] + b, sep) == Some((a, b))
  {
    if a != [] {
      var s := a + [sep] + b;
      SplitFirstAt(a[1..], sep, b);
      assert s[1..] == a[1..] + [sep] + b;
      assert s[0] == a[0] && a[0] != sep;
      assert [a[0]] + a[1..] == a;
    } else {
      assert a + [sep] + b == [sep] + b;
    }
  }

  /** A link names its source: the type and the id can be read back from it,
      provided the type holds no `/`. */
  lemma SourceHrefRoundTrip(s: ChatRoute.Source)
    requires '/' !in s.kind
    ensures |SourceHref(s)| > 0 && SourceHref(s)[0] == '/'
    ensures SplitFirst(SourceHref(s)[1..], '/') == Some((s.kind, s.id))
  {
    assert SourceHref(s)[1..] == s.kind + ['/'] + s.id;
    SplitFirstAt(s.kind, '/', s.id);
  }

  /** The request body as the endpoint parses it. */
  function ServerBody(request: ChatRequest): ChatRoute.RequestBody {
    ChatRoute.RequestBody(
      Some(request.message),
      Some(seq(|request.history|, i requires 0 <= i < |request.history| =>
        ChatRoute.HistoryEntry(request.history[i].role, request.history[i].content, map[]))))
  }

  class ChatPage {
    var messages: seq<Message>
    var input: string
    var loading: bool

    /** The log always opens with the welcome message. */
    ghost predicate Valid()
      reads this
    {
      |messages| >= 1 && messages[0] == Welcome
    }

    constructor()
      ensures Valid()
      ensures messages == [Welcome] && input == "" && !loading
    {
      messages := [Welcome];
      input := "";
      loading := false;
    }

    /** Typing into the input box. */
    method SetInput(text: string)
      modifies this
      ensures input == text && messages == old(messages) && loading == old(loading)
    {
      input := text;
    }

    /** The part of `handleSend` before the request is awaited. A blank input or
        a pending request changes nothing and sends nothing; otherwise the user's
        message is appended, the input cleared, the flag raised, and the request
        carries the typed text and every message present before this send. */
    method Send() returns (request: Option<ChatRequest>)
      requires Valid()
      modifies this
      ensures Valid()
      ensures IsBlank(old(input)) || old(loading) ==>
        request.None? && messages == old(messages) && input == old(input) && loading == old(loading)
      ensures !IsBlank(old(input)) && !old(loading) ==>
        request == Some(ChatRequest(old(input), HistoryOf(old(messages)))) &&
        messages == old(messages) + [Message("user", old(input), None)] &&
        input == "" && loading
    {
      TrimEmptyIffBlank(input);
      if Trim(input) == "" || loading {
        return None;
      }
      var text := input;
      var history := HistoryOf(messages);
      messages := messages + [Message("user", text, None)];
      input := "";
      loading := true;
      request := Some(ChatRequest(text, history));
    }

    /** The part of `handleSend` after the request ends: exactly one assistant
        message is appended, and the flag is lowered on success and failure alike. */
    method Settle(outcome: Outcome)
      requires Valid()
      modifies this
      ensures Valid()
      ensures messages == old(messages) + [ReplyMessage(outcome)]
      ensures !loading && input == old(input)
    {
      match outcome {
        case Succeeded(response, sources) =>
          messages := messages + [Message("assistant", response, sources)];
        case Failed =>
          messages := messages + [Message("assistant", Apology, None)];
      }
      loading := false;
    }

    /** `handleSend` as a whole, with the request's outcome given. An accepted send
        appends the user's message and then one assistant message, and never
        touches earlier entries. */
    method HandleSend(outcome: Outcome) returns (request: Option<ChatRequest>)
      requires Valid()
      modifies this
      ensures Valid()
      ensures IsBlank(old(input)) || old(loading) ==>
        request.None? && messages == old(messages) && input == old(input) && loading == old(loading)
      ensures !IsBlank(old(input)) && !old(loading) ==>
        request == Some(ChatRequest(old(input), HistoryOf(old(messages)))) &&
        messages == old(messages) + [Message("user", old(input), None), ReplyMessage(outcome)] &&
        input == "" && !loading
    {
      request := Send();
      if request.Some? {
        Settle(outcome);
      }
    }
  }

  /** The history sent always begins with the welcome message. */
  lemma HistoryStartsWithWelcome(messages: seq<Message>)
    requires |messages| >= 1 && messages[0] == Welcome
    ensures HistoryOf(messages)[0] == Turn("assistant", WelcomeText)
  {
  }

  /** Whatever the page sends passes the endpoint's message gate. */
  lemma SentMessagePassesGate(input: string, messages: seq<Message>)
    requires !IsBlank(input)
    ensures ChatRoute.Truthy(ServerBody(ChatRequest(input, HistoryOf(messages))).message)
  {
    assert input != "" by {
      if input == "" {
        assert IsBlank(input);
      }
    }
  }

  /** The endpoint keeps the last five sent turns, in order, with role and content
      intact. */
  lemma ServerSeesLastTurns(request: ChatRequest)
    ensures ChatRoute.HistoryWindow(ServerBody(request).history.value) ==
      seq(|TakeLast(request.history, 5)|, i requires 0 <= i < |TakeLast(request.history, 5)| =>
        ChatRoute.ChatMessage(TakeLast(request.history, 5)[i].role, TakeLast(request.history, 5)[i].content))
  {
  }

  /** A failed request leaves the apology, without sources. */
  lemma FailureShowsApology(res: ChatRoute.Response)
    requires res.Failure?
    ensures ReplyMessage(OutcomeOf(res)) == Message("assistant", Apology, None)
    ensures !ShowSources(ReplyMessage(OutcomeOf(res)))
  {
  }

  /** An answer's message shows its sources exactly when the endpoint sent some. */
  lemma AnswerSourcesShown(res: ChatRoute.Response)
    requires res.Answer?
    ensures ShowSources(ReplyMessage(OutcomeOf(res))) <==> |res.sources| > 0
  {
  }
}
