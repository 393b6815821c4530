/** The AI-assistant endpoint (`POST /api/ai/chat`): authentication, profile and
    input gates, retrieval with a text-search fallback, context and source
    assembly, the system prompt, the history window, and the answer.

    The collaborators (the auth service, the profile query, the request body, the
    embedding service, the `match_documents` RPC, the article text search and the
    chat completion) are scripted replies: each either throws or returns a value,
    and the handler records every call it makes. */
module ChatRoute {

  import opened Common
  import opened Types

  // ---------------------------------------------------------------------------
  // Constants of the handler
  // ---------------------------------------------------------------------------

  const MatchThreshold: real := 0.7
  const MatchCount: nat := 5
  const FallbackLimit: nat := 3
  const HistoryTurns: nat := 5
  const SourceCap: nat := 3
  const ContextSeparator: string := "\n\n"

  const DefaultTitle: string := "База знаний"
  const KnowledgeKind: string := "knowledge"
  const NoContext: string := "Контекст не найден"
  const NoAnswer: string := "Извините, не удалось сформировать ответ."

  const Unauthorized: string := "Unauthorized"
  const ProfileNotFound: string := "Profile not found"
  const MessageRequired: string := "Message is required"
  const InternalError: string := "Internal server error"

  /** The fixed part of the system prompt, up to the place of the context. */
  const PromptHeader: string :=
    "Вы - ИИ-помощник внутреннего портала микрофинансовой компании МКК ФК.\n" +
    "    \n" +
    "Ваша задача - помогать сотрудникам находить информацию в базе знаний компании.\n" +
    "\n" +
    "ВАЖНЫЕ ПРАВИЛА:\n" +
    "1. Отвечайте ТОЛЬКО на основе предоставленного контекста из базы знаний\n" +
    "2. Если ответ не найден в контексте, честно скажите об этом\n" +
    "3. Не придумывайте информацию, которой нет в контексте\n" +
    "4. Отвечайте на русском языке\n" +
    "5. Будьте краткими и по делу\n" +
    "6. Если вопрос касается конкретной процедуры, укажите ссылку на источник\n" +
    "\n" +
    "КОНТЕКСТ ИЗ БАЗЫ ЗНАНИЙ:\n"

  // ---------------------------------------------------------------------------
  // Data
  // ---------------------------------------------------------------------------

  /** The `role, branch_id` columns of the caller's profile. */
  datatype Profile = Profile(role: Role, branchId: Option<string>)

  /** One turn of the history the client sends; `extra` stands for any further
      properties, which the handler drops. */
  datatype HistoryEntry = HistoryEntry(role: string, content: string, extra: map<string, string>)

  /** The parsed JSON body. A missing or `null` message is `None`; a missing
      history is `None`. */
  datatype RequestBody = RequestBody(message: Option<string>, history: Option<seq<HistoryEntry>>)

  /** A row returned by `match_documents`: an index chunk with the title of its
      source, which may be missing. */
  datatype MatchedDoc = MatchedDoc(chunk: AIIndex, title: Option<string>)

  /** The `id, title, content` columns of a published knowledge article. */
  datatype Article = Article(id: string, title: string, content: string)

  /** An entry of the answer's source list. */
  datatype Source = Source(title: string, id: string, kind: string)

  /** A message of the completion request. */
  datatype ChatMessage = ChatMessage(role: string, content: string)

  /** The calls the handler makes, in order. */
  datatype Call =
    | GetUser
    | GetProfile(userId: string)
    | ReadBody
    | Embed(input: string)
    | MatchDocuments(embedding: seq<real>, threshold: real, count: nat, role: Role, branchId: Option<string>)
    | SearchArticles(query: string, limit: nat)
    | Complete(messages: seq<ChatMessage>)

  /** The JSON answer: the reply with its sources, or an HTTP error status. */
  datatype Response = Answer(response: string, sources: seq<Source>) | Failure(status: int, error: string)

  /** What each collaborator does when called. `embedding` is the `data` list of
      the embedding response; `completion` holds the message content of each
      choice (`None` where it is missing or `null`). */
  datatype Collaborators = Collaborators(
    user: Reply<Option<string>>,
    profile: Reply<Option<Profile>>,
    body: Reply<RequestBody>,
    embedding: Reply<seq<seq<real>>>,
    matches: Reply<Option<seq<MatchedDoc>>>,
    articles: Reply<Option<seq<Article>>>,
    completion: Reply<seq<Option<string>>>)

  /** The context string and the source list taken from one retrieval result. */
  datatype Grounding = Grounding(context: string, sources: seq<Source>)

  // ---------------------------------------------------------------------------
  // Pure parts of the handler
  // ---------------------------------------------------------------------------

  /** JavaScript truthiness of an optional string: `null`, `undefined` and `""`
      are falsy. */
  predicate Truthy(s: Option<string>) {
    s.Some? && s.value != ""
  }

  function Contents(docs: seq<MatchedDoc>): (r: seq<string>)
    ensures |r| == |docs|
    ensures forall i :: 0 <= i < |docs| ==> r[i] == docs[i].chunk.content
  {
    seq(|docs|, i requires 0 <= i < |docs| => docs[i].chunk.content)
  }

  function ArticleContents(arts: seq<Article>): (r: seq<string>)
    ensures |r| == |arts|
    ensures forall i :: 0 <= i < |arts| ==> r[i] == arts[i].content
  {
    seq(|arts|, i requires 0 <= i < |arts| => arts[i].content)
  }

  /** The grounding from semantic matches: the contents joined by a blank line in
      result order, and one source per row (duplicates kept), titled "База знаний"
      when the row has no title. */
  function AssembleFromMatches(docs: seq<MatchedDoc>): (g: Grounding)
    ensures g.context == Join(Contents(docs), ContextSeparator)
    ensures |g.sources| == |docs|
    ensures forall i :: 0 <= i < |docs| ==>
      g.sources[i].id == docs[i].chunk.sourceId && g.sources[i].kind == docs[i].chunk.sourceType &&
      g.sources[i].title == (if Truthy(docs[i].title) then docs[i].title.value else DefaultTitle)
  {
    Grounding(
      Join(Contents(docs), ContextSeparator),
      seq(|docs|, i requires 0 <= i < |docs| =>
        Source(if Truthy(docs[i].title) then docs[i].title.value else DefaultTitle,
               docs[i].chunk.sourceId, docs[i].chunk.sourceType)))
  }

  /** The grounding from the text-search fallback: the contents joined by a blank
      line, and one "knowledge" source per article. */
  function AssembleFromArticles(arts: seq<Article>): (g: Grounding)
    ensures g.context == Join(ArticleContents(arts), ContextSeparator)
    ensures |g.sources| == |arts|
    ensures forall i :: 0 <= i < |arts| ==>
      g.sources[i] == Source(arts[i].title, arts[i].id, KnowledgeKind)
  {
    Grounding(
      Join(ArticleContents(arts), ContextSeparator),
      seq(|arts|, i requires 0 <= i < |arts| => Source(arts[i].title, arts[i].id, KnowledgeKind)))
  }

  /** Exactly one retrieval result supplies the grounding: the semantic matches
      when there are any, otherwise the fallback articles, otherwise nothing. */
  function ChooseGrounding(docs: Option<seq<MatchedDoc>>, arts: Option<seq<Article>>): (g: Grounding)
    ensures docs.Some? && |docs.value| > 0 ==> g == AssembleFromMatches(docs.value)
    ensures !(docs.Some? && |docs.value| > 0) && arts.Some? && |arts.value| > 0 ==> g == AssembleFromArticles(arts.value)
    ensures !(docs.Some? && |docs.value| > 0) && !(arts.Some? && |arts.value| > 0) ==> g == Grounding("", [])
  {
    if docs.Some? && |docs.value| > 0 then AssembleFromMatches(docs.value)
    else if arts.Some? && |arts.value| > 0 then AssembleFromArticles(arts.value)
    else Grounding("", [])
  }

  /** The system prompt: the fixed rules followed by the context, or by the
      sentinel "Контекст не найден" when the context is empty. */
  function SystemPrompt(context: string): (r: string)
    ensures StartsWith(r, PromptHeader)
    ensures r[|PromptHeader|..] == (if context == "" then NoContext else context)
  {
    var tail := if context == "" then NoContext else context;
    assert (PromptHeader + tail)[..|PromptHeader|] == PromptHeader;
    PromptHeader + tail
  }

  /** A history turn reduced to its role and content. */
  function Reduce(h: HistoryEntry): ChatMessage {
    ChatMessage(h.role, h.content)
  }

  /** `history.slice(-5)` reduced to role and content: the last `min(5, |h|)`
      turns, in their original order. */
  function HistoryWindow(history: seq<HistoryEntry>): (r: seq<ChatMessage>)
    ensures |r| == Min(HistoryTurns, |history|)
    ensures forall i :: 0 <= i < |r| ==> r[i] == Reduce(history[|history| - |r| + i])
  {
    var last := TakeLast(history, HistoryTurns);
    seq(|last|, i requires 0 <= i < |last| => Reduce(last[i]))
  }

  /** The completion request: the system prompt, the history window, then the
      user's message. */
  function BuildMessages(systemPrompt: string, history: seq<HistoryEntry>, message: string): (r: seq<ChatMessage>)
    ensures |r| == |HistoryWindow(history)| + 2
    ensures r[0] == ChatMessage("system", systemPrompt)
    ensures r[|r| - 1] == ChatMessage("user", message)
    ensures r[1..|r| - 1] == HistoryWindow(history)
  {
    var r := [ChatMessage("system", systemPrompt)] + HistoryWindow(history) + [ChatMessage("user", message)];
    assert r[1..|r| - 1] == HistoryWindow(history);
    r
  }

  /** `choices[0]?.message?.content || fallback`. */
  function ReplyText(choices: seq<Option<string>>): (r: string)
    ensures r != ""
    ensures |choices| > 0 && Truthy(choices[0]) ==> r == choices[0].value
    ensures !(|choices| > 0 && Truthy(choices[0])) ==> r == NoAnswer
  {
    if |choices| > 0 && Truthy(choices[0]) then choices[0].value else NoAnswer
  }

  // ---------------------------------------------------------------------------
  // Conditions on the collaborators
  // ---------------------------------------------------------------------------

  /** The three gates let the request through: a signed-in user, a profile and a
      truthy message, with no collaborator throwing on the way. */
  predicate PassesGates(c: Collaborators) {
    c.user.Returned? && c.user.value.Some? &&
    c.profile.Returned? && c.profile.value.Some? &&
    c.body.Returned? && Truthy(c.body.value.message)
  }

  /** The message was embedded and the match RPC answered, with nothing. */
  predicate SemanticEmpty(c: Collaborators) {
    c.embedding.Returned? && |c.embedding.value| > 0 &&
    c.matches.Returned? && !(c.matches.value.Some? && |c.matches.value.value| > 0)
  }

  /** The fallback search runs: the gates pass, the embedding and the match RPC
      succeed, and the RPC returns nothing. */
  predicate FallsBack(c: Collaborators) {
    PassesGates(c) && SemanticEmpty(c)
  }

  /** The fallback result, where one was fetched. */
  function FallbackArticles(c: Collaborators): Option<seq<Article>> {
    if c.articles.Returned? then c.articles.value else None
  }

  /** The retrieval steps succeed: the embedding, the match RPC and, when it
      runs, the fallback search. */
  predicate Retrieves(c: Collaborators) {
    c.embedding.Returned? && |c.embedding.value| > 0 &&
    c.matches.Returned? && (SemanticEmpty(c) ==> c.articles.Returned?)
  }

  /** Every step up to the completion succeeds. */
  predicate ReachesCompletion(c: Collaborators) {
    PassesGates(c) && Retrieves(c) && c.body.value.history.Some?
  }

  // ---------------------------------------------------------------------------
  // The handler
  // ---------------------------------------------------------------------------

  /** The retrieval stage of the handler, once the gates have passed: embed the
      message, ask `match_documents` for matches, and search the articles when
      there are none. `ok` is false when a step threw; then nothing is grounded.
      `calls` are the calls this stage made. */
  method Retrieve(c: Collaborators, message: string, profile: Profile) returns (ok: bool, g: Grounding, calls: seq<Call>)
    ensures ok <==> Retrieves(c)
    ensures 1 <= |calls| <= 3 && calls[0] == Embed(message)
    ensures c.embedding.Threw? || |c.embedding.value| == 0 ==> calls == [Embed(message)]
    ensures c.embedding.Returned? && |c.embedding.value| > 0 ==>
      |calls| >= 2 &&
      calls[1] == MatchDocuments(c.embedding.value[0], MatchThreshold, MatchCount, profile.role, profile.branchId)
    ensures !SemanticEmpty(c) ==> forall i :: 0 <= i < |calls| ==> !calls[i].SearchArticles?
    ensures SemanticEmpty(c) ==> |calls| == 3 && calls[2] == SearchArticles(message, FallbackLimit)
    ensures ok ==> g == ChooseGrounding(c.matches.value, FallbackArticles(c))
  {
    g := Grounding("", []);
    calls := [Embed(message)];
    if c.embedding.Threw? || |c.embedding.value| == 0 {
      // `embeddingResponse.data[0]` is undefined: a TypeError caught by the handler.
      return false, g, calls;
    }
    var queryEmbedding := c.embedding.value[0];

    calls := calls + [MatchDocuments(queryEmbedding, MatchThreshold, MatchCount, profile.role, profile.branchId)];
    if c.matches.Threw? {
      return false, g, calls;
    }
    var relevantDocs := c.matches.value;

    if relevantDocs.Some? && |relevantDocs.value| > 0 {
      g := AssembleFromMatches(relevantDocs.value);
    } else {
      calls := calls + [SearchArticles(message, FallbackLimit)];
      if c.articles.Threw? {
        return false, g, calls;
      }
      var articles := c.articles.value;
      if articles.Some? && |articles.value| > 0 {
        g := AssembleFromArticles(articles.value);
      }
    }
    ok := true;
  }

  /** The completion stage: the system prompt over the grounding's context, the
      request with the history window and the message, and the reply. With no
      history (`history.slice` on undefined) the request is never sent; either
      failure is a 500. `calls` are the calls this stage made. */
  method Converse(g: Grounding, history: Option<seq<HistoryEntry>>, message: string,
                  completion: Reply<seq<Option<string>>>) returns (res: Response, calls: seq<Call>)
    ensures history.None? ==> calls == []
    ensures history.Some? ==> calls == [Complete(BuildMessages(SystemPrompt(g.context), history.value, message))]
    ensures res.Answer? <==> history.Some? && completion.Returned?
    ensures res.Failure? ==> res == Failure(500, InternalError)
    ensures res.Answer? ==> res.response == ReplyText(completion.value) && res.sources == Take(g.sources, SourceCap)
  {
    var systemPrompt := SystemPrompt(g.context);
    if history.None? {
      return Failure(500, InternalError), [];
    }
    var messages := BuildMessages(systemPrompt, history.value, message);
    calls := [Complete(messages)];
    if completion.Threw? {
      return Failure(500, InternalError), calls;
    }
    res := Answer(ReplyText(completion.value), Take(g.sources, SourceCap));
  }

  /** The handler after its gates: retrieval, then the completion. Every failure
      here is an exception, answered with a 500. `calls` are the calls this
      stage made. */
  method Respond(c: Collaborators) returns (res: Response, calls: seq<Call>)
    requires PassesGates(c)
    ensures 1 <= |calls| && calls[0] == Embed(c.body.value.message.value)
    ensures c.embedding.Returned? && |c.embedding.value| > 0 ==>
      |calls| >= 2 &&
      calls[1] == MatchDocuments(c.embedding.value[0], MatchThreshold, MatchCount,
                                 c.profile.value.value.role, c.profile.value.value.branchId)
    ensures !SemanticEmpty(c) ==> forall i :: 0 <= i < |calls| ==> !calls[i].SearchArticles?
    ensures SemanticEmpty(c) ==> |calls| >= 3 && calls[2] == SearchArticles(c.body.value.message.value, FallbackLimit)
    ensures c.embedding.Threw? || |c.embedding.value| == 0 ==> res == Failure(500, InternalError) && |calls| == 1
    ensures res.Answer? <==> Retrieves(c) && c.body.value.history.Some? && c.completion.Returned?
    ensures res.Failure? ==> res == Failure(500, InternalError)
    ensures Retrieves(c) && c.body.value.history.Some? ==>
      var g := ChooseGrounding(c.matches.value, FallbackArticles(c));
      calls[|calls| - 1] == Complete(BuildMessages(SystemPrompt(g.context), c.body.value.history.value,
                                                   c.body.value.message.value))
    ensures res.Answer? ==>
      var g := ChooseGrounding(c.matches.value, FallbackArticles(c));
      res.response == ReplyText(c.completion.value) && res.sources == Take(g.sources, SourceCap)
  {
    var message := c.body.value.message.value;
    var ok, g;
    ok, g, calls := Retrieve(c, message, c.profile.value.value);
    if !ok {
      return Failure(500, InternalError), calls;
    }
    var completed;
    res, completed := Converse(g, c.body.value.history, message, c.completion);
    calls := calls + completed;
  }

  /** The three gates of the handler: a signed-in user, their profile, and a
      truthy message in the body. `failure` is the response when a gate refuses
      the request or a step throws; `calls` are the calls made on the way. */
  method Gates(c: Collaborators) returns (failure: Option<Response>, calls: seq<Call>)
    ensures failure.None? <==> PassesGates(c)
    ensures PassesGates(c) ==> calls == [GetUser, GetProfile(c.user.value.value), ReadBody]
    ensures |calls| <= 3 && forall i :: 0 <= i < |calls| ==> calls[i].GetUser? || calls[i].GetProfile? || calls[i].ReadBody?
    ensures c.user.Returned? && c.user.value.None? ==> failure == Some(Failure(401, Unauthorized)) && calls == [GetUser]
    ensures c.user.Returned? && c.user.value.Some? && c.profile.Returned? && c.profile.value.None? ==>
      failure == Some(Failure(404, ProfileNotFound)) && calls == [GetUser, GetProfile(c.user.value.value)]
    ensures c.user.Returned? && c.user.value.Some? && c.profile.Returned? && c.profile.value.Some? &&
            c.body.Returned? && !Truthy(c.body.value.message) ==>
      failure == Some(Failure(400, MessageRequired)) && calls == [GetUser, GetProfile(c.user.value.value), ReadBody]
    ensures failure.Some? ==> failure.value.Failure? && failure.value.status in {400, 401, 404, 500}
    ensures failure.Some? && failure.value.status == 401 ==> c.user.Returned? && c.user.value.None?
    ensures failure.Some? && failure.value.status == 404 ==>
      c.user.Returned? && c.profile.Returned? && c.profile.value.None?
    ensures failure.Some? && failure.value.status == 400 ==>
      c.user.Returned? && c.profile.Returned? && c.body.Returned? && !Truthy(c.body.value.message)
    ensures failure.Some? && failure.value.status == 500 ==> failure.value.error == InternalError
  {
    calls := [GetUser];
    if c.user.Threw? {
      return Some(Failure(500, InternalError)), calls;
    }
    var user := c.user.value;
    if user.None? {
      return Some(Failure(401, Unauthorized)), calls;
    }

    calls := calls + [GetProfile(user.value)];
    if c.profile.Threw? {
      return Some(Failure(500, InternalError)), calls;
    }
    if c.profile.value.None? {
      return Some(Failure(404, ProfileNotFound)), calls;
    }

    calls := calls + [ReadBody];
    if c.body.Threw? {
      return Some(Failure(500, InternalError)), calls;
    }
    if !Truthy(c.body.value.message) {
      return Some(Failure(400, MessageRequired)), calls;
    }
    failure := None;
  }

  /** The `POST` handler: the gates, then retrieval and the completion; `calls`
      is every call made, in order. */
  method Post(c: Collaborators) returns (res: Response, calls: seq<Call>)
    // Authentication gate.
    ensures c.user.Returned? && c.user.value.None? ==> res == Failure(401, Unauthorized) && calls == [GetUser]
    // Profile gate.
    ensures c.user.Returned? && c.user.value.Some? && c.profile.Returned? && c.profile.value.None? ==>
      res == Failure(404, ProfileNotFound) && calls == [GetUser, GetProfile(c.user.value.value)]
    // Input gate: a falsy message is refused before any embedding call.
    ensures c.user.Returned? && c.user.value.Some? && c.profile.Returned? && c.profile.value.Some? &&
            c.body.Returned? && !Truthy(c.body.value.message) ==>
      res == Failure(400, MessageRequired) && calls == [GetUser, GetProfile(c.user.value.value), ReadBody]
    // The message is embedded exactly when the gates pass, and only then.
    ensures !PassesGates(c) ==> |calls| <= 3 && forall i :: 0 <= i < |calls| ==> !calls[i].Embed?
    ensures PassesGates(c) ==> |calls| >= 4 && calls[3] == Embed(c.body.value.message.value)
    // The match RPC is scoped to the caller's role and branch.
    ensures PassesGates(c) && c.embedding.Returned? && |c.embedding.value| > 0 ==>
      |calls| >= 5 &&
      calls[4] == MatchDocuments(c.embedding.value[0], MatchThreshold, MatchCount,
                                 c.profile.value.value.role, c.profile.value.value.branchId)
    // The fallback search is made exactly when the semantic step returns nothing.
    ensures !FallsBack(c) ==> forall i :: 0 <= i < |calls| ==> !calls[i].SearchArticles?
    ensures FallsBack(c) ==> |calls| >= 6 && calls[5] == SearchArticles(c.body.value.message.value, FallbackLimit)
    // An embedding failure is a server error, with no fallback.
    ensures PassesGates(c) && (c.embedding.Threw? || |c.embedding.value| == 0) ==>
      res == Failure(500, InternalError) && |calls| == 4
    // Answers come exactly from runs that reach the completion and get a reply.
    ensures res.Answer? <==> ReachesCompletion(c) && c.completion.Returned?
    ensures res.Failure? ==> res.status in {400, 401, 404, 500}
    // The gate statuses arise only from their gates: every exception is a 500.
    ensures res.Failure? && res.status == 401 ==> c.user.Returned? && c.user.value.None?
    ensures res.Failure? && res.status == 404 ==> c.user.Returned? && c.profile.Returned? && c.profile.value.None?
    ensures res.Failure? && res.status == 400 ==>
      c.user.Returned? && c.profile.Returned? && c.body.Returned? && !Truthy(c.body.value.message)
    ensures res.Failure? && res.status == 500 ==> res.error == InternalError
    ensures ReachesCompletion(c) ==>
      var g := ChooseGrounding(c.matches.value, FallbackArticles(c));
      calls[|calls| - 1] == Complete(BuildMessages(SystemPrompt(g.context), c.body.value.history.value,
                                                   c.body.value.message.value))
    ensures res.Answer? ==>
      var g := ChooseGrounding(c.matches.value, FallbackArticles(c));
      res.response == ReplyText(c.completion.value) && res.sources == Take(g.sources, SourceCap)
  {
    var failure;
    failure, calls := Gates(c);
    if failure.Some? {
      return failure.value, calls;
    }
    var answered;
    res, answered := Respond(c);
    calls := calls + answered;
  }

  // ---------------------------------------------------------------------------
  // Properties
  // ---------------------------------------------------------------------------

  /** Every matched row's content appears whole in the context. */
  lemma ContextHoldsEveryMatch(docs: seq<MatchedDoc>, i: nat)
    requires i < |docs|
    ensures Contains(AssembleFromMatches(docs).context, docs[i].chunk.content)
  {
    var pre, post := JoinAround(Contents(docs), ContextSeparator, i);
    ContainsMiddle(pre, docs[i].chunk.content, post);
  }

  /** Every fallback article's content appears whole in the context. */
  lemma ContextHoldsEveryArticle(arts: seq<Article>, i: nat)
    requires i < |arts|
    ensures Contains(AssembleFromArticles(arts).context, arts[i].content)
  {
    var pre, post := JoinAround(ArticleContents(arts), ContextSeparator, i);
    ContainsMiddle(pre, arts[i].content, post);
  }

  /** Sources are not deduplicated: two chunks of the same document give two
      equal sources. */
  lemma DuplicatesKept(doc: MatchedDoc)
    ensures |AssembleFromMatches([doc, doc]).sources| == 2
    ensures AssembleFromMatches([doc, doc]).sources[0] == AssembleFromMatches([doc, doc]).sources[1]
  {
  }

  /** A semantic source always has a non-empty title. */
  lemma MatchSourcesTitled(docs: seq<MatchedDoc>, i: nat)
    requires i < |docs|
    ensures AssembleFromMatches(docs).sources[i].title != ""
  {
  }

  /** When the semantic step returns rows, the fallback plays no part; otherwise
      every source is a knowledge article. */
  lemma OneRetrievalContributes(docs: Option<seq<MatchedDoc>>, arts1: Option<seq<Article>>, arts2: Option<seq<Article>>)
    ensures docs.Some? && |docs.value| > 0 ==> ChooseGrounding(docs, arts1) == ChooseGrounding(docs, arts2)
    ensures !(docs.Some? && |docs.value| > 0) ==>
      forall i :: 0 <= i < |ChooseGrounding(docs, arts1).sources| ==>
        ChooseGrounding(docs, arts1).sources[i].kind == KnowledgeKind
  {
  }

  /** With nothing retrieved, the context is empty and the prompt carries the
      sentinel in its place. */
  lemma EmptyRetrievalSentinel(docs: Option<seq<MatchedDoc>>, arts: Option<seq<Article>>)
    requires docs.None? || docs.value == []
    requires arts.None? || arts.value == []
    ensures ChooseGrounding(docs, arts) == Grounding("", [])
    ensures SystemPrompt(ChooseGrounding(docs, arts).context) == PromptHeader + NoContext
    ensures Contains(SystemPrompt(ChooseGrounding(docs, arts).context), NoContext)
  {
    ContainsMiddle(PromptHeader, NoContext, "");
    assert PromptHeader + NoContext + "" == PromptHeader + NoContext;
  }

  /** A non-empty context follows the header verbatim. */
  lemma PromptEndsWithContext(context: string)
    requires context != ""
    ensures SystemPrompt(context) == PromptHeader + context
  {
  }

  /** The sentinel is keyed on the context string, not on the sources: a single
      match with empty content still yields a source, yet the prompt says no
      context was found. */
  lemma SentinelDespiteSources(chunk: AIIndex, title: Option<string>)
    requires chunk.content == ""
    ensures |AssembleFromMatches([MatchedDoc(chunk, title)]).sources| == 1
    ensures SystemPrompt(AssembleFromMatches([MatchedDoc(chunk, title)]).context) == PromptHeader + NoContext
  {
    assert Contents([MatchedDoc(chunk, title)]) == [""];
  }

  /** A short history is sent whole. */
  lemma ShortHistoryWhole(history: seq<HistoryEntry>)
    requires |history| <= HistoryTurns
    ensures |HistoryWindow(history)| == |history|
    ensures forall i :: 0 <= i < |history| ==> HistoryWindow(history)[i] == Reduce(history[i])
  {
  }

  /** Once the history is full, a new turn pushes the oldest one out. */
  lemma {:induction false} HistoryWindowSlides(history: seq<HistoryEntry>, turn: HistoryEntry)
    requires |history| >= HistoryTurns
    ensures HistoryWindow(history + [turn]) == HistoryWindow(history)[1..] + [Reduce(turn)]
  {
    var w, w' := HistoryWindow(history), HistoryWindow(history + [turn]);
    assert |w'| == |w| == HistoryTurns;
    forall i | 0 <= i < HistoryTurns
      ensures w'[i] == (w[1..] + [Reduce(turn)])[i]
    {
      if i < HistoryTurns - 1 {
        assert w'[i] == Reduce((history + [turn])[|history| + 1 - HistoryTurns + i]);
        assert w[i + 1] == Reduce(history[|history| - HistoryTurns + i + 1]);
      }
    }
  }

  /** Two histories that agree on the role and content of their last five turns
      give the same completion request. */
  lemma {:induction false} WindowIgnoresOlderTurns(h1: seq<HistoryEntry>, h2: seq<HistoryEntry>, older: seq<HistoryEntry>)
    requires |h1| >= HistoryTurns && h2 == older + h1
    ensures HistoryWindow(h2) == HistoryWindow(h1)
  {
    var w1, w2 := HistoryWindow(h1), HistoryWindow(h2);
    forall i | 0 <= i < |w1| ensures w2[i] == w1[i] {
      assert h2[|h2| - HistoryTurns + i] == h1[|h1| - HistoryTurns + i];
    }
  }

  /** The reply is the model's text when it gave one, else the fixed apology. */
  lemma ReplyFallback()
    ensures ReplyText([]) == NoAnswer
    ensures ReplyText([None]) == NoAnswer
    ensures ReplyText([Some("")]) == NoAnswer
  {
  }

  /** The returned sources are the first three assembled ones. */
  lemma SourcesCapped(g: Grounding)
    ensures |Take(g.sources, SourceCap)| == Min(SourceCap, |g.sources|)
    ensures forall i :: 0 <= i < |Take(g.sources, SourceCap)| ==> Take(g.sources, SourceCap)[i] == g.sources[i]
  {
  }

  /** The server's message check is truthiness only: a message of spaces passes. */
  lemma WhitespaceMessagePasses()
    ensures Truthy(Some("   "))
    ensures !Truthy(Some("")) && !Truthy(None)
  {
  }
}
