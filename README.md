# mkk_portal core, modelled in Dafny

The mkk_portal is an internal web portal for a network of microfinance branches.
It has a knowledge base, mandatory documents, courses with tests, checklists,
tasks, news, a contact directory and a director's dashboard. It also has an AI
assistant that answers employees' questions from the knowledge base: it retrieves
matching fragments by embedding similarity, falls back to a text search of
published articles, and asks a chat-completion model for the answer.

The project models that core. There is one Dafny module per source file:

- `ChatRoute`: the `POST /api/ai/chat` handler. Its gates run in order:
  authentication, then the profile, then the message. Retrieval is semantic
  matching with a fallback search. The handler then assembles the context and the
  sources, builds the system prompt and the five-turn history window, and
  completes the reply. Every exception becomes a 500.
- `AssistantPage`: the chat page. It keeps the message log, the input guard and
  the request it sends. It turns the server's answer or failure into a message,
  and renders the source links.
- `Utils`: the shared helpers. These are relative time, the label and colour
  tables, truncation, initials and the overdue test.
- `Sidebar`: the navigation. This covers which link is active, the admin-only
  link, the role label and the initials.
- The page modules:
  - `TasksPage`
  - `ChecklistsPage`
  - `CoursesPage`
  - `ContactsPage`
  - `DirectorDashboard`
  - `NewsPage`
  - `DocumentsPage`
  - `KnowledgePage`

  Each holds the page's derived lists and its event handlers. A handler that
  updates React state is a method of a class whose fields are that state.
- `Types`: the enumerations of the database schema, plus the AI index row.
- `Common`: the JavaScript primitives the core relies on:
  - `filter`
  - `slice`
  - `split` and `join`
  - `trim`
  - `includes`
  - case mapping
  - first-occurrence order

  It also holds the `Option` and `Reply` wrappers.

External collaborators are parameters:

- **In the route handler,** every collaborator is a scripted `Reply` (`Threw` or
  `Returned(value)`):
  - Supabase authentication
  - the profile query
  - the request body
  - the OpenAI embedding and completion calls
  - the `match_documents` RPC
  - the article search

  The handler returns its response together with the trace of calls it made, so
  the order and presence of the calls can be stated.
- **In the pages,** the values that queries and inserts return are parameters,
  and so is the failure of a write.
- **The clock** is a parameter `now`, in milliseconds.

Behaviour of the code that a reader might not expect, kept as written:

- **Sources are not deduplicated.** The route returns one source per matched
  fragment, and a document matched twice is listed twice (`DuplicatesKept`).
- **A failed embedding call is a 500.** It does not fall back to the text search.
- **A missing `history` field is a 500.** `history.slice` throws on `undefined`,
  so a request without the field is also a server error.
- **The "no context" sentinel is not part of the context string.** The prompt
  template inserts it whenever the context string is empty. It therefore also
  appears when fragments matched but all of them have empty content
  (`SentinelDespiteSources`).
- **The sidebar's initials are not capped at two letters.** `generateInitials` in
  `src/lib/utils.ts` caps them; the sidebar does not (`SidebarInitialsUncapped`).

## Model

| member | source | states |
|---|---|---|
| ChatRoute.Contents | src/app/api/ai/chat/route.ts:60 | one entry per matched fragment: its content, in match order |
| ChatRoute.ArticleContents | src/app/api/ai/chat/route.ts:78 | one entry per fallback article: its content, in order |
| ChatRoute.AssembleFromMatches | src/app/api/ai/chat/route.ts:56-65 | the context is the contents joined by a blank line; there is one source per match, with its source id and type, and its title or "База знаний" when the title is falsy |
| ChatRoute.AssembleFromArticles | src/app/api/ai/chat/route.ts:66-85 | the context is the article contents joined by a blank line; each article gives the source (title, id, "knowledge") |
| ChatRoute.ChooseGrounding | src/app/api/ai/chat/route.ts:56-85 | non-empty matches win; otherwise non-empty fallback articles; otherwise an empty context with no sources |
| ChatRoute.SystemPrompt | src/app/api/ai/chat/route.ts:88-101 | the prompt is the fixed header followed by the context, or by "Контекст не найден" when the context is empty |
| ChatRoute.HistoryWindow | src/app/api/ai/chat/route.ts:108 | the last min(5, n) turns, in their order, reduced to role and content |
| ChatRoute.BuildMessages | src/app/api/ai/chat/route.ts:104-113 | the system message first, the user's message last, and the history window in between |
| ChatRoute.ReplyText | src/app/api/ai/chat/route.ts:115 | the first choice's text when it is truthy, otherwise the fixed apology; never empty |
| ChatRoute.Retrieve | src/app/api/ai/chat/route.ts:37-85 | the message is embedded first; a failed embedding stops the stage; the match RPC comes second, with the first embedding, threshold 0.7, count 5 and the caller's role and branch; the article search runs exactly when the match RPC returns nothing; once every step succeeds, the grounding is ChooseGrounding of the results |
| ChatRoute.Converse | src/app/api/ai/chat/route.ts:88-127 | without a history, no completion call is made and the result is a 500; with one, a single Complete call is made with the built messages; an answer comes exactly when the completion returns, and carries the reply text and at most three sources |
| ChatRoute.Respond | src/app/api/ai/chat/route.ts:37-127 | for requests that passed the gates: the embedding call comes first; an embedding failure is a 500 after that one call; the match RPC comes second, scoped to the profile's role and branch with threshold 0.7 and count 5; an answer comes exactly when retrieval succeeds, the history is present and the completion returns; every failure is a 500 |
| ChatRoute.Gates | src/app/api/ai/chat/route.ts:14-34 | 401 without a user, 404 without a profile, 400 for a falsy message, in that order and with exactly the calls made so far; every thrown exception is a 500; the gates pass exactly when all three checks do |
| ChatRoute.Post | src/app/api/ai/chat/route.ts:9-128 | the gate statuses and their call traces; the message is embedded exactly when the gates pass; the match RPC follows with threshold 0.7, count 5 and the profile's role and branch; the fallback search runs exactly when the semantic step returns nothing; an embedding failure is a 500 with no fallback; an answer comes exactly when the completion is reached and returns; the answer's text, and its sources as the first three of the grounding's sources |
| ChatRoute.ContextHoldsEveryMatch | src/app/api/ai/chat/route.ts:60 | every matched fragment's content occurs in the context |
| ChatRoute.ContextHoldsEveryArticle | src/app/api/ai/chat/route.ts:78 | every fallback article's content occurs in the context |
| ChatRoute.DuplicatesKept | src/app/api/ai/chat/route.ts:61-65 | a fragment matched twice gives two equal sources |
| ChatRoute.MatchSourcesTitled | src/app/api/ai/chat/route.ts:62 | consequence of AssembleFromMatches' title default: every source from a match has a non-empty title |
| ChatRoute.OneRetrievalContributes | src/app/api/ai/chat/route.ts:56-85 | with matches, the fallback result has no effect; without them, every source has type "knowledge" |
| ChatRoute.EmptyRetrievalSentinel | src/app/api/ai/chat/route.ts:99-101 | with no matches and no articles, the grounding is empty and the prompt ends with the sentinel |
| ChatRoute.PromptEndsWithContext | src/app/api/ai/chat/route.ts:99-101 | a non-empty context is placed verbatim after the header |
| ChatRoute.SentinelDespiteSources | src/app/api/ai/chat/route.ts:56-101 | a match with empty content still gives a source, but the prompt carries the sentinel |
| ChatRoute.ShortHistoryWhole | src/app/api/ai/chat/route.ts:108 | a history of at most five turns is sent whole |
| ChatRoute.HistoryWindowSlides | src/app/api/ai/chat/route.ts:108 | once five turns exist, a new turn pushes the oldest out of the window |
| ChatRoute.WindowIgnoresOlderTurns | src/app/api/ai/chat/route.ts:108 | turns before the last five never reach the model |
| ChatRoute.ReplyFallback | src/app/api/ai/chat/route.ts:115 | examples of ReplyText: no choice, a null text and an empty text all give the apology |
| ChatRoute.SourcesCapped | src/app/api/ai/chat/route.ts:119 | the response lists the first min(3, n) sources, in order |
| ChatRoute.WhitespaceMessagePasses | src/app/api/ai/chat/route.ts:32-34 | the server gate is truthiness: a message of spaces passes, while "" and a missing message do not |
| AssistantPage.HistoryOf | src/app/ai-assistant/page.tsx:59 | the history sent holds one turn per logged message, with its role and content |
| AssistantPage.ReplyMessage | src/app/ai-assistant/page.tsx:69-87 | an assistant message: a success carries the response and its sources; a failure is the apology, with no sources |
| AssistantPage.OutcomeOf | src/app/ai-assistant/page.tsx:63-76 | a non-ok response is a failure; an answer is a success with its response and sources |
| AssistantPage.SplitFirst | src/app/ai-assistant/page.tsx:149 | splitting at the first separator gives the text before it (free of the separator) and the text after it, which join back into the input |
| AssistantPage.SplitFirstAt | src/app/ai-assistant/page.tsx:149 | splitting a + sep + b, where a has no separator, gives back a and b |
| AssistantPage.SourceHref | src/app/ai-assistant/page.tsx:149 | definition of a source link, "/" + type + "/" + id (properties in SourceHrefRoundTrip) |
| AssistantPage.SourceHrefRoundTrip | src/app/ai-assistant/page.tsx:149 | a source link starts with "/" and gives back the source's type and id |
| AssistantPage.ChatPage.constructor | src/app/ai-assistant/page.tsx:21-29 | the log holds the welcome message only; the input is empty and nothing is loading |
| AssistantPage.ChatPage.SetInput | src/app/ai-assistant/page.tsx:189 | only the input changes |
| AssistantPage.ChatPage.Send | src/app/ai-assistant/page.tsx:39-60 | a blank input, or a send while loading, changes nothing and sends nothing; otherwise the user message is appended, the input clears, loading starts, and the request carries the input and the earlier log |
| AssistantPage.ChatPage.Settle | src/app/ai-assistant/page.tsx:61-90 | exactly one reply message is appended and loading stops |
| AssistantPage.ChatPage.HandleSend | src/app/ai-assistant/page.tsx:39-91 | a whole send: nothing happens, or both the user message and the reply are appended, the input is cleared and loading has stopped |
| AssistantPage.HistoryStartsWithWelcome | src/app/ai-assistant/page.tsx:21-27 | the welcome message is always the first turn sent |
| AssistantPage.SentMessagePassesGate | src/app/ai-assistant/page.tsx:40 | any message the page sends passes the server's message gate |
| AssistantPage.ServerSeesLastTurns | src/app/ai-assistant/page.tsx:59 | the server's window is the last five turns of the page's log |
| AssistantPage.FailureShowsApology | src/app/ai-assistant/page.tsx:81-87 | a failure is shown as the apology, with no source links |
| AssistantPage.ShowSources | src/app/ai-assistant/page.tsx:142 | definition: the message has a non-empty list of sources (properties in AnswerSourcesShown and FailureShowsApology) |
| AssistantPage.ServerBody | src/app/ai-assistant/page.tsx:57-60 | definition of the body the endpoint parses from the page's request: the message, and the history turns with their roles and contents (connected to the route in SentMessagePassesGate and ServerSeesLastTurns) |
| AssistantPage.AnswerSourcesShown | src/app/ai-assistant/page.tsx:142 | an answer shows its sources exactly when it has any |
| Utils.FormatRelativeTime | src/lib/utils.ts:30-42 | a missing date gives "-"; then the bucket follows the elapsed whole seconds (under 60, under 3600, under 86400, under 604800, or the calendar date), and each bucket holds the floored count, which stays in its range |
| Utils.RelativeTimeMonotone | src/lib/utils.ts:30-42 | as the clock advances, a date never moves to a more recent bucket |
| Utils.NatToString | src/lib/utils.ts:37-39 | the decimal text of n: non-empty, digits only, no leading zero, and its decimal value is n |
| Utils.Counted | src/lib/utils.ts:37-39 | a count followed by its suffix: the text ends with the suffix and what precedes it spells the count |
| Utils.RelativeText | src/lib/utils.ts:31-41 | the text of each bucket: "-" for no date, "только что" under a minute, the count followed by " мин. назад", " ч. назад" or " дн. назад", and no fixed text exactly for the calendar date |
| Utils.RelativeTimeText | src/lib/utils.ts:30-42 | end to end: under 60 s "только что", then the floored minutes, hours or days spelled before their suffix, and the calendar date from a week on |
| Utils.RoleLabel | src/lib/utils.ts:44-56 | a known role gets its label, which differs from the key; anything else comes back unchanged |
| Utils.TaskTypeLabel | src/lib/utils.ts:58-66 | the same for task types |
| Utils.TaskPriorityLabel | src/lib/utils.ts:68-75 | the same for priorities |
| Utils.TaskStatusLabel | src/lib/utils.ts:77-85 | the same for task statuses |
| Utils.ChecklistStatusLabel | src/lib/utils.ts:87-95 | the same for checklist statuses |
| Utils.NewsTypeLabel | src/lib/utils.ts:97-103 | the same for news types |
| Utils.RoleLabelInjective | src/lib/utils.ts:44-56 | every schema role has a label, and distinct roles have distinct labels |
| Utils.PriorityColor | src/lib/utils.ts:105-112 | a known priority gets its colour, anything else the slate default |
| Utils.StatusColor | src/lib/utils.ts:114-128 | a known status gets its colour, anything else the slate default |
| Utils.StatusColorsCoverSchema | src/lib/utils.ts:114-128 | every task, checklist and article status of the schema has an entry; among checklist statuses only "not_started" looks like the default |
| Utils.SliceTo | src/lib/utils.ts:132 | `slice(0, n)` gives a prefix |
| Utils.TruncateText | src/lib/utils.ts:130-133 | a text within the limit is unchanged; a longer one is cut to the limit and gets "..." appended (length limit + 3) |
| Utils.TruncateIdempotent | src/lib/utils.ts:130-133 | truncating twice equals truncating once |
| Utils.InitialsOfSplit | src/lib/utils.ts:136-139 | the first letters of the `split(" ")` words are exactly the characters that begin a word |
| Utils.WordStarts | src/lib/utils.ts:136-139 | definition of the characters that begin a word of `split(" ")`: each non-space character after a space or at the start (related to the split in InitialsOfSplit) |
| Utils.Initials | src/lib/utils.ts:136-139 | definition: the first character of each non-empty word, in order (`n[0]` of an empty word adds nothing to the join) |
| Utils.GenerateInitials | src/lib/utils.ts:135-142 | at most two characters: the upper-cased first two word starts |
| Utils.IsOverdue | src/lib/utils.ts:144-148 | overdue exactly when there is a due date, the status is not done, completed or rejected, and the date has passed |
| Utils.OverdueStays | src/lib/utils.ts:144-148 | once overdue, a task stays overdue as time passes |
| Sidebar.IsActive | src/components/sidebar.tsx:68 | definition: the path equals the link or starts with the link followed by "/" (properties in ActiveMeansSegment and AtMostOneActive) |
| Sidebar.ActiveMeansSegment | src/components/sidebar.tsx:68 | a link is active when the path is the link itself or continues with "/" right after it (a textual prefix is not enough) |
| Sidebar.ActiveExamples | src/components/sidebar.tsx:68 | "/tasks/1" and "/tasks" activate "/tasks"; "/tasksX" does not |
| Sidebar.ActiveNested | src/components/sidebar.tsx:68 | of two links active on one path, the shorter is a segment prefix of the longer |
| Sidebar.OneSegmentNotNested | src/components/sidebar.tsx:30-44 | one-segment links are never nested in one another |
| Sidebar.NavigationOneSegment | src/components/sidebar.tsx:30-40 | every navigation link has one segment |
| Sidebar.AtMostOneActive | src/components/sidebar.tsx:30-40 | at most one navigation link is active on any path |
| Sidebar.VisibleItems | src/components/sidebar.tsx:62-112 | the nine navigation links come first, in order, followed by the admin link exactly for admins |
| Sidebar.AdminLinkIffAdmin | src/components/sidebar.tsx:49 | the admin link is shown exactly to the it_admin and director roles |
| Sidebar.SidebarRoleLabel | src/components/sidebar.tsx:142-154 | a role in the sidebar's table gets its label, anything else comes back unchanged |
| Sidebar.SidebarRoleLabelAgrees | src/components/sidebar.tsx:142-154 | the sidebar's table agrees with the shared label helper on every string |
| Sidebar.SidebarLabelsAllRoles | src/components/sidebar.tsx:142-154 | every schema role has a non-empty sidebar label |
| Sidebar.SidebarInitials | src/components/sidebar.tsx:121 | "??" without a user, a name or any word start; otherwise every word start, upper-cased and uncapped |
| Sidebar.InitialsCapped | src/components/sidebar.tsx:121 | the shared helper's initials are the first two of the sidebar's |
| Sidebar.SidebarInitialsUncapped | src/components/sidebar.tsx:121 | "а б в" gives "АБВ" in the sidebar but "АБ" from the shared helper |
| TasksPage.StatusChangeUpdates | src/app/tasks/page.tsx:131-134 | the new status, with a closing time set exactly when the status closes the task |
| TasksPage.OfferedTransition | src/app/tasks/page.tsx:213-232 | closed tasks offer no button |
| TasksPage.TransitionsForward | src/app/tasks/page.tsx:213-232 | each button moves a task one stage forward, only "in progress" to "done" closes it, and no button rejects |
| TasksPage.TwoClicksClose | src/app/tasks/page.tsx:213-232 | a new task reaches "done" in two clicks, and then no button is offered |
| TasksPage.Matches | src/app/tasks/page.tsx:151-154 | definition of the search test: the title, or the description when there is one, contains the query, ignoring case (properties in FilteredTasks and EmptyQueryKeepsAll) |
| TasksPage.IsMine | src/app/tasks/page.tsx:156-158 | definition: the user is the task's author or its assignee (properties in MyTasks) |
| TasksPage.FilteredTasks | src/app/tasks/page.tsx:151-154 | exactly the tasks whose title or description contains the query, ignoring case, drawn from the list |
| TasksPage.EmptyQueryKeepsAll | src/app/tasks/page.tsx:151-154 | the empty query keeps every task |
| TasksPage.MyTasks | src/app/tasks/page.tsx:156-158 | exactly the tasks of the filtered list that the user authored or is assigned, none more often than in that list; none without a user |
| TasksPage.OpenTasks | src/app/tasks/page.tsx:159 | only tasks that are neither done nor rejected |
| TasksPage.CompletedTasks | src/app/tasks/page.tsx:160 | only done or rejected tasks |
| TasksPage.OpenCompletedPartition | src/app/tasks/page.tsx:159-160 | the open and closed lists split the filtered list |
| TasksPage.CompletedNeverOverdue | src/app/tasks/page.tsx:160-163 | a closed task is never shown as overdue |
| TasksPage.TasksPageState.constructor | src/app/tasks/page.tsx:34-42 | no tasks, the default form and the dialog closed |
| TasksPage.TasksPageState.CreateTask | src/app/tasks/page.tsx:96-127 | without a user nothing is inserted; the row inserted is the form with the author and the status "new"; on success the list is reloaded, the form is reset and the dialog is closed; on failure nothing changes |
| ChecklistsPage.LastFor | src/app/checklists/page.tsx:72-75 | the last stored row for an item, or none exactly when the item has no row |
| ChecklistsPage.Attach | src/app/checklists/page.tsx:72-75 | each template item, in order, with its last stored row |
| ChecklistsPage.BuildRun | src/app/checklists/page.tsx:68-80 | the total is the number of items (0 when there are none), the completed count is the number of ticked rows, the overdue flag is the shared overdue test, and an item has a row exactly when one is stored |
| ChecklistsPage.Ticked | src/app/checklists/page.tsx:113 | the item keeps its identity and takes the new tick |
| ChecklistsPage.TickItems | src/app/checklists/page.tsx:111-116 | the items with that id take the new tick; the others are untouched |
| ChecklistsPage.CheckItem | src/app/checklists/page.tsx:109-125 | only the targeted run changes: its items are ticked and its completed count is recounted |
| ChecklistsPage.CheckItemSetsItem | src/app/checklists/page.tsx:109-125 | after the update the item shows the new tick and the count matches the items |
| ChecklistsPage.CheckItemIdempotent | src/app/checklists/page.tsx:109-125 | the same update applied twice equals applying it once |
| ChecklistsPage.CountPointwise | src/app/checklists/page.tsx:117 | more ticks item by item never lower the count |
| ChecklistsPage.CheckItemMonotone | src/app/checklists/page.tsx:109-125 | ticking never lowers the count and unticking never raises it |
| ChecklistsPage.AllTickedCount | src/app/checklists/page.tsx:117 | with every item ticked, the count is the number of items |
| ChecklistsPage.Progress | src/app/checklists/page.tsx:158-160 | `Math.round(c / t * 100)` on exact rationals: 0 for an empty run, otherwise the integer nearest 100c/t, with halves rounded up |
| ChecklistsPage.ProgressBounds | src/app/checklists/page.tsx:158-160 | the progress lies between 0 and 100; none ticked gives 0 and all ticked give 100 |
| ChecklistsPage.CompleteButtonBeforeAllTicked | src/app/checklists/page.tsx:232 | a run of 200 or more items with one item unticked already shows the complete button |
| ChecklistsPage.CountAllButOne | src/app/checklists/page.tsx:117 | all items ticked but one gives a count one short of the total |
| ChecklistsPage.ProgressOneShort | src/app/checklists/page.tsx:158-160 | t - 1 of t rounds to 100 once t is 200 or more |
| ChecklistsPage.ProgressOneShortBelow200 | src/app/checklists/page.tsx:158-160 | below 200 items, t - 1 of t shows at most 99 |
| ChecklistsPage.CompleteButtonAt200 | src/app/checklists/page.tsx:158-160 | the smallest such run: 199 of 200 is exactly 99.5 and rounds to 100, while 198 of 199 shows 99 |
| ChecklistsPage.CompleteButtonAsWritten | src/app/checklists/page.tsx:197-240 | definition of the card's button as written: an unfinished run whose rounded progress is 100 (properties in CompleteButtonBeforeAllTicked and CompleteButtonNarrower) |
| ChecklistsPage.CompleteButton | src/app/checklists/page.tsx:197-240 | definition of the intended button: an unfinished, non-empty run with every item counted as ticked (properties in CompleteButtonMeansAllTicked) |
| ChecklistsPage.CompleteButtonMeansAllTicked | src/app/checklists/page.tsx:232 | the corrected button shows only when every item is ticked, and the bar then reads 100 |
| ChecklistsPage.CompleteButtonNarrower | src/app/checklists/page.tsx:232 | the corrected button never shows where the written one does not |
| ChecklistsPage.ActiveRuns | src/app/checklists/page.tsx:154 | only runs that are not completed |
| ChecklistsPage.CompletedRuns | src/app/checklists/page.tsx:155 | only completed runs |
| ChecklistsPage.TabsPartition | src/app/checklists/page.tsx:154-155 | the two tabs split the runs |
| ChecklistsPage.Preview | src/app/checklists/page.tsx:200 | the first items of the run, at most three |
| ChecklistsPage.MoreCount | src/app/checklists/page.tsx:225-228 | the "+n" badge, when shown, has a positive count |
| ChecklistsPage.PreviewAccountsForAll | src/app/checklists/page.tsx:200-228 | the preview plus the "+n" count accounts for every item |
| ChecklistsPage.ChecklistsPageState.constructor | src/app/checklists/page.tsx:18 | no runs |
| ChecklistsPage.ChecklistsPageState.HandleItemCheck | src/app/checklists/page.tsx:91-132 | without a user nothing is written; the upsert carries the run, the item, the tick, the user and the time; on success the runs are those CheckItem gives, on failure they are unchanged |
| ChecklistsPage.ChecklistsPageState.HandleComplete | src/app/checklists/page.tsx:134-152 | the run is written as completed at the current time; on success the list is the reload, on failure it is unchanged |
| CoursesPage.ProgressPercent | src/app/courses/page.tsx:68-69 | 100 exactly for completed, 50 exactly for in progress, 0 exactly for not started or no progress row |
| CoursesPage.InProgressCourses | src/app/courses/page.tsx:156 | only courses in progress |
| CoursesPage.CompletedCourses | src/app/courses/page.tsx:157 | only completed courses |
| CoursesPage.NotStartedCourses | src/app/courses/page.tsx:158 | only courses not started (including those with no progress row) |
| CoursesPage.TabsPartition | src/app/courses/page.tsx:156-158 | the three tabs split the courses |
| CoursesPage.TabMatchesPercent | src/app/courses/page.tsx:68-69 | the tab agrees with the progress percentage |
| CoursesPage.AttemptsFor | src/app/courses/page.tsx:128 | exactly the attempts at that test, in order, each as often as it occurs in the list |
| CoursesPage.FindTest | src/app/courses/page.tsx:129 | a test with that id from the list, or none exactly when there is no such test |
| CoursesPage.StartTest | src/app/courses/page.tsx:122-154 | no user does nothing; the start is refused exactly when the limit is set and reached; otherwise an "in_progress" attempt is inserted, and success navigates to it |
| CoursesPage.StartCourse | src/app/courses/page.tsx:99-120 | no user does nothing; otherwise an "in_progress" row is upserted, and success navigates to the course |
| CoursesPage.LastAttempt | src/app/courses/page.tsx:292 | the last attempt, or none exactly when there is no attempt |
| CoursesPage.Badge | src/app/courses/page.tsx:306-312 | "Сдан" exactly when some attempt passed, "Не начат" exactly with no attempt, "Не сдан" otherwise |
| CoursesPage.ShowStartButton | src/app/courses/page.tsx:291-317 | definition of the card's start button: the test is not passed, and it has no limit or fewer attempts than the limit (properties in ButtonAgreesWithGuard and PassedNoButton) |
| CoursesPage.StartButtonLabel | src/app/courses/page.tsx:317-319 | "Пересдать" exactly when the test has been attempted |
| CoursesPage.ButtonAgreesWithGuard | src/app/courses/page.tsx:131-134 | for a test not yet passed, the card's button shows exactly when the handler's limit check lets the start through |
| CoursesPage.FindFirst | src/app/courses/page.tsx:129 | with distinct ids, looking up a listed test's id finds that test |
| CoursesPage.PassedNoButton | src/app/courses/page.tsx:293 | a passed test offers no start button |
| ContactsPage.FilteredBranches | src/app/contacts/page.tsx:52-56 | exactly the branches whose name, city or address contains the query, ignoring case |
| ContactsPage.FilteredEmployees | src/app/contacts/page.tsx:57-62 | exactly the employees whose name, role label or branch name contains the query, ignoring case |
| ContactsPage.EmptyQueryShowsAll | src/app/contacts/page.tsx:52-62 | the empty query shows every branch and every employee |
| ContactsPage.Keys | src/app/contacts/page.tsx:65-78 | one key per item, in order |
| ContactsPage.Group | src/app/contacts/page.tsx:65-78 | only items with that key |
| ContactsPage.GroupMembers | src/app/contacts/page.tsx:65-78 | a group holds exactly the items with its key |
| ContactsPage.GroupBy | src/app/contacts/page.tsx:65-78 | the reducer's loop: the keys in first-occurrence order, each mapped to its group |
| ContactsPage.BranchesByCity | src/app/contacts/page.tsx:65-70 | cities in order of first appearance, each with its branches |
| ContactsPage.EmployeesByRole | src/app/contacts/page.tsx:73-78 | role labels in order of first appearance, each with its employees |
| ContactsPage.GroupsNonEmpty | src/app/contacts/page.tsx:65-78 | no listed group is empty |
| ContactsPage.GroupsCover | src/app/contacts/page.tsx:65-78 | the groups together hold exactly the items (as a multiset) |
| ContactsPage.GroupSizesSum | src/app/contacts/page.tsx:65-78 | the group sizes add up to the number of items |
| ContactsPage.OwnGroupOnly | src/app/contacts/page.tsx:65-78 | an item sits in the group of its own key and in no other |
| ContactsPage.GroupKeepsOrder | src/app/contacts/page.tsx:65-78 | a later item joins its group at the end, after the earlier ones |
| DirectorDashboard.FindSlice | src/app/dashboard/director/page.tsx:95 | the first slice with that name, or none exactly when there is no such slice |
| DirectorDashboard.TaskTypeData | src/app/dashboard/director/page.tsx:94-102 | the reducer's result: one slice per task type in order of first appearance, each holding the sum of that type's counts |
| DirectorDashboard.ReducedSlices | src/app/dashboard/director/page.tsx:94-102 | after any rows, the slice names are the types in first-appearance order and each count is the type's total |
| DirectorDashboard.SlicesCoverAll | src/app/dashboard/director/page.tsx:94-102 | the slices add up to the sum of all counts |
| DirectorDashboard.ChecklistData | src/app/dashboard/director/page.tsx:104-108 | the first ten branches, in order, with their overdue and completed counts (0 when null) |
| DirectorDashboard.ChecklistDataIgnoresRest | src/app/dashboard/director/page.tsx:108 | branches after the tenth never reach the chart |
| DirectorDashboard.StatsOf | src/app/dashboard/director/page.tsx:55-57 | the first row of the statistics view, or none when it is empty |
| DirectorDashboard.CertificationData | src/app/dashboard/director/page.tsx:110-113 | the part with current certifications plus the part needing an update make up the active employees; the second part is negative exactly when the first exceeds the total |
| DirectorDashboard.CellColor | src/app/dashboard/director/page.tsx:236-237 | every cell gets one of the five colours |
| DirectorDashboard.ColorCycle | src/app/dashboard/director/page.tsx:34 | the colours repeat every five cells, and neighbouring cells differ |
| NewsPage.WithReadFlags | src/app/news/page.tsx:45-51 | each row, in order, is read exactly when its id is among the user's receipts |
| NewsPage.MarkedRead | src/app/news/page.tsx:74-76 | the items with that id become read; the others are untouched |
| NewsPage.LoadedFlagsAgree | src/app/news/page.tsx:45-51 | after loading, every flag agrees with the read set |
| NewsPage.MarkKeepsAgreement | src/app/news/page.tsx:73-76 | marking keeps the flags in agreement with the grown read set |
| NewsPage.MarkMatchesReload | src/app/news/page.tsx:45-76 | marking on the page equals reloading with the new receipt |
| NewsPage.MarkIdempotent | src/app/news/page.tsx:74-76 | marking twice equals marking once |
| NewsPage.UnreadNews | src/app/news/page.tsx:84 | exactly the unread items |
| NewsPage.ReadNews | src/app/news/page.tsx:85 | exactly the read items |
| NewsPage.UnreadReadPartition | src/app/news/page.tsx:84-85 | the unread and read lists split the news |
| NewsPage.MarkShrinksUnread | src/app/news/page.tsx:73-85 | after marking, no unread item has that id, and the unread list is no longer |
| NewsPage.Cards | src/app/news/page.tsx:155-174 | one card per item, all with the same button setting |
| NewsPage.RenderedCards | src/app/news/page.tsx:147-177 | definition of the cards shown: the unread section with buttons when it is non-empty, then the whole list without buttons once loaded and non-empty (properties in MarkButtonOnlyUnread) |
| NewsPage.MarkButtonOnlyUnread | src/app/news/page.tsx:103-111 | the mark-as-read button appears only on unread items, and on every one of them |
| NewsPage.NewsPageState.constructor | src/app/news/page.tsx:15-17 | no news, an empty read set, loading |
| NewsPage.NewsPageState.Load | src/app/news/page.tsx:24-57 | loading keeps the flag agreement; without a user only loading stops; otherwise the read set is the user's receipts and the news is flagged from it |
| NewsPage.NewsPageState.MarkAsRead | src/app/news/page.tsx:59-82 | without a user nothing is written; the receipt carries the item and the user; on success the id joins the set and that item alone becomes read; on failure nothing changes |
| DocumentsPage.MandatoryDocs | src/app/documents/page.tsx:97 | exactly the mandatory documents not yet acknowledged |
| DocumentsPage.ShowAcknowledgeButton | src/app/documents/page.tsx:145 | definition: the document is mandatory and not acknowledged (properties in ButtonIffMandatoryTab and Badge) |
| DocumentsPage.ButtonIffMandatoryTab | src/app/documents/page.tsx:145-160 | a document offers the button exactly when it is in the mandatory tab |
| DocumentsPage.Badge | src/app/documents/page.tsx:118-121 | no badge for optional documents; "Ознакомлен" exactly when acknowledged; "Обязателен" exactly when the button shows |
| DocumentsPage.ButtonLabel | src/app/documents/page.tsx:149-151 | "..." exactly while that document is being acknowledged |
| DocumentsPage.AcknowledgeShrinksMandatory | src/app/documents/page.tsx:82-97 | an acknowledged document leaves the mandatory tab, which never grows |
| DocumentsPage.AcknowledgePendingShrinks | src/app/documents/page.tsx:82-97 | acknowledging a pending document makes the tab strictly shorter |
| DocumentsPage.DocumentsPageState.constructor | src/app/documents/page.tsx:16-20 | no documents, an empty set, loading, nothing in progress |
| DocumentsPage.DocumentsPageState.Load | src/app/documents/page.tsx:27-64 | the documents are replaced; the set is the user's acknowledgements, and is kept without a user |
| DocumentsPage.DocumentsPageState.BeginAcknowledge | src/app/documents/page.tsx:68 | the document is marked as in progress |
| DocumentsPage.DocumentsPageState.SettleAcknowledge | src/app/documents/page.tsx:70-89 | the receipt carries the document and the user; the set grows by the id exactly on success; the in-progress mark is cleared whatever happened |
| DocumentsPage.DocumentsPageState.HandleAcknowledge | src/app/documents/page.tsx:66-90 | on success the document is acknowledged and has left the mandatory tab; the set never shrinks, and is unchanged without a user or when the insert fails; the in-progress mark ends cleared |
| KnowledgePage.ArticlesIn | src/app/knowledge/page.tsx:85 | exactly the articles of that category |
| KnowledgePage.FilteredArticles | src/app/knowledge/page.tsx:84-86 | every article with no selection; otherwise exactly those of the selected category, drawn from the list and none more often than there |
| KnowledgePage.ArticlesByCategory | src/app/knowledge/page.tsx:88-91 | a group for each category with articles and for no other, holding that category's articles |
| KnowledgePage.GroupCategories | src/app/knowledge/page.tsx:88-91 | the categories of the groups, in order |
| KnowledgePage.CategoriesWithArticles | src/app/knowledge/page.tsx:88-91 | exactly the categories that have articles |
| KnowledgePage.GroupsFollowCategoryOrder | src/app/knowledge/page.tsx:88-91 | the groups follow the order of the categories |
| KnowledgePage.UncategorisedNotListed | src/app/knowledge/page.tsx:88-91 | an article whose category is not listed (or null) appears in no group |
| KnowledgePage.NoSelectionListsAll | src/app/knowledge/page.tsx:84-91 | with no selection, an article of a listed category appears in a group |
| KnowledgePage.SearchActionFor | src/app/knowledge/page.tsx:56-60 | a blank query reloads; any other is sent as typed |
| KnowledgePage.KnowledgePageState.constructor | src/app/knowledge/page.tsx:18-22 | nothing loaded, loading, an empty query and no selection |
| KnowledgePage.KnowledgePageState.Load | src/app/knowledge/page.tsx:29-54 | the categories and articles are replaced (empty when a query gives nothing) |
| KnowledgePage.KnowledgePageState.HandleSearch | src/app/knowledge/page.tsx:56-82 | a blank query reloads; otherwise the categories stay; any array from the search RPC, even an empty one (it is truthy), replaces the articles with the rows fetched for its ids; only a null result keeps them |
| KnowledgePage.KnowledgePageState.Reset | src/app/knowledge/page.tsx:120-124 | the query is cleared and the page reloads |
| Common.Filter | src/app/tasks/page.tsx:151-160 | `filter` is at most as long as the list and keeps only elements that satisfy the predicate; what it keeps is stated in FilterMembers and FilterCounts |
| Common.FilterMembers | src/app/tasks/page.tsx:151-160 | the kept elements come from the list, every satisfying element is kept, and no element is kept more often than it occurs |
| Common.FilterCounts | src/app/courses/page.tsx:128 | `filter` keeps each satisfying element exactly as often as it occurs, and no other element |
| Common.FilterPartition | src/app/tasks/page.tsx:159-160 | complementary filters split the list |
| Common.FilterMonotone | src/app/documents/page.tsx:97 | a weaker predicate keeps at least as many elements |
| Common.Take | src/app/api/ai/chat/route.ts:119 | `slice(0, n)`: the first min(n, length) elements |
| Common.TakeLast | src/app/api/ai/chat/route.ts:108 | `slice(-n)`: the last min(n, length) elements |
| Common.ContainsMiddle | src/app/api/ai/chat/route.ts:60 | `includes` finds any piece inside a concatenation |
| Common.Split | src/lib/utils.ts:137 | `split` on a one-character separator never gives an empty list (its pieces are described by SplitJoin and SplitPiecesFree) |
| Common.Join | src/app/api/ai/chat/route.ts:60 | definition of `join`: the pieces with the separator between neighbours (properties in SplitJoin and ContainsMiddle) |
| Common.SplitJoin | src/lib/utils.ts:137 | joining the pieces of `split` with the separator gives back the string |
| Common.SplitPiecesFree | src/lib/utils.ts:137 | no piece of `split` contains the separator |
| Common.Trim | src/app/ai-assistant/page.tsx:40 | definition of `trim()`: white space removed from both ends (properties in TrimEmptyIffBlank) |
| Common.TrimEmptyIffBlank | src/app/ai-assistant/page.tsx:40 | `trim()` gives "" exactly for strings made only of white space |
| Common.UpperTake | src/lib/utils.ts:140-141 | upper-casing then slicing equals slicing then upper-casing |
| Common.EmptyQueryMatches | src/app/tasks/page.tsx:151-154 | the empty query is contained in every string |
| Common.FirstOccurrences | src/app/contacts/page.tsx:65-70 | holds the same values as the input, each once |
| Common.FirstOccurrencesExtend | src/app/contacts/page.tsx:65-70 | a new value joins the end; a value already seen changes nothing |

## Left out

- Network, database and model I/O. Supabase queries, RPCs and the OpenAI calls are inputs to the model. The embedding vector is a sequence of reals the model never inspects, and a failed query is `None` or `Threw`.
- Rendering, toasts, spinners, dialogs and icons. Only the lists, labels and buttons that the page logic decides are modelled. Navigation is the target path as a string.
- Concurrency. `Promise.all`, the interleaving of asynchronous handlers and React's batching of state updates are not modelled. An asynchronous handler is split at its `await` where that matters (`Send` and `Settle`, `BeginAcknowledge` and `SettleAcknowledge`).
- Calendar formatting. The locale formatting of dates past a week (`formatDate`) is a `OnDate` result, not a string.
- ChecklistsPage.Progress: `Math.round(c / t * 100)` is modelled on exact rationals, not IEEE doubles. The two differ on ordinary inputs: in doubles 23 / 40 * 100 is 57.49999999999999, so the page shows 57 where the model gives 58. In such a pair the exact value ends in .5 and the page shows one less than the model; 199 / 200 * 100 is exactly 99.5 in doubles too, so the complete-button finding below is unaffected.
- JavaScript objects used as dictionaries. The groupings assume insertion order of keys. Integer-like keys, which JavaScript orders numerically, and prototype keys such as "constructor" in the label and colour tables are not modelled.
- Case mapping. Lower and upper case cover ASCII and the Cyrillic block U+0400–U+045F only.
- Utils.TruncateText, Utils.GenerateInitials, Sidebar.SidebarInitials: a string is a sequence of Unicode scalar values, while JavaScript's `length`, `slice` and `name[0]` count UTF-16 code units. For text with characters outside the Basic Multilingual Plane, such as emoji, the source cuts at a different place and can leave half of a surrogate pair; the model never splits a character.
- DirectorDashboard.TaskTypeData: a missing count is added as 0. In the source, a first row whose count is null gives 0 and a later null adds nothing, as modelled. An `undefined` count on a later row would turn the sum into NaN.
- Admin pages, the chat page, the main dashboard, authentication screens and the AI index ingestion are outside this core.

## Findings

| source | as written | input that shows it | evidently intended | confidence | as-written member | corrected member |
|---|---|---|---|---|---|---|
| src/app/checklists/page.tsx:158-160 | the "complete" button shows when the rounded progress equals 100 | a run of 200 items with 199 ticked: 199/200·100 = 99.5 exactly, which `Math.round` rounds up to 100, so the button shows with one item unticked (any run of 200 or more items with one left does the same; below 200 items it shows at most 99) | the button shows only once every item is ticked | not executed | ChecklistsPage.CompleteButtonBeforeAllTicked | ChecklistsPage.CompleteButtonMeansAllTicked |
