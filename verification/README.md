# Verified model of the monitor's search, ingestion, leases and paging

The project models the parts of the Celery monitor whose behaviour spans many calls, and proves what they promise.

- **Search.** `SearchText`, `SearchValue`, `SearchScalars`, `SearchParser` and `SearchRoundTrip` hold the literal
  parser, the patterns it builds, the four string printers and their round trips. `SearchShape`, `SearchPattern`,
  `SearchMatch` and `SearchReading` show that a regex match and a parse of one text agree. `SearchTokens`, `SearchFind`,
  `SearchClause`, `SearchTermText` and `SearchTerms` follow a match of the kwargs clause to an entry of the parsed value
  and to its index term; `SearchHiddenKey` holds a text for which the index misses a match. `SearchComplete`,
  `SearchPrinted`, `SearchEscapes` and `SearchQuery` go the other way: whatever reads parses, whatever is printed reads
  and matches, and a query finds the entries of printed dictionaries. `SearchProjection`, `SearchTables` and
  `SearchDatabase` keep the projections accurate beside concurrent writers and builders, up to the equality of indexed
  and plain search; `SearchBuilds` ends a build, and `SearchResults` goes from query texts to result rows.
  The regular expressions are predicates over texts; what the patterns accept as white space is wider than what the
  parser skips, and both are modelled.
- **Ingestion.** `TaskMerge` is the task record with its writers, `TaskHistory` what no interleaving of them does,
  `TaskDecision` which write decides the state, `TaskConvergence` what out-of-order events converge to, and `TaskRuns`
  that stored records are such histories. `WorkflowSummary`, `Backfill`, `Cleanup` and `WorkflowRuns` keep workflow rows
  equal to a recount of their members over every run of transactions. `Ingester` is the buffer with its two coroutines,
  `IngesterFate` what becomes of each event.
- **Leases.** `LeaderElection` is a timed transition system of any number of instances, `ElectionProgress` its progress,
  `SearchLease` the table by which instances agree about search indexing.
- **Paging and caches.** `Paging` and `WorkerList` are cursor walks under byte and scan budgets, `PayloadChunks` cuts
  and reassembles stored text, `LiveList` is a top-N list patched by notifications, `ExecutionObservation` the freshness
  bound between poller and reader.

Each transaction is one atomic step. Clocks, identifiers, lower-casing by the database, the predicate for nonprintable
characters (false on printable ASCII), response sizes and worker replies are parameters.

Four results qualify what one might expect, each with its input and its exact condition. The kwargs index misses a match
inside a dictionary key that is itself a list or dictionary (`ContainerKeyLosesMatch`), so the no-loss theorem asks for
scalar keys. The configuration only demands a heartbeat period below the lock's lifetime, while one leader at a time
needs the period plus twice the request delay to stay within it, and exactly that (`TwoLeaders`, `OneLeaderIff`). A page
of workers that fits the response budget can stop fitting when the cursor of a scan cut at 200 is added, and the call
then fails although a shorter page would fit (`PageRefusedForCursor`, `RaisesIff`). An event can empty a field that was
filled, by carrying the empty text (`ResultEmptied`, `StaysFilledIff`).

Where the two ports differ, the model follows the Python one: its `$` also matches before a final newline, so a hex
escape whose last digit is a newline is accepted there and rejected by the TypeScript port.

## Model

| member | source | states |
|---|---|---|
| SearchRoundTrip.PrintedTextsReadBack | server/tasks/task_search.py:121-207 | For every string, any text it is printed into, any position and anything that follows: the JSON, ASCII-JSON and `python_repr` texts read back through the quoted-string parser as exactly that string, ending behind their own closing quote; the `celery_safe_repr` text does when the string has no backslash |
| SearchRoundTrip.PrintedStringReads | server/tasks/task_search.py:128-207 | The same for each printer and quote by itself, wherever the printed text stands |
| SearchRoundTrip.PrintedCharDecodes | server/tasks/task_search.py:175-206 | One printed character is decoded by exactly one turn of the parser's loop and never mistaken for the closing quote |
| SearchRoundTrip.SurrogatePairDecodes | server/tasks/task_search.py:189-198 | A character beyond the basic plane, written as two `\u` escapes (section 7 of RFC 8259), decodes to itself |
| SearchRoundTrip.HexRoundTrip | server/tasks/task_search.py:121-125 | Fixed-width hexadecimal digits give back the number they were printed from |
| SearchRoundTrip.ReprIsOnePass | server/tasks/task_search.py:134-141 | The five replacements in a row and the pass over nonprintable characters equal one pass that escapes each character once |
| SearchRoundTrip.PythonReprIsPrint | server/tasks/task_search.py:132-142 | `python_repr` with its choice of quote is that one-pass printer |
| SearchRoundTrip.NamedEscapes | server/tasks/task_search.py:45-58 | What no printer writes is read as well: each named escape, from its letter |
| SearchRoundTrip.OctalDecodes | server/tasks/task_search.py:200-202 | Up to three octal digits are one character, of their value |
| SearchRoundTrip.WideSpacesAre | server/tasks/task_search.py:287-292 | The white space of the patterns beyond the parser's, character by character |
| SearchParser.LiteralAt | server/tasks/task_search.py:247-267 | On every text and start, a literal ends behind its start and within the text, and its nesting stays within the limit of 64 counted from the depth of the call |
| SearchParser.CollectionAt | server/tasks/task_search.py:210-244 | A container is read only within the nesting limit, and ends within the text |
| SearchParser.TurnAt | server/tasks/task_search.py:219-238 | Each turn of the container loop consumes at least one character |
| SearchParser.ParseQuoted | server/tasks/task_search.py:167-207 | The decoding loop gives what the recursive reading of units gives, with the pattern of the decoded string |
| SearchParser.ParseMembers | server/tasks/task_search.py:215-244 | The container loop, with its growing lists of patterns and members, gives the recursive reading and the joined pattern, and raises exactly where that reading is too deep |
| SearchParser.ParseTurn | server/tasks/task_search.py:219-238 | One turn: a member, then a comma or the closing bracket |
| SearchParser.ParseEntryValue | server/tasks/task_search.py:223-231 | The colon and value behind a dictionary key |
| SearchParser.ParseContainer | server/tasks/task_search.py:210-218 | A container beyond the limit raises before anything is read |
| SearchParser.ParseLiteral | server/tasks/task_search.py:247-267 | The dispatch on the first character, with pattern, end and value as specified, for every input |
| SearchShape.ReadUnique | server/tasks/task_search.py:239-244 | Two values that read from one place of one text are the same value |
| SearchShape.MembersReadUnique | server/tasks/task_search.py:215-238 | The same for the member lists of one container |
| SearchShape.ParsedReads | server/tasks/task_search.py:210-267 | Whatever the parser returns is a reading of the text in the white space that the patterns accept, with the same end |
| SearchPattern.PlainAlternative | server/tasks/task_search.py:149-152 | Any of the four printings that contains no backslash is the string itself between two quotes that it does not contain |
| SearchPattern.NumberParses | server/tasks/task_search.py:76-76 | A number's pattern matches, in front of white space, a separator or the end, only where the number pattern takes exactly that spelling |
| SearchPattern.ScalarMatch | server/tasks/task_search.py:252-267 | Where a scalar's pattern matches backslash-free text in front of such a character, the parser reads that very scalar to the same end |
| SearchMatch.MatchReads | server/tasks/task_search.py:239-244 | Where the pattern of any value matches backslash-free text, that value is the reading of the text, to the end of the match |
| SearchReading.MatchIsParse | server/tasks/task_search.py:210-267 | If the parser returns a literal where the pattern of a value matches, the literal is that value and ends where the match ends |
| SearchReading.ParsedWellFormed | server/tasks/task_search.py:223-256 | Values from the parser keep entries in objects, items in lists, and numbers in full number spellings |
| SearchReading.NumberPrefix | server/tasks/task_search.py:254-256 | The spelling taken from a text is taken whole when it stands alone |
| SearchComplete.NumberIsLongest | server/tasks/task_search.py:76-76 | The number read at a place is the longest text there that the grammar of `NUMBER_PATTERN` allows, and none is read exactly where it allows none |
| SearchComplete.ParsesIff | server/tasks/task_search.py:210-267 | The parser returns a value and its end if and only if the text reads as that value to that end within the nesting limit: soundness and completeness against the independent reading, for every text, place and depth |
| SearchComplete.DeepRaises | server/tasks/task_search.py:210-212 | A text that reads as a value that nests deeper raises |
| SearchPrinted.PrintedParses | server/tasks/task_search.py:210-267 | Any value, printed with any of the four string printers, the words and separators of JSON or Python and any white space in the separators, parses back to itself wherever it stands, or raises if it nests too deeply |
| SearchPrinted.PrintedMatches | server/tasks/task_search.py:145-244 | And it matches the pattern that is built for it |
| SearchTokens.TokensPath | server/tasks/task_search.py:66-70 | In backslash-free text every match of the token regex is the one walk from token to token |
| SearchTokens.PathTokens | server/tasks/task_search.py:66-70 | And every such walk is a match |
| SearchTokens.PathRest | server/tasks/task_search.py:66-70 | Two walks from one place share their way, so a longer one passes the end of a shorter one |
| SearchFind.ReadPath | server/tasks/task_search.py:66-74 | The text of a value is whole tokens, none of which starts with a bytes or custom-repr marker |
| SearchFind.FindInValue | server/tasks/task_search.py:283-287 | An entry that reads behind a `{` or `,` at a token boundary of a value's text is an entry of that value, at some depth |
| SearchClause.StrictIsLenient | server/tasks/task_search.py:287-298 | Every match of the strict pattern is a match of the lenient one |
| SearchClause.ObjectTextTokenizes | server/tasks/task_search.py:66-70 | A backslash-free text that the parser reads whole as an object tokenizes |
| SearchClause.ObjectTextNotMalformed | server/tasks/task_search.py:71-74 | Such a text is never taken for a malformed repr |
| SearchClause.StrictFinds | server/tasks/task_search.py:282-287 | A strict match in such a text names an entry of the parsed object with the query's key and value |
| SearchEscapes.PrintIsToken | server/tasks/task_search.py:66-70 | Each printer's text of any string is one `QUOTED` token, also where saferepr leaves backslashes raw |
| SearchEscapes.PrintedEntryFound | server/tasks/task_search.py:281-298 | The clause of every entry of a printed dictionary matches its text, at every depth, inside keys too, and whatever characters the strings hold |
| SearchEscapes.BareEntryFound | server/tasks/task_search.py:287-292 | So does the clause of an entry that is the whole text, without braces |
| SearchEscapes.MarkedIsLenient | server/tasks/task_search.py:71-74 | In a text with a bytes literal or a custom repr where a value can stand, and tokens around it, the key matches behind any delimiter |
| SearchEscapes.OpenQuoteIsLenient | server/tasks/task_search.py:281-287 | So it does in a text without backslashes whose last quote is left open |
| SearchEscapes.EntryFoundLeniently | server/tasks/task_search.py:292-292 | Such a match finds an entry behind any `{` or `,` and in front of `,`, `}` or the end |
| SearchTermText.TermIdentifies | server/tasks/task_search.py:342-342 | No two pairs of key and value share a term text |
| SearchTermText.TaggedPrefix | server/tasks/task_search.py:87-94 | The text of a tagged value is no proper prefix of another's |
| SearchTerms.Visit | server/tasks/task_search.py:365-373 | The recursive visit adds to the set exactly the terms of the string-keyed entries outside keys |
| SearchTerms.KwargsSearchTermsOf | server/tasks/task_search.py:351-376 | The terms or the fallback mark of a kwargs text, with every fallback case |
| SearchTerms.ClausePair | server/tasks/task_search.py:270-342 | The regex clause and the index term of a query speak of the same key and value |
| SearchTerms.ClauseFinds | server/tasks/task_search.py:281-306 | In a text that is one object a match of the whole clause, its lenient and malformed branches included, is an entry of that object |
| SearchTerms.EmptyNeverMatches | server/tasks/task_search.py:352-353 | An empty kwargs text, which gets neither terms nor a mark, matches no clause |
| SearchTerms.MatchIsIndexed | server/tasks/task_search.py:334-376 | A row that satisfies the clause is marked for fallback, or has the query's term if and only if an entry with the query's key and value can be reached from the top through values and items |
| SearchTerms.VisitedIffOutside | server/tasks/task_search.py:365-373 | The visit reaches a pair exactly when some path through the values of entries and items ends at a collection with that entry |
| SearchTerms.IndexKeepsMatches | server/tasks/task_search.py:281-376 | With scalar dictionary keys no row that satisfies the clause lacks both the term and the mark |
| SearchTerms.QueryKeepsMatches | server/tasks/task_search.py:334-376 | The same for the clause and the term that a query text builds |
| SearchQuery.PrintedClauseIff | server/tasks/task_search.py:281-306 | On a printed dictionary the clause of a key and value matches if such an entry exists; without backslashes in the text, if and only if |
| SearchQuery.PrintedTerms | server/tasks/task_search.py:351-376 | The index terms of a printed dictionary without backslashes are those of its entries outside keys, or it is marked for fallback for its length or number of terms |
| SearchQuery.ObjectValueIff | server/tasks/task_search.py:356-364 | A kwargs text is taken for an object exactly if it reads as that object to its end, but for white space, within the nesting limit |
| SearchQuery.FallbackIff | server/tasks/task_search.py:351-376 | A text is marked for fallback if and only if it is not empty and is from another source, too long, with a backslash, no such object, or one with more than 256 terms; and then it has no terms |
| SearchQuery.QueryAsks | server/tasks/task_search.py:270-305 | Whatever white space stands in a key=value query, it asks for that key and the value of its right side, unless that nests too deeply or the pattern gets too long |
| SearchQuery.SplitIff | server/tasks/task_search.py:81-81 | A trimmed text is taken for key=value if and only if it is a key without white space and equals signs, an equals sign and something, with any white space around the sign |
| SearchQuery.QueryFinds | server/tasks/task_search.py:270-306 | From query text to row text: a query for a printed value finds every printed dictionary with such an entry and, among texts without backslashes, no other |
| SearchQuery.BareQueryFinds | server/tasks/task_search.py:270-306 | The same where the right side is no literal, or has more behind one, and stands for the string itself |
| SearchHiddenKey.ContainerKeyLosesMatch | server/tasks/task_search.py:365-371 | Without that condition it fails: the query `a=1` matches `{[{'a':1}]:2}`, whose index has no term and no mark |
| SearchProjection.GramFound | runtime/search-index-schema.surql:3-7 | A text of at most 512 characters that contains a query has the query's last three characters among its grams |
| SearchProjection.GramIff | runtime/search-index-schema.surql:3-7 | The grams of a text are exactly the texts of three characters within its first 512 lower-cased ones |
| SearchProjection.ProjectTextsIndexes | runtime/search-index-schema.surql:9-32 | Reusing the gram columns of unchanged fields leaves exactly the grams of the current fields |
| SearchProjection.ProjectCovers | runtime/search-index-schema.surql:9-36 | A trigger that fires on an accurate projection, or on none, leaves an accurate one |
| SearchProjection.ProjectWorkflowCovers | runtime/search-index-schema.surql:48-64 | The same for workflow rows |
| SearchProjection.AnySourceCovers | server/tasks/task_search.py:354-356 | Terms written under any source cover the stored text |
| SearchProjection.MatchIsCandidate | server/tasks/task_search.py:395-408 | Every row that the original predicate selects is in the candidate list of an accurate projection |
| SearchProjection.WorkflowMatchIsCandidate | server/tasks/task_search.py:411-429 | The same for workflow rows and their member searches |
| SearchTables.PutAccurate | runtime/search-index-schema.surql:37-46 | Creating or changing a row keeps its table's projections accurate, whether or not the trigger fires |
| SearchTables.WriteKeepsInv | runtime/search-index-schema.surql:37-46 | Writers keep the invariant beside builders: no row behind a builder's walk loses its projection |
| SearchTables.PageKeepsInv | runtime/search-indexes.ts:68-87 | Projecting one page of a builder's keyset walk keeps all rows behind the walk indexed, beside concurrent writers |
| SearchTables.BuildKeepsInv | runtime/search-indexes.ts:65-111 | Starting, reading a page, ending a walk and giving up keep the invariant; the ready mark is set only when every row is indexed |
| SearchTables.ReachableInv | runtime/search-indexes.ts:34-117 | After any run, projections are accurate, and while the ready mark is set every row has one |
| SearchBuilds.BuildCanEnd | runtime/search-indexes.ts:65-111 | From every reachable state a new builder can bring the index to ready, page by page of at most 200, with every row indexed |
| SearchDatabase.TaskUpkeepSound | runtime/search-indexes.ts:88-101 | The task trigger and the statement that writes the terms of the stored kwargs text, in the backfill and in the ingester, keep a task's projection accurate |
| SearchDatabase.WorkflowUpkeepSound | runtime/search-index-schema.surql:48-74 | So does the workflow trigger |
| SearchDatabase.IndexedSearchIsExact | src/lib/indexed-search.ts:5-51 | After any run of writers and of any number of builders, indexed task and workflow searches return exactly what the plain predicates return, if dictionary keys are scalar |
| SearchDatabase.IndexedQueryIsExact | server/tasks/task_search.py:395-429 | The same for every query text |
| SearchResults.WorkflowsFound | server/tasks/task_search.py:411-429 | A text search looks at no member tasks; a key=value search finds a workflow by its texts or, in range, by a member task that it finds |
| SearchResults.TasksFound | server/tasks/task_search.py:395-408 | Through the index, in every reachable state, a query for a printed value finds every task whose printed kwargs have such an entry; and, where they hold no backslash, no task without one but for its texts |
| SearchResults.TheirWorkflowsFound | server/tasks/task_search.py:411-429 | And every workflow in range with such a task |
| SearchResults.WriteKeepsTerms | runtime/search-index-schema.surql:26-36 | A write that leaves the kwargs alone keeps their terms and mark; one that changes them marks the row until the terms are written |
| SearchResults.TermsLiftMark | runtime/search-indexes.ts:88-101 | Writing the terms lifts the mark exactly from a kwargs text that can be indexed whole |
| TaskMerge.AssignFields | server/events/ingester.py:405-424 | The loop over the field map leaves each offered value where the stored field is empty or the event applies, and all other fields as they were |
| TaskHistory.HistoryIsMonotone | server/events/ingester.py:376-438 | Between any two points of any interleaving of events, dated or undated backend metadata, fetched results and parent placeholders: no stored field goes away, a time that is not marked as the monitor's stays so and never falls, lifecycle times and first observation never rise, the error mark stays |
| TaskHistory.StoredField | server/events/ingester.py:408-417 | A stored field keeps its value or takes the one on offer: from an event at least as new, from metadata that applies, always from a fetched result, never from a placeholder |
| TaskHistory.StaysFilledIff | server/events/ingester.py:408-417 | A field that is not empty stays so through a run of any writers if and only if no write on the way takes it over with the empty text |
| TaskHistory.ResultEmptied | server/events/ingester.py:408-417 | Such a write exists: a second event of the same time or later with the empty result empties a stored one |
| TaskHistory.StateComesWithTime | server/tasks/result_fetcher.py:86-99 | A changed state is the writer's own; a dated writer brings its time and the flag of task evidence, an undated one leaves a known time alone |
| TaskHistory.TerminalStateHolds | server/tasks/result_fetcher.py:150-166 | A terminal state gives way only to a dated write, strictly newer for events and as new for metadata; undated metadata never replaces it |
| TaskHistory.LateWritesKeepOutcome | server/events/ingester.py:376-393 | Once a terminal state has a time that is not marked as the monitor's, any number of late or undated messages, fetched results and placeholders in any order leave state and time alone |
| TaskDecision.KindsEndTasks | server/events/ingester.py:28-60 | Event types leave distinct states, and the types that end a task are exactly those that leave terminal ones |
| TaskDecision.EventDecides | server/events/ingester.py:376-393 | Exactly when an event decides state and time: it is newer, or it ends a task whose time is the monitor's own and that has not ended otherwise; if not, it leaves both |
| TaskDecision.DatedMetaDecides | server/tasks/result_fetcher.py:150-166 | Exactly when dated metadata does: it is as new, or the time is the monitor's own and the task has not ended otherwise |
| TaskDecision.UndatedMetaDecides | server/tasks/result_fetcher.py:150-166 | Exactly when undated metadata does: the task has no state or has not ended; it keeps a known time or brings the monitor's, marked as such |
| TaskDecision.EvidenceEndsObserved | server/tasks/result_fetcher.py:150-153 | After an undated import of a task that has not ended, any event that ends it decides, however old |
| TaskDecision.MetaStampsOutcome | server/tasks/result_fetcher.py:86-130 | A lifecycle time is set from metadata exactly by a decision with a date for the outcome of that kind, where there is none |
| TaskDecision.MetaFillsGaps | server/tasks/result_fetcher.py:81-130 | Metadata fills gaps: invocation fields always, outcome fields if it decides or is of the stored state |
| TaskDecision.FetchStores | server/tasks/result_fetcher.py:206-219 | A fetched result is stored, whatever was there, and changes neither state nor time nor other fields |
| TaskDecision.ErrorMarkIff | server/events/ingester.py:400-403 | The error mark comes from a failure, an exception or a traceback, of whichever writer, and from nothing else |
| TaskDecision.MetaFirstSight | server/tasks/result_fetcher.py:100-112 | Metadata dates the first sight and the sending of a task that has none, and groups one that is not grouped |
| TaskDecision.DatedRunDecides | server/tasks/result_fetcher.py:150-166 | After any run of events and dated metadata, in any order, state and time are those of one write: of the latest, the last metadata or, without any, the first event |
| TaskConvergence.MergedLatest | server/events/ingester.py:385-388 | State and time are those of an event with the latest time |
| TaskConvergence.MergedEarliest | server/events/ingester.py:391-393 | First observation is the earliest event time |
| TaskConvergence.MergedStamp | server/events/ingester.py:389-390 | Each lifecycle time is the earliest of its type |
| TaskConvergence.MergedWorkflow | server/events/ingester.py:394-399 | With consistent ancestry the workflow is the root that any event names, else the task's own id |
| TaskConvergence.LatestField | server/events/ingester.py:405-424 | A field that a latest event carries ends with a latest event's value, whatever arrives around it |
| TaskConvergence.FieldsFill | server/events/ingester.py:408-417 | A field is stored exactly when some event carries it |
| TaskConvergence.OrdersConverge | server/events/ingester.py:354-439 | Two arrival orders of the same events with consistent ancestry give the same last update, first observation, lifecycle times, error mark and workflow |
| TaskConvergence.StateConvergesIff | server/events/ingester.py:376-386 | All arrival orders give the same state if and only if the events with the latest time agree about it |
| TaskConvergence.FieldConvergesIff | server/events/ingester.py:405-424 | All arrival orders give a field the same value if and only if the latest events that carry it agree on it or, when no latest event carries it, all events that do |
| TaskConvergence.FirstFillStays | server/events/ingester.py:408-417 | Behind a latest event without the field, the first event that carries it fills the gap for good |
| WorkflowSummary.RecountPartitions | server/events/ingester.py:528-553 | Active, retried and completed members add up to all members, and failures are completed |
| WorkflowSummary.KindCounts | server/events/ingester.py:528-553 | Which event types count as active, retried, failed and completed |
| WorkflowSummary.RecountAggregate | server/events/ingester.py:571-574 | The aggregate state, by what members there are: failed before retried before running before succeeded, pending only without members |
| WorkflowSummary.RecountFrame | server/events/ingester.py:525-553 | A recount depends on its members' states and workers only |
| WorkflowSummary.WriteLeavesOne | server/events/ingester.py:450-457 | Writing one task leaves only its new workflow's row out of date, and a workflow it leaves is empty |
| WorkflowSummary.LeftIsMoved | server/events/ingester.py:450-457 | The conditional delete removes the old workflow's row exactly when the event moved the task |
| WorkflowSummary.ParentKeepsCounts | server/events/ingester.py:590-607 | The parent's placeholder changes no recount |
| WorkflowSummary.EventKeepsInv | server/events/ingester.py:235-253 | One event's statements, in order, keep every row equal to its recount and every grouped task's workflow present |
| WorkflowSummary.EventTouchesTwo | server/events/ingester.py:228-253 | An event touches no workflow row but its task's and that of a workflow it leaves empty |
| WorkflowSummary.PollKeepsInv | server/tasks/result_fetcher.py:279-289 | So does one backend poll |
| WorkflowSummary.ResultKeepsInv | server/tasks/result_fetcher.py:206-219 | So does storing a fetched result, without a recompute |
| WorkflowSummary.DeleteKeepsInv | runtime/observation-api.ts:323-329 | So does the cleanup transaction for any set of workflows |
| WorkflowRuns.SummariesAreExact | server/events/ingester.py:461-587 | After any run of event batches, polls, result updates, cleanups, clears and clean imports with consistent ancestry, each row is the recount of its members, its counts add up, and every grouped task's workflow has a row |
| TaskRuns.StoreIsHistory | server/events/ingester.py:228-253 | After any run of event batches, polls and fetched results each stored task is the history of the writes to it, placeholders of its children included, in the order of the transactions: what is proved of histories holds of the store |
| WorkflowRuns.ImportHasInv | runtime/observation-api.ts:285-296 | A clean backup whose groups follow the ancestry is imported with exact summaries |
| Backfill.FoldTasks | runtime/surreal-schema.ts:190-239 | The one pass with its map of running rows gives each workflow the fold of its own tasks |
| Backfill.PlanWorkflowBackfill | runtime/surreal-schema.ts:185-303 | The steps, in order: groups, then each workflow's row and its membership edges |
| Backfill.TallyCounts | runtime/surreal-schema.ts:213-218 | The folded counts are the numbers of members in each kind of state |
| Backfill.PlannedRowIsRecount | runtime/surreal-schema.ts:213-258 | The planned row equals the ingester's recount if and only if no member lacks a state and none has an empty state or worker |
| Backfill.TallyLatest | runtime/surreal-schema.ts:225-232 | No member is later than the planned last update |
| Backfill.TallyLatestIsMember | runtime/surreal-schema.ts:225-232 | The planned last update is a member's |
| Backfill.OneMembershipEach | runtime/surreal-schema.ts:291-300 | Each task is related to its own workflow once and to no other |
| Backfill.ImportLeaves | runtime/observation-api.ts:284-296 | Running the steps leaves every task grouped and exactly one planned row for each group |
| Backfill.ImportCountsIff | runtime/observation-api.ts:285-296 | After an import all rows are recounts if and only if every member of every workflow is clean |
| Backfill.ImportNames | runtime/observation-api.ts:285-296 | Every imported task's workflow has a row |
| Backfill.ImportKeepsGroup | runtime/surreal-schema.ts:190-205 | An import groups a task where its events had put it, also if the backup lacks the grouping |
| Cleanup.RemoveOldest | runtime/observation-api.ts:302-315 | The loop removes, oldest first, as many workflows as are needed to take the excess with them |
| Cleanup.NeededIsEnough | runtime/observation-api.ts:309-313 | That many hold the excess or are all there are, and any fewer do not |
| Cleanup.ListedMeasures | runtime/observation-api.ts:306-308 | With exact summaries the queried rows carry the true numbers of their members |
| Cleanup.SumIsBelonging | runtime/observation-api.ts:309-313 | The counts that the loop adds up are the tasks that go with the workflows |
| Cleanup.CleanupIsEnough | runtime/observation-api.ts:302-329 | Afterwards the tasks are within the limit, or only those are left that belong to no workflow |
| Cleanup.CleanupKeepsLimit | runtime/observation-api.ts:302-329 | The same from exact summaries and the queried rows of all workflows |
| Cleanup.CleanupIsSparing | runtime/observation-api.ts:302-329 | Keeping the newest of the removed workflows would have left more tasks than the limit |
| Ingester.Pipeline.Consume | server/events/ingester.py:155-188 | What one taken event does to buffer, terminal flag and drop count, and when a flush follows |
| Ingester.Pipeline.TakeBatch | server/events/ingester.py:211-274 | The buffer is emptied into the batch of buildable events in order, with their terminal ids, and the others are counted as dropped |
| Ingester.FlushConserves | server/events/ingester.py:216-274 | Taking the buffer loses no event and keeps the order |
| Ingester.StepKeepsInv | server/events/ingester.py:155-296 | Every step of either coroutine between two awaits keeps the invariant |
| Ingester.PipelineConserves | server/events/ingester.py:155-296 | After any interleaving each taken event is exactly one of dropped and counted, finished, in flight or waiting; the last three keep arrival order across failed commits; terminal ids of finished events were handed on exactly once and in order; at most 500 events wait during a commit; never two commits at once |
| IngesterFate.DroppedOnlyIf | server/events/ingester.py:164-182 | An event is dropped only if it is malformed, cannot be built, or came while 10,000 others waited; the first and last always are, and what is in flight or finished is neither malformed nor broken |
| IngesterFate.GoodEventsSurvive | server/events/ingester.py:164-182 | Of the first 10,000 events, none is dropped if all are well formed |
| IngesterFate.TerminalFlushesAtOnce | server/events/ingester.py:184-188 | While a terminal event waits that no failed commit has put back, the consume loop is at the flush lock already |
| IngesterFate.FinishedByCommit | server/events/ingester.py:276-296 | An event is finished by the commit it is in, or without one only if it asks for no query |
| IngesterFate.CommitsHaveQueries | server/events/ingester.py:276-277 | There is never an empty transaction |
| IngesterFate.CallbackHoldsNoLock | server/events/ingester.py:200-209 | Whoever hands ids on is in the callback from then on, without the flush lock; the timer goes for the lock only with waiting events |
| IngesterFate.IdsHandedOn | server/events/ingester.py:246-250 | The callback gets the id of every finished event that ended a task, once, in order, and nothing else |
| IngesterFate.EverythingCanEnd | server/events/ingester.py:190-209 | From every reachable state, without new events and with commits that succeed, each taken event comes to its end |
| LeaderElection.Instance.OnAcquireReply | runtime/leader-election.ts:80-85 | What follows an acquisition's reply, at start and in standby |
| LeaderElection.Instance.OnHeartbeatReply | runtime/leader-election.ts:166-196 | A lost lock and a failed heartbeat end leadership alike |
| LeaderElection.Instance.OnCurrentLeader | runtime/leader-election.ts:158-164 | Polling starts once the current leader is known, unless stopped meanwhile |
| LeaderElection.LockIsFresh | runtime/leader-election.ts:112-135 | Nobody can take the lock from a leader, or from an instance whose acquisition is still on its way back |
| LeaderElection.StepKeepsInv | runtime/leader-election.ts:112-207 | Every database, reply, timer, time and late step keeps the invariant |
| LeaderElection.AtMostOneLeader | runtime/leader-election.ts:93-207 | In every reachable state of any number of instances whoever leads unstopped holds the lock record, so at most one does |
| LeaderElection.TwoLeaders | runtime/leader-election.ts:112-120 | Below the bound a run with two leaders exists |
| LeaderElection.OneLeaderIff | runtime/config.ts:152-154 | With D < H < TTL there is never a second leader if and only if H + 2D <= TTL |
| ElectionProgress.NobodyGivesUp | runtime/leader-election.ts:80-208 | In every reachable state an instance that has started and not stopped has its heartbeat armed as a leader, and otherwise a request on its way or a poll armed |
| ElectionProgress.NeverStuck | runtime/leader-election.ts:166-208 | In every reachable state time can pass, or a reply or timer that is due can happen |
| ElectionProgress.FreeLockIsTaken | runtime/leader-election.ts:112-135 | Beside a running instance a missing or stale lock stays untaken for at most a heartbeat, a lifetime and four delays, and a lifetime and two delays more for each of its acquisitions that fails |
| ElectionProgress.FreeLockIsTakenSoon | runtime/leader-election.ts:199-208 | With a safe timing, for at most a lifetime and three delays |
| ElectionProgress.TakerLeads | runtime/leader-election.ts:80-85 | An acquisition of a free lock, or of the instance's own, makes it the leader once it is answered |
| ElectionProgress.LeaderStays | runtime/leader-election.ts:166-196 | With a safe timing a leader leads until it is stopped or one of its heartbeats fails |
| ElectionProgress.StopFreesLock | runtime/leader-election.ts:93-102 | A leader's stop removes the lock, and another instance's does not touch it |
| ElectionProgress.StopIsFinal | runtime/leader-election.ts:93-102 | After a stop an instance never arms a timer, sends a request or becomes the leader again |
| Paging.MakePage | runtime/mcp/common.ts:206-230 | The pop loop returns the longest prefix of at most `limit` rows that fits the byte budget, with its cursor, and fails exactly when not even one row fits |
| Paging.BeyondIsRest | runtime/mcp/workflows.ts:181-190 | Behind a row's anchor a sorted table has exactly its remaining rows |
| Paging.WalkAll | runtime/mcp/common.ts:206-225 | Following cursors over an unchanging table gives every row once, in order, and ends, if and only if no call on the way raises; otherwise it gives the rows before a call that it reaches and that raises, which is one behind which not a single row fits |
| Paging.SingleRowsSuffice | runtime/mcp/common.ts:222-229 | In bytes no call raises if each row by itself, with the frame and a cursor at it, is within the budget, however many pages are shortened |
| Paging.BeforeIsStrict | runtime/mcp/workflows.ts:187-195 | Rank descending, time descending, id ascending is a strict total order, and the anchor's predicate is that order |
| Paging.SearchAll | runtime/mcp/workflows.ts:181-263 | The same walk, with the same exact condition, for the order of workflow searches |
| Paging.BestFirst | runtime/mcp/workflows.ts:187-195 | Results come by rank, then latest first, then by id in the order of texts |
| Paging.TextLessIff | runtime/mcp/workflows.ts:187-195 | A text precedes another exactly if it is a beginning of it or smaller where they first differ |
| WorkerList.BatchRest | runtime/mcp/workers.ts:131-137 | A batch is the next 50 workers behind the position |
| WorkerList.ScanWorkers | runtime/mcp/workers.ts:120-165 | The scan selects exactly the matching workers up to where it must stop: one worker too many, the end of the table or 200 scanned; with a selection that is not full it has met the end exactly when it scanned fewer than 200 |
| WorkerList.AnswerScan | runtime/mcp/workers.ts:171-184 | The longest page that fits, with the cursor of its last worker, or of the last one scanned when nothing is left over; the call fails exactly when no page fits or the answer with that cursor does not |
| WorkerList.ListWorkers | runtime/mcp/workers.ts:104-185 | One call raises exactly in the stated condition on table, position and budgets; otherwise it returns exactly the matching workers between its cursor and the next, and makes progress when there is more |
| WorkerList.RaisesIff | runtime/mcp/workers.ts:171-184 | As an answer is no larger when sent than while it was cut, a call raises if and only if no selected worker fits, or the whole selection does and a scan of 200 adds a cursor with which it does not |
| WorkerList.CursorRefusesPage | runtime/mcp/workers.ts:175-184 | In bytes: with two or more matches among 200 workers and less room left than their cursor takes, the call raises although a shorter page with its own cursor fits |
| WorkerList.PageRefusedForCursor | runtime/mcp/workers.ts:175-184 | Such tables exist, of every length from 200 on, and make a walk incomplete at its first call |
| WorkerList.ListAll | runtime/mcp/workers.ts:104-185 | Following the cursors of an unchanging table returns every matching worker once, in order, and ends, with pages that are empty, cut by the scan bound or shortened by the budget, if and only if no call on the way raises; otherwise it returns the matches before a call that it reaches and that raises |
| LiveList.AppliedList | src/hooks/use-live-query.ts:55-64 | Ordering and cutting keeps as many of the same records as the limit allows, in order and with unique ids |
| LiveList.SortIsStable | src/hooks/use-live-query.ts:55-64 | Records of equal rank keep their order |
| LiveList.NoOrderKeepsArrival | src/hooks/use-live-query.ts:55-64 | Without an order the list is in order of arrival |
| LiveList.AddedTop | src/hooks/use-live-query.ts:76-92 | A matching record that was not listed takes its place, or stays behind a full list |
| LiveList.ReplacedTop | src/hooks/use-live-query.ts:98-100 | A listed record's update keeps the list exact if and only if no hidden record ranks before it now |
| LiveList.RemovedTop | src/hooks/use-live-query.ts:93-107 | A removal keeps it exact if and only if nothing is hidden |
| LiveList.HandleTopIff | src/hooks/use-live-query.ts:66-109 | For every notification: the list is the first records of the changed table if and only if that condition holds |
| LiveList.HandleOrdered | src/hooks/use-live-query.ts:66-109 | After any message, related to the table or not, ids are unique and the order is kept |
| LiveList.HandleAllOrdered | src/hooks/use-live-query.ts:66-109 | So they are after any number of messages |
| LiveList.ListStaysExact | src/hooks/use-live-query.ts:55-109 | Under a change log without deletions, filter exits and records that move back, or without a limit under any change log, the list stays the first matching records |
| LiveList.NoLimitShowsAll | src/hooks/use-live-query.ts:55-64 | Without a limit an exact list is the filtered table |
| PayloadChunks.ChunkContinues | runtime/mcp/tasks.ts:121-135 | A chunk continues what was delivered before it and leaves less to deliver |
| PayloadChunks.NextChunks | runtime/mcp/tasks.ts:111-137 | One response: contiguous chunks of at most the budget, full unless everything is delivered, each the stored text at its offset and marked exactly if its field goes on behind it |
| PayloadChunks.InspectSection | runtime/mcp/tasks.ts:93-145 | At most 2048 characters, 1024 on the first error page, and a cursor exactly while something is left |
| PayloadChunks.ReadAll | runtime/mcp/tasks.ts:93-145 | Following the cursors over an unchanged task puts every stored field together exactly, and ends; each chunk says rightly whether its field goes on |
| SearchLease.Control.Start | runtime/search-indexes.ts:34-50 | A start fails exactly on a live row with the other setting, and then changes nothing |
| SearchLease.InstancesAgree | runtime/search-indexes.ts:34-58 | In every reachable state each instance row, expired or not, carries the shared setting, and only an enabled index is ready |
| SearchLease.ConflictingStart | runtime/search-indexes.ts:39-46 | A start with the other setting changes nothing if and only if some lease still lasts; otherwise it leaves itself as the only row |
| SearchLease.ReadyIff | runtime/search-indexes.ts:42-46 | After any run the index is ready if and only if some step set the mark and nothing since has cleared it or changed the setting: restarts with the same setting keep it |
| SearchLease.LeaseLasts | runtime/search-indexes.ts:34-58 | An instance that has started and beats before its lease is over keeps a live row with its setting and the exact time left, whatever others do |
| ExecutionObservation.ObservationIsFresh | server/workers/poller.py:151-169 | While every poll says the same of a task, its stored observation says that and is at most a refresh older than the last poll |
| ExecutionObservation.PollIsStored | server/workers/poller.py:151-169 | A poll as new as the task's last event is what is stored afterwards, with its own time, or an equal observation not older than the refresh is kept |
| ExecutionObservation.OldPollStoresNothing | server/workers/poller.py:156-158 | A poll that was sent before the task's last event changes nothing |
| ExecutionObservation.ReadIsSymmetric | src/utils/task-execution.ts:11-27 | The expiry tolerates a reader's clock behind the observation exactly as far as one ahead of it |
| ExecutionObservation.AlwaysReadsIff | src/utils/task-execution.ts:13-27 | A task that every poll lists reads active at every moment, and one that none lists not active, if and only if gap and refresh together stay within the readers' expiry |
| ExecutionObservation.MinutePollsRead | src/utils/task-execution.ts:9-9 | With the constants of both sides: if and only if polls are applied within a minute |
| ExecutionObservation.MissingNeverActive | server/workers/poller.py:158-162 | From a poll that does not list a task until one lists it again the task never reads active |

## Left out

- How many rows an indexed search reads; only what it finds is stated.
- Regex engine: case folding in `(?i:true)` and `(?i:false)` covers ASCII letters; the long s of Unicode folding is not matched.
- Surrogate code points, which a Python string can hold and a Dafny character cannot.
- `sorted` in the index terms and `dict` order in bindings: terms are a set.
- TaskMerge.AssignFields: `kwargs_search_source` is not modelled and numeric fields are texts; the index theorems hold for whatever source is stored beside a kwargs text.
- TaskConvergence.OrdersConverge: parent placeholders are not part of it, because they stamp monitor time; `TaskHistory` and `WorkflowSummary` have them among their writers.
- WorkerList.ListWorkers: a response also counts the scanned workers whose registration is unknown; the model's byte budgets see rows and cursor only.
- The `children` lists of tasks, and the `result_truncated` mark that backend metadata sets beside its result.
- `latest_exception_preview`, `first_seen_at` and `root_task_type` of workflow rows: the two writers take them from different sources.
- The schema's string type of `workflow_id`, which a parent placeholder without a workflow does not meet; the model allows its absence.
- Membership edges of event batches: only those of the backfill plan are counted.
- Reading the limit, the rows and the deletion of a cleanup in separate requests: the model takes them at one moment; removal by age is covered only as a set of workflows.
- ISO text comparison in the backfill: times are numbers.
- Clearing of observations after a failed inspection, and `execution_active_at`.
- Cancellation during the ingester's stop, and statistics.
- Leader election switched off or ingestion disabled, and overlapping timer ticks, which D < H excludes.
- Leases that lapse while an index build is running, and a crash between the statements that remove the projections.
- A worker without a host name: the ingester never stores one, and the cursor anchor would drop it.
- Ordering by locale in lists and queries: an order is a strict one on rows, or a rank on records of the live list.
- Re-querying of the live list on refresh notifications, and messages that arrive before the snapshot.
- The RPC queue and the live authorization queue: a promise chain with a bound, whose order is that of the chain.
- Cursor signatures, sessions, permissions, CSV, charts, configuration, logging and transport.
