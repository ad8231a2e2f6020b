# RSS Workshop: verified models

RSS Workshop turns web pages into RSS and Atom feeds. This project models its hardest logic in Dafny
and proves what the code, its comments and its documentation promise. It covers stored output and the
304 decision, the refresh protocol across scheduler and store, the FlareSolverr slots, the article
backlog, the CSS to XPath compiler, filter trees, the notifier, the per-origin limit and the picker's
page snapshot.

Code that changes state in place is modelled by classes and methods with loops, each tied to a
function that says what it means. Concurrent code is modelled as state machines over atomic steps.
The main results are about every input, every reachable state or every run.

## The parts

| files | what they model |
|---|---|
| `Store`, `StoredFeeds` | one feed's row, stories and runs; each transaction in place and as a function |
| `ReaderOutput`, `History`, `WriteEffects` | what readers are served, the 304 answer, histories of writes, and what each write leaves stored |
| `Admission`, `Alerts`, `Protocol`, `ProtocolRuns` | the scheduler's desk, the health alerts, and ticks, jobs, edits and deletions interleaved |
| `SolverSlots`, `SolverClients`, `SolverRuns`, `RemoteSolves` | FlareSolverr slots under admission, the client that counts them, and what they mean for the remote browser over time |
| `Backlogs` | which articles a refresh fetches, and the flag that keeps a backlog draining |
| `Document`, `Css`, `XPath`, `ClassWords`, `CssToXPath` | a page tree, both selector languages over it, and the translation's meaning |
| `CssText`, `CssParse`, `CssParseSound`, `CssParseComplete` | the concrete syntax the compiler's scanners accept, exactly |
| `XPathText`, `XPathRead`, `CssCompiler`, `CssFaithful` | the text the compiler writes, a reader for it, the compiler's methods with their scanner loops, and the theorem on texts |
| `FilterText`, `FilterTree`, `Filters`, `CombineFilters` | keyword rules, compiling and matching them, and merging sets |
| `Notifications` | queues, batches, drops, messages and their urgency |
| `Origins`, `OriginRuns` | two requests at most per source origin |
| `Snapshot` | flattening a parsed page and rebuilding it as the selector mirror |

Clock readings, outcomes of requests, Unicode folding, the visible text of HTML and the sentence that
describes an event are parameters. Each database transaction is one atomic step.

## What the proofs found

- **304 answers.** A reader that echoes our Last-Modified gets 304 exactly when no write since then
  changed the output (`History.NotModifiedIsExact`), over every history of refreshes, edits, filter
  edits, body clears, prunes and pauses.
- **The changed flag** of a merge is exact unless MAX_ITEMS was lowered and every story over the limit
  was first stored within the current second. `ReaderOutput.TellableIsNecessary` builds a refresh that
  goes wrong in every such state; it cannot happen while MAX_ITEMS stays the same.
- **Solver slots.** The comment at `solverFree` says admitted jobs plus the slots still held can never
  exceed the capacity. Their sum, which the code compares, counts a job twice while the slot of its
  interrupted request cools. At every capacity it stays within it in all runs exactly when no request is
  interrupted, even where no job goes on after one (`SolverRuns.CommentHoldsExactly`); `SumIsBounded`
  says by how much it can pass. What the comment is for holds more widely: the slots needed, by jobs to
  acquire or holding one and by those cooling, stay within the capacity exactly when no job goes on to
  another article while its last slot is held (`CapacityHoldsExactly`), so exactly when no feed has
  `articlesUseSolver` (`RecipesSufficeExactly`). One job that goes on is enough to pass it.
- **Form feed in a class attribute.** CSS splits class names there and `normalize-space()` does not, so
  the XPath may miss an element, and never selects one too many. All supported selectors over a
  vocabulary of classes agree on a page exactly when each class CSS finds there is also a word between
  XML's white space (`CssToXPath.PagesAgreeExactly`). That holds where no form feed touches a class
  (`ApartIsSeparated`).
- **Repeated `:nth-of-type`.** `[p][q]` renumbers, so a compound with several counts agrees with CSS
  exactly when there is at most one, all are 1, or neither side selects anything: the counts differ and
  one after the first is not 1, as in `[2][3]` (`CssToXPath.CountsAgree`, `CountsAgreeIsNecessary`).
- **Scanning.** JavaScript's `\s` takes a no-break space between two names as a descendant combinator.
  CSS reads the same two names exactly when the gap is CSS white space (`CssFaithful.GapsReadAlike`).
- **Empty and dotted `:has()`.** Accepted text is written as XPath exactly when no `:has()` in it, at any
  depth, is empty (`CssFaithful.WrittenIsXPath`); `[]` is not XPath. `:has(.)`, which CSS rejects, is
  compiled to `[.]`, and the compound selects what it would without it (`DotHasIsIgnored`).
- **Urgency.** The comment at `send` says an event only counted still decides how urgent its message is.
  The counter and the flag of a dropped event are stored and swapped one after the other, so the flag
  can mark another message. For every set of kinds, all runs whose races with the two swaps are of
  dropped events of those kinds keep the comment true exactly when none of them needs attention
  (`Notifications.UrgencyHoldsExactly`).
- **Combining filters** keeps the meaning of all trees, malformed ones included. It keeps the keyword
  total except for keywords on the root of a group it splices, which only a malformed group has.

## Model

| member | source | states |
|---|---|---|
| Store.NewestSize | internal/store/store.go:334-334 | ranking by published date and key keeps exactly min(limit, stored) stories |
| Store.MergedAt | internal/store/store.go:303-329 | a merge treats each story on its own: listed ones are upserted, others keep their row |
| StoredFeeds.StoredFeed.MergeStories | internal/store/store.go:300-329 | the loop upserts every story and its touched map holds exactly the rows carrying this merge's change time, with whether each looks inserted |
| StoredFeeds.StoredFeed.ReadPruned | internal/store/store.go:338-353 | reading back pruned keys reports a change exactly when one was not inserted by this merge, and drops them from the touched map |
| StoredFeeds.StoredFeed.Retain | internal/store/store.go:330-373 | the newest stories stay, with the change and new-story flags of the declarative definition |
| StoredFeeds.StoredFeed.Complete | internal/store/store.go:261-399 | the whole transaction: stale results change nothing, failures count from the snapshot, successes merge, retain and date the output |
| StoredFeeds.StoredFeed.ClearArticleBodies | internal/store/save.go:234-275 | bodies cleared are those of all stories with one, or of the stories last listed, each with the feed's next change time |
| StoredFeeds.StoredFeed.PruneFilteredHistory | internal/store/save.go:279-334 | exactly the stored stories the rules reject are removed, at the feed's next change time |
| StoredFeeds.StoredFeed.Save | internal/store/save.go:94-149 | an editor save: row, version, failures, body clears and pruning, all or nothing, and refused past 10,000 stories to prune |
| StoredFeeds.StoredFeed.ApplyFilterEdit | internal/store/library.go:154-190 | a filter edit on one linked feed: version, pruning and change time, and the same refusal |
| ReaderOutput.MergedStory | internal/store/store.go:303-329 | a merged story keeps guid, published and first_seen, is touched if and only if a published field moved, and never loses its body |
| ReaderOutput.ChangedFlagIsExact | internal/store/store.go:298-381 | a refresh reports a change if and only if the stored stories differ, including two merges in one second |
| ReaderOutput.TellableIsNecessary | internal/store/store.go:338-353 | where the side condition fails, some refresh changes stories without reporting it |
| History.UnreportedKeepsOutput | internal/feed/atom.go:95-151 | a refresh that reports no change leaves every value the renderers read, legacy rows included |
| History.WriteIsHonest | internal/store/save.go:94-149 | every kind of write keeps item times at or below the feed's, never moves the change time back, and moves it if and only if it changes the output, once the feed has one |
| History.HistoryIsHonest | internal/store/store.go:293-384 | the same over whole histories with a non-decreasing clock |
| History.RenderedDates | internal/feed/atom.go:95-161 | which of the stored dates Atom shows, while the change time is a date feeds can write |
| History.NotModifiedIsExact | internal/web/web.go:559-586 | the reader's guarantee: 304 for an echoed Last-Modified if and only if no write in between changed the output, and then the served view is the same |
| History.RetentionIsExact | internal/store/store.go:303-373 | after a success the rows are the first MAX_ITEMS of old plus found, each as merged; identity, bodies and last_new behave as documented |
| History.IdentityIsForever | internal/store/store.go:319-322 | a story keeps guid, published date and first sight through every history in which it stays stored |
| WriteEffects.StoredAsFound | internal/store/store.go:303-329 | a kept story holds what the refresh found; a new one takes the date found or else now, is first seen now and has the guid of feed and key; an older one keeps date, identity and first sight, and its body when none was found |
| WriteEffects.UnlistedStays | internal/store/store.go:303-329 | a story the refresh did not list keeps its row |
| WriteEffects.LaterDatesAreKept | internal/store/store.go:330-337 | retention drops no story dated later than one it keeps, and orders equal dates by key |
| WriteEffects.KeyLessMeans | internal/store/store.go:330-337 | keys are ordered by their first difference |
| WriteEffects.CompletedRow | internal/store/store.go:261-399 | a stale result changes nothing, a failure only the count it read and the runs, a success the times and the count |
| WriteEffects.LastNewMeans | internal/store/store.go:362-371 | the time of the last new story becomes now if and only if the refresh leaves a story not stored before |
| WriteEffects.RecordedMeans | internal/store/store.go:392-397 | the newest fifty runs are kept in order |
| WriteEffects.FilterEditKeepsMatching | internal/store/library.go:154-190 | with pruning, exactly the stored stories the rules accept stay, unchanged; past 10,000 nothing happens |
| WriteEffects.SaveKeepsMatching | internal/store/save.go:279-334 | the same for an editor save, after it dealt with bodies |
| WriteEffects.SaveStoresTheEdit | internal/store/save.go:94-149 | the row is what the editor saved, with a new version and no failures |
| WriteEffects.BodiesFollowTheRule | internal/store/save.go:185-215 | stored bodies are kept if and only if they would be taken the same way, and all discarded if and only if another part of the page is asked for |
| WriteEffects.SaveClearsBodies | internal/store/save.go:234-275 | which stories a save takes the body of, and that nothing else of a story changes |
| WriteEffects.LatestPageRunMeans | internal/store/save.go:234-250 | the count is that of the newest run that read the page |
| WriteEffects.ChangeTimeIsNext | internal/store/save.go:218-231 | a write moves the change time to the first second past the last one and not before now, a save of several parts one or two later |
| WriteEffects.ViewShowsStories | internal/feed/rss.go:66-114 | feeds show every published field of every stored story |
| WriteEffects.AnyLaterDateIsNotModified | internal/web/web.go:559-586 | any date from the one given on gets 304 while no write changes the output, and any earlier one the feed |
| WriteEffects.OldRowsGoBySuccess | internal/web/web.go:559-566 | a row from before change times were kept goes by its last success |
| Admission.Scheduler.Reserve | internal/scheduler/scheduler.go:160-186 | admission answers and changes the desk as specified, and keeps it sound |
| Admission.AnswerHasCause | internal/scheduler/scheduler.go:160-186 | each answer and its own cause, in the order they are checked |
| Admission.AdmittedFits | internal/scheduler/scheduler.go:169-183 | an admission keeps the solver's slots in use and promised within its capacity and puts the job in the Chromium pool it needs |
| Admission.Scheduler.Release | internal/scheduler/scheduler.go:190-197 | a job ends with every admission it holds |
| Admission.Scheduler.Finish | internal/scheduler/scheduler.go:200-205 | records the end and releases the job, keeping the desk sound |
| Admission.FinishedNeedsALaterList | internal/scheduler/scheduler.go:200-205 | after finish the desk is sound, the feed is free for a preview, and only a list read after the end starts it |
| Admission.SolverDoneAdmitsNext | internal/scheduler/scheduler.go:207-215 | an admission given back early counts one slot less and changes no answer but that of a job refused for want of a slot |
| Admission.ChromiumDoneAdmitsNext | internal/scheduler/scheduler.go:217-224 | the pool then has room for the next rendering job, and only jobs refused for want of room are answered differently |
| Admission.Scheduler.ForgetFinished | internal/scheduler/scheduler.go:308-316 | drops exactly the end times before the list was read |
| Admission.ForgettingIsUnseen | internal/scheduler/scheduler.go:306-316 | no answer to that list or a later one changes, and every end time kept still decides one |
| Admission.ReleasedIsSound | internal/scheduler/scheduler.go:190-197 | slots in use stay the active jobs, admissions stay among them |
| Alerts.Reports.AlertRefresh | internal/scheduler/alerts.go:84-109 | the event for a stored result and the reported set after it |
| Alerts.Reports.Forget | internal/scheduler/alerts.go:44-59 | keeps exactly the feeds still listed |
| Alerts.FailingAtThreshold | internal/scheduler/alerts.go:80-98 | failing goes out exactly when the stored streak reaches the threshold |
| Alerts.RecoveredOnce | internal/scheduler/alerts.go:101-103 | the first stored success after it raises recovered, across edits, and no later success does before another failure |
| Alerts.RecoveredHasReason | internal/scheduler/alerts.go:80-103 | a stored success raises recovered if and only if it is the first after a failing event or ends a streak at the threshold since the start |
| ProtocolRuns.NoLostUpdate | internal/store/store.go:268-291 | whenever a refresh is accepted, the failure count it read is still the row's |
| ProtocolRuns.RefreshIsStored | internal/scheduler/scheduler.go:460-592 | with a slot free, an undisturbed refresh from the list is admitted, stored, answered with its event, and gives its slot back |
| ProtocolRuns.CountIsHistory | internal/scheduler/scheduler.go:547-579 | the stored count is the number of stored failures since the last success or save, and the events sent are those the history calls for |
| ProtocolRuns.AlertIsTheHistorysEvent | internal/scheduler/alerts.go:84-109 | the event raised from the refresh's old copy is the one the stored history calls for |
| ProtocolRuns.AdmissionHolds | internal/scheduler/scheduler.go:160-224 | used slots are the running jobs within capacity, and admissions belong to them within their pools |
| ProtocolRuns.StartsOnlyFromALaterList | internal/scheduler/scheduler.go:306-316 | a feed starts only from a list read strictly after its previous refresh ended |
| Protocol.StepKeeps | internal/scheduler/scheduler.go:399-459 | every step of ticks, jobs, previews and edits keeps the invariant behind these |
| SolverRuns.LoadIsBounded | internal/scheduler/scheduler.go:226-236 | slots needed by jobs to acquire, holding and cooling stay within the capacity plus slots of jobs that went on |
| SolverRuns.SumIsBounded | internal/scheduler/scheduler.go:233-236 | the code's sum passes the capacity by no more than the jobs it counts twice and the slots of jobs that went on |
| SolverRuns.CapacityHolds | internal/flaresolverr/client.go:114-141 | if interrupted requests are last, the slots needed stay within the capacity and a job waits only while a slot is in transit |
| SolverRuns.CapacityHoldsExactly | internal/scheduler/scheduler.go:226-236 | at every capacity, all runs in which only given jobs go on need no more slots than there are if and only if no job does |
| SolverRuns.RecipesSufficeExactly | internal/scheduler/article.go:150-155 | so the slots suffice if and only if no feed renders its articles through the solver |
| SolverRuns.CommentHoldsExactly | internal/scheduler/scheduler.go:226-236 | the comment's own sum stays within the capacity in all runs in which only given jobs are interrupted and none goes on, if and only if none is interrupted |
| SolverRuns.InterruptingExceedsCapacity | internal/flaresolverr/client.go:119-141 | at every capacity one feed whose refreshes are interrupted takes that sum past it |
| SolverRuns.GoingOnExceedsCapacity | internal/scheduler/article.go:102-120 | at every capacity one job that goes on after interrupted articles needs one slot more |
| RemoteSolves.BudgetIsExact | internal/flaresolverr/client.go:145-153 | maxTimeout is the most whole milliseconds within the configured timeout that leave the grace or, of a short time, a tenth; none means no time left |
| RemoteSolves.RemoteIsBounded | internal/flaresolverr/client.go:119-174 | until Close, every remote solve has its slot held here, so no more run than there are slots |
| RemoteSolves.HoldIsTight | internal/flaresolverr/client.go:119-135 | a run where the slot comes back at the end of the hold and the solve ran until then, so no shorter hold will do |
| SolverClients.Client.TakeSlot | internal/flaresolverr/client.go:114-118 | a slot is taken exactly when the machine's acquire is possible, and the counters follow it |
| SolverClients.Client.EndRequest | internal/flaresolverr/client.go:119-187 | which endings keep the slot held and for how long, as the machine's interrupt or finish |
| SolverClients.Client.StopCooling | internal/flaresolverr/client.go:127-136 | the counter is lowered as a step of its own |
| SolverClients.Client.FreeSlot | internal/flaresolverr/client.go:127-136 | and the slot freed as another |
| Backlogs.Choose | internal/scheduler/article.go:68-85 | what is listed, missing, recent, and how many had a body |
| Backlogs.TargetsMean | internal/scheduler/article.go:68-96 | which stories are fetched: those without a body first, then those first seen within the hour, up to ten, or three in a preview |
| Backlogs.FetchQueued | internal/scheduler/article.go:102-141 | the stories reached in time get what their pages gave |
| Backlogs.FetchArticles | internal/scheduler/article.go:56-148 | the round fetches missing stories first, then recent ones, up to the limit, and reports what it left |
| Backlogs.Flags.Run | internal/scheduler/scheduler.go:577-640 | a refresh of an unchanged page, from the question whether to ask for it in full to the flag after it, is the step of the model |
| Backlogs.FullRequestsEnd | internal/scheduler/backlog.go:9-41 | while the list page stays the same, a feed asks for it in full at most in its first refreshes: one, or as many as listed stories or MAX_ITEMS |
| Backlogs.Flags.ReadProgress | internal/scheduler/backlog.go:53-69 | more listed stories have a body and one it left is stored without |
| Backlogs.Flags.RecordBacklog | internal/scheduler/backlog.go:30-41 | the flag after a stored success |
| Backlogs.DrainsExactly | internal/scheduler/backlog.go:26-69 | a refresh keeps the flag if and only if a queued page gave a body, more listed stories are stored with one, and one it did not queue is stored without |
| Backlogs.DrainingRound | internal/scheduler/backlog.go:43-69 | a refresh that keeps the flag stores more bodies and still leaves room for another |
| Backlogs.DrainEnds | internal/scheduler/backlog.go:43-69 | fewer refreshes in a row keep the flag than there are listed stories or MAX_ITEMS |
| Backlogs.HealthyRound | internal/scheduler/article.go:15-19 | with every page answering and room to store, each round adds up to ten bodies and drains on exactly while more were missing |
| Backlogs.HealthyDrain | internal/scheduler/backlog.go:9-41 | over a healthy source a new feed stores ten bodies more each refresh until all listed stories have one, and asks for the page in full at first and for as long as more are waiting |
| ClassWords.ClassTestAgrees | internal/web/assets/selector-frame.js:127-127 | the class test holds if and only if the class is a word of the attribute between XML white space |
| ClassWords.XmlWordIsClass | internal/web/assets/selector-frame.js:127-127 | whatever the test finds is a class in CSS |
| CssToXPath.PagesAgreeExactly | internal/web/assets/selector-frame.js:107-137 | all supported selectors over a vocabulary select alike on a page if and only if its classes are words in both languages |
| CssToXPath.PathAgrees | internal/web/assets/selector-frame.js:107-137 | a path evaluated from the top selects what the links match from the bottom |
| CssToXPath.CompiledMeansTheSame | internal/web/assets/selector-frame.js:107-137 | groups, descendant and child steps, tags, ids, classes, attributes, positions and nested :has select the same elements, from any scope of such a page |
| CssToXPath.CountsAgreeIsNecessary | internal/web/assets/selector-frame.js:129-136 | any other combination of :nth-of-type counts selects differently on some page |
| CssParseComplete.AcceptsExactlyTheGrammar | internal/web/assets/selector-frame.js:102-137 | the scanners accept exactly the written forms of the grammar, each with one reading |
| CssText.NestingLimit | internal/web/assets/selector-frame.js:107-109 | twelve :has() may stand inside one another, and no more |
| XPathText.LiteralBack | internal/web/assets/selector-frame.js:95-99 | XPath reads every literal back as the value it was made from, and no further |
| XPathRead.PathsBack | internal/web/assets/selector-frame.js:107-137 | a reader of XPath finds in the written text exactly the paths that were written, if no predicate in them is empty, and rejects it otherwise |
| CssCompiler.SplitGroups | internal/web/assets/selector-frame.js:102-106 | the scanner splits at top-level commas and rejects escapes and unbalanced text |
| CssCompiler.ScanCompound | internal/web/assets/selector-frame.js:114-114 | where a compound ends |
| CssCompiler.ScanHas | internal/web/assets/selector-frame.js:131-131 | where a :has() closes |
| CssCompiler.SimpleXPath | internal/web/assets/selector-frame.js:125-134 | one simple selector becomes its predicate or an error |
| CssCompiler.CompoundXPath | internal/web/assets/selector-frame.js:122-137 | a compound becomes its tag with positions first |
| CssCompiler.NextXPath | internal/web/assets/selector-frame.js:113-118 | one turn of the loop over compounds keeps what is still to be written |
| CssCompiler.GroupXPath | internal/web/assets/selector-frame.js:111-119 | a group becomes its path, with each combinator and each error |
| CssCompiler.CssXPath | internal/web/assets/selector-frame.js:107-121 | the compiler's whole answer, recursion and depth limit included |
| CssFaithful.WrittenIsXPath | internal/web/assets/selector-frame.js:102-137 | the text compiled from any accepted selector is XPath if and only if no :has() in it is empty, and then reads as the paths of what the selector denotes |
| CssFaithful.CompilerSelectsDenoted | internal/web/assets/selector-frame.js:102-137 | which then select what it denotes, wherever each compound's counts can be expressed |
| CssFaithful.CompilerIsFaithful | internal/web/assets/selector-frame.js:102-137 | so a selector that CSS reads the same way is compiled to XPath that selects what it means in CSS |
| CssFaithful.GapsReadAlike | internal/web/assets/selector-frame.js:114-117 | any accepted white space between two names is compiled as a descendant step, which is CSS's reading if and only if all of it is CSS white space |
| CssFaithful.DotHasIsIgnored | internal/web/assets/selector-frame.js:108-132 | a compound with :has(.) selects what it would without it |
| FilterText.TrimmingIsAbsorbed | internal/filter/text.go:33-44 | trimming a keyword before normalizing changes nothing |
| FilterText.NormalizedAlike | internal/filter/text.go:33-44 | two texts normalize alike if and only if their words, one space apart, are the same but for case |
| FilterText.FieldsAreSolid | internal/filter/text.go:34-34 | the words are free of white space and together all the rest of the text in order |
| FilterText.FieldsApart | internal/filter/text.go:34-34 | white space anywhere separates words |
| FilterText.JoinedReadsBack | internal/filter/text.go:34-34 | words joined by one space read back as the same words |
| FilterText.TrimmingMeans | internal/filter/filter.go:101-108 | trimming takes white space off both ends and no more |
| FilterText.PartContained | internal/filter/filter.go:156-172 | what a text contains stands in it |
| FilterTree.KeywordMeans | internal/filter/filter.go:101-108 | a keyword is 1 to 256 valid characters between white space |
| FilterTree.WellFormedMeans | internal/filter/filter.go:63-113 | a tree is well-formed if and only if every rule in it is a group of rules with nothing else or a leaf with a known operator, a known field and keywords |
| FilterTree.DepthIsLevels | internal/filter/filter.go:63-83 | the depth counts the levels that rules stand on |
| FilterTree.AcceptableMeans | internal/filter/filter.go:41-61 | both sides together have at most 128 rules, 500 keywords and 8 levels |
| FilterTree.PassingIgnoresCase | internal/filter/text.go:33-44 | what a set passes does not depend on the case of its keywords or of the story |
| FilterTree.LeafReadsItsField | internal/filter/text.go:17-31 | a leaf finds a keyword in its own field and looks at no other |
| Filters.CompileKeywords | internal/filter/filter.go:101-108 | accepts keywords of 1 to 256 valid characters after trimming |
| Filters.CompileRule | internal/filter/filter.go:63-113 | succeeds exactly on a well-formed tree within the depth and the shared budget, and says why not otherwise |
| Filters.CompileRules | internal/filter/filter.go:77-83 | the same for a group's children in order |
| Filters.Compile | internal/filter/filter.go:41-61 | accepts exactly the sets whose sides are well-formed within the shared limits |
| Filters.Subject.Value | internal/filter/text.go:17-31 | the lazy cache gives the normalized field |
| Filters.Match | internal/filter/filter.go:141-174 | early returns decide what the compiled rule says |
| Filters.CompilingKeepsMeaning | internal/filter/filter.go:141-174 | compiled and raw rules match the same stories |
| Filters.Evaluate | internal/filter/filter.go:119-139 | a story passes if and only if the raw set says so, and the reason names the include rules exactly when those kept it out |
| Filters.ReasonNamesTheRule | internal/filter/filter.go:176-195 | the reason names the side, the field of the rule as written and how its keywords were sought |
| CombineFilters.Join | internal/filter/combine.go:40-59 | splices parts with the joining operator and nests the others |
| CombineFilters.Combine | internal/filter/combine.go:13-36 | collects both sides of every set in order |
| CombineFilters.CombiningKeepsMeaning | internal/filter/combine.go:9-36 | a story passes the combined set if and only if it passes the feed's own and every library set |
| CombineFilters.JoinedSize | internal/filter/combine.go:40-59 | nodes, keywords and depth of a join, exactly |
| CombineFilters.CombinedSize | internal/filter/combine.go:9-29 | well-formed sets combine to a set refused only for size, with the same keywords and at most a node and a level more per side |
| Notifications.Compose | internal/notify/notify.go:375-417 | lists server-wide events first, each while it fits, and counts the rest |
| Notifications.MessageSays | internal/notify/notify.go:387-416 | the text is the lines of the listed events, then in numbers how many are not listed, then the library; and what marks it alert or test |
| Notifications.LineStands | internal/notify/notify.go:395-407 | each listed event's line stands in it, in order |
| Notifications.SortingKeepsEvents | internal/notify/notify.go:376-386 | the sort loses no event and keeps the order of both groups |
| Notifications.NtfyBodyFits | internal/notify/notify.go:387-415 | an ntfy body never exceeds 4,000 bytes, whatever the events |
| Notifications.ReserveIsExact | internal/notify/notify.go:386-392 | the bytes reserved are those of the longest count and the library line |
| Notifications.JsonListsGlobals | internal/notify/notify.go:276-279 | a JSON message lists every server-wide event of its batch |
| Notifications.Batch.Add | internal/notify/notify.go:280-291 | keeps, counts and flags an event |
| Notifications.BatchKeepsTheFirst | internal/notify/notify.go:276-291 | a batch keeps the first eight server-wide and 256 feed events in order and counts every other |
| Notifications.Channels.Notify | internal/notify/notify.go:210-230 | queues the event, or counts it as dropped and raises the flag, as one or two of the machine's steps |
| Notifications.Channels.Drain | internal/notify/notify.go:328-340 | after any run that reached the flush, empties both queues into the batch, each in order, as more of the same run |
| Notifications.Channels.Send | internal/notify/notify.go:342-356 | swaps counter and flag, and sends nothing for an empty batch and otherwise one message of all of it, as three more steps of the run |
| Notifications.Channels.Flush | internal/notify/notify.go:328-340 | undisturbed, the flush leaves nothing queued or uncounted: all events ever notified are counted in messages |
| Notifications.EventsAreConserved | internal/notify/notify.go:293-367 | events notified equal the sum of the counts of the messages composed, and those queued, in the batch and dropped but unreported |
| Notifications.NothingLeftBehind | internal/notify/notify.go:293-340 | the worker stops only after draining both queues, and then messages count all that was notified before |
| Notifications.NoEmptyMessage | internal/notify/notify.go:342-356 | a message counts at least one event |
| Notifications.DropsAreCounted | internal/notify/notify.go:210-230 | an event is dropped if and only if its queue holds 256 feed events or eight server-wide ones, and each drop is counted once |
| Notifications.MessagesAreRight | internal/notify/notify.go:342-417 | every message of every run counts all its batch was given and the drops swapped in, is urgent for what its flag stood for, and keeps the size and listing guarantees |
| Notifications.UrgencyHoldsExactly | internal/notify/notify.go:342-356 | for every set of kinds, messages of all runs whose races are of those kinds are as urgent as what they count if and only if none of the kinds needs attention |
| OriginRuns.TwoPerOrigin | internal/fetch/fetch.go:306-330 | at most two requests hold an origin, whose entry exists exactly while it has users |
| OriginRuns.NobodyIsStuck | internal/fetch/fetch.go:314-326 | releasing and leaving never find a count short |
| Origins.Client.Enter | internal/fetch/fetch.go:306-314 | finds or makes the entry and counts a user, as the machine's step |
| Origins.Client.TryAcquire | internal/fetch/fetch.go:323-325 | a place is taken exactly when the machine allows it |
| Origins.Client.ReleaseUser | internal/fetch/fetch.go:315-322 | leaving keeps the map and its entries the machine's |
| Origins.Client.Release | internal/fetch/fetch.go:323-325 | giving back the place and then the entry are two steps that are always possible |
| Snapshot.Walker.Walk | internal/web/selector.go:84-142 | the recursive walk appends what the definition says or reports its error |
| Snapshot.TagsAre | internal/web/selector.go:38-38 | a supported tag is a small letter, then such letters, digits and hyphens |
| Snapshot.LimitsAreExact | internal/web/selector.go:84-96 | which pages the walk accepts, exactly |
| Snapshot.Page.Append | internal/web/assets/selector-frame.js:20-28 | one round of the loop that attaches mirror nodes |
| Snapshot.Page.Build | internal/web/assets/selector-frame.js:14-34 | the mirror built from a list, or an exception |
| Snapshot.RoundTrip | internal/web/selector.go:82-146 | the mirror is the page with comments dropped and hidden elements cut to themselves |
| Snapshot.CutMeans | internal/web/selector.go:98-141 | an element is cut to itself if and only if it is foreign or active, and otherwise keeps its children |
| Snapshot.NothingActiveCrosses | internal/web/selector.go:18-24 | whatever the page, active elements stand in the mirror without content at any depth |
| Snapshot.PositionsAgree | internal/web/selector.go:20-24 | sibling elements keep order and number |

## Left out

- StoredFeeds.StoredFeed.Complete: error texts, ETag and source validators, next_run, jitter and backoff delays are not stored; schedules do not decide whether a step is possible here. A transaction reads the clock once and is atomic; database errors, commit ambiguity and row locks are not modelled.
- StoredFeeds.StoredFeed.Save: library links, validators and next_run, as for Complete.
- StoredFeeds.StoredFeed.ApplyFilterEdit: the check that the feed is linked, validators and next_run, as for Complete.
- StoredFeeds.StoredFeed.PruneFilteredHistory: the refusal past 10,000 stories belongs to Save and ApplyFilterEdit here, which roll back.
- StoredFeeds.StoredFeed.MergeStories: text cleaning on the way in (readableText) is not modelled, SHA-256 is taken as injective, and a refresh lists each key once, as the extractor ensures.
- History.NotModifiedIsExact: readers that send their own date, If-None-Match, and the rotatable token are not modelled; change times after the year 9999 are excluded.
- CssToXPath.CompiledMeansTheSame: pages that do not separate their classes and compounds whose repeated counts cannot agree are excluded, each with its exact condition proved.
- CssFaithful.CompilerIsFaithful: covers selectors whose attribute values, spaces and :has() arguments are also valid CSS with the same reading; the scanners accept a little more, as described above.
- CssCompiler.CssXPath: the text of error messages, and CSS and XPath constructs outside the compiler's subset.
- Alerts.Reports.AlertRefresh: the not_saved and database events, which are limited to one an hour, and holds after a refused write.
- ProtocolRuns.StartsOnlyFromALaterList: due times, pauses and the order of the list only remove starts, and are not modelled.
- RemoteSolves.RemoteIsBounded: that the remote stops within maxTimeout and starts no later than grace after a failure is assumed, as the source says.
- Backlogs.FetchArticles: the warnings for articles that failed; workers run one after another here, since each fills its own story, and one clock reading serves the whole list.
- Backlogs.DrainEnds: the read of article states before a round is taken to succeed; when it fails, any stored body counts as progress.
- Backlogs.FullRequestsEnd: the same read, and a source that answers a conditional request with the page in full, are not modelled.
- Filters.Match: strings are compared rune by rune; simple-fold tables and HTML text extraction are parameters.
- Notifications.Channels.Notify: shortening and redacting the event's texts, and other goroutines between its two steps, which the runs allow.
- Notifications.EventsAreConserved: delivery attempts and what a closing server abandons.
- Notifications.Compose: the sentences for each kind of event are a parameter, so the bounds hold for any of them.
- Origins.Client.TryAcquire: waiting on the semaphore is a step that is possible only while a place is free.
- Snapshot.Walker.Walk: attributes, and the marks for links and dates.
- Snapshot.Page.Append: attributes and the visible page.
- Snapshot.Page.Build: attribute filtering, metadata and the visible page.
- HTTP, DNS, TLS, Chromium, HTML parsing and sanitizing, OPML, backup, metrics, configuration and the rest of the browser interface.
- Calendar arithmetic of relative dates, which would only add easy members.
