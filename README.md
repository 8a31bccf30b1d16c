# A/B test behaviour pipeline — a Dafny model

This project models the logic behind the portal-service A/B test demo:
- how a visitor is given variant A or B;
- how the in-browser recorder logs clicks, scrolls, page views, exit intents and conversions;
- the rules that decide when the feedback prompt pops up, and the prompt's own state machine;
- the browser cache the records are written to;
- the ingestion endpoints that store records and list them back. These exist twice: as Next routes and as Netlify functions. The Netlify functions choose between a remote table and their own memory.
- the per-variant aggregator (mean rating, mean time on page, conversion percentage, engagement score, counts) and the analysis page that chooses between the server's answer and the cached data.

Layout, one module per source file:

| Dafny file | module | source |
|---|---|---|
| types.dfy | `Types` | app/behavior/types.ts |
| seqs.dfy | `Seqs` | the list operations the source uses (`filter`, `map`, `reduce`), with their lemmas |
| utils.dfy | `Utils` | app/behavior/utils.ts |
| client_storage.dfy | `Storage` | app/lib/client-storage.ts |
| remote.dfy | `Remote` | the two readers of app/lib/supabase-storage.ts |
| tracker.dfy | `Tracker` | app/behavior/tracker.ts |
| feedback_manager.dfy | `FeedbackManager` | app/behavior/feedback-manager.ts |
| ab_test.dfy | `ABTest` | app/components/ABTestWrapper.tsx |
| feedback_collector.dfy | `FeedbackCollector` | app/components/FeedbackCollector.tsx |
| http.dfy | `Http` | the request methods and listing sources the Netlify functions share |
| behavior_route.dfy | `BehaviorRoute` | app/api/behavior/route.ts |
| netlify_behavior.dfy | `NetlifyBehavior` | netlify/functions/api-behavior.ts |
| feedback_route.dfy | `FeedbackRoute` | app/api/feedback/route.ts |
| netlify_feedback.dfy | `NetlifyFeedback` | netlify/functions/api-feedback.ts |
| metrics.dfy | `Metrics` | the aggregator that app/api/feedback/analysis/route.ts, netlify/functions/api-feedback-analysis.ts and app/analysis/page.tsx each contain a copy of |
| analysis_route.dfy | `AnalysisRoute` | app/api/feedback/analysis/route.ts |
| netlify_analysis.dfy | `NetlifyAnalysis` | netlify/functions/api-feedback-analysis.ts |
| analysis_page.dfy | `AnalysisPage` | app/analysis/page.tsx |

Modelling choices:
- Code that updates state in place is a class whose methods carry `modifies` clauses:
  - the recorder (`Tracker.BehaviorTracker`);
  - the browser cache (`Storage.ClientStorage`);
  - the endpoints' module-level lists (`BehaviorRoute.BehaviorStore`, `FeedbackRoute.FeedbackStore`, the two `Handler`s);
  - the wrapper (`ABTest.Wrapper`), the prompt (`FeedbackCollector.Collector`) and the analysis page (`AnalysisPage.Page`).
- Every such method is proved against a pure function or a state-machine step. The properties are proved about that function or step.
- Inputs the code reads from its environment are parameters. These are the clock (`now`), `Math.random()` (`coin`), the generated session id, the window width, and whether a window exists. They also include the outcome of every remote write and read.
- A remote table is a parameter (`Remote.Table`): its rows, or why the query did not succeed. The readers (`Remote.ReadBehaviors`, `Remote.ReadFeedbacks`) keep the rows of the requested variant when it is truthy, and answer every failure with an empty list. So "failed" and "no row matched" cannot be told apart, as in the code.
- Strings that JavaScript tests for truthiness are `string`. A missing or null field is the empty string.
- Record variants are strings, because a stored value is reused unvalidated. `Types.Variant` is used where the code checks for "A" or "B".
- Ratings are `Option<real>`. `None` stands for absent, null or NaN.
- All means and percentages are `real`.
- The Netlify behaviour function has its own copy of the server feedback rule (netlify/functions/api-behavior.ts:9-40). That copy is identical to the Next route's, so both use `BehaviorRoute.ShouldRequestFeedback`.

Where the design documentation and the code disagree, the model follows the code:
- The client's exit rule requires an exit event at least 1 ms into its page view. The client has no conversion rule. The documented exit rule is "any exit event", and the documented rule set includes a conversion rule. Only the server routes follow the documentation here (`BehaviorRoute.WhereRulesDiffer`).
- The documentation says a prompt that was dismissed must not fire again. In the code, closing the prompt leaves `submitted` false, so the next check that fires shows it again (`FeedbackCollector.CloseThenFireReprompts`).
- The documentation requires a re-entrancy guard on sending a snapshot. The code has none. Each call of `SendBehaviorData` saves its own snapshot.
- The documentation says a remote query that succeeds with zero rows is authoritative. In the code, an empty remote list falls back to memory (`NetlifyBehavior.ListBehaviors`, `NetlifyFeedback.ListFeedbacks`). In the analysis function it yields all zeros (`NetlifyAnalysis.Handle`).

## Model

| member | source | states |
|---|---|---|
| Types.Variant.Tag | app/behavior/types.ts:12 | the tag of a variant is a one-letter, truthy string |
| Types.ParseVariant | app/api/feedback/analysis/route.ts:9 | a variant string names a variant exactly when it is "A" or "B", and the variant's tag gives the string back |
| Types.ZeroAnalysis | app/behavior/feedback-manager.ts:121-131 | the fallback analysis has the requested variant and all six numbers zero |
| Utils.GetDeviceType | app/behavior/utils.ts:5-12 | no window gives desktop; otherwise a width below 768 gives mobile, a width from 768 below 1024 gives tablet, and 1024 or more gives desktop, each as an if-and-only-if |
| Utils.BeforeFirstDash | app/behavior/utils.ts:16 | the result is a dash-free prefix of the id that is the whole id or is followed by a dash |
| Utils.GetVariant | app/behavior/utils.ts:14-18 | an unparseable prefix gives B; a parsed prefix gives A exactly when it is even |
| Utils.Decimal | app/behavior/utils.ts:2 | the millisecond part of a generated id is a non-empty run of decimal digits with no dash |
| Utils.ParseDecimal | app/behavior/utils.ts:17 | `parseInt` reads the decimal rendering of n back as n |
| Utils.VariantIgnoresSuffix | app/behavior/utils.ts:16-17 | the variant does not depend on anything after the first dash |
| Utils.ParityOfGeneratedId | app/behavior/utils.ts:1-3 | for an id "<n>-<suffix>" as generated, the variant is A exactly when n is even |
| Storage.Read | app/lib/client-storage.ts:23-29 | a parsed list is returned as stored; an absent key or corrupt text reads as the empty list |
| Storage.ClientStorage.constructor | app/lib/client-storage.ts:3-4 | the cache starts from the two keys' current contents |
| Storage.ClientStorage.GetBehaviors | app/lib/client-storage.ts:20-30 | empty without a window or with corrupt or absent data; otherwise the stored list |
| Storage.ClientStorage.GetFeedbacks | app/lib/client-storage.ts:48-58 | empty without a window or with corrupt or absent data; otherwise the stored list |
| Storage.ClientStorage.GetBehaviorsByVariant | app/lib/client-storage.ts:32-34 | a record is listed exactly when it is stored and has the requested variant |
| Storage.ClientStorage.GetFeedbacksByVariant | app/lib/client-storage.ts:60-62 | a record is listed exactly when it is stored and has the requested variant |
| Storage.ClientStorage.SaveBehavior | app/lib/client-storage.ts:8-18 | a successful save appends the record and touches nothing else; a corrupt list is replaced by a one-element list; the variant listings grow by the record in its own variant only; with no window or a failing write nothing changes |
| Storage.ClientStorage.SaveFeedback | app/lib/client-storage.ts:36-46 | the same as for behaviours, on the feedback key only |
| Storage.ClientStorage.ClearAll | app/lib/client-storage.ts:64-68 | with a window both keys are removed; both lists read empty afterwards |
| Storage.SavedBehaviorByVariant | app/lib/client-storage.ts:12-14 | after a save, a variant's listing is its old listing plus the record exactly when the record has that variant |
| Storage.ByVariantKeepsCounts | app/lib/client-storage.ts:32-62 | each by-variant reader keeps every stored record of the variant as many times as it is stored, and no record of another variant |
| Remote.ReadBehaviors | app/lib/supabase-storage.ts:57-107 | a record is read exactly when the query succeeded, it is a row of the table, and it has the requested variant when that is truthy; without a variant all rows come back in order; any failure gives the empty list |
| Remote.ReadFeedbacks | app/lib/supabase-storage.ts:155-202 | the same for feedback rows |
| Remote.OtherVariantsAreNotRead | app/lib/supabase-storage.ts:68-72 | rows of other variants added to a table change nothing in what a query for a variant returns |
| Tracker.CurrentViewHasNoView | app/behavior/tracker.ts:94-107 | the events of the current page view contain no view event, since each view starts a new one |
| Tracker.CurrentViewIsSuffix | app/behavior/tracker.ts:94-107 | the current page view is a suffix of the log, preceded by a view event or by nothing |
| Tracker.CurrentViewExtends | app/behavior/tracker.ts:77 | a non-view event extends the current page view by itself |
| Tracker.DeepestScrollIsMaximum | app/behavior/tracker.ts:81-84 | the running maximum of scroll depths is at least 0, at least every recorded depth, and either 0 or one of them |
| Tracker.AddPage | app/behavior/tracker.ts:96 | adding a page keeps the list duplicate-free, contains exactly the old pages and the new one, and keeps the old order |
| Tracker.AppendOnPage | app/behavior/tracker.ts:109-126 | an exit or conversion event on the current page keeps the counters equal to the summary of the log without changing them |
| Tracker.AppendClick | app/behavior/tracker.ts:69-79 | a click on the current page keeps the counters the summary of the log with the click count one higher |
| Tracker.AppendScroll | app/behavior/tracker.ts:81-92 | a scroll on the current page keeps the counters the summary of the log with the deepest scroll raised to its depth when deeper |
| Tracker.AppendAny | app/behavior/tracker.ts:69-126 | any non-view event extends the current page view by itself, adds one click exactly when it is a click, raises the deepest scroll only for a deeper scroll, and adds no visited page |
| Tracker.AppendView | app/behavior/tracker.ts:94-107 | a view event resets the counters to the summary of an empty page view and adds its page to the visited pages |
| Tracker.BehaviorTracker.constructor | app/behavior/tracker.ts:14-21 | the session id and variant are fixed; the first page is visited; with a window one view event is logged |
| Tracker.BehaviorTracker.TrackClick | app/behavior/tracker.ts:69-79 | exactly one click event is appended, stamped `now − pageStartTime` on the current page; the click count rises by one; the counters stay the summary of the log |
| Tracker.BehaviorTracker.TrackScroll | app/behavior/tracker.ts:81-92 | one scroll event carrying the depth is appended; the deepest scroll becomes the larger of the old value and the depth, so it never decreases within a page view |
| Tracker.BehaviorTracker.TrackPageView | app/behavior/tracker.ts:94-107 | the current page becomes p; p joins the visited set; the page clock restarts; both counters reset to 0; a view event stamped 0 is appended |
| Tracker.BehaviorTracker.TrackExitIntent | app/behavior/tracker.ts:109-116 | one exit event is appended and no counter changes |
| Tracker.BehaviorTracker.TrackConversion | app/behavior/tracker.ts:118-126 | one conversion event carrying the goal is appended and no counter changes |
| Tracker.BehaviorTracker.CurrentBehavior | app/behavior/tracker.ts:128-148 | the snapshot's time on page is `now − pageStartTime`; its click count and scroll depth are computed from the log's current page view; its visited pages are exactly the first page and the viewed pages, each once; the snapshot changes nothing |
| Tracker.BehaviorTracker.SendBehaviorData | app/behavior/tracker.ts:150-205 | the snapshot is saved to the cache before any remote attempt; the attempts are the cache, the mock service and the endpoint in that order; a failed attempt is only recorded |
| FeedbackManager.CheckFeedbackTriggers | app/behavior/feedback-manager.ts:11-54 | the answer is true exactly when some rule that applies to the session's variant holds |
| FeedbackManager.DefaultRule | app/behavior/feedback-manager.ts:4-9 | with the default rules, the prompt fires exactly when time ≥ 30000, scroll ≥ 50, clicks ≥ 5, or an exit event stamped ≥ 1 exists |
| FeedbackManager.DefaultIgnoresVariant | app/behavior/feedback-manager.ts:16-18 | no default rule is scoped, so the session's variant never changes the answer |
| FeedbackManager.ConversionAloneNeverFires | app/behavior/feedback-manager.ts:4-9 | conversions alone never prompt |
| FeedbackManager.ExitAtZeroDoesNotFire | app/behavior/feedback-manager.ts:36-39 | an exit stamped 0 does not meet the exit threshold of 1 |
| FeedbackManager.TimeBoundary | app/behavior/feedback-manager.ts:21-25 | with nothing else recorded, 29999 ms does not prompt and 30000 ms does |
| FeedbackManager.CollectFeedback | app/behavior/feedback-manager.ts:56-111 | the record copies the session, variant and summary from the snapshot, and the rating, comment and question from the answer; it is saved to the cache before the remote attempts; the attempts are in order |
| FeedbackManager.AnalyzeVariantFeedback | app/behavior/feedback-manager.ts:113-157 | an HTML error page or a TypeError about `fetch` yields the zero analysis of the requested variant; an ok reply yields its body; every other case raises, as an if-and-only-if |
| ABTest.StorageKey | app/components/ABTestWrapper.tsx:30 | the key is "ab-test-" followed by the test name |
| ABTest.SelectVariant | app/components/ABTestWrapper.tsx:29-46 | a forced variant wins and is written; else a truthy stored value is reused verbatim and nothing is written; else a coin below 0.5 gives A, otherwise B, and it is written; in every branch the key holds the choice and no other key changes |
| ABTest.SelectionSticks | app/components/ABTestWrapper.tsx:38-39 | after one selection, an unforced later selection returns the same variant and leaves storage unchanged, whatever its coin |
| ABTest.Shown | app/components/ABTestWrapper.tsx:73 | A's content is shown exactly when the chosen value is "A"; every other value shows B's |
| ABTest.Wrapper.constructor | app/components/ABTestWrapper.tsx:21-23 | no variant, not on the client, no tracker |
| ABTest.Wrapper.RunEffect | app/components/ABTestWrapper.tsx:26-56 | the variant and session storage are those of `SelectVariant`; the first run creates a tracker with the chosen variant, one view event, the path as its only visited page and its page clock at `now`; a later run logs a page view on the same tracker, which keeps its original variant, adds the path to its visited pages, restarts its page clock at `now` and zeroes its counters; afterwards the content renders |
| ABTest.Wrapper.Cleanup | app/components/ABTestWrapper.tsx:59-63 | with a tracker its snapshot is appended to the cache unless there is no window or the write fails, when the cache is unchanged; the attempts are the cache, the mock service (with a window) and the endpoint, in that order; with no tracker nothing is saved or sent |
| FeedbackCollector.StepKeepsGood | app/components/FeedbackCollector.tsx:88-99 | every event keeps the rating within 0 to 5, at least 1 once submitted, with no submission left in flight |
| FeedbackCollector.ReachableIsGood | app/components/FeedbackCollector.tsx:14-17 | from the initial state every reachable state is good; a submitted rating is between 1 and 5 |
| FeedbackCollector.SubmittedIsFinal | app/components/FeedbackCollector.tsx:29 | once submitted and hidden, no sequence of events shows the prompt again or changes the submitted rating and comment |
| FeedbackCollector.AppearsOnlyOnFire | app/components/FeedbackCollector.tsx:28-40 | the prompt becomes visible only through a check that fires while it is hidden and not submitted |
| FeedbackCollector.CloseThenFireReprompts | app/components/FeedbackCollector.tsx:68-70 | closing hides the prompt, and the next firing check restores it exactly, with the stars and comment entered before |
| FeedbackCollector.Collector.constructor | app/components/FeedbackCollector.tsx:14-17 | the prompt starts hidden, not submitted, not submitting, with no rating and no comment |
| FeedbackCollector.Collector.Tick | app/components/FeedbackCollector.tsx:28-41 | the new state is the step on a check whose result is the client rule on the tracker's snapshot |
| FeedbackCollector.Collector.ChooseRating | app/components/FeedbackCollector.tsx:88-99 | the new state is the step on a star click |
| FeedbackCollector.Collector.EditComment | app/components/FeedbackCollector.tsx:111-113 | the new state is the step on an edit of the comment |
| FeedbackCollector.Collector.HandleClose | app/components/FeedbackCollector.tsx:68-70 | the new state is the step on a close |
| FeedbackCollector.Collector.HideTimerFires | app/components/FeedbackCollector.tsx:63-65 | the new state is the step on the hide timer |
| FeedbackCollector.Collector.HandleSubmit | app/components/FeedbackCollector.tsx:46-66 | a record is sent exactly when the button is enabled; it carries the tracker's session, variant and current summary, the time `now`, the rating (between 1 and 5), the comment and the question; it is appended to the cached feedback unless there is no window or the write fails, when that cache is unchanged; the behaviour cache never changes; the attempts are the cache, the mock service and the endpoint in order, none when nothing is sent; the prompt ends submitted, hidden and not submitting |
| BehaviorRoute.ClientImpliesServer | app/api/behavior/route.ts:66-97 | whenever the client rule fires, the server rule does too |
| BehaviorRoute.WhereRulesDiffer | app/api/behavior/route.ts:84-95 | the server fires and the client does not exactly when every counter is under its threshold, no exit stamped ≥ 1 exists, and an earlier exit or a conversion exists |
| BehaviorRoute.DifferingWitnesses | app/api/behavior/route.ts:85-95 | a lone exit stamped 0, or a lone conversion, prompts on the server but not on the client |
| BehaviorRoute.Select | app/api/behavior/route.ts:45-58 | a record is listed exactly when it is stored and passes both the session and the variant parameter; with neither parameter the whole store is listed |
| BehaviorRoute.SelectKeepsOrder | app/api/behavior/route.ts:50-58 | the two filters in a row are one filter on both conditions, in store order |
| BehaviorRoute.BehaviorStore.constructor | app/api/behavior/route.ts:6 | the store starts empty |
| BehaviorRoute.BehaviorStore.Post | app/api/behavior/route.ts:13-35 | a falsy session id or variant is refused and nothing is stored; otherwise the record is appended, and the reply carries the server rule and the new store length |
| BehaviorRoute.BehaviorStore.Get | app/api/behavior/route.ts:45-64 | the count is the length of the listing, which is the selection of the store |
| NetlifyBehavior.Response.StatusCode | netlify/functions/api-behavior.ts:52-154 | 200 for the preflight, a store or a listing; 400 for an invalid record; 405 for another method |
| NetlifyBehavior.ListBehaviors | netlify/functions/api-behavior.ts:99-147 | the source is remote exactly when the remote query for the variant yields rows, which are then filtered by session; otherwise memory filtered by session and variant; the count is the listing's length |
| NetlifyBehavior.ListingIsTheQuery | netlify/functions/api-behavior.ts:99-147 | from either source, the listing is the Next route's session-and-variant selection of that source's records, so every listed record has the requested session and variant |
| NetlifyBehavior.MemoryFallbackMatchesNextRoute | netlify/functions/api-behavior.ts:129-147 | when the remote query yields nothing, the listing is exactly what the Next route lists for the same store, tagged as memory |
| NetlifyBehavior.Handler.constructor | netlify/functions/api-behavior.ts:7 | memory starts empty |
| NetlifyBehavior.Handler.Handle | netlify/functions/api-behavior.ts:42-154 | OPTIONS gives the preflight; an invalid POST gives 400 and appends nothing; a valid POST appends to memory before the remote save, and the reply does not depend on that save; GET gives `ListBehaviors`; other methods give 405 |
| FeedbackRoute.Select | app/api/feedback/route.ts:42-46 | a truthy variant lists exactly the stored records of that variant, in order; otherwise the whole store |
| FeedbackRoute.SelectSplitsByVariant | app/api/feedback/route.ts:44-46 | when every stored variant is A or B, the two listings together have as many records as the store |
| FeedbackRoute.FeedbackStore.constructor | app/api/feedback/route.ts:3 | the store starts empty |
| FeedbackRoute.FeedbackStore.Post | app/api/feedback/route.ts:10-28 | a falsy session id or variant is refused and nothing is stored; otherwise the record is appended and the count is the new length |
| FeedbackRoute.FeedbackStore.Get | app/api/feedback/route.ts:38-52 | the count is the length of the listing; without a variant the whole store is listed |
| NetlifyFeedback.ListFeedbacks | netlify/functions/api-feedback.ts:61-98 | the source is remote exactly when the remote query for the variant yields rows, returned as they came; otherwise memory filtered by variant |
| NetlifyFeedback.ListingIsTheQuery | netlify/functions/api-feedback.ts:61-98 | from either source, the listing is the Next route's variant selection of that source's records, so for a given variant every listed record has it |
| NetlifyFeedback.Handler.constructor | netlify/functions/api-feedback.ts:6 | memory starts empty |
| NetlifyFeedback.Handler.Handle | netlify/functions/api-feedback.ts:17-105 | OPTIONS gives the preflight; an invalid POST appends nothing; a valid POST appends and reports the new length, whatever the remote save does; GET gives `ListFeedbacks`; other methods give 405 |
| Metrics.Percent | app/api/feedback/analysis/route.ts:48-51 | a percentage of a part of a whole lies between 0 and 100; it is 0 for an empty whole and 100 when the part is the whole |
| Metrics.Analyze | app/api/feedback/analysis/route.ts:25-74 | the analysis carries the variant and both record counts; the conversion rate lies between 0 and 100; with no behaviours every behaviour metric is 0; with no rating the mean rating is 0; with no records it is the zero analysis |
| Metrics.RatingWithinBounds | app/api/feedback/analysis/route.ts:29-35 | if every present rating lies in [lo, hi] and one is present, the mean rating does too |
| Metrics.OrderIndependent | app/analysis/page.tsx:27-73 | two arrangements of the same records give the same analysis |
| Metrics.EngagementExample | app/api/feedback/analysis/route.ts:54-62 | sessions with 0, 5 and 10 clicks and 0, 50 and 100 percent scrolled have engagement 100 |
| Metrics.ConversionExample | netlify/functions/api-feedback-analysis.ts:79-85 | of two sessions, one with a conversion, the rate is 50 |
| AnalysisRoute.OrEmpty | app/api/feedback/analysis/route.ts:25-26 | a missing list counts as empty |
| AnalysisRoute.AnalyzeRequest | app/api/feedback/analysis/route.ts:4-76 | anything but "A" or "B" is refused, as an if-and-only-if; otherwise the report is for that variant, with counts that are the lengths of the two lists |
| AnalysisRoute.EndToEnd | app/api/feedback/analysis/route.ts:17-26 | served by the Next routes, a variant's analysis is the aggregate of exactly the stored records of that variant |
| NetlifyAnalysis.Handle | netlify/functions/api-feedback-analysis.ts:15-116 | OPTIONS gives the preflight and every method but GET gives 405; an invalid variant is refused; the report is the aggregate of the two tables' rows of the requested variant, and the zero analysis when there are none |
| NetlifyAnalysis.OtherVariantsDoNotCount | netlify/functions/api-feedback-analysis.ts:42-110 | rows of another variant added to either table leave the report of a variant unchanged |
| NetlifyAnalysis.AgreesWithNextRoute | netlify/functions/api-feedback-analysis.ts:60-110 | fed the lists read from the same tables, the function and the Next route refuse the same variants and report the same analysis |
| AnalysisPage.LocalAnalysis | app/analysis/page.tsx:21-24 | the local analysis of a variant counts exactly that variant's cached records |
| AnalysisPage.Loaded | app/analysis/page.tsx:16-138 | an outer failure gives both zero analyses; an unreachable server keeps both local results; otherwise each variant takes its own usable JSON answer wholesale, or keeps its local result |
| AnalysisPage.NoMerge | app/analysis/page.tsx:88-106 | one variant's answer never changes what is shown for the other |
| AnalysisPage.EmptyCacheNoServer | app/analysis/page.tsx:75-76 | an empty cache with no server shows all zeros for both variants |
| AnalysisPage.Page.constructor | app/analysis/page.tsx:8-10 | no results and loading |
| AnalysisPage.Page.FetchAnalysis | app/analysis/page.tsx:16-142 | both results are set to `Loaded` and loading ends |
| AnalysisPage.ComparisonRows | app/analysis/page.tsx:252-277 | four rows: rating, time, conversion and engagement, in that order |
| AnalysisPage.Winner | app/analysis/page.tsx:291 | A wins exactly when its value is strictly greater; a tie goes to B |
| AnalysisPage.Difference | app/analysis/page.tsx:292 | the difference is non-negative and is one of the two differences |
| AnalysisPage.SwapChangesWinner | app/analysis/page.tsx:291-292 | swapping the sides changes the winner exactly when the values differ, and keeps the difference |
| AnalysisPage.SecondsRowFollowsMilliseconds | app/analysis/page.tsx:259-264 | showing time in seconds keeps the winner, and scales the difference by 1000 |
| AnalysisPage.IdenticalFavoursB | app/analysis/page.tsx:290-292 | identical analyses give B with difference 0 in every row |

## Left out

- DOM wiring of the recorder: event listeners, the 30-second interval, and computing the scroll percentage from window geometry. Each handler is a direct method call, with `now` and the depth as arguments.
- Network fan-out of `sendBehaviorData` and `collectFeedback`: dynamic imports, `fetch`, logging. It is kept only as the ordered list of attempts and whether each was delivered.
- app/lib/mockapi.ts and app/lib/supabase-client.ts are not part of this model, nor are the save functions of app/lib/supabase-storage.ts. Their effect is a delivered flag.
- `Remote.ReadBehaviors` and `Remote.ReadFeedbacks`: the query's newest-first order is not computed; the table's rows are taken to be in that order already. The conversion of a row into a record, with its defaults for missing fields, is taken to be the identity.
- `ABTest.Wrapper.Cleanup` accepts a cache without a window although `RunEffect` always builds the tracker as if there were one. The source reads both from the same `typeof window`, so that pairing cannot arise there; the model does not tie the two together.
- `Storage.Slot`: a key holding valid JSON that is not a list is not modelled. Reading it by variant throws in the source; on the analysis page that is one of the throws `outerThrows` stands for.
- app/lib/storage.ts is not part of this model. Its two module-level lists are the `items` fields of the store classes.
- The clock, randomness and `generateSessionId` are parameters. The constructor's two clock readings are collapsed into one `now`. Only the shape of a generated id, "<decimal>-<suffix>", is modelled.
- JSON parse errors of request bodies, bodies that are not objects, records whose `summary` or `events` is missing, CORS headers and the 500 catch-all paths.
- JavaScript doubles: means and percentages are exact reals. `parseInt` is exact beyond 2^53.
- NaN: a rating that is NaN, missing or null is `None`. JSON cannot carry NaN, so the Netlify function's NaN-to-0 normalisation is the identity on every input the model admits, and the three aggregator copies coincide.
- Aliasing: the snapshot's `events` is a value, not the tracker's live array.
- React rendering: the loading placeholder, star rendering, `toFixed` formatting and the success message. Only the render guards are kept (`ABTest.Wrapper.Renders`, `FeedbackCollector.Collector.Renders`, `AnalysisPage.Page.ShowsComparison`).
- `FeedbackCollector.Collector.HandleSubmit` does not model the null check on the manager reference. The manager is created in the first effect run, before any button can be pressed.
- Interleaving during `await`: each handler and each effect runs to completion, so a check that fires during a pending submission is not modelled.
- `FeedbackCollector.Collector.HandleSubmit` requires a reachable prompt state (`Good`). `FeedbackCollector.ReachableIsGood` proves every state reached from the initial one meets it.
- `AnalysisPage.Loaded`: a body that is not valid JSON is a reply whose `json` is `None`, the same as a parse failure; the body of a usable reply is taken to be an analysis, as the page does without checking.
