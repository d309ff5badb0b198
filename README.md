# Live comments teleprompter: the shared-store state machine

This project models the core of a browser teleprompter. The teleprompter polls the Graph API for a post's comments and reactions. Three cooperating views show them: the main window, the teleprompter frame and the moderator pop-up. All three hold one shared store (`window.shared`). The store has these parts:

- a configuration record;
- a comment table keyed by `id`;
- a reaction-count map;
- an optional current post;
- a pub/sub bus.

The model covers every sequential step that changes that store:

- ingesting a poll cycle's responses, and the delay before the next cycle;
- the reset on a change of the URL fragment;
- the moderator's prioritize, delete, manual-comment and auto-refresh actions;
- the teleprompter's refresh and its per-frame countdown;
- the shared flip and clicker controls.

It also covers the older single-page version in `js/main.js`:

- its configuration in local storage;
- its checks on API responses;
- its refresh cycle and countdown.

Layout, one module per file:

- `wrappers.dfy`: `Option` and `Result`.
- `text.dfy`: JavaScript's `trim`, decimal digits and number-to-string.
- `comments.dfy`: the comment table. This covers merge-by-id, update-by-id, insert, and the non-deleted list ordered by priority descending, then creation time descending.
- `shared.dfy`: the configuration defaults and the `Store` class. The class holds the store's fields and the bus. The bus is an append-only log of topics plus the pending `once` handlers.
- `index.dfy`, `moderate.dfy`, `teleprompter.dfy`, `controls.dfy`: one module for each of `src/js/index.js`, `moderate.js`, `teleprompter.js` and `CommonControls.js`.
- `legacy.dfy`: `js/main.js`.

Handlers that change the store are methods. Each one takes the `Store` and states the store's whole new state in terms of the old one, field by field (the scenario `Teleprompter.RefreshThenCommentsArrive` included). The display lists, titles, styles and frame decisions are functions, and lemmas state their properties.

Design choices:

- **Merging keeps moderation state.** A poll cycle merges an object that carries only `id`, `created`, `name` and `message`. The model therefore leaves `deleted` and `priority` of an existing record as they were. A new record gets the table template's `deleted: false` and `priority: 0`. One might expect a merge to overwrite every field. It writes only the fields of the object it is given, so `deleted` and `priority` stay (see `Comments.Refreshed`).
- **Ids may repeat.** The table does not enforce unique ids. A manual comment is inserted without any check, and an update by id changes every record with that id. So the model allows duplicates. The lemmas state when ids stay unique.
- **Reaction keys are written one at a time.** Each successful reaction request writes its own key. A failed request leaves that type's old count, and only a post switch empties the map. The map is therefore not replaced wholesale on each cycle.
- **Table changes are debounced.** Each change sets a "dirty" flag. One debounced `commentsUpdate` clears it (`Shared.Store.FlushCommentsUpdate`).

## Model

| member | source | states |
|---|---|---|
| Shared.InitialConfig | src/js/index.js:16-26 | each persisted key overrides its default; each absent key keeps autoRefresh=true, flips false, refreshInterval=10000, textMode=false, zoom=1 |
| Shared.Persist | src/js/index.js:342-343 | `JSON.stringify(config)` writes every key |
| Shared.PersistRoundTrip | src/js/index.js:342-343 | the configuration saved on unload is exactly the configuration the next load starts with |
| Shared.Store.constructor | src/js/index.js:15-48 | a new store has the merged configuration, an empty table and map, no post, no refresh time and an empty bus |
| Shared.Store.Emit | src/js/teleprompter.js:61 | emitting logs the topic; a commentsUpdate also runs and consumes every pending once-handler, and each one emits teleprompterRefresh |
| Shared.Store.TableChanged | src/js/index.js:43 | a table change marks a debounced commentsUpdate as pending |
| Shared.Store.FlushCommentsUpdate | src/js/index.js:43 | the debounced firing emits one commentsUpdate however many changes came before it, and only if one did |
| Text.TrimStart | src/js/index.js:103 | leading trim: a suffix of the input; everything removed is whitespace; the result does not start with whitespace |
| Text.TrimEnd | src/js/index.js:103 | trailing trim: a prefix of the input; everything removed is whitespace; the result does not end with whitespace |
| Text.BlankIffAllSpaces | src/js/index.js:103 | a message is thrown out exactly when every character is whitespace or a line terminator |
| Text.DecimalString | src/js/moderate.js:64 | the number's text is non-empty digits, denotes the number and has no leading zero |
| Text.LeadingDigits | src/js/index.js:263 | greedy `[0-9]+`: the longest digit prefix |
| Comments.RefreshAll | src/js/index.js:106-111 | the update step of a merge by id rewrites every record with that id and leaves every other record as it was |
| Comments.Merge | src/js/index.js:106-111 | `merge(..., 'id')`: the table grows by one record exactly when the id was absent, and no existing record changes its id |
| Comments.MergeStores | src/js/index.js:106-111 | after a merge a record with the id exists with the incoming created, name and message; a new id is appended with deleted=false and priority=0; an existing one keeps its deleted and priority |
| Comments.MergeKeepsOthers | src/js/index.js:106-111 | a merge grows the table by at most one record and leaves records with other ids in place |
| Comments.MergeCount | src/js/index.js:106-111 | after a merge the merged id occurs once if it was absent and as often as before otherwise; other ids' counts do not change |
| Comments.MergeSameIdTwice | src/js/index.js:106-111 | merging the same id twice into a table without it leaves exactly one record with that id |
| Comments.MergeKeepsUnique | src/js/index.js:106-111 | merging keeps ids unique |
| Comments.PrioritizedAt | src/js/moderate.js:43-48 | prioritize raises the priority of the records with the clicked id by exactly 1; every other record and field is unchanged |
| Comments.SoftDeletedAt | src/js/moderate.js:52-56 | delete sets deleted=true on the records with the clicked id only; nothing else changes |
| Comments.InsertUnique | src/js/moderate.js:63-70 | an insert keeps ids unique exactly when no record had the new id |
| Comments.Prioritized | src/js/moderate.js:42-49 | prioritize keeps the table's length, every id and every deleted flag |
| Comments.SoftDeleted | src/js/moderate.js:51-57 | delete keeps the table's length, every id and every priority |
| Comments.CountId | src/js/index.js:106 | the number of records with an id is zero exactly when none has it |
| Comments.Live | src/js/moderate.js:99-100 | the `{deleted: false}` query holds exactly the records that are not deleted |
| Comments.InsertOrdered | src/js/moderate.js:101 | inserting into an ordered list keeps it ordered and adds exactly that record |
| Comments.SortForDisplay | src/js/moderate.js:101 | 'priority desc, created desc' yields an ordered permutation of its input |
| Comments.DisplayList | src/js/moderate.js:99-101 | the `{deleted: false}` query under `order('priority desc, created desc')` is ordered and a permutation of the live records |
| Comments.DisplayListExactly | src/js/teleprompter.js:48 | the displayed list is ordered, is a permutation of the non-deleted records, and holds a record exactly when it is in the table and not deleted |
| Comments.SoftDeletedLive | src/js/moderate.js:52-56 | after a delete no live record has that id, and every other live record stays live |
| Comments.DeletedNotDisplayed | src/js/moderate.js:99-101 | after a delete no displayed record has that id; records with other ids stay displayed |
| Index.PostTitle | src/js/index.js:146-150 | the title is the message if non-empty, else the story if non-empty, else 'Post on ' and the date; it is never empty |
| Index.MakePost | src/js/index.js:78-87 | the cached post keeps the fetched id and creation time and gets a non-empty title |
| Index.AuthorName | src/js/index.js:109 | the stored name is from.name when present and non-empty, else 'Facebook User' |
| Index.FirstMissing | src/js/index.js:102-103 | the ingestion loop stops at the first comment without a message, where `trim` throws |
| Index.IngestOne | src/js/index.js:102-111 | one `forEach` step adds at most one record and changes no existing id |
| Index.IngestAll | src/js/index.js:102-112 | a whole response adds at most one record per comment and changes no existing id |
| Index.CommentsAfter | src/js/index.js:93-113 | a failed or unanswered comments request leaves the table as it was; otherwise at most one record per comment before the first one without a message is added |
| Index.IngestOneEffect | src/js/index.js:101-111 | a blank message leaves the table unchanged; any other stores the fetched id, created and message with the defaulted name; a new id gets deleted=false and priority=0; an existing one keeps them; other records are untouched |
| Index.IngestSameIdTwice | src/js/index.js:106-111 | ingesting the same id twice, not both blank, leaves exactly one record with that id |
| Index.IngestAllKeepsUnique | src/js/index.js:102-112 | ingesting a whole response keeps ids unique |
| Index.AllBlankIngestsNothing | src/js/index.js:102-105 | a response whose messages are all blank leaves the table unchanged |
| Index.ReactionsAfterAt | src/js/index.js:118-131 | only the six reaction keys are written; a successful type holds its fetched total; a failed or unanswered type and every other key keep their value |
| Index.ReactionsAfter | src/js/index.js:118-131 | the reaction writes keep every key already present and add only keys among the reaction types requested |
| Index.Succeeded | src/js/index.js:128-130 | one reactionsUpdate per successful reaction request, never more than the requests made |
| Index.NextPollDelay | src/js/index.js:138-144 | after success the delay is max(refreshInterval/2, 1000); after failure it is exactly 1000; it is never below 1000 |
| Index.PollDelayFacts | src/js/index.js:70-75 | a cycle without a post id fails and is retried after exactly 1000 ms; no retry comes sooner |
| Index.CycleOk | src/js/index.js:70-75 | a cycle that resolves has a post id, and none of its requests rejects or goes unanswered |
| Index.CycleOutcomeAsWritten | src/js/index.js:51-62 | as written: the cycle resolves exactly when `CycleOk` holds, and never settles exactly when there is a post id, nothing rejects and some request gets no response |
| Index.NextPollDelayAsWritten | src/js/index.js:138-144 | as written: no next turn exactly when the cycle never settles; otherwise the usual delay, never below 1000 |
| Index.UnansweredStopsPollingAsWritten | src/js/index.js:57-61 | one unanswered reaction request stops polling as written, where the intended wrapper retries after 1000 ms |
| Index.UnansweredIsRetried | src/js/index.js:57-58 | with a missing response rejected, every cycle with an unanswered request is retried after exactly 1000 ms; where all requests are answered the two versions agree |
| Index.SearchGroupEnd | src/js/index.js:263 | the greedy group `(.+)` ends at the last slash that completes a match |
| Index.SearchPrefixEnd | src/js/index.js:263 | backtracking picks the match with the longest prefix, then the longest account group; no match exists when none is found |
| Index.MatchPostUrl | src/js/index.js:263-267 | no match exactly when no split fits the pattern (a prefix, a slash, the account group, a slash, posts or videos, a slash, digits); otherwise the groups of the match the backtracking search picks (`SearchPrefixEnd`): the account is the text between its two slashes and the number is all the digits after posts/ or videos/ |
| Index.OpenUrl | src/js/index.js:257-289 | a non-matching URL or a failed account lookup shows the alert; a lookup without a response never settles, so neither the alert nor the hash change happens; otherwise the hash is set to accountId + '_' + the post number |
| Index.OpenUrlShape | src/js/index.js:278-285 | a post id put in the hash ends with '_' and the digits of the post number |
| Index.IngestComments | src/js/index.js:101-113 | the loop leaves the table equal to ingesting the response up to the first comment without a message, and reports whether it got through them all |
| Index.MergeResponse | src/js/index.js:93-113 | the comments request leaves the table as `CommentsAfter` says, marks a change as pending, and succeeds exactly when the response arrived and every comment has a message |
| Index.ApplyReactions | src/js/index.js:118-131 | the reaction loop writes the fetched counts and emits one reactionsUpdate per successful type |
| Index.CachePost | src/js/index.js:78-87 | with no cached post a fetched post is stored and postUpdate emitted; otherwise post and bus are unchanged |
| Index.FetchTables | src/js/index.js:90-136 | the comments and reaction requests make their writes and succeed exactly when all of them do |
| Index.RunCycle | src/js/index.js:76-136 | with a post id: a fetched post is stored, with one postUpdate, only if none is cached; comments and reactions are written as `CommentsAfter` and `ReactionsAfter` say, with one reactionsUpdate per success; a table change is marked pending; the cycle succeeds exactly when the comments and all reactions do |
| Index.LoadCommentsReactions | src/js/index.js:66-136 | without a post id the cycle fails and changes nothing; otherwise the post is fetched only if none is cached, comments are ingested, reactions written, and the cycle succeeds exactly when all requests do |
| Index.PollStep | src/js/index.js:138-144 | one loop turn makes the whole cycle's change to the store (`CycleApplied`) and returns the delay for its outcome, never below 1000; an unanswered request counts as a failure |
| Index.HashChange | src/js/index.js:297-334 | with a post id while connected, the table and the map are emptied, the post is nulled, and reactionsUpdate, postUpdate, teleprompterRefresh are emitted in that order; otherwise nothing changes. The immediate cycle the handler starts is a separate `Index.LoadCommentsReactions` call |
| Index.AuthStatusChange | src/js/index.js:233-238 | 'connected' marks the store connected and runs the hash-change reset, field by field: with a post id the table, map and post are cleared and three topics emitted; without one nothing else changes; any other status changes nothing |
| Index.Unload | src/js/index.js:336-344 | unload persists the configuration so that it loads back unchanged |
| Moderate.TableClick | src/js/moderate.js:40-59 | a prioritize click bumps, a delete click soft-deletes, any other click does nothing; nothing else in the store changes |
| Moderate.ManualId | src/js/moderate.js:64 | a manual id is 'ZZZZZ' followed by the digits of the current millisecond |
| Moderate.ManualComment | src/js/moderate.js:63-70 | a manual record has the 'ZZZZZ' id, the entered name and message, the button's priority and deleted=false |
| Moderate.ManualIdsDiffer | src/js/moderate.js:64 | manual comments made at different milliseconds get different ids |
| Moderate.NewComment | src/js/moderate.js:61-74 | the form appends exactly one record and changes nothing else in the store |
| Moderate.ToggledAutoRefresh | src/js/moderate.js:77 | the toggle negates autoRefresh and leaves every other config field |
| Moderate.ToggleAutoRefreshTwice | src/js/moderate.js:77 | toggling twice restores the configuration |
| Moderate.ToggleAutoRefresh | src/js/moderate.js:76-79 | the button negates autoRefresh and emits teleprompterRefresh |
| Moderate.RowOf | src/js/moderate.js:102-108 | a row shows the record's id, name and message; its prioritize button is active exactly when the priority is nonzero |
| Moderate.Rows | src/js/moderate.js:101-110 | one row per listed record, in list order |
| Moderate.ModeratorPanel | src/js/moderate.js:82-111 | no post: the title is cleared and nothing else is redrawn; with a post: its title, the auto-refresh button state, and row i showing the i-th record of the display list |
| Moderate.PanelRowsAreDisplayList | src/js/moderate.js:99-110 | the rows show exactly the records not deleted, and they are the rows of an ordered rearrangement of the live records (priority descending, then most recent first) |
| Moderate.DeleteHidesRow | src/js/moderate.js:51-56 | a deleted record drops out of the moderator list |
| Moderate.PrioritizedRowActive | src/js/moderate.js:105-107 | after prioritizing a record whose priority was non-negative, its button shows active |
| Teleprompter.ScaleSign | src/js/teleprompter.js:19-20 | an axis scales by -1 exactly when it is flipped, and by 1 otherwise |
| Teleprompter.ConfigStyle | src/js/teleprompter.js:16-22 | font size is zoom, or 1 when zoom is 0; the scale signs follow the two flips |
| Teleprompter.ReactionCount | src/js/teleprompter.js:27 | a reaction group shows the stored count for its type, or 0 when the type is absent |
| Teleprompter.ReactionGroupShowsFetched | src/js/teleprompter.js:25-30 | after a cycle a group shows the total its request fetched; after a post switch every group shows 0 |
| Teleprompter.CardOf | src/js/teleprompter.js:52 | the time shown is min(now, created), never in the future |
| Teleprompter.Cards | src/js/teleprompter.js:48-53 | one card per displayed record, in display order |
| Teleprompter.CardsNeverInFuture | src/js/teleprompter.js:52 | no rendered card shows a time after now |
| Teleprompter.NoCardsIffAllDeleted | src/js/teleprompter.js:46-58 | the list is empty exactly when every record is deleted |
| Teleprompter.Refresh | src/js/teleprompter.js:33-63 | the refresh sets lastRefreshTime; the countdown is visible exactly when autoRefresh is on; the cards are the display list; an empty list adds one once-subscription |
| Teleprompter.RefreshThenCommentsArrive | src/js/teleprompter.js:57-62 | after an empty refresh, the next commentsUpdate emits exactly one teleprompterRefresh and consumes the subscription |
| Teleprompter.FrameDecision | src/js/teleprompter.js:106-124 | no refresh time: nothing; time left ≤ 0: refresh if autoRefresh, else hold; otherwise a countdown with max = refreshInterval and value = the time left (> 0) |
| Teleprompter.FrameAfterRefresh | src/js/teleprompter.js:111-123 | before the interval passes the countdown runs and never exceeds the interval; after it, the frame refreshes exactly when autoRefresh is on |
| Teleprompter.OnFrame | src/js/teleprompter.js:106-124 | a due frame clears lastRefreshTime and emits exactly one teleprompterRefresh; every other frame changes nothing |
| CommonControls.KeyDown | src/js/CommonControls.js:12-17 | 'AudioVolumeUp' emits teleprompterRefresh and prevents the default; any other key emits nothing |
| CommonControls.FlippedHorizontally | src/js/CommonControls.js:30 | only flipHorizontal is negated |
| CommonControls.FlippedVertically | src/js/CommonControls.js:34 | only flipVertical is negated |
| CommonControls.FlipsMirrorOneAxis | src/js/CommonControls.js:29-36 | each flip mirrors exactly one axis of the teleprompter transform; pressing it twice restores the configuration |
| CommonControls.FlipHorizontal | src/js/CommonControls.js:29-32 | the button negates flipHorizontal, then emits configUpdate |
| CommonControls.FlipVertical | src/js/CommonControls.js:33-36 | the button negates flipVertical, then emits configUpdate |
| CommonControls.FlipTwice | src/js/CommonControls.js:29-36 | two presses of the same flip restore the configuration |
| Legacy.LoadedConfig | js/main.js:27-37 | a stored configuration is returned as stored; with none, both flips are off and zoom is 1 |
| Legacy.ApplyConfig | js/main.js:50-53 | font size is zoom when truthy, else 1; scale -1 on each flipped axis and 1 otherwise |
| Legacy.SetThenLoad | js/main.js:43-48 | after setConfigItem(k, v), loadConfig has v at k and every other key unchanged |
| Legacy.Page.LoadConfig | js/main.js:28-37 | with nothing stored it saves and returns {flipHorizontal:false, flipVertical:false, zoom:1}; otherwise it returns the stored config |
| Legacy.Page.SaveConfig | js/main.js:39-41 | saving replaces the stored configuration |
| Legacy.Page.SetConfigItem | js/main.js:43-48 | one key is set on the loaded configuration, which is saved and applied |
| Legacy.Page.ToggleItem | js/main.js:231-236 | a flip button stores the negation of the loaded flag |
| Legacy.Page.ToggleTwice | js/main.js:231-236 | two presses leave the flag's truthiness and every other key as they were |
| Legacy.FbApiAsWritten | js/main.js:56-68 | as written: a missing response never settles; an error rejects; anything else resolves with the whole response |
| Legacy.FbApi | js/main.js:61-66 | rejects when the response is missing or carries an error, otherwise resolves with the whole response |
| Legacy.FbApiAgreesOnPresent | js/main.js:61-66 | the as-written and intended wrappers agree on every response that arrives |
| Legacy.GetLastLiveVideo | js/main.js:79-86 | fails with 'No live videos found.' when data is missing or empty, otherwise returns data[0] |
| Legacy.GetComments | js/main.js:97-102 | fails with 'No recent comments.' when data is missing or empty, otherwise returns data unchanged |
| Legacy.GetReactionsAsWritten | js/main.js:123-131 | as written: no data yields an empty map; any reaction rejects, because `video` is unbound |
| Legacy.CountReactions | js/main.js:127-131 | intended tally: one lower-cased key per type that occurs, holding its number of occurrences |
| Legacy.GetReactions | js/main.js:123-133 | intended: no data yields an empty map; otherwise the per-type tally |
| Legacy.Cycle | js/main.js:141-151 | a refresh shows the video, its comments and reactions exactly when all three steps succeed; otherwise it shows the error of the first failing step: the video lookup, then the comments, then the reactions |
| Legacy.CycleAsWritten | js/main.js:141-151 | as written: a missing video response never settles; a settled success agrees with the intended cycle and has no reactions |
| Legacy.ReactionsBreakCycleAsWritten | js/main.js:127-131 | as written, a live video with comments and any reaction is never shown; the intended cycle shows it with the tally |
| Legacy.OneLikeCounted | js/main.js:127-131 | one LIKE is tallied as {like: 1} |
| Legacy.FrameDecision | js/main.js:185-196 | no reload time: nothing; time left ≤ 0: start a refresh; otherwise a countdown with max 10000 and a positive value |
| Legacy.Page.StartRefresh | js/main.js:137-139 | a refresh clears lastReloadTime at its start |
| Legacy.Page.Refresh | js/main.js:137-183 | the refresh settles with the intended cycle's outcome and sets lastReloadTime once it does |
| Legacy.Page.RefreshAsWritten | js/main.js:137-183 | as written, lastReloadTime is set only if the cycle settles |
| Legacy.Page.OnFrame | js/main.js:185-196 | a frame does nothing while lastReloadTime is null, starts a refresh when the time is up, and otherwise shows the countdown |
| Legacy.MissingResponseStallsAsWritten | js/main.js:61-66 | as written, a missing video response leaves the cycle unsettled and every later frame idle; the intended wrapper fails with 'No response' |

## Findings

| source | as written | input that shows it | evidently intended | confidence | as-written member | corrected member |
|---|---|---|---|---|---|---|
| js/main.js:62-63 | The guard reads `res.error` after finding `res` missing. That throws inside the SDK callback, so the promise never settles and the countdown stops for good. | the SDK callback invoked with `undefined` for the live-video request | reject, so the error is shown and the countdown resumes | medium, not executed | Legacy.MissingResponseStallsAsWritten | Legacy.FbApi |
| src/js/index.js:57-61 | The guard reads `res.error` after finding `res` missing. That throws inside the SDK callback, after the promise's executor has returned, so the request never settles. Unless another request of the cycle rejects, `Promise.all` never settles either, and `loadCommentsReactionsLoop` schedules no further cycle. | a cycle whose comments and first five reaction requests succeed while the SDK callback gets `undefined` for the sixth | reject with `new Error('No response')`, so the loop retries after one second | medium, not executed | Index.UnansweredStopsPollingAsWritten | Index.UnansweredIsRetried |
| js/main.js:129 | The tally reads `video.reactions`, but `video` is not bound in `getReactions`. Any reaction makes it throw, so the refresh rejects. | a reactions response with data `[{type: 'LIKE'}]` | count the occurrences of each lower-cased type | high, not executed | Legacy.ReactionsBreakCycleAsWritten | Legacy.CountReactions |

Request outcomes enter the model as `Index.Fetch` values: a payload, a rejection, or no response at all (`Unanswered`).

## Left out

- DOM rendering and templates, fullscreen toggling, the login and choose-post pages, and `loadPosts` (`src/js/index.js:153-221`). These are presentation only. The rows, cards and styles are returned as values.
- Browser windows: the moderator window's resize preview, closing it on unload, and sharing the store between windows.
- The SDK and the network (`FB.api`, `FB.init`, `FB.login`, the auth subscription). Each request's outcome is an input.
- `fbAPIPromise`'s `res[key] || res` fallback (`src/js/index.js:51-63`). Each request's payload arrives already extracted. A reaction response without `summary` is not modelled.
- Timers. The poll delay is a returned number. Animation frames are method calls that take the current time. The debounced table notification is a flag plus an explicit flush. The moderator's debounced `refresh` is the pure `Moderate.ModeratorPanel`.
- Delivery of bus topics to the handlers that views subscribe. The bus logs each emitted topic and runs only the `once` handlers the teleprompter registers. The other handlers (`Teleprompter.Refresh`, the moderator panel) are called separately.
- Index.HashChange: the cycle that `hashchange` starts at once (`src/js/index.js:317`) is not part of this method. It is a separate `Index.LoadCommentsReactions` call made on the store the handler leaves.
- `Promise.all` interleaving and stale cycles after a post switch. A cycle is one sequential step: post, then comments, then the six reactions in order.
- Index.LoadCommentsReactions: leaves out the post request's unhandled rejection, and a post response that arrives after the cycle has settled. The post request is outside `Promise.all`, so here a failed post request changes nothing and never fails the cycle.
- Index.PollStep: treats a request without a response as a rejection, as `fbAPIPromise` evidently intends, so such a cycle is retried after one second. As written the loop stops for good in that case; `Index.CycleOutcomeAsWritten` and `Index.NextPollDelayAsWritten` model that (see Findings).
- The internals of taffydb and event-emitter. The model chooses three behaviours:
  - merge keeps moderation fields;
  - merge and update apply to every record with the id;
  - a change notification is pending only when the table's value changed.
- Floating point: zoom ±0.1 (`src/js/CommonControls.js:19-26`, `js/main.js:224-229`) and NaN. Zoom is a `real`.
- `moment` formatting. `Index.PostTitle` takes the already-formatted date. Cards carry the timestamp whose relative time is shown.
- Date parsing of `created_time`. Times are integer milliseconds.
- JSON and `localStorage` serialisation. Stored configurations are values, and the JSON round trip is taken as the identity.
- Shared.InitialConfig: does not model persisted keys outside the six, or values of the wrong type, which `Object.assign` would copy. It also does not model a JSON parse error.
- Moderate.NewComment: does not model that the id and `created` come from two separate clock reads. One `now` is used. It also does not model a `NaN` priority from `parseInt`.
- Moderate.RowOf: does not model absent names or messages. The fallback to '' never applies because names and messages are always strings here.
- Teleprompter.ReactionCount: does not model a stored value that is `undefined` or `NaN`, or its `toLocaleString` formatting.
- Legacy.CountReactions: models `toLowerCase` on ASCII letters only.
- Legacy.Cycle: does not model which failure `$.when` reports when both of its requests fail. The model reports the comments failure first.
- The legacy page's comment and reaction rendering ('min. ago', showing and hiding reaction groups), its login status check, and the missing-app-id alert.
- `webpack.config.js`: build configuration.
