# Chat front end — a Dafny model of its decision logic

The repository is a React chat client. It has a chat view that talks to a chat API and saves
transcripts to a hosted database, a sidebar listing saved chats, an email sign-in form, and an
authentication context. Most of it is markup. This project lifts out the pure decisions and state
transitions buried in those components and states them over immutable datatypes:

- `Chat` (components/ChatInterface.jsx): title derivation, the submit guard and the request it
  sends, completion of a request (merging recommendations, classifying failures), the autosave
  decision and identity adoption, and the new / load / rename session operations.
- `Recommend` (components/ChatInterface.jsx): the six-topic keyword heuristic and its cut to three.
- `Sidebar` (components/ChatHistorySidebar.js): loading the list, title search, recency grouping,
  and delete and rename.
- `EmailForm` (components/EmailAuth.js): field updates, the ordered first-failure validator, and
  submit dispatch per mode.
- `Auth` (contexts/AuthContext.js): the `{user, loading, authError}` record plus the stored
  `skipAuth` flag. It is driven by the session lookup, provider push events, the skip-auth bypass
  and sign-out. `useAuth` and its fallback are also modelled.
- Support modules: `Wrappers` (Option), `Seqs` (filter, slice, subsequence) and `Text` (the
  `trim` white-space set, ASCII lower-casing, `includes`).

Every asynchronous handler is a function from the current state and the I/O result, taken as an
input, to the next state. Where React's functional updates (`prev => [...prev, x]`) apply a
completion to whatever state is current, the handler is split in two (`Chat.Submit` /
`Chat.Complete`, `EmailForm.BeginSubmit` / `EmailForm.FinishSubmit`). The chat API and the session
store appear only as result datatypes. The store wrappers report errors by return value
(`{data, error}`) and do not throw, so store results distinguish "returned, possibly with an
error" from "threw".

Four behaviours of the code are worth stating:
- Authentication initialisation has no timeout race and does not read the skip-auth flag.
- A user rename is not "sticky": a later autosave keeps any title other than exactly "New Chat",
  whoever set it.
- Merged recommendations have no overall cap of three; only the heuristic's own output is cut.
- Grouping compares the full timestamp, not the day, against the week boundary, so future-dated
  sessions land in "this week".

## Model

| member | source | states |
|---|---|---|
| Chat.InitialChat | components/ChatInterface.jsx:20-29 | the controller mounts with no messages, empty input, no image, idle, empty panel, no session id and the title "New Chat" |
| Chat.ChatTitle | components/ChatInterface.jsx:51-58 | "New Chat" when no user message has non-blank content; otherwise the first such message's trimmed content, cut to 50 characters plus "..." when longer; never longer than 53 |
| Chat.DerivedTitleShape | components/ChatInterface.jsx:52-55 | when some user message has non-blank content, the derived title is non-empty and does not start with white space |
| Chat.Submit | components/ChatInterface.jsx:139-160 | a blank input without an image, or a request in flight, changes nothing and sends nothing; otherwise exactly one user message with the untrimmed input and `hasImage` is appended, the controller turns busy, input and image are cleared, and the request carries the input, the image and the prior messages as (role, content) pairs |
| Chat.SubmitSingleFlight | components/ChatInterface.jsx:139-160 | a second submit while the first is in flight appends and sends nothing; the history sent excludes the message just appended |
| Chat.Classify | components/ChatInterface.jsx:189-207 | status 429 gives the rate-limit text whatever the body; 500 with a body message gives "Server error: " plus it; else a body `error` verbatim; no answer gives the connectivity text; anything else the default; the text is never empty |
| Chat.Complete | components/ChatInterface.jsx:173-219 | exactly one assistant message is appended and the controller is idle; on a reply its recommendations and the panel are the API's list untruncated followed by the heuristic's (so at most API + 3); on a failure (including a reply without text) the message is flagged `isError` with the classified text and the panel is kept |
| Chat.ExchangeAppendsTwo | components/ChatInterface.jsx:141-218 | an accepted exchange with nothing in between appends the user message and then exactly one assistant message, leaving the controller idle |
| Chat.PlanSave | components/ChatInterface.jsx:60-74 | no save without a user or without messages; an update of the known session when an id is set, otherwise a create for the user; the title written is the current one unless it is exactly "New Chat", in which case it is derived |
| Chat.AfterCreate | components/ChatInterface.jsx:69-74 | only a create that returned a row and no error changes the state, adopting the new id and the written title; every failure is swallowed and leaves the state alone (an update's answer is never inspected) |
| Chat.SaveAdoptsIdentity | components/ChatInterface.jsx:64-73 | after a successful create, the next save of the same conversation updates that row with the same title instead of creating another |
| Chat.StartNewChat | components/ChatInterface.jsx:80-86 | a new chat is the mount state except that the typed input and the busy flag are kept |
| Chat.NewChatDisarmsAutosave | components/ChatInterface.jsx:41-49 | after a new chat nothing is saved, and starting a new chat twice is the same as once |
| Chat.FindCarrier | components/ChatInterface.jsx:94 | the scan finds the first assistant message with a `recommendations` field (an empty list counts), and finds nothing exactly when there is none |
| Chat.FindCarrierReversed | components/ChatInterface.jsx:94 | scanning the reversed list finds the last such message of the original list |
| Chat.LastRecommendations | components/ChatInterface.jsx:94-99 | the panel of a loaded session is the recommendations of its last assistant message carrying them, and empty when there is none |
| Chat.LoadChatSession | components/ChatInterface.jsx:88-99 | (corrected) loading installs the stored messages in order (none when absent), the id and the title, and the panel above; input, image and busy flag are kept |
| Chat.LoadChatSessionAsWritten | components/ChatInterface.jsx:88-99 | (as written) the same, except that the in-place `.reverse()` reverses the installed transcript and, through the shared array, the caller's own record, which ends up holding exactly the list the controller shows |
| Chat.LoadTwiceRestores | components/ChatInterface.jsx:88-99 | loading the same listed record a second time, as written, restores the record, shows the stored order, and takes the panel from the first carrier instead of the last |
| Chat.ReversedLoadIsSaved | components/ChatInterface.jsx:60-94 | after a first as-written load of a non-empty record, the armed autosave writes the reversed transcript back to that row |
| Chat.LoadAsWrittenReverses | components/ChatInterface.jsx:90-94 | a two-message session is installed as [b, a] by the code as written and as [a, b] by the corrected load |
| Chat.RenameChatSession | components/ChatInterface.jsx:105-115 | the write always carries the new title and the active chat's messages for the renamed id; an exception is rethrown and changes nothing; otherwise the active title changes exactly when the renamed id is the active one |
| Chat.RenameIgnoresReturnedError | components/ChatInterface.jsx:105-110 | an error returned (not thrown) by the store renames exactly like a success |
| Recommend.SuggestedTopics | components/ChatInterface.jsx:222-305 | at most three topics, all firing, strictly in the fixed priority order JS, React, Python, ML, SQL, Web; empty exactly when no keyword matches |
| Recommend.SuggestedTopicsMember | components/ChatInterface.jsx:227-305 | a topic is suggested exactly when it fires and fewer than three higher-priority topics fire |
| Recommend.Suggest | components/ChatInterface.jsx:222-305 | the heuristic returns the records of the suggested topics in priority order: at most three, and none exactly when no keyword matches |
| Recommend.SuggestCovers | components/ChatInterface.jsx:227-305 | every topic that fires with fewer than three higher-priority topics firing contributes its static record, id `rec_<topic>_` plus the clock reading |
| Recommend.SuggestSound | components/ChatInterface.jsx:227-305 | each returned record is the static record of a topic that fires with fewer than three higher-priority topics firing |
| Recommend.WebIgnoresReply | components/ChatInterface.jsx:292 | the Web topic tests the user input only |
| Seqs.TakeFilterMember | components/ChatInterface.jsx:305 | in a list without repeats, an element survives "filter, then keep the first n" exactly when it passes and fewer than n earlier elements pass |
| Text.Trim | components/ChatInterface.jsx:52-54 | the result is the input minus a white-space prefix and suffix, empty exactly for blank input, otherwise starting and ending with non-space |
| Text.Includes | components/ChatHistorySidebar.js:97 | the left-to-right scan answers true exactly when the pattern occurs at some position |
| Text.Lower | components/ChatInterface.jsx:224-225 | lower-casing keeps the length, maps each character, and leaves no ASCII capital |
| Sidebar.BucketOf | components/ChatHistorySidebar.js:113-125 | today iff the calendar day is today; yesterday iff it is the day before; this week iff neither, and the timestamp is no earlier than today's midnight minus 7 days; older otherwise, including unparseable dates |
| Sidebar.FutureIsThisWeek | components/ChatHistorySidebar.js:121-122 | a future-dated session lands in "this week" |
| Sidebar.GroupSessions | components/ChatHistorySidebar.js:106-128 | the bucket sizes add up to the number of sessions |
| Sidebar.GroupingFilters | components/ChatHistorySidebar.js:113-126 | each bucket is exactly the sessions of that bucket, in input order |
| Sidebar.GroupingPartitions | components/ChatHistorySidebar.js:106-128 | the four buckets together hold each input session exactly as often as the input does |
| Sidebar.InExactlyOneBucket | components/ChatHistorySidebar.js:117-125 | every listed session is in one bucket, the one its date selects, and in no other |
| Sidebar.SearchSessions | components/ChatHistorySidebar.js:96-98 | the kept sessions are exactly those whose lower-cased title includes the lower-cased term, in order (which fixes the result for a list without repeated rows, as the store's rows are); an empty term keeps all |
| Sidebar.LoadSessions | components/ChatHistorySidebar.js:38-52 | a clean answer replaces the list (a missing list reads as empty); an error or exception keeps it; loading is off afterwards |
| Sidebar.DeleteSession | components/ChatHistorySidebar.js:54-73 | nothing happens without confirmation; on success exactly the sessions with that id go and the rest keep their order (which fixes the list for a list without repeated rows), and a new chat starts iff the deleted id is the open one; on failure the list is kept and an alert shown |
| Sidebar.RenameSession | components/ChatHistorySidebar.js:75-88 | (as written) proceeds only for a non-blank title different from the editor text; on success retitles only the matching sessions with the trimmed title; the editor is closed in every case |
| Sidebar.StartEditing | components/ChatHistorySidebar.js:90-94 | the editor opens on the session with its listed title; the list, search term and loading flag are kept |
| Sidebar.EditTitle | components/ChatHistorySidebar.js:158 | typing sets the editor text and changes nothing else |
| Sidebar.CommitEdit | components/ChatHistorySidebar.js:155-162 | (as written) Enter or blur passes the editor text itself as the new title, so nothing is sent, the list is unchanged and the editor closes |
| Sidebar.CommitEditNeverRenames | components/ChatHistorySidebar.js:155-162 | since both call sites pass the editor text itself, committing an edit never reaches the store and never changes the list |
| Sidebar.CommitEditFixed | components/ChatHistorySidebar.js:75-88 | (corrected) the same handler with the guard comparing the trimmed title against the session's listed title |
| Sidebar.CommitEditFixedRenames | components/ChatHistorySidebar.js:75-94 | with the corrected guard, editing a listed session to a different non-blank title sends the trimmed title and retitles exactly that session |
| EmailForm.InputChange | components/EmailAuth.js:21-28 | the named field takes the value, every other field is kept, and the error and the message are both cleared |
| EmailForm.Validate | components/EmailAuth.js:30-55 | the form is valid exactly when every rule of the mode holds (reset: email; sign-in: email, password of 6+; sign-up: also non-blank name, matching confirmation); otherwise the first failing rule's message |
| EmailForm.FirstFailure | components/EmailAuth.js:30-55 | valid exactly when all rules hold; otherwise the message of a failing rule all of whose predecessors hold |
| EmailForm.RulesAgree | components/EmailAuth.js:30-55 | the nested tests of the validator compute the first failing rule of the mode's table |
| EmailForm.EmailCheckedFirst | components/EmailAuth.js:31-34 | an empty email or one without '@' is reported first in every mode |
| EmailForm.BeginSubmit | components/EmailAuth.js:57-63 | an invalid form shows the first failure and sends nothing; a valid one clears both texts, starts loading and sends exactly the current mode's request |
| EmailForm.FinishSubmit | components/EmailAuth.js:65-101 | a returned error shows its message, a clean answer the mode's success text, an exception the generic text; loading ends in every case |
| EmailForm.SubmitDispatch | components/EmailAuth.js:57-101 | a whole submit sends one request, the current mode's, exactly when the form is valid, and ends with loading off |
| Auth.Initial | contexts/AuthContext.js:27-29 | the context mounts with no user, loading on and no error |
| Auth.ApplyLookup | contexts/AuthContext.js:33-45 | a successful lookup sets the session's user (or none) and ends loading; a failed one records the message, ends loading and keeps the user |
| Auth.ApplyEvent | contexts/AuthContext.js:49-54 | every provider event overwrites the user with the session's user (or none) and ends loading |
| Auth.EventKindIrrelevant | contexts/AuthContext.js:50-58 | the event kind has no effect on the state |
| Auth.SkipAuthentication | contexts/AuthContext.js:69-74 | the bypass stores the flag, installs the test user `test-user` and ends loading |
| Auth.SkipIdempotent | contexts/AuthContext.js:69-74 | skipping twice is the same as once |
| Auth.SignOut | contexts/AuthContext.js:75-88 | with the flag: the flag and the user are cleared and the page reloads, without calling the provider; without it: the provider is called and the local state is untouched whatever it answers |
| Auth.SignOutUndoesSkip | contexts/AuthContext.js:69-80 | sign-out after the bypass leaves no user and no flag and calls no provider |
| Auth.LoadingUntilSettled | contexts/AuthContext.js:27-88 | loading stays on exactly until the first lookup answer, provider event or bypass, and never comes back |
| Auth.ErrorOnlyFromLookup | contexts/AuthContext.js:29-45 | starting without an error, an error is present exactly when some lookup failed |
| Auth.ErrorStaysOnce | contexts/AuthContext.js:29-88 | no transition clears a recorded error |
| Auth.UseAuth | contexts/AuthContext.js:8-24 | the fallback record (no user, not loading, the "not available" error) is returned exactly for a falsy context; otherwise the context's own values |
| Auth.UseAuthNeverFallsBack | contexts/AuthContext.js:6-10 | with or without a provider the context is truthy, so the fallback is never used |

## Findings

| source | as written | input that shows it | evidently intended | confidence | as-written member | corrected member |
|---|---|---|---|---|---|---|
| components/ChatInterface.jsx:90-94 | `(session.messages \|\| []).reverse()` reverses in place the array just handed to `setMessages`, which is also the sidebar's listed row: the first load of a row shows it newest-first and autosave writes that order back; loading the same row again flips it back and shows the first carrier's recommendations instead of the last | a listed session with messages [a, b] is installed as [b, a] on the first load, and as [a, b] with a's recommendations on the second when both carry some | install the stored order and scan a reversed copy | high, not executed | Chat.LoadAsWrittenReverses | Chat.LoadChatSession |
| components/ChatHistorySidebar.js:76 | the rename guard requires `newTitle !== editTitle`, but both call sites (lines 159 and 162) pass `editTitle` itself | open the editor on a session, type "Renamed", press Enter: no rename is sent and the list is unchanged | compare the new title with the session's stored title | high, not executed | Sidebar.CommitEditNeverRenames | Sidebar.CommitEditFixed |

## Left out

- Rendering, styling, the image preview (`FileReader`), scrolling, the panel and sidebar toggles,
  `getDifficultyColor`/`getTypeIcon`, the email form's mode buttons and password-visibility toggle:
  presentation only.
- The 2-second autosave debounce and its cancellation: timing is not modelled. `Chat.PlanSave` takes
  the trigger condition (a user and a non-empty conversation) as its skip rule. The state the
  delayed save closes over and the state it updates are separate arguments
  (`Chat.PlanSave`, `Chat.AfterCreate`).
- The chat API (axios), the session store and the auth provider (Supabase client calls): their
  answers are input datatypes. Fetching one stored session by id is unused by the core.
- `Date.now()` ids and ISO timestamps: opaque inputs (`id`, `now`, `stamp`).
- Calendar arithmetic, time zones and daylight-saving time: a session's date is a local day number
  plus a millisecond timestamp, and "now" is today's day number plus its midnight.
- Sidebar.BucketOf: "yesterday" is day number minus one. This is weaker than the source's
  `today - 24h` millisecond comparison, which differs on daylight-saving days.
- Text.Lower: ASCII letters only. This is weaker than `toLowerCase`, because Unicode case mapping is
  out of scope. String lengths count characters, not UTF-16 code units.
- `confirm` and `alert` dialogs: the confirmation is an input and the alert is a flag. The page reload
  after a bypass sign-out is also a flag. The browser storage key is a boolean in the auth state.
- Unsubscribing from provider events on unmount, and updates arriving after unmount: component
  lifetime is not modelled.
- components/Login.js, components/HealthCheck.jsx, components/UserMenu.js, components/App.js,
  app/page.js, next.config.js: redirects, polling, menus and composition, outside the core.
- Logging (`console.*`) has no effect on state and is dropped.
- Recommend.Suggest: one clock reading stands for the six `Date.now()` reads of the heuristic, so
  the ids of one call share their suffix; the clock is an input and the six reads are not modelled
  separately.
- Chat.LoadChatSessionAsWritten: React skips an update whose array is the same object it holds,
  so a repeat load does not re-trigger the autosave effect; effects keyed on object identity are
  not modelled.
