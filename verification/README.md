# ClarifyAI dashboards — a verified Dafny model

ClarifyAI is a React front end with two role-gated dashboards. Strip away the
hooks and the JSX, and what is left is three small sequential state machines:

- **The role gate** (`RoleBasedDashboard` in `src/App.js`). It reads the
  `cognito:groups` claim of the signed-in user's access token. It then shows the
  admin dashboard, the user dashboard or an "Access Denied" page. "Admins" wins
  over "Users", and a missing claim counts as no groups.
- **The admin dashboard** (`src/components/AdminDashboard.js`). Its state is
  `{file, uploading, progress, query, response, history}`. Its events are
  choosing a file, starting the simulated upload, one firing of the progress
  interval, sending a query, and typing into the query box or the editable
  reply area. Sending prepends a canned reply to the history.
- **The user dashboard** (`src/components/UserDashboard.js`). Its state is
  `{query, status, history}`. Its events are sending a query and typing into
  the query box or the editable status area. Sending builds a random `#NNNNNN`
  ticket locally, shows a confirmation line and prepends `{id, q, ticketId}` to
  the history.

Each handler is a pure function `State -> State`. Events are collected in an
`Event` datatype, and `Run` folds a sequence of them. `Date.now()` is passed in
as an integer parameter `now`. The `Math.random()` draw is passed in as a
`Draw`, an integer offset in `[0, 900000)`.

Modules:

| file | module | models |
|---|---|---|
| `optional.dfy` | `Optional` | absent values (`undefined`/`null`) |
| `js_array.dfy` | `JsArray` | `Array.prototype.includes` |
| `js_string.dfy` | `JsString` | `String.prototype.trim`, using the ECMA-262 WhiteSpace and LineTerminator code points |
| `js_number.dfy` | `JsNumber` | decimal text of a non-negative integer, and reading it back |
| `roles.dfy` | `Roles` | `src/App.js`, the role gate |
| `admin_dashboard.dfy` | `AdminDashboard` | `src/components/AdminDashboard.js` |
| `user_dashboard.dfy` | `UserDashboard` | `src/components/UserDashboard.js` |

The admin state has one field the component does not declare: `intervals`. It
counts the progress timers that `setInterval` has started and that have not yet
been cleared. A tick fires only while one is live. With this field the model
can prove that at most one timer ever runs.

### Behaviour worth knowing

- **Progress can exceed 100 and can go down.** The tick adds 8 without
  clamping, so from 0 it runs 0, 8, …, 96, 104, and only the next tick pulls it
  back to 100 and ends the upload. `AdminDashboard.UploadSchedule` and
  `AdminDashboard.OvershootIsReachable` prove this. Over every reachable state
  the bound is [0, 104] (`AdminDashboard.ReachableStatesAreBounded`).
- **No upload or query request is made.** The upload is only a timer, and both
  send handlers answer locally. There is no request, token or request error to
  model.
- **A finished upload does not clear the selected file.** When nothing else
  happens during the upload, every field except `progress` is back to what it
  was before the upload after the last tick.
- **The role chain can throw.** In
  `user?.signInUserSession?.accessToken?.payload['cognito:groups']`, `payload`
  is indexed without `?.`. An access token that has no payload therefore throws
  a TypeError, which is modelled as `View.RenderError`.

## Model

| member | source | states |
|---|---|---|
| `JsArray.Includes` | src/App.js:36-38 | the scan `groups.includes(name)` is true exactly when `name` occurs in the list |
| `Roles.Resolve` | src/App.js:36-47 | Admin exactly when "Admins" is present, whatever else is; User exactly when "Users" is present and "Admins" is not; Denied exactly when neither is; so each list gets one role |
| `Roles.RoleBasedDashboard` | src/App.js:33-48 | if any optional step of the chain or the claim itself is missing, access is Denied; it fails to render exactly when a token is present without a payload; a present claim is decided by `Resolve` |
| `Roles.ResolveDependsOnlyOnMembership` | src/App.js:36-39 | two group lists that agree on whether "Admins" and "Users" occur get the same role, so order, duplicates and unrelated groups do not matter |
| `Roles.AdminHasPriority` | src/App.js:36-39 | "Admins" anywhere in the list gives Admin, even next to "Users" |
| `JsString.Trim` | src/components/AdminDashboard.js:41 | the result is a slice of the query with only whitespace cut off each side and no whitespace left at either end; it is empty exactly when the query is all whitespace |
| `JsString.TrimOfIsUnique` | src/components/UserDashboard.js:13 | at most one string is a trim of a given string, so `Trim`'s contract determines the trimmed query completely |
| `JsString.TrimIdempotent` | src/components/AdminDashboard.js:47 | the question stored in history is already trimmed: trimming it again gives it back unchanged |
| `AdminDashboard.Init` | src/components/AdminDashboard.js:9-15 | the initial values: no file, not uploading, progress 0, empty query, response and history, no interval; this state satisfies the invariant |
| `AdminDashboard.Apply` | src/components/AdminDashboard.js:139-155 | the inline setters of the query box and the reply area change only `query` or `response`; only a file change touches the file, and only a send or a query edit touches the query |
| `AdminDashboard.OnFileChange` | src/components/AdminDashboard.js:17-21 | stores the first chosen file, or none when the list is absent or empty; progress becomes 0; uploading, the interval, query, response and history are unchanged |
| `AdminDashboard.UploadFile` | src/components/AdminDashboard.js:23-26 | a no-op without a file or while uploading; otherwise it sets uploading, sets progress to 0, starts one more interval and changes nothing else |
| `AdminDashboard.Tick` | src/components/AdminDashboard.js:28-37 | without a live interval nothing happens; below 100 progress grows by exactly 8; at or past 100 progress becomes 100, the upload ends and the interval is cleared; the file and chat fields never change |
| `AdminDashboard.HandleSend` | src/components/AdminDashboard.js:40-51 | a no-op when the query is all whitespace; otherwise one entry {now, trimmed query, canned reply} goes in front and the older entries follow in order; the reply is shown and the query is cleared; the upload fields are untouched |
| `AdminDashboard.ApplyPreservesInv` | src/components/AdminDashboard.js:17-37 | every event keeps the invariant: one live interval while uploading and none otherwise; progress is a multiple of 8 in [0, 104] while uploading, and 0 or 100 at rest |
| `AdminDashboard.RunPreservesInv` | src/components/AdminDashboard.js:17-37 | the invariant holds after any sequence of events |
| `AdminDashboard.ReachableStatesAreBounded` | src/components/AdminDashboard.js:9-37 | from a fresh dashboard at most one interval is ever live, exactly while uploading, and progress stays in [0, 104] |
| `AdminDashboard.ApplyExtendsHistory` | src/components/AdminDashboard.js:40-51 | a send with a non-blank query puts exactly one entry {now, trimmed query, reply} in front of the old history; every other event, and a blank send, leaves the history unchanged |
| `AdminDashboard.HistoryIsAppendOnly` | src/components/AdminDashboard.js:40-51 | after any sequence of events the old history is a suffix of the new one, and the history has grown by exactly the number of accepted sends; from a fresh dashboard N accepted sends leave N entries |
| `AdminDashboard.TicksClimbBy8` | src/components/AdminDashboard.js:29-35 | after an upload starts, the first k ticks (k up to 13) leave progress at 8·k and change nothing else |
| `AdminDashboard.TicksIdle` | src/components/AdminDashboard.js:30-33 | once the interval is cleared, further ticks change nothing |
| `AdminDashboard.UploadSchedule` | src/components/AdminDashboard.js:23-37 | starting an upload from rest, progress reaches 104 after 13 ticks while still uploading; from the 14th tick on, the state is the pre-upload state with progress 100 |
| `AdminDashboard.OvershootIsReachable` | src/components/AdminDashboard.js:17-37 | choosing a file, uploading and 13 ticks from a fresh dashboard gives progress 104 |
| `JsNumber.ToDecimal` | src/components/UserDashboard.js:15 | the decimal text of a number is non-empty, all digits, and has no leading zero |
| `JsNumber.DecimalValueOfToDecimal` | src/components/UserDashboard.js:15 | reading back the printed digits gives the number |
| `JsNumber.ToDecimalOfDecimalValue` | src/components/UserDashboard.js:15 | printing the value of canonical digits gives the digits back, so printing and reading are inverses |
| `JsNumber.ToDecimalLength` | src/components/UserDashboard.js:15 | a number in [10^(k-1), 10^k) prints as exactly k digits |
| `UserDashboard.TicketNumber` | src/components/UserDashboard.js:15 | the ticket number lies in [100000, 999999], so it always has six digits |
| `UserDashboard.TicketId` | src/components/UserDashboard.js:15 | the ticket is 7 characters: `#` followed by the canonical six-digit decimal of the ticket number |
| `UserDashboard.TicketIdIsBijective` | src/components/UserDashboard.js:15 | different draws give different tickets, and every six-digit number is the ticket of some draw |
| `UserDashboard.Confirmation` | src/components/UserDashboard.js:16 | the status line is the fixed sentence, then the ticket, then a final `.` |
| `UserDashboard.TicketFromConfirmation` | src/components/UserDashboard.js:16-18 | the status line is 54 characters and characters 46..52 of it are the ticket |
| `UserDashboard.Init` | src/components/UserDashboard.js:8-10 | the initial values: empty query, status and history, which is a well-formed history |
| `UserDashboard.Apply` | src/components/UserDashboard.js:58-75 | the inline setters of the query box and the status area change only `query` or `status` |
| `UserDashboard.HandleSend` | src/components/UserDashboard.js:12-21 | a no-op when the query is all whitespace; otherwise one entry {now, trimmed query, ticket} goes in front and the older entries follow in order; the status shows that ticket's confirmation; the query is cleared |
| `UserDashboard.ApplyExtendsHistory` | src/components/UserDashboard.js:12-21 | a send with a non-blank query puts exactly one entry {now, trimmed query, ticket} in front of the old history; every other event, and a blank send, leaves the history unchanged |
| `UserDashboard.ApplyKeepsWellFormed` | src/components/UserDashboard.js:13-19 | one event keeps every entry's ticket a well-formed `#` plus six digits and every question non-empty |
| `UserDashboard.HistoryIsAppendOnly` | src/components/UserDashboard.js:12-21 | after any sequence of events the old history is a suffix of the new one, and the history has grown by exactly the number of accepted sends |
| `UserDashboard.HistoryStaysWellFormed` | src/components/UserDashboard.js:13-19 | after any sequence of events every ticket in the history is well formed and every question non-empty |

## Left out

- JSX rendering, CSS, the header buttons and navigation (`useNavigate`, `Routes`, `Navigate`, logout): user interface only, with nothing to state.
- Amplify configuration and the `Authenticator` wrapper (`src/index.js`, `src/App.js:9-30`): they belong to the external identity provider.
- Timer scheduling: the 120 ms period, the event loop and the interleaving of ticks with other events are not modelled. Only the discrete `Tick` step is, and `Run` may interleave it with any other event.
- A dashboard unmounting while its interval is still live: the model has no unmount event.
- The file-size label `(file.size / (1024 * 1024)).toFixed(2)`: it is floating-point formatting for display.
- The unused `getByDisplayValue` import: it does nothing.
- Uniqueness of history ids: ids are `Date.now()` values, and two sends in the same millisecond share one. No uniqueness is claimed.
- Roles.RoleBasedDashboard: a `cognito:groups` claim that is present but is not an array is not modelled. A falsy one becomes `[]`, and a non-empty string would make `includes` a substring test. The claim is taken to be absent or a list of strings.
- UserDashboard.TicketNumber: the draw is modelled as the integer `floor(Math.random() * 900000)`, not as a double. The double arithmetic and its rounding at the top of [0, 1) are not modelled.
- Upload and query requests, citations, tokens and their errors: the code makes no such requests.
- JavaScript strings are sequences of UTF-16 code units, while a Dafny `string` holds Unicode scalar values, so a query containing a lone surrogate cannot be represented. Trimming is unaffected, because every code point `trim()` removes lies in the Basic Multilingual Plane.
