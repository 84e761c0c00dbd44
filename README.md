# Friendly Messenger: a verified model of the client state and the account API

Friendly Messenger is a small chat application. A React single-page client
(`app.jsx`) talks to a FastAPI server (`Main.py`, `schemas.py`). This project
models, in Dafny, the parts of both that hold the logic:

- **Client helpers** (`client.dfy`, module `Client`):
  - `initialsFor`, which turns a display name into avatar initials;
  - `hashColor`, which turns a name into a hue by a polynomial hash, modulo
    360, over the name's UTF-16 code units;
  - the error rule of the `api` wrapper: a non-2xx response becomes an error
    carrying the body's `detail` or "Request failed (<status>)".
- **Client component** (`chat_app.dfy`, module `ChatApp`): the state of the
  `App` component as a class with one field per `useState` value and per ref
  the handlers read. Its methods are the handlers:
  - `logout`, `onScrollMessages`, choosing a conversation;
  - the profile effect and the two polling ticks;
  - `handleAuthSubmit`, `startChat` and `sendMessage`.

  A handler that awaits a request is split in two methods. The first runs
  when the user acts. The second runs when the handler's last request has
  settled: it receives the outcome and, for the effects, whether the effect
  was torn down in the meantime. `handleAuthSubmit` awaits twice in register
  mode (register, then login), and `AuthCompleted` receives both outcomes.
- **Request schemas** (`schemas.dfy`, module `Schemas`):
  - the length bounds the framework enforces on registration bodies;
  - the `bearer` default of the token response.
- **Server accounts** (`accounts.dfy`, module `Accounts`):
  - username normalisation and the blank-name check;
  - `register` over a users table, as a class whose table the method extends
    in place;
  - `login`;
  - `/auth/me`: the `Authorization` header is parsed and the `sub` claim is
    read back as an integer.
- **Shared modules**: `text.dfy` (module `Text`) holds the string operations
  both sides use: trimming with JavaScript's or Python's whitespace class, ASCII
  case mapping and decimal rendering. `wrappers.dfy` holds `Option` and `Result`.

Some inputs are parameters instead of parts of the model:
- the network: each request's outcome is a `Result` or a `Client.Reply`;
- the clock: `Date.now()` and the ISO time;
- password hashing and checking (`passwordHash`, `verify`);
- token signing and decoding (`issue`, `decode`);
- whether a React effect was cancelled.

The main properties proved:
- **Initials:** `initialsFor` gives "?" for a blank name, the first two letters
  of a single word, or the initials of the first and last words.
- **Hue:** the loop in `hashColor` computes the whole polynomial hash modulo
  360 over the UTF-16 code units.
- **Conversation list:** a conversation opened with `startChat` is listed
  exactly once, and a list without repeated ids keeps that property.
- **Selection:** a poll never overrides a truthy (non-zero) selection.
- **Sending:** a sent message shows at once, and a failed post does not remove
  it.
- **Normalisation:** it is idempotent, and " Alice " and "alice" are the same
  account.
- **Register:** it keeps the users table well formed, and adds exactly one row
  or none.
- **Login then `/auth/me`:** a token issued at login identifies the same user
  at `/auth/me`, because the `sub` claim `str(id)` parses back to `id`.

## Model

| member | source | states |
|---|---|---|
| `Text.Trim` | app.jsx:7 | `trim()`/`strip()`: the result is no longer than the input, is empty exactly when the input is all whitespace, and otherwise starts and ends with non-whitespace |
| `Text.TrimIsInfix` | app.jsx:7 | the trimmed string is an infix of the input, and only whitespace was removed on either side |
| `Text.TrimmedIsFixed` | Main.py:34 | trimming a string without whitespace at either end returns it unchanged |
| `Text.Lower` | app.jsx:16 | `toLowerCase()`/`lower()`: same length; each character is lower-cased (ASCII letters only) |
| `Text.Upper` | app.jsx:12 | `toUpperCase()`: same length; each character is upper-cased (ASCII letters only) |
| `Text.NatToDecimal` | app.jsx:19 | the rendering of a number in a template literal is non-empty, all digits, and has no leading zero |
| `Text.IntToDecimal` | auth.py:19 | `str(n)` is non-empty and starts with '-' exactly for negative `n` |
| `Text.DecimalRoundTrip` | auth.py:19 | reading the digits of a rendered natural number gives the number back |
| `Client.Words` | app.jsx:9 | `split(/\s+/).filter(Boolean)`: every word is non-empty and free of whitespace; there are none exactly when the text is all whitespace |
| `Client.WordsFromAreRuns` | app.jsx:9 | the words of a suffix of the text are its maximal runs of non-whitespace, in order, with only whitespace before, between and after them |
| `Client.WordsAreRuns` | app.jsx:9 | the words of the text are its maximal runs of non-whitespace, in order, with only whitespace before, between and after them |
| `Client.ConsFirstLater` | app.jsx:9 | the first word after a word's end starts strictly later, since a word ends at whitespace |
| `Client.ConsPlaced` | app.jsx:9 | a run followed by the runs of the rest of the text is again a list of runs, each at its position |
| `Client.RunsAscend` | app.jsx:9 | in a list of runs, a later word starts strictly later than an earlier one |
| `Client.ConsApart` | app.jsx:9 | prefixing a run keeps consecutive words apart, with only whitespace between them |
| `Client.ConsFramed` | app.jsx:9 | prefixing a run keeps only whitespace before the first word and after the last |
| `Client.WordsOfOneWord` | app.jsx:9 | a non-empty text without whitespace is one word, itself |
| `Client.SeveralWords` | app.jsx:9-11 | a trimmed text containing whitespace has at least two words; the first starts at its first character and the last is its final run |
| `Client.LastWordFrom` | app.jsx:11 | the last word of a text that ends in non-whitespace is the text's final run of non-whitespace |
| `Client.InitialsFor` | app.jsx:6-13 | "?" for a missing or blank name; otherwise 1–2 characters starting with the upper-cased first character; a single word gives its first two characters upper-cased; several words give the upper-cased initials of the first and the last word |
| `Client.Hue` | app.jsx:15-18 | the hue is below 360 |
| `Client.ReduceEachStep` | app.jsx:18 | reducing modulo 360 after every step of the hash gives the remainder of the unreduced hash |
| `Client.CodeUnits` | app.jsx:18 | `charCodeAt` sees one code unit, the character's own code, for a character of the Basic Multilingual Plane; above it two units, a high surrogate (D800–DBFF) then a low one (DC00–DFFF), that decode back to the character |
| `Client.Utf16` | app.jsx:18 | a string has at least as many UTF-16 code units as characters |
| `Client.HashColor` | app.jsx:15-20 | the loop's result is `hsl(<h> 70% 45%)` where `h` is the full polynomial hash (base 31) over the UTF-16 code units of the lower-cased name (or of "user") modulo 360 |
| `Client.HueIgnoresCase` | app.jsx:16 | names equal up to ASCII case get the same hue |
| `Client.AstralCodeUnits` | app.jsx:18 | U+1F600 is the surrogate pair D83D DE00 |
| `Client.AstralNameHashesSurrogates` | app.jsx:15-18 | the hue of "\u{1F600}" is 259, the hash of its two surrogates |
| `Client.HueOfMissingName` | app.jsx:16 | a missing name and an empty name both get the hue of "user" |
| `Client.FallbackMessage` | app.jsx:80 | the fallback message is longer than its fixed prefix plus the closing parenthesis |
| `Client.FallbackNamesStatus` | app.jsx:80 | the fallback message is "Request failed (" + digits + ")", and the digits read back as the status |
| `Client.Api` | app.jsx:68-84 | a 2xx response yields its body; any other status yields an error with a non-empty message: the `detail` when it is a non-empty string, else the fallback naming the status; a failed `fetch` yields its own error |
| `ChatApp.MessageOr` | app.jsx:376 | the error's message or else the fallback: a non-empty message is kept, an empty one gives the fallback, and a non-empty fallback makes the result non-empty |
| `ChatApp.AutoSelect` | app.jsx:303-306 | an existing (truthy) selection is kept; with none, a non-empty list selects its first conversation; an empty list changes nothing |
| `ChatApp.AutoSelectSettles` | app.jsx:303-306 | a poll changes the selection only to the first listed id, and a second poll over the same list changes nothing |
| `ChatApp.WithConversation` | app.jsx:404-407 | the list is unchanged when the conversation's id is already listed; otherwise the conversation is put first |
| `ChatApp.CountIdZero` | app.jsx:405 | an id is absent (`!prev.some(...)`) exactly when it is counted zero times |
| `ChatApp.DistinctCountsOnce` | app.jsx:404-407 | in a list without repeated ids every id occurs at most once |
| `ChatApp.StartedConversationListedOnce` | app.jsx:404-407 | after a conversation is added it is listed exactly once, and a list without repeated ids keeps that property |
| `ChatApp.NearBottom` | app.jsx:246-248 | near the bottom exactly when less than 120 pixels (a real number, as `scrollTop` is fractional) remain below the viewport |
| `ChatApp.NearBottomMonotone` | app.jsx:246-248 | scrolling further down never turns "near the bottom" off; the very bottom counts as near it |
| `ChatApp.AuthRequest` | app.jsx:359-365 | nothing is sent exactly when the username is blank or the password empty; otherwise the trimmed username and the raw password are sent |
| `ChatApp.ChatRequest` | app.jsx:392-393 | nothing is requested exactly when the name is blank; otherwise the trimmed, non-empty name |
| `ChatApp.MessageRequest` | app.jsx:421-422 | nothing is posted exactly when the text is blank or no (truthy) conversation is selected; otherwise the trimmed text to the selected conversation |
| `ChatApp.AuthOutcome` | app.jsx:367-371 | in register mode a failed registration ends the attempt with its error; otherwise the login's outcome decides |
| `ChatApp.HttpErrorsKeepTheirMessage` | app.jsx:80 | a non-2xx response always yields a non-empty message, so the handlers' fallback texts never replace it |
| `ChatApp.App.constructor` | app.jsx:200-236 | the token starts as the stored one or ""; the profile is null, the mode is login, every list, text and flag is empty or off, and auto-scroll is on |
| `ChatApp.App.Logout` | app.jsx:380-388 | the stored and current tokens, the profile, the conversations, the selection and the messages are cleared and the drawer is closed; nothing else changes |
| `ChatApp.App.BeginProfileLoad` | app.jsx:261-265 | `/auth/me` is asked exactly when there is a token; without one the profile is cleared |
| `ChatApp.App.ProfileLoaded` | app.jsx:266-279 | success stores the profile unless cancelled; failure always removes the stored token, and unless cancelled also clears the token and the profile |
| `ChatApp.App.BeginConversationPoll` | app.jsx:289-297 | a tick requests the list exactly when there is a token and a profile, and then marks the list loading; otherwise nothing changes |
| `ChatApp.App.ConversationsPolled` | app.jsx:295-312 | a cancelled tick writes nothing; otherwise loading ends, a list replaces the old one and auto-selects as `AutoSelect` says, and a failure changes nothing else |
| `ChatApp.App.BeginMessagePoll` | app.jsx:323-331 | a tick requests the messages of the selected conversation exactly when there is a token, a profile and a truthy selection, and then marks the messages loading; otherwise nothing changes |
| `ChatApp.App.MessagesPolled` | app.jsx:329-345 | a cancelled tick writes nothing and does not scroll; otherwise loading ends, a list replaces the messages and scrolls exactly when auto-scroll is on, and a failure keeps the messages |
| `ChatApp.App.ScrollMessages` | app.jsx:243-249 | with a mounted list the auto-scroll flag becomes "near the bottom"; without one it is kept |
| `ChatApp.App.SelectConversation` | app.jsx:177-180 | the clicked conversation is selected; the drawer is closed when the click came from the drawer's list and is left as it was from the desktop sidebar, which passes no `setDrawerOpen` (app.jsx:549) |
| `ChatApp.App.SetAuthMode` | app.jsx:463-474 | the "Log in" and "Sign up" tabs set the authentication mode |
| `ChatApp.App.SubmitAuth` | app.jsx:355-365 | the request is `AuthRequest` of the form, under the current mode; the error is the "Please enter username and password." text exactly when nothing is sent, and is cleared otherwise |
| `ChatApp.App.AuthCompleted` | app.jsx:367-377 | the outcome is `AuthOutcome` of the submitted mode and the requests' results; success stores the token in storage and state and clears the password; failure shows the error message (or "Auth failed.") and keeps the session |
| `ChatApp.App.StartChat` | app.jsx:390-393 | the error is cleared and the request is `ChatRequest` of the name field |
| `ChatApp.App.ChatStarted` | app.jsx:395-416 | success clears the name, lists the conversation via `WithConversation`, selects it and closes the drawer; failure shows the error (or "Failed to start chat") and changes nothing else |
| `ChatApp.App.SendMessage` | app.jsx:419-438 | the send error is cleared first; for blank text or no selection nothing else happens; with no profile, the TypeError's message is shown; otherwise exactly one optimistic message is appended, the input cleared, auto-scroll forced and the trimmed text posted |
| `ChatApp.App.MessageSent` | app.jsx:440-447 | a failed post shows its error (or "Failed to send"); the messages are not touched |
| `ChatApp.UserSelectionSurvivesPoll` | app.jsx:289-306 | signed in, a conversation the user picked (a non-zero id) stays selected when a poll lists another one first |
| `ChatApp.PollSelectsFirst` | app.jsx:289-306 | signed in with nothing selected, a poll selects the first listed conversation, and the message poll then asks for its messages |
| `ChatApp.NoPollWhenSignedOut` | app.jsx:289-290 | without a token neither poll requests anything |
| `ChatApp.SignUpShowsRegistrationError` | app.jsx:367-376 | in the "Sign up" tab a refused registration shows the server's "Username already taken" and signs nobody in |
| `ChatApp.SendShowsMessageAtOnce` | app.jsx:419-447 | sending "hello" shows exactly one message from the signed-in user in that conversation, before any reply and even after a failed post |
| `Schemas.RegisterFieldErrors` | schemas.py:3-5 | a field is reported exactly when its length is outside its bounds (username 3–30, password 6–128) |
| `Schemas.ValidateRegister` | schemas.py:3-5 | a body is accepted exactly when both lengths are within bounds, and is then unchanged; otherwise a 422 naming the offending fields |
| `Schemas.ValidateLogin` | schemas.py:7-9 | any two strings are accepted unchanged |
| `Schemas.NewTokenResponse` | schemas.py:11-13 | the token type defaults to "bearer" |
| `Accounts.NormalizeUsername` | Main.py:33-34 | the result is no longer than the input, empty exactly when the input is all whitespace, without whitespace at either end and without upper-case letters |
| `Accounts.NormalizedIsFixed` | Main.py:33-34 | a name that is already normalised is left as it is |
| `Accounts.NormalizeIdempotent` | Main.py:33-34 | normalising twice is normalising once |
| `Accounts.SpacedAliceIsAlice` | Main.py:33-34 | " Alice " and "alice" normalise to the same name |
| `Accounts.RequireNonBlankUsername` | Main.py:37-41 | a 422 "Username cannot be blank" exactly when the name is all whitespace; otherwise the non-empty normalised name |
| `Accounts.RegisterCheck` | Main.py:49-55 | registration passes exactly when both lengths are in bounds, the name is not blank and its normalised form is not taken; each failure gives its error, in the source's order (422 fields, 422 blank, 409 taken) |
| `Accounts.ThreeSpacesPassLengthButAreBlank` | Main.py:51 | three spaces satisfy the schema's length bound, yet registration fails with the blank-username 422 |
| `Accounts.ShortNameAfterTrim` | Main.py:51 | the length bound applies to the raw name, so " ab" registers as the two-character "ab" |
| `Accounts.RegisteredNameIsTaken` | Main.py:53-55 | every spelling that normalises to a registered name is refused with 409 |
| `Accounts.AcceptedNameIsNew` | Main.py:51-55 | an accepted name is normalised and not yet in the table |
| `Accounts.AddKeepsWellFormed` | Main.py:57-60 | adding a new normalised name with the next id keeps names normalised, ids issued and ids unique |
| `Accounts.RegisterKeepsTable` | Main.py:49-62 | registration keeps the table well formed; a failed check changes nothing; success adds exactly one row, under the normalised name, with the next id, and keeps every other row |
| `Accounts.RegisterStep` | Main.py:49-62 | `register` on values: the reply succeeds exactly when the checks pass; a failure leaves the table and the id counter as they were; a success replies with the next id and stores the user under the replied name with that id and the given hash, and advances the counter |
| `Accounts.UserTable.constructor` | Main.py:22 | a fresh database: the table starts empty, well formed, with the first id 1 |
| `Accounts.UserTable.Register` | Main.py:49-62 | the reply and the new table are those `RegisterKeepsTable` describes, and the table stays well formed |
| `Accounts.Login` | Main.py:65-74 | a 422 for a blank name; success exactly when the normalised name is stored and the password verifies, yielding that user's token with type "bearer"; every other failure is the same 401 |
| `Accounts.SplitOnce` | Main.py:82 | `split(" ", 1)`: one or two parts; one part, the whole string, exactly when there is no separator; otherwise the text before the first separator and the text after it |
| `Accounts.BearerSplit` | Main.py:79-82 | after the "Bearer " prefix the split happens at the prefix's own space |
| `Accounts.BearerToken` | Main.py:79-82 | a 401 "Missing Bearer token" exactly when the header does not start with the case-sensitive "Bearer "; otherwise the rest of the header, stripped |
| `Accounts.ParsePyInt` | Main.py:90 | `int()` of a string succeeds exactly when, once whitespace is stripped, it is an optional sign followed by digits with single underscores between them; the value's magnitude is the digits read in decimal with the underscores removed, negative only after a '-' |
| `Accounts.PlusSignAccepted` | Main.py:90 | `int("+5") == 5` |
| `Accounts.UnderscoresAccepted` | Main.py:90 | `int("1_000") == 1000` |
| `Accounts.NegativeLeadingZero` | Main.py:90 | `int("-0_7") == -7` |
| `Accounts.DoubleUnderscoreRejected` | Main.py:90 | `int("1__0")` raises `ValueError` |
| `Accounts.ParseRendered` | Main.py:90 | `int(str(n)) == n` for every integer, so the `sub` claim written as `str(user_id)` reads back as the id |
| `Accounts.SubjectId` | Main.py:89-92 | no `sub` claim, or a null, list or object claim, gives no id; a string claim is parsed as `int()` parses it; an integer claim is the id itself; `true` and `false` are 1 and 0 |
| `Accounts.TokenSubject` | Main.py:84-92 | `decode_token` then `int(payload["sub"])`: a token that does not decode names no id, and an id comes only from a decoded token's `sub` claim |
| `Accounts.TokenNamesRenderedId` | Main.py:84-92 | a decoded token whose `sub` claim is `str(id)` names `id` |
| `Accounts.Me` | Main.py:77-98 | 401 "Missing Bearer token" without the prefix; 401 "Invalid token" when the token does not decode or has no integer subject; 401 "User not found" when no user has the id; otherwise that user's id and name |
| `Accounts.MeOfSubject` | Main.py:94-98 | a token whose subject is a stored user's id resolves to that user |
| `Accounts.LoginThenMe` | Main.py:65-98 | a stored name with a password that verifies logs in, and the token issued, sent as "Bearer <token>", makes `/auth/me` answer with that user |

## Left out

- Rendering: JSX, styles, `AvatarLetter`, `formatTime`, the sidebar markup and focus handling (`setTimeout(... focus())`) are presentation only.
- `localStorage` is the `storedToken` field. `fetch`, JSON parsing in `safeJson` and the request bodies are modelled only through their outcomes, `Client.Reply` and `Result`.
- The `detail` of an error body is taken to be a string when present; a non-string `detail` is not modelled. The framework's 422 for the length bounds of `Schemas.ValidateRegister` carries a list as `detail`, which `data?.detail ||` (app.jsx:80) keeps, so the form would show the list converted to a string ("[object Object]") instead of a readable message; `Client.Api` does not model that list.
- Plain setters (`setMsgText`, `setAuthUser`, `setNewChatName` and the like) are direct writes to the fields of `ChatApp.App`. The drawer's open and close events (app.jsx:515, 554) have no method of their own: `drawerOpen` is set to true or false by such a write.
- `ChatApp.App.BeginConversationPoll` and `ChatApp.App.BeginMessagePoll` do not model a poller that outlives its effect: a tick's `finally` (app.jsx:311, 344) sets a new timer even after the cleanup (app.jsx:318, 351) cleared the old one, so a torn-down poller keeps requesting with its old token and selection. Such a tick still sets the loading flag (app.jsx:297, 331), and since `cancelled` stays set, nothing resets it to false. The model only has the ticks of the live effect.
- Timers: polls re-arm every 2500 ms and 1200 ms. Interleavings of ticks, effects and user events are not modelled: each handler is one atomic step, and the caller chooses the order.
- The `selectedIdRef` copy of the selection is not modelled: the conversation poll reads `selectedId` itself. The ref lags `selectedId` by one render.
- `requestAnimationFrame(scrollToBottom)` is the boolean that `ChatApp.App.MessagesPolled` returns; the DOM scroll itself is not modelled.
- `ChatApp.App.SendMessage`: with no profile, the message shown is the V8 TypeError text. Other JavaScript engines word it differently.
- `Text.Trim`, `Client.Words` and `Accounts.NormalizeUsername` know only the ASCII whitespace and ASCII letter case. Unicode whitespace (such as U+00A0 and U+2028) and Unicode case mapping are not modelled.
- `Accounts.SubjectId` does not model a floating-point `sub` claim, which `int()` truncates, or `int()`'s limit on the number of digits. `Accounts.ParsePyInt` accepts only ASCII digits, while Python's `int()` also accepts other Unicode decimal digits (`int("١٢") == 12`) and Unicode whitespace around them.
- `Client.InitialsFor` works on characters (code points): a character outside the Basic Multilingual Plane is one character here, while JavaScript indexes strings by UTF-16 code units, so `parts[0][0]` of such a word is a lone high surrogate in the browser. `Client.HashColor` does use the UTF-16 code units.
- `ChatApp.NearBottom` takes all three DOM metrics as real numbers; `scrollHeight` and `clientHeight` are integers in the DOM, which the model does not require.
- Password hashing (bcrypt), JWT signing, expiry and signature checking are parameters (`passwordHash`, `verify`, `issue`, `decode`). `auth.py` is not part of this model beyond the `str(user_id)` claim.
- The database is the `users` map and the `nextId` counter. Queries, sessions, commits and concurrent registrations are not modelled.
- CORS setup, `/health` and the `src/App.jsx` health-check page are not part of this model.
