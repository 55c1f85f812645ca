# Conference site: accounts, sessions, applications and the thesis counter

A verified Dafny model of the two pieces of the conference website that hold
state logic:

- **The FastAPI back end (`main.py`)**: registration, login with session
  cookies, logout, password reset by one-time token, the application form
  (two routes), thesis submission, and what the apply and profile pages are
  given. The database is five tables — users, sessions, password resets,
  theses, applications — held as Dafny sequences and maps (`Schema.Tables`).
  Each handler is a pure function from the tables before a request to the
  reply and the tables after it (module `Handlers`); the class `Server.App`
  holds the same tables as fields and implements each handler as a method
  that checks its guard and inserts, updates or deletes in place, proved to
  end in exactly the state the function describes and to keep the table
  invariant `Schema.Valid` (unique emails, row ids, foreign keys, NOT NULL
  columns, at most one application per user). The properties that matter —
  session lifetime with its inclusive expiry, single-use reset tokens, the
  72-byte password key, one application per user, role-dependent fields —
  are lemmas in `HandlerProperties` and `Passwords`.
- **The thesis form script (`scripts/thesis.js`)**: the submission count read
  from the counter text, the submit control's disabled flag, the counter
  text, the form fields and the notification. `ThesisForm.Step` gives the
  effect of one run of the submit handler for each outcome (OK response,
  error response, failed request), `ThesisForm.ThesisPage` is the page's
  state as an object with one method per outcome, and the lemmas show that
  the count moves only on success and that nothing re-enables the control.
  After a success below 5 the counter text reads back as the new count, and
  once the limit text is written it reads as 5. The two can drift apart: an
  error response whose message contains "не более 5" writes the limit text
  but leaves the count as it was, so below 5 the text then reads 5 while the
  script still holds the smaller count
  (`ThesisForm.LimitMessageLeavesCountBehind`).

The outside world is made explicit: the clock (`utcnow()`) is a `now`
parameter in whole seconds, `uuid4()` is a token parameter required not to
be in use, bcrypt's random salt is a parameter, and bcrypt itself is the
constructor `Bcrypt(salt, key)` — a collision-free function of the salt and
the first 72 bytes of the UTF-8 encoded password. passlib refuses a key that
holds a NUL byte (`Passwords.Hashable`). Registration and reset confirmation
with such a password then fail with 500 and store nothing. Login fails the
same way when the email is known; for an unknown email it answers 401 before
the password is looked at.

The model follows the code: the server sets no limit on theses; the client does not disable the
control while a request is in flight and never re-enables it; the control is
disabled at a count of 5 or more, or by a server message containing
"не более 5", so a count above 5 is possible when the page is rendered with
one; and POST /apply leaves the NOT NULL columns `role`, `full_name` and
`email` empty (main.py:95-97, 386-390), so its commit always fails and it
never stores an application (`HandlerProperties.ApplyVariantNeverStores`).

## Model

| member | source | states |
|---|---|---|
| `Passwords.HashPassword` | main.py:140-141 | the hash of the password's 72-byte key under the given salt; `VerifyAgainstHash` and `TailIgnored` state what it lets through |
| `Passwords.VerifyPassword` | main.py:144-145 | rehashes the key with the stored salt and compares; `VerifyAgainstHash` and `SameKeyInterchangeable` state when it holds |
| `Passwords.Hashable` | main.py:140-145 | passlib accepts the key exactly when it holds no NUL byte; `Utf8HasNul`, `NoNulHashable` and `EarlyNulRefused` say which passwords those are |
| `Passwords.Utf8HasNul` | main.py:141 | the UTF-8 encoding holds a NUL byte exactly when the password holds a NUL character |
| `Passwords.NoNulHashable` | main.py:140-145 | a password without a NUL character is always accepted |
| `Passwords.EarlyNulRefused` | main.py:140-145 | a NUL character whose encoding starts within the first 72 bytes makes the password refused |
| `Passwords.EncodeChar` | main.py:141 | one character encodes to one to four bytes, one byte exactly for ASCII, equal to its code |
| `Passwords.Utf8` | main.py:141 | a string's encoding has between one and four bytes per character |
| `Passwords.Utf8Append` | main.py:141 | encoding distributes over concatenation |
| `Passwords.BcryptKey` | main.py:141 | the key is a prefix of the UTF-8 encoding, at most 72 bytes, and the whole encoding when shorter than 72 |
| `Passwords.VerifyAgainstHash` | main.py:140-145 | a password checks against a stored hash exactly when its 72-byte key equals the key that was hashed, whatever the salt |
| `Passwords.SameKeyInterchangeable` | main.py:140-145 | two passwords with the same first 72 bytes check identically against every hash |
| `Passwords.TailIgnored` | main.py:141-145 | anything after the first 72 bytes changes neither the key nor the check: `p + tail` verifies against the hash of `p` |
| `Passwords.AsciiKeyLength` | main.py:141 | for an ASCII password the encoding has one byte per character, so the key is its first 72 characters |
| `Wrappers.Get` | main.py:339-345 | `data.get(key)` is present exactly when the key is, with its value |
| `Schema.IndexOfEmail` | main.py:196 | the lookup by email finds the first row with that email, and finds nothing exactly when no row has it |
| `Schema.IndexOfId` | main.py:168 | the lookup by id finds a row with that id, and nothing exactly when no row has it |
| `Schema.IndexOfEmailAppend` | main.py:199-205 | a user appended with an email no row has is the row the email lookup then finds |
| `Schema.IndexOfIdInValid` | main.py:50 | in valid tables the user with id n is row n - 1, and ids outside 1..rows find nothing |
| `Schema.ApplicationsOf` | main.py:306 | the user's applications are exactly the rows with that user id |
| `Schema.ThesesOf` | main.py:305 | the user's theses are exactly the rows with that user id |
| `Schema.AtMostOneApplicationEach` | main.py:331-334 | under the one-per-user rule a user has at most one application, and exactly one when any row is theirs |
| `Schema.HasApplication` | main.py:282-283 | `filter_by(user_id=...).first()` finds a row: some application row has the user's id; `AtMostOneApplicationEach` proves that this holds exactly when the user's list has one row, and `PageApplyReports`, `SubmitApplicationOutcome` and `OneApplicationPerUser` use it for the guards of main.py:332-333 and 382-383 |
| `Schema.Complete` | main.py:95-97 | the NOT NULL columns `role`, `full_name` and `email` all hold values; `ApplicationFields` proves a form-built row is complete exactly when the form has the three keys, and `ApplyVariantNeverStores` that the POST /apply row never is |
| `Schema.Valid` | main.py:50-51 | the table invariant: ids 1, 2, … in row order, unique emails, every `user_id` of sessions, resets, theses and applications naming a user (main.py:65, 74, 82, 94), the NOT NULL columns filled (main.py:95-97) and at most one application per user; the `…KeepsValid` lemmas and every `…Outcome` lemma prove the handlers keep it |
| `Handlers.LastApplication` | main.py:309 | the last application is None exactly for an empty list and otherwise the list's last element |
| `Handlers.CreateSession` | main.py:148-156 | adds one session row for the user expiring after the chosen lifetime; `CreateSessionKeepsValid` and `LoginSessionLifetime` state its effect |
| `Handlers.SessionTtl` | main.py:150 | 30 days with `remember`, 2 hours without; `LoginOutcome` gives the new session this lifetime and `SessionAdmitsUntilExpiry` and `LoginSessionLifetime` prove the session admits its user exactly up to now plus it |
| `Handlers.HasToken` | main.py:160-161 | `if not token`: a cookie that is absent or empty is no token; `CurrentUserIff` proves a user is found only with one, and `LogoutOutcome` that only then is a session deleted (main.py:222-223) |
| `Handlers.RememberFlag` | main.py:182 | `bool(data.remember)` of a field that defaults to False and may be null, so only an explicit true counts; `LoginOutcome` and `LoginAtRow` choose the session lifetime from it as main.py:215 does |
| `Handlers.CurrentUser` | main.py:159-168 | the user of the cookie's unexpired session; `CurrentUserIff` states exactly when there is one |
| `Handlers.Register` | main.py:194-206 | POST /register; `RegisterOutcome` and `RegisterKeepsValid` state its outcomes |
| `Handlers.Login` | main.py:209-217 | POST /login; `LoginOutcome`, `LoginRefused`, `LoginNulRefused`, `LoginAccepted` and `LoginSessionLifetime` state its outcomes |
| `Handlers.Logout` | main.py:220-229 | GET /logout; `LogoutOutcome` states its effect |
| `Handlers.ResetRequest` | main.py:234-247 | POST /reset-password; `ResetRequestOutcome` states its outcomes |
| `Handlers.ResetConfirm` | main.py:255-266 | POST /reset-confirm; `ResetConfirmOutcome`, `ResetTokenSingleUse` and `ResetThenLogin` state its outcomes |
| `Handlers.PageApply` | main.py:277-288 | what GET /apply shows; `PageApplyReports` states when it reports an application |
| `Handlers.PageProfile` | main.py:299-320 | what GET /profile shows; `ProfileLastApplication` states its contents |
| `Handlers.ApplicationFromForm` | main.py:337-347 | the row built from the JSON body; `ApplicationFields` states each field |
| `Handlers.Commit` | main.py:349-350 | insert and commit, failing with 500 on an empty NOT NULL column; `SubmitApplicationOutcome` and `ApplyVariantNeverStores` state its effect |
| `Handlers.SubmitApplication` | main.py:325-352 | POST /application/submit; `SubmitApplicationOutcome` and `OneApplicationPerUser` state its outcomes |
| `Handlers.SubmitApplicationViaApply` | main.py:375-394 | POST /apply; `ApplyVariantNeverStores` and `OneApplicationPerUser` state its outcomes |
| `Handlers.PyStr` | main.py:388 | the f-string's `str()` of `data.get('role')`: the string itself, or "None" when absent; the title it builds is never stored, as `ApplyVariantNeverStores` proves |
| `Handlers.SubmitThesis` | main.py:355-373 | POST /thesis/submit, with an empty title refused as a missing required form field; `SubmitThesisOutcome` states its outcomes |
| `HandlerProperties.CurrentUserIff` | main.py:159-168 | a caller is logged in exactly when the cookie holds a non-empty token of a stored session whose expiry is not before now (a session expiring now still counts), and the user is the session's |
| `HandlerProperties.AddUserKeepsValid` | main.py:199-205 | appending the next user with an email no row has keeps every table invariant |
| `HandlerProperties.RegisterKeepsValid` | main.py:194-206 | registration keeps emails unique and every table invariant |
| `HandlerProperties.RegisterOutcome` | main.py:194-206 | a taken email gives 400 and no change; a free email with a password passlib refuses gives 500 and no change; otherwise exactly one user is appended, found by that email, with that full name and a hash the password checks against, and nothing else changes |
| `HandlerProperties.CreateSessionKeepsValid` | main.py:148-156 | the new session of the user at row i is the one row added, recording that user's id and now + lifetime, and the tables stay valid |
| `HandlerProperties.EmailLookupInValid` | main.py:210 | with unique emails the lookup by a user's email finds that user's row |
| `HandlerProperties.LoginAtRow` | main.py:209-217 | a login by the user at row i with an accepted password that checks answers success and adds exactly that user's session, keeping the tables valid |
| `HandlerProperties.LoginRefused` | main.py:209-213 | when no user has both that email and that password, login answers 401 and leaves every table unchanged, unless the email is known and passlib refuses the password |
| `HandlerProperties.LoginNulRefused` | main.py:209-213 | for a known email and a password passlib refuses, login answers 500 and leaves every table unchanged |
| `HandlerProperties.LoginAccepted` | main.py:212-217 | when a user has that email and an accepted password that checks, login answers success and adds one session for that user and nothing else |
| `HandlerProperties.LoginOutcome` | main.py:209-217 | a known email with a password passlib refuses gives 500; otherwise, without a matching email and password the reply is 401; neither stores anything; with a match, exactly one session is added, for that user, expiring at now + 30 days when remember is true and now + 2 hours otherwise |
| `HandlerProperties.SessionAdmitsUntilExpiry` | main.py:148-168 | a new session for a user admits exactly that user up to and including its expiry, and nobody after it |
| `HandlerProperties.LoginSessionLifetime` | main.py:148-168 | the session a successful login creates admits its user up to and including now + lifetime and not after |
| `HandlerProperties.LogoutOutcome` | main.py:220-229 | logout redirects home, removes the cookie's session so it no longer logs anyone in, and keeps every other session and table |
| `HandlerProperties.ResetRequestOutcome` | main.py:234-247 | the reply is the same message whether or not the email is known; unknown emails store nothing, a known one adds exactly one reset row for that user expiring at now + 1 hour |
| `HandlerProperties.PasswordChangeKeepsValid` | main.py:260-264 | replacing one user's hash and deleting a reset row keeps every table invariant |
| `HandlerProperties.ResetConfirmOutcome` | main.py:255-266 | a missing or expired token gives 400 and no change; a new password passlib refuses gives 500 and no change; otherwise that user's hash is replaced by the new password's, every other user is unchanged, and the reset row is deleted |
| `HandlerProperties.ResetTokenSingleUse` | main.py:257-264 | after a successful confirmation the same token is refused with 400 and changes nothing |
| `HandlerProperties.ResetThenLogin` | main.py:209-266 | after a reset the user logs in with exactly the passwords whose 72-byte key equals the new password's, and a password passlib refuses gets 500 |
| `HandlerProperties.ApplicationFields` | main.py:337-347 | the built row is "pending"; interests are set only for a listener, title and thesis only for a speaker, each from the body; full_name, email and contact are the body's values, the time is now; the NOT NULL fields are filled exactly when the body has role, full_name and email |
| `HandlerProperties.SubmitApplicationOutcome` | main.py:325-352 | 401 without a live session and 400 for a user who already applied, both storing nothing; otherwise the built row is appended, or the commit fails with 500 on a missing NOT NULL field; the one-per-user invariant is kept |
| `HandlerProperties.ApplyVariantNeverStores` | main.py:375-394 | POST /apply always answers with an error (401, 400, or 500 at commit) and never changes the tables |
| `HandlerProperties.OneApplicationPerUser` | main.py:331-334 | once an application is stored, further submissions from the same session by either route are refused and change nothing, and the apply page reports it |
| `HandlerProperties.PageApplyReports` | main.py:277-288 | the apply page reports already_applied exactly when the logged-in user has an application row |
| `HandlerProperties.ProfileLastApplication` | main.py:299-320 | the profile is shown only to a logged-in user; it lists at most one application, and its last application exists exactly when the user applied and is theirs |
| `HandlerProperties.ThesesOfAppend` | main.py:366-371 | appending a thesis adds it to its author's list and leaves every other user's list as it was |
| `HandlerProperties.AddThesisKeepsValid` | main.py:366-372 | storing a thesis whose author is an existing user keeps every table invariant |
| `HandlerProperties.SubmitThesisOutcome` | main.py:355-373 | an empty title gives 422 and no change, whatever the session; otherwise without a live session 401 and no change; otherwise one "submitted" thesis is appended and the user's thesis count grows by one, with no cap |
| `Server.App.constructor` | main.py:108 | the tables start empty and valid |
| `Server.App.Register` | main.py:194-206 | keeps the tables valid and ends in the reply and tables `Handlers.Register` gives |
| `Server.App.CreateSession` | main.py:148-156 | for a user of the table, adds the one session row `Handlers.CreateSession` describes, keeps the tables valid and returns its token |
| `Server.App.Login` | main.py:209-217 | keeps the tables valid and ends as `Handlers.Login` gives |
| `Server.App.Logout` | main.py:220-229 | keeps the tables valid and ends as `Handlers.Logout` gives |
| `Server.App.ResetRequest` | main.py:234-247 | keeps the tables valid and ends as `Handlers.ResetRequest` gives |
| `Server.App.ResetConfirm` | main.py:255-266 | keeps the tables valid and ends as `Handlers.ResetConfirm` gives |
| `Server.App.Commit` | main.py:349-350 | appends the row when its NOT NULL columns are filled and otherwise fails with 500, keeping the tables valid |
| `Server.App.SubmitApplication` | main.py:325-352 | keeps the tables valid and ends as `Handlers.SubmitApplication` gives |
| `Server.App.SubmitApplicationViaApply` | main.py:375-394 | keeps the tables valid and ends as `Handlers.SubmitApplicationViaApply` gives |
| `Server.App.SubmitThesis` | main.py:355-373 | keeps the tables valid and ends as `Handlers.SubmitThesis` gives |
| `PageText.FirstNumber` | scripts/thesis.js:10 | the first run of digits read as a number, or 0 without one; `FirstRunIsRead` and `NoDigitsReadsZero` state what it reads |
| `PageText.Contains` | scripts/thesis.js:49 | `includes`; `ContainsIffOccurs` states when it holds |
| `PageText.DecimalString` | scripts/thesis.js:37 | the decimal notation of a count is a non-empty run of digits |
| `PageText.ParseDecimalRoundTrip` | scripts/thesis.js:10 | parsing the decimal notation of n gives n back |
| `PageText.FromFirstDigit` | scripts/thesis.js:10 | the search for `\d+` starts at the first digit, with only non-digits before it |
| `PageText.LeadingDigits` | scripts/thesis.js:10 | the match is the longest run of digits there |
| `PageText.NoDigitsReadsZero` | scripts/thesis.js:10 | a counter text without digits reads as 0 |
| `PageText.FirstRunIsRead` | scripts/thesis.js:10 | a counter text reads as the value of its first run of digits, whatever precedes or follows it |
| `PageText.ProgressLabelRoundTrip` | scripts/thesis.js:37 | the counter text written after a submission reads back as the same count |
| `PageText.LimitLabelReadsFive` | scripts/thesis.js:41 | the limit text reads as 5, so a page rendered with it starts disabled |
| `PageText.ContainsIffOccurs` | scripts/thesis.js:49 | `includes` holds exactly when the substring occurs at some position |
| `PageText.IsDigit` | scripts/thesis.js:10 | `\d` without the `u` flag: the ASCII digits only; `FromFirstDigit`, `LeadingDigits` and `FirstRunIsRead` state which run of such characters is read |
| `PageText.ParseDecimal` | scripts/thesis.js:10 | `parseInt` of a run of decimal digits; `ParseDecimalRoundTrip` proves it inverts `DecimalString` and `FirstRunIsRead` that `FirstNumber` reads through it |
| `PageText.ProgressLabel` | scripts/thesis.js:37 | the progress label for a count; `ProgressLabelRoundTrip` proves it reads back as that count |
| `ThesisForm.ErrorText` | scripts/thesis.js:46 | the body's message when truthy, else its error, as a string; `RefusedDisablesOnlyOnLimitMessage` states the rest of the error branch |
| `ThesisForm.IsLimitMessage` | scripts/thesis.js:49 | the test for the server's limit message; `RefusedDisablesOnlyOnLimitMessage` and `LimitMessageLeavesCountBehind` state its effect |
| `ThesisForm.Truthy` | scripts/thesis.js:46-49 | JavaScript truthiness of an optional string: present and non-empty; `ErrorText` and `IsLimitMessage` test `result.message` with it, and `RefusedDisablesOnlyOnLimitMessage` states what follows |
| `ThesisForm.Load` | scripts/thesis.js:10-11 | the page after loading; `LoadDisablesAtLimit` states its count and flag |
| `ThesisForm.Step` | scripts/thesis.js:30-63 | one run of the submit handler; `CountMovesOnlyWhenAccepted`, `AcceptedUpdatesLabel`, `RefusedDisablesOnlyOnLimitMessage`, `FailedKeepsCounter`, `DisabledIsFinal` and `StepKeepsLimitEnforced` state its effect |
| `ThesisForm.Run` | scripts/thesis.js:13-63 | attempts as the browser delivers them; `RunMonotone`, `RunStaysWithinLimit` and `FifthAcceptedDisables` state where they lead |
| `ThesisForm.LoadDisablesAtLimit` | scripts/thesis.js:10-11 | the initial count is the counter text's first number and the control starts disabled exactly when the template rendered it so or the count is 5 or more |
| `ThesisForm.CountMovesOnlyWhenAccepted` | scripts/thesis.js:30-63 | the count grows by exactly one on an OK response and is unchanged on an error response or a failed request |
| `ThesisForm.AcceptedUpdatesLabel` | scripts/thesis.js:30-43 | after an OK response the form is cleared; below 5 the counter text is "Вы отправили n / 5 тезисов" and reads back as n with the control as it was; from 5 on it is the limit text and the control is disabled |
| `ThesisForm.RefusedDisablesOnlyOnLimitMessage` | scripts/thesis.js:44-53 | an error response keeps the count and the form, and leaves the control disabled exactly when it was or the message contains "не более 5" |
| `ThesisForm.LimitMessageLeavesCountBehind` | scripts/thesis.js:44-53 | below 5, the limit message disables the control and writes the limit text, which reads 5, while the count stays below 5 |
| `ThesisForm.FailedKeepsCounter` | scripts/thesis.js:58-63 | a failed request changes only the notification: count, counter text, form and disabled flag are unchanged |
| `ThesisForm.DisabledIsFinal` | scripts/thesis.js:11-51 | no outcome re-enables a disabled control |
| `ThesisForm.StepKeepsLimitEnforced` | scripts/thesis.js:36-42 | every outcome keeps "a count of 5 or more means disabled" |
| `ThesisForm.RunMonotone` | scripts/thesis.js:13-63 | from any page, over any sequence of attempts delivered by the browser, the control stays disabled once disabled and the count never decreases |
| `ThesisForm.RunStaysWithinLimit` | scripts/thesis.js:13-63 | a page starting at most at 5 with "5 or more means disabled" keeps that rule and never counts past 5 |
| `ThesisForm.FifthAcceptedDisables` | scripts/thesis.js:30-43 | from a count of 0 on an enabled control, five accepted submissions give a count of 5, the limit text and a disabled control; a sixth attempt is not sent, so the page after six attempts equals the page after five, counter text and notification included |
| `ThesisForm.ThesisPage.constructor` | scripts/thesis.js:9-11 | the page state after loading is `ThesisForm.Load` of the counter text and the rendered flag |
| `ThesisForm.ThesisPage.OnAccepted` | scripts/thesis.js:30-43 | the new state is `Step` of the old one with an OK response |
| `ThesisForm.ThesisPage.OnRefused` | scripts/thesis.js:44-53 | the new state is `Step` of the old one with the error response's message and error |
| `ThesisForm.ThesisPage.OnFailed` | scripts/thesis.js:58-63 | the new state is `Step` of the old one with a failed request |

## Left out

- The database engine, sessions and commits (main.py:31-42, 108, 132-137), the FastAPI app, static mounts, CORS and templates (main.py:113-127): the tables are values and a failed commit is a reply that changes nothing.
- HTTP itself: cookies are set and deleted by the framework (main.py:216, 228); a reply is reduced to a message, a redirect or an error status with its message, and FastAPI's `{"detail": ...}` body for raised errors is not distinguished from `{"message": ...}`.
- Request validation by pydantic and FastAPI (`EmailStr`, absent JSON fields, a JSON body that is not an object): such requests never reach a handler, and a handler's inputs are the values after validation. The one validation failure modelled is the empty `title` form field of POST /thesis/submit (main.py:357), which FastAPI reads as missing and answers with 422; its error body is reduced to a message.
- `EmailStr` normalises an address before the handler sees it (it lowercases the domain, for one): the `email` inputs of `Handlers.Register`, `Handlers.Login` and `Handlers.ResetRequest` are the normalised addresses, so two spellings that normalise alike are one email in the program but two strings here.
- JSON values in the application body are strings; a JSON null and a missing key are both None.
- `uuid4()`, `utcnow()` and bcrypt's salt are inputs; bcrypt is an ideal collision-free function of salt and key, and of passlib's own checks only the refusal of a NUL byte is modelled (the key is never longer than 72 bytes, so its size limit cannot apply); Python strings with lone surrogates, which `encode("utf-8")` rejects, cannot be written as Dafny strings.
- Time is whole seconds rather than datetime's microseconds.
- The `print` of the reset link (main.py:246) and the GET handlers that only render a template or redirect (`index`, `reset_page`, `thesis_page`, main.py:250-252, 271-296).
- Concurrent requests: two registrations racing on the same email (the unique constraint would reject the second) and double submission of the thesis form while a request is in flight.
- `Schema.ApplicationsOf`: states which rows are included, not that their order is row order.
- `Schema.ThesesOf`: states which rows are included, not that their order is row order.
- Row order for `.first()` and `.all()` without `order_by` is taken to be insertion order.
- The transport between scripts/thesis.js and /thesis/submit: the script sends JSON where the handler reads form fields, and a successful handler redirects to an HTML page that `response.json()` cannot parse; the model takes the outcome the script sees as an input.
- In scripts/thesis.js: the notification's 5-second hide timer, the early return when the form is missing, the `fetch` payload, JavaScript's number precision for very long digit runs (the count is unbounded here), message and error fields that are not strings, and `form.reset()` restoring non-empty default values (the fields are taken to default to empty).
- The other scripts (menu.js, apply.js, profile.js, admin.js, contact.js, index.js, program.js, reset.js) and adm.py: DOM wiring, timers and endpoints that main.py does not define.
