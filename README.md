# InfuseSecret message service, modelled in Dafny

InfuseSecret puts a QR code on a bottle. The code links to a short secret message. A visitor opens the link, taps a lock icon three times, and the message is revealed with a burst of falling theme emojis. Each reveal increments the message's scan counter. The author keeps a secret edit key that lets them change or delete the message later.

This project models the two halves of that system and proves properties of both:

- **The back-end API.** It is a set of route handlers over one MySQL table, `messages`. Here the handlers are methods of a class `MessageTable` whose only field is the table, held as a map from id to row.
  - Each handler runs the same guard checks in the same order, and returns the same status and error text, as the original.
  - Each SQL statement the handlers issue is a pure function on the table.
  - The table invariant follows the DDL: every row sits under its own primary key, ids and edit keys have the shape their generators give them, and edit keys are unique. It is proved to hold after every handler.
- **The single-page client.** It covers:
  - the hash router and the page dispatch of `App`;
  - the reveal state machine of `MessageView`: click counting, the unlock, the one scan request and the burst of icons;
  - the countdown text and the progress dots;
  - the theme-template fallback;
  - the guards of the create and edit forms.

Modules, one file each:

- `Common` (common.dfy): `Option` and `Min`.
- `Text` (text.dfy): JavaScript's `String.prototype.trim` and `split` on one character, and `startsWith`.
  - `Trim` strips the full ECMAScript WhiteSpace and LineTerminator set.
  - `Split` comes with its inverse `Join` and round-trip lemmas in both directions.
- `Hex` (hex.dfy): `Buffer.toString('hex')`, with a decoder, and proofs that encoding is injective and that the token holds no `/` and no `#`.
- `Schema` (schema.dfy): the row, the table invariant, the INSERT/UPDATE/DELETE statements as table functions, and the column projections the reads select.
- `Server` (server.dfy): the handlers, the two reads and the admin listing.
  - The listing is a selection loop. It is proved against a specification: the 100 newest rows, newest first, with any order among rows whose `created_at` is equal.
- `Reveal` (reveal.dfy): `MessageView`, as a pure click function and a class that holds the component's state.
- `Router` (router.dfy): `window.location.hash`, route parsing, page dispatch, and the `App` state with its effects and buttons.
- `ClientForms` (client.dfy): what the create and edit forms send, and when they send nothing.
- `Flow` (flow.dfy): end-to-end lemmas. They state that:
  - the returned link opens the created message;
  - a created message reads back by id and by edit key;
  - saving an unchanged edit form keeps the row's content;
  - one viewing session adds at most one scan.

Outside inputs are parameters:

- the random bytes behind ids and keys;
- the current time (a `nat` of seconds);
- `FRONTEND_URL`;
- the server's answer to a client fetch;
- the value `window.prompt` returns;
- the `Math.random()` draws, as reals in [0, 1).

The freshness of the random id and edit key is a precondition of `Create`. The retry-free original relies on the same thing.

Two observations the proofs make explicit:

- **`Unlocking...` is never shown.** Clicks are sequential, so the third click unlocks the view in the same handler that makes `remainingClicks` zero. The `Unlocking...` branch of the countdown text therefore never renders in the locked view (`Reveal.LockedPromptCountsDown`).
- **`#/view/` with no id never loads.** The link sets an empty id. The fetch effect treats an empty id as no id, so the page stays on "Loading message..." (`Router.EmptyViewIdIsFalsy`).

## Model

| member | source | states |
|---|---|---|
| Text.Trim | backend/server.js:95 | the result is a slice of the input with only whitespace before and after it, and it neither starts nor ends with JavaScript whitespace (so the slice is exactly what `trim` keeps); it is empty exactly when the input is all whitespace |
| Text.TrimIdempotent | backend/server.js:111 | trimming a trimmed message changes nothing, so a stored message is its own trim |
| Text.Split | frontend/src/App.js:723 | `split('/')` yields at least one piece and no piece contains the separator |
| Text.JoinSplit | frontend/src/App.js:723 | joining the pieces of a split with the separator gives back the original string |
| Text.SplitJoin | frontend/src/App.js:723 | splitting a join of separator-free pieces gives back the pieces |
| Text.SplitWithoutSeparator | frontend/src/App.js:723 | a string without the separator splits into itself alone |
| Text.SplitAfterPiece | frontend/src/App.js:723 | a separator-free piece followed by the separator is split off as the first piece |
| Hex.HexEncode | backend/server.js:35-42 | `randomBytes(n).toString('hex')` is a token of exactly 2n lower-case hex digits |
| Hex.DecodeEncode | backend/server.js:35-42 | hex decoding inverts the encoding |
| Hex.HexEncodeInjective | backend/server.js:35-42 | distinct random bytes give distinct ids and keys |
| Hex.HexTokenHasNoDelimiters | backend/server.js:120 | an id contains neither `/` nor `#`, so it survives embedding in a `#/view/` link |
| Hex.DigitValue | backend/server.js:36 | every hex digit character has a value below 16 that maps back to it |
| Schema.ParseTheme | backend/server.js:99-101 | a theme is accepted exactly when it is one of the four ENUM names, and then it names that theme |
| Schema.ParseThemeName | backend/server.js:59 | every ENUM value's name is accepted as that value |
| Schema.OrNull | backend/server.js:111 | `v \|\| null` is NULL exactly when the field is absent or empty, and otherwise keeps the value |
| Schema.NewRow | backend/server.js:57-65 | the inserted row carries the given columns, `scan_count` 0, and both timestamps at the insert time |
| Schema.SetContent | backend/server.js:202-207 | the UPDATE rewrites message, photo, quote and `updated_at` of row `id` only; every other column and every other row is unchanged |
| Schema.IncrementScan | backend/server.js:225-228 | the counter of row `id` grows by one and `updated_at` moves to now (ON UPDATE clause, line 65); nothing else changes |
| Schema.DeleteRow | backend/server.js:258 | exactly row `id` disappears and all others are kept as they were |
| Schema.IncrementScanTimes | backend/server.js:225-228 | repeated increments keep the table's set of ids |
| Schema.IncrementScanAddsUp | backend/server.js:225-228 | n sequential increments add exactly n to the counter, touching no other column or row |
| Schema.TableInvariant | backend/server.js:57-62 | in a table satisfying it every primary key is a 16-digit hex id, and an edit key determines its row (UNIQUE edit_key) |
| Schema.InsertKeepsInvariant | backend/server.js:57-62 | inserting a well-formed row under a fresh id with a fresh edit key keeps PRIMARY KEY, UNIQUE edit_key and row well-formedness |
| Schema.IdentitiesKeptKeepInvariant | backend/server.js:57-62 | an UPDATE that leaves both key columns alone and writes well-formed rows keeps the uniqueness constraints |
| Schema.RowEditWellFormed | backend/server.js:57-63 | a write that keeps id and edit key and stores a trimmed non-empty message, NULL-or-non-empty optionals and an in-range counter keeps the row well formed |
| Schema.SetContentKeepsInvariant | backend/server.js:202-207 | the content UPDATE keeps the table invariant for a trimmed non-empty message and NULL-or-non-empty optionals |
| Schema.IncrementScanKeepsInvariant | backend/server.js:225-228 | the counter UPDATE keeps the invariant while the counter is below the INT maximum |
| Schema.DeleteRowKeepsInvariant | backend/server.js:258 | deletion keeps the invariant |
| Schema.Project | backend/server.js:136 | the read projection copies exactly the seven selected columns from the row |
| Schema.Summarize | backend/server.js:275 | the listing row copies id, theme, scan_count and created_at, and its preview is the message's prefix of length min(50, length) |
| Schema.ProjectionsHideSecrets | backend/server.js:136-160 | neither projection changes when the edit key or `updated_at` changes |
| Schema.Preview | backend/server.js:275 | `LEFT(message, 50)` is the prefix of the message of length min(50, length) |
| Server.MessageMissing | backend/server.js:95 | `!message \|\| !message.trim()` holds exactly when the field is absent or consists of whitespace only (the empty string included) |
| Server.Authorized | backend/server.js:192-199 | on a table satisfying the invariant, `SELECT id ... WHERE id = ? AND edit_key = ?` finds a row exactly when some row has both that id and that edit key |
| Server.FrontendUrl | backend/server.js:45-47 | the configured URL when set and non-empty, `http://localhost:3000` otherwise |
| Server.ViewUrl | backend/server.js:120 | the view link is the front-end URL followed by `/#/view/` and the id |
| Server.GetById | backend/server.js:135-145 | found exactly when the id is a key, then the selected columns of that row (no edit key), otherwise 404 `Message not found` |
| Server.GetByEditKey | backend/server.js:158-168 | found exactly when some row has that edit key, then that row's selected columns, otherwise 404 `Invalid edit key` |
| Server.ReadsAgree | backend/server.js:135-168 | reading by a row's edit key gives the same answer as reading by its id |
| Server.ReadByEditKeyIsReadById | backend/server.js:158-168 | any successful read by edit key equals the read by the id it returned |
| Server.ReadByIdHidesEditKeys | backend/server.js:136 | two tables that differ only in edit keys answer every read by id identically |
| Server.ExtendListing | backend/server.js:274-278 | appending a newest remaining row keeps a partial listing sorted, distinct and complete-so-far |
| Server.ExtendCovers | backend/server.js:274-278 | moving the newest remaining row into the listing keeps listed and remaining ids a partition of the table |
| Server.ExtendOrdered | backend/server.js:274-278 | appending a newest remaining row keeps the listing distinct, newest first, and no older than anything still remaining |
| Server.ListedIdsAppend | backend/server.js:274-278 | the ids of a listing grow by the appended row's id |
| Server.FinishListing | backend/server.js:274-278 | a partial listing that reached 100 rows or ran out of rows is the admin listing |
| Server.ListingHidesEditKeys | backend/server.js:275 | the admin listing does not depend on edit keys |
| Server.MessageTable.constructor | backend/server.js:55-68 | the table starts empty and satisfies the invariant |
| Server.MessageTable.Create | backend/server.js:90-122 | 400 `Message is required` for absent or blank text, then 400 `Invalid theme`, else 201 with the hex id, the hex key and the view link, and the trimmed message inserted with NULL for empty optionals; the invariant holds |
| Server.MessageTable.Update | backend/server.js:177-212 | 400 `Message is required`, then 400 `Edit key is required`, then 403 unless (id, key) names a row, else the content UPDATE; the table changes only for an authorised key |
| Server.MessageTable.Scan | backend/server.js:221-235 | no authorisation; 500 `Failed to update scan count` when the counter is at the INT maximum, else success with the increment (an unknown id leaves the table as it is) |
| Server.MessageTable.Delete | backend/server.js:239-263 | 400 `Edit key is required`, then 403 `Invalid edit key` unless (id, key) names a row, else that row is removed and a later read by id is 404 |
| Server.MessageTable.NewestOf | backend/server.js:277 | returns a candidate whose `created_at` is not smaller than any other candidate's |
| Server.MessageTable.ListRecent | backend/server.js:272-281 | the listing has min(100, rows) distinct entries, each the 50-character summary of a row, sorted by `created_at` descending, and no unlisted row is newer than a listed one |
| Reveal.TemplateOf | frontend/src/App.js:8-37 | each theme's template has its six emojis |
| Reveal.TemplateFor | frontend/src/App.js:58 | a known theme key selects its template and any other key falls back to the `general` template |
| Reveal.Click | frontend/src/App.js:81-95 | a click on an unlocked view changes nothing; a locked click counts one more, unlocks exactly when the count reaches 3, and adds a scan exactly then |
| Reveal.ClickIgnoredWhenUnlocked | frontend/src/App.js:82 | a click on an unlocked view changes nothing |
| Reveal.ClickWhileLocked | frontend/src/App.js:88-95 | a locked click counts one more, unlocks exactly when the count reaches 3, and sends a scan exactly then |
| Reveal.ClickKeepsConsistent | frontend/src/App.js:81-117 | a click keeps count ≤ 3, unlocked ⇔ count = 3, and scans sent = 1 iff unlocked |
| Reveal.ClicksKeepConsistent | frontend/src/App.js:81-117 | any run of clicks keeps that consistency |
| Reveal.ClicksFromFresh | frontend/src/App.js:61-117 | after n clicks the count is min(n, 3), the view is unlocked iff n ≥ 3, and one scan was sent iff n ≥ 3 (never two) |
| Reveal.RemainingClicks | frontend/src/App.js:119 | `max(0, 3 - clickCount)`: zero exactly from the third click, and adds up to 3 with the count |
| Reveal.CountdownLabel | frontend/src/App.js:148 | `Unlocking...` exactly at zero, else the digit first and the plural `s` exactly above one |
| Reveal.Prompt | frontend/src/App.js:141-149 | the invitation text exactly before the first click; after one or two clicks the text starts with the number of clicks left; from the third on it is `Unlocking...` |
| Reveal.LockedPromptCountsDown | frontend/src/App.js:141-149 | in the locked view the prompt is never `Unlocking...`, and after a click it starts with the number of clicks left |
| Reveal.Dots | frontend/src/App.js:151-157 | three dots, dot i filled exactly when i < clickCount |
| Reveal.EmojiIndex | frontend/src/App.js:102 | `floor(random * length)` is a valid index into the emoji list |
| Reveal.MakeIcons | frontend/src/App.js:98-107 | twenty icons with ids 0 to 19, each showing the emoji its draw selects |
| Reveal.MessageView.constructor | frontend/src/App.js:57-65 | a fresh view: no clicks, locked, no icons, no confetti, no scan sent, template by theme with fallback |
| Reveal.MessageView.HandleClick | frontend/src/App.js:81-117 | the state moves by `Click`; on the unlocking click confetti starts, the burst appears and the scan of this message is requested; otherwise the burst and requests stay |
| Reveal.MessageView.StopConfetti | frontend/src/App.js:115 | the timer clears only the confetti flag |
| Router.LocationHash | frontend/src/App.js:721 | the hash is empty when the URL has no `#`, and a non-empty hash starts with `#` and has something after it |
| Router.LocationHashIsFragment | frontend/src/App.js:721 | for a URL with a `#`, the hash is everything from the first `#` on, or the empty string when nothing follows that `#` |
| Router.LocationHashSkipsPrefix | frontend/src/App.js:721 | characters before the first `#` do not affect the hash |
| Router.HashPath | frontend/src/App.js:721 | `hash.slice(1)`: the hash without its first character, and empty for an empty hash |
| Router.ViewPathPieces | frontend/src/App.js:723 | a `/view/` path has at least three pieces and the third is the first piece after the prefix |
| Router.ParseRoute | frontend/src/App.js:721-732 | view exactly for a `/view/` prefix, create and edit exactly for their paths, home otherwise; an id only for view |
| Router.ViewRouteRoundTrip | frontend/src/App.js:722-725 | `/view/<id>` routes to the view page of that id when the id has no `/` |
| Router.ViewRouteIgnoresTail | frontend/src/App.js:723 | whatever follows the id after another `/` is ignored |
| Router.EmptyViewIdIsFalsy | frontend/src/App.js:723-737 | `/view/` yields the empty id, which the fetch effect treats as absent |
| Router.Dispatch | frontend/src/App.js:756-796 | message screen iff view with data, loading iff view without, create form iff create without a result, QR result iff create with one, edit iff edit, home iff home |
| Router.App.constructor | frontend/src/App.js:714-717 | home page, no id, no result, no data |
| Router.App.RouteFromHash | frontend/src/App.js:720-733 | the page is the parsed route's; the id is set only on the view route |
| Router.App.LoadMessage | frontend/src/App.js:736-753 | fetches only on the view page with a non-empty id; success stores the data, an error goes home |
| Router.App.ShowQrResult | frontend/src/App.js:774 | the create result is stored and nothing else changes |
| Router.App.CreateAnother | frontend/src/App.js:783-786 | the result is cleared, so the form shows again |
| Router.App.OpenCreate | frontend/src/App.js:815-819 | create page with no result |
| Router.App.OpenView | frontend/src/App.js:828-835 | a non-empty prompt answer opens the view page of that id; otherwise nothing changes |
| Router.App.OpenEdit | frontend/src/App.js:844-847 | edit page, nothing else changes |
| Router.App.CurrentScreen | frontend/src/App.js:756-779 | the message screen shows exactly on the view page with data, the QR result exactly on the create page with a result |
| ClientForms.EmptyCreateFormRefused | frontend/src/App.js:304-317 | the form as first shown is refused on the client, and its preselected theme `romantic` is accepted by the server |
| ClientForms.SubmitCreate | frontend/src/App.js:313-325 | nothing is sent exactly when the message is blank; otherwise the form is posted as it stands |
| ClientForms.SubmittedCreatePassesMessageCheck | frontend/src/App.js:379 | a submitted form with a picker theme passes the server's message and theme checks, and its empty optionals are stored as NULL |
| ClientForms.LookupKey | frontend/src/App.js:558-563 | no lookup exactly when the key field is blank; otherwise the key is sent untrimmed |
| ClientForms.EmptyIfNull | frontend/src/App.js:570-571 | NULL becomes the empty field, and sending the field back stores the same value |
| ClientForms.EditFormOf | frontend/src/App.js:568-572 | the form holds the loaded message, and its optional fields, sent back, give the stored values |
| ClientForms.SubmitUpdate | frontend/src/App.js:583-595 | nothing is sent exactly when the message is blank; otherwise the form plus the typed key is sent |
| ClientForms.SubmittedUpdatePassesMessageCheck | frontend/src/App.js:584 | a sent update never fails the server's message check, and carries a key exactly when one was typed |
| Flow.ViewLinkOpensMessage | backend/server.js:120 | the create handler's link, opened in the client, routes to the view page of exactly the created id |
| Flow.ViewLinkPath | frontend/src/App.js:721 | for a front-end URL without `#`, the client's route path of a view link is `/view/` followed by the id |
| Flow.CreatedMessageReadable | backend/server.js:108-120 | right after a create the table invariant holds and the message reads back by id and by edit key, trimmed, with zero scans |
| Flow.UnchangedEditKeepsContent | frontend/src/App.js:558-595 | loading and saving an unchanged edit form passes every server check and leaves the row's content as it was |
| Flow.SessionCountsOneScan | frontend/src/App.js:111 | however often a visitor clicks in one session, the scan counter grows by one if the view unlocked and not at all otherwise |

## Left out

- Express wiring, CORS, JSON body parsing, the health route, and the 404 and 500 fallback handlers (server.js:290-297): infrastructure with no logic of its own.
- The connection pool, running the DDL, startup and shutdown: I/O. The DDL's constraints are modelled as the table invariant.
- Server.MessageTable.Create: a collision of the random id or edit key would be a 500 from the database. The model requires fresh values instead, because a collision is an event of the random source.
- Concurrency: each handler is atomic here. The real handlers read and then write without a transaction, so concurrent requests can interleave between the check and the write.
- Comparisons in `WHERE id = ?` and `WHERE edit_key = ?` use the table's `utf8mb4_unicode_ci` collation, which compares by primary weight (case, full-width and other compatibility variants, ignorable characters); the model uses exact equality. So a request whose id or key is equal to a stored one under the collation but not as a string is answered as a miss in the model and as a hit by the server.
- ClientForms.LookupKey: the typed key is put into the URL path unencoded (frontend/src/App.js:563) and the server percent-decodes the path parameter, so the key the server compares is not always the typed string (`%30...` finds a key starting `0...`, after which the update, which sends the raw typed key in the body, answers 403). The model sends the typed key as it is and does not model URL encoding.
- Server.MessageTable.Scan: the 500 at the INT maximum assumes strict SQL mode; in a non-strict mode MySQL clamps the value to the maximum instead, so the row stays as it is and the handler answers success, which the model does not capture.
- Column widths (VARCHAR(500) and VARCHAR(255)) and non-string JSON values in request bodies: not modelled.
- Database failures other than the scan counter passing the INT maximum, which would each answer 500: not modelled.
- `created_at` and `updated_at` are natural numbers given by the caller; the TIMESTAMP range and time zones are not modelled.
- Styling, sounds, the shake animation, preview mode, clipboard copy, QR rendering and download: presentational.
- Reveal.MakeIcons: the random delay, duration and left position of each icon are not modelled, and neither is floating-point rounding of `Math.random() * length`.
- Reveal.MessageView.HandleClick: the scan request is recorded as the id it names. The fetch itself and its failure (which is only logged) are not modelled.
- Reveal.TemplateFor: `ThemeTemplates[key]` would also find inherited `Object.prototype` members for keys such as `constructor`. The model treats every key other than the four themes as unknown.
- Router.App.LoadMessage: a network failure and an answer with an `error` field both send the client home, so both are the non-`Ok` case. The model does not capture `alert`, and it does not capture that the fetch can resolve after the page has changed.
- Writes to `window.location.hash` by the buttons: no listener reads them after mount, so they do not change the model's state.
- The edit page's own loading, success and message state (frontend/src/App.js:551-555, 598-609): its guards are modelled in `ClientForms`, and its display flags are left out.
