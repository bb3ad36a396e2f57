# URL shortener: a Dafny model of the link table and its handlers

The service keeps one table, `urls`, keyed by short code. Each row holds the
target URL, a click counter, an optional expiry and an active flag. One
session flag, `session["admin"]`, gates the admin routes. The request
handlers in `app.py` change that state as follows:

- `index` (POST `/`) inserts a row.
- `redirect_url` (GET `/<code>`) counts a click and redirects.
- `stats` reads one row.
- `login` and `logout` set and clear the admin flag.
- `admin` lists the table.
- `toggle` flips a row's active flag.

The model has three modules:

- `Codes` (`codes.dfy`) covers `generate_code` and its alphabet
  (`string.ascii_letters + string.digits`), `RESERVED_ROUTES`, and the
  `str.strip()` applied to a custom code.
- `Links` (`links.dfy`) models the row as a datatype and the table as a
  `map<string, Link>`. The effect of each handler on the table is a pure
  function: `Create`, `Resolve` and `ToggleActive`. The module also holds
  the lemmas about these functions. The predicate `WellFormed` says no stored
  code is empty or reserved. `Grows` says rows are never removed, URLs and
  expiries never change, and clicks never decrease. Every operation
  preserves both, and so does any sequence of requests (`Run`).
- `App` (`app.dfy`) has the class `Shortener`. Its fields are the table and
  the admin flag, and it has one method per handler.
  - `Index`, `RedirectUrl` and `Toggle` write the table. Each one updates the
    field step by step and is proved equal to the matching `Links` function.
  - `Login` and `Logout` set and clear the admin flag. Their contracts state
    the new flag directly.
  - `Stats` and `Admin` only read. Their contracts state what they return.
  - Two client methods replay the shorten/visit/stats example and the login
    gate.

Inputs the handlers take from outside become parameters:

- The current time is an integer `now`.
- The draws of `random.choice` are a sequence `picks` of indices into the
  62-symbol alphabet.
- The expiry form field is an `Option<int>`: `None` stands for the empty
  field.
- The hashed password check is the predicate `PasswordMatches`. It accepts
  exactly the plaintext that `ADMIN_PASS_HASH` was made from.

The `admin` flag belongs to one client's session. The table is shared.

## Model

| member | source | states |
|---|---|---|
| Codes.GenerateCode | app.py:40-42 | a generated code has the requested length and every character is an ASCII letter or digit |
| Codes.AlphabetIsAsciiAlnum | app.py:41 | the alphabet holds exactly the ASCII letters and digits |
| Codes.AlphabetSize | app.py:41 | the alphabet has 62 symbols: 26 lower-case, 26 upper-case, 10 digits |
| Codes.AlphabetSymbol | app.py:42 | every symbol `random.choice` can draw is a letter or a digit |
| Codes.GenerateCodeReaches | app.py:40-42 | every string of letters and digits can be produced by some sequence of draws |
| Codes.GeneratedReservedCodes | app.py:60-62 | a generated 6-character code is reserved exactly when it is "logout" or "toggle" |
| Codes.ReservedCodesCanBeGenerated | app.py:17 | "logout" and "toggle" are both reachable by the generator |
| Codes.IsReserved | app.py:17 | a code is reserved exactly when it is one of "admin", "login", "logout", "stats", "toggle" (case-sensitive, whole string) |
| Codes.IsSpace | app.py:57 | the whitespace `str.strip()` removes is the set Python's `str.isspace` accepts |
| Codes.Strip | app.py:57 | the stripped code is empty exactly when the input is all whitespace; otherwise it neither starts nor ends with whitespace |
| Codes.StripKeepsTrimmed | app.py:57 | a code without surrounding whitespace is kept as typed |
| Codes.StripIdempotent | app.py:57 | stripping twice is the same as stripping once |
| Codes.StripPadding | app.py:57 | whitespace around a trimmed code is exactly what is removed |
| Links.IsExpired | app.py:44-47 | a row is expired exactly when it has an expiry and `now` is strictly later than it |
| Links.NoExpiryNeverExpires | app.py:44-47 | a row without an expiry is never expired |
| Links.ExpiryBoundary | app.py:44-47 | a row with an expiry is expired exactly when now is strictly later than it |
| Links.ExpiryIsPermanent | app.py:44-47 | once a row has expired it stays expired at every later time |
| Links.ChooseCode | app.py:57-60 | the code used is the stripped custom code when that is not empty, otherwise exactly the code `generate_code` draws (6 letters or digits); it is never empty |
| Links.NewLink | app.py:67-69 | the inserted row holds the submitted URL and expiry, 0 clicks (column default) and active (column default) |
| Links.Create | app.py:55-73 | a reserved code leaves the table unchanged and reports "reserved"; a code already present leaves it unchanged and reports "already exists"; otherwise exactly one row is added with the URL, 0 clicks, active, and the submitted expiry, and every other row is kept |
| Links.Resolve | app.py:77-96 | a reserved code is handed to `url_for` (see `App.EndpointResponse`) and changes nothing; a present, active, unexpired row has its clicks increased by exactly 1, its URL returned, and nothing else changes; every other code changes nothing and yields not-found, never a target |
| Links.ToggleActive | app.py:143-146 | only the named row's active flag flips; the other rows and the row's other fields are unchanged |
| Links.ToggleTwice | app.py:143-146 | toggling a code twice restores the table |
| Links.ToggleAbsent | app.py:143-146 | toggling an absent code is a no-op |
| Links.CreateKeeps | app.py:60-73 | creation keeps every stored code non-empty and unreserved, removes no row and lowers no click count |
| Links.ResolveKeeps | app.py:82-94 | the same for resolution: clicks only grow |
| Links.ToggleKeeps | app.py:142-146 | the same for toggling |
| Links.ReservedNeverStored | app.py:79-80 | in a well-formed table a reserved code has no row, so the reserved branch of the redirect never hides a stored link |
| Links.SecondSubmissionIsDuplicate | app.py:72-73 | submitting the same non-empty custom code a second time is refused as a duplicate and changes nothing |
| Links.CreateThenResolve | app.py:67-96 | a newly created link, visited before its expiry, redirects to the submitted URL and then has exactly one click |
| Links.GeneratedCodeCanBeRefused | app.py:60-63 | a submission with an empty custom field whose draws spell "logout" or "toggle" is refused as reserved and leaves the table unchanged |
| Links.RunKeeps | app.py:50-148 | over any sequence of submissions, visits and toggles, stored codes stay non-empty and unreserved, no row disappears, no URL or expiry changes and no click count decreases |
| App.PasswordMatches | app.py:14 | the hash check accepts exactly the password the stored hash was made from |
| App.CredentialsAccepted | app.py:119 | a login is accepted exactly for user "admin" with a matching password |
| App.IndexResponse | app.py:62-75 | on creation the page shows the created code and no message; on refusal it shows no code and the reserved or the duplicate message, whichever applies |
| App.EndpointResponse | app.py:79-80 | for "admin", "login" and "logout" the client is redirected to that route's path; for "stats" and "toggle" building the URL fails and the request ends in a server error |
| App.RedirectResponse | app.py:88-96 | a found target is a redirect to the stored URL, not-found renders the expired page, and a reserved code gets the `url_for` response |
| App.Shortener.constructor | app.py:23-37 | the service opens the rows the database already holds (none on a first start) with no admin session |
| App.Shortener.Index | app.py:50-75 | the POST branch of `index` updates the table as `Create` does and renders the matching page |
| App.Shortener.RedirectUrl | app.py:77-96 | `redirect_url` updates the table as `Resolve` does and gives the matching response |
| App.Shortener.Stats | app.py:98-109 | `stats` changes nothing and returns the row whatever its active flag or expiry; not-found only when there is no row |
| App.Shortener.Login | app.py:112-125 | the admin flag becomes true only for the user "admin" with the right password; a failed login leaves the flag as it was and shows the error |
| App.Shortener.Admin | app.py:127-135 | without the admin flag the client is sent to `/login`; with it, it gets every row |
| App.Shortener.Toggle | app.py:137-148 | without the admin flag the table is unchanged and the client goes to `/login`; with it, the table is toggled as `ToggleActive` says and the client goes to `/admin` |
| App.Shortener.Logout | app.py:150-153 | logout clears the admin flag and redirects to `/login` |
| App.ShortenVisitAndInspect | app.py:55-109 | with no custom code on an empty database: either the generated code is "logout" or "toggle" and the reserved message is shown, or the page shows the generated code, visiting that code redirects to the URL and its stats show one click |
| App.GateScenario | app.py:127-153 | `/toggle` is refused before login, succeeds after a login with the right password, and `/admin` is refused after logout |

## Left out

- Flask routing, `render_template` and `redirect` are not modelled. A handler's result is a `Response` value naming the page or location.
- The short URL is `request.host_url` followed by the code. The model returns the code only.
- Flask's rule matching is not modelled. Static routes such as `/admin`, `/login` and `/logout` match before `/<code>`, so in the service only "stats" and "toggle" reach the reserved branch of `redirect_url` (app.py:79-80). For those two, `url_for(code)` is called without the `code` argument its route needs and raises a `BuildError`, a server error. `App.EndpointResponse` gives that result. For the other three reserved names it gives a redirect to their path.
- App.Shortener.constructor: it requires the stored rows to be well formed, that is, written by this code, which never stores an empty or reserved code. Rows put into `urls.db` by other means are not modelled.
- SQLite connections, SQL text and transactions are not modelled (app.py:20-37). The table is a map keyed by code, and `short_code TEXT UNIQUE` is the map's single entry per key. The `id` and `created_at` columns carry no behaviour.
- App.Shortener.Admin: the listing is the whole table as a map. The row order of `SELECT * FROM urls` is not modelled.
- Password hashing is not modelled (app.py:5, app.py:14, app.py:119). `PasswordMatches` accepts exactly "admin123", the plaintext that `ADMIN_PASS_HASH` was made from. Hash collisions are not modelled.
- `random.choice` becomes the caller-supplied sequence `picks`. Uniformity of the draws is not modelled.
- `datetime.now()` becomes the caller-supplied `now`. `datetime.fromisoformat` becomes an expiry that is already an integer. An expiry text that does not parse, which would raise in `is_expired`, is not modelled.
- The GET branches of `index` and `login` only render their forms and touch no state. They are not modelled.
- The model is sequential. Concurrent requests and racing click increments are not modelled.
- Only one client's session is modelled. Other clients' sessions are not.
- The secret key, `DB` path, debug mode and `app.run` are configuration only (app.py:8, app.py:10, app.py:155-156).
