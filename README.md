# Player registry and lobby gate

This project models the part of the pastickfight web front end that controls
who may enter the lobby:

- **the player-code rule** shared by both pages. A code is 3 to 16 characters,
  each `A`–`Z` or `0`–`9`. What the user types is trimmed and upper-cased before
  it is checked (`CodeFormat`, in `code_format.dfy`).
- **the players collection**: documents keyed by player code, holding a
  name, a code, an `active` flag that may be `true`, `false` or absent, and a
  creation time (`Directory`, in `directory.dfy`).
- **the operator console** (`public/admin/admin.js`). The add-player form
  validates its input, refuses a code that already has a document and
  otherwise creates one. Each table row has a delete button. The live table is
  rebuilt from every snapshot of the collection, together with its count
  (`Admin`, in `admin.dfy`).
- **the lobby gate** (`public/lobby/lobby.js`). It works as a small state
  machine:
  - start-up re-checks a remembered code;
  - a click on the gate button checks a typed code;
  - "change player" forgets the session.

  An admitted player is cached in the browser's local storage under
  `playerCode` and `playerName` (`Lobby`, in `lobby.dfy`).
- **the two pages together**: what the console's writes mean for the lobby's
  reads (`Scenarios`, in `scenarios.dfy`).

Both page scripts change state step by step. They are modelled as the classes
`Admin.Console` and `Lobby.Gate`, and each handler is a method. Every handler
that decides something is proved against a pure function that states the
decision it takes:

| handler | specified by |
|---|---|
| `Console.Submit` | `Register` and `Commit` |
| `Console.Delete` | `Remove` |
| `Console.Render` | `RowOf` |
| `Gate.TrySignIn` and `Gate.Complete` | `FetchPlayer` and `Cached` |

The gate also keeps an invariant, `Gate.Valid`:

- while the page is running, and as long as no other tab of the same site
  writes the two cached keys, the lobby shows a player exactly when the cache
  holds that player;
- while the page is running, the gate button is disabled exactly while a
  click's lookup is awaited;
- a gate click only ever starts a lookup for a well-formed code. The
  start-up lookup of a stored code has no such check (see below).
- once start-up has halted, the button stays disabled and nothing is in
  flight. The cache is not read then, so it may still hold a code while
  the view is still the initial one.

How the store and the clock are represented:

- The store's answers are inputs. The collection is a `map`, and each
  handler gets it as a field or a parameter.
- A store call that rejects is a `fault` parameter, so every error path of
  the handlers is modelled.
- The server timestamp is the `now` parameter.

The console's add handler runs as one step. The lobby's gate-button click
runs as two steps, `Submit` before the await and `Complete` after it,
because the disabled button can only be observed while the lookup is
awaited.

Behaviour of the code worth stating plainly:

- Adding a player reads the document, then writes it in two separate calls.
  Nothing makes this create-if-absent atomic.
- The table's live subscription is never cancelled.
- Overlapping gate clicks are not resolved so that the last one wins. The
  button is disabled while a lookup is awaited, and "change player" can
  still run in between.
- When the start-up lookup of a stored code fails, the page does not fail
  silently. It shows "Unable to verify stored code.", and this model shows
  the same message.
- A stored code is upper-cased only. It is neither trimmed nor checked
  against the code rule before the lookup.

## Model

| member | source | states |
|---|---|---|
| CodeFormat.CodeRegexTest | public/admin/admin.js:24 | `/^[A-Z0-9]{3,16}$/` accepts a string exactly when it has 3 to 16 characters, all upper-case ASCII letters or digits (both directions) |
| CodeFormat.RepeatMatchesIff | public/lobby/lobby.js:14 | the bounded repetition `[A-Z0-9]{lo,hi}` anchored at the end matches exactly the strings of `lo` to `hi` class characters |
| CodeFormat.Trim | public/admin/admin.js:158 | `trim` yields a string with no white space at either end, no longer than its input |
| CodeFormat.TrimRemovesOnlyOuterSpace | public/admin/admin.js:158 | the trimmed string is a contiguous slice of the input, and everything before and after it is white space |
| CodeFormat.TrimOfTrimmed | public/lobby/lobby.js:146 | a string with no white space at either end is its own trim |
| CodeFormat.Upper | public/admin/admin.js:122 | `toUpperCase` keeps the length of the string |
| CodeFormat.UpperPointwise | public/lobby/lobby.js:27 | every character is upper-cased on its own, and no lower-case ASCII letter survives |
| CodeFormat.UpperIdempotent | public/lobby/lobby.js:27 | upper-casing an already upper-cased value changes nothing |
| CodeFormat.UpperKeepsTrimmed | public/admin/admin.js:159 | upper-casing a trimmed string leaves it trimmed |
| CodeFormat.NormalizeCode | public/admin/admin.js:159 | trim-then-upper-case yields a string with no outer white space, no lower-case letter, and no longer than the input |
| CodeFormat.NormalizeCodeIdempotent | public/lobby/lobby.js:146-147 | normalising the box's already normalised value again changes nothing |
| CodeFormat.ValidCodeIsNormal | public/lobby/lobby.js:118 | a code that obeys the rule is unchanged by upper-casing and by normalisation |
| Admin.Register | public/admin/admin.js:154-201 | a player is created iff the trimmed name is non-empty, the normalised code obeys the rule, no store call fails and no document has that code; it is then `{name, code, active: true, createdAt}` under the code; each refusal (name required, bad format, code exists) happens exactly in its own case, in the handler's order |
| Admin.StatusOf | public/admin/admin.js:163-198 | the handler ends with "added" exactly when it registered, naming the stored code and the stored name; otherwise it reports the refusal's own reason |
| Admin.StatusText | public/admin/admin.js:27-36 | the status line is empty exactly for the cleared status (when `setStatus("")` also drops the status attribute) |
| Admin.RegisterStatusText | public/admin/admin.js:162-198 | the add handler's status line word for word: "Player N (C) added." with the trimmed name and normalised code, "Player name is required.", "Code must be 3–16 characters (A–Z, 0–9).", or "Failed to add player." when the read fails, or when the write fails for a free code |
| Admin.Commit | public/admin/admin.js:186-191 | `setDoc` of a registration adds its key, stores its entry there and keeps every other document; a refusal writes nothing |
| Admin.RegisterFrame | public/admin/admin.js:177-191 | a registration adds exactly one document under a previously free key with `active` true and keeps every other document; a refusal changes nothing |
| Admin.ValidationPrecedesStore | public/admin/admin.js:162-172 | an empty name or a malformed code is refused whatever the store holds and whether or not its calls would fail |
| Admin.RegisterTwice | public/admin/admin.js:177-184 | a second registration of the same normalised code is refused with "Code already exists." and leaves the store one document larger than before the first |
| Admin.Remove | public/admin/admin.js:102 | `deleteDoc` removes the key and only that key, and shrinks the store by one iff the key was present |
| Admin.DistinctIdsCount | public/admin/admin.js:72-73 | a snapshot with pairwise distinct ids has as many ids as documents |
| Admin.SnapshotCountIsStoreSize | public/admin/admin.js:71-114 | the count shown equals the number of documents in the collection |
| Admin.RegisteredPlayerIsListed | public/admin/admin.js:143-147 | after a registration, the next snapshot has one more row than the one before, and one row shows the new code and carries it on its delete button |
| Admin.SnapshotGrowsByOne | public/admin/admin.js:71-114 | when the collection gains one new key, every snapshot listing it has exactly one more document than one listing the collection before |
| Admin.DocumentIsListed | public/admin/admin.js:78-93 | a document whose `code` field equals its non-empty id is shown in some row with that code, and that row's delete button carries it |
| Admin.RowOf | public/admin/admin.js:78-93 | a row shows `name`, or "—" when it is missing or empty (so the name cell is never empty); shows `code`, or the document id when it is missing or empty; and its delete button carries the document id |
| Admin.Console.constructor | public/admin/admin.js:15-22 | the page starts with an empty form, an empty table, a zero count and a blank status |
| Admin.Console.TypeName | public/admin/admin.js:16 | the name box has no input listener, so it holds exactly the typed text until the handler trims it |
| Admin.Console.TypeCode | public/admin/admin.js:117-127 | the code box holds the upper-cased typed text |
| Admin.Console.Submit | public/admin/admin.js:154-202 | the store becomes `Commit(old store, Register(...))`; the status is the decision's message; the form is reset on success, otherwise the code box holds the normalised code; the add button ends enabled once the store was reached and is untouched on a validation refusal |
| Admin.Console.Delete | public/admin/admin.js:94-108 | an empty code or a declined confirmation changes nothing; otherwise the document is removed and "Player X deleted." shown, or the store is kept and "Failed to delete player." shown |
| Admin.Console.Render | public/admin/admin.js:69-115 | the table is rebuilt with one row per snapshot document, in snapshot order, each showing `name \|\| "—"` and `code \|\| id` and carrying the id; the count is the snapshot's size |
| Admin.Console.SnapshotFailed | public/admin/admin.js:148-151 | a listener error shows "Failed to load players." |
| Lobby.FetchPlayer | public/lobby/lobby.js:71-87 | no player iff the store is not initialised, the code has no document, or its `active` is the literal `false`; otherwise the player has the looked-up code, is active, and has the document's name or `""` |
| Lobby.OnlyFalseRevokes | public/lobby/lobby.js:79-85 | a document with `active` absent is admitted exactly like one with `active` true; only `false` revokes |
| Lobby.StoredCode | public/lobby/lobby.js:116 | `getItem("playerCode")` is the stored string when the key is present and null otherwise |
| Lobby.HasStoredCode | public/lobby/lobby.js:117 | the test `if (storedCode)` holds exactly when `getItem` returned a non-empty string |
| Lobby.MessageText | public/lobby/lobby.js:17-21 | the gate's status line is empty exactly for the cleared message |
| Lobby.Cached | public/lobby/lobby.js:50-58 | caching a player sets `playerCode` and `playerName` to its code and name; caching none removes both; every other key is untouched |
| Lobby.CacheRoundTrip | public/lobby/lobby.js:116-117 | after caching a player the stored code reads back as its code (and counts as present iff non-empty); after clearing it reads back as absent; clearing after caching equals clearing |
| Lobby.ReloadReadmits | public/lobby/lobby.js:116-125 | a valid code admitted through the gate is found again by the next start-up's read, upper-casing and lookup, and resolves to the same player |
| Lobby.Gate.constructor | public/lobby/lobby.js:4-15 | the page starts booting with nothing in flight and the button enabled; the view starts as `Unauthenticated`, an assumption about the page's initial markup, since the script sets no view before start-up ends; the invariant holds |
| Lobby.Gate.CachePlayer | public/lobby/lobby.js:50-58 | the storage becomes `Cached(old storage, player)` |
| Lobby.Gate.TypeCode | public/lobby/lobby.js:23-32 | once running, the box holds the upper-cased text; before the listener is attached it holds the raw text; the invariant is kept |
| Lobby.Gate.Start | public/lobby/lobby.js:104-138 | an initialisation failure halts with "Unable to initialise lobby." and a disabled button; no stored code shows the gate; a stored code is upper-cased into the box and resolved: found re-caches and admits, not found clears the cache, a failed lookup clears it and says "Unable to verify stored code."; the invariant holds |
| Lobby.Gate.TrySignIn | public/lobby/lobby.js:89-102 | returns true iff the lookup finds a player; the cache, the view and the status follow the lookup's result |
| Lobby.Gate.Submit | public/lobby/lobby.js:144-155 | the box is rewritten with the normalised code; a malformed code shows the format message and starts nothing; a well-formed one is put in flight with the button disabled; the invariant is kept |
| Lobby.Gate.Complete | public/lobby/lobby.js:156-166 | the in-flight code is signed in (the box emptied on success), or a failed lookup leaves cache and view alone and says "Unable to verify code."; the button is enabled again; the invariant is kept |
| Lobby.Gate.ChangePlayer | public/lobby/lobby.js:169-175 | the cache is cleared, the gate shown, the box emptied and the status cleared; the store is not consulted |
| Scenarios.RegisteredPlayerIsAdmitted | public/admin/admin.js:186-191 | a player just registered by the console is admitted by the lobby under the normalised code with the trimmed name |
| Scenarios.DeletedPlayerIsRejected | public/admin/admin.js:102 | once the console deletes a code the lobby no longer finds it |
| Scenarios.RevokedPlayerStaysListed | public/lobby/lobby.js:79-81 | setting `active` to false revokes the code for the lobby, while the console still lists the document and its count is unchanged |

## Left out

- Firebase bootstrap (fetching `init.json`, `initializeApp`, `getFirestore`) is reduced to the lobby's `initOk` flag. The console's failed start-up ("Could not initialise Firebase.", no handlers attached) is not modelled, and `Console` stands for a console that initialised.
- The created-at column (`toDisplayTime`) and the console's environment label are not modelled. They are display-only text derived from the clock and the configuration.
- Snapshot order (`orderBy("createdAt", "desc")`) is not modelled. A snapshot is any enumeration of the collection. Firestore also leaves out documents without `createdAt` from such a query. Every modelled document has one.
- Colours, `data-status` attributes, focus and caret (`setSelectionRange`) handling are not modelled. They have no effect on the state modelled here.
- `confirm()` is the `confirmed` parameter of `Console.Delete`.
- The lobby panels' texts (`setLobbyState`, including the `"Player"` fallback for an empty name) are reduced to the `View` value.
- `CodeFormat.Trim`, `CodeFormat.Upper`: model ASCII behaviour only (six white-space characters; `a`–`z`). JavaScript's Unicode-aware `trim` and `toUpperCase` are not modelled.
- Concurrency: `Console.Submit` (its `getDoc` and its `setDoc`) and `Gate.Start` (initialisation and the stored-code lookup) are each one atomic step across two awaits; `Console.Delete` is one step; only the gate click is split at its await. Writes by other clients, or other handlers of the same page, between those awaits are not modelled.
- Document paths: a code is used directly as a document id, and Firestore's rules for ids are not modelled. Typed codes obey the code rule, so they are plain ids. A stored code is not checked: one that is not a valid document id (say `a/b`) makes `doc()` throw, and the page then shows "Unable to verify stored code." (lobby.js lines 130-134). Lobby.Gate.Start: derives that outcome only when the caller passes `fault`; with `fault` false it looks the code up as a key and, finding none, clears the cache silently.
- `localStorage` quota and access errors are not modelled; its calls are taken to succeed.
- `form.reset()` restores the boxes' default values, which the page's markup sets; the markup is not part of this model, and the model assumes those defaults are empty, so a reset empties both boxes.
- The initial view: lobby.js sets which panel is visible only when start-up ends without halting. Before that, and on the halted path, what is visible comes from the page's markup. Lobby.Gate.constructor: assumes that view is `Unauthenticated` (the gate panel).
- Other tabs: `localStorage` is shared by every tab of the site, so a second lobby tab's sign-in or "change player" rewrites `playerCode` and `playerName` while this tab keeps showing its player. `Gate` models a single page as the only writer of those keys, and `Gate.Valid`'s view-matches-cache clause holds only under that assumption.
- Admin.Console.Render: may run after `SnapshotFailed` in the model, whereas Firestore delivers no more snapshots to a listener after its error callback. The model over-approximates there; no proved property depends on it.
- Lobby.Gate.ChangePlayer, Lobby.Gate.Submit: require the running phase, because before start-up finishes, or after it halts, no click listener is attached and a click does nothing.
- Arenas, the game itself and every page other than the console and the lobby are not part of this model.
