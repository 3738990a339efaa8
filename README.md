# Coral Club tent reservations — a verified model

Coral Club is a single-page app for a beach venue. It shows a map of
numbered tents (toldos). A customer selects an available tent and holds it
for fifteen minutes. An administrator arranges the tents on the map, edits
their states and prices, sets payment details and can recreate the default
grid. Every browser shares one document, kept under `coralclub:state` in a
hosted key-value store, with a revision counter under `coralclub:rev`:

- the serverless endpoint `POST /api/kv-merge` shallow-merges a patch into
  the stored document and bumps the counter;
- each browser polls the counter and refetches the document when it changes;
- when the endpoint is unreachable, the browser merges the patch locally and
  bumps its own revision.

The model is written in Dafny in nine modules:

- `Wrappers`: `Option`.
- `Decimal`: integers as decimal text. It covers `String(n)`, `+v || 0` and
  `parseInt(s, 10)`.
- `Json`: JSON values, JavaScript truthiness, `String(v)`, and the object
  spread `{ ...a, ...b }` that every merge is built from.
- `Venue`: the typed shared document and its partial patches. It also covers
  the local cache projection and the per-tent edits made with
  `tents.map(t => t.id === id ? … : t)`.
- `MapGrid`: `clamp`, the default grid `makeGrid(n)` (a loop, proved equal to
  the function `Grid(n)`), the drag position and the count `recreateGrid`
  asks for.
- `Reservations`: holding a tent (`reservar`), the expiry sweep (a loop,
  proved equal to the functions `Alive`/`ExpiredTentIds`), and freeing
  tents. It includes the invariant that no two holds name the same tent and
  that no held tent is available. Holding a tent and the sweep preserve it;
  recreating the grid and an admin state edit back to available do not
  (see "Notes on the code").
- `MergeEndpoint`: the handler of `api/kv-merge.js`. The store is a value and
  the outcome of each store request is an input. The handler returns the new
  store, the store requests it sent, and the reply.
- `MultiUser`: the helpers of `src/multiuser.js`. They decode the endpoints'
  answers. The class `SyncEngine` holds `data`, `sessionRevParam` and the
  polling effect's `on` flag, and has the wrapped `mergeState` and the
  polling `tick`.
- `App`: the boot seed rule, and the class `Session` with the state of the
  `App` component (`data`, `rev`, `sessionRevParam`, `selectedTent`). Each
  core handler of the component (boot, polling, the expiry sweep, merging,
  dragging, holding, the tent, price and payment edits, recreating the grid)
  is a method of `Session`; the remaining handlers are listed under
  "Left out". The invariant
  `Valid()` says that `sessionRevParam` is always the decimal text of `rev`.

Inputs stand in for everything outside the code. Network answers are
arguments, already decoded in `App` and raw in `MultiUser`. Clock readings
are integer milliseconds, and prompt answers are optional values. Time is
`Date.now()`-style milliseconds throughout.

## Model

| member | source | states |
|---|---|---|
| Decimal.NatToString | src/App.jsx:107 | the decimal text of a natural is non-empty, all digits, and starts with 0 only for 0 |
| Decimal.IntToString | src/App.jsx:107 | `String(n)` is non-empty and starts with '-' exactly for negatives |
| Decimal.NumberOr0OfIntToString | src/App.jsx:165 | `+v || 0` reads back the integer whose text `v` is, so the fallback bump is `rev + 1` in text |
| Decimal.NumberOr0 | src/App.jsx:165 | `+v || 0`: a text reads as non-zero only when it starts with a digit or a sign, and as negative only when it starts with '-' |
| Decimal.IntToStringInjective | src/App.jsx:107 | distinct revisions have distinct texts |
| Decimal.ParseInt10OfIntToString | src/App.jsx:268 | `parseInt(String(n), 10)` is `n` |
| Decimal.ParseInt10 | src/App.jsx:268 | `parseInt(s, 10)` gives a number only when the text holds a digit; a text starting with a digit gives a non-negative number; a text starting with anything but whitespace, a sign or a digit gives NaN |
| Decimal.DigitRunAll | src/App.jsx:268 | `parseInt` consumes a whole run of digits |
| Json.Truthy | src/multiuser.js:21 | exactly null, false, 0 and the empty string are falsy; every array and object is truthy |
| Json.JsString | src/multiuser.js:35 | `String(v)` of a number reads back as that number, of a string is the string, and is empty only for the empty string or an array |
| Json.Spread | api/kv-merge.js:19 | spreading an object gives its fields; a falsy value, a boolean or a number spreads nothing |
| Json.ShallowMerge | api/kv-merge.js:19 | the merged keys are both sides' keys; every patch key has the patch's value and every other key keeps the current value |
| Json.SpreadMerge | api/kv-merge.js:19 | `{ ...(cur || {}), ...(patch || {}) }`: the same two laws over the spread sides; a null current document or patch acts as empty |
| Json.SpreadMergeIdempotent | api/kv-merge.js:19 | merging the same patch twice gives the same document as merging it once |
| Json.SpreadMergeCommute | api/kv-merge.js:19 | patches with disjoint keys commute |
| Json.MergeIdempotent | src/App.jsx:163 | a repeated local merge of one patch changes nothing |
| Json.MergeDisjointCommute | src/App.jsx:163 | local merges of disjoint patches commute |
| Json.MergeLaterWins | api/kv-merge.js:18-19 | on a key two patches share, the later patch's value wins |
| Json.MergeAllIsCombined | api/kv-merge.js:18-19 | applying patches one by one equals applying their later-wins union once |
| Venue.ApplyPatch | src/App.jsx:163 | `{ ...s, ...patch }` on the typed document: each field present in the patch replaces the document's, each absent one is kept, and other keys merge shallowly |
| Venue.ApplyPatchIdempotent | src/App.jsx:163 | applying a patch twice equals applying it once |
| Venue.CacheProjection | src/App.jsx:118-130 | the cached object holds exactly the six named fields and no other key; spread over the initial document it gives back the document without its other keys |
| Venue.RestoreProjection | src/App.jsx:89-92 | spreading a cached projection over any document restores the six cached fields and keeps that document's other keys |
| Venue.FindTent | src/App.jsx:218 | `find` by id returns nothing exactly when no tent has that id, and otherwise the first tent with it |
| Venue.FindTentUnique | src/App.jsx:380 | with distinct ids, finding a tent's id returns that tent |
| Venue.MoveTent | src/App.jsx:202 | every tent with the dragged id gets the new x and y and keeps its other fields; all other tents are unchanged |
| Venue.SetTentState | src/App.jsx:378 | every tent with the selected id gets the new state; all other tents are unchanged |
| Venue.SetTentPrice | src/App.jsx:398 | every tent with the selected id gets the new price; all other tents are unchanged |
| Venue.EditsTouchOneTent | src/App.jsx:198-203 | with distinct ids, a move, state edit or price edit changes only the tent at the edited index, only in the edited fields, and keeps ids distinct |
| Venue.UpdatePayments | src/App.jsx:259 | `{ ...data.payments, ...patch }`: each edited payment field replaces the old one and the others are kept |
| MapGrid.Clamp | src/App.jsx:23 | the result lies in [lo, hi], is n when n is inside, lo below and hi above |
| MapGrid.CeilSqrt | src/App.jsx:30 | the column count is the least c with c * c >= n |
| MapGrid.RowsFor | src/App.jsx:31 | `Math.ceil(n / cols)`: the least row count with rows * cols >= n, at least 1 for n >= 1 |
| MapGrid.MakeGrid | src/App.jsx:27-46 | the nested row and column loops build exactly `Grid(n)` |
| MapGrid.GridShape | src/App.jsx:27-46 | for n >= 1 the grid has n tents with ids 1..n in order, all available, price 0, every x and y strictly between 0 and 1; for n <= 0 it is empty |
| MapGrid.GridUniqueIds | src/App.jsx:32-42 | the grid's ids are pairwise distinct |
| MapGrid.DragPosition | src/App.jsx:198-199 | both coordinates lie in [0, 1]; inside the map they are the pointer's relative offset; outside they are clamped to the nearer edge |
| MapGrid.RecreateCount | src/App.jsx:268-269 | the count is always in [1, 500]; it is 20 when the answer does not parse, or parses to a value at least 2^1024 - 2^970 in size (which JavaScript reads as an infinity); otherwise it is the parsed integer clamped into [1, 500] |
| MapGrid.RecreateCountDefault | src/App.jsx:268 | a cancelled or empty prompt gives 20 |
| MapGrid.RecreateCountHuge | src/App.jsx:268-269 | typing a number too large for a double recreates the default 20 tents, not 500 |
| MapGrid.RecreateCountTyped | src/App.jsx:268-269 | typing the text of an integer k between 1 and 500 recreates exactly k tents |
| Reservations.AddMinutes | src/App.jsx:25 | adding minutes moves a timestamp strictly later exactly for a positive count, and leaves it alone for zero; fifteen minutes are 900000 ms (see `ReserveEffect`) |
| Reservations.SweepReservations | src/App.jsx:134-140 | the filter loop returns exactly `Alive(rs, now)` and collects exactly `ExpiredTentIds(rs, now)` |
| Reservations.AliveExactly | src/App.jsx:136-139 | a reservation is kept exactly when it is in the list and expires strictly after now |
| Reservations.ExpiredExactly | src/App.jsx:137-138 | the collected ids are exactly the tent ids of the reservations that do not expire after now |
| Reservations.AliveAppend | src/App.jsx:136-140 | the sweep keeps the original order: sweeping a concatenation concatenates the sweeps |
| Reservations.SweepPartitions | src/App.jsx:136-140 | the kept and collected lists together are as long as the input: each reservation goes to exactly one side (two reservations on one tent can put that tent's id on the collected side while one of them is kept) |
| Reservations.NothingExpired | src/App.jsx:141 | when every reservation is live nothing is collected, so no patch is sent |
| Reservations.AliveAllKept | src/App.jsx:136-140 | when every reservation is live the sweep keeps the list unchanged |
| Reservations.ReleaseTents | src/App.jsx:142-144 | the tent list keeps its length |
| Reservations.ReleaseTentsEffect | src/App.jsx:142-144 | a tent ends up available iff it was available or was pending with a collected id; occupied, blocked and all other tents are unchanged, and only the state can change |
| Reservations.NewReservation | src/App.jsx:220-225 | the new hold names the tent, is created now and lasts exactly 900000 ms |
| Reservations.NewReservationIdInjective | src/App.jsx:221 | for non-negative tent ids and times, the id `<tent id>-<time>` determines both the tent and the millisecond |
| Reservations.Reserve | src/App.jsx:216-219 | it refuses with no selection exactly when nothing is selected, and as unavailable exactly when the selected id is missing or its tent is not available |
| Reservations.ReserveEffect | src/App.jsx:220-228 | with distinct tent ids, on success exactly one tent, the selected one, goes from available to pending; the new selection is that tent; all reservations are kept and one is appended for it, created now and expiring 900000 ms later |
| Reservations.ReservePreservesExclusive | src/App.jsx:216-227 | a hold keeps "no two holds on one tent, and no held tent available" |
| Reservations.SweepPreservesExclusive | src/App.jsx:134-145 | the sweep and release keep the same invariant |
| Reservations.AliveDistinct | src/App.jsx:136-140 | the kept reservations still name pairwise distinct tents |
| Reservations.HoldLapsesAndFrees | src/App.jsx:134-145 | with distinct tent ids, a hold made on a venue with no reservations is dropped by any sweep run from fifteen minutes after it on; that sweep frees its tent, the tents are as before, and the tent can be held again |
| Reservations.ReleaseUndoesHold | src/App.jsx:142-144 | with distinct tent ids, freeing the tent a hold made pending gives back the tents as they were |
| MergeEndpoint.CurrentDocument | api/kv-merge.js:14-16 | the current document is the stored value when the read answered with a result, and null otherwise, which spreads nothing |
| MergeEndpoint.FirstMergeIsPatch | api/kv-merge.js:16-19 | merging into a key that holds nothing yields exactly the entries the patch spreads |
| MergeEndpoint.Handle | api/kv-merge.js:7-37 | every verb but POST gets status 405, with no store request; the status is 200 exactly when nothing threw and 500 otherwise; a body that cannot be read, or a read that throws, changes nothing in the store; once the read answered, the requests are one get, one set of the spread merge of the current document (null when absent) and the patch, and, unless the set threw, one incr; the document is written exactly when the set reached the store and the counter moves exactly when the incr was sent and reached the store, even when the handler then fails with 500; the reply is ok exactly when nothing threw, even when the set was refused, with that merged state and the incremented counter as rev, or 0 when the incr answered without a result |
| MultiUser.KvGet | src/multiuser.js:5-11 | the answer's `result`, or null when it is missing, the answer is not an object, or the call threw |
| MultiUser.KvMerge | src/multiuser.js:13-24 | `state` only when the answer is an object with a truthy `ok`; null otherwise or on a throw |
| MultiUser.ReceivedMerge | src/multiuser.js:20-21 | end to end with the endpoint, the client adopts exactly the merged state of a 200 reply, and null for a 405 or 500 |
| MultiUser.RevText | src/multiuser.js:54 | `String(r || 0)` is "0" for a falsy revision and `String(r)` otherwise; for a number it reads back as that number |
| MultiUser.BumpedText | src/multiuser.js:65 | the new text reads as the old text's number (0 if not numeric) plus one |
| MultiUser.SyncEngine.constructor | src/multiuser.js:30 | mounting the polling effect starts with `on` set |
| MultiUser.SyncEngine.Cleanup | src/multiuser.js:42 | cleanup clears `on` |
| MultiUser.SyncEngine.Tick | src/multiuser.js:31-39 | after cleanup, or when the revision is null, nothing changes; otherwise the revision text is `String(r)` with no change check, and the data is replaced only by a truthy fetched state |
| MultiUser.SyncEngine.MergeState | src/multiuser.js:47-67 | on a truthy merged state the data is that state and the text is `String(rev || 0)`; otherwise the data is what `localMerge` leaves, when one is given, or the shallow merge of the patch, and the text is bumped by one, except when `localMerge` rejects: then the text is unchanged and the rejection is reported |
| MultiUser.FirstMergeDropsOtherKeys | src/multiuser.js:50-55 | a session's first merge through the endpoint into a store holding no document adopts exactly the patch's entries, dropping every other key of its data, and reads revision 1 |
| App.CountOr20 | src/App.jsx:91 | `count || 20` is never 0: the count itself, or 20 for 0 |
| App.BootDoc | src/App.jsx:86-97 | an unreadable cache changes nothing; apart from the tents only the cached keys change; whenever the cache was read the venue has tents, unless the count is negative |
| App.RecreateBreaksExclusive | src/App.jsx:267-272 | recreating the grid keeps a live hold while its tent becomes available again, so the exclusivity invariant breaks and the same tent can be held twice |
| App.StateEditBreaksExclusive | src/App.jsx:376-382 | with distinct tent ids, setting a held tent's state back to available keeps its hold, so the exclusivity invariant breaks |
| App.BootResumesCache | src/App.jsx:86-97 | booting over a cached projection of a document with tents resumes that document's six fields |
| App.BootSeedsInitial | src/App.jsx:94 | a first visit seeds a 20-tent grid with distinct ids and changes nothing else |
| App.BootCacheWithoutTents | src/App.jsx:91 | a cache without tents over a document without tents gives a grid sized from the in-memory layout count, even when the cache has another layout |
| App.BootKeepsTents | src/App.jsx:91-94 | existing tents are never replaced by a seed |
| App.Session.constructor | src/App.jsx:74-76 | the session starts with the initial document, revision 0 and text "0", and nothing selected |
| App.Session.Boot | src/App.jsx:86-97 | the mount effect leaves the document given by the boot seed rule |
| App.Session.MergeState | src/App.jsx:151-167 | on success the data is the server's document and the revision is the fetched one, or 0; on failure the data is the local shallow merge and the revision goes up by exactly one; the text always follows the revision |
| App.Session.PollTick | src/App.jsx:102-111 | only a non-null fetched revision that differs from the current one is adopted, with the fetched document when there is one; otherwise nothing changes |
| App.Session.PurgeExpired | src/App.jsx:133-148 | with nothing expired nothing changes; otherwise the merge receives exactly the live reservations and the tents with the lapsed pending ones freed |
| App.Session.OnTentMove | src/App.jsx:194-204 | without a drag nothing changes; otherwise the dragged tent moves to the clamped pointer position, with no network write |
| App.Session.Reservar | src/App.jsx:216-229 | a refused hold changes nothing; a hold merges the tents and reservations `Reserve` computes and selects the held tent |
| App.Session.ChangeTentState | src/App.jsx:376-382 | the answered state, or the current one on cancel, replaces the selected tent's, and the selection follows the edited tent |
| App.Session.ChangeTentPrice | src/App.jsx:526-533 | without a selection nothing changes; otherwise the price replaces the selected tent's and the selection follows the edited tent |
| App.Session.ChangePayments | src/App.jsx:258-260 | the merge receives the whole payments object with the edited fields applied |
| App.Session.RecreateGrid | src/App.jsx:267-272 | the merge receives a fresh grid of `RecreateCount`'s count (the answer clamped into [1, 500], or 20 when it is not a finite number) and the layout with that count |

## Left out

- `api/kv-get.js`, `api/kv-set.js` and `api/kv-incr.js` are not part of this model. Each forwards one request to the hosted store, and the store itself is modelled only as a map of documents and a map of counters.
- HTTP, `fetch`, `req.json()`, JSON text and the `KV_REST_API_URL`/`KV_REST_API_TOKEN` environment variables are foreign calls. Their answers are inputs.
- `MergeEndpoint.Handle` takes `stateKey`, `patch` and `revKey` as present. A body missing `stateKey` or `revKey` (the text "undefined" in the URL) is not modelled.
- `MergeEndpoint.Handle` models the revision as an integer counter. A store that answers `incr` with a non-number is not modelled.
- JSON numbers are integers in `Json`. Documents carry their reals, such as tent positions and prices, inside the typed `Venue` records instead.
- App.Session.MergeState: adopts only complete typed documents. The source adopts any truthy object, including the patch-only object a first merge into an empty store returns, which drops background, layout, payments and security and breaks later reads of `data.payments`; that case is shown at the JSON level by `MultiUser.FirstMergeDropsOtherKeys`, but the typed session cannot hold it.
- App.Session.PollTick: for the same reason adopts only a complete typed document, not a partial object fetched from the store.
- `App` works on the typed document and on already decoded answers. Its copies of `kvGet`/`kvMerge` (src/App.jsx:52-70) have the same bodies as the ones modelled in `MultiUser`.
- `setInterval` timing, overlapping ticks, and races between browsers are concurrency. Only single steps are modelled.
- `localStorage` reads and writes and `JSON.parse` are I/O. Boot receives the parsed cache; "unreadable" covers every throw, including a cached `null`.
- The poll tick's second read is the fetched document. Its decoding is modelled in `MultiUser.SyncEngine.Tick`, and `App.Session.PollTick` takes it already decoded.
- JSX rendering, the `Image` check, `bgOk`, `alert` and the PIN login (which compares the typed PIN and sets `authed`, sending nothing) are UI.
- The other admin handlers (`toggleEdit`, `onChangeBgPath`, the PIN change, the `__touch` button) are not modelled one by one. Each only sends a patch through `mergeState`, which is modelled.
- `openWhatsApp` and the cart totals (src/App.jsx:232-255) are float formatting and URL building, and are not part of this model.
- `onTentUp` (src/App.jsx:205-213) persists the tents captured by a stale React closure. That depends on React closure semantics.
- App.Session.ChangeTentState: models only the four state codes. `prompt` may return any text, which the source stores unchecked.
- App.Session.ChangeTentPrice: takes the price as an already parsed real. `parseFloat(...) || 0` turning NaN into 0 is not modelled.
- MapGrid.DragPosition: requires a map box of non-zero width and height. With a zero-size box the source divides by zero: a pointer past the edge gives an infinity, which `clamp` turns into 1 or 0, and a pointer exactly on the edge gives NaN, which would be stored as the position.
- App.Session.OnTentMove: carries the same requirement of a non-zero map box, for the same reason.
- Decimal.NumberOr0: reads only optionally signed decimal digits. JavaScript's `+v` also accepts surrounding whitespace, fractions, exponents, hexadecimal and "Infinity"; the fallback only applies it to texts the app wrote itself.
- Decimal.ParseInt10: reads leading whitespace, a sign and digits, like `parseInt(s, 10)`. It skips only ASCII whitespace, not the full Unicode set. Its integers are unbounded, while JavaScript rounds values above 2^53 to a double; only the rounding to an infinity is modelled, in `MapGrid.RecreateCount`.
- MapGrid.RecreateCount: takes a value as infinite from 2^1024 - 2^970 up, the exact rounding boundary. Engines may drop the digits after the twentieth when rounding, so a value within that margin of the boundary may go either way in the source.
- Decimal.IntToString: writes every integer in plain digits. JavaScript switches to exponent form from 10^21 up (`String(1e21)` is "1e+21"), so for such revisions the text differs; the app's revisions are counts of merges.
- Reservations.NewReservation: one `now` stands for the three clock reads (`Date.now()`, `nowISO()`, `new Date()`). Dates are milliseconds rather than ISO strings, so invalid dates are not modelled.
- Tick and PollTick take the revision as the store gives it. A revision stored as text would compare unequal to the number in `r !== rev`, and that case is not modelled.

## Notes on the code

- The expiry sweep runs only when the component mounts and when `rev` changes (src/App.jsx:148). A hold made while nobody else writes is swept only after some later revision change or a reload; `Reservations.HoldLapsesAndFrees` is about any sweep run from the expiry on.
- Recreating the grid patches only the tents and the layout (src/App.jsx:271), so live reservations survive next to an all-available grid and the same tent can be held again (`App.RecreateBreaksExclusive`).
- An admin state edit of a pending tent back to available (src/App.jsx:376-382) leaves its reservation in place, with the same effect (`App.StateEditBreaksExclusive`).
- When the store answers a read without `result`, the merge endpoint takes the current document as null: it merges the patch over `{}` and overwrites the stored document. The model follows the code (`GetNoResult`).
- Expired reservations are removed from the list, not marked as expired. The model follows the code.
- The endpoint never inspects the write's answer. A refused write still yields `ok: true` and bumps the revision (`SetRefused` in `MergeEndpoint.Handle`).
