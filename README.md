# trelloyes-server: the cards-and-lists store

A Dafny model of the Express application in `src/app.js`. The application keeps two
in-memory tables: cards `{id, title, content}` and lists `{id, header, cardIds}`. It serves
three kinds of route over them:

- reads (`GET /cards`, `GET /lists`, `GET /cards/:id`, `GET /lists/:id`);
- appends (`POST /cards`, `POST /lists`);
- a bearer-token gate that runs before every route.

Modules:

- `Wrappers`: `Option`, which stands for JavaScript's `undefined` beside a present value.
- `Records`: `Card`, `List`, the response shapes, and the `Array.find` lookups
  `FindCard` / `FindList`, with lemmas that they return the first match and how appends
  affect them.
- `Auth`: `validateBearerToken`. It includes JavaScript's `split(' ')` as `Split`, with
  the round trip against `Join`.
- `App`: the class `Store`. Its two `seq` fields are the module-level arrays. The GET
  routes are functions over them; `POST /cards` and `POST /lists` are methods that append
  in place. The `forEach` check of `POST /lists` is a loop method (`CheckCardIds`).
  `Serve` runs one request through the gate and then the route.
- `Scenarios`: a client method. It replays requests against the seeded store using only
  the contracts above.

Modelling choices:

- Ids are strings compared exactly. The seed records' numeric ids `1`, `2`, `3` are
  written `"1"`, `"2"`, `"3"`, and any number a request sends (route parameters are
  strings; a `cardIds` entry in the JSON body may be a number such as `1`) is written as
  its decimal string. Under that mapping the source's loose `==` (src/app.js:94, 105, 157)
  agrees with exact string equality on canonical decimals. It differs only on spellings
  such as `"01"` or `" 1"`, which the model does not accept as matches.
- A fresh `uuid()` is a `freshId` argument. The caller must guarantee that the
  relevant table does not already use it.
- Request-body fields are `Option<string>`, and `cardIds` is `Option<seq<Id>>`. A
  field counts as given (`Present`) when it is a non-empty string. This is JavaScript
  truthiness restricted to these types.
- The gate compares `Option<string>` values, so `undefined !== undefined` is modelled
  faithfully. With `API_TOKEN` unset, a non-empty header without a space passes
  (`UnsetTokenAcceptsOneWord`). So the gate is not fail-closed for an unset token.
  Any header containing a space is still refused (`UnsetTokenRejectsTwoWords`).
- `GET /lists/:id` answers a miss with the text `Card not found`, as the code does.

## Model

| member | source | states |
|---|---|---|
| `Records.FindCard` | src/app.js:94 | `None` exactly when no card has the id; otherwise a card of the table with that id |
| `Records.FindList` | src/app.js:105 | `None` exactly when no list has the id; otherwise a list of the table with that id |
| `Records.FindCardFirst` | src/app.js:94 | the card lookup returns the card at the first index carrying the id |
| `Records.FindListFirst` | src/app.js:105 | the list lookup returns the list at the first index carrying the id |
| `Records.FindCardAppended` | src/app.js:129-136 | after a card with an unused id is pushed, looking up that id returns the new card |
| `Records.FindCardAppendOther` | src/app.js:136 | pushing a card leaves the lookup of every other id, and of every id already present, unchanged |
| `Records.FindListAppended` | src/app.js:168-175 | after a list with an unused id is pushed, looking up that id returns the new list |
| `Records.FindListAppendOther` | src/app.js:175 | pushing a list leaves the lookup of every other id, and of every id already present, unchanged |
| `Auth.Split` | src/app.js:39 | `split(' ')` yields at least one piece, no piece holds a space, and there is exactly one piece iff the header has no space |
| `Auth.JoinSplit` | src/app.js:39 | joining the pieces with single spaces gives the header back |
| `Auth.SplitJoin` | src/app.js:39 | splitting space-free pieces after joining them gives the same pieces |
| `Auth.ValidateBearerToken` | src/app.js:35-45 | a halted request gets 401 `{error: 'Unauthorized request'}`; the request passes exactly when the header is present and non-empty and either it holds a space and its second space-separated piece equals the configured token, or it holds no space and no token is configured |
| `Auth.SchemeAndTokenAccepted` | src/app.js:39-44 | a header `<word> <token> ...` whose second piece equals the configured token calls `next()` |
| `Auth.SchemeAndOtherTokenRejected` | src/app.js:39-42 | a header `<word> <other> ...` whose second piece is not the configured token is refused with 401, whatever the first word and any words after |
| `Auth.BearerAccepted` | src/app.js:39-44 | `Bearer <token>` with the configured token passes |
| `Auth.OtherTokenRejected` | src/app.js:39-42 | `Bearer <other>` with a different token is refused with 401 |
| `Auth.UnsetTokenAcceptsOneWord` | src/app.js:36-44 | with `API_TOKEN` unset, a non-empty header without a space passes |
| `Auth.UnsetTokenRejectsTwoWords` | src/app.js:36-42 | with `API_TOKEN` unset, a header containing a space is refused |
| `Auth.SetTokenRejectsOneWord` | src/app.js:39-42 | with a token configured, a header without a space is refused |
| `App.LookupUnique` | src/app.js:92-100 | in a table with unique ids, looking up a card's own id returns exactly that card |
| `App.ReferencesSurviveNewCard` | src/app.js:136 | appending a card keeps every list's card references resolvable |
| `App.MissingCardIdsCount` | src/app.js:155-162 | each id is reported as missing as often as the request names it if no card has it, and never otherwise |
| `App.MissingCardIdsPermutation` | src/app.js:155-162 | reordering the requested card ids does not change the multiset of ids reported missing |
| `App.MissingNoneIffAllExist` | src/app.js:155-163 | nothing is reported missing exactly when every requested id names a card |
| `App.CheckCard` | src/app.js:121-128 | title is checked before content: the title error exactly when the title is absent or empty, the content error exactly when the title is given and the content is not |
| `App.Store.constructor` | src/app.js:60-80 | the store starts with the three seed cards and the one seed list, and satisfies the invariant |
| `App.Store.GetCards` | src/app.js:84-86 | status 200 with the whole card table in insertion order |
| `App.Store.GetLists` | src/app.js:87-89 | status 200 with the whole list table in insertion order |
| `App.Store.GetCard` | src/app.js:92-101 | status 200 iff some card has the id, and then the body is the first card in table order carrying it; otherwise 404 `Card not found` |
| `App.Store.GetList` | src/app.js:103-112 | status 200 iff some list has the id, and then the body is the first list in table order carrying it; otherwise 404 `Card not found` |
| `App.Store.CheckCardIds` | src/app.js:154-162 | visits every id: `valid` iff every id names a card, and `missing` lists the unresolved ids in visiting order |
| `App.Store.CreateCard` | src/app.js:116-142 | on a validation failure: 400 `Invalid data`, tables unchanged. Otherwise: the cards become old cards plus the new card, the lists are unchanged, 201 with Location `.../card/<id>` and the full card, the new id looks up to the new card, and every other lookup is unchanged |
| `App.Store.CreateList` | src/app.js:144-179 | fails with 400 `Invalid data`, tables unchanged, when the header is missing or a card id is unresolved. Otherwise: the lists become old lists plus `{freshId, header, cardIds or []}`, 201 with Location `.../list/<id>` and body `{id}` only, the cards are unchanged, the new id looks up, and other lookups are unchanged. The invariant that every list's ids resolve is kept |
| `App.Store.Serve` | src/app.js:35-45 | a halted gate answers 401. Any non-201 answer leaves both tables unchanged, and a 201 is exactly one append to one table. Past the gate, each GET answers its route's value, and each POST answers 201 exactly when its validation passes and 400 `Invalid data` otherwise. A 201 for a card carries Location `.../card/<id>` and the full card; a 201 for a list carries Location `.../list/<id>` and `{id}` only |

## Left out

- Express wiring (src/app.js:29-32): `morgan`, `helmet`, `cors` and `express.json`. These are library middleware whose code is not part of this model.
- Logging (src/app.js:16-27 and every `logger.*` / `console.*` call, including the unconditional error log at src/app.js:38). These are I/O side effects only. The one exception: `CheckCardIds` returns the ids the loop would log, so the model shows that the loop never stops early.
- `errorHandler` (src/app.js:47-57). It depends on Express error propagation and on serialising JavaScript error objects.
- `uuid()` randomness, `dotenv` and `./config`. The fresh id and `API_TOKEN` are parameters.
- HTTP serialisation of JSON, status lines and content types. A response is a status, an optional Location header and a body value.
- JavaScript truthiness and coercion for non-string bodies (`0`, `false`, `null`, numeric ids). For instance, `cardIds: null` would throw at `.length`; the model admits only strings and arrays of ids.
- Aliasing: the stored list holds the request's own `cardIds` array, which later mutation of that object could change. The model stores a value.
