# TV-show store (hands-on-rest) in Dafny

The service keeps an ordered, in-memory list of TV-show records and serves it
over HTTP: reseed the list from a seed file, list it (optionally filtered by
genre), get one record by id, create, replace and delete records. This project
models that list and its six route handlers from `app.js`, and proves what each
handler does to the list and answers.

- `json.dfy` — module `Json`: JSON values (request bodies and record members).
- `shows.dfy` — module `Shows`: a record (`Show`) is an open JSON object. Holds
  the pure expressions the handlers use: first-match lookup by id (`find`),
  JavaScript `split(',')` of the `genres` parameter with its inverse `Join`,
  lodash `intersection` of a record's genres with the query, and
  `Array.prototype.filter`.
- `handlers.dfy` — module `Handlers`: a function per route handler, from the
  list before a request to the list after it and the response (200/201/204,
  400, 404). Also lemmas relating the operations: create then get, create then
  delete, update then get, what a delete removes, and that ids can repeat.
- `store.dfy` — module `Store`: class `ShowStore`. It holds the live list
  `shows` and the `seed`. Its methods update the list in place the way the
  handlers do (`push`, `tvShows[index] = …`, `splice`, reassignment on seed).
  Each method is proved to change the list exactly as its `Handlers` function
  says.
- `scenario.dfy` — module `Scenario`: the six Cypress tests replayed on the
  store class (`LoadsEight`, `LoadsById`, `LoadsByGenres`, `CreatesOne`,
  `UpdatesOne`, `DeletesOne`). Their assertions follow from the contracts
  of `Store`, `Handlers` and `Shows`. They work for any seed of eight records whose record "1" is Black
  Mirror.

Two points of the code shape the model:

- **Create: a caller-supplied id wins.** `{ id: uuidv1(), ...newTvShow }` puts
  the spread after `id`, so a payload `id` replaces the generated one. `WithId`
  and `Create` model this. `CreateCanDuplicateId` shows the effect: a create
  can store a second record with an id that is already taken.
- **Ids are not unique.** Create (through a payload id) and update (through
  the body's id) can both introduce repeats, so nothing here assumes
  uniqueness. Every lookup is "the first record carrying the id", and
  `UpdateCanRename` shows an update taking a record out of reach of its old id.

How `find` followed by `indexOf` is modelled: the code finds the record and
then takes the position of that same object with `indexOf`, which compares
references. No record object is ever stored in two slots. Seeding copies the
seed's distinct objects, and create and update store fresh request bodies. So
that position is always the first position whose record matches, which is
what `FirstMatch` returns.

## Model

| member | source | states |
|---|---|---|
| `Shows.HasId` | app.js:13 | `tvShow.id === id` holds only for a string `id` member equal to the id; an id of another JSON type never matches |
| `Shows.FirstMatch` | app.js:12-16 | the position `find` stops at: the record there carries the id and none before it does; None exactly when no record carries it |
| `Shows.FirstMatchIsUnique` | app.js:13 | any position that is a first match is the one lookup returns |
| `Shows.FirstMatchPastReplaced` | app.js:63-64 | writing a record without the id over the first match moves the first match to the next record carrying the id, or to none |
| `Shows.Split` | app.js:33 | `split(',')` yields at least one piece and no piece contains a comma |
| `Shows.SplitPieceCount` | app.js:33 | a query with n commas splits into n + 1 pieces |
| `Shows.JoinSplit` | app.js:33 | joining the pieces with commas gives back the query string |
| `Shows.SplitJoin` | app.js:33 | splitting the join of comma-free pieces gives back the pieces |
| `Shows.GenresOf` | app.js:35 | lodash reads `tvShow.genres` as the array's items when it is an array, and as no genres otherwise |
| `Shows.Intersection` | app.js:35 | lodash `intersection`: a value is in the result iff it is one of the record's genres and a string among the query pieces; no value appears twice |
| `Shows.SharesGenreIff` | app.js:35 | `intersection(...).length > 0` iff some query piece is one of the record's genres (a record without a genres array never matches) |
| `Shows.SharesGenre` | app.js:35 | `intersection(...).length > 0` can hold only for a record whose `genres` is an array and a non-empty query |
| `Shows.Filter` | app.js:34-36 | `filter` returns no more elements than it was given, each of them from the input and accepted by the test |
| `Shows.KeptIndices` | app.js:34-36 | the accepted positions in increasing order: each accepted position appears, and only accepted ones |
| `Shows.FilterSelectsKeptIndices` | app.js:34-36 | the filter's k-th element is the element at the k-th accepted position, and it has one element per accepted position, so stored order is kept and every left-out record fails the test |
| `Shows.FilterByGenres` | app.js:34-36 | the filtered list has one record per record sharing a genre with the query, and its k-th record is the one at the k-th such position, so stored order is kept |
| `Handlers.List` | app.js:28-38 | a missing or empty `genres` returns the whole list unchanged and in order; otherwise exactly the records sharing a genre with `genres.split(',')`, in stored order |
| `Handlers.Get` | app.js:40-43 | 404 iff no record carries the id; otherwise the first record that carries it |
| `Handlers.WithId` | app.js:50-53 | the spread keeps every payload member and adds `id`; the generated id is used only if the payload has none |
| `Handlers.Create` | app.js:45-55 | a missing or empty body gives 400 with the list unchanged; otherwise one record is appended (length + 1, earlier records unchanged), it is the payload plus id, and the 201 response is that last record |
| `Handlers.Update` | app.js:57-66 | unknown id gives 404 whatever the body (lookup before body check); known id with empty body gives 400 with no change; otherwise 204, the first matching slot holds the body as given, length kept, all other slots unchanged |
| `Handlers.Delete` | app.js:68-73 | unknown id gives 404 with the list unchanged; otherwise 204 and the list is the first matching record cut out, the rest in their order |
| `Handlers.ErrorsChangeNothing` | app.js:45-73 | every 400 or 404 from create, update or delete leaves the list as it was |
| `Handlers.CreateKeepsLookups` | app.js:50-53 | appending never hides a record: every id found before a create is found at the same record after it |
| `Handlers.GetAfterCreate` | app.js:50-54 | with a fresh generated id and a body without id, getting by that id returns the created record |
| `Handlers.DeleteUndoesCreate` | app.js:68-72 | under the same conditions, deleting by the generated id restores the list before the create and answers 204 |
| `Handlers.CreateCanDuplicateId` | app.js:50-53 | a body whose id is taken is stored under it: two records then carry that id, and get still returns the older one |
| `Handlers.GetAfterUpdate` | app.js:63-64 | after an update whose body keeps the id, getting by the id returns the body |
| `Handlers.UpdateCanRename` | app.js:63-64 | after an update whose body does not carry the id, getting by the id answers as a lookup among the records after the replaced slot (404 if none of them carries it) |
| `Handlers.DeleteRemovesOne` | app.js:70-71 | a successful delete drops the length by one, and the list after plus the removed record is the list before, as a multiset |
| `Handlers.Response.Status` | app.js:15-72 | status codes, each in both directions: 200 exactly for lists and found records, 201 exactly for created, 204 exactly for no content, 400 exactly for a bad request, 404 exactly for not found |
| `Handlers.MissingOrEmpty` | app.js:47 | the guard `!newTvShow` or `isEmpty(newTvShow)` (also at line 60) holds exactly when there is no body or the body object has no member |
| `Store.ShowStore.constructor` | app.js:7 | at start-up the live list is the seed |
| `Store.ShowStore.Reseed` | app.js:23-26 | the list becomes the seed whatever it was before (so reseeding twice is the same as once) and the answer is 204 |
| `Store.ShowStore.List` | app.js:28-38 | the answer is `Handlers.List` of the live list, with status 200 |
| `Store.ShowStore.Get` | app.js:12-19 | the answer is `Handlers.Get` of the live list; 404 iff no record carries the id |
| `Store.ShowStore.Create` | app.js:45-55 | the new list and the answer are those of `Handlers.Create` on the old list (`push`) |
| `Store.ShowStore.Update` | app.js:57-66 | the new list and the answer are those of `Handlers.Update` on the old list (indexed assignment) |
| `Store.ShowStore.Delete` | app.js:68-73 | the new list and the answer are those of `Handlers.Delete` on the old list (`splice`) |
| `Scenario.Seeded` | cypress/integration/tv-shows.spec.js:2-4 | every test starts from a fresh store reseeded to the seed |
| `Scenario.WithAbstract` | cypress/integration/tv-shows.spec.js:57-69 | the update test's body carries id "1" and the `abstract` member |
| `Scenario.SciFiOrHorror` | cypress/integration/tv-shows.spec.js:29 | the query `sci-fi,horror` splits into its two genres |

## Left out

- The Express app, its middleware chaining (`next`, `res.locals`), static files, JSON body parsing, `app.listen` and logging. These are framework and I/O plumbing.
- The `GET /` greeting. It has no state.
- The seed file `tv-shows.json` is not part of this model. The seed is a parameter of the store's constructor, and the scenario only assumes what the tests state about it.
- `uuidv1()` depends on time and host. The generated id is a parameter of create, and lemmas that need it fresh say so in a precondition.
- Query-string decoding. A repeated `genres` parameter arriving as an array is not modelled; `genres` is an optional string.
- Request bodies other than JSON objects. For example, an array body, which `isEmpty` and the spread treat differently. A body is either missing or an object.
- Member order inside a record. JavaScript objects keep insertion order, and a payload `id` keeps the first position of the key. The model uses unordered maps.
- JSON serialisation of responses. Numbers are exact reals, not IEEE doubles; no handler compares them.
- Shows.GenresOf: an array-like object with a `length` member, which lodash would also accept as a genres list, counts as no genres.
- Shows.Intersection: does not state the order of the result, only its members and that they are distinct; the handler uses only whether it is empty.
- Concurrency between requests. Every handler runs to completion on the event loop, so each is one atomic step here.
- `LoadsByGenres` checks only that Black Mirror is among the records listed for `sci-fi,horror`. The other three expected titles belong to seed records the tests do not spell out.
