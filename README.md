# Admin dashboard enrichment: a Dafny model

The dashboard loads a reading list from a book catalog. It then enriches each
work with two records:

- an author record, found by searching the author name;
- a rating record, found by searching the title.

Both records are cached in per-session dictionaries (`authorDetails`,
`ratingDetails`). The dashboard renders one table row of seven cells per work.

The repository has two versions of this component, and this project models both:

- `Home.js` is the routed dashboard. After the list has loaded, it walks the works in order. For each work it runs the author lookup, then the title lookup, and each lookup writes one cache key.
- `Home2.js` is the alternative version. It tracks a `loading` / `error` state. It runs one enrichment round over the distinct author names and the titles, then merges each set of answers into its cache in one update.

Catalog requests are not modelled. Each one is an oracle answer:
`Response<seq<Doc>>`, which is either `Received(docs)` or `Failure`. Inside a
round (Home2) or a pass (Home), the oracle is a function from the query string
to its answer.

Files:

- `js.dfy` (module `Js`): the JavaScript semantics the code relies on:
  - truthiness, with `undefined` and `null` falsy and objects truthy;
  - `||`, and `s || fallback` on optional strings;
  - `docs[i]` past the end giving `undefined`;
  - plain objects used as dictionaries, through their own properties only;
  - `Array.prototype.join`, and the `","`-joined key an array becomes when it is used as a property key;
  - `String(n)` for integers, used for the publish year.
- `catalog.dfy` (module `Catalog`): the records:
  - works and author and title search hits, with fields as `Option`;
  - the `!details[key]` guard (`NeedsLookup`);
  - the key of a missing title, which is `"undefined"`.
- `cells.dfy` (module `Cells`): the rating, subject, birth-date and top-work cells, which both components render the same way.
- `home2.dfy` (module `Home2`): Home2.js:
  - the distinct-name computation;
  - the skip/select rule for each key;
  - the `reduce` merge and the overlay onto the previous map;
  - the row projection;
  - a class `Dashboard` holding the component state, with methods for `fetchBooks` and `fetchDetails`.
- `home.dfy` (module `Home`): Home.js:
  - candidate selection;
  - single-key updates;
  - the pass over the works;
  - the log of requests sent;
  - the row projection;
  - a class `Dashboard` whose `FetchAuthors` method is the `for` loop of `fetchAuthors`.

Consequences the proofs pin down:

- An entry stored as `null` or `undefined` is falsy, so the next round requests it again.
- In Home2, a work with two or more authors never finds its author record, as long as no author name and no cached key contains a comma. Records are stored under each single name, but the row reads the key made by joining the whole `author_names` array with `","`.
- In Home2, the rating lookup keeps `docs[1]`, so a title with exactly one hit stores `undefined`.
- In Home, stored keys and read keys are the same coerced string, so every work finds the record its own lookup stored.
- In Home, the `!authorDetails[...]` guard reads the map the callback captured when the pass started. Updates go through updater functions onto the live map. A work that repeats an earlier author list or title is therefore requested again within the same pass.
- A failed or empty lookup stores `null`, which is falsy, so it is requested again.
- Home2's name list keeps first-occurrence order, because it is built with a JavaScript `Set`.

## Model

| member | source | states |
|---|---|---|
| Js.ArrayKeyShape | frontend/src/components/Home2.js:118 | an array used as a property key: with one element the key is that element; with two or more it contains a comma and equals none of the elements |
| Home2.AllNames | frontend/src/components/Home2.js:81 | the flattened name list contains a name exactly when some work lists it |
| Home2.Dedup | frontend/src/components/Home2.js:81 | spreading a `Set` built from a list gives exactly the list's elements, with no duplicates |
| Home2.DedupKeepsFirstOccurrenceOrder | frontend/src/components/Home2.js:81 | the de-duplicated list keeps the order in which elements first occur |
| Home2.DistinctNames | frontend/src/components/Home2.js:81 | the names requested: duplicate-free, exactly the names occurring in some work's `author_names`, in first-occurrence order |
| Home2.Requests | frontend/src/components/Home2.js:29-31 | a key is queried exactly when it is in the round and its cache entry is falsy; distinct keys give distinct queries |
| Home2.ColdStartRequestsAll | frontend/src/components/Home2.js:30-31 | when no entry of the round is truthy (in the model, an empty cache), every key is queried, in order and once per occurrence (once per name for `DistinctNames`) |
| Home2.OutcomesQueryRequests | frontend/src/components/Home2.js:30-46 | the keys that produce a `{ [key]: ... }` object, in order, are exactly the keys queried |
| Home2.MergeEffect | frontend/src/components/Home2.js:30-49 | the reduced update holds exactly the requested keys, each with the value selected from its own answer; skipped keys (`null`) add nothing |
| Home2.RoundEffect | frontend/src/components/Home2.js:49-50 | the new cache is the old one overlaid with the round's answers: a requested key gets its new value, every other key keeps its old value, and no key is removed (the same rule as lines 75-76) |
| Home2.AuthorRoundResolves | frontend/src/components/Home2.js:31-42 | after a round a name is still unresolved (falsy, so re-requested next round) exactly when it was unresolved and its search gave no hit or failed; with hits it stores `docs[0]` |
| Home2.RatingRoundResolves | frontend/src/components/Home2.js:56-68 | a title becomes resolved only when its search returns at least two hits, since `docs[1]` is kept; an unresolved title with two or more hits stores `docs[1]` |
| Home2.OneHitTitleIsRefetched | frontend/src/components/Home2.js:56-62 | a title unresolved before the round whose search has exactly one hit stores `undefined`, stays falsy, and its row shows rating "N/A" |
| Home2.CellRules | frontend/src/components/Home2.js:122-128 | the authors, title, year, birth-date and top-work cells are never empty; authors is "N/A" for an empty list and the name itself for one non-empty author; year 0 shows "N/A" |
| Cells.MissingAuthorCells | frontend/src/components/Home2.js:126-128 | with no truthy author record the subject, birth-date and top-work cells are "N/A" |
| Home2.SingleAuthorRowFindsRecord | frontend/src/components/Home2.js:117-128 | a single-author work whose name was unresolved before the round and whose search has hits shows the cells of the first hit after the round |
| Home2.MultiAuthorRowMisses | frontend/src/components/Home2.js:117-128 | a work with two or more authors shows "N/A" in its subject, birth-date and top-work cells after any round, when no cached key and no author name contains a comma |
| Home2.ScreenRules | frontend/src/components/Home2.js:92-100 | while loading only the spinner shows; after a failed load only the message "Failed to fetch books" shows; the table shows exactly when not loading and no non-empty error is set; a shown message is never empty |
| Home2.ViewAfterLoad | frontend/src/components/Home2.js:92-131 | once loading has finished, a failed load shows the error message, and otherwise the table has one row per book, in order, each that book's projection over the current caches |
| Home2.Dashboard.constructor | frontend/src/components/Home2.js:6-10 | the initial state: no books, empty caches, `loading` true, no error |
| Home2.Dashboard.FetchBooks | frontend/src/components/Home2.js:13-24 | `loading` becomes false on success and on failure; success sets `books` to each entry's `work` in order; failure sets the error "Failed to fetch books" and leaves `books` unchanged |
| Home2.Dashboard.FetchDetails | frontend/src/components/Home2.js:79-90 | with no books nothing changes and nothing is requested; otherwise both caches become the round results over the distinct names and the titles, and the queries sent are those rounds' requests |
| Home.CandidateSelection | frontend/src/components/Home.js:30-53 | the author stored is `docs[0]`; the rating stored is `docs[1]`, or `docs[0]` when there is one hit; no hits or a failure stores `null` |
| Home.StepChangesOneKey | frontend/src/components/Home.js:25-41 | one call changes only its own key, and only when the captured entry is falsy; every other key keeps its value |
| Home.PassEffect | frontend/src/components/Home.js:61-67 | after a pass, a key of the pass whose captured entry was falsy holds the value selected from its answer; every other key is unchanged |
| Home.ColdQueryLog | frontend/src/components/Home.js:62-67 | with nothing cached, the requests alternate author search then title search, work by work in list order, and repeated works are asked again |
| Home.NoFallbackForTitleAndYear | frontend/src/components/Home.js:98-99 | title and year have no "N/A" fallback: missing ones render empty, and year 0 renders "0" |
| Home.StoredRecordIsShown | frontend/src/components/Home.js:91-102 | every work, including multi-author ones, shows the cells of the record its own lookup stored, because storing and reading use the same coerced key |
| Home.Dashboard.constructor | frontend/src/components/Home.js:7-9 | the initial state: no books, empty caches |
| Home.Dashboard.FetchBooks | frontend/src/components/Home.js:12-20 | success sets `books` to each entry's `work`; failure changes nothing (there is no error state) |
| Home.Dashboard.FindAuthorDetails | frontend/src/components/Home.js:25-41 | sends an author search and writes exactly that key when the captured entry is falsy; otherwise sends nothing and changes nothing |
| Home.Dashboard.FindRatingDetails | frontend/src/components/Home.js:43-60 | the same rule for the title search |
| Home.Dashboard.FetchAuthors | frontend/src/components/Home.js:61-72 | the loop over the works in order: both caches end as the pass results, and the requests are sent in the order of the query log |

## Left out

- HTTP requests, URLs and `encodeURIComponent` are not modelled. Every request is an oracle parameter. A payload that lacks the expected fields throws in the source, and the model counts it as `Failure`.
- The oracle gives the same answer to the same query string within one round or pass. Different answers to repeated requests are not modelled.
- `Promise.all` fan-out and the order in which requests settle are not modelled. One Home2 enrichment round is a single step.
- React's effect scheduling is not modelled. Each cache update re-creates the callbacks and re-runs the effect while the pass or round already in flight is still running with its old callbacks. The re-runs overlap, so two passes (Home) or rounds (Home2) can both request a key whose answer has not arrived yet; the model runs one pass or round at a time.
- The MUI table markup, the spinner being drawn, and JSX rendering are not modelled. Only the cell strings and the screen choice are kept.
- The authors cell of Home.js:97 keeps the raw array, because the model does not specify how React renders it as text.
- `first_publish_year` is a JavaScript number. The model takes it as an integer of ordinary size: fractional years and numbers from 1e21 up, which print in exponent form, are not modelled.
- `ratings_average` is a float. The model keeps only the text JavaScript prints for it and treats "0" and "NaN" as falsy.
- A missing title becomes the key "undefined". A JSON `null` title, which would become "null", is not told apart from a missing one.
- `author_names` is always an array in the model. A work without one would make Home2's render throw, and that case is not modelled.
- Console logging is not modelled.
- Keys named after properties inherited from `Object.prototype` (`toString`, `constructor`, `__proto__`, ...) are not modelled. `Get` reads only own properties. In the source such a name or title reads a truthy inherited value, so it is never requested and its row shows the fallback cells.
- frontend/src/components/Login.js is not modelled. It is a fixed credential comparison wired to navigation.
- frontend/src/App.js is not modelled. It holds route declarations only.
