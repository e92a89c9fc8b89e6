# Product API request pipeline, modelled in Dafny

The system is a small Express REST API over a product collection in a
document store. This project models its decision logic:

- the `validateProduct` middleware, a first-failing-check decision over the
  request body that either answers 400 or calls `next()` (`validation.dfy`),
  with JavaScript values and truthiness written out (`js.dfy`);
- the unauthenticated `GET /products` handler: the store query built from the
  optional `category` and `search` parameters, the skip/limit pagination and
  `totalPages = Math.ceil(total / limit)` (`listing.dfy`);
- the `/api/products` routes (get, create, update, delete, search) over an
  in-memory store `map<Id, Body>` held by the class `ProductStore`, whose
  invariant `Valid()` says every stored product passed the validator, with the
  gate ordering `auth` before `validateProduct` on POST and PUT and `auth`
  alone on DELETE (`routes.dfy`). Shared store types are in `catalog.dfy`.

Foreign parts become inputs. The `auth` middleware is a boolean
`authorized`. A store call that throws, which every handler forwards to the
error handler with `next(error)`, is a boolean `storeFails` and yields the
abstract `Internal` outcome with the store unchanged. The `$regex` match on
names is a function parameter (`Matcher`). The documents matched by the list
route are an in-memory sequence. The identifier of a new document is any one
not yet in use, chosen by the store.

Where the written design and the code differ, the model follows the code:

- The design speaks of a case-insensitive substring search. The code passes
  the user's text to `$regex`, so it is a regular expression; matching is left
  uninterpreted.
- The design allows partial updates. The validator runs on PUT too and demands
  all four fields, so every accepted update writes all four.
- The design lists `page >= 1` and `limit >= 1` as input constraints. The code
  checks neither; the model takes them as positive numbers (see below).
- The price message says "positive", yet `price == 0` is accepted, as the
  design also says.

## Model

| member | source | states |
|---|---|---|
| Js.Truthy | middleware/validation.js:4 | the falsy values are exactly undefined, null, false, 0 and the empty string |
| Js.Param | server.js:24 | an absent query parameter is undefined, one given once as plain text a string; it is truthy iff present and non-empty |
| Validation.ValidateProduct | middleware/validation.js:1-17 | accepts iff name, description and category are truthy and price is a number >= 0; rejects the price iff all fields are present and the price is null, a boolean, a string, an object or a negative number; otherwise reports missing fields |
| Validation.Reply | middleware/validation.js:4-16 | exactly one exit: `next()` iff accepted; the missing-fields verdict gets 400 with "Missing required fields: name, description, price, category", the price verdict 400 with "Price must be a positive number" |
| Validation.PresenceCheckWins | middleware/validation.js:4-14 | the presence check runs first: a falsy text field or undefined price gives the missing-fields response whatever the price |
| Validation.MissingNameNegativePrice | middleware/validation.js:4-14 | a missing name with price -1 gets the missing-fields verdict, not the price one |
| Validation.ZeroPriceAccepted | middleware/validation.js:10 | price 0 with truthy text fields passes (the range test is strict) |
| Validation.NegativePriceRejected | middleware/validation.js:10-13 | a negative price with the other fields present gets 400 and the price message |
| Validation.StringOrNullPriceRejected | middleware/validation.js:4-13 | a price "5" or null passes the presence check and fails the type check |
| Catalog.Bound | server.js:61-62 | every identifier in use is below the bound, so a new document always gets a fresh identifier |
| Listing.Select | server.js:30 | the found documents are exactly the store's documents that satisfy the filter, each as often as it is stored and nothing else |
| Listing.SelectKeepsOrder | server.js:30 | selection keeps the store's order: selecting from two runs of documents is the two selections one after the other |
| Listing.Window | server.js:30-32 | skip then limit on a cursor is the slice from min(skip, n) to min(skip + limit, n) |
| Listing.PageCount | server.js:38 | the page count r is `Math.ceil(total / limit)`: r - 1 < total / limit <= r, also over the integers |
| Listing.ListProducts | server.js:22-45 | a throwing store call gives the internal-failure outcome and nothing else does; otherwise the response holds page `page` (a slice) of the documents matching the query built from the parameters, the count of the same matches, their page count and the page number; page 1 and limit 10 by default |
| Listing.QueryFilterKeys | server.js:25-28 | the filter has a category iff the category parameter is non-empty, a name pattern iff search is non-empty, each copied from its parameter |
| Listing.EmptyFilterSelectsAll | server.js:25-30 | with neither parameter the filter is empty and selects every document, in order |
| Listing.PagesArePrefix | server.js:30-32 | pages 1 to n, concatenated, are exactly the first n * limit items |
| Listing.PagesCoverAll | server.js:30-38 | pages 1 to totalPages, concatenated, are exactly all the matches |
| Listing.PageSizes | server.js:30-38 | every page before the last is full, the last is non-empty and holds the rest, later pages are empty |
| Listing.PagesDisjoint | server.js:30-32 | two different pages together hold no item more often than the matches do |
| Listing.TwentyFivePerTen | server.js:30-38 | 25 matches at limit 10 give 3 pages: items 0-9, 10-19 and 20-24 |
| Routes.WriteGates | server.js:59-69 | `auth` runs first: unauthorized means Unauthorized whatever the body; authorized requests pass iff the validator accepts, else Invalid with its message |
| Routes.ProductStore.Get | server.js:47-57 | with a working store: NotFound('Product not found') iff the id is absent, and 200 with the stored document of that id iff it is present; a throwing store gives Internal |
| Routes.ProductStore.Search | server.js:97-106 | never NotFound; with a working store always 200 with exactly the stored documents whose name matches, possibly none |
| Routes.ProductStore.Create | server.js:59-67 | gate outcomes leave the store unchanged; otherwise 201 with the submitted fields under a new id, and the store gains only that entry; keeps every stored product valid |
| Routes.ProductStore.Update | server.js:69-83 | gate outcomes and an absent id (NotFound) leave the store unchanged; otherwise only that entry is replaced and returned; keeps every stored product valid |
| Routes.ProductStore.Delete | server.js:85-95 | only `auth` gates it; an absent id gives NotFound with no change; otherwise only that entry is removed and the confirmation returned; keeps every stored product valid |
| Routes.UnauthorizedBeforeInvalid | server.js:59-69 | an unauthorized, invalid POST or PUT reports Unauthorized and changes nothing |
| Routes.DeleteTwice | server.js:85-95 | a second delete of the same id gives NotFound |
| Routes.CreateThenGet | server.js:49-63 | getting a created product's id returns the submitted fields; no other entry changes |

## Left out

- I/O and process plumbing: loading the environment, connecting to the store,
  JSON body parsing, the request logger, `app.listen` and its log line. None
  of them decides anything.
- `GET /`: it sends a fixed welcome text.
- `GET /api/stats`: the store runs the aggregation, and `avgPrice` is a
  floating-point average.
- The error handler and the auth middleware: neither is part of this model,
  so no status codes are given for NotFound, Unauthorized or Internal.
- Malformed identifiers: the store's cast error on an id that is not an
  ObjectId is one of the failures folded into `storeFails`.
- The document schema and the `runValidators` check on update: the model
  stores the body's four fields as sent, without the schema's casting.
- Extra body fields beyond the four the validator reads.
- The regular-expression engine and its 'i' option: `Matcher` is a parameter.
- Js.Param: repeated (`?category=a&category=b`) or bracketed (`?category[x]=y`)
  query parameters, which the query parser turns into arrays or objects, are
  not modelled; such a parameter is truthy and reaches the store query as it
  is, where an array means "any of".
- Listing.PagesCoverAll and Listing.PagesDisjoint: the store's documents are
  one fixed sequence shared by every request. The handler asks for no sort
  order, and the store promises none without one, so page disjointness and
  coverage across separate requests hold only under that fixed order.
- Routes.ProductStore.Search: the answer is a set, so the store's order of the
  returned documents is not modelled.
- Listing.ListProducts: does not model JavaScript's numeric coercion of the
  query strings (`limit * 1`, NaN, `limit = 0` giving Infinity pages,
  negative skips) nor that `currentPage` echoes the raw string; page and limit
  are positive whole numbers.
- Validation.ValidateProduct: prices are exact reals, so NaN (a number whose
  `< 0` test is false) and the infinities are not modelled.
- Concurrency between requests; each request is one call on the store.
