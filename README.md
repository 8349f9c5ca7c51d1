# Catalogue backend: queries, statistics and page windows in Dafny

This project models the data engine of a small catalogue service. The
service holds a flat collection of priced items and offers four things:

- a listing with a case-insensitive search and paging;
- lookup of an item by id;
- creation of an item;
- aggregate statistics, served through a cache with a time-to-live.

It also models the page arithmetic of the front end's pagination control.

| file | module | models |
|---|---|---|
| `Common.dfy` | `Common` | `Option`, the handler outcome `Result`, the error kinds, `Min`/`Max` |
| `Text.dfy` | `Text` | `toLowerCase` (ASCII letters) and `includes`, with `includes` proved equal to "occurs at some index" |
| `Items.dfy` | `Items` | the items router: search filter, `slice` paging and `Math.ceil` page count, `find` by id, payload validation, and the data file as a `Store` class whose `Create` appends in place |
| `Stats.dfy` | `Stats` | `calculateStats` as folds over the collection, and the `statsCache` record as a class with `Get(now, store)` and `Invalidate()`, specified by the pure step function `Serve` |
| `Pagination.dfy` | `Pagination` | `generatePageNumbers` as a method with its loop, the "Showing X to Y" range, the Previous/Next disabled conditions |
| `Examples.dfy` | `Examples` | the three-item collection of the router's tests and what each operation answers over it |

Conventions:

- Prices are integers (cents).
- The id of a new item is a parameter of `Create`. In the source it comes from `Date.now()`.
- The current time is a parameter of `StatsCache.Get`.
- The data file is a `Store` object. It holds the collection, a flag saying whether reading it succeeds, and a ghost count of reads. The read count is what lets `StatsCache.Get` state that a cache hit does not read the store.

Where one might expect otherwise, the model follows the code:

- Validation does not trim, so a name of one space is accepted (backend/src/routes/items.js:78).
- Ids are not guaranteed to be unique. `FindAfterAppend` states what a lookup returns when an id repeats.
- The cache duration is a fixed constant of five minutes, not a parameter.
- Creating an item does not itself invalidate the cache. The cache is cleared only by the file watcher, modelled as the explicit `Invalidate` method.
- The stats router reads `backend/data/items.json` (backend/src/routes/stats.js:5). The items router reads and writes `data/items.json` at the repository root (backend/src/routes/items.js:5). These are two different files, so the model passes the store to `StatsCache.Get` explicitly.

## Model

| member | source | states |
|---|---|---|
| `Text.IncludesIff` | backend/src/routes/items.js:29-30 | the left-to-right `includes` scan succeeds exactly when the term occurs at some index of the string |
| `Text.LowerIsLowerCase` | backend/src/routes/items.js:27-30 | lower-casing keeps the length, turns each upper-case letter into its lower-case letter and keeps every other character, leaves no upper-case letter and is idempotent |
| `Text.Lower` | backend/src/routes/items.js:27-30 | definition of `toLowerCase` on ASCII letters; `Text.LowerIsLowerCase` states its properties |
| `Text.Includes` | backend/src/routes/items.js:29-30 | definition of `includes` as a left-to-right scan; `Text.IncludesIff` states what it means |
| `Items.Matches` | backend/src/routes/items.js:28-30 | definition of the search test; `Items.MatchesIff` states what it means |
| `Items.MatchesIff` | backend/src/routes/items.js:28-30 | an item matches exactly when the lower-cased term occurs at some index of its lower-cased name or of its lower-cased category |
| `Items.Filter` | backend/src/routes/items.js:28-31 | the filter never grows the collection and keeps only matching items of the collection |
| `Items.Search` | backend/src/routes/items.js:23-31 | the search never grows the collection and answers only items of the collection; with a non-empty term it is the order-preserving `Filter` |
| `Items.SearchMembership` | backend/src/routes/items.js:23-31 | an item is a search result exactly when it is in the collection and either the term is absent or empty, or the item matches it |
| `Items.FilterKeepsMatches` | backend/src/routes/items.js:26-32 | an item is in the filter's result exactly when it is in the collection and its lower-cased name or category contains the lower-cased term |
| `Items.FilterAppend` | backend/src/routes/items.js:28-31 | filtering distributes over concatenation, so the original order is kept |
| `Items.FilterSingle` | backend/src/routes/items.js:28-31 | a single item is kept exactly when it matches |
| `Items.FilterIdentity` | backend/src/routes/items.js:28-31 | the filter returns the collection unchanged exactly when every item matches |
| `Items.SearchCaseInsensitive` | backend/src/routes/items.js:26-32 | two terms with the same lower case select the same items in the same order |
| `Items.SearchWithoutTerm` | backend/src/routes/items.js:23-26 | an absent or empty term leaves the collection unfiltered |
| `Items.CeilDiv` | backend/src/routes/items.js:48 | `totalPages` is the least page count whose pages hold all results, and it is 0 exactly when there are no results |
| `Items.Slice` | backend/src/routes/items.js:40 | `slice` clamps its end to the length and yields the elements from `start` on, or nothing when `start` is past the end |
| `Items.Paginate` | backend/src/routes/items.js:35-49 | a page has at most `pageSize` items: `min(pageSize, total - (page-1)*pageSize)` of them, taken in order from index `(page-1)*pageSize`; `total` is the filtered count and `totalPages` is `CeilDiv(total, pageSize)` |
| `Items.PageBeyondEndIsEmpty` | backend/src/routes/items.js:37-40 | a page after `totalPages` is empty, not an error |
| `Items.PageBeforeLastIsFull` | backend/src/routes/items.js:37-48 | every page before the last one holds exactly `pageSize` items |
| `Items.PagesCoverResults` | backend/src/routes/items.js:35-48 | every result appears on page `i / pageSize + 1`, at position `i % pageSize`, and that page is within `totalPages` |
| `Items.PageSizeOf` | backend/src/routes/items.js:22-35 | the page size is the given `limit`, and 10 when `limit` is absent |
| `Items.PageNumberOf` | backend/src/routes/items.js:22-36 | the page number is the given `page`, and 1 when `page` is absent |
| `Items.PageWithinResults` | backend/src/routes/items.js:40 | every item of a page is one of the results it was cut from |
| `Items.ListQuery` | backend/src/routes/items.js:19-50 | the answer is `Paginate` of the search matches with page `page` (1 when absent) and size `limit` (10 when absent), so it holds the matches from index `(page-1)*limit` on, in order, and the page count of all the matches; `total` is the number of matches, and the collection size without a term; every answered item is from the collection |
| `Items.FindIndex` | backend/src/routes/items.js:60 | `find` stops at the first item with the id; it finds nothing exactly when no item has that id |
| `Items.Find` | backend/src/routes/items.js:60-65 | a found item is in the collection, has the requested id, and no earlier item has that id; nothing is found exactly when no item has that id |
| `Items.FindById` | backend/src/routes/items.js:60 | an item is found exactly when the id parsed and some item has it; a found item is in the collection and has that id; a parsed id answers `Find`, the first item with that id |
| `Items.FindAfterAppend` | backend/src/routes/items.js:59-87 | after an append, looking up the new item's id finds the new item, unless an earlier item has the same id, in which case the earlier one is found |
| `Items.FindUnchangedByAppend` | backend/src/routes/items.js:59-87 | appending an item does not change what an id that is already present finds |
| `Items.ValidPayload` | backend/src/routes/items.js:78 | definition of the payload check; `Items.NewItem` and `Items.Store.Create` state what a valid and an invalid payload lead to |
| `Items.NewItem` | backend/src/routes/items.js:84-86 | the created item carries the payload's name, category and price and the given id; its strings are non-empty and its price is positive |
| `Items.Store.ReadAll` | backend/src/routes/items.js:8-11 | a read returns the whole collection or the storage failure, and counts one read |
| `Items.Store.List` | backend/src/routes/items.js:19-54 | the listing answers `ListQuery` over the stored collection, or the storage failure; it never changes the collection |
| `Items.Store.Get` | backend/src/routes/items.js:57-70 | the lookup answers the item found, `NotFound` for a missing or unparsable id, or the storage failure |
| `Items.Store.Create` | backend/src/routes/items.js:73-93 | an invalid payload is rejected without reading or changing the store; a storage failure changes nothing; otherwise exactly one item is appended at the end, and it is returned |
| `Stats.MaxPrice` | backend/src/routes/stats.js:35 | the maximum bounds every price from above and is the price of some item |
| `Stats.MinPrice` | backend/src/routes/stats.js:36 | the minimum bounds every price from below and is the price of some item |
| `Stats.PriceSum` | backend/src/routes/stats.js:32 | definition of the price sum; `Stats.PriceSumAtLeast` and `Stats.PriceSumAtMost` bound it |
| `Stats.PriceSumAtLeast` | backend/src/routes/stats.js:32 | when every price is at least `lo`, the sum is at least `total * lo` |
| `Stats.PriceSumAtMost` | backend/src/routes/stats.js:32 | when every price is at most `hi`, the sum is at most `total * hi` |
| `Stats.RoundedAverage` | backend/src/routes/stats.js:41 | `Math.round` of the mean: the integer `r` with `r - 1/2 <= sum/total < r + 1/2` |
| `Stats.Categories` | backend/src/routes/stats.js:37 | the category list has one entry per item, the item's category |
| `Stats.Distinct` | backend/src/routes/stats.js:37 | the `Set` spread has no duplicates and holds exactly the values of the input |
| `Stats.CategoryList` | backend/src/routes/stats.js:37 | definition of `[...new Set(items.map(item => item.category))]`; `Stats.Distinct`, `Stats.DistinctCardinality` and `Stats.CalculateStats` state its properties |
| `Stats.Count` | backend/src/routes/stats.js:46 | the count of a category never exceeds the collection size |
| `Stats.CountNoneOrAll` | backend/src/routes/stats.js:46 | the count is 0 exactly when no item has the category, and the collection size exactly when every item has it |
| `Stats.Breakdown` | backend/src/routes/stats.js:44-48 | the breakdown's keys are the listed categories, and each value is the number of items with that category |
| `Stats.CalculateStats` | backend/src/routes/stats.js:30-50 | `total` is the collection length; an empty collection gives all zeros and an empty breakdown; otherwise min and max bound every price and are attained; the breakdown keys are exactly the categories present, each mapped to its item count; `categories` is the number of keys; on a non-empty collection `averagePrice` is the rounded mean of the prices |
| `Stats.DistinctCardinality` | backend/src/routes/stats.js:37-43 | a list without duplicates has as many distinct values as entries, so `categories` counts distinct categories |
| `Stats.AverageWithinRange` | backend/src/routes/stats.js:32-41 | the rounded mean lies between the minimum and the maximum price |
| `Stats.RoundedAverageBetween` | backend/src/routes/stats.js:41 | rounding a mean of values in `[lo, hi]` stays in `[lo, hi]` |
| `Stats.BreakdownSumsToTotal` | backend/src/routes/stats.js:31-48 | the distinct category list names every breakdown key exactly once, and the breakdown's counts over it sum to `total` |
| `Stats.SumCountsCover` | backend/src/routes/stats.js:44-48 | per-category counts over distinct categories that cover every item add up to the number of items |
| `Stats.IsHit` | backend/src/routes/stats.js:60-62 | definition of a cache hit: data and a truthy (non-zero) timestamp, less than `CACHE_DURATION` old; `Stats.HitIgnoresStore` and `Stats.ExpiresAtDuration` state its consequences |
| `Stats.Serve` | backend/src/routes/stats.js:53-80 | a successful answer is what the next entry stores, and that entry is a hit at `now` unless `now` is 0; an error is answered only after a failed read, and a miss whose read fails answers that error and leaves the entry as it was; a miss with a successful read answers the statistics of the collection read and stamps them with `now` |
| `Stats.HitIgnoresStore` | backend/src/routes/stats.js:60-65 | a cache hit answers the stored value and leaves the entry as it was, whatever the collection holds |
| `Stats.ExpiresAtDuration` | backend/src/routes/stats.js:60-77 | exactly `CACHE_DURATION` after the timestamp the entry is stale; the request recomputes from the current collection and stamps the result with `now` |
| `Stats.InvalidatedRecomputes` | backend/src/routes/stats.js:20-25 | after invalidation the next request recomputes, whatever the time, and answers the statistics of the current collection |
| `Stats.RepeatWithinDuration` | backend/src/routes/stats.js:60-77 | two requests less than `CACHE_DURATION` apart, the first at a non-zero time, with no invalidation between them, answer the same statistics provided the entry the first request used is still fresh at the second; the second one is a hit |
| `Stats.StatsCache.constructor` | backend/src/routes/stats.js:8-12 | the cache starts with no data and no timestamp |
| `Stats.StatsCache.Get` | backend/src/routes/stats.js:53-81 | the request follows `Serve`; a hit does not read the store; every answer is the statistics of a collection read less than `CACHE_DURATION` before `now` |
| `Stats.StatsCache.Invalidate` | backend/src/routes/stats.js:20-25 | both fields are cleared, so the next request misses whatever the time |
| `Pagination.PageNumbers` | frontend/src/components/Pagination.js:8-24 | the window has `max(0, min(5, totalPages))` consecutive, increasing pages, all in `[1, totalPages]`; it holds the current page when that page exists; it starts at 1 near the start, is centred on the page away from both ends, and ends at `totalPages` near the end |
| `Pagination.ShowingRange` | frontend/src/components/Pagination.js:53 | the lower end of "Showing X to Y" is `(page-1)*limit + 1`; the upper end is `min(page*limit, total)`: at most both, and equal to one of them |
| `Pagination.ShowingMatchesPage` | frontend/src/components/Pagination.js:53 | for an existing page, "Showing X to Y" names exactly the items the listing returns for that page: `Y - X + 1` of them, the first at index `X - 1` and the last at index `Y - 1` |
| `Pagination.NavigationStaysInRange` | frontend/src/components/Pagination.js:75-93 | from an existing page, an enabled Previous or Next leads to an existing page; when the control renders (`totalPages > 1`), at least one of them is enabled |
| `Pagination.Renders` | frontend/src/components/Pagination.js:6 | definition: the control renders only with more than one page; `Pagination.NavigationStaysInRange` relates it to the buttons |
| `Pagination.PreviousDisabled` | frontend/src/components/Pagination.js:75 | definition of the Previous button's disabled condition; `Pagination.NavigationStaysInRange` states its consequences |
| `Pagination.NextDisabled` | frontend/src/components/Pagination.js:93 | definition of the Next button's disabled condition; `Pagination.NavigationStaysInRange` states its consequences |
| `Examples.SearchByCategory` | backend/src/routes/__tests__/items.test.js:88-95 | `q=electronics` over the test collection answers the laptop and the phone, in that order, with total 2 |
| `Examples.SecondPageOfTwo` | backend/src/routes/__tests__/items.test.js:79-86 | `limit=2&page=2` over the test collection answers only the third item, and there are 2 pages |
| `Examples.LookupSample` | backend/src/routes/__tests__/items.test.js:98-114 | id 999 is not found and id 1 is the laptop |
| `Examples.SampleStats` | backend/src/routes/stats.js:30-50 | the test collection's statistics: total 3, mean 766.67, max 1000, min 500, 2 categories, breakdown Electronics 2 and Furniture 1 |

## Left out

- Reading and writing the data file, and JSON encoding. The file is the in-memory `Store`. A read either returns the collection or fails with `StorageUnavailable`; this stands for both a missing file and malformed JSON. A failing `writeFile` after a successful read is not modelled.
- `parseInt` of the query string and the path. The id arrives already parsed, with `None` for an unparsable id. The page and the limit arrive as positive integers or absent. Not modelled: a zero, negative or `NaN` page or limit; JavaScript's negative-index `slice`; the empty string `limit=` falling back to 10.
- Text.LowerIsLowerCase: lower-casing is modelled for the ASCII letters only, not for the full Unicode mapping of `toLowerCase`.
- Items.ValidPayload: payload fields are strings, integers or absent. A truthy value of another JSON type (a number as the name, say) is not modelled. Neither is `NaN` as a price, which passes `typeof price === 'number'`.
- Floating point. Prices are integer cents. `Math.round(avg * 100) / 100` is computed exactly, as the nearest cent with halves rounded up; rounding errors of binary floating point are not modelled.
- Spreading a very large collection into `Math.max`/`Math.min`, which throws a `RangeError` in JavaScript, is not modelled.
- A category named like an `Object.prototype` property (`__proto__`) behaves specially as a key of the breakdown object; the breakdown is modelled as a plain map.
- The file watcher is modelled as the explicit `StatsCache.Invalidate`, and nothing calls it. In the source it watches `backend/data/items.json`, which is not the file that creation writes. It also passes a callback to the promise-based `fs.watch`, which never calls it back.
- Timer and console output: the current time is a parameter, and log lines are omitted.
- Concurrency. Two concurrent creates race on read-modify-write, and concurrent cache requests race too. Each operation is modelled as one atomic step.
- The error middleware, the React pages and components other than the page arithmetic of `Pagination`, and the client data layer are not part of this model.
