# Quote route of the quote and image gallery

This project models the `GET` handler of the gallery's quote API
(`app/api/quote/route.ts`) in Dafny and proves what the handler promises. The
handler walks the person folders under `public/` and builds three lists. The
first holds every person, with missing metadata filled in from the folder name.
The second is a pool of quotes, each tagged with its person. The third is a pool
of image paths, each tagged with its person. The handler then answers one of six
request types: `default` (random quote/image pairs), `quote`, `image`, `both`,
`persons`, or a 400 error for anything else.

The model has three modules:

- `Sampling` (`sampling.dfy`) covers `getRandomItems`. It shuffles the caller's
  array in place and returns `slice(0, count)` of it. The random comparator is
  replaced by an oracle: a sequence of choices that drives a Fisher-Yates
  shuffle on an `array`. A proof shows that every permutation can be reached,
  so the oracle stands for "some permutation". `slice` keeps JavaScript's
  semantics, so a negative `count` drops items from the end.
- `Catalog` (`catalog.dfy`) covers the aggregation loop. Each folder arrives as
  a value: its name, its parsed `person.json`, the `quotes` field of its
  `quotes.json`, and the listing of its `images` directory. The loop is a
  method with loop invariants, proved against the specification functions
  `Persons`, `QuotePool` and `ImagePool`.
- `QuoteRoute` (`quote_route.dfy`) covers the query defaults and the type
  dispatch. `Dispatch` is the specification of the whole response, and the
  method `Get` is the handler. `Get` runs the aggregation, copies both pools
  into arrays, and calls the sampler on them, so the `default` loop reshuffles
  the pools round after round, as the source does. The k-th sampler call of a
  request takes its choices from `draws[k]`.

## Model

| member | source | states |
|---|---|---|
| Sampling.GetRandomItems | app/api/quote/route.ts:8-14 | A non-array argument gives `[]`. Otherwise the array is left shuffled in place, it is a permutation of its old contents, and the result is `Sample` of the old contents. |
| Sampling.Shuffled | app/api/quote/route.ts:12 | The order `arr.sort(() => 0.5 - Math.random())` leaves the array in, for a given choice sequence. Its properties are stated by the lemmas below. |
| Sampling.SliceEnd | app/api/quote/route.ts:13 | The end index `slice(0, count)` uses; it never passes the array's length. Its full meaning is stated by `SampleOfCount` and `SampleOfNegativeCount`. |
| Sampling.Sample | app/api/quote/route.ts:8-14 | What `getRandomItems` returns for an array: the first `SliceEnd(len, count)` items of the shuffled array (see `SampleIsPrefix`). |
| Sampling.ShuffledIsPermutation | app/api/quote/route.ts:12 | The shuffle keeps the length and the multiset of items. |
| Sampling.ShuffleFromIsPermutation | app/api/quote/route.ts:12 | Every tail of the shuffle, from any step on, keeps the length and the multiset. |
| Sampling.ShuffleFromKeepsPrefix | app/api/quote/route.ts:12 | Steps from i on leave positions before i untouched. |
| Sampling.ShuffleReachesEveryPermutation | app/api/quote/route.ts:12 | Every rearrangement of the array is produced by some choice sequence. |
| Sampling.SampleIsPrefix | app/api/quote/route.ts:12-13 | The result is the front of the shuffled array, with length `SliceEnd(len, count)`, and a sub-multiset of the input. |
| Sampling.SampleOfCount | app/api/quote/route.ts:13 | For `count >= 0` the result holds `min(count, len)` items, all taken from the input. |
| Sampling.SampleOfNegativeCount | app/api/quote/route.ts:13 | For `count < 0` the result holds `max(len + count, 0)` items, not zero. |
| Sampling.SampleOfLargeCount | app/api/quote/route.ts:13 | A count of at least `len` returns every item, with its multiplicity. |
| Sampling.SampleCanPickAny | app/api/quote/route.ts:12-13 | A one-item draw can come out as any item of the array. |
| Catalog.Falsy | app/api/quote/route.ts:68 | The falsiness test that line 68 applies to `id` and to `name`: a field is truthy exactly when it holds a non-empty string. Non-string values are not modelled (see the Left out line on an `id` or `name` that is not a string). |
| Catalog.UnknownName | app/api/quote/route.ts:70 | The template `Unknown (${personId})`. The name is never falsy, and the folder name sits between its 9-character prefix and the closing parenthesis, so distinct folders get distinct names. |
| Catalog.FilledIn | app/api/quote/route.ts:67-71 | If `id` or `name` is falsy, both are replaced (`id` by the folder name, `name` by `Unknown (<folder>)`). Otherwise the object is unchanged. Other fields are always kept, and the name is never falsy afterwards. |
| Catalog.QuotesOf | app/api/quote/route.ts:75-78 | No quotes list gives nothing. Otherwise there is one item per quote, in order, each tagged with the filled-in person. |
| Catalog.ImagesOf | app/api/quote/route.ts:81-87 | An unreadable images directory gives nothing. Otherwise there is one item per listed file, in order, with path `/<folder>/images/<file>` and the filled-in person. |
| Catalog.ImagePath | app/api/quote/route.ts:84 | `path.posix.join("/", personId, "images", file)` as plain concatenation. For names from a directory listing the join normalises nothing, and `ImagePathInjective` shows the path determines both the folder and the file. |
| Catalog.ImagePathInjective | app/api/quote/route.ts:84 | For folder names without `/`, as a directory listing gives them, two image paths are equal only when both the folder and the file are equal, so distinct images never share a path. |
| Catalog.Persons | app/api/quote/route.ts:59-72 | `allPersons` after the loop: each folder's filled-in person, appended in folder order (see `PersonsInFolderOrder`). |
| Catalog.Gather | app/api/quote/route.ts:59-88 | A pool as the loop builds it: each folder's contribution appended in folder order (see `GatherOfConcat`, `GatherMembers`). |
| Catalog.QuotePool | app/api/quote/route.ts:75-78 | `quotes` after the loop: `Gather` of the folders' `QuotesOf`. |
| Catalog.ImagePool | app/api/quote/route.ts:81-87 | `images` after the loop: `Gather` of the folders' `ImagesOf`. |
| Catalog.PersonsInFolderOrder | app/api/quote/route.ts:59-72 | The person list has one entry per folder; entry i is folder i's filled-in person. |
| Catalog.GatherOfConcat | app/api/quote/route.ts:59-88 | The pool of two consecutive runs of folders is the concatenation of their pools, so contributions appear in folder order. |
| Catalog.GatherMembers | app/api/quote/route.ts:59-88 | An item is in a pool exactly when some folder's contribution contains it (both directions). |
| Catalog.PushQuotes | app/api/quote/route.ts:76-78 | The `forEach` over a quotes list appends exactly `QuotesOf(folder)`. |
| Catalog.PushImages | app/api/quote/route.ts:81-87 | The `forEach` over an image listing appends exactly `ImagesOf(folder)`. |
| Catalog.Aggregate | app/api/quote/route.ts:59-88 | The loop builds exactly `Persons`, `QuotePool` and `ImagePool` of the folders. |
| QuoteRoute.RequestType | app/api/quote/route.ts:44 | The type is never empty. It is `default` exactly when the parameter is absent, empty or `default`. |
| QuoteRoute.Count | app/api/quote/route.ts:45 | The `count` parameter, 1 when absent or empty (see `OmittedParametersTakeDefaults`). |
| QuoteRoute.QuoteCount | app/api/quote/route.ts:46 | The `quoteCount` parameter, `count` when absent or empty (see `OmittedParametersTakeDefaults`). |
| QuoteRoute.ImageCount | app/api/quote/route.ts:47 | The `imageCount` parameter, `count` when absent or empty (see `OmittedParametersTakeDefaults`). |
| QuoteRoute.OmittedParametersTakeDefaults | app/api/quote/route.ts:44-47 | Leaving out a parameter, or sending it empty, gives the same response as sending its default: `type=default`, `count=1`, and `quoteCount`/`imageCount` equal to `count`. |
| QuoteRoute.PairOf | app/api/quote/route.ts:94-100 | One `default` entry, built from a one-item or empty sample of each pool, with the placeholders and the person fallback (see `PairOfSamples`). |
| QuoteRoute.DefaultPairs | app/api/quote/route.ts:92-101 | The entries of the remaining rounds of the `default` loop. Each round samples both pools and leaves them reshuffled for the next (see `DefaultPairsLength`, `DefaultPairDrawn`). |
| QuoteRoute.Reshuffled | app/api/quote/route.ts:93-95 | A pool after the remaining rounds of the `default` loop, shuffled once per round (see `ReshuffledIsPermutation`). |
| QuoteRoute.ReshuffledIsPermutation | app/api/quote/route.ts:93-95 | However many rounds run, each pool keeps its length and its multiset of items. |
| QuoteRoute.Dispatch | app/api/quote/route.ts:90-140 | The response is a 400 error exactly when the type is not one of the five known ones, and that error is `400, "Invalid type or request"`. |
| QuoteRoute.DrawnFromRearranged | app/api/quote/route.ts:94-95 | Whether a pair is drawn from the pools does not depend on their order, so the in-place reshuffles of earlier rounds do not matter. |
| QuoteRoute.PairOfSamples | app/api/quote/route.ts:94-100 | One round's pair takes its quote and person from the quote pool and its image from the image pool. A placeholder appears only for an empty pool, and the person falls back to the image's. |
| QuoteRoute.DefaultPairsLength | app/api/quote/route.ts:93-101 | The `default` loop yields exactly one pair per round. |
| QuoteRoute.DefaultPairsFirst | app/api/quote/route.ts:94-100 | The first pair of the `default` loop is the one-item samples of the two pools as they are when the loop starts. |
| QuoteRoute.DefaultPairsLater | app/api/quote/route.ts:93-101 | Pair j > 0 of the `default` loop is pair j - 1 of the remaining rounds, which start from the pools the first round reshuffled. |
| QuoteRoute.DefaultPairDrawn | app/api/quote/route.ts:93-101 | Every pair of the `default` loop is drawn from the pools the loop started with. |
| QuoteRoute.DefaultRound | app/api/quote/route.ts:94-100 | One round returns `PairOf` the one-item samples of the two arrays' old contents. It leaves each array shuffled in place with its own call's choices. |
| QuoteRoute.NextRound | app/api/quote/route.ts:93-101 | One round moves the loop state on. Its pair is the first of the remaining entries. Its reshuffle is the first of each pool's remaining reshuffles. |
| QuoteRoute.DefaultRounds | app/api/quote/route.ts:92-101 | The loop over the two arrays returns `DefaultPairs` of their old contents. It runs `count` rounds, or none when `count` is negative. Each array ends as `Reshuffled` of its old contents, a permutation of them. |
| QuoteRoute.DefaultResponse | app/api/quote/route.ts:90-103 | An absent, empty or `default` type returns `max(count, 0)` pairs, each drawn from the pools. |
| QuoteRoute.QuoteResponse | app/api/quote/route.ts:106-113 | `type=quote` returns a sub-multiset of the quote pool. It holds `min(count, pool size)` items, or `max(pool size + count, 0)` for a negative count. |
| QuoteRoute.ImageResponse | app/api/quote/route.ts:114-121 | `type=image`: the same for the image pool. |
| QuoteRoute.BothResponse | app/api/quote/route.ts:122-133 | `type=both` returns independent samples of the two pools, sized by `quoteCount` and `imageCount`: `min(n, pool size)` items for `n >= 0` and `max(pool size + n, 0)` for `n < 0`. An absent `quoteCount` or `imageCount` takes the value of `count` (for the limits see Left out). |
| QuoteRoute.PersonsResponse | app/api/quote/route.ts:136-138 | `type=persons` returns every folder's filled-in person, in folder order. |
| QuoteRoute.Get | app/api/quote/route.ts:42-140 | The handler's response equals `Dispatch` for every query, catalog and random source. |

## Left out

- The file system is not modelled: `fs.readdir`, `fs.readFile`, the whole of `readJsonFile`, and the unused `getAllFiles`. Their results arrive as the fields of `PersonFolder`. A missing or unparsable `person.json` arrives as an object without `id` and `name`.
- The directory filter at lines 55-56 is not modelled: the folders are given already filtered.
- `Math.random` and the distribution of the comparator sort are left out. The oracle stands for "some permutation"; `ShuffleReachesEveryPermutation` shows that it excludes none, but nothing is said about probabilities.
- The `NextResponse.json` envelopes and HTTP status codes are left out, except the 400 status of an unknown type. The `Internal server error` response of the `catch` at lines 141-142 is left out: nothing in the model can throw.
- `parseInt` is not modelled: counts arrive as integers. A non-numeric count (`NaN`) is not representable. Neither is the rounding of counts beyond 2^53 to the nearest double.
- A `person.json` whose `id` or `name` is not a string (a number, `false`, `null`) is not modelled. Falsiness is modelled for strings only: absent or empty.
- Catalog.PersonData and Catalog.PersonFolder are typed more narrowly than the JSON they stand for:
  - `otherFields` may hold an `id` or `name` key, which the real object cannot hold besides its `id` and `name` fields. The model never reads `otherFields`, so nothing it proves depends on such a key.
  - `quotes` is a list of strings. The `forEach` at line 77 pushes whatever JSON values the list holds.
- A `person.json` that parses to something other than an object (`null`, a number, an array) is not modelled. In the source it ends in a thrown error at line 68 or in field writes on a non-object.
- A `quotes.json` holding `null` is not modelled. Line 76 reads `.quotes` of `null` and throws, so every request type answers 500. `PersonFolder.quotes` cannot represent that file. Any other `quotes.json` that is not an object (a number, a string, a boolean, an array) has no `quotes` property: line 76 skips it, the folder adds no quotes, and the model covers it as `PersonFolder.quotes == None`.
- A truthy `quotes` field that is not an array is not modelled. For a number, a string or an object without a `forEach` method, the call at line 77 throws.
- `path.posix.join` normalisation is reduced to plain concatenation. Directory-listing names never contain `/` and are never `.` or `..`.
- Object identity is not modelled. In the source, every quote and image entry of a folder shares one `personData` object. The model copies the value; the object is not changed after the entries are pushed, so the JSON output is the same.
- Sampling.GetRandomItems: the source's comparator sort is modelled as a Fisher-Yates shuffle. Both reorder in place and return a permutation, but the model does not reproduce the engine's sort order for a given comparator.
- QuoteRoute.QuoteCount, QuoteRoute.ImageCount, QuoteRoute.BothResponse: the fallback to `count` is exact only for `|count| < 10^21`. Lines 46-47 re-parse `count.toString()`. From `10^21` on, JavaScript writes that string in exponent form (`1e+21`), and `parseInt` keeps only its leading digit. The model keeps the whole count.
- For `count < 0`, the `quote`, `image` and `both` types do not return an empty list: a negative `count` keeps all but the last `-count` items, as `slice` does (`SampleOfNegativeCount`). With `count = 0` they return an empty list, and the `default` type returns an empty list for every `count <= 0`. The route also reorders the aggregated pools in place. The model follows the code on both points.
