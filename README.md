# hub-site core in Dafny

This project models the logic of the hub-site front end (a Vue site) and proves properties of it. It covers six parts:

- **Document store** (`blogData.ts`, module `BlogData`). The index load state machine (`fetchIndex`), lookup by slug (`bySlug`), the slug-to-Markdown content cache filled by `fetchContent`, and the prefetch driver `fetchAllContents`. The driver filters the index and lets a bounded pool of workers drain a queue. The cache utilities `clearCache` and `hasCached` are included too. The store is a class whose methods update its fields. Its behaviour is specified by pure functions of the old state.
- **Route history store** (`routeHistory.ts`, module `RouteHistory`). It holds the last valid route and a de-duplicated history of at most five full paths, oldest first.
- **Route record factories** (`routerFactory.ts`, module `RouterFactory`). `createRoute` fills in the default meta and merges `other.meta` over it. `createHiddenRoute` sets `nav` to `false`. `createRedirects` expands each source path into an exact record and a wildcard record.
- **Tab title** (`setDocumentTitle.ts`, module `DocumentTitle`). The meta title, or a default, has `{id}` substituted, is trimmed, and is joined with the site name.
- **Front-matter table** (`front-matter.ts` with the key map of `constant.ts`, module `FrontMatter`). This covers `safeToString` and `formatFrontMatterAsMarkdown`.
- **Older copy of that table** in `markdown-renderer.ts` (module `MarkdownRenderer`). Its key map and `safeToString` are the same as the front-matter ones, so they are defined once, in `FrontMatter`. Its filter differs, and the model states exactly where.

Two shared modules support these. `Wrappers` defines `Option` and `Result`. `Text` defines the JavaScript string built-ins the code uses, as functions on `seq<char>`:

- `trim`, with the ECMA-262 WhiteSpace and LineTerminator set;
- `endsWith` and `includes` (with a `StartsWith` helper used in contracts);
- global `replace` of a literal pattern;
- `join`;
- integer `toString`.

The network is a parameter:

- `fetchIndex` meets an `IndexResponse`: a transport error, or a status with a JSON body.
- `fetchContent` meets a `ContentResponse`: a transport error, or a status with a readable or unreadable body.
- `fetchAllContents` meets `net(k)` on its k-th attempt.

The store keeps ghost logs of the requests it sends. This lets the contracts say which addresses were requested, and how many times.

## Model

| member | source | states |
|---|---|---|
| `BlogData.IndexResult` | src/stores/factory/blogData.ts:44-61 | A load yields entries exactly when the reply arrives, its status is 2xx and its JSON body is an array, and the entries are then that array. Otherwise the error names the first failed check: the request itself, a status outside 2xx (with status and status text), unreadable JSON, or a body that is not an array. |
| `BlogData.AfterFetchIndex` | src/stores/factory/blogData.ts:34-66 | When `loaded` or `loading` is set, nothing changes and no request is sent. Otherwise exactly one request is sent and `loading` ends false. A successful load sets `list` to the array received, sets `loaded` and leaves `error` null. A failed load keeps `list`, leaves `loaded` false and records the error. |
| `BlogData.LoadedIndexIsFinal` | src/stores/factory/blogData.ts:36 | Once the index is loaded, or while a load is in flight, a further `fetchIndex` changes nothing and sends nothing. |
| `BlogData.FailedLoadCanBeRetried` | src/stores/factory/blogData.ts:36-65 | After a failed load, the next call behaves like a first attempt. It clears the old error. |
| `BlogData.BySlug` | src/stores/factory/blogData.ts:27 | The lookup finds nothing exactly when no entry has the slug. Otherwise it returns the first entry that has it. |
| `BlogData.BySlugFindsEntry` | src/stores/factory/blogData.ts:27 | When slugs are unique, looking up an entry's own slug finds that entry. |
| `BlogData.NormalizeUrl` | src/stores/factory/blogData.ts:85 | The address `fetchContent` requests: the link trimmed, with every space replaced by `%20`. Its properties are stated by `NormalizeUrlSpec`. |
| `BlogData.NormalizeUrlSpec` | src/stores/factory/blogData.ts:85 | The requested address contains no space. Decoding `%20` gives back the trimmed link, whenever the link held no literal `%20`. |
| `BlogData.ContentStep` | src/stores/factory/blogData.ts:75-108 | One `fetchContent` call as a function of the index, the cache and the provider's response: its result, the new cache and the address requested, if any. Its behaviour is stated by `ContentStepSpec` and the step lemmas below. |
| `BlogData.ContentStepSpec` | src/stores/factory/blogData.ts:75-108 | A truthy cached value is returned with no request. An unknown slug, or a missing, empty or non-string link, fails before any request. Otherwise exactly one request goes to the normalised link of the first matching entry. Only a 2xx reply with a readable body succeeds. A failed request reports its cause: the transport error, the status and status text of a reply outside 2xx, or the reason the body could not be read. Success writes `cache[slug]` and nothing else; every failure leaves the cache unchanged. |
| `BlogData.StepCacheEffect` | src/stores/factory/blogData.ts:77-107 | A fetch writes at most its own slug's entry, and only with the text it returns. A cache hit returns the cached text and changes nothing. |
| `BlogData.StepRequested` | src/stores/factory/blogData.ts:79-107 | A fetch that misses the cache and finds an entry with a valid link requests that entry's normalised link. It succeeds exactly when the reply delivers text, and then returns that text. Otherwise it fails with the transport error, the status and status text, or the body's read error. |
| `BlogData.StepKeepsEntry` | src/stores/factory/blogData.ts:77-103 | A fetch leaves unchanged the entry of every other slug, and a truthy entry of its own slug. |
| `BlogData.SecondFetchHitsCache` | src/stores/factory/blogData.ts:77-107 | After a fetch returns non-empty text, the next fetch of the same slug is a cache hit that sends no request. |
| `BlogData.EmptyContentIsRefetched` | src/stores/factory/blogData.ts:77 | Cached empty text is falsy, so the next fetch of that slug asks the network again. |
| `BlogData.ClearedCacheRefetches` | src/stores/factory/blogData.ts:75-90 | With an empty cache, fetching a known slug with a valid link sends exactly one request, to its normalised link. |
| `BlogData.CacheHitIffNoRequest` | src/stores/factory/blogData.ts:171 | `hasCached(slug)` holds exactly when `fetchContent(slug)` would succeed without a request. |
| `BlogData.BlogDataStore.HasCached` | src/stores/factory/blogData.ts:171 | The `!!` test of the cached value for `slug`. Its meaning is stated by `HasCachedIffNoRequest`. |
| `BlogData.HasCachedIffNoRequest` | src/stores/factory/blogData.ts:171 | For any store, `hasCached(slug)` holds exactly when `fetchContent(slug)` would succeed without a request, and then it returns the cached text. |
| `BlogData.IsPrefetchable` | src/stores/factory/blogData.ts:124 | The filter test: a string link ending in `.md` and a type other than `system`. `PrefetchQueue` states what the filter keeps. |
| `BlogData.PrefetchQueue` | src/stores/factory/blogData.ts:123-125 | The filter throws exactly when some entry has a link that is neither a string nor null. Otherwise it keeps exactly the entries with a string link ending in `.md` and a type other than `system`. It never lengthens the list and keeps slugs unique. |
| `BlogData.PrefetchQueueAppend` | src/stores/factory/blogData.ts:123-125 | The filter keeps order: filtering a concatenation gives the concatenation of the filtered parts. |
| `BlogData.PoolSize` | src/stores/factory/blogData.ts:111 | The pool never exceeds `MAX_CONCURRENT` = 5 workers or the number of queued items, and reaches one of the two. |
| `BlogData.SpawnWorkersAsWritten` | src/stores/factory/blogData.ts:135-150 | The spawning loop as written starts `min(5, ceil(n/2))` workers for a queue of n items. It leaves the first of them shifted off the queue. |
| `BlogData.SpawnedWorkersFallShort` | src/stores/factory/blogData.ts:135 | For every queue of 2 to 8 items, the loop as written starts fewer workers than `min(5, n)`. |
| `BlogData.Drain` | src/stores/factory/blogData.ts:136-147 | The queue attempted item by item, in order, each attempt a `fetchContent` whose error is swallowed. Its properties are stated by the drain lemmas below. |
| `BlogData.DrainKeepsCachedText` | src/stores/factory/blogData.ts:139-147 | A prefetch run never changes a cached truthy value. |
| `BlogData.DrainTouchesOnlyQueuedSlugs` | src/stores/factory/blogData.ts:139-147 | A prefetch run leaves the cache entry of every slug it does not attempt unchanged. |
| `BlogData.Requested` | src/stores/factory/blogData.ts:85 | One normalised link per queued entry, in queue order. |
| `BlogData.DrainRequestsAreRequested` | src/stores/factory/blogData.ts:136-147 | Take a queue of distinct, uncached entries that the lookup resolves to themselves. The request log of draining it is exactly `Requested` of the queue. |
| `BlogData.DrainRequestsEachItemOnce` | src/stores/factory/blogData.ts:131-150 | Take a queue of distinct, uncached entries that the lookup resolves to themselves. Draining it sends exactly one request per item, in queue order, each to that item's normalised link. |
| `BlogData.DrainCachesEachSuccess` | src/stores/factory/blogData.ts:139-147 | After the drain, each item whose reply delivered text is cached with that text, and each failed item leaves its entry unchanged. Failures are swallowed and do not stop the other items. |
| `BlogData.QueueOfUniqueIndexIsFresh` | src/stores/factory/blogData.ts:123-131 | The queue built from an index with unique slugs, none of them cached, meets the conditions of the two drain lemmas above. |
| `BlogData.PrefetchRequestsExactlyTheFilteredEntries` | src/stores/factory/blogData.ts:118-153 | Starting from an empty cache, a prefetch over an index with unique slugs sends exactly as many requests as the filter keeps entries. |
| `BlogData.SkippedEntryIsNotFetched` | src/stores/factory/blogData.ts:123-125 | A prefetch run leaves the cache entry of a filtered-out entry (a `system` one, say) unchanged: it is present exactly when it was, with the same value. |
| `BlogData.BlogDataStore.constructor` | src/stores/factory/blogData.ts:16-20 | The store starts with an empty list and cache, both flags false and no error. |
| `BlogData.BlogDataStore.StartIndexLoad` | src/stores/factory/blogData.ts:36-44 | This is the synchronous part of `fetchIndex`. A load starts exactly when the index is neither loaded nor loading. Starting sets `loading`, clears `error` and sends one request. |
| `BlogData.BlogDataStore.FinishIndexLoad` | src/stores/factory/blogData.ts:44-65 | This is the continuation after the reply. On success `list` becomes the array and `loaded` is set. On failure `list` is kept, `loaded` stays false (a load is only started on a store that is not loaded, which the store invariant `Valid` records) and `error` records the cause. In both cases `loading` ends false. |
| `BlogData.BlogDataStore.FetchIndex` | src/stores/factory/blogData.ts:34-66 | The new index state is `AfterFetchIndex` of the old one. |
| `BlogData.BlogDataStore.FetchContent` | src/stores/factory/blogData.ts:75-108 | The result, the new cache and the request log are those of `ContentStep`. |
| `BlogData.BlogDataStore.FetchAllContents` | src/stores/factory/blogData.ts:118-154 | First it loads the index unless it is loaded. If the filter throws, the cache is unchanged. Otherwise the result reports a pool of `PoolSize(n)` workers and the queued slugs in order. The cache and the request log are those of draining the queue. |
| `BlogData.BlogDataStore.DrainQueue` | src/stores/factory/blogData.ts:136-153 | The workers' loop attempts every queued slug once, in order. It leaves the cache and request log of `Drain`. |
| `BlogData.BlogDataStore.ClearCache` | src/stores/factory/blogData.ts:160-164 | Every key is deleted, so the cache ends empty. The frame lets only the cache change, so `list`, `loaded` and `error` stay unchanged. |
| `BlogData.PrefetchDuringLoad` | src/stores/factory/blogData.ts:118-131 | A prefetch started while a load is in flight finds an empty list. Its nested `fetchIndex` returns at once, so it attempts nothing. The load then completes with the full list. |
| `RouteHistory.Remember` | src/stores/factory/routeHistory.ts:22-28 | The history after recording a full path: unchanged if the path is known, otherwise the path is appended and the oldest entry is dropped past five. `RememberKeepsInvariant` states its properties. |
| `RouteHistory.RememberKeepsInvariant` | src/stores/factory/routeHistory.ts:22-28 | The history stays within five entries and free of duplicates. A known path leaves it unchanged. A new path is appended last, and only on overflow is the oldest entry removed. |
| `RouteHistory.RememberIdempotent` | src/stores/factory/routeHistory.ts:23 | Recording the same path twice in a row is the same as recording it once. |
| `RouteHistory.IgnoreNotFound` | src/stores/factory/routeHistory.ts:16-18 | Visiting a route whose path holds `404` at any position leaves the store's previous route and history unchanged, whatever the route matched. |
| `RouteHistory.RouteHistoryStore.constructor` | src/stores/factory/routeHistory.ts:10-13 | The store starts with no previous route and an empty history. |
| `RouteHistory.RouteHistoryStore.SetPreviousValidRoute` | src/stores/factory/routeHistory.ts:16-30 | An invalid route (nothing matched, or `404` in the path) changes nothing. A valid route becomes the previous valid route and its full path is recorded. The bound and the absence of duplicates are preserved. |
| `RouteHistory.RouteHistoryStore.ClearHistory` | src/stores/factory/routeHistory.ts:32-35 | Afterwards there is no previous route and the history is empty. |
| `RouteHistory.RouteHistoryStore.GetLastValidRoute` | src/stores/factory/routeHistory.ts:39 | Returns the remembered route, if any. Under the store invariant that route is a valid one (it matched a record and its path has no `404`) and its full path is in the history. |
| `RouteHistory.RouteHistoryStore.HasValidHistory` | src/stores/factory/routeHistory.ts:40 | Holds exactly when `getLastValidRoute` returns a route. |
| `RouteHistory.HistoryScenario` | src/stores/factory/routeHistory.ts:16-40 | A valid visit is recorded. A `/404` visit afterwards changes nothing. After `clearHistory` the store reports no valid history. |
| `RouterFactory.CreateRoute` | src/router/factory/routerFactory.ts:43-65 | `path` is kept. The meta keys are the three defaults plus the keys of `other.meta`, and `other.meta` values win. When not overridden, `title` is `title ?? navTitle` (an empty title is kept), `disableZoom` is true and `nav` is `{show: true, title: navTitle}`. Component and children are passed through. The redirect and other options come from `other.attr`. |
| `RouterFactory.HideFromNav` | src/router/factory/routerFactory.ts:122-131 | Meta is created if missing, and `nav` becomes `false`. Every other meta key and every other field keeps its value. |
| `RouterFactory.CreateHiddenRoute` | src/router/factory/routerFactory.ts:112-132 | The record's meta exists and its `nav` is `false`. |
| `RouterFactory.HiddenRouteDiffersOnlyInNav` | src/router/factory/routerFactory.ts:120-131 | With the same arguments, the hidden record equals the `createRoute` record except that `nav` is `false`. It has the same meta keys and the same values elsewhere. |
| `RouterFactory.NavVisibility` | src/router/factory/routerFactory.ts:51-59 | Take `other.meta` as its type allows. A `createRoute` record is then listed in the navigation under `navTitle`, with the tab title `title` or else `navTitle`, and zoom disabled. The `createHiddenRoute` record is never listed. |
| `RouterFactory.HideFromNavIdempotent` | src/router/factory/routerFactory.ts:129 | Hiding a record twice is the same as hiding it once. |
| `RouterFactory.CreateRedirects` | src/router/factory/routerFactory.ts:155-172 | It returns exactly 2·\|from\| records, in `from` order. Record 2i is the exact record for `from[i]` and record 2i+1 is its wildcard record. |
| `RouterFactory.RedirectsResolve` | src/router/factory/routerFactory.ts:161-169 | The exact record has path `from[i]` and redirects to `to`. The wildcard record's path is `from[i]` followed by `/:path(.*)`, and it sends the captured `p` to `to + "/" + p`. |
| `RouterFactory.DocsRedirects` | src/router/routes/specialRoutes.ts:11-21 | The documents redirect configuration expands to eight records. `/document/guide/intro` resolves to `/docs/guide/intro`. |
| `DocumentTitle.BaseText` | src/router/factory/setDocumentTitle.ts:20 | The base text is never empty. It is the meta title whenever that is present and non-empty, and otherwise `Vite App`. |
| `DocumentTitle.PageText` | src/router/factory/setDocumentTitle.ts:17-20 | The page text is already trimmed: trimming it again changes nothing. |
| `DocumentTitle.TitleFor` | src/router/factory/setDocumentTitle.ts:23 | The title always ends with the site name. It is the site name alone exactly when the page text is empty or equals the site name. Otherwise it is the page text followed by ` - ` and the site name. |
| `DocumentTitle.SetDocumentTitle` | src/router/factory/setDocumentTitle.ts:13-24 | Without a document nothing is assigned. Otherwise the assigned title ends with the site name. |
| `DocumentTitle.PageSubstitutesId` | src/router/factory/setDocumentTitle.ts:17-20 | In a title with one `{id}` placeholder, the placeholder is replaced by the `id` parameter, or by nothing when there is none, and the result is trimmed. The text around it may hold any other braces. |
| `DocumentTitle.PageSubstitutesEveryId` | src/router/factory/setDocumentTitle.ts:17-20 | Every placeholder is replaced. A title made of placeholder-free parts separated by `{id}` becomes those parts separated by the `id` parameter, trimmed. |
| `DocumentTitle.PageIgnoresIdWithoutPlaceholder` | src/router/factory/setDocumentTitle.ts:17-20 | A base text without `{id}` gives the same page text for every `id`, namely the trimmed base text. |
| `DocumentTitle.DefaultPageText` | src/router/factory/setDocumentTitle.ts:20 | A missing or empty meta title gives the page text `Vite App`, whatever the `id`. |
| `DocumentTitle.DefaultTitle` | src/router/factory/setDocumentTitle.ts:20-23 | Such a route is titled `Vite App - <siteName>`, unless the site name is `Vite App`. |
| `DocumentTitle.SiteNameIsNotRepeated` | src/router/factory/setDocumentTitle.ts:23 | A page whose text is the site name gets the site name alone as its title. |
| `FrontMatter.SafeToString` | src/utils/markdown/front-matter.ts:21-29 | The cell text of a value. `SafeToStringEmptyIff`, `ArrayAppend` and `NestedArraysFlatten` state its properties. |
| `FrontMatter.SafeToStringEmptyIff` | src/utils/markdown/front-matter.ts:21-29 | A value renders as `""` exactly when it is blank. Blank means: null, undefined, or the empty string; an object whose JSON text is empty; the empty array; or a one-element array of a blank value. |
| `FrontMatter.ArrayAppend` | src/utils/markdown/front-matter.ts:25 | A concatenated array renders as the two renderings joined by `, `. |
| `FrontMatter.NestedArraysFlatten` | src/utils/markdown/front-matter.ts:25 | Nesting does not show in a cell. Two non-empty nested arrays render like their concatenation, and a one-element array renders like its element. |
| `FrontMatter.Label` | src/utils/markdown/front-matter.ts:66 | A key of the key map (constant.ts, lines 4-14) is shown as its mapped label, and any other key as itself. |
| `FrontMatter.CellText` | src/utils/markdown/front-matter.ts:63-66 | `created` and `updated` show the date formatter's text. Every other key shows `safeToString` of its value. |
| `FrontMatter.Row` | src/utils/markdown/front-matter.ts:66 | The table row of one attribute: its label and its cell text between bars. |
| `FrontMatter.IsKept` | src/utils/markdown/front-matter.ts:56 | The filter of `front-matter.ts`: a defined, non-null value under a key whose trimmed text is non-empty. `FiltersAgreeIff` compares it with the other copy's filter. |
| `FrontMatter.KeepEntries` | src/utils/markdown/front-matter.ts:55-57 | Exactly the entries that pass the filter are kept, and the result is never longer than the input. |
| `FrontMatter.KeepEntriesAppend` | src/utils/markdown/front-matter.ts:55-57 | The filter keeps entry order: it distributes over concatenation. |
| `FrontMatter.Rows` | src/utils/markdown/front-matter.ts:62-67 | The rows of the kept attributes, one per attribute, in order. `RowsAppend` and `RowOfOneEntry` state this. |
| `FrontMatter.RowsAppend` | src/utils/markdown/front-matter.ts:62-67 | The rows of two attribute lists are the rows of the first followed by the rows of the second. |
| `FrontMatter.Document` | src/utils/markdown/front-matter.ts:59-69 | The output is empty exactly when no attribute is kept. Otherwise it starts with the heading and the table header, ends with the rule, and between them holds exactly the rows of the kept attributes. |
| `FrontMatter.RenderTable` | src/utils/markdown/front-matter.ts:59-69 | The row-by-row table loop produces exactly `Document` of the kept attributes. |
| `FrontMatter.FormatFrontMatterAsMarkdown` | src/utils/markdown/front-matter.ts:54-70 | The output is `Document` of the attributes whose value is neither null nor undefined and whose key is not blank. It is `""` exactly when no attribute passes. |
| `FrontMatter.RowOfOneEntry` | src/utils/markdown/front-matter.ts:55-67 | A dropped attribute contributes no row and a kept one contributes its own row. Together with the append lemmas, this gives one row per kept attribute, in attribute order. |
| `FrontMatter.RowsOfEntriesAppend` | src/utils/markdown/front-matter.ts:55-67 | The rows for a list of attributes are the rows of its parts, each filtered on its own. |
| `FrontMatter.KeepEntriesAgree` | src/utils/factory/markdown-renderer.ts:79-81 | Two filters that agree on every entry keep the same entries. |
| `MarkdownRenderer.KeptByRenderer` | src/utils/factory/markdown-renderer.ts:80 | The filter of `markdown-renderer.ts`: a defined, non-null value under a non-empty key. |
| `MarkdownRenderer.RendererFormatFrontMatter` | src/utils/factory/markdown-renderer.ts:78-94 | The output is `Document` of the attributes whose value is neither null nor undefined and whose key is non-empty. It is `""` exactly when none passes. |
| `MarkdownRenderer.FiltersAgreeIff` | src/utils/factory/markdown-renderer.ts:79-81 | The two copies' filters disagree on an entry exactly when its value is usable and its key is non-empty but whitespace only. |
| `MarkdownRenderer.CopiesAgreeWithoutBlankKeys` | src/utils/factory/markdown-renderer.ts:78-94 | Without such keys, both copies produce the same Markdown. |
| `MarkdownRenderer.BlankKeyShowsDifference` | src/utils/factory/markdown-renderer.ts:80 | A single attribute under the key `" "` gives `""` from `front-matter.ts` but a table from `markdown-renderer.ts`. |
| `Text.EndsWith` | src/stores/factory/blogData.ts:124 | `String.prototype.endsWith`: the suffix is the final segment of the text. |
| `Text.Contains` | src/stores/factory/routeHistory.ts:18 | `String.prototype.includes`. `ContainsAt` and `ContainsHasPosition` tie it to an occurrence at some position. |
| `Text.ContainsAt` | src/stores/factory/routeHistory.ts:18 | An occurrence at any position is found. |
| `Text.ContainsHasPosition` | src/stores/factory/routeHistory.ts:18 | Whatever is found is an occurrence at some position. |
| `Text.DecimalString` | src/utils/markdown/front-matter.ts:24 | `Number.prototype.toString` on an integer: non-empty, a leading `-` exactly for a negative number, and decimal digits everywhere else. |
| `Text.Trim` | src/router/factory/setDocumentTitle.ts:20 | `String.prototype.trim` on the ECMA-262 whitespace set. `TrimIsMaximalSlice` states what it removes. |
| `Text.TrimStartSpec` | src/router/factory/setDocumentTitle.ts:20 | Removing leading whitespace keeps a suffix that does not start with whitespace, after a prefix that is all whitespace. |
| `Text.TrimEndSpec` | src/router/factory/setDocumentTitle.ts:20 | Removing trailing whitespace keeps a prefix that does not end with whitespace, before a suffix that is all whitespace. |
| `Text.TrimIsMaximalSlice` | src/router/factory/setDocumentTitle.ts:20 | `trim` removes exactly a whitespace prefix and a whitespace suffix. What remains neither starts nor ends with whitespace. |
| `Text.ReplaceAll` | src/router/factory/setDocumentTitle.ts:20 | A global `replace` of a literal pattern, scanning left to right without overlaps. `ReplaceAllOccurrence`, `ReplaceAllFirstOccurrence`, `ReplaceAllJoin`, `ReplaceAllAbsent` and `ReplaceCharRemovesIt` state its properties. |
| `Text.ReplaceAllFirstOccurrence` | src/router/factory/setDocumentTitle.ts:20 | For a pattern that cannot overlap itself, the first occurrence after a stretch free of the pattern is replaced, and the scan goes on after it. |
| `Text.ReplaceAllJoin` | src/router/factory/setDocumentTitle.ts:20 | Replacing such a pattern in pattern-free parts joined by it gives the parts joined by the replacement. |
| `Text.ReplaceAllOccurrence` | src/router/factory/setDocumentTitle.ts:20 | An occurrence of the pattern after a stretch without the pattern's first character is replaced, and the scan goes on after it. |
| `Text.DecodeEncodeSpaces` | src/stores/factory/blogData.ts:85 | Decoding `%20` undoes the space encoding of any text without a literal `%20`. |
| `Text.ReplaceCharRemovesIt` | src/stores/factory/blogData.ts:85 | Replacing a character by text that does not contain it removes every copy of it. |
| `Text.Join` | src/utils/markdown/front-matter.ts:25 | `Array.prototype.join` on strings. `JoinAppend` states how it splits. |
| `Text.JoinAppend` | src/utils/markdown/front-matter.ts:25 | Joining two non-empty lists puts one separator between their joins. |

## Where the model follows the code rather than its comments

- The cache test of `fetchContent` and `hasCached` is truthiness, not key membership. A cached empty document counts as absent and is fetched again.
- `createRoute` uses `title ?? navTitle`, so an empty `title` is kept rather than replaced by `navTitle`.
- The doc comments of both `formatFrontMatterAsMarkdown` copies mention a `title` parameter. The heading is in fact fixed to `## 文档信息`.

## Where the model follows the intent rather than the code

- The spawning loop at blogData.ts:135 bounds the pool by `Math.min(MAX_CONCURRENT, queue.length)`. That expression shows the intended pool of `min(5, n)` workers, but the loop starts `min(5, ceil(n/2))` (see Findings). `FetchAllContents` reports the intended pool size.

## Left out

- Network I/O, JSON parsing and body reading are abstract responses. The index URL is not modelled. Error messages are modelled by their cause, not by their text. Logging (`console.error`, `console.warn`) is not modelled.
- Concurrency: the worker pool is sequentialised. Each `queue.shift()` runs between awaits, so the items are attempted once each, in queue order. However, the model completes each attempt before the next starts. Calls of `fetchContent` that overlap in time are not modelled. Neither is a duplicate slug in the queue being fetched twice concurrently; in the model, its second attempt sees the first's cache write.
- `BlogData.BlogDataStore.FetchAllContents` runs its nested `fetchIndex` to completion. The one interleaving modelled is a prefetch during an in-flight load (`PrefetchDuringLoad`).
- The index entries' `title` and other fields are carried but not interpreted.
- Every element of the index array is taken to be an object with a string `slug`. A `null` or other non-object element, which makes `find` and `filter` throw a `TypeError`, is not modelled.
- `BlogData.BlogDataStore.FetchAllContents` reports the intended pool size `PoolSize(n)`, not the `min(5, ceil(n/2))` workers the loop as written starts. Which items are attempted, and in what order, does not depend on the pool size in the sequential model.
- Keys inherited from `Object.prototype` are not modelled. In JavaScript, `contentCache["constructor"]` and `keyMap["constructor"]` are truthy; in the model they are absent.
- `DocumentTitle.PageText` treats the `id` as literal replacement text. JavaScript's `replace` would expand `$&`, `$$` and similar patterns in it. A non-string `meta.title` and an array-valued `id` are not modelled.
- `Object.entries` order (integer-like keys first, then insertion order) is not modelled. The model takes the entries in the order that enumeration yields.
- `FrontMatter.SafeToString` covers integral numbers only. Fractions, `NaN`, `-0`, and the exponent notation of numbers of 1e21 and above are not modelled. `String(value)` is not modelled either, because parsed YAML never yields functions, symbols or bigints.
- `JSON.stringify` of an object and `formatFrontMatterDate` (a dayjs wrapper) are parameters. Their results are not modelled.
- Route records: a component key present with value `undefined` is treated as absent. Keys of `other.attr` that the type excludes (`path`, `meta`, `component`, `children`) are not modelled. Option values other than `redirect` are carried by identity.
- The redirect closure is represented by the target it captures. A non-string `path` parameter is not modelled.
- `RouteHistory.RouteHistoryStore.SetPreviousValidRoute` stores the route as a value with its path, full path and number of matched records. The rest of the normalised route object is not modelled.
- Markdown rendering (`createMarkdownRenderer`, `renderMarkdown`, `renderMarkdownFromUrl`), highlight.js, DOM helpers, viewport zoom, router wiring and the build configuration are not part of this model.

## Findings

| source | as written | input that shows it | evidently intended | confidence | as-written member | corrected member |
|---|---|---|---|---|---|---|
| src/stores/factory/blogData.ts:135 | The loop bound `Math.min(MAX_CONCURRENT, queue.length)` is evaluated again after each spawned worker has already shifted one item off the queue, so `min(5, ceil(n/2))` workers start. | A queue of 2 items starts 1 worker; 4 items start 2; 8 items start 4. | `min(5, n)` workers, with the bound read once before spawning. | not executed | `BlogData.SpawnWorkersAsWritten` (with `BlogData.SpawnedWorkersFallShort`) | `BlogData.PoolSize`, as used by `BlogData.BlogDataStore.FetchAllContents` |
