/**
  The document index and content cache store (`useBlogDataStore`): the index load state
  machine, lookup by slug, the slug-to-text content cache filled by single-document
  fetches, the bounded prefetch driver, and the cache utilities.

  The remote providers are parameters: an `IndexResponse` is what the index provider
  answers to the one request of a load, a `ContentResponse` what the content provider
  answers to one document request. Whichever response a real network would give, the
  store reacts as stated here.
 */
module BlogData {
  import opened Wrappers
  import opened Text

  /** Upper bound on the number of prefetch workers (`MAX_CONCURRENT`). */
  const MAX_CONCURRENT: nat := 5

  /** The `link` field as the JSON index delivers it. */
  datatype Link =
    | NoLink                  // null or undefined
    | LinkText(text: string)  // a string
    | LinkOther               // any other JSON value: number, boolean, array, object

  /** One index entry (`BlogItem`); `kind` is its optional `type` field. */
  datatype BlogItem = BlogItem(slug: string, title: string, link: Link, kind: Option<string>)

  // ---------------------------------------------------------------------------
  // The index provider and the index load state machine (`fetchIndex`)

  /** The outcome of `res.json()`. */
  datatype JsonBody = MalformedJson(reason: string) | NonArray | ArrayOf(items: seq<BlogItem>)

  /** What the index provider answers to one request. */
  datatype IndexResponse =
    | IndexTransportError(reason: string)
    | IndexReply(status: int, statusText: string, body: JsonBody)

  /** The error message `fetchIndex` records, by cause. */
  datatype IndexError =
    | IndexRequestFailed(reason: string)
    | IndexBadStatus(status: int, statusText: string)
    | IndexBadJson(reason: string)
    | IndexNotArray

  /** `Response.ok`: the status lies in 200-299. */
  predicate IsOk(status: int) {
    200 <= status <= 299
  }

  /** What the try block of `fetchIndex` produces from one response: the entries or the error. */
  function IndexResult(response: IndexResponse): (r: Result<seq<BlogItem>, IndexError>)
    ensures r.Ok? <==> response.IndexReply? && IsOk(response.status) && response.body.ArrayOf?
    ensures r.Ok? ==> r.value == response.body.items
    ensures response.IndexTransportError? ==> r == Err(IndexRequestFailed(response.reason))
    ensures response.IndexReply? && !IsOk(response.status) ==>
      r == Err(IndexBadStatus(response.status, response.statusText))
    ensures response.IndexReply? && IsOk(response.status) && response.body.MalformedJson? ==>
      r == Err(IndexBadJson(response.body.reason))
    ensures response.IndexReply? && IsOk(response.status) && response.body.NonArray? ==>
      r == Err(IndexNotArray)
  {
    match response
    case IndexTransportError(e) => Err(IndexRequestFailed(e))
    case IndexReply(status, statusText, body) =>
      if !IsOk(status) then Err(IndexBadStatus(status, statusText))
      else match body
        case MalformedJson(e) => Err(IndexBadJson(e))
        case NonArray => Err(IndexNotArray)
        case ArrayOf(items) => Ok(items)
  }

  /** The index part of the store: `list`, `loaded`, `loading`, `error`, and the count of index requests. */
  datatype IndexState = IndexState(
    list: seq<BlogItem>, loaded: bool, loading: bool, error: Option<IndexError>, requests: nat)

  /** The index state after one complete `fetchIndex` call that meets `response` if it asks. */
  function AfterFetchIndex(st: IndexState, response: IndexResponse): (st': IndexState)
    ensures st.loaded || st.loading ==> st' == st
    ensures !(st.loaded || st.loading) ==> !st'.loading && st'.requests == st.requests + 1
    ensures st'.loaded && !st.loaded ==> IndexResult(response).Ok? && st'.list == IndexResult(response).value
    ensures !st'.loaded ==> st'.list == st.list
    ensures !(st.loaded || st.loading) ==> (st'.error.Some? <==> IndexResult(response).Err?)
    ensures !(st.loaded || st.loading) && IndexResult(response).Ok? ==>
      st'.loaded && st'.list == IndexResult(response).value && st'.error == None
    ensures !(st.loaded || st.loading) && IndexResult(response).Err? ==>
      !st'.loaded && st'.list == st.list && st'.error == Some(IndexResult(response).error)
  {
    if st.loaded || st.loading then st
    else match IndexResult(response)
      case Ok(items) => IndexState(items, true, false, None, st.requests + 1)
      case Err(e) => IndexState(st.list, false, false, Some(e), st.requests + 1)
  }

  /** Once loaded, after a successful load, or while a load is in flight, a further call changes nothing and asks nothing. */
  lemma LoadedIndexIsFinal(st: IndexState, first: IndexResponse, second: IndexResponse)
    requires st.loaded || st.loading || IndexResult(first).Ok?
    ensures AfterFetchIndex(AfterFetchIndex(st, first), second) == AfterFetchIndex(st, first)
  {
  }

  /** A failed load leaves only its error behind: the retry behaves as a first attempt would. */
  lemma FailedLoadCanBeRetried(st: IndexState, first: IndexResponse, second: IndexResponse)
    requires !st.loaded && !st.loading
    requires IndexResult(first).Err?
    ensures AfterFetchIndex(AfterFetchIndex(st, first), second)
      == AfterFetchIndex(st, second).(requests := st.requests + 2)
  {
  }

  // ---------------------------------------------------------------------------
  // Lookup (`bySlug`) and the single-document fetch (`fetchContent`)

  /** The position of the first entry with `slug`, or `|list|` when there is none. */
  function FirstSlugIndex(list: seq<BlogItem>, slug: string): (i: nat)
    ensures i <= |list|
    ensures i < |list| ==> list[i].slug == slug
    ensures forall j :: 0 <= j < i ==> list[j].slug != slug
    decreases |list|
  {
    if |list| == 0 then 0
    else if list[0].slug == slug then 0
    else 1 + FirstSlugIndex(list[1..], slug)
  }

  /** Models `bySlug`: `list.find(item => item.slug === slug)`. */
  function BySlug(list: seq<BlogItem>, slug: string): (r: Option<BlogItem>)
    ensures r.None? <==> forall j :: 0 <= j < |list| ==> list[j].slug != slug
    ensures r.Some? ==> r.value.slug == slug && r.value == list[FirstSlugIndex(list, slug)]
  {
    var i := FirstSlugIndex(list, slug);
    if i < |list| then Some(list[i]) else None
  }

  /** Slugs identify entries: no two entries of the list share one. */
  ghost predicate UniqueSlugs(list: seq<BlogItem>) {
    forall i, j :: 0 <= i < j < |list| ==> list[i].slug != list[j].slug
  }

  /** With unique slugs, every entry is what a lookup of its own slug finds. */
  lemma BySlugFindsEntry(list: seq<BlogItem>, k: nat)
    requires UniqueSlugs(list) && k < |list|
    ensures BySlug(list, list[k].slug) == Some(list[k])
  {
    var i := FirstSlugIndex(list, list[k].slug);
    assert i <= k;
  }

  /** With unique slugs, the head's slug occurs nowhere in the tail, and the tail is unique too. */
  lemma UniqueSlugsTail(list: seq<BlogItem>)
    requires list != []
    ensures UniqueSlugs(list) ==> UniqueSlugs(list[1..])
    ensures UniqueSlugs(list) ==> forall x :: x in list[1..] ==> x.slug != list[0].slug
  {
    if UniqueSlugs(list) {
      forall x | x in list[1..] ensures x.slug != list[0].slug {
        var m :| 0 <= m < |list[1..]| && list[1..][m] == x;
        assert list[m + 1] == x;
      }
    }
  }

  /** The cache hit test of `fetchContent` and `hasCached`: JavaScript truthiness of `cache[slug]`. */
  predicate CachedTruthy(cache: map<string, string>, slug: string) {
    slug in cache && cache[slug] != ""
  }

  /** The link test of `fetchContent`: a non-empty string. */
  predicate HasValidLink(item: BlogItem) {
    item.link.LinkText? && item.link.text != ""
  }

  /** Models `link.trim().replace(/ /g, "%20")`: the address actually requested. */
  function NormalizeUrl(link: string): string
  {
    EncodeSpaces(Trim(link))
  }

  /**
    The requested address holds no space, and decoding `%20` gives back the trimmed link
    whenever the link held no literal `%20`.
   */
  lemma NormalizeUrlSpec(link: string)
    ensures ' ' !in NormalizeUrl(link)
    ensures !Contains(Trim(link), "%20") ==> DecodeSpaces(NormalizeUrl(link)) == Trim(link)
  {
    ReplaceCharRemovesIt(Trim(link), ' ', "%20");
    if !Contains(Trim(link), "%20") {
      DecodeEncodeSpaces(Trim(link));
    }
  }

  /** What the content provider answers to one request. */
  datatype Body = BodyText(text: string) | BodyReadError(reason: string)
  datatype ContentResponse =
    | ContentTransportError(reason: string)
    | ContentReply(status: int, statusText: string, body: Body)

  /** The text a response delivers, when its status is ok and its body can be read. */
  function ResponseText(response: ContentResponse): Option<string> {
    if response.ContentReply? && IsOk(response.status) && response.body.BodyText?
    then Some(response.body.text) else None
  }

  /** The errors `fetchContent` throws. */
  datatype NetworkCause = TransportFailure(reason: string) | HttpStatus(status: int, statusText: string)
  datatype FetchError =
    | SlugNotFound(slug: string)
    | InvalidLink(slug: string)
    | NetworkFailed(slug: string, cause: NetworkCause)
    | ContentReadFailed(slug: string, reason: string)

  /** One `fetchContent` call: its result, the cache after it, and the address it requested, if any. */
  datatype Step = Step(result: Result<string, FetchError>, cache: map<string, string>, request: Option<string>)

  /** Models `fetchContent(slug)` on index `list` and cache `cache`, the provider answering `response`. */
  function ContentStep(list: seq<BlogItem>, cache: map<string, string>, slug: string,
                       response: ContentResponse): Step
  {
    if CachedTruthy(cache, slug) then Step(Ok(cache[slug]), cache, None)
    else match BySlug(list, slug)
      case None => Step(Err(SlugNotFound(slug)), cache, None)
      case Some(meta) =>
        if !HasValidLink(meta) then Step(Err(InvalidLink(slug)), cache, None)
        else
          var url := NormalizeUrl(meta.link.text);
          match response
          case ContentTransportError(e) =>
            Step(Err(NetworkFailed(slug, TransportFailure(e))), cache, Some(url))
          case ContentReply(status, statusText, body) =>
            if !IsOk(status) then Step(Err(NetworkFailed(slug, HttpStatus(status, statusText))), cache, Some(url))
            else match body
              case BodyReadError(e) => Step(Err(ContentReadFailed(slug, e)), cache, Some(url))
              case BodyText(md) => Step(Ok(md), cache[slug := md], Some(url))
  }

  /**
    What one `fetchContent` call does. A truthy cached value is returned as it is, with no
    request; an unknown slug or a bad link fails before any request; otherwise exactly one
    request goes to the normalised link of the first entry with that slug, and a failed
    request reports its cause: the transport error, the status, or the unreadable body. Only
    a readable ok response is cached, under `slug` alone; a failure writes nothing.
   */
  lemma ContentStepSpec(list: seq<BlogItem>, cache: map<string, string>, slug: string, response: ContentResponse)
    ensures var s := ContentStep(list, cache, slug, response);
      && (CachedTruthy(cache, slug) ==> s == Step(Ok(cache[slug]), cache, None))
      && (!CachedTruthy(cache, slug) && BySlug(list, slug).None? ==>
            s == Step(Err(SlugNotFound(slug)), cache, None))
      && (!CachedTruthy(cache, slug) && BySlug(list, slug).Some? && !HasValidLink(BySlug(list, slug).value) ==>
            s == Step(Err(InvalidLink(slug)), cache, None))
      && (s.request.Some? <==>
            !CachedTruthy(cache, slug) && BySlug(list, slug).Some? && HasValidLink(BySlug(list, slug).value))
      && (s.request.Some? ==>
            s.request.value == NormalizeUrl(BySlug(list, slug).value.link.text) && ' ' !in s.request.value)
      && (s.request.Some? ==> (s.result.Ok? <==> ResponseText(response).Some?))
      && (s.request.Some? && s.result.Ok? ==> s.result.value == ResponseText(response).value)
      && (s.request.Some? && response.ContentTransportError? ==>
            s.result == Err(NetworkFailed(slug, TransportFailure(response.reason))))
      && (s.request.Some? && response.ContentReply? && !IsOk(response.status) ==>
            s.result == Err(NetworkFailed(slug, HttpStatus(response.status, response.statusText))))
      && (s.request.Some? && response.ContentReply? && IsOk(response.status) && response.body.BodyReadError? ==>
            s.result == Err(ContentReadFailed(slug, response.body.reason)))
      && (s.result.Ok? ==> s.cache == cache[slug := s.result.value])
      && (s.result.Err? ==> s.cache == cache)
  {
    StepCacheEffect(list, cache, slug, response);
    if !CachedTruthy(cache, slug) && BySlug(list, slug).Some? && HasValidLink(BySlug(list, slug).value) {
      StepRequested(list, cache, slug, BySlug(list, slug).value, response);
      NormalizeUrlSpec(BySlug(list, slug).value.link.text);
    }
  }

  /** A fetch writes at most the fetched text under its own slug, and a cache hit writes nothing. */
  lemma StepCacheEffect(list: seq<BlogItem>, cache: map<string, string>, slug: string, response: ContentResponse)
    ensures var s := ContentStep(list, cache, slug, response);
      && (CachedTruthy(cache, slug) ==> s == Step(Ok(cache[slug]), cache, None))
      && (s.result.Ok? ==> s.cache == cache[slug := s.result.value])
      && (s.result.Err? ==> s.cache == cache)
  {
  }

  /** A fetch leaves the entry of another slug, and a truthy entry of its own slug, as they were. */
  lemma StepKeepsEntry(list: seq<BlogItem>, cache: map<string, string>, slug: string, response: ContentResponse,
                       key: string)
    requires key != slug || CachedTruthy(cache, key)
    ensures var s := ContentStep(list, cache, slug, response);
      (key in s.cache <==> key in cache) && (key in cache ==> s.cache[key] == cache[key])
  {
    StepCacheEffect(list, cache, slug, response);
  }

  /**
    A fetch that misses the cache and finds a valid link requests that link, once, and
    fails with the cause the response gives when it brings no text.
   */
  lemma StepRequested(list: seq<BlogItem>, cache: map<string, string>, slug: string, item: BlogItem,
                      response: ContentResponse)
    requires !CachedTruthy(cache, slug) && BySlug(list, slug) == Some(item) && HasValidLink(item)
    ensures var s := ContentStep(list, cache, slug, response);
      && s.request == Some(NormalizeUrl(item.link.text))
      && (s.result.Ok? <==> ResponseText(response).Some?)
      && (s.result.Ok? ==> s.result.value == ResponseText(response).value)
      && (response.ContentTransportError? ==> s.result == Err(NetworkFailed(slug, TransportFailure(response.reason))))
      && (response.ContentReply? && !IsOk(response.status) ==>
            s.result == Err(NetworkFailed(slug, HttpStatus(response.status, response.statusText))))
      && (response.ContentReply? && IsOk(response.status) && response.body.BodyReadError? ==>
            s.result == Err(ContentReadFailed(slug, response.body.reason)))
  {
  }

  /** After a fetch that returned non-empty text, the next fetch of that slug is a cache hit. */
  lemma SecondFetchHitsCache(list: seq<BlogItem>, cache: map<string, string>, slug: string,
                             first: ContentResponse, second: ContentResponse)
    requires ContentStep(list, cache, slug, first).result.Ok?
    requires ContentStep(list, cache, slug, first).result.value != ""
    ensures var s1 := ContentStep(list, cache, slug, first);
      CachedTruthy(s1.cache, slug) && ContentStep(list, s1.cache, slug, second) == Step(s1.result, s1.cache, None)
  {
  }

  /** Cached empty text is falsy: the next fetch of that slug asks the provider again. */
  lemma EmptyContentIsRefetched(list: seq<BlogItem>, cache: map<string, string>, slug: string,
                                first: ContentResponse, second: ContentResponse)
    requires ContentStep(list, cache, slug, first).result == Ok("")
    requires ContentStep(list, cache, slug, first).request.Some?
    ensures var s1 := ContentStep(list, cache, slug, first);
      s1.cache[slug] == "" && ContentStep(list, s1.cache, slug, second).request.Some?
  {
  }

  /** After `clearCache`, fetching a known slug with a valid link asks the provider exactly once. */
  lemma ClearedCacheRefetches(list: seq<BlogItem>, slug: string, response: ContentResponse)
    requires BySlug(list, slug).Some? && HasValidLink(BySlug(list, slug).value)
    ensures OptionToSeq(ContentStep(list, map[], slug, response).request)
      == [NormalizeUrl(BySlug(list, slug).value.link.text)]
  {
  }

  /**
    `hasCached(slug)` holds exactly when `fetchContent(slug)` would succeed without asking the
    provider, whatever the provider would answer.
   */
  lemma CacheHitIffNoRequest(list: seq<BlogItem>, cache: map<string, string>, slug: string,
                             response: ContentResponse)
    ensures var s := ContentStep(list, cache, slug, response);
      CachedTruthy(cache, slug) <==> s.result.Ok? && s.request.None?
  {
  }

  // ---------------------------------------------------------------------------
  // The prefetch driver (`fetchAllContents`)

  /** The queue filter: a string link ending in ".md" and a `type` other than "system". */
  predicate IsPrefetchable(item: BlogItem) {
    item.link.LinkText? && EndsWith(item.link.text, ".md") && item.kind != Some("system")
  }

  /** Thrown by the filter: `item.link?.endsWith` is not a function for a non-string link. */
  datatype PrefetchError = EndsWithNotAFunction(slug: string)

  /** Models `list.filter(item => item.link?.endsWith(".md") && item.type !== "system")`. */
  function PrefetchQueue(list: seq<BlogItem>): (r: Result<seq<BlogItem>, PrefetchError>)
    ensures r.Err? <==> exists i :: 0 <= i < |list| && list[i].link.LinkOther?
    ensures r.Ok? ==> forall x :: x in r.value <==> x in list && IsPrefetchable(x)
    ensures r.Ok? ==> |r.value| <= |list|
    ensures r.Ok? && UniqueSlugs(list) ==> UniqueSlugs(r.value)
    decreases |list|
  {
    if list == [] then Ok([])
    else if list[0].link.LinkOther? then Err(EndsWithNotAFunction(list[0].slug))
    else match PrefetchQueue(list[1..])
      case Err(e) =>
        assert exists i :: 0 <= i < |list[1..]| && list[1..][i].link.LinkOther?;
        Err(e)
      case Ok(rest) =>
        assert forall i :: 0 <= i < |list| - 1 ==> list[1..][i] == list[i + 1];
        UniqueSlugsTail(list);
        if IsPrefetchable(list[0]) then
          assert forall i :: 0 < i < |rest| + 1 ==> ([list[0]] + rest)[i] == rest[i - 1];
          Ok([list[0]] + rest)
        else Ok(rest)
  }

  /** The filter keeps order: filtering a concatenation concatenates the filtered parts. */
  lemma {:induction false} PrefetchQueueAppend(a: seq<BlogItem>, b: seq<BlogItem>)
    requires PrefetchQueue(a).Ok? && PrefetchQueue(b).Ok?
    ensures PrefetchQueue(a + b) == Ok(PrefetchQueue(a).value + PrefetchQueue(b).value)
    decreases |a|
  {
    if a == [] {
      assert a + b == b;
      assert PrefetchQueue(a).value == [];
      assert PrefetchQueue(a).value + PrefetchQueue(b).value == PrefetchQueue(b).value;
    } else {
      assert (a + b)[1..] == a[1..] + b;
      assert (a + b)[0] == a[0];
      assert PrefetchQueue(a[1..]).Ok?;
      PrefetchQueueAppend(a[1..], b);
      var qa, qb := PrefetchQueue(a[1..]).value, PrefetchQueue(b).value;
      assert [a[0]] + (qa + qb) == ([a[0]] + qa) + qb;
    }
  }

  /** The pool size, fixed before any worker starts: at most `MAX_CONCURRENT`, at most one per item. */
  function PoolSize(queued: nat): (w: nat)
    ensures w <= MAX_CONCURRENT && w <= queued
    ensures w == queued || w == MAX_CONCURRENT
  {
    if queued < MAX_CONCURRENT then queued else MAX_CONCURRENT
  }

  /**
    The worker-spawning loop of `fetchAllContents` as written: its bound
    `Math.min(MAX_CONCURRENT, queue.length)` is read again after each new worker has run up
    to its first `await`, by which time that worker has already shifted one item off the
    queue. Returns the number of workers started and the queue they then share.
   */
  method SpawnWorkersAsWritten(queue: seq<BlogItem>) returns (workers: nat, rest: seq<BlogItem>)
    ensures workers == PoolSize((|queue| + 1) / 2)
    ensures rest == queue[workers..]
  {
    workers := 0;
    rest := queue;
    while workers < PoolSize(|rest|)
      invariant workers <= |queue| && rest == queue[workers..]
      invariant workers <= MAX_CONCURRENT && 2 * workers <= |queue| + 1
    {
      rest := rest[1..];  // the new worker's first `queue.shift()`
      workers := workers + 1;
    }
  }

  /** For every queue of 2 to 8 items the loop as written starts fewer workers than intended. */
  lemma SpawnedWorkersFallShort(n: nat)
    requires 2 <= n <= 8
    ensures PoolSize((n + 1) / 2) < PoolSize(n)
  {
    assert (n + 1) / 2 < n && (n + 1) / 2 < MAX_CONCURRENT;
  }

  /** The result of a prefetch run: the pool size and the slugs attempted, in order. */
  datatype Prefetch = Prefetch(workers: nat, attempted: seq<string>)

  function Slugs(items: seq<BlogItem>): (r: seq<string>)
    ensures |r| == |items| && forall i :: 0 <= i < |items| ==> r[i] == items[i].slug
  {
    seq(|items|, i requires 0 <= i < |items| => items[i].slug)
  }

  /** The cache and the addresses requested after a run of fetches over a queue. */
  datatype Progress = Progress(cache: map<string, string>, requests: seq<string>)

  /**
    The queue attempted item by item, in order, each attempt a `fetchContent` whose error is
    swallowed; attempt `k` meets the provider's response `net(k)`.
   */
  function Drain(list: seq<BlogItem>, cache: map<string, string>, queue: seq<BlogItem>,
                 net: nat -> ContentResponse): Progress
    decreases |queue|
  {
    if queue == [] then Progress(cache, [])
    else
      var k := |queue| - 1;
      var before := Drain(list, cache, queue[..k], net);
      var s := ContentStep(list, before.cache, queue[k].slug, net(k));
      Progress(s.cache, before.requests + OptionToSeq(s.request))
  }

  /** Draining one more item of a queue adds that item's fetch to the run so far. */
  lemma DrainExtend(list: seq<BlogItem>, cache: map<string, string>, items: seq<BlogItem>, k: nat,
                    net: nat -> ContentResponse)
    requires k < |items|
    ensures var before := Drain(list, cache, items[..k], net);
      var s := ContentStep(list, before.cache, items[k].slug, net(k));
      Drain(list, cache, items[..k + 1], net) == Progress(s.cache, before.requests + OptionToSeq(s.request))
  {
    var q := items[..k + 1];
    assert q[..k] == items[..k] && q[k] == items[k];
  }

  /** The slugs of one more item of a queue. */
  lemma SlugsExtend(items: seq<BlogItem>, k: nat)
    requires k < |items|
    ensures Slugs(items[..k + 1]) == Slugs(items[..k]) + [items[k].slug]
  {
  }

  /** A prefetch run never changes a cached truthy value. */
  lemma {:induction false} DrainKeepsCachedText(list: seq<BlogItem>, cache: map<string, string>,
                                                queue: seq<BlogItem>, net: nat -> ContentResponse, key: string)
    requires CachedTruthy(cache, key)
    ensures var p := Drain(list, cache, queue, net); key in p.cache && p.cache[key] == cache[key]
    decreases |queue|
  {
    if queue != [] {
      var k := |queue| - 1;
      DrainKeepsCachedText(list, cache, queue[..k], net, key);
      var before := Drain(list, cache, queue[..k], net);
      assert Drain(list, cache, queue, net).cache == ContentStep(list, before.cache, queue[k].slug, net(k)).cache;
      StepKeepsEntry(list, before.cache, queue[k].slug, net(k), key);
    }
  }

  /** A prefetch run leaves the cache entry of every slug it does not attempt as it was. */
  lemma {:induction false} DrainTouchesOnlyQueuedSlugs(list: seq<BlogItem>, cache: map<string, string>,
                                                       queue: seq<BlogItem>, net: nat -> ContentResponse, key: string)
    requires forall i :: 0 <= i < |queue| ==> queue[i].slug != key
    ensures var p := Drain(list, cache, queue, net);
      (key in p.cache <==> key in cache) && (key in cache ==> p.cache[key] == cache[key])
    decreases |queue|
  {
    if queue != [] {
      var k := |queue| - 1;
      forall i | 0 <= i < k ensures queue[..k][i].slug != key {
        assert queue[..k][i] == queue[i];
      }
      DrainTouchesOnlyQueuedSlugs(list, cache, queue[..k], net, key);
      var before := Drain(list, cache, queue[..k], net);
      assert Drain(list, cache, queue, net).cache == ContentStep(list, before.cache, queue[k].slug, net(k)).cache;
      StepKeepsEntry(list, before.cache, queue[k].slug, net(k), key);
    }
  }

  /** The conditions under which every queued item goes to the provider. */
  ghost predicate FreshQueue(list: seq<BlogItem>, cache: map<string, string>, queue: seq<BlogItem>) {
    && UniqueSlugs(queue)
    && (forall i :: 0 <= i < |queue| ==> BySlug(list, queue[i].slug) == Some(queue[i]))
    && (forall i :: 0 <= i < |queue| ==> HasValidLink(queue[i]))
    && (forall i :: 0 <= i < |queue| ==> !CachedTruthy(cache, queue[i].slug))
  }

  lemma FreshQueuePrefix(list: seq<BlogItem>, cache: map<string, string>, queue: seq<BlogItem>, k: nat)
    requires FreshQueue(list, cache, queue) && k <= |queue|
    ensures FreshQueue(list, cache, queue[..k])
  {
  }

  /**
    Under `FreshQueue`, the last queued item is not cached when its turn comes, and reaches
    the provider at its normalised link.
   */
  lemma FreshLastItemIsRequested(list: seq<BlogItem>, cache: map<string, string>,
                                 queue: seq<BlogItem>, net: nat -> ContentResponse)
    requires FreshQueue(list, cache, queue) && queue != []
    ensures var k := |queue| - 1; var before := Drain(list, cache, queue[..k], net);
      && !CachedTruthy(before.cache, queue[k].slug)
      && ContentStep(list, before.cache, queue[k].slug, net(k)).request == Some(NormalizeUrl(queue[k].link.text))
  {
    var k := |queue| - 1;
    var item := queue[k];
    forall i | 0 <= i < k ensures queue[..k][i].slug != item.slug {
      assert queue[..k][i] == queue[i];
    }
    DrainTouchesOnlyQueuedSlugs(list, cache, queue[..k], net, item.slug);
    var before := Drain(list, cache, queue[..k], net);
    assert !CachedTruthy(cache, item.slug);
    assert !CachedTruthy(before.cache, item.slug);
    StepRequested(list, before.cache, item.slug, item, net(k));
  }

  /** The normalised links of a queue of entries with string links, in queue order. */
  function Requested(queue: seq<BlogItem>): (urls: seq<string>)
    requires forall i :: 0 <= i < |queue| ==> queue[i].link.LinkText?
    ensures |urls| == |queue|
    ensures forall i :: 0 <= i < |queue| ==> urls[i] == NormalizeUrl(queue[i].link.text)
    decreases |queue|
  {
    if queue == [] then []
    else
      var k := |queue| - 1;
      assert forall i :: 0 <= i < k ==> queue[..k][i] == queue[i];
      Requested(queue[..k]) + [NormalizeUrl(queue[k].link.text)]
  }

  /** Under `FreshQueue`, the request log of a run is the queue's normalised links. */
  lemma {:induction false} DrainRequestsAreRequested(list: seq<BlogItem>, cache: map<string, string>,
                                                     queue: seq<BlogItem>, net: nat -> ContentResponse)
    requires FreshQueue(list, cache, queue)
    ensures Drain(list, cache, queue, net).requests == Requested(queue)
    decreases |queue|
  {
    if queue != [] {
      var k := |queue| - 1;
      FreshQueuePrefix(list, cache, queue, k);
      DrainRequestsAreRequested(list, cache, queue[..k], net);
      FreshLastItemIsRequested(list, cache, queue, net);
    }
  }

  /**
    With unique slugs that all resolve to the queued entries and none cached, a prefetch run
    requests exactly one address per queued item, in queue order.
   */
  lemma DrainRequestsEachItemOnce(list: seq<BlogItem>, cache: map<string, string>,
                                  queue: seq<BlogItem>, net: nat -> ContentResponse)
    requires FreshQueue(list, cache, queue)
    ensures var p := Drain(list, cache, queue, net);
      && |p.requests| == |queue|
      && forall i :: 0 <= i < |queue| ==> p.requests[i] == NormalizeUrl(queue[i].link.text)
  {
    DrainRequestsAreRequested(list, cache, queue, net);
  }

  /**
    Under the same conditions, after a prefetch run every item whose response delivered text
    is cached with that text, and every item whose fetch failed is left as it was: one
    failure does not keep the other items out of the cache.
   */
  lemma {:induction false} DrainCachesEachSuccess(list: seq<BlogItem>, cache: map<string, string>,
                                                  queue: seq<BlogItem>, net: nat -> ContentResponse, j: nat)
    requires FreshQueue(list, cache, queue) && j < |queue|
    ensures var p := Drain(list, cache, queue, net); var key := queue[j].slug;
      && (ResponseText(net(j)).Some? ==> key in p.cache && p.cache[key] == ResponseText(net(j)).value)
      && (ResponseText(net(j)).None? ==>
            (key in p.cache <==> key in cache) && (key in cache ==> p.cache[key] == cache[key]))
    decreases |queue|
  {
    var k := |queue| - 1;
    FreshQueuePrefix(list, cache, queue, k);
    var before := Drain(list, cache, queue[..k], net);
    var item := queue[k];
    StepCacheEffect(list, before.cache, item.slug, net(k));
    if j == k {
      FreshLastItemIsRequested(list, cache, queue, net);
      forall i | 0 <= i < k ensures queue[..k][i].slug != item.slug {
        assert queue[..k][i] == queue[i];
      }
      DrainTouchesOnlyQueuedSlugs(list, cache, queue[..k], net, item.slug);
      StepRequested(list, before.cache, item.slug, item, net(k));
    } else {
      DrainCachesEachSuccess(list, cache, queue[..k], net, j);
      assert queue[..k][j] == queue[j];
      assert queue[j].slug != item.slug;
    }
  }

  /** The queue built from an index with unique slugs meets the conditions of the two lemmas above. */
  lemma QueueOfUniqueIndexIsFresh(list: seq<BlogItem>, cache: map<string, string>)
    requires UniqueSlugs(list) && PrefetchQueue(list).Ok?
    requires forall x :: x in list && IsPrefetchable(x) ==> !CachedTruthy(cache, x.slug)
    ensures FreshQueue(list, cache, PrefetchQueue(list).value)
  {
    var q := PrefetchQueue(list).value;
    forall i | 0 <= i < |q| ensures BySlug(list, q[i].slug) == Some(q[i]) && HasValidLink(q[i]) {
      assert q[i] in list;
      var k :| 0 <= k < |list| && list[k] == q[i];
      BySlugFindsEntry(list, k);
      assert EndsWith(q[i].link.text, ".md");
    }
  }

  /**
    An index of N entries, M of which pass the filter, all with unique slugs and nothing
    cached: the prefetch run issues exactly M content requests.
   */
  lemma PrefetchRequestsExactlyTheFilteredEntries(list: seq<BlogItem>, net: nat -> ContentResponse)
    requires UniqueSlugs(list) && PrefetchQueue(list).Ok?
    ensures |Drain(list, map[], PrefetchQueue(list).value, net).requests| == |PrefetchQueue(list).value|
  {
    QueueOfUniqueIndexIsFresh(list, map[]);
    DrainRequestsEachItemOnce(list, map[], PrefetchQueue(list).value, net);
  }

  /** An entry the filter drops (a "system" entry, say) is not cached by a prefetch run. */
  lemma SkippedEntryIsNotFetched(list: seq<BlogItem>, cache: map<string, string>,
                                 net: nat -> ContentResponse, k: nat)
    requires UniqueSlugs(list) && PrefetchQueue(list).Ok?
    requires k < |list| && !IsPrefetchable(list[k])
    ensures var p := Drain(list, cache, PrefetchQueue(list).value, net);
      && (list[k].slug in p.cache <==> list[k].slug in cache)
      && (list[k].slug in cache ==> p.cache[list[k].slug] == cache[list[k].slug])
  {
    var q := PrefetchQueue(list).value;
    forall i | 0 <= i < |q| ensures q[i].slug != list[k].slug {
      assert q[i] in list;
      var m :| 0 <= m < |list| && list[m] == q[i];
      assert m != k;
    }
    DrainTouchesOnlyQueuedSlugs(list, cache, q, net, list[k].slug);
  }

  // ---------------------------------------------------------------------------
  // The store

  class BlogDataStore {
    var list: seq<BlogItem>
    var loaded: bool
    var loading: bool
    var error: Option<IndexError>
    var contentCache: map<string, string>
    /** The number of requests sent to the index provider. */
    ghost var indexRequests: nat
    /** The addresses requested from the content provider, in order. */
    ghost var contentRequests: seq<string>

    /**
      A loaded index is never being loaded again. `FinishIndexLoad` relies on it: a load in
      flight was started on a store that was not loaded, so a failure leaves it not loaded.
     */
    ghost predicate Valid()
      reads this
    {
      !(loaded && loading)
    }

    ghost function IndexStateOf(): IndexState
      reads this
    {
      IndexState(list, loaded, loading, error, indexRequests)
    }

    /** The store's initial state. */
    constructor ()
      ensures Valid()
      ensures list == [] && !loaded && !loading && error == None && contentCache == map[]
      ensures indexRequests == 0 && contentRequests == []
    {
      list := [];
      loaded := false;
      loading := false;
      error := None;
      contentCache := map[];
      indexRequests := 0;
      contentRequests := [];
    }

    /** Models `hasCached(slug)`. */
    predicate HasCached(slug: string)
      reads this
    {
      CachedTruthy(contentCache, slug)
    }

    /**
      The part of `fetchIndex` that runs before its first `await`: the guard, the flags, and
      the request to the index provider. Returns whether a load was started.
     */
    method StartIndexLoad() returns (started: bool)
      requires Valid()
      modifies this`loading, this`error, this`indexRequests
      ensures Valid()
      ensures started <==> !old(loaded) && !old(loading)
      ensures started ==> loading && error == None && indexRequests == old(indexRequests) + 1
      ensures !started ==> loading == old(loading) && error == old(error) && indexRequests == old(indexRequests)
    {
      if loaded || loading {
        return false;
      }
      loading := true;
      error := None;
      indexRequests := indexRequests + 1;
      started := true;
    }

    /** The rest of a started `fetchIndex`, run when the provider's response arrives. */
    method FinishIndexLoad(response: IndexResponse)
      requires Valid() && loading
      modifies this`list, this`loaded, this`loading, this`error
      ensures Valid() && !loading
      ensures IndexResult(response).Ok? ==> list == IndexResult(response).value && loaded && error == old(error)
      ensures IndexResult(response).Err? ==>
        list == old(list) && !loaded && error == Some(IndexResult(response).error)
    {
      var outcome := IndexResult(response);
      if outcome.Ok? {
        list := outcome.value;
        loaded := true;
      } else {
        error := Some(outcome.error);
      }
      loading := false;
    }

    /** Models `fetchIndex()` when nothing else runs while it waits for the provider. */
    method FetchIndex(response: IndexResponse)
      requires Valid()
      modifies this`list, this`loaded, this`loading, this`error, this`indexRequests
      ensures Valid()
      ensures IndexStateOf() == AfterFetchIndex(old(IndexStateOf()), response)
    {
      var started := StartIndexLoad();
      if started {
        FinishIndexLoad(response);
      }
    }

    /** Models `fetchContent(slug)`, the provider answering `response` if it is asked. */
    method FetchContent(slug: string, response: ContentResponse) returns (r: Result<string, FetchError>)
      modifies this`contentCache, this`contentRequests
      ensures var s := ContentStep(list, old(contentCache), slug, response);
        && r == s.result && contentCache == s.cache
        && contentRequests == old(contentRequests) + OptionToSeq(s.request)
    {
      if slug in contentCache && contentCache[slug] != "" {
        return Ok(contentCache[slug]);
      }
      var meta := BySlug(list, slug);
      if meta.None? {
        return Err(SlugNotFound(slug));
      }
      if !meta.value.link.LinkText? || meta.value.link.text == "" {
        return Err(InvalidLink(slug));
      }
      var cleanUrl := NormalizeUrl(meta.value.link.text);
      contentRequests := contentRequests + [cleanUrl];
      match response {
        case ContentTransportError(e) =>
          return Err(NetworkFailed(slug, TransportFailure(e)));
        case ContentReply(status, statusText, body) =>
          if !IsOk(status) {
            return Err(NetworkFailed(slug, HttpStatus(status, statusText)));
          }
          match body {
            case BodyReadError(e) =>
              return Err(ContentReadFailed(slug, e));
            case BodyText(md) =>
              contentCache := contentCache[slug := md];
              return Ok(md);
          }
      }
    }

    /**
      Models `fetchAllContents()`: load the index unless loaded, filter it, then let the pool
      drain the queue. Attempt `k` of the run meets the provider's response `net(k)`.
     */
    method FetchAllContents(indexResponse: IndexResponse, net: nat -> ContentResponse)
      returns (r: Result<Prefetch, PrefetchError>)
      requires Valid()
      modifies this
      ensures Valid()
      ensures IndexStateOf() == AfterFetchIndex(old(IndexStateOf()), indexResponse)
      ensures PrefetchQueue(list).Err? ==>
        r == Err(PrefetchQueue(list).error)
        && contentCache == old(contentCache) && contentRequests == old(contentRequests)
      ensures PrefetchQueue(list).Ok? ==>
        var q := PrefetchQueue(list).value;
        var p := Drain(list, old(contentCache), q, net);
        && r == Ok(Prefetch(PoolSize(|q|), Slugs(q)))
        && contentCache == p.cache && contentRequests == old(contentRequests) + p.requests
    {
      if !loaded {
        FetchIndex(indexResponse);
      }
      var filtered := PrefetchQueue(list);
      if filtered.Err? {
        return Err(filtered.error);
      }
      var mdItems := filtered.value;
      if |mdItems| == 0 {
        return Ok(Prefetch(0, []));
      }
      // the pool size, with the bound read once, before any worker takes an item
      var workers := PoolSize(|mdItems|);
      var attempted := DrainQueue(mdItems, net);
      r := Ok(Prefetch(workers, attempted));
    }

    /**
      The pool's work on the shared queue. Each `queue.shift()` runs between awaits, so the
      workers take the items one at a time, in queue order, and attempt each once with
      `fetchContent`, swallowing its error. Returns the slugs attempted.
     */
    method DrainQueue(mdItems: seq<BlogItem>, net: nat -> ContentResponse) returns (attempted: seq<string>)
      modifies this`contentCache, this`contentRequests
      ensures attempted == Slugs(mdItems)
      ensures var p := Drain(list, old(contentCache), mdItems, net);
        contentCache == p.cache && contentRequests == old(contentRequests) + p.requests
    {
      var queue := mdItems;
      attempted := [];
      while |queue| > 0
        invariant |attempted| <= |mdItems| && queue == mdItems[|attempted|..]
        invariant attempted == Slugs(mdItems[..|attempted|])
        invariant contentCache == Drain(list, old(contentCache), mdItems[..|attempted|], net).cache
        invariant contentRequests
          == old(contentRequests) + Drain(list, old(contentCache), mdItems[..|attempted|], net).requests
        decreases |queue|
      {
        var item := queue[0];
        queue := queue[1..];
        var k := |attempted|;
        DrainExtend(list, old(contentCache), mdItems, k, net);
        SlugsExtend(mdItems, k);
        var _ := FetchContent(item.slug, net(k));
        attempted := attempted + [item.slug];
      }
      assert mdItems[..|attempted|] == mdItems;
    }

    /** Models `clearCache()`: every key of the cache is deleted. */
    method ClearCache()
      modifies this`contentCache
      ensures contentCache == map[]
    {
      var keys := contentCache.Keys;
      while keys != {}
        invariant contentCache.Keys == keys
        decreases keys
      {
        var key :| key in keys;
        contentCache := contentCache - {key};
        keys := keys - {key};
      }
      assert contentCache == map[];
    }
  }

  /** `hasCached(slug)` of a store: `fetchContent(slug)` would return the cached text and ask nothing. */
  lemma HasCachedIffNoRequest(store: BlogDataStore, slug: string, response: ContentResponse)
    ensures var s := ContentStep(store.list, store.contentCache, slug, response);
      store.HasCached(slug) <==> s.result.Ok? && s.request.None?
    ensures store.HasCached(slug) ==>
      ContentStep(store.list, store.contentCache, slug, response).result == Ok(store.contentCache[slug])
  {
    CacheHitIffNoRequest(store.list, store.contentCache, slug, response);
    StepCacheEffect(store.list, store.contentCache, slug, response);
  }

  /**
    A `fetchAllContents` started while a load is in flight: its nested `fetchIndex` returns
    at once, and the queue is built from the list as it is, here still empty.
   */
  method PrefetchDuringLoad(items: seq<BlogItem>, net: nat -> ContentResponse)
    returns (during: Result<Prefetch, PrefetchError>, after: seq<BlogItem>)
    ensures during == Ok(Prefetch(0, []))
    ensures after == items
  {
    var store := new BlogDataStore();
    var _ := store.StartIndexLoad();
    during := store.FetchAllContents(IndexReply(200, "OK", ArrayOf(items)), net);
    store.FinishIndexLoad(IndexReply(200, "OK", ArrayOf(items)));
    after := store.list;
  }
}
