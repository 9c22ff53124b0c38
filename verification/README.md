# NetSuite proxy: a Dafny model of its decision logic

The system is a small FastAPI service. It sits between Airbyte and the
NetSuite REST API:

- It checks an API key.
- It signs every upstream request with OAuth 1.0a (token-based
  authentication, HMAC-SHA256).
- It retries rate-limited, timed-out and dropped requests with exponential
  back-off.
- It expands record summaries into full records.
- It caches list responses in a TTL cache.
- It turns upstream failures into HTTP errors.

This project models that logic as pure functions over immutable datatypes
and proves what the code promises about it. The model follows the code as
written; where the code is evidently wrong, a corrected definition is proved
alongside it (see "Findings"). It leaves out the network, the clock, the entropy source and the keyed hash:
these become explicit parameters.

Modules follow the program's structure:

| module | models |
|---|---|
| `Results`, `Text`, `Json`, `Dicts` | the Python values and built-ins the code relies on: `Optional`, raised exceptions, `str.lower`, `str(int)`, `in` on strings, `sep.join`, `split`, string ordering, decoded JSON, truthiness, `len`, `+`, `dict.get`, dicts as insertion-ordered pairs |
| `PercentEncoding` | `urllib.parse.quote(s, safe='')`: UTF-8 encoding, then `%XX` escaping of everything outside the unreserved set of section 2.3 of RFC 3986. It also holds the inverse, used to state that encoding loses nothing |
| `OAuth` | `_generate_oauth_signature` and `_get_oauth_headers`: parameter string, base string, signing key, signature and `Authorization` header (sections 3.4 and 3.5.1 of RFC 5849) |
| `RetryLoop` | `_make_request`: one attempt per step, the handler order of the source, the waits of 2^attempt seconds |
| `NetSuite` | the client constructor, `get_records` (with the per-item detail expansion), `execute_suiteql`, `get_record` and `get_sublist` |
| `Cache` | `CacheManager` over `cachetools.TTLCache`. It keeps expiry times against an abstract clock, the insertion (expiry) order, the least-recently-used order, the capacity, and the hit and miss counters |
| `Formatter` | `flatten_netsuite_response`, `transform_for_database`, `clean_record` and `format_response_for_airbyte` |
| `Security` | `verify_api_key`, with the rejection as a value instead of an `HTTPException` |
| `Routes` | the handlers of `main.py` without the web framework: the list endpoint (API key, entity check, cache, fetch, error classification), readiness, the SuiteQL endpoint and cache clearing |

## How the model reads the code

**Parameter ordering.** The code orders the signed parameters with
`sorted(params.items())`, which sorts by the raw key. Section 3.4.1.3.2 of
RFC 5849 sorts by the encoded name. The model signs as the code does:
`OAuth.ParamString` sorts by raw key.

- `OAuth.RawOrderMatchesRfc` shows the two orders agree whenever every key
  is made of unreserved characters. This holds for every key the proxy
  actually signs: `limit`, `offset`, `q`, `fields`, `expandSubresources` and
  the `oauth_*` names.
- `OAuth.RawOrderDiffersFromRfc` exhibits two pairs that the code signs in a
  different order than the standard prescribes.

**Cache entries.** An entry is live while `now < expires`, as
`cachetools` decides. Expired entries stay stored until the next `set`
purges them, and no operation can observe them. So `keys()` and
`get_stats()["size"]` count live entries: that is what `TTLCache`'s
iteration and `len` count. The capacity bound, `Cache.SizeWithinCapacity`,
covers every stored entry, expired ones included.

**Expansion.** `get_records` expands through the loop as written,
`NetSuite.ExpandItemsAsWritten`. Whenever that loop succeeds, its result is
the item-by-item expansion `NetSuite.ExpandItems`, so the lemmas about the
latter describe every successful listing.

**Cache key.** The list handler looks entries up under the key as `main.py`
builds it, `Routes.CacheKeyAsWritten`. The injective key `Routes.CacheKey`
is kept beside it, with its property proved, as the corrected definition.

**SuiteQL URL.** `execute_suiteql` writes limit and offset into the URL
unescaped and signs them as a two-entry dict. The two agree whenever the
texts of limit and offset contain none of `&` and `=` (which would split
them), `#` (which would end the query) and `%` or `+` (which the server
would decode). Every integer satisfies this
(`NetSuite.SuiteqlSignsUrlParams`, `NetSuite.SuiteqlSignsIntParams`).
A text limit holding an `&` puts a pair in the URL that the signature does
not cover (`NetSuite.SuiteqlUrlCarriesUnsignedPair`). This is not listed as a
finding: the route passes the request body's values through, and the code
does not say which types it means to accept.

**Errors.** A raised exception is `Err(message)`. The message is what
`str(e)` would give, because later code inspects it: the retry loop looks
for "connection", and the list endpoint classifies by substrings.

## Model

| member | source | states |
|---|---|---|
| PercentEncoding.Quote | python/app/services/netsuite.py:37 | the encoding holds only unreserved characters and `%XX` triples with upper-case hex digits, so a key or value can never put `&`, `=`, `:` or a space into the parameter string |
| PercentEncoding.QuoteRoundTrip | python/app/services/netsuite.py:37 | percent-decoding and UTF-8 decoding of `quote(s)` give back `s` |
| PercentEncoding.QuoteInjective | python/app/services/netsuite.py:37 | distinct strings have distinct encodings |
| PercentEncoding.QuoteUnreserved | python/app/services/netsuite.py:37 | a string of unreserved characters is left unchanged |
| OAuth.ParamStringRoundTrip | python/app/services/netsuite.py:36-37 | the parameter string decodes back to exactly the key-sorted pairs that were signed |
| OAuth.ParamStringOrderIndependent | python/app/services/netsuite.py:36-37 | the parameter string depends only on the key-to-value view of the parameters, not on insertion order |
| OAuth.ParamStringInjective | python/app/services/netsuite.py:36-37 | equal parameter strings come only from parameters with the same key-to-value view |
| OAuth.RawOrderMatchesRfc | python/app/services/netsuite.py:36-37 | with unreserved keys, raw-key order gives the parameter string section 3.4.1.3.2 of RFC 5849 prescribes |
| OAuth.RawOrderDiffersFromRfc | python/app/services/netsuite.py:36 | for the pairs (z, 1), (é, 2) the signed parameter string differs from the standard's |
| OAuth.BaseStringInjective | python/app/services/netsuite.py:39-43 | the base string determines the URL and the signed parameters, so any change to either changes what is hashed |
| OAuth.SignatureOrderIndependent | python/app/services/netsuite.py:33-57 | the signature depends only on the secrets, the method, the URL and the key-to-value view of the signed parameters |
| OAuth.SigningKeyInjective | python/app/services/netsuite.py:46 | the signing key determines both the consumer secret and the token secret |
| OAuth.OAuthHeaders | python/app/services/netsuite.py:59-89 | the signed parameters are the caller's merged with the six protocol parameters, the protocol values winning on a shared key; Content-Type and Accept are application/json |
| OAuth.AuthorizationHeaderShape | python/app/services/netsuite.py:74-83 | the Authorization header is `OAuth realm="<realm>"` followed by exactly the seven `oauth_*` entries, signature included, in key order with encoded values; the signature is the keyed hash of the base string over the merged parameters |
| OAuth.JsonHeaders | python/app/services/netsuite.py:85-89 | the three headers sent: Authorization, Content-Type and Accept |
| Dicts.SortByKey | python/app/services/netsuite.py:36 | `sorted(params.items())` holds the same pairs, ordered by key |
| Dicts.SortByKeyOrderIndependent | python/app/services/netsuite.py:36 | dicts with the same key-to-value view sort to the same sequence |
| Dicts.Put | python/app/services/netsuite.py:78 | `d[k] = v` maps `k` to `v`, keeps an existing key's position, appends a new key |
| RetryLoop.Handle | python/app/services/netsuite.py:132-140 | the generic handler retries exactly when attempts remain and the lowercased message contains "connection"; otherwise it raises that same message |
| RetryLoop.StepOf | python/app/services/netsuite.py:108-140 | an attempt is retried only when attempts remain |
| RetryLoop.StepRetryIff | python/app/services/netsuite.py:108-140 | an attempt is retried exactly when attempts remain and it saw a 429, a timeout, or an exception whose lowercased text contains "connection" |
| RetryLoop.StepOkIff | python/app/services/netsuite.py:116-123 | an attempt returns a value exactly when the server answered below 400 with a JSON body, and that body is the value |
| RetryLoop.StepErrorCases | python/app/services/netsuite.py:116-140 | an attempt that gives up raises either the timeout message, on the last attempt only, or its own exception when no attempts remain or the text does not mention a connection |
| RetryLoop.Run | python/app/services/netsuite.py:96-140 | every attempt before the last was retried, the last one decided the result, and the wait after attempt a is 2^a |
| RetryLoop.MakeRequest | python/app/services/netsuite.py:91-140 | at most `retries` attempts, one wait fewer than attempts, waits 2, 4, 8 …; with fewer than one attempt the loop never runs and the result is None |
| RetryLoop.TotalWait | python/app/services/netsuite.py:111-138 | the waits add up to 2^attempts - 2 seconds, at most 2^retries - 2 |
| RetryLoop.RateLimitedTwiceThenOk | python/app/services/netsuite.py:109-123 | 429, 429, 200 gives the body after waits [2, 4] and three attempts |
| RetryLoop.RateLimitedThrice | python/app/services/netsuite.py:109-121 | a 429 on the last attempt is raised as an API error embedding the status |
| RetryLoop.AlwaysTimingOut | python/app/services/netsuite.py:125-131 | three timeouts raise "Request timeout after multiple retries" after waits [2, 4] |
| RetryLoop.ServerErrorNotRetried | python/app/services/netsuite.py:116-121 | a 500 whose text does not mention a connection is raised at once, without waiting |
| RetryLoop.ConnectionInErrorTextRetried | python/app/services/netsuite.py:132-138 | an error answer whose body mentions a connection is retried after 2 seconds, like a transport failure |
| NetSuite.NewClient | python/app/services/netsuite.py:17-29 | a client exists exactly when all five credentials are non-empty, else the "Missing required NetSuite credentials" error; its URLs are built from the realm |
| NetSuite.Send | python/app/services/netsuite.py:91-140 | the result is what one of the three attempts decided; a value is the decoded body of an answer below 400 |
| NetSuite.GetRecord | python/app/services/netsuite.py:205-210 | one GET of `<base>/<entity>/<id>` with no signed parameters, through the retry loop with its three attempts; whatever the loop raises is the result |
| NetSuite.QueryParams | python/app/services/netsuite.py:150 | the query parameters are every present, non-None parameter as text, and no other key |
| NetSuite.Expanded | python/app/services/netsuite.py:164-174 | an item is kept or replaced by the detail record fetched for its truthy id, and is replaced whenever that fetch succeeds; a non-object is always kept |
| NetSuite.ExpandItemsAsWritten | python/app/services/netsuite.py:160-175 | the loop as written fails exactly when no record id is bound yet and the next item is not an object, always with `UnboundLocalError`; when it succeeds it gives the item-by-item expansion |
| NetSuite.AsWrittenAgreesIff | python/app/services/netsuite.py:160-175 | starting unbound, the loop gives the item-by-item expansion exactly when the list is empty or starts with an object, and otherwise raises `UnboundLocalError` |
| NetSuite.AsWrittenBareIdFails | python/app/services/netsuite.py:164-174 | with items `["123", {"id": "7"}]` the loop raises, where keeping the failed item would have kept `"123"` |
| NetSuite.ExpandItems | python/app/services/netsuite.py:163-175 | the expanded list has the same length, and each position holds what expanding that one item gives |
| NetSuite.ExpandChangesOnlyFetched | python/app/services/netsuite.py:164-174 | an item changes only when it has a truthy id and its detail fetch succeeded, and it then becomes that fetched record |
| NetSuite.ExpandStage | python/app/services/netsuite.py:158-175 | items are untouched unless expansion is asked for and they are truthy; a list that is empty or led by an object is expanded item by item; the stage fails exactly when expansion applies to truthy items that are not a list led by an object, and a list then fails with `UnboundLocalError` |
| NetSuite.ParamGet | python/app/services/netsuite.py:182-183 | `params.get(k, default)` gives the default for a missing key and the stored value otherwise |
| NetSuite.GetRecords | python/app/services/netsuite.py:142-185 | a failed list request fails the call with the same message; a non-dict answer fails; a success has exactly the envelope keys, the entity, and the caller's offset and limit (defaults 0 and 1000) |
| NetSuite.GetRecordsOnDict | python/app/services/netsuite.py:156-185 | on an upstream dict, the call is the expansion stage's failure, or the envelope around the stage's items with the entity added |
| NetSuite.GetRecordsEnvelope | python/app/services/netsuite.py:158-185 | envelope defaults: count 0, hasMore false, totalResults falls back to count, items [] when absent; items are passed through without expansion, and a successful expansion of a list puts each item's expansion in its place |
| NetSuite.GetRecordsSucceedsIff | python/app/services/netsuite.py:156-175 | on an upstream dict, the call succeeds exactly when expansion is off, or the items are absent or falsy, or they are a list led by an object; a list led by anything else fails with `UnboundLocalError` |
| NetSuite.GetRecordsBareIdFails | python/app/services/netsuite.py:158-175 | a page whose first item is a bare id fails the expanded listing as a whole, and is returned without expansion |
| NetSuite.ExecuteSuiteql | python/app/services/netsuite.py:187-203 | upstream failures propagate; a non-dict answer fails; a dict answer gives the envelope keys, count (default 0), hasMore (default false), its items (default []), totalResults (falling back to count) and the limit and offset exactly as passed |
| NetSuite.SuiteqlSignsUrlParams | python/app/services/netsuite.py:189-190 | when the texts of limit and offset hold none of `&`, `=`, `#`, `%`, `+`, the URL's query string splits at `&` and `=` into exactly the pairs that are signed, with no fragment mark and nothing the server would decode |
| NetSuite.SuiteqlSignsIntParams | python/app/services/netsuite.py:189-190 | integer limit and offset are always safe in that sense, so the URL's pairs are the signed ones, in decimal |
| NetSuite.SuiteqlUrlCarriesUnsignedPair | python/app/services/netsuite.py:189-190 | a text limit holding an `&` puts three pairs in the URL while two are signed |
| NetSuite.SuiteqlSmuggledOffset | python/app/services/netsuite.py:189-190 | a limit of "5&offset=9" sends three pairs and signs two |
| NetSuite.GetSublist | python/app/services/netsuite.py:212-232 | a failed sublist fetch reads as `{"items": []}` |
| NetSuite.SublistIsGuardedRecordFetch | python/app/services/netsuite.py:205-232 | a sublist fetch is the record fetch of `<id>/<sublist>`: the result on success (where `get_record` passes failure on), an empty item list on failure |
| Cache.New | python/app/utils/cache.py:11-21 | a new cache satisfies the invariant, holds nothing live and has both counters at zero |
| Cache.Get | python/app/utils/cache.py:24-35 | exactly one counter goes up: hits when the value returned is not None, misses otherwise; the value is the live entry's or None |
| Cache.Set | python/app/utils/cache.py:40-52 | True exactly when the capacity is non-zero, and then the key maps to the value with expiry now + the constructor's ttl; the counters are unchanged |
| Cache.SetIgnoresTtl | python/app/utils/cache.py:43-47 | the ttl argument makes no difference to the result |
| Cache.SetKeepsOthers | python/app/utils/cache.py:47 | after set, every key other than the one set was live before and holds its old entry: expired entries are gone and nothing new appears |
| Cache.SetKeepsLive | python/app/utils/cache.py:11-19 | re-setting a live key, or setting a key while there is room, evicts nothing that was live |
| Cache.SetLosesAtMostOne | python/app/utils/cache.py:11-19 | set evicts at most one live entry |
| Cache.FullCacheEvictsLeastRecentlyUsed | python/app/utils/cache.py:11-19 | a new key in a full cache with nothing expired evicts the least recently used key, and only that one |
| Cache.MakeRoom | python/app/utils/cache.py:11-19 | a new key in a full cache evicts the least recently used entry and nothing else; otherwise the store is unchanged; afterwards there is room for the key |
| Cache.Put | python/app/utils/cache.py:47 | `cache[key] = value` maps the key to the value with expiry now + ttl, other entries and the counters unchanged |
| Cache.Purge | python/app/utils/cache.py:47 | purging keeps exactly the live entries, unchanged |
| Cache.ExpireWalksAllExpired | python/app/utils/cache.py:47 | the walk over the expiry-ordered keys, which stops at the first live one, passes exactly the expired keys |
| Cache.Delete | python/app/utils/cache.py:54-64 | True exactly when the key was live, and then only that key is removed; otherwise nothing changes |
| Cache.Clear | python/app/utils/cache.py:66-74 | returns True, and the store is empty while the counters are kept |
| Cache.Keys | python/app/utils/cache.py:86-88 | exactly the live keys, each once, in the order they were last set, so expiry times never decrease along the list |
| Cache.PutKeyListedLast | python/app/utils/cache.py:86-88 | a key just set with a positive ttl is the last key `keys()` lists |
| Cache.HitRate | python/app/utils/cache.py:83 | hits / (hits + misses) as an exact real: the rate times the number of lookups is the number of hits, 0 without lookups, always between 0 and 1 |
| Cache.GetStats | python/app/utils/cache.py:76-84 | size counts the live entries; maxsize, hits and misses are reported as kept, with the hit rate |
| Cache.KeysAgreeWithStats | python/app/utils/cache.py:76-88 | `keys()` lists as many keys as `get_stats()` counts |
| Cache.SizeWithinCapacity | python/app/utils/cache.py:11-19 | the live count is at most the stored count, which is at most maxsize |
| Cache.RunKeepsInvariant | python/app/utils/cache.py:20-35 | over any sequence of get, set, delete, clear and clock steps the invariant holds, the entry count stays within maxsize and neither counter decreases |
| Cache.ExpiresAfterTtl | python/app/utils/cache.py:17-19 | a value set now is served until ttl has elapsed and missed from then on |
| Cache.StoredNoneIsMiss | python/app/utils/cache.py:27-35 | a stored None counts as a miss although its key is live |
| Cache.HitRateExample | python/app/utils/cache.py:83 | three hits and two misses give a hit rate of 0.6 |
| Formatter.ItemsOf | python/app/utils/formatter.py:21 | `data.get("items", [])`, failing exactly when the data is not a dict |
| Formatter.Flatten | python/app/utils/formatter.py:10-32 | fails exactly on a non-dict, or with metadata on items without a length; "data" is what `transform_for_database` returns; with metadata also the entity (None when absent) and `count = len(items)` |
| Formatter.TransformForDatabase | python/app/utils/formatter.py:35-49 | the items unchanged, [] when absent |
| Formatter.FlattenCarriesItems | python/app/utils/formatter.py:21-49 | both flattenings carry exactly the items `transform_for_database` returns, and the count is their number |
| Formatter.FlattenWithoutItems | python/app/utils/formatter.py:21-32 | without items the data is [] and the count 0 |
| Formatter.CleanRecord | python/app/utils/formatter.py:52-66 | the keys are the record's minus the excluded ones, with values unchanged |
| Formatter.CleanIdentity | python/app/utils/formatter.py:63-66 | with None or [] the record comes back unchanged |
| Formatter.CleanIdempotent | python/app/utils/formatter.py:66 | cleaning twice with the same fields is cleaning once |
| Formatter.CleanComposes | python/app/utils/formatter.py:66 | cleaning by one list and then another is cleaning by both |
| Formatter.FormatForAirbyte | python/app/utils/formatter.py:69-93 | records are the items; has_more defaults to False; next_offset is set exactly when has_more is truthy, and is then offset + limit (defaults 0 and 1000); count is len(items); on a dict it fails exactly when that sum or len fails |
| Formatter.NextOffsetIsOffsetPlusLimit | python/app/utils/formatter.py:90 | with a list of items, a truthy hasMore and whole-number offset and limit, whatever else the envelope holds, next_offset is offset + limit |
| Formatter.AirbyteDefaults | python/app/utils/formatter.py:80-93 | no hasMore means no next page; hasMore alone steps from offset 0 by limit 1000 |
| Formatter.StringOffsetRejected | python/app/utils/formatter.py:82-90 | a string offset cannot be added to the limit, so the reshaping fails |
| Security.Provided | python/app/utils/security.py:33 | a non-empty header key wins, else the query key |
| Security.VerifyApiKey | python/app/utils/security.py:10-55 | an empty configured key accepts anything with ""; otherwise accepted exactly when the provided key equals the configured one, which is returned; every rejection is 401 Unauthorized, "Missing API key …" exactly when no non-empty key was provided |
| Security.HeaderTakesPrecedence | python/app/utils/security.py:33 | with a non-empty header key the query key is not looked at |
| Security.WrongHeaderNotRescuedByQuery | python/app/utils/security.py:33-53 | a wrong header key is refused as "Invalid API key" even when the query carries the right one |
| Security.EmptyHeaderFallsBack | python/app/utils/security.py:33 | an empty header key counts as absent |
| Routes.BuildQueryParams | python/main.py:193-199 | limit and offset always; q, fields and expandSubresources exactly when given non-empty, with their text; no other key |
| Routes.AddIfGiven | python/main.py:194-199 | a parameter is added exactly when its value is non-empty |
| Routes.QueryParamsReachUpstream | python/main.py:193-203 | the query sent upstream carries limit and offset in decimal, and each optional parameter exactly when it was given non-empty |
| Routes.EnvelopeEchoesPaging | python/main.py:193-203 | the returned envelope echoes the requested offset and limit |
| Routes.AsWrittenKeyIgnoresExpandSubresources | python/main.py:170 | two requests that differ only in expandSubresources share a cache key as written, though they send different parameters |
| Routes.AsWrittenKeyColonCollision | python/main.py:170 | q = "x:y" without fields and q = "x" with fields = "y:" share a cache key as written, though they send different parameters |
| Routes.ExpandSubresourcesServedStale | python/main.py:170-206 | after a successful fetch, a request that only adds expandSubresources is answered from the cache with the first envelope, though it would send different parameters |
| Routes.CacheKey | python/main.py:170 | the corrected key splits back at ':' into its eight parts |
| Routes.KeyParts | python/main.py:170 | the corrected key has eight parts, none containing the ':' separator |
| Routes.CacheKeyDeterminesRequest | python/main.py:170 | with the corrected key, equal keys mean the same entity, the same query parameters and the same expansion choice |
| Routes.Classify | python/main.py:220-258 | on the lowercased message, "401" or "authentication" gives 401; otherwise "404" gives 404 naming the entity; otherwise "429" or "rate limit" gives 429; otherwise 500; details only in development |
| Routes.Failed | python/main.py:220-258 | a failure becomes an HTTP error with the classified status |
| Routes.UpstreamUnauthorizedIs401 | python/main.py:220-229 | an upstream 401 raised by the retry loop always surfaces as a 401 |
| Routes.Tagged | python/main.py:177-181 | the answer is the envelope plus "cached" and "timestamp", every other key kept |
| Routes.HandleGetRecords | python/main.py:140-258 | a rejected key leaves the cache untouched and answers 401; otherwise the entity check and cache step decide; the invariant holds, counters never decrease, and errors are 400, 401, 404, 429 or 500 |
| Routes.Checked | python/main.py:164-167 | an entity shorter than 2 characters is refused with 400 "Invalid entity name", the cache unchanged |
| Routes.Cached | python/main.py:170-181 | the key is the one `main.py` builds; with no_cache the lookup is skipped; a falsy cached value leads to a fetch; a truthy cached dict is served, marked cached |
| Routes.Fetch | python/main.py:183-212 | the fetch leaves the counters and the invariant intact and answers with the timestamp, or an error status |
| Routes.FetchOutcome | python/main.py:183-203 | missing credentials fail the fetch as a classified error; otherwise the answer is `get_records` concluded |
| Routes.Conclude | python/main.py:203-258 | a failure is classified and nothing is stored; a success is stored under the key with expiry now + ttl and returned marked fresh |
| Routes.BadEntityTouchesNothing | python/main.py:166-167 | a bad entity is answered without touching the cache or the network |
| Routes.CacheHitSkipsUpstream | python/main.py:173-181 | a truthy cached value is answered whatever the network would do |
| Routes.ServedFromEntry | python/main.py:174-181 | a live, non-empty dict under the request's key is served as is, marked cached |
| Routes.FirstCallFetches | python/main.py:172-203 | without a usable cached value the answer is the fetch's |
| Routes.StoredAfterFetch | python/main.py:183-212 | with credentials and a successful `get_records`, the fetch concludes with that envelope, which is a dict |
| Routes.FetchThenCached | python/main.py:170-212 | after a successful fetch, the next identical request within the ttl is served the same envelope from the cache, whatever the network does |
| Routes.Readiness | python/main.py:111-128 | ready exactly when a client could be built, i.e. all five credentials are non-empty; otherwise 503 |
| Routes.HandleSuiteql | python/main.py:261-311 | 400 "Query is required" exactly when the body is missing or has no "query"; a success echoes limit and offset with defaults 1000 and 0 and adds the timestamp; other errors are 500 |
| Routes.QueryFailed | python/main.py:302-311 | every SuiteQL failure after the body check is a 500 |
| Routes.SuiteqlIgnoresEntity | python/main.py:263-298 | the path's entity plays no part in a SuiteQL request |
| Routes.HandleClearCache | python/main.py:314-325 | answers with the message "Cache cleared successfully" and the statistics from before, and empties the cache, keeping its counters; a rejected key changes nothing |

## Left out

- HTTP transport, `asyncio.sleep` and `response.json()` are left out. Each request maps to a per-attempt outcome (an answer with status, reason, text and decoded body; a timeout; or an exception with its text), and the waits are recorded instead of slept.
- HMAC-SHA256 followed by base64, `time.time()` and `secrets.token_hex(16)` are left out: they are the `mac`, `timestamp` and `nonce` fields of `OAuth.Signer`. One signer serves every request of a call, so the timestamp and nonce do not vary between the requests of one `get_records` call.
- `urllib.parse.urlencode` for the list query string is left out; it is the parameter `Env.urlencode`. It is not part of the signed data.
- Python's `str()` of a list or dict, used only when such a value is an item id or a SuiteQL limit or offset, is left out; it is the parameter `Env.containerText`.
- JSON floating-point numbers are left out; `Json` has integers only.
- `Text.Lower` and `Text.Upper` map only the ASCII letters; Unicode case mapping is not modelled.
- Logging and the request-logging middleware are left out: they have no effect on results.
- CORS, slowapi rate limiting and routing are left out.
- `/health` and `/health/live` are left out: they report uptime and a timestamp.
- Concurrency is left out: the shared cache is threaded through the handlers as a value, one request at a time.
- FastAPI's request parsing is left out: limit and offset arrive as integers and the SuiteQL body as a dict or nothing; other inputs are rejected by the framework with 422 before the handler runs.
- FastAPI's `{"detail": ...}` wrapping of an `HTTPException` is left out.
- The app-level 404 handler at `python/main.py:329-338` is left out. It replaces the body of every 404, including the "Entity '…' not found in NetSuite" detail, with "The requested endpoint does not exist".
- The generic exception handler at `python/main.py:341-350` is left out.
- The texts of Python's own exceptions (`NoGetMessage`, `NotMapping`, the `len` and `+` errors, the `UnboundLocalError`) follow the CPython 3.11 wording. Only their classification matters downstream.
- `cachetools`' `getsizeof` is left out; it is 1 for every value. Missing credentials are the empty string, which is falsy like None.
- `python/app/config.py` is not part of this model; its settings are the parameter `Routes.Config`.
- Cache.HitRate: computed as an exact real. Python's float rounding of `hits / total` (so that, say, 7/25 times 25 need not give back 7) and the int 0 it returns before any lookup are not modelled.
- Cache.GetStats: does not purge expired entries. This is unobservable, because every read of the model (`Get`, `Keys`, `GetStats`) looks only at live entries.
- `Json` objects are maps, so the key order of the returned envelopes (Python dicts keep insertion order) is not modelled.
- RetryLoop.StepOf: its own contract only says that a retry leaves attempts to spare; its behaviour is stated by `StepRetryIff`, `StepOkIff` and `StepErrorCases`.
- Routes.Fetch: its contract is kept light; the exact relation to `get_records` is `Routes.FetchOutcome`.
- Routes.HandleSuiteql: its contract fixes the status, the echoed paging values and the timestamp. The rest of the envelope is stated by `NetSuite.ExecuteSuiteql`.
- NetSuite.GetRecords: its contract fixes the failures, the key set, the entity and the paging values. The totals and items are stated by `NetSuite.GetRecordsEnvelope`.

## Findings

| source | as written | input that shows it | evidently intended | confidence | as-written member | corrected member |
|---|---|---|---|---|---|---|
| python/app/services/netsuite.py:164-174 | `record_id` is first bound inside the `try` by `item.get("id")`, and the `except` handler's log line reads it | expansion on, items `["123", {"id": "7"}]`: `"123".get` raises, the handler then raises `UnboundLocalError`, and the whole list request fails | an item whose `.get` fails is kept as it is, like an item whose detail fetch fails | high that the code raises; not executed | NetSuite.AsWrittenBareIdFails, NetSuite.GetRecordsBareIdFails, NetSuite.AsWrittenAgreesIff (about NetSuite.ExpandItemsAsWritten, which NetSuite.GetRecords uses) | NetSuite.ExpandChangesOnlyFetched (about NetSuite.ExpandItems, which every successful expansion equals) |
| python/main.py:170 | the cache key joins entity, limit, offset, q, fields and expand with ':' unescaped, and leaves out expandSubresources | q = "x:y" without fields and q = "x" with fields = "y:" both give `netsuite:<entity>:1000:0:x:y::True`; so do two requests differing only in expandSubresources | distinct upstream requests get distinct keys | high; not executed | Routes.AsWrittenKeyColonCollision, Routes.AsWrittenKeyIgnoresExpandSubresources, Routes.ExpandSubresourcesServedStale (about Routes.CacheKeyAsWritten, which Routes.HandleGetRecords uses) | Routes.CacheKeyDeterminesRequest (about Routes.CacheKey) |
