/**
 * The request handlers of `main.py`, minus the web framework: the API key
 * dependency, the entity check, the response cache around `get_records`,
 * the translation of failures into HTTP errors, the readiness probe, the
 * SuiteQL endpoint and the cache-clearing endpoint.
 *
 * Settings are the parameter `Config`; the current time arrives already
 * formatted as `now`; the shared cache is threaded through as a value.
 */
module Routes {
  import opened Results
  import opened Text
  import opened Dicts
  import opened Json
  import opened PercentEncoding
  import opened OAuth
  import opened NetSuite
  import Cache
  import Security

  datatype Config = Config(creds: Credentials, apiKey: string, development: bool)

  /** The API key as sent: the X-API-Key header and the api_key query parameter. */
  datatype Auth = Auth(header: Option<string>, query: Option<string>)

  /** What an endpoint answers: a JSON body, or an `HTTPException` with its status and detail. */
  datatype Response = Success(body: Json) | HttpError(status: int, detail: Json)

  /** The query of `GET /api/netsuite/{entity}`. */
  datatype ListQuery = ListQuery(
    entity: string,
    limit: int,
    offset: int,
    q: Option<string>,
    fields: Option<string>,
    expandSubresources: Option<string>,
    expand: bool)

  /** `x or ''` on an optional string. */
  function OrEmpty(s: Option<string>): string {
    s.GetOr("")
  }

  function Rejected(rej: Security.Rejection): (r: Response)
    ensures r.HttpError? && r.status == rej.status
  {
    HttpError(rej.status, JObj(map["error" := JStr(rej.error), "message" := JStr(rej.message)]))
  }

  // ---------------------------------------------------------------------------
  // Entity check and query parameters
  // ---------------------------------------------------------------------------

  /** `not entity or len(entity) < 2` rejects. */
  predicate EntityValid(entity: string) {
    |entity| >= 2
  }

  const OptionalKeys := {"q", "fields", "expandSubresources"}

  /**
   * `query_params`: limit and offset always, then q, fields and
   * expandSubresources, each only when given and non-empty.
   */
  function BuildQueryParams(a: ListQuery): (r: Dict<Param>)
    ensures KeySet(r) <= {"limit", "offset"} + OptionalKeys
    ensures ("limit", PInt(a.limit)) in r && ("offset", PInt(a.offset)) in r
    ensures ("q" in KeySet(r) <==> OrEmpty(a.q) != "")
            && ("fields" in KeySet(r) <==> OrEmpty(a.fields) != "")
            && ("expandSubresources" in KeySet(r) <==> OrEmpty(a.expandSubresources) != "")
    ensures "q" in KeySet(r) ==> ("q", PStr(OrEmpty(a.q))) in r
    ensures "fields" in KeySet(r) ==> ("fields", PStr(OrEmpty(a.fields))) in r
    ensures "expandSubresources" in KeySet(r) ==> ("expandSubresources", PStr(OrEmpty(a.expandSubresources))) in r
  {
    QueryNamesDistinct();
    NamedPresence("limit", "offset", "q", "fields", "expandSubresources", a);
    NamedPairs("limit", "offset", "q", "fields", "expandSubresources", a);
    NamedQueryParams("limit", "offset", "q", "fields", "expandSubresources", a)
  }

  predicate Distinct5(k0: string, k1: string, k2: string, k3: string, k4: string) {
    k0 != k1 && k0 != k2 && k0 != k3 && k0 != k4 && k1 != k2 && k1 != k3 && k1 != k4
    && k2 != k3 && k2 != k4 && k3 != k4
  }

  lemma QueryNamesDistinct()
    ensures Distinct5("limit", "offset", "q", "fields", "expandSubresources")
  {
  }

  /** `query_params` over any five distinct parameter names. */
  function NamedQueryParams(kl: string, ko: string, kq: string, kf: string, ke: string, a: ListQuery): Dict<Param>
    requires Distinct5(kl, ko, kq, kf, ke)
  {
    var d0: Dict<Param> := [(kl, PInt(a.limit)), (ko, PInt(a.offset))];
    KeySetPair(kl, ko, PInt(a.limit), PInt(a.offset));
    var d1 := AddIfGiven(d0, kq, a.q);
    FreshAfter(d0, kq, a.q, kf);
    FreshAfter(d0, kq, a.q, ke);
    var d2 := AddIfGiven(d1, kf, a.fields);
    FreshAfter(d1, kf, a.fields, ke);
    AddIfGiven(d2, ke, a.expandSubresources)
  }

  lemma FreshAfter(d: Dict<Param>, k: string, v: Option<string>, x: string)
    requires k !in KeySet(d) && x !in KeySet(d) && x != k
    ensures x !in KeySet(AddIfGiven(d, k, v))
  {
  }

  /** `{k}` when the value is given non-empty, else nothing. */
  function IfGiven(k: string, v: Option<string>): set<string> {
    if OrEmpty(v) != "" then {k} else {}
  }

  lemma NamedKeys(kl: string, ko: string, kq: string, kf: string, ke: string, a: ListQuery)
    requires Distinct5(kl, ko, kq, kf, ke)
    ensures KeySet(NamedQueryParams(kl, ko, kq, kf, ke, a))
            == {kl, ko} + IfGiven(kq, a.q) + IfGiven(kf, a.fields) + IfGiven(ke, a.expandSubresources)
  {
    KeySetPair(kl, ko, PInt(a.limit), PInt(a.offset));
  }

  /** The five names' presence, read off the key set. */
  lemma NamedPresence(kl: string, ko: string, kq: string, kf: string, ke: string, a: ListQuery)
    requires Distinct5(kl, ko, kq, kf, ke)
    ensures var ks := KeySet(NamedQueryParams(kl, ko, kq, kf, ke, a));
            && ks <= {kl, ko} + {kq, kf, ke}
            && (kq in ks <==> OrEmpty(a.q) != "")
            && (kf in ks <==> OrEmpty(a.fields) != "")
            && (ke in ks <==> OrEmpty(a.expandSubresources) != "")
  {
    NamedKeys(kl, ko, kq, kf, ke, a);
    GivenPresence(KeySet(NamedQueryParams(kl, ko, kq, kf, ke, a)), kl, ko, kq, kf, ke, a.q, a.fields, a.expandSubresources);
  }

  lemma GivenPresence(ks: set<string>, kl: string, ko: string, kq: string, kf: string, ke: string,
                      q: Option<string>, f: Option<string>, e: Option<string>)
    requires Distinct5(kl, ko, kq, kf, ke)
    requires ks == {kl, ko} + IfGiven(kq, q) + IfGiven(kf, f) + IfGiven(ke, e)
    ensures ks <= {kl, ko} + {kq, kf, ke}
    ensures kq in ks <==> OrEmpty(q) != ""
    ensures kf in ks <==> OrEmpty(f) != ""
    ensures ke in ks <==> OrEmpty(e) != ""
  {
  }

  lemma NamedPairs(kl: string, ko: string, kq: string, kf: string, ke: string, a: ListQuery)
    requires Distinct5(kl, ko, kq, kf, ke)
    ensures var r := NamedQueryParams(kl, ko, kq, kf, ke, a);
            && (kl, PInt(a.limit)) in r && (ko, PInt(a.offset)) in r
            && (OrEmpty(a.q) != "" ==> (kq, PStr(OrEmpty(a.q))) in r)
            && (OrEmpty(a.fields) != "" ==> (kf, PStr(OrEmpty(a.fields))) in r)
            && (OrEmpty(a.expandSubresources) != "" ==> (ke, PStr(OrEmpty(a.expandSubresources))) in r)
  {
  }

  /** `if v: d[k] = v`, for a key not yet in `d`. */
  function AddIfGiven(d: Dict<Param>, k: string, v: Option<string>): (r: Dict<Param>)
    requires k !in KeySet(d)
    ensures KeySet(r) == if OrEmpty(v) != "" then KeySet(d) + {k} else KeySet(d)
    ensures r == if OrEmpty(v) != "" then d + [(k, PStr(OrEmpty(v)))] else d
  {
    if OrEmpty(v) != "" then Put(d, k, PStr(OrEmpty(v))) else d
  }

  /**
   * What reaches NetSuite: the query string carries limit and offset in
   * decimal, and an optional parameter exactly when it was given non-empty,
   * with its text.
   */
  lemma QueryParamsReachUpstream(a: ListQuery)
    ensures var sent := ToMap(QueryParams(BuildQueryParams(a)));
            && "limit" in sent && sent["limit"] == Dec(a.limit)
            && "offset" in sent && sent["offset"] == Dec(a.offset)
            && sent.Keys <= {"limit", "offset"} + OptionalKeys
            && ("q" in sent <==> OrEmpty(a.q) != "")
            && ("fields" in sent <==> OrEmpty(a.fields) != "")
            && ("expandSubresources" in sent <==> OrEmpty(a.expandSubresources) != "")
            && ("q" in sent ==> sent["q"] == OrEmpty(a.q))
  {
    var d := BuildQueryParams(a);
    var sent := ToMap(QueryParams(d));
    assert sent == QueryView(d);
    SentEntry(d, "limit", PInt(a.limit));
    SentEntry(d, "offset", PInt(a.offset));
    if OrEmpty(a.q) != "" {
      SentEntry(d, "q", PStr(OrEmpty(a.q)));
    }
    if OrEmpty(a.fields) != "" {
      SentEntry(d, "fields", PStr(OrEmpty(a.fields)));
    }
    if OrEmpty(a.expandSubresources) != "" {
      SentEntry(d, "expandSubresources", PStr(OrEmpty(a.expandSubresources)));
    }
  }

  /** A present, non-None parameter is sent as its text. */
  lemma SentEntry(d: Dict<Param>, k: string, p: Param)
    requires (k, p) in d && !p.PNone?
    ensures k in QueryView(d) && QueryView(d)[k] == ParamText(p)
  {
    InToMap(d, k, p);
  }

  /** The envelope echoes the requested offset and limit. */
  lemma EnvelopeEchoesPaging(a: ListQuery)
    ensures ParamGet(BuildQueryParams(a), "offset", JInt(0)) == JInt(a.offset)
    ensures ParamGet(BuildQueryParams(a), "limit", JInt(1000)) == JInt(a.limit)
  {
  }

  // ---------------------------------------------------------------------------
  // Cache key
  // ---------------------------------------------------------------------------

  function PyBool(b: bool): string {
    if b then "True" else "False"
  }

  /**
   * The key as `main.py` builds it, and the one the handler below uses: the
   * parts joined by ':' unescaped, expandSubresources left out.
   */
  function CacheKeyAsWritten(a: ListQuery): string {
    "netsuite:" + a.entity + ":" + Dec(a.limit) + ":" + Dec(a.offset) + ":" + OrEmpty(a.q)
      + ":" + OrEmpty(a.fields) + ":" + PyBool(a.expand)
  }

  /** Two list requests that differ only in expandSubresources share a key as written. */
  lemma AsWrittenKeyIgnoresExpandSubresources(a: ListQuery, s: string)
    requires s != "" && a.expandSubresources == Nothing
    ensures CacheKeyAsWritten(a) == CacheKeyAsWritten(a.(expandSubresources := Some(s)))
    ensures BuildQueryParams(a) != BuildQueryParams(a.(expandSubresources := Some(s)))
  {
    assert "expandSubresources" !in KeySet(BuildQueryParams(a));
  }

  /** A ':' inside q moves text into the fields slot of the key as written. */
  lemma AsWrittenKeyColonCollision(a: ListQuery, x: string, y: string)
    requires a.q == Some(x + ":" + y) && a.fields == Nothing && x != ""
    ensures CacheKeyAsWritten(a) == CacheKeyAsWritten(a.(q := Some(x), fields := Some(y + ":")))
    ensures BuildQueryParams(a) != BuildQueryParams(a.(q := Some(x), fields := Some(y + ":")))
  {
    var b := a.(q := Some(x), fields := Some(y + ":"));
    var head := "netsuite:" + a.entity + ":" + Dec(a.limit) + ":" + Dec(a.offset) + ":";
    var tail := PyBool(a.expand);
    assert CacheKeyAsWritten(a) == head + (x + ":" + y) + ":" + "" + ":" + tail;
    assert CacheKeyAsWritten(b) == head + x + ":" + (y + ":") + ":" + tail;
    ColonShift(head, x, y, tail, ":");
    QueryDiffers(a, b);
  }

  lemma ColonShift(h: string, x: string, y: string, t: string, sep: string)
    ensures h + (x + sep + y) + sep + "" + sep + t == h + x + sep + (y + sep) + sep + t
  {
    assert sep + "" == sep;
  }

  lemma QueryDiffers(a: ListQuery, b: ListQuery)
    requires OrEmpty(a.q) != "" && OrEmpty(b.q) != "" && OrEmpty(a.q) != OrEmpty(b.q)
    ensures BuildQueryParams(a) != BuildQueryParams(b)
  {
    if BuildQueryParams(a) == BuildQueryParams(b) {
      LookupPair(BuildQueryParams(a), "q", PStr(OrEmpty(a.q)));
      LookupPair(BuildQueryParams(a), "q", PStr(OrEmpty(b.q)));
    }
  }

  /**
   * The key the code evidently intends: every part that reaches the upstream
   * request, each percent-encoded so that none contains the ':' that
   * separates them.
   */
  function CacheKey(a: ListQuery): (k: string)
    ensures Split(k, ':') == KeyParts(a)
  {
    SplitJoin(KeyParts(a), ':');
    Join(KeyParts(a), ':')
  }

  function KeyParts(a: ListQuery): (parts: seq<string>)
    ensures |parts| == 8 && Separable(parts, ':')
  {
    DecNoColon(a.limit);
    DecNoColon(a.offset);
    ["netsuite", Quote(a.entity), Dec(a.limit), Dec(a.offset), Quote(OrEmpty(a.q)),
     Quote(OrEmpty(a.fields)), Quote(OrEmpty(a.expandSubresources)), PyBool(a.expand)]
  }

  lemma DecNoColon(i: int)
    ensures ':' !in Dec(i)
  {
    var s := Dec(i);
    forall k | 0 <= k < |s| ensures s[k] != ':' {
      assert IsDigit(s[k]) || s[k] == '-';
    }
  }

  /**
   * Equal keys mean the same upstream call: the same entity, the same query
   * parameters and the same expansion choice.
   */
  lemma CacheKeyDeterminesRequest(a: ListQuery, b: ListQuery)
    requires CacheKey(a) == CacheKey(b)
    ensures a.entity == b.entity && a.expand == b.expand
    ensures BuildQueryParams(a) == BuildQueryParams(b)
  {
    JoinInjective(KeyParts(a), KeyParts(b), ':');
    var pa, pb := KeyParts(a), KeyParts(b);
    assert pa[1] == pb[1] && pa[2] == pb[2] && pa[3] == pb[3];
    QuoteInjective(a.entity, b.entity);
    DecInjective(a.limit, b.limit);
    DecInjective(a.offset, b.offset);
    assert pa[4] == pb[4] && pa[5] == pb[5] && pa[6] == pb[6] && pa[7] == pb[7];
    QuoteInjective(OrEmpty(a.q), OrEmpty(b.q));
    QuoteInjective(OrEmpty(a.fields), OrEmpty(b.fields));
    QuoteInjective(OrEmpty(a.expandSubresources), OrEmpty(b.expandSubresources));
  }

  // ---------------------------------------------------------------------------
  // Failures
  // ---------------------------------------------------------------------------

  datatype Failure = Failure(status: int, error: string, message: string, details: Option<string>)

  predicate AuthText(l: string) { Contains(l, "401") || Contains(l, "authentication") }
  predicate RateText(l: string) { Contains(l, "429") || Contains(l, "rate limit") }

  /**
   * The `except Exception` branch of the list endpoint: the lowercased
   * message is tested for authentication, then not-found, then rate-limit
   * words, the first match deciding; anything else is a 500. The raw
   * message is attached only in development.
   */
  function Classify(entity: string, e: string, development: bool): (f: Failure)
    ensures f.status in {401, 404, 429, 500}
    ensures f.status == 401 <==> AuthText(Lower(e))
    ensures f.status == 404 <==> !AuthText(Lower(e)) && Contains(Lower(e), "404")
    ensures f.status == 429 <==> !AuthText(Lower(e)) && !Contains(Lower(e), "404") && RateText(Lower(e))
    ensures f.status == 500 <==> !AuthText(Lower(e)) && !Contains(Lower(e), "404") && !RateText(Lower(e))
    ensures f.status == 404 ==> f.message == "Entity '" + entity + "' not found in NetSuite"
    ensures f.details == if development then Some(e) else Nothing
  {
    var l := Lower(e);
    var details := if development then Some(e) else Nothing;
    if AuthText(l) then
      Failure(401, "Authentication Failed", "NetSuite authentication failed. Check credentials.", details)
    else if Contains(l, "404") then
      Failure(404, "Not Found", "Entity '" + entity + "' not found in NetSuite", details)
    else if RateText(l) then
      Failure(429, "Rate Limit Exceeded", "NetSuite rate limit exceeded. Please try again later.", details)
    else
      Failure(500, "Internal Server Error", "Failed to fetch data from NetSuite", details)
  }

  function FailureJson(f: Failure): Json {
    JObj(map["error" := JStr(f.error), "message" := JStr(f.message),
             "details" := if f.details.Some? then JStr(f.details.value) else JNull])
  }

  function Failed(cfg: Config, entity: string, e: string): (r: Response)
    ensures r.HttpError? && r.status == Classify(entity, e, cfg.development).status
    ensures r.status in {401, 404, 429, 500}
  {
    var f := Classify(entity, e, cfg.development);
    HttpError(f.status, FailureJson(f))
  }

  lemma Dec401()
    ensures Dec(401) == "401"
  {
    assert NatDigits(4) == "4";
    assert NatDigits(40) == "40";
  }

  /** An upstream 401 raised by the request loop always surfaces as a 401. */
  lemma UpstreamUnauthorizedIs401(entity: string, reason: string, text: string, development: bool)
    ensures Classify(entity, RetryLoop.ErrorText(401, reason, text), development).status == 401
  {
    Dec401();
    var prefix := "NetSuite API error (";
    var rest := "): " + reason + ". " + text;
    assert RetryLoop.ErrorText(401, reason, text) == prefix + "401" + rest;
    LowerAppend(prefix, "401");
    LowerAppend(prefix + "401", rest);
    assert Lower("401") == "401";
    assert Contains("401", "401") by { assert "401" <= "401"; }
    ContainsMiddle(Lower(prefix), "401", Lower(rest), "401");
  }

  // ---------------------------------------------------------------------------
  // GET /api/netsuite/{entity}
  // ---------------------------------------------------------------------------

  /** `{**fields, "cached": cached, "timestamp": now}`. */
  function Tagged(fields: map<string, Json>, cached: bool, now: string): (j: Json)
    ensures j.JObj? && "cached" in j.fields && "timestamp" in j.fields
    ensures j.fields["cached"] == JBool(cached) && j.fields["timestamp"] == JStr(now)
    ensures forall k | k in fields && k !in {"cached", "timestamp"} :: k in j.fields && j.fields[k] == fields[k]
    ensures j.fields.Keys == fields.Keys + {"cached", "timestamp"}
  {
    JObj(fields["cached" := JBool(cached)]["timestamp" := JStr(now)])
  }

  /** The message of the `TypeError` from `{**x}` when `x` is not a dict. */
  function NotMapping(j: Json): string {
    "'" + TypeName(j) + "' object is not a mapping"
  }

  /**
   * `get_netsuite_records`: the API key, then the entity check, then the
   * cache unless `no_cache`; a truthy cached value is served as is,
   * otherwise a client is built, `get_records` is called and its result is
   * stored under the key before being returned.
   */
  function HandleGetRecords(cfg: Config, env: Env, c: Cache.Cache, now: string, a: ListQuery,
                            noCache: bool, auth: Auth): (r: (Cache.Cache, Response))
    requires Cache.Valid(c)
    ensures Cache.Valid(r.0)
    ensures r.0.hits >= c.hits && r.0.misses >= c.misses && r.0.now == c.now
    ensures Security.VerifyApiKey(cfg.apiKey, auth.header, auth.query).Err? ==>
              r.0 == c && r.1.HttpError? && r.1.status == 401
    ensures Security.VerifyApiKey(cfg.apiKey, auth.header, auth.query).Ok? ==>
              r == Checked(cfg, env, c, now, a, noCache)
    ensures r.1.HttpError? ==> r.1.status in {400, 401, 404, 429, 500}
  {
    match Security.VerifyApiKey(cfg.apiKey, auth.header, auth.query)
    case Err(rej) => (c, Rejected(rej))
    case Ok(_) => Checked(cfg, env, c, now, a, noCache)
  }

  /** The handler once the key is accepted: a bad entity is refused before the cache is consulted. */
  function Checked(cfg: Config, env: Env, c: Cache.Cache, now: string, a: ListQuery, noCache: bool)
    : (r: (Cache.Cache, Response))
    requires Cache.Valid(c)
    ensures Cache.Valid(r.0)
    ensures r.0.hits >= c.hits && r.0.misses >= c.misses && r.0.now == c.now
    ensures !EntityValid(a.entity) ==> r == (c, HttpError(400, JStr("Invalid entity name")))
    ensures EntityValid(a.entity) ==> r == Cached(cfg, env, c, now, a, noCache)
    ensures r.1.HttpError? ==> r.1.status in {400, 404, 401, 429, 500}
  {
    if !EntityValid(a.entity) then (c, HttpError(400, JStr("Invalid entity name")))
    else Cached(cfg, env, c, now, a, noCache)
  }

  /**
   * The cache step: skipped under `no_cache`; otherwise one lookup, whose
   * truthy value is served (it must be a dict to be spread into the answer).
   */
  function Cached(cfg: Config, env: Env, c: Cache.Cache, now: string, a: ListQuery, noCache: bool)
    : (r: (Cache.Cache, Response))
    requires Cache.Valid(c)
    ensures Cache.Valid(r.0)
    ensures r.0.hits >= c.hits && r.0.misses >= c.misses && r.0.now == c.now
    ensures noCache ==> r == Fetch(cfg, env, c, now, a, CacheKeyAsWritten(a))
    ensures !noCache && !Truthy(Cache.Get(c, CacheKeyAsWritten(a)).1) ==>
              r == Fetch(cfg, env, Cache.Get(c, CacheKeyAsWritten(a)).0, now, a, CacheKeyAsWritten(a))
    ensures !noCache && Cache.Get(c, CacheKeyAsWritten(a)).1.JObj? && Truthy(Cache.Get(c, CacheKeyAsWritten(a)).1) ==>
              r == (Cache.Get(c, CacheKeyAsWritten(a)).0, Success(Tagged(Cache.Get(c, CacheKeyAsWritten(a)).1.fields, true, now)))
    ensures r.1.Success? ==> r.1.body.JObj? && "cached" in r.1.body.fields && "timestamp" in r.1.body.fields
                             && r.1.body.fields["timestamp"] == JStr(now)
    ensures r.1.HttpError? ==> r.1.status in {401, 404, 429, 500}
  {
    var key := CacheKeyAsWritten(a);
    if noCache then Fetch(cfg, env, c, now, a, key)
    else
      var (c1, cached) := Cache.Get(c, key);
      if !Truthy(cached) then Fetch(cfg, env, c1, now, a, key)
      else if cached.JObj? then (c1, Success(Tagged(cached.fields, true, now)))
      else (c1, Failed(cfg, a.entity, NotMapping(cached)))
  }

  /** The fetch half of the handler: a client, then `get_records`. */
  function Fetch(cfg: Config, env: Env, c: Cache.Cache, now: string, a: ListQuery, key: string)
    : (r: (Cache.Cache, Response))
    requires Cache.Valid(c)
    ensures Cache.Valid(r.0) && r.0.hits == c.hits && r.0.misses == c.misses && r.0.now == c.now
    ensures r.1.Success? ==> r.1.body.JObj? && "cached" in r.1.body.fields && "timestamp" in r.1.body.fields
                             && r.1.body.fields["timestamp"] == JStr(now)
    ensures r.1.HttpError? ==> r.1.status in {401, 404, 429, 500}
  {
    match NewClient(cfg.creds)
    case Err(m) => (c, Failed(cfg, a.entity, m))
    case Ok(client) =>
      Conclude(cfg, c, now, a.entity, key, GetRecords(client, env, a.entity, BuildQueryParams(a), a.expand))
  }

  /** Without credentials the fetch fails as a 500; with them, it is `get_records` concluded. */
  lemma FetchOutcome(cfg: Config, env: Env, c: Cache.Cache, now: string, a: ListQuery, key: string)
    requires Cache.Valid(c)
    ensures NewClient(cfg.creds).Err? ==> Fetch(cfg, env, c, now, a, key) == (c, Failed(cfg, a.entity, MissingCredentials))
    ensures NewClient(cfg.creds).Ok? ==>
              Fetch(cfg, env, c, now, a, key)
              == Conclude(cfg, c, now, a.entity, key,
                          GetRecords(NewClient(cfg.creds).value, env, a.entity, BuildQueryParams(a), a.expand))
  {
  }

  /** A failure is classified; a fetched envelope is stored under the key and returned, marked fresh. */
  function Conclude(cfg: Config, c: Cache.Cache, now: string, entity: string, key: string, got: Result<Json, string>)
    : (r: (Cache.Cache, Response))
    requires Cache.Valid(c)
    requires got.Ok? ==> got.value.JObj?
    ensures Cache.Valid(r.0) && r.0.hits == c.hits && r.0.misses == c.misses && r.0.now == c.now
    ensures got.Err? ==> r == (c, Failed(cfg, entity, got.error))
    ensures got.Ok? ==> r.1 == Success(Tagged(got.value.fields, false, now))
    ensures r.1.Success? ==> r.1.body.JObj? && "cached" in r.1.body.fields && "timestamp" in r.1.body.fields
                             && r.1.body.fields["timestamp"] == JStr(now)
    ensures got.Ok? && c.maxsize > 0 ==> key in r.0.store && r.0.store[key] == Cache.Entry(got.value, c.now + c.ttl)
    ensures r.1.HttpError? ==> r.1.status in {401, 404, 429, 500}
  {
    match got
    case Err(m) => (c, Failed(cfg, entity, m))
    case Ok(data) => (Cache.Set(c, key, data, Some(300)).0, Success(Tagged(data.fields, false, now)))
  }

  /** The entity check comes before any cache or upstream access. */
  lemma BadEntityTouchesNothing(cfg: Config, env1: Env, env2: Env, c: Cache.Cache, now: string, a: ListQuery,
                                noCache: bool, auth: Auth)
    requires Cache.Valid(c) && !EntityValid(a.entity)
    ensures HandleGetRecords(cfg, env1, c, now, a, noCache, auth).0 == c
    ensures HandleGetRecords(cfg, env1, c, now, a, noCache, auth) == HandleGetRecords(cfg, env2, c, now, a, noCache, auth)
  {
  }

  /** A cache hit is answered without calling NetSuite: the network does not matter. */
  lemma CacheHitSkipsUpstream(cfg: Config, env1: Env, env2: Env, c: Cache.Cache, now: string, a: ListQuery, auth: Auth)
    requires Cache.Valid(c)
    requires Truthy(Cache.Get(c, CacheKeyAsWritten(a)).1)
    ensures HandleGetRecords(cfg, env1, c, now, a, false, auth) == HandleGetRecords(cfg, env2, c, now, a, false, auth)
  {
  }

  /** A live entry under the request's key is what the handler serves, marked cached. */
  lemma ServedFromEntry(cfg: Config, env: Env, c: Cache.Cache, now: string, a: ListQuery, auth: Auth, data: Json)
    requires Cache.Valid(c)
    requires Security.VerifyApiKey(cfg.apiKey, auth.header, auth.query).Ok? && EntityValid(a.entity)
    requires CacheKeyAsWritten(a) in c.store && c.store[CacheKeyAsWritten(a)].value == data && Cache.Live(c, CacheKeyAsWritten(a))
    requires data.JObj? && |data.fields| > 0
    ensures HandleGetRecords(cfg, env, c, now, a, false, auth).1 == Success(Tagged(data.fields, true, now))
  {
    var key := CacheKeyAsWritten(a);
    var g := Cache.Get(c, key);
    assert g.1 == data && Truthy(data);
    assert HandleGetRecords(cfg, env, c, now, a, false, auth) == (g.0, Success(Tagged(data.fields, true, now)));
  }

  /**
   * A successful fetch is served from the cache by the next identical
   * request, as long as the entry has not expired: the same envelope, now
   * marked cached, whatever the network does the second time.
   */
  lemma FetchThenCached(cfg: Config, env: Env, env2: Env, c: Cache.Cache, now1: string, now2: string,
                        a: ListQuery, noCache: bool, auth: Auth, dt: nat, client: Client, data: Json)
    requires Cache.Valid(c) && c.maxsize > 0 && dt < c.ttl
    requires Security.VerifyApiKey(cfg.apiKey, auth.header, auth.query).Ok? && EntityValid(a.entity)
    requires noCache || !Truthy(Cache.Get(c, CacheKeyAsWritten(a)).1)
    requires NewClient(cfg.creds) == Ok(client)
    requires GetRecords(client, env, a.entity, BuildQueryParams(a), a.expand) == Ok(data)
    ensures HandleGetRecords(cfg, env, c, now1, a, noCache, auth).1 == Success(Tagged(data.fields, false, now1))
    ensures var first := HandleGetRecords(cfg, env, c, now1, a, noCache, auth);
            HandleGetRecords(cfg, env2, Cache.Tick(first.0, dt), now2, a, false, auth).1
            == Success(Tagged(data.fields, true, now2))
  {
    var key := CacheKeyAsWritten(a);
    var mid := if noCache then c else Cache.Get(c, key).0;
    FirstCallConcludes(cfg, env, c, now1, a, noCache, auth, client, data);
    ConcludeThenLive(cfg, mid, now1, a.entity, key, data, dt);
    assert "entity" in data.fields;
    var first := HandleGetRecords(cfg, env, c, now1, a, noCache, auth);
    ServedFromEntry(cfg, env2, Cache.Tick(first.0, dt), now2, a, auth, data);
  }

  /**
   * As written, a request that adds an expandSubresources value to one whose
   * envelope is cached is answered with that envelope, although it would
   * send NetSuite a different query.
   */
  lemma ExpandSubresourcesServedStale(cfg: Config, env: Env, env2: Env, c: Cache.Cache, now1: string, now2: string,
                                      a: ListQuery, s: string, noCache: bool, auth: Auth, dt: nat,
                                      client: Client, data: Json)
    requires Cache.Valid(c) && c.maxsize > 0 && dt < c.ttl
    requires Security.VerifyApiKey(cfg.apiKey, auth.header, auth.query).Ok? && EntityValid(a.entity)
    requires noCache || !Truthy(Cache.Get(c, CacheKeyAsWritten(a)).1)
    requires NewClient(cfg.creds) == Ok(client)
    requires GetRecords(client, env, a.entity, BuildQueryParams(a), a.expand) == Ok(data)
    requires s != "" && a.expandSubresources == Nothing
    ensures BuildQueryParams(a) != BuildQueryParams(a.(expandSubresources := Some(s)))
    ensures var first := HandleGetRecords(cfg, env, c, now1, a, noCache, auth);
            HandleGetRecords(cfg, env2, Cache.Tick(first.0, dt), now2, a.(expandSubresources := Some(s)), false, auth).1
            == Success(Tagged(data.fields, true, now2))
  {
    AsWrittenKeyIgnoresExpandSubresources(a, s);
    var key := CacheKeyAsWritten(a);
    var mid := if noCache then c else Cache.Get(c, key).0;
    FirstCallConcludes(cfg, env, c, now1, a, noCache, auth, client, data);
    ConcludeThenLive(cfg, mid, now1, a.entity, key, data, dt);
    assert "entity" in data.fields;
    var first := HandleGetRecords(cfg, env, c, now1, a, noCache, auth);
    ServedFromEntry(cfg, env2, Cache.Tick(first.0, dt), now2, a.(expandSubresources := Some(s)), auth, data);
  }

  /** A concluded fetch leaves the envelope live under its key until the ttl has passed. */
  lemma ConcludeThenLive(cfg: Config, c: Cache.Cache, now: string, entity: string, key: string, data: Json, dt: nat)
    requires Cache.Valid(c) && c.maxsize > 0 && dt < c.ttl && data.JObj?
    ensures var later := Cache.Tick(Conclude(cfg, c, now, entity, key, Ok(data)).0, dt);
            key in later.store && later.store[key].value == data && Cache.Live(later, key)
  {
  }

  /** A first call that fetches is `get_records` concluded on the cache as the lookup left it. */
  lemma FirstCallConcludes(cfg: Config, env: Env, c: Cache.Cache, now: string, a: ListQuery, noCache: bool,
                           auth: Auth, client: Client, data: Json)
    requires Cache.Valid(c)
    requires Security.VerifyApiKey(cfg.apiKey, auth.header, auth.query).Ok? && EntityValid(a.entity)
    requires noCache || !Truthy(Cache.Get(c, CacheKeyAsWritten(a)).1)
    requires NewClient(cfg.creds) == Ok(client)
    requires GetRecords(client, env, a.entity, BuildQueryParams(a), a.expand) == Ok(data)
    ensures data.JObj?
    ensures HandleGetRecords(cfg, env, c, now, a, noCache, auth)
            == Conclude(cfg, if noCache then c else Cache.Get(c, CacheKeyAsWritten(a)).0, now, a.entity,
                        CacheKeyAsWritten(a), Ok(data))
  {
    var key := CacheKeyAsWritten(a);
    var mid := if noCache then c else Cache.Get(c, key).0;
    FirstCallFetches(cfg, env, c, now, a, noCache, auth);
    StoredAfterFetch(cfg, env, mid, now, a, key, client, data);
  }

  /** With credentials and a successful `get_records`, the fetch concludes with that envelope. */
  lemma StoredAfterFetch(cfg: Config, env: Env, c: Cache.Cache, now: string, a: ListQuery, key: string,
                         client: Client, data: Json)
    requires Cache.Valid(c)
    requires NewClient(cfg.creds) == Ok(client)
    requires GetRecords(client, env, a.entity, BuildQueryParams(a), a.expand) == Ok(data)
    ensures data.JObj?
    ensures Fetch(cfg, env, c, now, a, key) == Conclude(cfg, c, now, a.entity, key, Ok(data))
  {
    FetchOutcome(cfg, env, c, now, a, key);
  }

  /** Without a usable cached value the handler's answer is the fetch's. */
  lemma FirstCallFetches(cfg: Config, env: Env, c: Cache.Cache, now: string, a: ListQuery, noCache: bool, auth: Auth)
    requires Cache.Valid(c)
    requires Security.VerifyApiKey(cfg.apiKey, auth.header, auth.query).Ok? && EntityValid(a.entity)
    requires noCache || !Truthy(Cache.Get(c, CacheKeyAsWritten(a)).1)
    ensures HandleGetRecords(cfg, env, c, now, a, noCache, auth)
            == Fetch(cfg, env, if noCache then c else Cache.Get(c, CacheKeyAsWritten(a)).0, now, a, CacheKeyAsWritten(a))
  {
  }

  // ---------------------------------------------------------------------------
  // Other endpoints
  // ---------------------------------------------------------------------------

  /** `readiness_check`: ready exactly when a client could be built. */
  function Readiness(creds: Credentials): (r: Response)
    ensures r.Success? <==> NewClient(creds).Ok?
    ensures r.HttpError? ==> r.status == 503
  {
    if AllPresent(creds) then Success(JObj(map["status" := JStr("ready")]))
    else HttpError(503, JObj(map["status" := JStr("not ready"), "reason" := JStr("Missing NetSuite credentials")]))
  }

  /**
   * `execute_suiteql_query`: the body must be a non-empty dict with a
   * "query"; limit and offset default to 1000 and 0; every failure after
   * that is a 500. The entity in the path is not used.
   */
  function HandleSuiteql(cfg: Config, env: Env, now: string, entity: string,
                         body: Option<map<string, Json>>, auth: Auth): (r: Response)
    ensures Security.VerifyApiKey(cfg.apiKey, auth.header, auth.query).Err? ==> r.HttpError? && r.status == 401
    ensures Security.VerifyApiKey(cfg.apiKey, auth.header, auth.query).Ok? ==>
              (r == HttpError(400, JStr("Query is required")) <==> body.Nothing? || "query" !in body.value)
    ensures r.Success? ==>
              body.Some? && "query" in body.value && NewClient(cfg.creds).Ok?
              && r.body.JObj? && {"timestamp", "limit", "offset"} <= r.body.fields.Keys
              && r.body.fields["timestamp"] == JStr(now)
              && r.body.fields["limit"] == GetOr(body.value, "limit", JInt(1000))
              && r.body.fields["offset"] == GetOr(body.value, "offset", JInt(0))
    ensures r.HttpError? ==> r.status in {400, 401, 500}
  {
    match Security.VerifyApiKey(cfg.apiKey, auth.header, auth.query)
    case Err(rej) => Rejected(rej)
    case Ok(_) =>
      if body.Nothing? || |body.value| == 0 || "query" !in body.value then HttpError(400, JStr("Query is required"))
      else
        var q := body.value;
        match NewClient(cfg.creds)
        case Err(m) => QueryFailed(cfg, m)
        case Ok(client) =>
          match ExecuteSuiteql(client, env, q["query"], GetOr(q, "limit", JInt(1000)), GetOr(q, "offset", JInt(0)))
          case Err(m) => QueryFailed(cfg, m)
          case Ok(data) => Success(JObj(data.fields["timestamp" := JStr(now)]))
  }

  function QueryFailed(cfg: Config, e: string): (r: Response)
    ensures r.HttpError? && r.status == 500
  {
    HttpError(500, FailureJson(Failure(500, "Internal Server Error", "Failed to execute query",
                                       if cfg.development then Some(e) else Nothing)))
  }

  /** The path's entity plays no part in a SuiteQL request. */
  lemma SuiteqlIgnoresEntity(cfg: Config, env: Env, now: string, e1: string, e2: string,
                             body: Option<map<string, Json>>, auth: Auth)
    ensures HandleSuiteql(cfg, env, now, e1, body, auth) == HandleSuiteql(cfg, env, now, e2, body, auth)
  {
  }

  /** The body `clear_cache` answers with: a fixed message and the statistics from before. */
  datatype Cleared = Cleared(message: string, previousStats: Cache.Stats)

  /** `clear_cache`: the statistics from before, and an empty cache with its counters kept. */
  function HandleClearCache(cfg: Config, c: Cache.Cache, auth: Auth)
    : (r: (Cache.Cache, Result<Cleared, Response>))
    requires Cache.Valid(c)
    ensures Cache.Valid(r.0)
    ensures Security.VerifyApiKey(cfg.apiKey, auth.header, auth.query).Err? ==> r.0 == c && r.1.Err?
    ensures r.1.Ok? ==> r.1.value.message == "Cache cleared successfully"
    ensures r.1.Ok? ==> r.1.value.previousStats == Cache.GetStats(c) && r.0.store == map[]
                        && r.0.hits == c.hits && r.0.misses == c.misses
    ensures Security.VerifyApiKey(cfg.apiKey, auth.header, auth.query).Ok? ==> r.1.Ok?
  {
    match Security.VerifyApiKey(cfg.apiKey, auth.header, auth.query)
    case Err(rej) => (c, Err(Rejected(rej)))
    case Ok(_) =>
      var stats := Cache.GetStats(c);
      (Cache.Clear(c).0, Ok(Cleared("Cache cleared successfully", stats)))
  }
}
