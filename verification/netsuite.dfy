/**
 * `NetSuiteClient`: construction, and the four fetch operations built on the
 * signing pipeline (`OAuth`) and the retry loop (`RetryLoop`).
 *
 * Everything outside the process is a field of `Env`: the signer (clock,
 * nonce, keyed hash), `urlencode` for the list query string, Python's `str()`
 * of a JSON array or object, and the network, which maps each request to
 * what each of its attempts observes. Every request goes through the retry
 * loop with the default three attempts.
 */
module NetSuite {
  import opened Results
  import opened Text
  import opened Dicts
  import opened Json
  import opened PercentEncoding
  import opened OAuth
  import opened RetryLoop

  const MissingCredentials := "Missing required NetSuite credentials"
  const Host := ".suitetalk.api.netsuite.com"

  /** The message of the `UnboundLocalError` the expansion loop raises (Python 3.11 wording). */
  const UnboundRecordId := "cannot access local variable 'record_id' where it is not associated with a value"

  datatype Client = Client(creds: Credentials, baseUrl: string, suiteqlUrl: string)

  /**
   * One HTTP request as handed to the transport: the URL it is sent to, the
   * URL and parameters it is signed over (its headers are `HeadersOf` of
   * them), and the JSON body, JNull when none is sent.
   */
  datatype Request = Request(verb: string, url: string, signedUrl: string, signed: Dict<string>, body: Json)

  datatype Env = Env(
    signer: Signer,
    urlencode: Dict<string> -> string,          // urllib.parse.urlencode
    containerText: Json -> string,              // str() of a list or dict
    transport: Request -> (nat -> Outcome))     // the network, per request and attempt

  /** A value of the `params` dict passed to `get_records`. */
  datatype Param = PNone | PInt(i: int) | PStr(s: string)

  // ---------------------------------------------------------------------------
  // Construction
  // ---------------------------------------------------------------------------

  predicate AllPresent(creds: Credentials) {
    |creds.realm| > 0 && |creds.consumerKey| > 0 && |creds.consumerSecret| > 0
    && |creds.tokenKey| > 0 && |creds.tokenSecret| > 0
  }

  /** `NetSuiteClient(realm, consumer_key, consumer_secret, token_key, token_secret)`. */
  function NewClient(creds: Credentials): (r: Result<Client, string>)
    ensures r.Ok? <==> AllPresent(creds)
    ensures r.Err? ==> r.error == MissingCredentials
    ensures r.Ok? ==> r.value.creds == creds
    ensures r.Ok? ==> r.value.baseUrl == "https://" + creds.realm + Host + "/services/rest/record/v1"
    ensures r.Ok? ==> r.value.suiteqlUrl == "https://" + creds.realm + Host + "/services/rest/query/v1/suiteql"
  {
    if !AllPresent(creds) then Err(MissingCredentials)
    else
      var host := "https://" + creds.realm + Host;
      Ok(Client(creds, host + "/services/rest/record/v1", host + "/services/rest/query/v1/suiteql"))
  }

  // ---------------------------------------------------------------------------
  // Requests
  // ---------------------------------------------------------------------------

  /** Sends a request through `_make_request` with its default three attempts. */
  function Send(env: Env, req: Request): (r: Result<Json, string>)
    ensures exists a | 1 <= a <= 3 :: StepOf(env.transport(req)(a), a, 3) == Done(r)
    ensures r.Ok? ==> exists a | 1 <= a <= 3 :: env.transport(req)(a).Responded?
                        && env.transport(req)(a).response.status < 400
                        && env.transport(req)(a).response.body == r
  {
    var run := MakeRequest(env.transport(req), 3);
    assert StepOf(env.transport(req)(run.attempts), run.attempts, 3) == Done(run.result);
    StepOkIff(env.transport(req)(run.attempts), run.attempts, 3, if run.result.Ok? then run.result.value else JNull);
    run.result
  }

  /** The headers `_get_oauth_headers` builds for a request. */
  function HeadersOf(client: Client, env: Env, req: Request): Dict<string> {
    OAuthHeaders(client.creds, env.signer, req.verb, req.signedUrl, req.signed).headers
  }

  /** Python's `str(x)` on a decoded JSON value. */
  function Str(env: Env, j: Json): string {
    match j
    case JNull => "None"
    case JBool(b) => if b then "True" else "False"
    case JInt(i) => Dec(i)
    case JStr(s) => s
    case _ => env.containerText(j)
  }

  function RecordRequest(client: Client, env: Env, entity: string, recordId: string): Request {
    var url := client.baseUrl + "/" + entity + "/" + recordId;
    Request("GET", url, url, [], JNull)
  }

  /** `get_record(entity, record_id)`: one signed GET; whatever the retry loop raises propagates. */
  function GetRecord(client: Client, env: Env, entity: string, recordId: string): (r: Result<Json, string>)
    ensures var url := client.baseUrl + "/" + entity + "/" + recordId;
            r == Send(env, Request("GET", url, url, [], JNull))
  {
    Send(env, RecordRequest(client, env, entity, recordId))
  }

  const EmptyItems := JObj(map["items" := JArr([])])

  /** `get_sublist(entity, record_id, sublist_name)`: never raises; a failed fetch reads as no items. */
  function GetSublist(client: Client, env: Env, entity: string, recordId: string, sublist: string): (r: Json)
    ensures Send(env, RecordRequest(client, env, entity, recordId + "/" + sublist)).Err? ==> r == EmptyItems
  {
    var url := client.baseUrl + "/" + entity + "/" + recordId + "/" + sublist;
    assert Request("GET", url, url, [], JNull) == RecordRequest(client, env, entity, recordId + "/" + sublist);
    match Send(env, Request("GET", url, url, [], JNull))
    case Ok(v) => v
    case Err(_) => EmptyItems
  }

  /**
   * A sublist fetch is the record fetch of the nested path `<id>/<sublist>`,
   * with its result kept on success and replaced by an empty item list on
   * failure, where `get_record` would have raised.
   */
  lemma SublistIsGuardedRecordFetch(client: Client, env: Env, entity: string, recordId: string, sublist: string)
    ensures GetSublist(client, env, entity, recordId, sublist) ==
            match GetRecord(client, env, entity, recordId + "/" + sublist)
            case Ok(v) => v
            case Err(_) => EmptyItems
  {
    assert client.baseUrl + "/" + entity + "/" + recordId + "/" + sublist
        == client.baseUrl + "/" + entity + "/" + (recordId + "/" + sublist);
  }

  // ---------------------------------------------------------------------------
  // get_records
  // ---------------------------------------------------------------------------

  function ParamText(p: Param): string
    requires !p.PNone?
  {
    if p.PInt? then Dec(p.i) else p.s
  }

  function ParamJson(p: Param): Json {
    match p
    case PNone => JNull
    case PInt(i) => JInt(i)
    case PStr(s) => JStr(s)
  }

  /** The view `query_params` should have: every present, non-None parameter, as text. */
  ghost function QueryView(params: Dict<Param>): map<string, string> {
    ParamView(ToMap(params))
  }

  ghost function ParamView(m: map<string, Param>): map<string, string> {
    map k | k in m && !m[k].PNone? :: ParamText(m[k])
  }

  /** Adding a fresh parameter adds its text to the view, unless it is None. */
  lemma ParamViewUpdate(t: map<string, Param>, k: string, v: Param)
    requires k !in t
    ensures ParamView(t[k := v]) == if v.PNone? then ParamView(t) else ParamView(t)[k := ParamText(v)]
  {
    if v.PNone? {
      assert ParamView(t[k := v]).Keys == ParamView(t).Keys;
    } else {
      assert ParamView(t[k := v]).Keys == ParamView(t).Keys + {k};
    }
  }

  /** `{k: str(v) for k, v in params.items() if v is not None}`, in the original order. */
  function QueryParams(params: Dict<Param>): (r: Dict<string>)
    ensures ToMap(r) == QueryView(params)
    ensures KeySet(r) <= KeySet(params)
    decreases |params|
  {
    if |params| == 0 then []
    else
      var tail: Dict<Param> := params[1..];
      var rest := QueryParams(tail);
      KeySetCons(params);
      HeadFresh(params);
      QueryViewCons(params);
      if params[0].1.PNone? then rest
      else Cons((params[0].0, ParamText(params[0].1)), rest)
  }

  lemma QueryViewCons(params: Dict<Param>)
    requires |params| > 0
    ensures QueryView(params) ==
            if params[0].1.PNone? then QueryView(params[1..])
            else QueryView(params[1..])[params[0].0 := ParamText(params[0].1)]
  {
    var tail: Dict<Param> := params[1..];
    HeadFresh(params);
    assert ToMap(params) == ToMap(tail)[params[0].0 := params[0].1];
    ParamViewUpdate(ToMap(tail), params[0].0, params[0].1);
  }

  /** The list request: signed over the base URL and the query parameters, which travel in the query string. */
  function ListRequest(client: Client, env: Env, entity: string, qp: Dict<string>): Request {
    var url := client.baseUrl + "/" + entity;
    Request("GET", if |qp| > 0 then url + "?" + env.urlencode(qp) else url, url, qp, JNull)
  }

  /** The identifier text of a record summary, if it has a truthy `id`. */
  function SummaryId(env: Env, item: Json): Option<string> {
    if item.JObj? && Truthy(GetOr(item.fields, "id", JNull)) then Some(Str(env, GetOr(item.fields, "id", JNull)))
    else Nothing
  }

  /** What the expansion should put in place of one summary: its detail record when that fetch succeeds. */
  function Expanded(client: Client, env: Env, entity: string, item: Json): (r: Json)
    ensures r == item || (SummaryId(env, item).Some? && GetRecord(client, env, entity, SummaryId(env, item).value) == Ok(r))
    ensures SummaryId(env, item).Some? && GetRecord(client, env, entity, SummaryId(env, item).value).Ok? ==>
              r == GetRecord(client, env, entity, SummaryId(env, item).value).value
    ensures !item.JObj? ==> r == item
  {
    match SummaryId(env, item)
    case Nothing => item
    case Some(id) =>
      match GetRecord(client, env, entity, id)
      case Ok(full) => full
      case Err(_) => item
  }

  /**
   * The expansion loop with the fallback applied uniformly: every item is
   * kept unless it is a summary with an id whose detail fetch succeeds.
   */
  function ExpandItems(client: Client, env: Env, entity: string, items: seq<Json>): (r: seq<Json>)
    ensures |r| == |items|
    ensures forall i | 0 <= i < |items| :: r[i] == Expanded(client, env, entity, items[i])
    decreases |items|
  {
    if |items| == 0 then []
    else [Expanded(client, env, entity, items[0])] + ExpandItems(client, env, entity, items[1..])
  }

  /** An item changes only when it has an id and its detail fetch succeeded, and then it becomes that record. */
  lemma ExpandChangesOnlyFetched(client: Client, env: Env, entity: string, items: seq<Json>, i: nat)
    requires i < |items|
    requires ExpandItems(client, env, entity, items)[i] != items[i]
    ensures SummaryId(env, items[i]).Some?
    ensures GetRecord(client, env, entity, SummaryId(env, items[i]).value)
            == Ok(ExpandItems(client, env, entity, items)[i])
  {
  }

  /**
   * The expansion loop as written: `record_id` is first bound by `item.get("id")`,
   * so an item without `.get` that comes before every object makes the
   * `except` handler's log line raise `UnboundLocalError`.
   */
  function ExpandItemsAsWritten(client: Client, env: Env, entity: string, items: seq<Json>, bound: bool)
    : (r: Result<seq<Json>, string>)
    ensures r.Ok? ==> r.value == ExpandItems(client, env, entity, items)
    ensures r.Err? ==> r.error == UnboundRecordId
    ensures r.Err? <==> !bound && |items| > 0 && !items[0].JObj?
    decreases |items|
  {
    if |items| == 0 then Ok([])
    else if !items[0].JObj? && !bound then Err(UnboundRecordId)
    else
      match ExpandItemsAsWritten(client, env, entity, items[1..], bound || items[0].JObj?)
      case Err(m) => Err(m)
      case Ok(rest) => Ok([Expanded(client, env, entity, items[0])] + rest)
  }

  lemma {:induction false} AsWrittenOnceBound(client: Client, env: Env, entity: string, items: seq<Json>)
    ensures ExpandItemsAsWritten(client, env, entity, items, true) == Ok(ExpandItems(client, env, entity, items))
    decreases |items|
  {
    if |items| > 0 {
      AsWrittenOnceBound(client, env, entity, items[1..]);
    }
  }

  /**
   * The code as written agrees with the uniform fallback exactly when the
   * list is empty or starts with an object; otherwise it raises.
   */
  lemma AsWrittenAgreesIff(client: Client, env: Env, entity: string, items: seq<Json>)
    ensures ExpandItemsAsWritten(client, env, entity, items, false) == Ok(ExpandItems(client, env, entity, items))
            <==> |items| == 0 || items[0].JObj?
    ensures !(|items| == 0 || items[0].JObj?) ==>
            ExpandItemsAsWritten(client, env, entity, items, false) == Err(UnboundRecordId)
  {
    if |items| > 0 && items[0].JObj? {
      AsWrittenOnceBound(client, env, entity, items[1..]);
    }
  }

  /** A list whose first item is a bare id string makes the whole fetch fail instead of keeping the item. */
  lemma AsWrittenBareIdFails(client: Client, env: Env, entity: string)
    ensures ExpandItemsAsWritten(client, env, entity, [JStr("123"), JObj(map["id" := JStr("7")])], false)
            == Err(UnboundRecordId)
    ensures ExpandItems(client, env, entity, [JStr("123"), JObj(map["id" := JStr("7")])])[0] == JStr("123")
  {
  }

  /**
   * The `items` of the envelope. Expansion runs only when asked for and the
   * items are truthy; `len(items)` is taken first (for the log line), so a
   * number raises there, and a string or object, iterated as text, raises
   * the `UnboundLocalError` of the loop. A list goes through the loop as
   * written, so it fails when its first item is not an object.
   */
  function ExpandStage(client: Client, env: Env, entity: string, items: Json, expand: bool): (r: Result<Json, string>)
    ensures !(expand && Truthy(items)) ==> r == Ok(items)
    ensures expand && items.JArr? && (|items.elems| == 0 || items.elems[0].JObj?) ==>
              r == Ok(JArr(ExpandItems(client, env, entity, items.elems)))
    ensures r.Err? <==> expand && Truthy(items) && !(items.JArr? && items.elems[0].JObj?)
    ensures r.Err? && items.JArr? ==> r.error == UnboundRecordId
  {
    if !(expand && Truthy(items)) then Ok(items)
    else
      match Len(items)
      case Err(m) => Err(m)
      case Ok(_) =>
        if items.JArr? then
          AsWrittenAgreesIff(client, env, entity, items.elems);
          match ExpandItemsAsWritten(client, env, entity, items.elems, false)
          case Err(m) => Err(m)
          case Ok(xs) => Ok(JArr(xs))
        else Err(UnboundRecordId)
  }

  /** `params.get(k, default)` on the caller's parameters, as JSON. */
  function ParamGet(params: Dict<Param>, k: string, default: Json): (r: Json)
    ensures k !in KeySet(params) ==> r == default
    ensures forall p :: (k, p) in params ==> r == ParamJson(p)
  {
    match Lookup(params, k)
    case Nothing => default
    case Some(p) =>
      forall q | (k, q) in params ensures q == p {
        LookupPair(params, k, q);
      }
      ParamJson(p)
  }

  const PageKeys := {"count", "hasMore", "items", "offset", "limit", "totalResults"}

  /**
   * The envelope both list operations return: the upstream totals with their
   * defaults, then the items and the paging values.
   */
  function Page(m: map<string, Json>, items: Json, offset: Json, limit: Json): (e: map<string, Json>)
    ensures e.Keys == PageKeys
    ensures e["count"] == GetOr(m, "count", JInt(0))
    ensures e["hasMore"] == GetOr(m, "hasMore", JBool(false))
    ensures e["totalResults"] == GetOr(m, "totalResults", e["count"])
    ensures e["items"] == items && e["offset"] == offset && e["limit"] == limit
  {
    map["count" := GetOr(m, "count", JInt(0)),
        "hasMore" := GetOr(m, "hasMore", JBool(false)),
        "items" := items,
        "offset" := offset,
        "limit" := limit,
        "totalResults" := GetOr(m, "totalResults", GetOr(m, "count", JInt(0)))]
  }

  /** `get_records(entity, params, expand_details)`. */
  function GetRecords(client: Client, env: Env, entity: string, params: Dict<Param>, expand: bool)
    : (r: Result<Json, string>)
    ensures var sent := Send(env, ListRequest(client, env, entity, QueryParams(params)));
            (sent.Err? ==> r == sent)
            && (sent.Ok? && !sent.value.JObj? ==> r == Err(NoGetMessage(sent.value)))
    ensures r.Ok? ==> r.value.JObj?
                      && r.value.fields.Keys == PageKeys + {"entity"}
                      && r.value.fields["entity"] == JStr(entity)
                      && r.value.fields["offset"] == ParamGet(params, "offset", JInt(0))
                      && r.value.fields["limit"] == ParamGet(params, "limit", JInt(1000))
  {
    match Send(env, ListRequest(client, env, entity, QueryParams(params)))
    case Err(m) => Err(m)
    case Ok(data) =>
      if !data.JObj? then Err(NoGetMessage(data))
      else
        match ExpandStage(client, env, entity, GetOr(data.fields, "items", JArr([])), expand)
        case Err(m) => Err(m)
        case Ok(items) =>
          var page := Page(data.fields, items, ParamGet(params, "offset", JInt(0)), ParamGet(params, "limit", JInt(1000)));
          Ok(JObj(page["entity" := JStr(entity)]))
  }

  /**
   * On an upstream dict, the envelope reports the upstream totals with their
   * defaults (count 0, hasMore false, totalResults falling back to count),
   * and the items unchanged unless expansion applies, in which case each
   * item of a list is expanded in place.
   */
  lemma GetRecordsEnvelope(client: Client, env: Env, entity: string, params: Dict<Param>, expand: bool,
                           m: map<string, Json>)
    requires Send(env, ListRequest(client, env, entity, QueryParams(params))) == Ok(JObj(m))
    requires GetRecords(client, env, entity, params, expand).Ok?
    ensures var e := GetRecords(client, env, entity, params, expand).value.fields;
            && e["count"] == (if "count" in m then m["count"] else JInt(0))
            && e["hasMore"] == (if "hasMore" in m then m["hasMore"] else JBool(false))
            && e["totalResults"] == (if "totalResults" in m then m["totalResults"] else e["count"])
            && ("items" !in m ==> e["items"] == JArr([]))
            && (!expand ==> e["items"] == GetOr(m, "items", JArr([])))
            && (expand && "items" in m && m["items"].JArr? ==>
                  e["items"] == JArr(ExpandItems(client, env, entity, m["items"].elems)))
  {
    var stage := ExpandStage(client, env, entity, GetOr(m, "items", JArr([])), expand);
    GetRecordsOnDict(client, env, entity, params, expand, m);
    assert stage.Ok?;
    var page := Page(m, stage.value, ParamGet(params, "offset", JInt(0)), ParamGet(params, "limit", JInt(1000)));
    assert GetRecords(client, env, entity, params, expand).value.fields == page["entity" := JStr(entity)];
    if expand && "items" in m && m["items"].JArr? {
      var xs := m["items"].elems;
      if |xs| > 0 {
        assert Truthy(m["items"]);
        assert xs[0].JObj?;
      }
      assert stage == Ok(JArr(ExpandItems(client, env, entity, xs)));
    }
  }

  /** On an upstream dict, the call is the expansion stage followed by the envelope. */
  lemma GetRecordsOnDict(client: Client, env: Env, entity: string, params: Dict<Param>, expand: bool,
                         m: map<string, Json>)
    requires Send(env, ListRequest(client, env, entity, QueryParams(params))) == Ok(JObj(m))
    ensures var stage := ExpandStage(client, env, entity, GetOr(m, "items", JArr([])), expand);
            GetRecords(client, env, entity, params, expand)
            == if stage.Err? then Err(stage.error)
               else Ok(JObj(Page(m, stage.value, ParamGet(params, "offset", JInt(0)),
                                 ParamGet(params, "limit", JInt(1000)))["entity" := JStr(entity)]))
  {
  }

  /**
   * On an upstream dict, the call fails exactly when expansion is asked for
   * and the items are truthy but not a list led by an object; a list led by
   * anything else fails with the `UnboundLocalError` of the loop.
   */
  lemma GetRecordsSucceedsIff(client: Client, env: Env, entity: string, params: Dict<Param>, expand: bool,
                              m: map<string, Json>)
    requires Send(env, ListRequest(client, env, entity, QueryParams(params))) == Ok(JObj(m))
    ensures GetRecords(client, env, entity, params, expand).Ok?
            <==> !expand || "items" !in m || !Truthy(m["items"]) || (m["items"].JArr? && m["items"].elems[0].JObj?)
    ensures expand && "items" in m && m["items"].JArr? && GetRecords(client, env, entity, params, expand).Err? ==>
              GetRecords(client, env, entity, params, expand).error == UnboundRecordId
  {
  }

  /** A page whose first item is a bare id makes the expanded listing fail as a whole. */
  lemma GetRecordsBareIdFails(client: Client, env: Env, entity: string, params: Dict<Param>)
    requires Send(env, ListRequest(client, env, entity, QueryParams(params)))
             == Ok(JObj(map["items" := JArr([JStr("123"), JObj(map["id" := JStr("7")])])]))
    ensures GetRecords(client, env, entity, params, true) == Err(UnboundRecordId)
    ensures GetRecords(client, env, entity, params, false).Ok?
  {
    var items := JArr([JStr("123"), JObj(map["id" := JStr("7")])]);
    assert Truthy(items) && !items.elems[0].JObj?;
  }

  // ---------------------------------------------------------------------------
  // execute_suiteql
  // ---------------------------------------------------------------------------

  function SuiteqlRequest(client: Client, env: Env, query: Json, limit: Json, offset: Json): Request {
    var l := Str(env, limit);
    var o := Str(env, offset);
    var signed: Dict<string> := [("limit", l), ("offset", o)];
    Request("POST", client.suiteqlUrl + "?limit=" + l + "&offset=" + o, client.suiteqlUrl, signed,
            JObj(map["q" := query]))
  }

  /** `execute_suiteql(query, limit, offset)`: the envelope echoes limit and offset as given. */
  function ExecuteSuiteql(client: Client, env: Env, query: Json, limit: Json, offset: Json): (r: Result<Json, string>)
    ensures var sent := Send(env, SuiteqlRequest(client, env, query, limit, offset));
            (sent.Err? ==> r == sent)
            && (sent.Ok? && !sent.value.JObj? ==> r == Err(NoGetMessage(sent.value)))
            && (sent.Ok? && sent.value.JObj? ==>
                  r.Ok? && r.value.JObj?
                  && r.value.fields.Keys == PageKeys
                  && r.value.fields["items"] == GetOr(sent.value.fields, "items", JArr([]))
                  && r.value.fields["limit"] == limit && r.value.fields["offset"] == offset
                  && r.value.fields["count"] == GetOr(sent.value.fields, "count", JInt(0))
                  && r.value.fields["hasMore"] == GetOr(sent.value.fields, "hasMore", JBool(false))
                  && r.value.fields["totalResults"]
                     == GetOr(sent.value.fields, "totalResults", GetOr(sent.value.fields, "count", JInt(0))))
  {
    match Send(env, SuiteqlRequest(client, env, query, limit, offset))
    case Err(m) => Err(m)
    case Ok(data) =>
      if !data.JObj? then Err(NoGetMessage(data))
      else
        Ok(JObj(Page(data.fields, GetOr(data.fields, "items", JArr([])), offset, limit)))
  }

  /** The `name=value` pairs of a query string, without percent-decoding. */
  function QueryPairs(q: string): seq<(string, string)> {
    var pieces := Split(q, '&');
    seq(|pieces|, i requires 0 <= i < |pieces| =>
      var kv := Split(pieces[i], '=');
      (kv[0], if |kv| > 1 then kv[1] else ""))
  }

  lemma DecFree(i: int, c: char)
    requires c == '&' || c == '=' || c == '#' || c == '%' || c == '+'
    ensures c !in Dec(i)
  {
  }

  lemma PairSplit(name: string, value: string)
    requires '=' !in name && '=' !in value
    ensures Split(name + "=" + value, '=') == [name, value]
  {
    assert name + "=" + value == Join([name, value], '=');
    SplitJoin([name, value], '=');
  }

  /**
   * Text that survives being placed in a query string unescaped: no '&' or
   * '=' to split it, no '#' to end the query, and no '%' or '+' for the
   * server to decode into something other than what was signed.
   */
  predicate QuerySafe(t: string) {
    '&' !in t && '=' !in t && '#' !in t && '%' !in t && '+' !in t
  }

  /**
   * When the texts of limit and offset are query-safe, the query string of
   * the URL splits at '&' and '=' into exactly the pairs that were signed,
   * and holds nothing that ends the query early or that the server decodes.
   */
  lemma SuiteqlSignsUrlParams(client: Client, env: Env, query: Json, limit: Json, offset: Json)
    requires QuerySafe(Str(env, limit)) && QuerySafe(Str(env, offset))
    ensures var req := SuiteqlRequest(client, env, query, limit, offset);
            exists q :: req.url == client.suiteqlUrl + "?" + q && QueryPairs(q) == req.signed
  {
    var l, o := Str(env, limit), Str(env, offset);
    var q := "limit=" + l + "&offset=" + o;
    assert SuiteqlRequest(client, env, query, limit, offset).url == client.suiteqlUrl + "?" + q;
    PagingQueryPairs(l, o);
  }

  /** Integer paging values are always safe, so their URL matches the signature. */
  lemma SuiteqlSignsIntParams(client: Client, env: Env, query: Json, l: int, o: int)
    ensures var req := SuiteqlRequest(client, env, query, JInt(l), JInt(o));
            exists q :: req.url == client.suiteqlUrl + "?" + q
                        && QueryPairs(q) == req.signed == [("limit", Dec(l)), ("offset", Dec(o))]
  {
    DecFree(l, '&');
    DecFree(o, '&');
    DecFree(l, '=');
    DecFree(o, '=');
    DecFree(l, '#');
    DecFree(o, '#');
    DecFree(l, '%');
    DecFree(o, '%');
    DecFree(l, '+');
    DecFree(o, '+');
    SuiteqlSignsUrlParams(client, env, query, JInt(l), JInt(o));
  }

  /** The paging query string splits back into its two pairs. */
  lemma PagingQueryPairs(l: string, o: string)
    requires QuerySafe(l) && QuerySafe(o)
    ensures QueryPairs("limit=" + l + "&offset=" + o) == [("limit", l), ("offset", o)]
  {
    var q := "limit=" + l + "&offset=" + o;
    var pieces := ["limit=" + l, "offset=" + o];
    assert pieces[0] == "limit" + "=" + l && pieces[1] == "offset" + "=" + o;
    assert q == Join(pieces, '&');
    assert Separable(pieces, '&');
    SplitJoin(pieces, '&');
    PairSplit("limit", l);
    PairSplit("offset", o);
    assert Split(q, '&') == pieces;
    assert QueryPairs(q)[0] == ("limit", l);
    assert QueryPairs(q)[1] == ("offset", o);
  }

  /**
   * A text limit is placed in the URL unescaped: one holding an '&' adds a
   * third pair that the signature, computed over the two dict entries, does
   * not cover.
   */
  lemma SuiteqlUrlCarriesUnsignedPair(client: Client, env: Env, query: Json, a: string, b: string, offset: Json)
    requires '&' !in a && '&' !in b && '&' !in Str(env, offset)
    ensures var req := SuiteqlRequest(client, env, query, JStr(a + "&" + b), offset);
            exists q :: req.url == client.suiteqlUrl + "?" + q && |QueryPairs(q)| == 3 && |req.signed| == 2
  {
    var o := Str(env, offset);
    var pieces := ["limit=" + a, b, "offset=" + o];
    var q := Join(pieces, '&');
    assert pieces[1..] == [b, "offset=" + o];
    JoinTwo(b, "offset=" + o, '&');
    assert q == ("limit=" + a) + "&" + (b + "&" + ("offset=" + o));
    assert SuiteqlRequest(client, env, query, JStr(a + "&" + b), offset).url == client.suiteqlUrl + "?" + q;
    forall i | 0 <= i < |pieces| ensures '&' !in pieces[i] {
      assert pieces[i] == "limit=" + a || pieces[i] == b || pieces[i] == "offset=" + o;
    }
    SplitJoin(pieces, '&');
  }

  /** For instance, a limit of "5&offset=9" with offset 0 sends three pairs and signs two. */
  lemma SuiteqlSmuggledOffset(client: Client, env: Env, query: Json)
    ensures var req := SuiteqlRequest(client, env, query, JStr("5&offset=9"), JStr("0"));
            exists q :: req.url == client.suiteqlUrl + "?" + q && |QueryPairs(q)| == 3 && |req.signed| == 2
  {
    assert "5&offset=9" == "5" + "&" + "offset=9";
    SuiteqlUrlCarriesUnsignedPair(client, env, query, "5", "offset=9", JStr("0"));
  }
}
