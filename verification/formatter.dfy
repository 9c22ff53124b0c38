/**
 * The response reshapers of `app/utils/formatter.py`. Each takes the
 * decoded NetSuite envelope; one that is not a dict makes the first
 * `data.get(...)` raise, which is the `Err` case here.
 */
module Formatter {
  import opened Results
  import opened Json

  /** `data.get("items", [])`, or the error of calling `get` on a non-dict. */
  function ItemsOf(data: Json): (r: Result<Json, string>)
    ensures data.JObj? <==> r.Ok?
    ensures data.JObj? && "items" in data.fields ==> r == Ok(data.fields["items"])
    ensures data.JObj? && "items" !in data.fields ==> r == Ok(JArr([]))
  {
    if data.JObj? then Ok(GetOr(data.fields, "items", JArr([]))) else Err(NoGetMessage(data))
  }

  /**
   * `flatten_netsuite_response(data, include_metadata)`: the items under
   * "data", and with metadata also the envelope's "entity" (None when
   * absent) and `len(items)` under "count".
   */
  function Flatten(data: Json, includeMetadata: bool): (r: Result<Json, string>)
    ensures !data.JObj? ==> r == Err(NoGetMessage(data))
    ensures data.JObj? ==> (r.Ok? <==> !includeMetadata || Len(TransformForDatabase(data).value).Ok?)
    ensures r.Ok? ==> r.value.JObj?
                      && r.value.fields.Keys == (if includeMetadata then {"entity", "count", "data"} else {"data"})
                      && r.value.fields["data"] == TransformForDatabase(data).value
    ensures r.Ok? && includeMetadata ==>
              r.value.fields["count"] == JInt(Len(TransformForDatabase(data).value).value)
              && r.value.fields["entity"] == GetOr(data.fields, "entity", JNull)
  {
    match ItemsOf(data)
    case Err(e) => Err(e)
    case Ok(items) =>
      if includeMetadata then
        match Len(items)
        case Err(e) => Err(e)
        case Ok(n) =>
          Ok(JObj(map["entity" := GetOr(data.fields, "entity", JNull), "count" := JInt(n), "data" := items]))
      else Ok(JObj(map["data" := items]))
  }

  /** `transform_for_database(data)`: just the items. */
  function TransformForDatabase(data: Json): (r: Result<Json, string>)
    ensures !data.JObj? ==> r == Err(NoGetMessage(data))
    ensures data.JObj? ==> r == Ok(GetOr(data.fields, "items", JArr([])))
  {
    ItemsOf(data)
  }

  /**
   * The two reshapers hand on the same items: what `transform_for_database`
   * returns is the "data" of either flattening, and with metadata the count
   * is the number of items.
   */
  lemma FlattenCarriesItems(data: Json, xs: seq<Json>)
    requires TransformForDatabase(data) == Ok(JArr(xs))
    ensures Flatten(data, false).Ok? && Flatten(data, false).value.fields["data"] == JArr(xs)
    ensures Flatten(data, true).Ok? && Flatten(data, true).value.fields["data"] == JArr(xs)
    ensures Flatten(data, true).value.fields["count"] == JInt(|xs|)
    ensures Flatten(data, true).value.fields["entity"] == GetOr(data.fields, "entity", JNull)
  {
  }

  /** Flattening an envelope without items gives an empty "data", and a count of 0. */
  lemma FlattenWithoutItems(m: map<string, Json>)
    requires "items" !in m
    ensures Flatten(JObj(m), false) == Ok(JObj(map["data" := JArr([])]))
    ensures Flatten(JObj(m), true).value.fields["count"] == JInt(0)
  {
  }

  // ---------------------------------------------------------------------------
  // clean_record
  // ---------------------------------------------------------------------------

  /**
   * `clean_record(record, exclude_fields)`: the record without the
   * excluded fields; None excludes nothing.
   */
  function CleanRecord(record: map<string, Json>, exclude: Option<seq<string>>): (r: map<string, Json>)
    ensures forall k :: k in r <==> k in record && (exclude.Nothing? || k !in exclude.value)
    ensures forall k | k in r :: r[k] == record[k]
  {
    var ex := exclude.GetOr([]);
    map k | k in record && k !in ex :: record[k]
  }

  /** Excluding nothing, by None or by [], gives back the record. */
  lemma CleanIdentity(record: map<string, Json>)
    ensures CleanRecord(record, Nothing) == record
    ensures CleanRecord(record, Some([])) == record
  {
  }

  /** Cleaning twice with the same fields is cleaning once. */
  lemma CleanIdempotent(record: map<string, Json>, exclude: Option<seq<string>>)
    ensures CleanRecord(CleanRecord(record, exclude), exclude) == CleanRecord(record, exclude)
  {
  }

  /** Cleaning by one list and then another is cleaning by both at once. */
  lemma CleanComposes(record: map<string, Json>, a: seq<string>, b: seq<string>)
    ensures CleanRecord(CleanRecord(record, Some(a)), Some(b)) == CleanRecord(record, Some(a + b))
  {
  }

  // ---------------------------------------------------------------------------
  // format_response_for_airbyte
  // ---------------------------------------------------------------------------

  /**
   * `format_response_for_airbyte(data)`: the items as "records", and a
   * "pagination" object with `has_more` (default False), `next_offset`
   * (`offset + limit` when `has_more` is truthy, else None; offset defaults
   * to 0 and limit to 1000) and `count` (`len(items)`). The sum is
   * evaluated before the length, so its error wins.
   */
  function FormatForAirbyte(data: Json): (r: Result<Json, string>)
    ensures !data.JObj? ==> r == Err(NoGetMessage(data))
    ensures r.Ok? ==> r.value.JObj? && r.value.fields.Keys == {"records", "pagination"}
                      && r.value.fields["records"] == ItemsOf(data).value
                      && r.value.fields["pagination"].JObj?
                      && r.value.fields["pagination"].fields.Keys == {"has_more", "next_offset", "count"}
                      && r.value.fields["pagination"].fields["has_more"] == GetOr(data.fields, "hasMore", JBool(false))
                      && Len(ItemsOf(data).value).Ok?
                      && r.value.fields["pagination"].fields["count"] == JInt(Len(ItemsOf(data).value).value)
    ensures r.Ok? ==> (r.value.fields["pagination"].fields["next_offset"] != JNull
                       <==> Truthy(GetOr(data.fields, "hasMore", JBool(false))))
    ensures r.Ok? && Truthy(GetOr(data.fields, "hasMore", JBool(false))) ==>
              Add(GetOr(data.fields, "offset", JInt(0)), GetOr(data.fields, "limit", JInt(1000)))
              == Ok(r.value.fields["pagination"].fields["next_offset"])
    ensures data.JObj? ==>
              (r.Err? <==> (Truthy(GetOr(data.fields, "hasMore", JBool(false)))
                            && Add(GetOr(data.fields, "offset", JInt(0)), GetOr(data.fields, "limit", JInt(1000))).Err?)
                           || Len(ItemsOf(data).value).Err?)
  {
    match ItemsOf(data)
    case Err(e) => Err(e)
    case Ok(items) =>
      var hasMore := GetOr(data.fields, "hasMore", JBool(false));
      var offset := GetOr(data.fields, "offset", JInt(0));
      var limit := GetOr(data.fields, "limit", JInt(1000));
      var next := if Truthy(hasMore) then Add(offset, limit) else Ok(JNull);
      match next
      case Err(e) => Err(e)
      case Ok(nextOffset) =>
        match Len(items)
        case Err(e) => Err(e)
        case Ok(n) =>
          Ok(JObj(map["records" := items,
                      "pagination" := JObj(map["has_more" := hasMore, "next_offset" := nextOffset, "count" := JInt(n)])]))
  }

  /**
   * A page that says there is more, with a list of items and whole-number
   * offset and limit, points at offset + limit; other keys play no part.
   */
  lemma NextOffsetIsOffsetPlusLimit(m: map<string, Json>, xs: seq<Json>, offset: int, limit: int)
    requires "items" in m && m["items"] == JArr(xs)
    requires "hasMore" in m && Truthy(m["hasMore"])
    requires "offset" in m && m["offset"] == JInt(offset) && "limit" in m && m["limit"] == JInt(limit)
    ensures FormatForAirbyte(JObj(m)).Ok?
    ensures FormatForAirbyte(JObj(m)).value.fields["records"] == JArr(xs)
    ensures FormatForAirbyte(JObj(m)).value.fields["pagination"]
            == JObj(map["has_more" := m["hasMore"], "next_offset" := JInt(offset + limit), "count" := JInt(|xs|)])
  {
  }

  /** The defaults: no hasMore means no next page; hasMore alone steps from 0 by 1000. */
  lemma AirbyteDefaults(xs: seq<Json>)
    ensures FormatForAirbyte(JObj(map["items" := JArr(xs)])).value.fields["pagination"]
            == JObj(map["has_more" := JBool(false), "next_offset" := JNull, "count" := JInt(|xs|)])
    ensures FormatForAirbyte(JObj(map["items" := JArr(xs), "hasMore" := JBool(true)])).value.fields["pagination"]
            == JObj(map["has_more" := JBool(true), "next_offset" := JInt(1000), "count" := JInt(|xs|)])
  {
  }

  /** A string offset cannot be added to the default limit: the envelope is rejected. */
  lemma StringOffsetRejected(xs: seq<Json>, s: string)
    ensures FormatForAirbyte(JObj(map["items" := JArr(xs), "hasMore" := JBool(true), "offset" := JStr(s)])).Err?
  {
  }
}
