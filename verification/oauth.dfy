/**
 * OAuth 1.0a request signing with HMAC-SHA256, as `NetSuiteClient` performs it
 * in `_generate_oauth_signature` and `_get_oauth_headers`:
 *
 *   parameter string  = "&".join(quote(k) "=" quote(v) for k, v in sorted(params))
 *   base string       = METHOD "&" quote(url) "&" quote(parameter string)
 *   signing key       = quote(consumer secret) "&" quote(token secret)
 *   signature         = base64(HMAC-SHA256(signing key, base string))
 *   Authorization     = OAuth realm="<realm>", then every oauth_* parameter in key order
 *
 * HMAC-SHA256 followed by base64 is the parameter `mac`; the clock and the
 * random nonce are the parameters `timestamp` and `nonce` (see `Signer`).
 */
module OAuth {
  import opened Results
  import opened Text
  import opened Dicts
  import opened PercentEncoding

  /** The five NetSuite token-based-authentication credentials. */
  datatype Credentials = Credentials(
    realm: string,
    consumerKey: string,
    consumerSecret: string,
    tokenKey: string,
    tokenSecret: string)

  /** What the signing step draws from outside the model: clock, entropy and the keyed hash. */
  datatype Signer = Signer(
    timestamp: nat,                                // int(time.time())
    nonce: string,                                 // secrets.token_hex(16)
    mac: (seq<byte>, seq<byte>) -> string)         // base64(HMAC-SHA256(key, message))

  // ---------------------------------------------------------------------------
  // Parameter string (section 3.4.1.3.2 of RFC 5849, with raw-key ordering)
  // ---------------------------------------------------------------------------

  function EncodePair(p: (string, string)): string {
    Quote(p.0) + "=" + Quote(p.1)
  }

  function EncodePairs(ps: seq<(string, string)>): (r: seq<string>)
    ensures |r| == |ps|
    ensures forall i | 0 <= i < |ps| :: r[i] == EncodePair(ps[i])
  {
    seq(|ps|, i requires 0 <= i < |ps| => EncodePair(ps[i]))
  }

  /**
   * The normalised parameter string. Pairs are ordered by their RAW key, as
   * `sorted(params.items())` does, not by the encoded key.
   */
  function ParamString(params: Dict<string>): string {
    Join(EncodePairs(SortByKey(params)), '&')
  }

  /** Reads back one `name=value` piece. */
  function DecodePair(piece: string): Option<(string, string)> {
    var kv := Split(piece, '=');
    if |kv| != 2 then Nothing
    else
      match (Unquote(kv[0]), Unquote(kv[1]))
      case (Some(k), Some(v)) => Some((k, v))
      case _ => Nothing
  }

  function DecodePairs(pieces: seq<string>): Option<seq<(string, string)>>
    decreases |pieces|
  {
    if |pieces| == 0 then Some([])
    else
      match (DecodePair(pieces[0]), DecodePairs(pieces[1..]))
      case (Some(p), Some(rest)) => Some([p] + rest)
      case _ => Nothing
  }

  /** Reads a parameter string back into its (key, value) pairs. */
  function DecodeParamString(t: string): Option<seq<(string, string)>> {
    if t == "" then Some([]) else DecodePairs(Split(t, '&'))
  }

  lemma DecodeEncodePair(p: (string, string))
    ensures DecodePair(EncodePair(p)) == Some(p)
  {
    assert EncodePair(p) == Join([Quote(p.0), Quote(p.1)], '=');
    SplitJoin([Quote(p.0), Quote(p.1)], '=');
    QuoteRoundTrip(p.0);
    QuoteRoundTrip(p.1);
  }

  lemma {:induction false} DecodeEncodePairs(ps: seq<(string, string)>)
    ensures DecodePairs(EncodePairs(ps)) == Some(ps)
    decreases |ps|
  {
    if |ps| > 0 {
      DecodeEncodePair(ps[0]);
      assert EncodePairs(ps)[1..] == EncodePairs(ps[1..]);
      DecodeEncodePairs(ps[1..]);
      assert [ps[0]] + ps[1..] == ps;
    }
  }

  /**
   * No key or value can break the parameter string's structure: it decodes
   * back to exactly the sorted pairs that were signed.
   */
  lemma ParamStringRoundTrip(params: Dict<string>)
    ensures DecodeParamString(ParamString(params)) == Some(SortByKey(params))
  {
    var sorted := SortByKey(params);
    var pieces := EncodePairs(sorted);
    if |params| > 0 {
      assert Separable(pieces, '&');
      SplitJoin(pieces, '&');
      assert ParamString(params) != "" by {
        if |pieces| == 1 {
          assert ParamString(params) == pieces[0];
        } else {
          assert ParamString(params) == pieces[0] + ['&'] + Join(pieces[1..], '&');
        }
      }
      DecodeEncodePairs(sorted);
    }
  }

  /** The parameter string depends only on which pairs are signed, not on their insertion order. */
  lemma ParamStringOrderIndependent(d: Dict<string>, e: Dict<string>)
    requires ToMap(d) == ToMap(e)
    ensures ParamString(d) == ParamString(e)
  {
    SortByKeyOrderIndependent(d, e);
  }

  /** Equal parameter strings come only from dicts with the same key-to-value view. */
  lemma ParamStringInjective(d: Dict<string>, e: Dict<string>)
    requires ParamString(d) == ParamString(e)
    ensures ToMap(d) == ToMap(e)
  {
    ParamStringRoundTrip(d);
    ParamStringRoundTrip(e);
    SameItemsSameMap(d, e);
  }

  // ---------------------------------------------------------------------------
  // Section 3.4.1.3.2 of RFC 5849 as written: sort by encoded name, then value
  // ---------------------------------------------------------------------------

  function EncodeKeys(params: Dict<string>): (r: Dict<string>)
    ensures |r| == |params|
    ensures forall i | 0 <= i < |r| :: r[i] == (Quote(params[i].0), Quote(params[i].1))
  {
    var r := seq(|params|, i requires 0 <= i < |params| => (Quote(params[i].0), Quote(params[i].1)));
    forall i, j | 0 <= i < j < |r| ensures r[i].0 != r[j].0 {
      if r[i].0 == r[j].0 { QuoteInjective(params[i].0, params[j].0); }
    }
    r
  }

  /** The normalised parameter string exactly as section 3.4.1.3.2 of RFC 5849 orders it. */
  function RfcParamString(params: Dict<string>): string {
    Join(PairPieces(SortByKey(EncodeKeys(params))), '&')
  }

  /** Each pair as `name=value`, nothing encoded. */
  function PairPieces(ps: seq<(string, string)>): (r: seq<string>)
    ensures |r| == |ps|
    ensures forall i | 0 <= i < |ps| :: r[i] == ps[i].0 + "=" + ps[i].1
  {
    seq(|ps|, i requires 0 <= i < |ps| => ps[i].0 + "=" + ps[i].1)
  }

  predicate AllUnreserved(s: string) {
    forall i | 0 <= i < |s| :: Unreserved(s[i])
  }

  /**
   * When every key is made of unreserved characters (as `limit`, `offset`,
   * `q`, `fields`, `expandSubresources` and the `oauth_*` names are), ordering
   * by raw key and by encoded key agree, so the signed string is the one the
   * standard prescribes.
   */
  lemma RawOrderMatchesRfc(params: Dict<string>)
    requires forall i | 0 <= i < |params| :: AllUnreserved(params[i].0)
    ensures ParamString(params) == RfcParamString(params)
  {
    var sorted := SortByKey(params);
    var encSorted := SortByKey(EncodeKeys(params));
    // With unreserved keys only the values change under encoding ...
    EncodedKeysAreRaw(params);
    var mid := EncodeValues(sorted);
    EncodeValuesSorted(sorted);
    // ... so sorting before or after encoding gives the same sequence.
    EncodeValuesSameMembers(params, sorted);
    SortedUnique(mid, encSorted);
    forall i | 0 <= i < |sorted| ensures EncodePair(sorted[i]) == mid[i].0 + "=" + mid[i].1 {
      assert sorted[i] in params;
      QuoteUnreserved(sorted[i].0);
    }
    assert EncodePairs(sorted) == PairPieces(encSorted);
  }

  /** Percent-encodes the values only. */
  function EncodeValues(ps: seq<(string, string)>): (r: seq<(string, string)>)
    ensures |r| == |ps|
    ensures forall i | 0 <= i < |ps| :: r[i] == (ps[i].0, Quote(ps[i].1))
  {
    seq(|ps|, i requires 0 <= i < |ps| => (ps[i].0, Quote(ps[i].1)))
  }

  lemma EncodedKeysAreRaw(params: Dict<string>)
    requires forall i | 0 <= i < |params| :: AllUnreserved(params[i].0)
    ensures EncodeKeys(params) == EncodeValues(params)
  {
    forall i | 0 <= i < |params| ensures Quote(params[i].0) == params[i].0 {
      QuoteUnreserved(params[i].0);
    }
  }

  lemma EncodeValuesSorted(s: seq<(string, string)>)
    requires SortedByKey(s)
    ensures SortedByKey(EncodeValues(s))
  {
  }

  lemma EncodeValuesSameMembers(d: seq<(string, string)>, e: seq<(string, string)>)
    requires forall y :: y in d <==> y in e
    ensures forall y :: y in EncodeValues(d) <==> y in EncodeValues(e)
  {
    forall y ensures y in EncodeValues(d) ==> y in EncodeValues(e) {
      if y in EncodeValues(d) {
        var i :| 0 <= i < |d| && EncodeValues(d)[i] == y;
        assert d[i] in e;
        var j :| 0 <= j < |e| && e[j] == d[i];
        assert EncodeValues(e)[j] == y;
      }
    }
    forall y ensures y in EncodeValues(e) ==> y in EncodeValues(d) {
      if y in EncodeValues(e) {
        var j :| 0 <= j < |e| && EncodeValues(e)[j] == y;
        assert e[j] in d;
        var i :| 0 <= i < |d| && d[i] == e[j];
        assert EncodeValues(d)[i] == y;
      }
    }
  }

  // ---------------------------------------------------------------------------
  // Base string and signing key (sections 3.4.1 and 3.4.2 of RFC 5849)
  // ---------------------------------------------------------------------------

  /** `"&".join([method.upper(), quote(url), quote(param_string)])`. */
  function BaseString(verb: string, url: string, params: Dict<string>): string {
    Join([Upper(verb), Quote(url), Quote(ParamString(params))], '&')
  }

  /** `f"{quote(consumer_secret)}&{quote(token_secret)}"`. */
  function SigningKey(consumerSecret: string, tokenSecret: string): string {
    Quote(consumerSecret) + "&" + Quote(tokenSecret)
  }

  /** `_generate_oauth_signature`: the keyed hash of the base string under the signing key. */
  function Signature(creds: Credentials, mac: (seq<byte>, seq<byte>) -> string,
                     verb: string, url: string, params: Dict<string>): string {
    mac(Utf8(SigningKey(creds.consumerSecret, creds.tokenSecret)), Utf8(BaseString(verb, url, params)))
  }

  /**
   * The signature depends only on the secrets, the method, the URL and the
   * key-to-value view of the signed parameters: reordering them changes nothing.
   */
  lemma SignatureOrderIndependent(creds: Credentials, mac: (seq<byte>, seq<byte>) -> string,
                                  verb: string, url: string, d: Dict<string>, e: Dict<string>)
    requires ToMap(d) == ToMap(e)
    ensures Signature(creds, mac, verb, url, d) == Signature(creds, mac, verb, url, e)
  {
    ParamStringOrderIndependent(d, e);
  }

  lemma UpperKeepsAmpersand(m: string)
    requires '&' !in m
    ensures '&' !in Upper(m)
  {
  }

  /**
   * The base string determines the request it was computed from: the URL and
   * the signed parameters (up to insertion order). Changing the URL or any
   * signed parameter therefore changes the string that is hashed.
   */
  lemma BaseStringInjective(verb: string, url1: string, url2: string,
                            params1: Dict<string>, params2: Dict<string>)
    requires '&' !in verb
    requires BaseString(verb, url1, params1) == BaseString(verb, url2, params2)
    ensures url1 == url2
    ensures ToMap(params1) == ToMap(params2)
  {
    UpperKeepsAmpersand(verb);
    var a := [Upper(verb), Quote(url1), Quote(ParamString(params1))];
    var b := [Upper(verb), Quote(url2), Quote(ParamString(params2))];
    assert Separable(a, '&') && Separable(b, '&');
    JoinInjective(a, b, '&');
    QuoteInjective(url1, url2);
    QuoteInjective(ParamString(params1), ParamString(params2));
    ParamStringInjective(params1, params2);
  }

  /** The signing key determines both secrets. */
  lemma SigningKeyInjective(cs1: string, ts1: string, cs2: string, ts2: string)
    requires SigningKey(cs1, ts1) == SigningKey(cs2, ts2)
    ensures cs1 == cs2 && ts1 == ts2
  {
    assert SigningKey(cs1, ts1) == Join([Quote(cs1), Quote(ts1)], '&');
    assert SigningKey(cs2, ts2) == Join([Quote(cs2), Quote(ts2)], '&');
    JoinInjective([Quote(cs1), Quote(ts1)], [Quote(cs2), Quote(ts2)], '&');
    QuoteInjective(cs1, cs2);
    QuoteInjective(ts1, ts2);
  }

  // ---------------------------------------------------------------------------
  // The Authorization header (section 3.5.1 of RFC 5849)
  // ---------------------------------------------------------------------------

  /** The protocol parameter names of section 3.5.1 of RFC 5849, plus `oauth_signature`. */
  const ConsumerKeyName := "oauth_consumer_key"
  const TokenName := "oauth_token"
  const SignatureMethodName := "oauth_signature_method"
  const TimestampName := "oauth_timestamp"
  const NonceName := "oauth_nonce"
  const VersionName := "oauth_version"
  const SignatureName := "oauth_signature"

  /** The six protocol parameters, in the order the source builds them. */
  function ProtocolParams(creds: Credentials, signer: Signer): Dict<string> {
    [(ConsumerKeyName, creds.consumerKey),
     (TokenName, creds.tokenKey),
     (SignatureMethodName, "HMAC-SHA256"),
     (TimestampName, Dec(signer.timestamp)),
     (NonceName, signer.nonce),
     (VersionName, "1.0")]
  }

  /** `, key="quote(value)"`: one parameter of the Authorization header. */
  function HeaderEntry(p: (string, string)): string {
    ", " + p.0 + "=\"" + Quote(p.1) + "\""
  }

  /** The header entries for each pair, in sequence order. */
  function HeaderEntries(ps: seq<(string, string)>): string
    decreases |ps|
  {
    if |ps| == 0 then "" else HeaderEntry(ps[0]) + HeaderEntries(ps[1..])
  }

  function AuthorizationValue(realm: string, oauth: Dict<string>): string {
    "OAuth realm=\"" + realm + "\"" + HeaderEntries(SortByKey(oauth))
  }

  /** The three headers every request carries. */
  function JsonHeaders(authorization: string): (r: Dict<string>)
    ensures Lookup(r, "Authorization") == Some(authorization)
    ensures Lookup(r, "Content-Type") == Some("application/json")
    ensures Lookup(r, "Accept") == Some("application/json")
  {
    var r: Dict<string> :=
      [("Authorization", authorization), ("Content-Type", "application/json"), ("Accept", "application/json")];
    assert r[0] in r && r[1] in r && r[2] in r;
    LookupPair(r, "Authorization", authorization);
    LookupPair(r, "Content-Type", "application/json");
    LookupPair(r, "Accept", "application/json");
    r
  }

  /** The result of `_get_oauth_headers`: the signed pairs and the three headers sent. */
  datatype SignedHeaders = SignedHeaders(signed: Dict<string>, headers: Dict<string>)

  /**
   * `_get_oauth_headers(method, url, params)`: the caller's parameters merged
   * with the protocol parameters are signed; the header carries the protocol
   * parameters and the signature only.
   */
  function OAuthHeaders(creds: Credentials, signer: Signer, verb: string, url: string,
                        params: Dict<string>): (r: SignedHeaders)
    ensures ToMap(r.signed) == ToMap(params) + ToMap(ProtocolParams(creds, signer))
    ensures Lookup(r.headers, "Content-Type") == Some("application/json")
    ensures Lookup(r.headers, "Accept") == Some("application/json")
  {
    var oauth := ProtocolParams(creds, signer);
    var all := Merge(params, oauth);
    var signature := Signature(creds, signer.mac, verb, url, all);
    var withSignature := Put(oauth, SignatureName, signature);
    SignedHeaders(all, JsonHeaders(AuthorizationValue(creds.realm, withSignature)))
  }

  /** The seven protocol parameters in key order, as they must appear in the header. */
  function HeaderOrder(creds: Credentials, signer: Signer, signature: string): seq<(string, string)> {
    [(ConsumerKeyName, creds.consumerKey),
     (NonceName, signer.nonce),
     (SignatureName, signature),
     (SignatureMethodName, "HMAC-SHA256"),
     (TimestampName, Dec(signer.timestamp)),
     (TokenName, creds.tokenKey),
     (VersionName, "1.0")]
  }

  /** `oauth_signature` is a proper prefix of `oauth_signature_method`, so it sorts first. */
  lemma SignatureBeforeMethod(signature: string, signatureMethod: string)
    requires signature == SignatureName && signatureMethod == SignatureMethodName
    ensures Less(signature, signatureMethod)
  {
    LessProperPrefix(signature, "_method");
    SignatureMethodExtends();
  }

  lemma SignatureMethodExtends()
    ensures SignatureName + "_method" == SignatureMethodName
  {
  }

  /** Two `oauth_*` names compare as the parts after `oauth_` do. */
  lemma ProtocolLess(a: string, b: string, x: string, y: string)
    requires x == "oauth_" + a && y == "oauth_" + b
    requires Less(a, b)
    ensures Less(x, y)
  {
    LessCommonPrefix("oauth_", a, b);
  }

  lemma ConsumerKeyBeforeNonce()
    ensures Less(ConsumerKeyName, NonceName)
  {
    assert Less("consumer_key", "nonce");
    ProtocolLess("consumer_key", "nonce", ConsumerKeyName, NonceName);
  }

  lemma NonceBeforeSignature()
    ensures Less(NonceName, SignatureName)
  {
    assert Less("nonce", "signature");
    ProtocolLess("nonce", "signature", NonceName, SignatureName);
  }

  lemma SignatureMethodBeforeTimestamp()
    ensures Less(SignatureMethodName, TimestampName)
  {
    assert Less("signature_method", "timestamp");
    ProtocolLess("signature_method", "timestamp", SignatureMethodName, TimestampName);
  }

  lemma TimestampBeforeToken()
    ensures Less(TimestampName, TokenName)
  {
    assert Less("timestamp", "token");
    ProtocolLess("timestamp", "token", TimestampName, TokenName);
  }

  lemma TokenBeforeVersion()
    ensures Less(TokenName, VersionName)
  {
    assert Less("token", "version");
    ProtocolLess("token", "version", TokenName, VersionName);
  }

  /** The seven `oauth_*` names in ascending order. */
  lemma ProtocolNamesAscending()
    ensures Less(ConsumerKeyName, NonceName) && Less(NonceName, SignatureName)
    ensures Less(SignatureName, SignatureMethodName)
    ensures Less(SignatureMethodName, TimestampName) && Less(TimestampName, TokenName)
    ensures Less(TokenName, VersionName)
  {
    ConsumerKeyBeforeNonce();
    NonceBeforeSignature();
    SignatureBeforeMethod(SignatureName, SignatureMethodName);
    SignatureMethodBeforeTimestamp();
    TimestampBeforeToken();
    TokenBeforeVersion();
  }

  /** Seven pairs whose keys increase from each to the next are key-sorted. */
  lemma SortedSeven(k0: string, k1: string, k2: string, k3: string, k4: string, k5: string, k6: string,
                    v0: string, v1: string, v2: string, v3: string, v4: string, v5: string, v6: string)
    requires Less(k0, k1) && Less(k1, k2) && Less(k2, k3)
    requires Less(k3, k4) && Less(k4, k5) && Less(k5, k6)
    ensures SortedByKey([(k0, v0), (k1, v1), (k2, v2), (k3, v3), (k4, v4), (k5, v5), (k6, v6)])
  {
    SortedChain([(k0, v0), (k1, v1), (k2, v2), (k3, v3), (k4, v4), (k5, v5), (k6, v6)]);
  }

  lemma HeaderOrderSorted(creds: Credentials, signer: Signer, signature: string)
    ensures SortedByKey(HeaderOrder(creds, signer, signature))
  {
    ProtocolNamesAscending();
    SortedSeven(ConsumerKeyName, NonceName, SignatureName, SignatureMethodName, TimestampName, TokenName, VersionName,
                creds.consumerKey, signer.nonce, signature, "HMAC-SHA256", Dec(signer.timestamp), creds.tokenKey, "1.0");
  }

  /** Adding the signature to the six protocol parameters and sorting gives `HeaderOrder`. */
  lemma SignedProtocolOrder(creds: Credentials, signer: Signer, signature: string)
    ensures SortByKey(Put(ProtocolParams(creds, signer), SignatureName, signature))
            == HeaderOrder(creds, signer, signature)
  {
    var oauth := ProtocolParams(creds, signer);
    assert SignatureName !in KeySet(oauth);
    var withSignature := Put(oauth, SignatureName, signature);
    var h := HeaderOrder(creds, signer, signature);
    assert withSignature == [oauth[0], oauth[1], oauth[2], oauth[3], oauth[4], oauth[5], (SignatureName, signature)];
    HeaderOrderSorted(creds, signer, signature);
    assert forall y :: y in withSignature <==> y in h;
    SortedUnique(SortByKey(withSignature), h);
  }

  /**
   * The Authorization header is `OAuth realm="<realm>"` followed by exactly
   * the seven protocol parameters, `oauth_signature` included, in key order;
   * the signature is the keyed hash of the base string over the caller's
   * parameters merged with the protocol parameters.
   */
  lemma AuthorizationHeaderShape(creds: Credentials, signer: Signer, verb: string, url: string,
                                 params: Dict<string>)
    ensures
      var signature := Signature(creds, signer.mac, verb, url, Merge(params, ProtocolParams(creds, signer)));
      Lookup(OAuthHeaders(creds, signer, verb, url, params).headers, "Authorization") ==
      Some("OAuth realm=\"" + creds.realm + "\"" + HeaderEntries(HeaderOrder(creds, signer, signature)))
  {
    var signature := Signature(creds, signer.mac, verb, url, Merge(params, ProtocolParams(creds, signer)));
    SignedProtocolOrder(creds, signer, signature);
  }

  lemma QuoteExampleKeys()
    ensures Quote("z") == "z" && Quote("1") == "1" && Quote("2") == "2"
    ensures Quote("é") == "%C3%A9"
  {
    QuoteUnreserved("z");
    QuoteUnreserved("1");
    QuoteUnreserved("2");
    QuoteAccent();
  }

  lemma QuoteAccent()
    ensures Quote("é") == "%C3%A9"
  {
    assert Utf8("é") == [0xC3, 0xA9];
  }

  /** Raw order: `z` (U+007A) comes before `é` (U+00E9), so `sorted` keeps the pairs as given. */
  lemma RawExampleSorted(d: Dict<string>)
    requires d == [("z", "1"), ("é", "2")]
    ensures SortByKey(d) == d
  {
    assert Less("z", "é");
    SortedUnique(SortByKey(d), d);
  }

  lemma RawExamplePieces(d: Dict<string>)
    requires d == [("z", "1"), ("é", "2")]
    ensures EncodePairs(d) == ["z=1", "%C3%A9=2"]
  {
    QuoteExampleKeys();
    assert EncodePairs(d)[0] == "z" + "=" + "1" == "z=1";
    assert EncodePairs(d)[1] == "%C3%A9" + "=" + "2" == "%C3%A9=2";
  }

  lemma RawOrderExample(d: Dict<string>)
    requires d == [("z", "1"), ("é", "2")]
    ensures ParamString(d) == "z=1&%C3%A9=2"
  {
    RawExampleSorted(d);
    RawExamplePieces(d);
    JoinTwo("z=1", "%C3%A9=2", '&');
    RawExampleText();
  }

  lemma RawExampleText()
    ensures "z=1" + "&" + "%C3%A9=2" == "z=1&%C3%A9=2"
  {
  }

  /** Encoded order: `%` (U+0025) comes before `z`, so the standard puts `%C3%A9` first. */
  lemma RfcExampleSorted(d: Dict<string>)
    requires d == [("z", "1"), ("é", "2")]
    ensures SortByKey(EncodeKeys(d)) == [("%C3%A9", "2"), ("z", "1")]
  {
    QuoteExampleKeys();
    var enc := EncodeKeys(d);
    var rfc: Dict<string> := [("%C3%A9", "2"), ("z", "1")];
    assert Less("%C3%A9", "z");
    assert enc[0] == rfc[1] && enc[1] == rfc[0];
    assert forall y :: y in enc <==> y in rfc;
    SortedUnique(SortByKey(enc), rfc);
  }

  lemma RfcOrderExample(d: Dict<string>)
    requires d == [("z", "1"), ("é", "2")]
    ensures RfcParamString(d) == "%C3%A9=2&z=1"
  {
    var rfc: Dict<string> := [("%C3%A9", "2"), ("z", "1")];
    RfcExampleSorted(d);
    RfcExamplePieces(rfc);
    JoinTwo("%C3%A9=2", "z=1", '&');
    assert RfcParamString(d) == Join(PairPieces(rfc), '&');
    assert Join(PairPieces(rfc), '&') == "%C3%A9=2" + "&" + "z=1";
    RfcExampleText();
  }

  lemma RfcExampleText()
    ensures "%C3%A9=2" + "&" + "z=1" == "%C3%A9=2&z=1"
  {
  }

  lemma RfcExamplePieces(rfc: Dict<string>)
    requires rfc == [("%C3%A9", "2"), ("z", "1")]
    ensures PairPieces(rfc) == ["%C3%A9=2", "z=1"]
  {
    assert PairPieces(rfc)[0] == "%C3%A9" + "=" + "2" == "%C3%A9=2";
    assert PairPieces(rfc)[1] == "z" + "=" + "1" == "z=1";
  }

  /**
   * The parameter ordering deviates from section 3.4.1.3.2 of RFC 5849 once
   * a key holds a character outside the unreserved set: the same two pairs
   * are signed in a different order than the standard prescribes, so a
   * server following the standard computes a different base string.
   */
  lemma RawOrderDiffersFromRfc()
    ensures ParamString([("z", "1"), ("é", "2")]) != RfcParamString([("z", "1"), ("é", "2")])
  {
    RawOrderExample([("z", "1"), ("é", "2")]);
    RfcOrderExample([("z", "1"), ("é", "2")]);
    assert "z=1&%C3%A9=2"[0] != "%C3%A9=2&z=1"[0];
  }
}
