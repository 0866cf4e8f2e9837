/** `TrialServer` (trialserver.py:7-141): the requests a trial server is asked for — one
    trial by id, or a search built from a parameter dictionary — and the reading of a
    search response into trials. Sending a request is not part of this model: a request is
    the record of what would be sent. */
module TrialServers {
  import opened Json
  import Strings
  import Seqs
  import opened Records
  import opened Trials

  /** A prepared HTTP request: method, URL, headers and body. */
  datatype Request = Request(verb: string, url: string, headers: map<string, string>, body: Option<string>)

  /** `val.replace(' ', '+')`. */
  function Plus(v: string): string
  {
    Strings.ReplaceChar(v, ' ', "+")
  }

  /** `"{}={}".format(key, val.replace(' ', '+'))`. */
  function Term(k: string, v: string): string
  {
    k + "=" + Plus(v)
  }

  /** One term per key/value pair, in order. */
  function Terms(pairs: seq<(string, string)>): seq<string>
  {
    seq(|pairs|, i requires 0 <= i < |pairs| => Term(pairs[i].0, pairs[i].1))
  }

  /** `'&'.join(par)` for the terms of `pairs`. */
  function Query(pairs: seq<(string, string)>): string
  {
    Strings.Join("&", Terms(pairs))
  }

  /** How a server reads one `k=v` term back: the key up to the first `=`, then the value
      with `+` read as a space. */
  function ParseTerm(t: string): (string, string)
  {
    var kv := Strings.SplitFirst(t, '=');
    (kv.0, Strings.ReplaceChar(kv.1, '+', " "))
  }

  /** How a server reads a query string back into its key/value pairs. */
  function DecodeQuery(q: string): seq<(string, string)>
  {
    if q == "" then []
    else
      var ts := Strings.Split(q, '&');
      seq(|ts|, i requires 0 <= i < |ts| => ParseTerm(ts[i]))
  }

  /** Pairs the query format carries without loss: keys without `&` and `=`, values
      without `&` and `+`. */
  predicate Encodable(pairs: seq<(string, string)>)
  {
    forall i :: 0 <= i < |pairs| ==>
      '&' !in pairs[i].0 && '=' !in pairs[i].0 && '&' !in pairs[i].1 && '+' !in pairs[i].1
  }

  /** A term reads back as the pair it was written from. */
  lemma TermRoundTrip(k: string, v: string)
    requires '=' !in k && '+' !in v
    ensures ParseTerm(Term(k, v)) == (k, v)
    ensures '&' !in k && '&' !in v ==> '&' !in Term(k, v)
  {
    assert Term(k, v) == k + ['='] + Plus(v);
    Strings.SplitFirstAt(k, '=', Plus(v));
    Strings.ReplaceCharInverse(v, ' ', '+');
    Strings.ReplaceCharRemoves(v, ' ', "+", '&');
  }

  /** The query of encodable pairs reads back as exactly those pairs, in order: one term
      per pair, every space of a value carried as `+`. */
  lemma QueryRoundTrip(pairs: seq<(string, string)>)
    requires Encodable(pairs)
    ensures DecodeQuery(Query(pairs)) == pairs
  {
    var ts := Terms(pairs);
    if pairs != [] {
      forall i | 0 <= i < |ts| ensures '&' !in ts[i] && ParseTerm(ts[i]) == pairs[i] {
        TermRoundTrip(pairs[i].0, pairs[i].1);
        assert ts[i] == pairs[i].0 + "=" + Plus(pairs[i].1);
        assert ts[i] == pairs[i].0 + ("=" + Plus(pairs[i].1));
        assert forall c :: c in ts[i] ==> c in pairs[i].0 || c == '=' || c in Plus(pairs[i].1);
      }
      Strings.SplitJoin(ts, '&');
      Strings.JoinHead("&", ts);
      assert ts[0][|pairs[0].0|] == '=';
      assert Query(pairs) != "";
    }
  }

  /** A dictionary of search parameters, in insertion order like a Python dict. It is an
      object because the base search deletes from the caller's own dictionary. */
  class ParamDict {
    /** The keys in insertion order. */
    var keys: seq<string>
    /** The value of each key. */
    var vals: map<string, Value>

    predicate Valid()
      reads this
    {
      Seqs.Distinct(keys) && vals.Keys == set k | k in keys
    }

    constructor (keys: seq<string>, vals: map<string, Value>)
      requires Seqs.Distinct(keys) && vals.Keys == set k | k in keys
      ensures this.keys == keys && this.vals == vals && Valid()
    {
      this.keys := keys;
      this.vals := vals;
    }

    /** `del d[k]`: the key leaves both the order and the values. */
    method Delete(k: string)
      requires Valid() && k in vals
      modifies this
      ensures keys == Without(old(keys), k) && vals == old(vals) - {k}
      ensures Valid()
    {
      WithoutFacts(keys, k);
      keys := Without(keys, k);
      vals := vals - {k};
    }

    /** `d.copy()`: a new dictionary with the same entries in the same order. */
    method Copy() returns (c: ParamDict)
      requires Valid()
      ensures fresh(c) && c.keys == keys && c.vals == vals && c.Valid()
    {
      c := new ParamDict(keys, vals);
    }
  }

  /** `s` without the occurrences of `x`, the others in order. */
  function Without(s: seq<string>, x: string): seq<string>
  {
    if s == [] then []
    else Without(s[..|s| - 1], x) + (if s[|s| - 1] == x then [] else [s[|s| - 1]])
  }

  /** Removing a key keeps the others, in order and without repetition. */
  lemma {:induction false} WithoutFacts(s: seq<string>, x: string)
    ensures forall y :: y in Without(s, x) <==> y in s && y != x
    ensures Seqs.Distinct(s) ==> Seqs.Distinct(Without(s, x))
    ensures x !in s ==> Without(s, x) == s
    decreases |s|
  {
    if s != [] {
      var init, last := s[..|s| - 1], s[|s| - 1];
      WithoutFacts(init, x);
      assert s == init + [last];
      if Seqs.Distinct(s) {
        assert Seqs.Distinct(init) by {
          forall i, j | 0 <= i < j < |init| ensures init[i] != init[j] {
            assert init[i] == s[i] && init[j] == s[j];
          }
        }
        assert last !in init by {
          forall k | 0 <= k < |init| ensures init[k] != last {
            assert init[k] == s[k];
          }
        }
      }
    }
  }

  /** Every value is text, except perhaps that of `skip`. */
  predicate TextValuesBut(vals: map<string, Value>, skip: string)
  {
    forall k :: k in vals && k != skip ==> vals[k].Str?
  }

  /** The key/value pairs of text-valued entries, in key order. */
  function TextPairs(keys: seq<string>, vals: map<string, Value>): (pairs: seq<(string, string)>)
    requires forall i :: 0 <= i < |keys| ==> keys[i] in vals && vals[keys[i]].Str?
    ensures |pairs| == |keys|
    ensures forall i :: 0 <= i < |keys| ==> pairs[i].0 == keys[i] && Str(pairs[i].1) == vals[keys[i]]
  {
    seq(|keys|, i requires 0 <= i < |keys| => (keys[i], vals[keys[i]].s))
  }

  /** Reading the remaining keys from the reduced dictionary or the original one gives the
      same pairs. */
  lemma RestPairsAgree(restKeys: seq<string>, restVals: map<string, Value>, vals: map<string, Value>)
    requires forall i :: 0 <= i < |restKeys| ==> restKeys[i] in restVals && restVals[restKeys[i]].Str?
    requires forall k :: k in restVals ==> k in vals && vals[k] == restVals[k]
    ensures TextPairs(restKeys, restVals) == TextPairs(restKeys, vals)
  {
  }

  /** The path of the base search: `countries` dropped, every other parameter a term, in
      order. */
  function BaseSearchPath(path: string, keys: seq<string>, vals: map<string, Value>): string
    requires forall i :: 0 <= i < |keys| ==> keys[i] in vals
    requires TextValuesBut(vals, "countries")
  {
    var rest := Without(keys, "countries");
    WithoutFacts(keys, "countries");
    assert forall i | 0 <= i < |rest| :: rest[i] in rest;
    path + "?" + Query(TextPairs(rest, vals))
  }

  /** The loop that ends both searches: one `key=value` term appended per parameter, in
      order. */
  method AppendParamTerms(par0: seq<string>, keys: seq<string>, vals: map<string, Value>)
    returns (par: seq<string>)
    requires forall i :: 0 <= i < |keys| ==> keys[i] in vals && vals[keys[i]].Str?
    ensures par == par0 + Terms(TextPairs(keys, vals))
  {
    par := par0;
    var i := 0;
    while i < |keys|
      invariant 0 <= i <= |keys| && |par| == |par0| + i
      invariant par[..|par0|] == par0
      invariant forall m :: 0 <= m < i ==> par[|par0| + m] == Term(keys[m], vals[keys[m]].s)
    {
      par := par + [keys[i] + "=" + Plus(vals[keys[i]].s)];
      i := i + 1;
    }
  }

  /** `endpoint.split(' ')` unpacked into method and path, both non-empty. */
  function EndpointParts(endpoint: string): (r: Result<(string, string), string>)
    ensures r.Success? ==> endpoint == r.value.0 + " " + r.value.1
    ensures r.Success? ==> r.value.0 != "" && r.value.1 != "" && ' ' !in r.value.0 && ' ' !in r.value.1
  {
    var parts := Strings.Split(endpoint, ' ');
    if |parts| != 2 then Failure("not enough values to unpack")
    else if parts[0] == "" || parts[1] == "" then Failure("method and/or API endpoint is not defined")
    else
      Strings.JoinSplit(endpoint, ' ');
      Strings.SplitPiecesAvoidSep(endpoint, ' ');
      Success((parts[0], parts[1]))
  }

  /** A method and a path without spaces make an endpoint that splits back into them. */
  lemma EndpointPartsOf(verb: string, path: string)
    requires verb != "" && path != "" && ' ' !in verb && ' ' !in path
    ensures EndpointParts(verb + " " + path) == Success((verb, path))
  {
    Strings.SplitAtFirstSep(verb, ' ', path);
    Strings.SplitWithoutSep(path, ' ');
    assert verb + " " + path == verb + [' '] + path;
  }

  /** `"{}{}".format(base, path)` with a path of `None` printed as `None`. */
  function PathText(path: Option<string>): string
  {
    if path.Some? then path.value else "None"
  }

  /** The endpoints a server starts with. */
  const DefaultTrialEndpoint := "GET /trials/{id}"
  const DefaultSearchEndpoint := "GET /trials/search"

  /** The default trial endpoint is a GET of `/trials/{id}`. */
  lemma DefaultTrialRoute()
    ensures EndpointParts(DefaultTrialEndpoint) == Success(("GET", "/trials/{id}"))
  {
    assert DefaultTrialEndpoint == "GET" + " " + "/trials/{id}";
    EndpointPartsOf("GET", "/trials/{id}");
  }

  /** Substituting the id into a path with one `{id}` at its end appends the id to what
      comes before. */
  lemma TrialPathOf(prefix: string, trialId: string)
    requires '{' !in prefix
    ensures Strings.ReplaceAll(prefix + "{id}", "{id}", trialId) == prefix + trialId
  {
    assert prefix + "{id}" == prefix + "{id}" + "";
    Strings.ReplaceAllAfterPrefix(prefix, "{id}", trialId, "");
    assert Strings.ReplaceAll("", "{id}", trialId) == "";
  }

  /** The default search endpoint is a GET of `/trials/search`. */
  lemma DefaultSearchRoute()
    ensures EndpointParts(DefaultSearchEndpoint) == Success(("GET", "/trials/search"))
  {
    assert DefaultSearchEndpoint == "GET" + " " + "/trials/search";
    EndpointPartsOf("GET", "/trials/search");
  }

  /** `results` is falsy or a list of records. */
  predicate ResultsShaped(v: Value)
  {
    !Truthy(v) || (v.Arr? && forall i :: 0 <= i < |v.items| ==>
      v.items[i].Obj? && RecordShaped(v.items[i].fields))
  }

  /** `ret.get('results') or []`. */
  function ResultList(v: Value): (items: seq<Value>)
    requires ResultsShaped(v)
    ensures Truthy(v) ==> items == v.items
    ensures !Truthy(v) ==> items == []
    ensures forall i :: 0 <= i < |items| ==> items[i].Obj? && RecordShaped(items[i].fields)
  {
    if Truthy(v) then v.items else []
  }

  class TrialServer {
    /** The base URL; "" when none is given. */
    const base: string
    const apiKey: Option<string>
    /** The headers of every request; extra headers are merged into it. */
    var headers: map<string, string>
    var trialEndpoint: string
    /** Added to `headers` by a trial request. */
    var trialHeaders: map<string, string>
    var searchEndpoint: string
    /** Added to `headers` by a search request. */
    var searchHeaders: map<string, string>

    /** `TrialServer(base, api_key)`: no headers, the default endpoints. */
    constructor (base: string, apiKey: Option<string>)
      ensures this.base == base && this.apiKey == apiKey
      ensures headers == map[] && trialHeaders == map[] && searchHeaders == map[]
      ensures trialEndpoint == DefaultTrialEndpoint && searchEndpoint == DefaultSearchEndpoint
    {
      this.base := base;
      this.apiKey := apiKey;
      headers := map[];
      trialEndpoint := DefaultTrialEndpoint;
      trialHeaders := map[];
      searchEndpoint := DefaultSearchEndpoint;
      searchHeaders := map[];
    }

    /** `base_request`: the extra headers are merged into the server's own headers, which
        the request then carries; later requests carry them too. */
    method BaseRequest(verb: string, addHeaders: Option<map<string, string>>, url: string, data: Option<string>)
      returns (req: Request)
      modifies this`headers
      ensures addHeaders.None? ==> headers == old(headers)
      ensures addHeaders.Some? ==> headers == old(headers) + addHeaders.value
      ensures req == Request(verb, url, headers, data)
    {
      if addHeaders.Some? {
        headers := headers + addHeaders.value;
      }
      req := Request(verb, url, headers, data);
    }

    /** `api_request`: fails without a base URL; the URL is the override when there is one,
        else the base followed by the path. */
    method ApiRequest(verb: string, addHeaders: Option<map<string, string>>, path: Option<string>,
                      data: Option<string>, overrideUrl: Option<string>)
      returns (r: Result<Request, string>)
      modifies this`headers
      ensures r.Failure? <==> base == ""
      ensures r.Failure? ==> headers == old(headers)
      ensures r.Success? ==> headers == (if addHeaders.Some? then old(headers) + addHeaders.value else old(headers))
      ensures r.Success? ==> r.value.url == (if overrideUrl.Some? then overrideUrl.value else base + PathText(path))
      ensures r.Success? ==> r.value == Request(verb, r.value.url, headers, data)
    {
      if base == "" {
        return Failure("The server's base URL is not defined");
      }
      var url := if overrideUrl.Some? then overrideUrl.value else base + PathText(path);
      var req := BaseRequest(verb, addHeaders, url, data);
      r := Success(req);
    }

    /** `trial_request`: the trial endpoint with `{id}` replaced by the id, and the trial
        headers merged in. */
    method TrialRequest(trialId: string) returns (r: Result<Request, string>)
      modifies this`headers
      ensures EndpointParts(trialEndpoint).Failure? || base == "" ==> r.Failure? && headers == old(headers)
      ensures EndpointParts(trialEndpoint).Success? && base != "" ==>
        var parts := EndpointParts(trialEndpoint).value;
        && headers == old(headers) + trialHeaders
        && r == Success(Request(parts.0, base + Strings.ReplaceAll(parts.1, "{id}", trialId), headers, None))
    {
      var parts := EndpointParts(trialEndpoint);
      if parts.Failure? {
        return Failure("Trial method and/or API endpoint is not defined");
      }
      var (verb, api) := parts.value;
      r := ApiRequest(verb, Some(trialHeaders), Some(Strings.ReplaceAll(api, "{id}", trialId)), None, None);
    }

    /** `search_prepare_parts` of the base server: `countries` is deleted from the caller's
        own dictionary, then every remaining parameter becomes a term; there is no body. */
    method SearchPrepareParts(path: string, params: ParamDict) returns (p: string, data: Option<string>)
      requires params.Valid() && TextValuesBut(params.vals, "countries")
      modifies params
      ensures params.Valid()
      ensures params.keys == Without(old(params.keys), "countries")
      ensures params.vals == old(params.vals) - {"countries"}
      ensures p == BaseSearchPath(path, old(params.keys), old(params.vals)) && data.None?
    {
      if "countries" in params.vals {
        params.Delete("countries");
      } else {
        WithoutFacts(params.keys, "countries");
      }
      var keys, vals := params.keys, params.vals;
      var par := AppendParamTerms([], keys, vals);
      assert par == Terms(TextPairs(keys, vals));
      RestPairsAgree(keys, vals, old(params.vals));
      p := path + "?" + Strings.Join("&", par);
      data := None;
    }

    /** `search_request` of the base server: with an override URL no path or body is
        prepared and the parameters are left alone. */
    method SearchRequest(params: ParamDict?, overrideUrl: Option<string>) returns (r: Result<Request, string>)
      requires overrideUrl.None? ==> params != null && params.Valid() && TextValuesBut(params.vals, "countries")
      modifies this`headers, params
      ensures EndpointParts(searchEndpoint).Failure? || base == "" ==> r.Failure? && headers == old(headers)
      ensures overrideUrl.Some? && params != null ==> params.keys == old(params.keys) && params.vals == old(params.vals)
      ensures EndpointParts(searchEndpoint).Failure? && params != null ==>
        params.keys == old(params.keys) && params.vals == old(params.vals)
      ensures EndpointParts(searchEndpoint).Success? && overrideUrl.None? ==>
        params.keys == Without(old(params.keys), "countries") && params.vals == old(params.vals) - {"countries"}
      ensures EndpointParts(searchEndpoint).Success? && base != "" ==>
        var parts := EndpointParts(searchEndpoint).value;
        && headers == old(headers) + searchHeaders
        && r.Success? && r.value.verb == parts.0 && r.value.headers == headers && r.value.body.None?
        && (overrideUrl.Some? ==> r.value.url == overrideUrl.value)
        && (overrideUrl.None? ==> r.value.url == base + BaseSearchPath(parts.1, old(params.keys), old(params.vals)))
    {
      var parts := EndpointParts(searchEndpoint);
      if parts.Failure? {
        return Failure("Search method and/or API endpoint is not defined");
      }
      var (verb, api) := parts.value;
      var path: Option<string> := None;
      var data: Option<string> := None;
      if overrideUrl.None? {
        var p;
        p, data := SearchPrepareParts(api, params);
        path := Some(p);
      }
      r := ApiRequest(verb, Some(searchHeaders), path, data, overrideUrl);
    }

    /** A trial made from the result `raw`, its identifier under `id`. */
    predicate BuiltFrom(t: Trial, raw: map<string, Value>, render: string -> string)
      requires RecordShaped(raw)
      reads t
    {
      t.id == Get(raw, "id") && t.attrs == Normalized(raw, render) && t.Valid()
    }

    /** `search_process_response` of the base server: one trial per result, in order, with
        the result's `id`; `meta` passed through; never a next page. */
    method SearchProcessResponse(response: map<string, Value>, render: string -> string)
      returns (trials: seq<Trial>, meta: Value, more: Option<Request>)
      requires ResultsShaped(Get(response, "results"))
      ensures meta == Get(response, "meta") && more.None?
      ensures var results := ResultList(Get(response, "results"));
        && |trials| == |results|
        && forall i :: 0 <= i < |results| ==>
             fresh(trials[i])
             && trials[i].id == Get(results[i].fields, "id")
             && trials[i].attrs == Normalized(results[i].fields, render)
             && trials[i].Valid()
    {
      meta := Get(response, "meta");
      var results := ResultList(Get(response, "results"));
      trials := [];
      var i := 0;
      while i < |results|
        invariant 0 <= i <= |results| && |trials| == i
        invariant forall j :: 0 <= j < i ==> fresh(trials[j]) && BuiltFrom(trials[j], results[j].fields, render)
      {
        var trial := new Trial(Get(results[i].fields, "id"), results[i].fields, render);
        trials := trials + [trial];
        i := i + 1;
      }
      more := None;
    }
  }
}
