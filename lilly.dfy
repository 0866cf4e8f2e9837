/** The LillyCOI v2 dialect (lillyserver.py:14-89): a server with its own authorization
    header, trial endpoint and search query, whose search envelope carries a total count, an
    `id_info` per result and a link to the next page; and the trial record with the search
    score. A Lilly server holds a `TrialServer` for the state it inherits there. */
module Lilly {
  import opened Json
  import Strings
  import Seqs
  import opened Records
  import opened Trials
  import opened TrialServers

  /** The base URL of the LillyCOI data service. */
  const LillyBase := "https://data.lillycoi.com/"
  /** The trial endpoint of the v2 API. */
  const LillyTrialEndpoint := "GET /trial/nct/{id}"
  /** The results asked for per page. */
  const BatchSize: nat := 50

  /** The pair the recruiting flag stands for. */
  const OpenStudies := ("overall_status", "Open Studies")

  /** The keys the Lilly search handles itself: `countries` when it is set, `recruiting`
      when it is truthy. */
  function Handled(vals: map<string, Value>): set<string>
  {
    (if Get(vals, "countries") != Null then {"countries"} else {})
    + (if Truthy(Get(vals, "recruiting")) then {"recruiting"} else {})
  }

  /** Search parameters the Lilly search accepts: `countries` unset or a list of names, and
      text for every other parameter it passes on. */
  predicate LillyShaped(vals: map<string, Value>)
  {
    var cs := Get(vals, "countries");
    && (cs.Null? || (cs.Arr? && forall i :: 0 <= i < |cs.items| ==> cs.items[i].Str?))
    && forall k :: k in vals && k !in Handled(vals) ==> vals[k].Str?
  }

  /** The parameters passed on as they are, in order. */
  function PassedOn(keys: seq<string>, vals: map<string, Value>): (rest: seq<string>)
    ensures forall k :: k in rest <==> k in keys && k !in Handled(vals)
    ensures Seqs.Distinct(keys) ==> Seqs.Distinct(rest)
  {
    var k1 := if Get(vals, "countries") != Null then Without(keys, "countries") else keys;
    WithoutFacts(keys, "countries");
    WithoutFacts(k1, "recruiting");
    if Truthy(Get(vals, "recruiting")) then Without(k1, "recruiting") else k1
  }

  /** `country1=…` through `countryN=…`, numbered from `n`. */
  function CountryPairs(cs: seq<Value>, n: nat): seq<(string, string)>
    requires forall i :: 0 <= i < |cs| ==> cs[i].Str?
  {
    seq(|cs|, i requires 0 <= i < |cs| => ("country" + Strings.NatToString(n + i), cs[i].s))
  }

  /** The pairs of a Lilly search, in the order of its terms: the recruiting filter first,
      then the countries, then every other parameter. */
  function LillyPairs(keys: seq<string>, vals: map<string, Value>): seq<(string, string)>
    requires vals.Keys == set k | k in keys
    requires LillyShaped(vals)
  {
    var cs := Get(vals, "countries");
    var rest := PassedOn(keys, vals);
    assert forall i | 0 <= i < |rest| :: rest[i] in rest;
    (if Truthy(Get(vals, "recruiting")) then [OpenStudies] else [])
    + (if cs != Null then CountryPairs(cs.items, 1) else [])
    + TextPairs(rest, vals)
  }

  /** The path of a Lilly search: the page size first, then the terms. */
  function LillySearchPath(path: string, batch: nat, keys: seq<string>, vals: map<string, Value>): string
    requires vals.Keys == set k | k in keys
    requires LillyShaped(vals)
  {
    path + "?size=" + Strings.NatToString(batch) + "&" + Query(LillyPairs(keys, vals))
  }

  /** The terms of two lists of pairs are the terms of each, in order. */
  lemma TermsAppend(a: seq<(string, string)>, b: seq<(string, string)>)
    ensures Terms(a + b) == Terms(a) + Terms(b)
  {
  }

  /** The recruiting filter's value is written `Open+Studies`. */
  lemma OpenStudiesValue(v: string)
    requires v == "Open Studies"
    ensures Plus(v) == "Open+Studies"
  {
    var a, b := "Open", "Studies";
    assert v == a + [' '] + b;
    Strings.ReplaceCharOne(a, ' ', "+", b);
  }

  /** The recruiting filter is written as the term `overall_status=Open+Studies`. */
  lemma OpenStudiesTerm(k: string, v: string)
    requires (k, v) == OpenStudies
    ensures Term(k, v) == "overall_status=Open+Studies"
  {
    OpenStudiesValue(v);
    RecruitingTermText(k, Plus(v));
  }

  /** The recruiting term's text, piece by piece. */
  lemma RecruitingTermText(k: string, p: string)
    requires k == "overall_status" && p == "Open+Studies"
    ensures k + "=" + p == "overall_status=Open+Studies"
  {
  }

  /** The page size is written in decimal: 50 as `50`. */
  lemma BatchSizeText()
    ensures Strings.NatToString(BatchSize) == "50"
  {
    assert Strings.NatToString(5) == "5";
  }

  /** A query led by a `size` term reads back as the size followed by the pairs. */
  lemma SizeQueryDecodes(n: string, pairs: seq<(string, string)>)
    requires forall i :: 0 <= i < |n| ==> '0' <= n[i] <= '9'
    requires pairs != [] && Encodable(pairs)
    ensures DecodeQuery("size=" + n + "&" + Query(pairs)) == [("size", n)] + pairs
  {
    var all := [("size", n)] + pairs;
    Strings.ReplaceCharAbsent(n, ' ', "+");
    assert Term("size", n) == "size=" + n;
    TermsAppend([("size", n)], pairs);
    assert Terms(all)[1..] == Terms(pairs);
    assert Query(all) == "size=" + n + "&" + Query(pairs);
    assert Encodable(all);
    QueryRoundTrip(all);
  }

  /** The query of a Lilly search reads back as the page size followed by the search pairs,
      when there is at least one pair and all of them are encodable. */
  lemma LillyQueryDecodes(batch: nat, keys: seq<string>, vals: map<string, Value>)
    requires vals.Keys == set k | k in keys
    requires LillyShaped(vals)
    requires LillyPairs(keys, vals) != [] && Encodable(LillyPairs(keys, vals))
    ensures DecodeQuery("size=" + Strings.NatToString(batch) + "&" + Query(LillyPairs(keys, vals)))
      == [("size", Strings.NatToString(batch))] + LillyPairs(keys, vals)
  {
    SizeQueryDecodes(Strings.NatToString(batch), LillyPairs(keys, vals));
  }

  /** A query with the `size` term alone still ends in `&`, and so reads back with one
      empty pair after the size. */
  lemma SizeOnlyQueryDecodes(n: string)
    requires forall i :: 0 <= i < |n| ==> '0' <= n[i] <= '9'
    ensures DecodeQuery("size=" + n + "&" + Query([])) == [("size", n), ("", "")]
  {
    var head := "size=" + n;
    var q := "size=" + n + "&" + Query([]);
    assert Query([]) == "";
    assert q == head + ['&'] + "";
    assert '&' !in head;
    Strings.SplitAtFirstSep(head, '&', "");
    var ts := Strings.Split(q, '&');
    assert ts == [head, ""];
    Strings.SplitFirstAt("size", '=', n);
    assert "size" + ['='] + n == head;
    Strings.ReplaceCharAbsent(n, '+', " ");
    assert ParseTerm(ts[0]) == ("size", n);
    assert ParseTerm(ts[1]) == ("", "");
  }

  /** With no pair left, the Lilly query still ends in `&`, so it reads back as the page
      size followed by one empty pair. */
  lemma LillyEmptyQueryDecodes(batch: nat, keys: seq<string>, vals: map<string, Value>)
    requires vals.Keys == set k | k in keys
    requires LillyShaped(vals)
    requires LillyPairs(keys, vals) == []
    ensures var n := Strings.NatToString(batch);
      DecodeQuery("size=" + n + "&" + Query(LillyPairs(keys, vals))) == [("size", n), ("", "")]
  {
    SizeOnlyQueryDecodes(Strings.NatToString(batch));
  }

  /** Every parameter the Lilly search does not handle itself reaches the query with its
      value. */
  lemma LillyKeepsParams(keys: seq<string>, vals: map<string, Value>, k: string)
    requires vals.Keys == set k | k in keys
    requires LillyShaped(vals)
    requires k in vals && k !in Handled(vals)
    ensures (k, vals[k].s) in LillyPairs(keys, vals)
  {
    var rest := PassedOn(keys, vals);
    assert k in rest;
    var j :| 0 <= j < |rest| && rest[j] == k;
    var tp := TextPairs(rest, vals);
    assert tp[j] == (k, vals[k].s);
    assert (k, vals[k].s) in tp;
  }

  /** The `score` of a record's `_meta` object, null without one. */
  function ScoreOf(raw: map<string, Value>): Value
    requires "_meta" !in raw || raw["_meta"].Obj?
  {
    if "_meta" in raw then Get(raw["_meta"].fields, "score") else Null
  }

  /** `result.get('id_info') or {}` read for `nct_id`. */
  function LillyId(result: map<string, Value>): Value
    requires !Truthy(Get(result, "id_info")) || Get(result, "id_info").Obj?
  {
    var info := Get(result, "id_info");
    if Truthy(info) then Get(info.fields, "nct_id") else Null
  }

  /** A Lilly result: a record with an `id_info` object (or none) and a `_meta` object (or
      none). */
  predicate LillyResultShaped(v: Value)
  {
    && v.Obj? && RecordShaped(v.fields)
    && (!Truthy(Get(v.fields, "id_info")) || Get(v.fields, "id_info").Obj?)
    && ("_meta" !in v.fields || v.fields["_meta"].Obj?)
  }

  /** `results` is falsy or a list of Lilly results. */
  predicate LillyResultsShaped(v: Value)
  {
    !Truthy(v) || (v.Arr? && forall i :: 0 <= i < |v.items| ==> LillyResultShaped(v.items[i]))
  }

  /** `_links` and its `next` are objects where present, and `href` is text or null. */
  predicate LinksShaped(ret: map<string, Value>)
  {
    "_links" !in ret || (ret["_links"].Obj? &&
      var links := ret["_links"].fields;
      "next" !in links || (links["next"].Obj? && TextOrNull(Get(links["next"].fields, "href"))))
  }

  /** `ret.get('_links', {}).get('next', {}).get('href')`. */
  function NextLink(ret: map<string, Value>): Option<string>
    requires LinksShaped(ret)
  {
    var links := if "_links" in ret then ret["_links"].fields else map[];
    var next := if "next" in links then links["next"].fields else map[];
    var href := Get(next, "href");
    if href.Str? then Some(href.s) else None
  }

  /** `{'total': ret.get('total_count') or 0}`. */
  function LillyMeta(ret: map<string, Value>): Value
  {
    var total := Get(ret, "total_count");
    Obj(map["total" := if Truthy(total) then total else Num(0)])
  }

  /** A registry record with the search score Lilly attaches to it. */
  class LillyTrial {
    const trial: Trial
    /** `_meta.score` of the record, null when absent. */
    const score: Value

    /** `LillyTrial(nct, json_dict)`: the trial built as any other, plus the score. */
    constructor (nct: Value, raw: map<string, Value>, render: string -> string)
      requires RecordShaped(raw)
      requires "_meta" !in raw || raw["_meta"].Obj?
      ensures fresh(trial) && trial.id == nct && trial.attrs == Normalized(raw, render) && trial.Valid()
      ensures score == ScoreOf(raw)
    {
      trial := new Trial(nct, raw, render);
      score := ScoreOf(raw);
    }
  }

  /** The countries loop: `country1=…` through `countryN=…` with the running counter. */
  method CountryTerms(cs: seq<Value>) returns (par: seq<string>)
    requires forall i :: 0 <= i < |cs| ==> cs[i].Str?
    ensures par == Terms(CountryPairs(cs, 1))
  {
    par := [];
    var i := 1;
    var j := 0;
    while j < |cs|
      invariant 0 <= j <= |cs| && i == j + 1 && |par| == j
      invariant forall m :: 0 <= m < j ==> par[m] == Term("country" + Strings.NatToString(m + 1), cs[m].s)
    {
      par := par + ["country" + Strings.NatToString(i) + "=" + Plus(cs[j].s)];
      i := i + 1;
      j := j + 1;
    }
  }

  class LillyV2Server {
    /** The state a Lilly server shares with every trial server. */
    const server: TrialServer
    const batchSize: nat

    /** The Lilly settings on a server for `LillyBase`. */
    constructor (keySecret: string)
      ensures fresh(server) && batchSize == BatchSize
      ensures server.base == LillyBase && server.apiKey.None?
      ensures server.headers == map["Authorization" := "Basic " + keySecret]
      ensures server.trialEndpoint == LillyTrialEndpoint && server.searchEndpoint == DefaultSearchEndpoint
      ensures server.trialHeaders == map["Accept" := "application/json"]
      ensures server.searchHeaders == map["Accept" := "application/json"]
    {
      var s := new TrialServer(LillyBase, None);
      s.headers := map["Authorization" := "Basic " + keySecret];
      s.trialEndpoint := LillyTrialEndpoint;
      s.trialHeaders := map["Accept" := "application/json"];
      s.searchHeaders := map["Accept" := "application/json"];
      server := s;
      batchSize := BatchSize;
    }

    /** `LillyV2Server(key_secret)`: refused without a key. */
    static method Create(keySecret: Option<string>) returns (r: Result<LillyV2Server, string>)
      ensures r.Failure? <==> keySecret.None?
      ensures r.Success? ==> fresh(r.value) && fresh(r.value.server) && r.value.batchSize == BatchSize
      ensures r.Success? ==> r.value.server.headers == map["Authorization" := "Basic " + keySecret.value]
      ensures r.Success? ==> r.value.server.base == LillyBase && r.value.server.apiKey.None?
      ensures r.Success? ==>
        r.value.server.trialEndpoint == LillyTrialEndpoint && r.value.server.searchEndpoint == DefaultSearchEndpoint
      ensures r.Success? ==> r.value.server.trialHeaders == map["Accept" := "application/json"]
      ensures r.Success? ==> r.value.server.searchHeaders == map["Accept" := "application/json"]
    {
      if keySecret.None? {
        return Failure("You must provide the base64-encoded {key}:{secret} combination");
      }
      var s := new LillyV2Server(keySecret.value);
      r := Success(s);
    }

    /** `search_prepare_parts` of the Lilly server: refused without parameters; works on a
        copy, so the caller's dictionary is left alone; no body. */
    method SearchPrepareParts(path: string, params: ParamDict?) returns (r: Result<(string, Option<string>), string>)
      requires params != null ==> params.Valid() && LillyShaped(params.vals)
      ensures r.Failure? <==> params == null
      ensures r.Success? ==> r.value == (LillySearchPath(path, batchSize, params.keys, params.vals), None)
    {
      if params == null {
        return Failure("Must provide search parameters");
      }
      ghost var keys, vals := params.keys, params.vals;
      var par: seq<string> := [];
      var prms := params.Copy();
      var cs := Get(prms.vals, "countries");
      if cs != Null {
        par := CountryTerms(cs.items);
        prms.Delete("countries");
      }
      ghost var countries := par;
      ghost var midKeys, midVals := prms.keys, prms.vals;
      if Truthy(Get(prms.vals, "recruiting")) {
        par := ["overall_status=Open+Studies"] + par;
        prms.Delete("recruiting");
      }
      ghost var front := par;
      var ks, rest := prms.keys, prms.vals;
      HandledRemoved(keys, vals, midKeys, midVals, ks, rest);
      RemainingShaped(keys, vals, ks, rest);
      par := AppendParamTerms(par, ks, rest);
      r := Success((path + "?size=" + Strings.NatToString(batchSize) + "&" + Strings.Join("&", par), None));
      PrepareMatches(keys, vals, countries, front, ks, rest, par);
    }

    /** `search_request` of the Lilly server: the base steps with the Lilly query. */
    method SearchRequest(params: ParamDict?, overrideUrl: Option<string>) returns (r: Result<Request, string>)
      requires params != null ==> params.Valid() && LillyShaped(params.vals)
      modifies server`headers
      ensures (EndpointParts(server.searchEndpoint).Failure? || server.base == ""
               || (overrideUrl.None? && params == null))
        ==> r.Failure? && server.headers == old(server.headers)
      ensures (EndpointParts(server.searchEndpoint).Success? && server.base != ""
               && (overrideUrl.Some? || params != null))
        ==>
        var parts := EndpointParts(server.searchEndpoint).value;
        && server.headers == old(server.headers) + server.searchHeaders
        && r.Success? && r.value.verb == parts.0 && r.value.headers == server.headers && r.value.body.None?
        && (overrideUrl.Some? ==> r.value.url == overrideUrl.value)
        && (overrideUrl.None? ==>
              r.value.url == server.base + LillySearchPath(parts.1, batchSize, params.keys, params.vals))
    {
      var parts := EndpointParts(server.searchEndpoint);
      if parts.Failure? {
        return Failure("Search method and/or API endpoint is not defined");
      }
      var (verb, api) := parts.value;
      var path: Option<string> := None;
      var data: Option<string> := None;
      if overrideUrl.None? {
        var prepared := SearchPrepareParts(api, params);
        if prepared.Failure? {
          return Failure(prepared.error);
        }
        path := Some(prepared.value.0);
        data := prepared.value.1;
      }
      r := server.ApiRequest(verb, Some(server.searchHeaders), path, data, overrideUrl);
    }

    /** A Lilly trial made from `result`: its id from `id_info`, its score. */
    predicate BuiltFrom(t: LillyTrial, result: Value, render: string -> string)
      requires LillyResultShaped(result)
      reads t.trial
    {
      && t.trial.id == LillyId(result.fields)
      && t.trial.attrs == Normalized(result.fields, render)
      && t.trial.Valid()
      && t.score == ScoreOf(result.fields)
    }

    /** `search_process_response` of the Lilly server: the total count (0 when absent), one
        trial per result with the id from `id_info`, and a GET of the next page when the
        envelope links one. */
    method SearchProcessResponse(response: map<string, Value>, render: string -> string)
      returns (trials: seq<LillyTrial>, meta: Value, more: Option<Request>)
      requires LillyResultsShaped(Get(response, "results")) && LinksShaped(response)
      modifies server`headers
      ensures meta == LillyMeta(response)
      ensures server.headers == old(server.headers)
      ensures more.Some? <==> NextLink(response).Some?
      ensures more.Some? ==> more.value == Request("GET", NextLink(response).value, server.headers, None)
      ensures var v := Get(response, "results");
        var results := if Truthy(v) then v.items else [];
        && |trials| == |results|
        && forall i :: 0 <= i < |results| ==>
             fresh(trials[i]) && fresh(trials[i].trial)
             && trials[i].trial.id == LillyId(results[i].fields)
             && trials[i].trial.attrs == Normalized(results[i].fields, render)
             && trials[i].trial.Valid()
             && trials[i].score == ScoreOf(results[i].fields)
    {
      var total := Get(response, "total_count");
      meta := Obj(map["total" := if Truthy(total) then total else Num(0)]);
      var v := Get(response, "results");
      var results := if Truthy(v) then v.items else [];
      trials := [];
      var i := 0;
      while i < |results|
        invariant 0 <= i <= |results| && |trials| == i
        invariant server.headers == old(server.headers)
        invariant forall j :: 0 <= j < i ==>
          fresh(trials[j]) && fresh(trials[j].trial) && BuiltFrom(trials[j], results[j], render)
      {
        var result := results[i].fields;
        var info := Get(result, "id_info");
        var idInfo := if Truthy(info) then info.fields else map[];
        var trial := new LillyTrial(Get(idInfo, "nct_id"), result, render);
        trials := trials + [trial];
        i := i + 1;
      }
      more := None;
      var links := if "_links" in response then response["_links"].fields else map[];
      var next := if "next" in links then links["next"].fields else map[];
      var moreLink := Get(next, "href");
      if moreLink != Null {
        var req := server.BaseRequest("GET", None, moreLink.s, None);
        more := Some(req);
      }
    }
  }

  /** After the handled keys are deleted, every key left is text-valued. */
  lemma RemainingShaped(keys: seq<string>, vals: map<string, Value>, ks: seq<string>, rest: map<string, Value>)
    requires LillyShaped(vals)
    requires rest.Keys == set k | k in ks
    requires forall k :: k in rest ==> k in vals && k !in Handled(vals) && rest[k] == vals[k]
    ensures forall i :: 0 <= i < |ks| ==> ks[i] in rest && rest[ks[i]].Str?
  {
    forall i | 0 <= i < |ks| ensures ks[i] in rest && rest[ks[i]].Str? {
      assert ks[i] in rest.Keys;
    }
  }

  /** Deleting `countries` when it is set, then `recruiting` when it is truthy, leaves the
      parameters passed on. */
  lemma HandledRemoved(keys: seq<string>, vals: map<string, Value>, midKeys: seq<string>,
                       midVals: map<string, Value>, restKeys: seq<string>, restVals: map<string, Value>)
    requires Get(vals, "countries") != Null ==> midKeys == Without(keys, "countries") && midVals == vals - {"countries"}
    requires Get(vals, "countries") == Null ==> midKeys == keys && midVals == vals
    requires Truthy(Get(midVals, "recruiting")) ==>
      restKeys == Without(midKeys, "recruiting") && restVals == midVals - {"recruiting"}
    requires !Truthy(Get(midVals, "recruiting")) ==> restKeys == midKeys && restVals == midVals
    ensures restVals == vals - Handled(vals)
    ensures restKeys == PassedOn(keys, vals)
  {
    assert Get(midVals, "recruiting") == Get(vals, "recruiting");
  }

  /** The terms `SearchPrepareParts` collects are those of `LillyPairs`. */
  lemma PrepareMatches(keys: seq<string>, vals: map<string, Value>, countries: seq<string>,
                       front: seq<string>, restKeys: seq<string>, restVals: map<string, Value>, par: seq<string>)
    requires vals.Keys == set k | k in keys
    requires LillyShaped(vals)
    requires countries == (if Get(vals, "countries") != Null then Terms(CountryPairs(Get(vals, "countries").items, 1)) else [])
    requires front == (if Truthy(Get(vals, "recruiting")) then ["overall_status=Open+Studies"] else []) + countries
    requires restKeys == PassedOn(keys, vals) && restVals == vals - Handled(vals)
    requires forall i :: 0 <= i < |restKeys| ==> restKeys[i] in restVals && restVals[restKeys[i]].Str?
    requires par == front + Terms(TextPairs(restKeys, restVals))
    ensures par == Terms(LillyPairs(keys, vals))
  {
    var cs := Get(vals, "countries");
    var rec: seq<(string, string)> := if Truthy(Get(vals, "recruiting")) then [OpenStudies] else [];
    var cps: seq<(string, string)> := if cs != Null then CountryPairs(cs.items, 1) else [];
    var tp := TextPairs(PassedOn(keys, vals), vals);
    assert LillyPairs(keys, vals) == rec + cps + tp;
    RestPairsAgree(restKeys, restVals, vals);
    RecruitingTerms(rec);
    ThreeTerms(rec, cps, tp);
  }

  /** The terms of the recruiting pair list. */
  lemma RecruitingTerms(rec: seq<(string, string)>)
    requires rec == [] || rec == [OpenStudies]
    ensures Terms(rec) == (if rec == [] then [] else ["overall_status=Open+Studies"])
  {
    if rec != [] {
      OpenStudiesTerm(rec[0].0, rec[0].1);
    }
  }

  /** The terms of three lists of pairs, in order. */
  lemma ThreeTerms(a: seq<(string, string)>, b: seq<(string, string)>, c: seq<(string, string)>)
    ensures Terms(a + b + c) == Terms(a) + Terms(b) + Terms(c)
  {
    TermsAppend(a, b);
    TermsAppend(a + b, c);
  }
}
