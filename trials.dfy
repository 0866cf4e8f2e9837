/** `Trial` (trial.py:22-231): a registry record whose derived fields the constructor
    fills in place, and the views the API builds from it. */
module Trials {
  import opened Json
  import Seqs
  import Strings
  import Contacts
  import opened Locations
  import opened Records
  import Keywords
  import Ranking

  /** The keys `for_api` copies from `as_json` when their value is truthy. */
  const ApiKeys: seq<string> := [
    "_id", "title", "brief_summary", "keyword", "source", "interventions", "phases",
    "condition", "primary_outcome", "secondary_outcome", "arm_group"]

  /** The sites of a record: one `TrialLocation` per entry of `location`, when it is set. */
  function SitesOf(m: map<string, Value>): (sites: Option<seq<TrialLocation>>)
    requires LocationListShaped(m)
    ensures sites.Some? <==> Get(m, "location").Arr?
    ensures sites.Some? ==> |sites.value| == |Get(m, "location").items|
    ensures sites.Some? ==> forall i :: 0 <= i < |sites.value| ==>
      sites.value[i] == NewLocation(Get(m, "location").items[i].fields)
  {
    var v := Get(m, "location");
    if v.Arr? then
      Some(seq(|v.items|, i requires 0 <= i < |v.items| => NewLocation(v.items[i].fields)))
    else None
  }

  /** The candidates of `locations_closest_to`, in input order: every site, or only the
      open ones, each with its distance. */
  function Candidates(items: seq<Value>, distance: map<string, Value> -> real, openOnly: bool): seq<Ranking.Ranked>
    requires forall i :: 0 <= i < |items| ==> items[i].Obj? && LocationShaped(items[i].fields)
  {
    if items == [] then []
    else
      var last := items[|items| - 1].fields;
      var loc := NewLocation(last);
      Candidates(items[..|items| - 1], distance, openOnly)
      + (if !openOnly || IsOpen(loc) then [Ranking.Ranked(loc, distance(last))] else [])
  }

  /** With `open_only` every candidate is open; without it there is one candidate per site,
      in input order. */
  lemma {:induction false} CandidatesFacts(items: seq<Value>, distance: map<string, Value> -> real, openOnly: bool)
    requires forall i :: 0 <= i < |items| ==> items[i].Obj? && LocationShaped(items[i].fields)
    ensures openOnly ==> forall i :: 0 <= i < |Candidates(items, distance, openOnly)| ==>
      IsOpen(Candidates(items, distance, openOnly)[i].loc)
    ensures !openOnly ==> |Candidates(items, distance, openOnly)| == |items|
    ensures !openOnly ==> forall i :: 0 <= i < |items| ==>
      Candidates(items, distance, openOnly)[i] ==
        Ranking.Ranked(NewLocation(items[i].fields), distance(items[i].fields))
    decreases |items|
  {
    if items != [] {
      CandidatesFacts(items[..|items| - 1], distance, openOnly);
    }
  }

  /** The raw site entries whose site is open, in input order. */
  function OpenEntries(items: seq<Value>): (r: seq<Value>)
    requires forall i :: 0 <= i < |items| ==> items[i].Obj? && LocationShaped(items[i].fields)
    ensures forall i :: 0 <= i < |r| ==> r[i].Obj? && LocationShaped(r[i].fields)
  {
    if items == [] then []
    else
      var last := items[|items| - 1];
      OpenEntries(items[..|items| - 1]) + (if IsOpen(NewLocation(last.fields)) then [last] else [])
  }

  /** An entry is kept iff it is an entry of the input whose site is open. */
  lemma {:induction false} OpenEntriesMembers(items: seq<Value>, v: Value)
    requires forall i :: 0 <= i < |items| ==> items[i].Obj? && LocationShaped(items[i].fields)
    ensures v in OpenEntries(items) <==> v in items && IsOpen(NewLocation(v.fields))
    decreases |items|
  {
    if items != [] {
      var init := items[..|items| - 1];
      OpenEntriesMembers(init, v);
      assert items == init + [items[|items| - 1]];
    }
  }

  /** With `open_only` the candidates are exactly those of the open entries taken without
      the filter: every open site is kept, in input order, with its own distance. */
  lemma {:induction false} OpenCandidates(items: seq<Value>, distance: map<string, Value> -> real)
    requires forall i :: 0 <= i < |items| ==> items[i].Obj? && LocationShaped(items[i].fields)
    ensures Candidates(items, distance, true) == Candidates(OpenEntries(items), distance, false)
    decreases |items|
  {
    if items != [] {
      var init, last := items[..|items| - 1], items[|items| - 1];
      OpenCandidates(init, distance);
      var open := OpenEntries(init);
      if IsOpen(NewLocation(last.fields)) {
        var ext := open + [last];
        assert ext[..|ext| - 1] == open;
        assert OpenEntries(items) == ext;
      } else {
        assert OpenEntries(items) == open;
      }
    }
  }

  /** The truthy values of `api` under the keys of `keys`. */
  function Allowlisted(api: map<string, Value>, keys: seq<string>): map<string, Value>
  {
    if keys == [] then map[]
    else
      var last := keys[|keys| - 1];
      var js := Allowlisted(api, keys[..|keys| - 1]);
      if Truthy(Get(api, last)) then js[last := Get(api, last)] else js
  }

  /** `Allowlisted` holds exactly the listed keys with a truthy value, and their values. */
  lemma {:induction false} AllowlistedFacts(api: map<string, Value>, keys: seq<string>)
    ensures forall k :: k in Allowlisted(api, keys) <==> k in keys && Truthy(Get(api, k))
    ensures forall k :: k in Allowlisted(api, keys) ==> Allowlisted(api, keys)[k] == Get(api, k)
    decreases |keys|
  {
    if keys != [] {
      var init := keys[..|keys| - 1];
      AllowlistedFacts(api, init);
      assert keys == init + [keys[|keys| - 1]];
    }
  }

  /** The loop of `for_api` over the allowlist: the listed keys whose value is truthy. */
  method PickTruthy(api: map<string, Value>, keys: seq<string>) returns (js: map<string, Value>)
    ensures forall k :: k in js <==> k in keys && Truthy(Get(api, k))
    ensures forall k :: k in js ==> js[k] == Get(api, k)
  {
    js := map[];
    var i := 0;
    while i < |keys|
      invariant 0 <= i <= |keys|
      invariant js == Allowlisted(api, keys[..i])
    {
      assert keys[..i + 1][..i] == keys[..i];
      var val := Get(api, keys[i]);
      if Truthy(val) {
        js := js[keys[i] := val];
      }
      i := i + 1;
    }
    assert keys[..i] == keys;
    AllowlistedFacts(api, keys);
  }

  /** The keys `for_api` adds itself are not on the allowlist. */
  lemma ApiKeysApart()
    ensures "eligibility" !in ApiKeys && "locations" !in ApiKeys
  {
  }

  /** The sites built from a shaped record have shaped contacts. */
  lemma SitesShaped(m: map<string, Value>)
    requires LocationListShaped(m) && SitesOf(m).Some?
    ensures forall i :: 0 <= i < |SitesOf(m).value| ==>
      Contacts.ContactShaped(SitesOf(m).value[i].contact)
      && Contacts.ContactShaped(SitesOf(m).value[i].contactBackup)
  {
    var items := Get(m, "location").items;
    forall i | 0 <= i < |SitesOf(m).value|
      ensures Contacts.ContactShaped(SitesOf(m).value[i].contact)
      && Contacts.ContactShaped(SitesOf(m).value[i].contactBackup)
    {
      assert LocationShaped(items[i].fields);
    }
  }

  /** The sorted, truncated candidates are sorted, and open when every candidate is. */
  lemma RankedFacts(cands: seq<Ranking.Ranked>, limit: int, openOnly: bool)
    requires openOnly ==> forall i :: 0 <= i < |cands| ==> IsOpen(cands[i].loc)
    ensures Ranking.Sorted(Ranking.Truncate(Ranking.SortByDistance(cands), limit))
    ensures openOnly ==> forall i :: 0 <= i < |Ranking.Truncate(Ranking.SortByDistance(cands), limit)| ==>
      IsOpen(Ranking.Truncate(Ranking.SortByDistance(cands), limit)[i].loc)
  {
    var sorted := Ranking.SortByDistance(cands);
    Ranking.TruncateSorted(sorted, limit);
    if openOnly {
      forall i | 0 <= i < |sorted| ensures IsOpen(sorted[i].loc) {
        assert sorted[i] in multiset(cands);
      }
    }
  }

  /** One more site adds its candidate, when it qualifies. */
  lemma CandidatesSnoc(items: seq<Value>, i: nat, distance: map<string, Value> -> real, openOnly: bool)
    requires i < |items|
    requires forall k :: 0 <= k < |items| ==> items[k].Obj? && LocationShaped(items[k].fields)
    ensures var loc := NewLocation(items[i].fields);
      Candidates(items[..i + 1], distance, openOnly) == Candidates(items[..i], distance, openOnly)
        + (if !openOnly || IsOpen(loc) then [Ranking.Ranked(loc, distance(items[i].fields))] else [])
  {
    assert items[..i + 1][..i] == items[..i];
  }

  /** The ranked candidates of a list of sites are sorted, and open when only open ones are
      asked for; they are a prefix of the sorted candidates, at most `limit` long when
      `limit > 0`, and all of them otherwise. */
  lemma ClosestFacts(items: seq<Value>, distance: map<string, Value> -> real, limit: int, openOnly: bool)
    requires forall i :: 0 <= i < |items| ==> items[i].Obj? && LocationShaped(items[i].fields)
    ensures var sorted := Ranking.SortByDistance(Candidates(items, distance, openOnly));
      var r := Ranking.Truncate(sorted, limit);
      && Ranking.Sorted(r) && (openOnly ==> forall i :: 0 <= i < |r| ==> IsOpen(r[i].loc))
      && |r| <= |sorted| && r == sorted[..|r|]
      && (limit > 0 ==> |r| <= limit)
      && (limit <= 0 ==> r == sorted)
      && (|r| < |sorted| ==> |r| == limit)
  {
    CandidatesFacts(items, distance, openOnly);
    RankedFacts(Candidates(items, distance, openOnly), limit, openOnly);
  }

  /** One more entry adds its type, when it declares one. */
  lemma TypesOfSnoc(items: seq<Value>, i: nat)
    requires i < |items|
    requires forall k :: 0 <= k < |items| ==> items[k].Obj? && TextOrNull(Get(items[k].fields, "intervention_type"))
    ensures var t := Get(items[i].fields, "intervention_type");
      TypesOf(items[..i + 1]) == TypesOf(items[..i]) + (if Truthy(t) then [t.s] else [])
  {
    assert items[..i + 1][..i] == items[..i];
  }

  /** The sites as `for_api` lists them. */
  function SitesForApi(locs: seq<TrialLocation>, trial: map<string, Value>): (r: seq<Value>)
    requires forall i :: 0 <= i < |locs| ==>
      Contacts.ContactShaped(locs[i].contact) && Contacts.ContactShaped(locs[i].contactBackup)
    requires OverallContactsShaped(trial)
    ensures |r| == |locs|
    ensures forall i :: 0 <= i < |locs| ==> r[i] == Obj(LocationForApi(locs[i], trial))
  {
    seq(|locs|, i requires 0 <= i < |locs| => Obj(LocationForApi(locs[i], trial)))
  }

  class Trial {
    /** The registry identifier the trial was created with. */
    const id: Value
    /** The record's attributes, the derived ones included. */
    var attrs: map<string, Value>
    /** The `TrialLocation` list, unset until built. */
    var locations: Option<seq<TrialLocation>>

    /** The attributes keep the raw record's shape and the sites are those of the record. */
    predicate Valid()
      reads this
    {
      RecordShaped(attrs) && locations == SitesOf(attrs)
    }

    /** `Trial(nct, json_dict)`: every derived field computed once, in the source's order.
        `render` is the Markdown conversion and its `<li><p>` clean-up. */
    constructor (nct: Value, raw: map<string, Value>, render: string -> string)
      requires RecordShaped(raw)
      ensures id == nct
      ensures attrs == Normalized(raw, render)
      ensures locations == SitesOf(raw)
      ensures Valid()
    {
      id := nct;
      attrs := raw;
      locations := None;
      new;
      TitleStepKeeps(raw);
      ProcessTitle();
      InterventionsStepKeeps(attrs);
      ProcessInterventions();
      PhasesStepKeeps(attrs);
      ProcessPhases();
      LocationKept(raw, render);
      ProcessLocations();
      NormalizedShape(raw, render);
      ParseEligibility(render);
    }

    /** `process_title`. */
    method ProcessTitle()
      requires TitleShaped(attrs)
      modifies this
      ensures attrs == TitleStep(old(attrs)) && locations == old(locations)
    {
      if !Truthy(Get(attrs, "title")) {
        var title := Get(attrs, "brief_title");
        if !Truthy(title) {
          title := Get(attrs, "official_title");
        }
        var acronym := Get(attrs, "acronym");
        if Truthy(acronym) {
          if Truthy(title) {
            title := Str(acronym.s + ": " + title.s);
          } else {
            title := acronym;
          }
        }
        attrs := attrs["title" := title];
      }
    }

    /** `process_interventions`: the set of declared types, built entry by entry. */
    method ProcessInterventions()
      requires InterventionShaped(attrs)
      modifies this
      ensures attrs == InterventionsStep(old(attrs)) && locations == old(locations)
    {
      if Get(attrs, "interventions") == Null {
        var types: seq<string> := [];
        var listed := Get(attrs, "intervention");
        if listed != Null {
          var items := listed.items;
          var i := 0;
          while i < |items|
            invariant 0 <= i <= |items|
            invariant types == Seqs.Dedup(TypesOf(items[..i]))
            invariant attrs == old(attrs) && locations == old(locations)
          {
            var t := Get(items[i].fields, "intervention_type");
            TypesOfSnoc(items, i);
            if Truthy(t) {
              Seqs.DedupSnoc(TypesOf(items[..i]), t.s);
              types := Seqs.AddDistinct(types, t.s);
            } else {
              assert TypesOf(items[..i + 1]) == TypesOf(items[..i]);
            }
            i := i + 1;
          }
          assert items[..i] == items;
        }
        if |types| == 0 {
          types := ["Observational"];
        }
        attrs := attrs["interventions" := Arr(Strs(types))];
      }
    }

    /** `process_phases`. */
    method ProcessPhases()
      requires PhaseShaped(attrs)
      modifies this
      ensures attrs == PhasesStep(old(attrs)) && locations == old(locations)
    {
      if Get(attrs, "phases") == Null {
        var phase := Get(attrs, "phase");
        var phases: seq<string>;
        if Truthy(phase) && phase.s != "N/A" {
          phases := Seqs.Dedup(Strings.Split(phase.s, '/'));
        } else {
          phases := ["N/A"];
        }
        attrs := attrs["phases" := Arr(Strs(phases))];
      }
    }

    /** `process_locations`: one site per entry of `location`, appended in order. */
    method ProcessLocations()
      requires LocationListShaped(attrs)
      modifies this
      ensures attrs == old(attrs)
      ensures old(locations).None? ==> locations == SitesOf(attrs)
      ensures old(locations).Some? ==> locations == old(locations)
    {
      var listed := Get(attrs, "location");
      if locations.None? && listed != Null {
        var items := listed.items;
        var locs: seq<TrialLocation> := [];
        var i := 0;
        while i < |items|
          invariant 0 <= i <= |items|
          invariant |locs| == i
          invariant forall j :: 0 <= j < i ==> locs[j] == NewLocation(items[j].fields)
        {
          locs := locs + [NewLocation(items[i].fields)];
          i := i + 1;
        }
        assert locs == SitesOf(attrs).value;
        locations := Some(locs);
      }
    }

    /** `parse_eligibility`: `criteria` removed and `html` added in the eligibility object,
        which is also stored as `parsed_eligibility`. */
    method ParseEligibility(render: string -> string)
      requires EligibilityShaped(attrs)
      modifies this
      ensures attrs == EligibilityStep(old(attrs), render) && locations == old(locations)
    {
      if Get(attrs, "parsed_eligibility") == Null {
        var elig := Get(attrs, "eligibility");
        if elig.Obj? {
          var fields := elig.fields;
          if "criteria" in fields {
            var txt := Get(fields["criteria"].fields, "textblock");
            if Truthy(txt) {
              fields := fields["html" := Str(render(Eligibility.PreparedText(txt.s)))];
            }
            fields := fields - {"criteria"};
          }
          attrs := attrs["eligibility" := Obj(fields)]["parsed_eligibility" := Obj(fields)];
        } else {
          attrs := attrs["parsed_eligibility" := elig];
        }
      }
    }

    /** `as_json`: the attributes with the document id under `_id` and without the
        `locations` list, which holds objects rather than JSON. */
    function AsJson(): (js: map<string, Value>)
      reads this
      ensures "locations" !in js && "_id" in js && js["_id"] == id
      ensures forall k :: k != "_id" && k != "locations" ==> (k in js <==> k in attrs)
      ensures forall k :: k in js && k != "_id" ==> js[k] == attrs[k]
    {
      (attrs - {"locations"})["_id" := id]
    }

    /** `for_api`: the allowlisted keys whose value is truthy, the parsed eligibility when
        it is truthy, and the sites when they are built. */
    method ForApi() returns (js: map<string, Value>)
      requires Valid()
      ensures forall k :: k in js ==> k in ApiKeys || k == "eligibility" || k == "locations"
      ensures forall k :: k in ApiKeys ==>
        (k in js <==> Truthy(Get(AsJson(), k))) && (k in js ==> js[k] == Get(AsJson(), k))
      ensures "eligibility" in js <==> Truthy(Get(attrs, "parsed_eligibility"))
      ensures "eligibility" in js ==> js["eligibility"] == Get(attrs, "parsed_eligibility")
      ensures "locations" in js <==> locations.Some?
      ensures locations.Some? ==> js["locations"] == Arr(SitesForApi(locations.value, attrs))
    {
      js := PickTruthy(AsJson(), ApiKeys);
      ApiKeysApart();
      var parsed := Get(attrs, "parsed_eligibility");
      if Truthy(parsed) {
        js := js["eligibility" := parsed];
      }
      if locations.Some? {
        var locs := locations.value;
        SitesShaped(attrs);
        js := js["locations" := Arr(SitesForApi(locs, attrs))];
      }
    }

    /** `locations_closest_to`: the sites (only the open ones when `openOnly`), sorted
        stably by distance, at most `limit` of them when `limit > 0`. The distance of a
        site is a parameter here. */
    method LocationsClosestTo(distance: map<string, Value> -> real, limit: int, openOnly: bool)
      returns (closest: seq<Ranking.Ranked>)
      requires LocationListShaped(attrs)
      ensures var cands := if Get(attrs, "location").Arr?
                           then Candidates(Get(attrs, "location").items, distance, openOnly) else [];
        closest == Ranking.Truncate(Ranking.SortByDistance(cands), limit)
      ensures Ranking.Sorted(closest)
      ensures openOnly ==> forall i :: 0 <= i < |closest| ==> IsOpen(closest[i].loc)
      ensures limit > 0 ==> |closest| <= limit
    {
      closest := [];
      var listed := Get(attrs, "location");
      var items: seq<Value> := [];
      if listed != Null {
        items := listed.items;
        var i := 0;
        while i < |items|
          invariant 0 <= i <= |items|
          invariant closest == Candidates(items[..i], distance, openOnly)
        {
          var loc := NewLocation(items[i].fields);
          CandidatesSnoc(items, i, distance, openOnly);
          if !openOnly || IsOpen(loc) {
            closest := closest + [Ranking.Ranked(loc, distance(items[i].fields))];
          }
          i := i + 1;
        }
        assert items[..i] == items;
      }
      ClosestFacts(items, distance, limit, openOnly);
      closest := Ranking.SortByDistance(closest);
      if limit > 0 && |closest| > limit {
        closest := closest[..limit];
      }
    }

    /** `cleanup_keywords`: each keyword split on `;` plus whitespace, empty pieces
        skipped, trailing `,` and `.` (and the whitespace after them) removed. */
    method CleanupKeywords(keywords: seq<string>) returns (better: seq<string>)
      ensures better == Keywords.CleanedKeywords(keywords)
      ensures forall i :: 0 <= i < |better| ==>
        better[i] == [] || !Keywords.IsPunct(better[i][|better[i]| - 1])
    {
      better := [];
      var i := 0;
      while i < |keywords|
        invariant 0 <= i <= |keywords|
        invariant better == Keywords.CleanedKeywords(keywords[..i])
      {
        var pieces := Keywords.SplitKeyword(keywords[i]);
        ghost var before := better;
        var j := 0;
        while j < |pieces|
          invariant 0 <= j <= |pieces|
          invariant better == before + Keywords.CleanedPieces(pieces[..j])
        {
          assert pieces[..j + 1][..j] == pieces[..j];
          if pieces[j] != "" {
            better := better + [Keywords.TrimTrailingPunct(pieces[j])];
          }
          j := j + 1;
        }
        assert pieces[..j] == pieces;
        assert keywords[..i + 1][..i] == keywords[..i];
        i := i + 1;
      }
      assert keywords[..i] == keywords;
      Keywords.CleanedKeywordsEndClean(keywords);
    }
  }
}
