/** The fields a `Trial` derives from its raw registry record at construction
    (trial.py:48-132): the title, the intervention types, the phases and the prepared
    eligibility text. Each step is a function from the attribute map before it to the
    attribute map after it; `Trials.Trial` runs them in place. */
module Records {
  import opened Json
  import Strings
  import Seqs
  import Contacts
  import Locations
  import Eligibility

  /** The title sources are text or null (the source formats them with `%s`). */
  predicate TitleShaped(m: map<string, Value>)
  {
    TextOrNull(Get(m, "brief_title")) && TextOrNull(Get(m, "official_title"))
    && TextOrNull(Get(m, "acronym"))
  }

  /** `intervention` is null or a list of objects whose `intervention_type` is text or
      null (the source calls `.get` on each entry and puts the type in a set). */
  predicate InterventionShaped(m: map<string, Value>)
  {
    var v := Get(m, "intervention");
    v.Null? || (v.Arr? && forall i :: 0 <= i < |v.items| ==>
      v.items[i].Obj? && TextOrNull(Get(v.items[i].fields, "intervention_type")))
  }

  /** `phase` is text or null (the source splits it). */
  predicate PhaseShaped(m: map<string, Value>)
  {
    TextOrNull(Get(m, "phase"))
  }

  /** `location` is null or a list of site objects. */
  predicate LocationListShaped(m: map<string, Value>)
  {
    var v := Get(m, "location");
    v.Null? || (v.Arr? && forall i :: 0 <= i < |v.items| ==>
      v.items[i].Obj? && Locations.LocationShaped(v.items[i].fields))
  }

  /** `eligibility` is null or an object whose `criteria`, when present, is an object with
      a text or null `textblock`. */
  predicate EligibilityShaped(m: map<string, Value>)
  {
    var e := Get(m, "eligibility");
    e.Null? || (e.Obj? && ("criteria" in e.fields ==>
      e.fields["criteria"].Obj? && TextOrNull(Get(e.fields["criteria"].fields, "textblock"))))
  }

  /** The trial-wide contacts that `best_contact` falls back to. */
  predicate OverallContactsShaped(m: map<string, Value>)
  {
    Contacts.ContactShaped(Get(m, "overall_contact"))
    && Contacts.ContactShaped(Get(m, "overall_contact_backup"))
  }

  /** A raw record the constructor can process: the shapes above, and no `locations` value
      yet (the source only builds the site list when it is unset). */
  predicate RecordShaped(m: map<string, Value>)
  {
    && TitleShaped(m) && InterventionShaped(m) && PhaseShaped(m)
    && LocationListShaped(m) && EligibilityShaped(m) && OverallContactsShaped(m)
    && Get(m, "locations") == Null
  }

  // ---- title (trial.py:48-61) ----

  /** The title built when none is set: `brief_title`, else `official_title`, prefixed by
      a non-empty acronym as `ACR: title`, or the acronym alone when there is no title. */
  function DerivedTitle(m: map<string, Value>): Value
    requires TitleShaped(m)
  {
    var title := if Truthy(Get(m, "brief_title")) then Get(m, "brief_title") else Get(m, "official_title");
    var acronym := Get(m, "acronym");
    if Truthy(acronym) then
      if Truthy(title) then Str(acronym.s + ": " + title.s) else acronym
    else title
  }

  /** `process_title`. */
  function TitleStep(m: map<string, Value>): map<string, Value>
    requires TitleShaped(m)
  {
    if Truthy(Get(m, "title")) then m else m["title" := DerivedTitle(m)]
  }

  /** The title rules: a set title is kept; otherwise the brief title, else the official
      one, with a non-empty acronym in front or on its own; no other key changes. */
  lemma TitleRules(m: map<string, Value>)
    requires TitleShaped(m)
    ensures Truthy(Get(m, "title")) ==> TitleStep(m) == m
    ensures forall k :: k != "title" ==> Get(TitleStep(m), k) == Get(m, k)
    ensures !Truthy(Get(m, "title")) ==>
      var t, brief, official, acronym :=
        Get(TitleStep(m), "title"), Get(m, "brief_title"), Get(m, "official_title"), Get(m, "acronym");
      && (!Truthy(acronym) ==> t == (if Truthy(brief) then brief else official))
      && (Truthy(acronym) && Truthy(brief) ==> t == Str(acronym.s + ": " + brief.s))
      && (Truthy(acronym) && !Truthy(brief) && Truthy(official) ==> t == Str(acronym.s + ": " + official.s))
      && (Truthy(acronym) && !Truthy(brief) && !Truthy(official) ==> t == acronym)
  {
  }

  /** Deriving the title twice changes nothing more. */
  lemma TitleIdempotent(m: map<string, Value>)
    requires TitleShaped(m)
    ensures TitleShaped(TitleStep(m))
    ensures TitleStep(TitleStep(m)) == TitleStep(m)
  {
    if !Truthy(Get(m, "title")) {
      var m' := TitleStep(m);
      assert Get(m', "brief_title") == Get(m, "brief_title");
      assert Get(m', "official_title") == Get(m, "official_title");
      assert Get(m', "acronym") == Get(m, "acronym");
      assert DerivedTitle(m') == DerivedTitle(m);
      assert m'["title" := DerivedTitle(m')] == m';
    }
  }

  // ---- interventions (trial.py:79-93) ----

  /** The non-empty intervention types of the entries, in order, with repetitions. */
  function TypesOf(items: seq<Value>): seq<string>
    requires forall i :: 0 <= i < |items| ==> items[i].Obj? && TextOrNull(Get(items[i].fields, "intervention_type"))
  {
    if items == [] then []
    else
      var t := Get(items[|items| - 1].fields, "intervention_type");
      TypesOf(items[..|items| - 1]) + (if Truthy(t) then [Text(t)] else [])
  }

  /** `x` is among the types exactly when some entry declares it. */
  lemma {:induction false} TypesOfMembers(items: seq<Value>, x: string)
    requires forall i :: 0 <= i < |items| ==> items[i].Obj? && TextOrNull(Get(items[i].fields, "intervention_type"))
    ensures x in TypesOf(items) <==>
      x != "" && exists j | 0 <= j < |items| :: Get(items[j].fields, "intervention_type") == Str(x)
    decreases |items|
  {
    if items != [] {
      var init := items[..|items| - 1];
      TypesOfMembers(init, x);
      if x != "" && Get(items[|items| - 1].fields, "intervention_type") != Str(x) {
        if exists j | 0 <= j < |items| :: Get(items[j].fields, "intervention_type") == Str(x) {
          var j :| 0 <= j < |items| && Get(items[j].fields, "intervention_type") == Str(x);
          assert init[j] == items[j];
        }
      }
      if x in TypesOf(init) {
        var j :| 0 <= j < |init| && Get(init[j].fields, "intervention_type") == Str(x);
        assert items[j] == init[j];
      }
    }
  }

  /** The list the source stores: the distinct types, or `Observational` when there are
      none. */
  function InterventionTypes(v: Value): seq<string>
    requires v.Null? || (v.Arr? && forall i :: 0 <= i < |v.items| ==>
      v.items[i].Obj? && TextOrNull(Get(v.items[i].fields, "intervention_type")))
  {
    var types := if v.Arr? then Seqs.Dedup(TypesOf(v.items)) else [];
    if types == [] then ["Observational"] else types
  }

  /** `process_interventions`. */
  function InterventionsStep(m: map<string, Value>): map<string, Value>
    requires InterventionShaped(m)
  {
    if Get(m, "interventions") != Null then m
    else m["interventions" := Arr(Strs(InterventionTypes(Get(m, "intervention"))))]
  }

  /** The intervention rules: nothing changes when `interventions` is set; otherwise it
      becomes the distinct declared types, or exactly `["Observational"]` when no entry
      declares one. */
  lemma InterventionRules(m: map<string, Value>)
    requires InterventionShaped(m)
    ensures Get(m, "interventions") != Null ==> InterventionsStep(m) == m
    ensures forall k :: k != "interventions" ==> Get(InterventionsStep(m), k) == Get(m, k)
    ensures m.Keys <= InterventionsStep(m).Keys
    ensures Get(m, "interventions") == Null ==>
      var r := InterventionTypes(Get(m, "intervention"));
      var items := if Get(m, "intervention").Arr? then Get(m, "intervention").items else [];
      && Get(InterventionsStep(m), "interventions") == Arr(Strs(r))
      && Seqs.Distinct(r)
      && ((forall j :: 0 <= j < |items| ==> !Truthy(Get(items[j].fields, "intervention_type")))
            ==> r == ["Observational"])
      && ((exists j :: 0 <= j < |items| && Truthy(Get(items[j].fields, "intervention_type")))
            ==> forall x :: x in r <==>
                  x != "" && exists j | 0 <= j < |items| :: Get(items[j].fields, "intervention_type") == Str(x))
  {
    InterventionFrame(m);
    var v := Get(m, "intervention");
    if v.Arr? {
      var items := v.items;
      Seqs.DedupIsSet(TypesOf(items));
      Seqs.DedupEmpty(TypesOf(items));
      if exists j :: 0 <= j < |items| && Truthy(Get(items[j].fields, "intervention_type")) {
        var j :| 0 <= j < |items| && Truthy(Get(items[j].fields, "intervention_type"));
        TypesOfMembers(items, Get(items[j].fields, "intervention_type").s);
        forall x ensures x in InterventionTypes(v) <==>
          x != "" && exists j | 0 <= j < |items| :: Get(items[j].fields, "intervention_type") == Str(x)
        {
          TypesOfMembers(items, x);
        }
      } else if TypesOf(items) != [] {
        var x := TypesOf(items)[0];
        TypesOfMembers(items, x);
        assert false;
      }
    }
  }

  /** `process_interventions` writes `interventions` only. */
  lemma InterventionFrame(m: map<string, Value>)
    requires InterventionShaped(m)
    ensures Get(m, "interventions") != Null ==> InterventionsStep(m) == m
    ensures forall k :: k != "interventions" ==> Get(InterventionsStep(m), k) == Get(m, k)
    ensures m.Keys <= InterventionsStep(m).Keys
    ensures Get(m, "interventions") == Null ==>
      Get(InterventionsStep(m), "interventions") == Arr(Strs(InterventionTypes(Get(m, "intervention"))))
    ensures Get(InterventionsStep(m), "interventions") != Null
  {
  }

  // ---- phases (trial.py:95-105) ----

  /** The list the source stores: the distinct pieces of `phase` split on `/`, or
      `["N/A"]` when `phase` is empty, null or `N/A`. */
  function PhaseList(v: Value): seq<string>
    requires TextOrNull(v)
  {
    if Truthy(v) && v.s != "N/A" then Seqs.Dedup(Strings.Split(v.s, '/')) else ["N/A"]
  }

  /** `process_phases`. */
  function PhasesStep(m: map<string, Value>): map<string, Value>
    requires PhaseShaped(m)
  {
    if Get(m, "phases") != Null then m
    else m["phases" := Arr(Strs(PhaseList(Get(m, "phase"))))]
  }

  /** `process_phases` writes `phases` only, and sets it when it is unset. */
  lemma PhaseFrame(m: map<string, Value>)
    requires PhaseShaped(m)
    ensures forall k :: k != "phases" ==> Get(PhasesStep(m), k) == Get(m, k)
    ensures m.Keys <= PhasesStep(m).Keys
    ensures Get(PhasesStep(m), "phases") != Null
  {
  }

  /** The phase rules: nothing changes when `phases` is set; otherwise the distinct pieces
      of `phase`, or exactly `["N/A"]`. When the pieces are already distinct, joining the
      list with `/` gives `phase` back. */
  lemma PhaseRules(m: map<string, Value>)
    requires PhaseShaped(m)
    ensures Get(m, "phases") != Null ==> PhasesStep(m) == m
    ensures forall k :: k != "phases" ==> Get(PhasesStep(m), k) == Get(m, k)
    ensures m.Keys <= PhasesStep(m).Keys
    ensures Get(m, "phases") == Null ==>
      var phase, r := Get(m, "phase"), PhaseList(Get(m, "phase"));
      && Get(PhasesStep(m), "phases") == Arr(Strs(r))
      && Seqs.Distinct(r)
      && (!Truthy(phase) || phase.s == "N/A" ==> r == ["N/A"])
      && (Truthy(phase) && phase.s != "N/A" ==>
            && (forall x :: x in r <==> x in Strings.Split(phase.s, '/'))
            && (Seqs.Distinct(Strings.Split(phase.s, '/')) ==> Strings.Join("/", r) == phase.s))
  {
    var phase := Get(m, "phase");
    if Truthy(phase) && phase.s != "N/A" {
      var pieces := Strings.Split(phase.s, '/');
      Seqs.DedupIsSet(pieces);
      if Seqs.Distinct(pieces) {
        Seqs.DedupDistinct(pieces);
        Strings.JoinSplit(phase.s, '/');
      }
    }
  }

  // ---- eligibility (trial.py:114-132) ----

  /** The eligibility object after `parse_eligibility`: `html` added from the rendered
      text when the criteria text is non-empty, and `criteria` removed whenever present. */
  function ParsedEligibility(e: Value, render: string -> string): Value
    requires e.Null? || (e.Obj? && ("criteria" in e.fields ==>
      e.fields["criteria"].Obj? && TextOrNull(Get(e.fields["criteria"].fields, "textblock"))))
  {
    if e.Obj? && "criteria" in e.fields then
      var txt := Get(e.fields["criteria"].fields, "textblock");
      var fields := if Truthy(txt) then e.fields["html" := Str(render(Eligibility.PreparedText(txt.s)))]
                    else e.fields;
      Obj(fields - {"criteria"})
    else e
  }

  /** `parse_eligibility`. The source edits the `eligibility` object in place and stores the
      same object as `parsed_eligibility`, so both keys end up holding it. */
  function EligibilityStep(m: map<string, Value>, render: string -> string): map<string, Value>
    requires EligibilityShaped(m)
  {
    if Get(m, "parsed_eligibility") != Null then m
    else
      var e := Get(m, "eligibility");
      var parsed := ParsedEligibility(e, render);
      if e.Obj? then m["eligibility" := parsed]["parsed_eligibility" := parsed]
      else m["parsed_eligibility" := parsed]
  }

  /** `parse_eligibility` writes `eligibility` and `parsed_eligibility` only. */
  lemma EligibilityFrame(m: map<string, Value>, render: string -> string)
    requires EligibilityShaped(m)
    ensures forall k :: k != "eligibility" && k != "parsed_eligibility" ==>
      Get(EligibilityStep(m, render), k) == Get(m, k)
    ensures m.Keys <= EligibilityStep(m, render).Keys
  {
  }

  /** The eligibility rules: nothing changes once `parsed_eligibility` is set; otherwise
      `criteria` is gone, `html` is there exactly when it was or when the criteria text is
      non-empty, it holds the rendering of the prepared text, and no other key changes. */
  lemma EligibilityRules(m: map<string, Value>, render: string -> string)
    requires EligibilityShaped(m)
    ensures Get(m, "parsed_eligibility") != Null ==> EligibilityStep(m, render) == m
    ensures forall k :: k != "eligibility" && k != "parsed_eligibility" ==>
      Get(EligibilityStep(m, render), k) == Get(m, k)
    ensures m.Keys <= EligibilityStep(m, render).Keys
    ensures Get(m, "parsed_eligibility") == Null ==>
      var e, p := Get(m, "eligibility"), Get(EligibilityStep(m, render), "parsed_eligibility");
      && (e.Obj? ==> Get(EligibilityStep(m, render), "eligibility") == p)
      && (e.Null? ==> p == Null)
      && (e.Obj? ==>
            var hadCriteria := "criteria" in e.fields;
            var txt := if hadCriteria then Get(e.fields["criteria"].fields, "textblock") else Null;
            && p.Obj? && "criteria" !in p.fields
            && ("html" in p.fields <==> "html" in e.fields || (hadCriteria && Truthy(txt)))
            && (hadCriteria && Truthy(txt) ==>
                  p.fields["html"] == Str(render(Eligibility.PreparedText(txt.s))))
            && (forall k :: k != "criteria" && k != "html" ==> Get(p.fields, k) == Get(e.fields, k))
            && (!hadCriteria ==> p == e))
  {
  }

  /** Every derived field in construction order. */
  function Normalized(raw: map<string, Value>, render: string -> string): map<string, Value>
    requires RecordShaped(raw)
  {
    EligibilityStep(PhasesStep(InterventionsStep(TitleStep(raw))), render)
  }

  /** The keys the construction derives. */
  function DerivedKeys(): set<string>
  {
    {"title", "interventions", "phases", "eligibility", "parsed_eligibility"}
  }

  /** `m'` holds the same values as `m` under every key the shape constrains, the
      derived ones aside. */
  predicate SourcesAgree(m: map<string, Value>, m': map<string, Value>)
  {
    && Get(m', "brief_title") == Get(m, "brief_title")
    && Get(m', "official_title") == Get(m, "official_title")
    && Get(m', "acronym") == Get(m, "acronym")
    && Get(m', "intervention") == Get(m, "intervention")
    && Get(m', "phase") == Get(m, "phase")
    && Get(m', "location") == Get(m, "location")
    && Get(m', "overall_contact") == Get(m, "overall_contact")
    && Get(m', "overall_contact_backup") == Get(m, "overall_contact_backup")
    && Get(m', "locations") == Get(m, "locations")
  }

  /** Agreeing outside the derived keys is agreeing on the constrained ones. */
  lemma FrameAgrees(m: map<string, Value>, m': map<string, Value>)
    requires forall k :: k !in DerivedKeys() ==> Get(m', k) == Get(m, k)
    ensures SourcesAgree(m, m')
  {
  }

  /** A map that agrees with a shaped record outside the derived keys, and whose
      eligibility is shaped, is shaped. */
  lemma ShapeKept(m: map<string, Value>, m': map<string, Value>)
    requires RecordShaped(m) && EligibilityShaped(m')
    requires forall k :: k !in DerivedKeys() ==> Get(m', k) == Get(m, k)
    ensures RecordShaped(m')
  {
    FrameAgrees(m, m');
  }

  /** After `parse_eligibility` the eligibility is null or an object without criteria. */
  lemma EligibilityStepShaped(m: map<string, Value>, render: string -> string)
    requires EligibilityShaped(m)
    ensures EligibilityShaped(EligibilityStep(m, render))
    ensures Get(EligibilityStep(m, render), "parsed_eligibility") == Null ==>
      Get(EligibilityStep(m, render), "eligibility") == Null
  {
    EligibilityRules(m, render);
  }

  /** The steps leave the keys they do not derive alone, so a normalized record keeps the
      shape of the raw one. */
  lemma NormalizedShape(raw: map<string, Value>, render: string -> string)
    requires RecordShaped(raw)
    ensures RecordShaped(Normalized(raw, render))
    ensures forall k :: k !in DerivedKeys() ==> Get(Normalized(raw, render), k) == Get(raw, k)
  {
    var m1 := TitleStep(raw);
    TitleStepKeeps(raw);
    var m2 := InterventionsStep(m1);
    InterventionsStepKeeps(m1);
    var m3 := PhasesStep(m2);
    PhasesStepKeeps(m2);
    EligibilityRules(m3, render);
    EligibilityStepShaped(m3, render);
    ShapeKept(m3, Normalized(raw, render));
  }

  /** The steps never touch `location`, from which the sites are built. */
  lemma LocationKept(raw: map<string, Value>, render: string -> string)
    requires RecordShaped(raw)
    ensures Get(PhasesStep(InterventionsStep(TitleStep(raw))), "location") == Get(raw, "location")
    ensures Get(Normalized(raw, render), "location") == Get(raw, "location")
  {
    assert "location" !in DerivedKeys();
    NormalizedShape(raw, render);
    TitleStepKeeps(raw);
    InterventionsStepKeeps(TitleStep(raw));
    PhasesStepKeeps(InterventionsStep(TitleStep(raw)));
  }

  /** `process_title` keeps the record's shape and every key it does not derive. */
  lemma TitleStepKeeps(m: map<string, Value>)
    requires RecordShaped(m)
    ensures RecordShaped(TitleStep(m))
    ensures forall k :: k !in DerivedKeys() ==> Get(TitleStep(m), k) == Get(m, k)
  {
    TitleRules(m);
    assert EligibilityShaped(TitleStep(m)) by {
      assert Get(TitleStep(m), "eligibility") == Get(m, "eligibility");
    }
    ShapeKept(m, TitleStep(m));
  }

  /** `process_interventions` keeps the record's shape and every key it does not derive. */
  lemma InterventionsStepKeeps(m: map<string, Value>)
    requires RecordShaped(m)
    ensures RecordShaped(InterventionsStep(m))
    ensures forall k :: k !in DerivedKeys() ==> Get(InterventionsStep(m), k) == Get(m, k)
  {
    InterventionRules(m);
    assert EligibilityShaped(InterventionsStep(m)) by {
      assert Get(InterventionsStep(m), "eligibility") == Get(m, "eligibility");
    }
    ShapeKept(m, InterventionsStep(m));
  }

  /** `process_phases` keeps the record's shape and every key it does not derive. */
  lemma PhasesStepKeeps(m: map<string, Value>)
    requires RecordShaped(m)
    ensures RecordShaped(PhasesStep(m))
    ensures forall k :: k !in DerivedKeys() ==> Get(PhasesStep(m), k) == Get(m, k)
  {
    PhaseRules(m);
    assert EligibilityShaped(PhasesStep(m)) by {
      assert Get(PhasesStep(m), "eligibility") == Get(m, "eligibility");
    }
    ShapeKept(m, PhasesStep(m));
  }

  /** A normalized record has a title value, both lists and a parsed eligibility that the
      steps will not derive again. */
  lemma NormalizedFixed(raw: map<string, Value>, render: string -> string)
    requires RecordShaped(raw)
    ensures RecordShaped(Normalized(raw, render))
    ensures TitleStep(Normalized(raw, render)) == Normalized(raw, render)
    ensures Get(Normalized(raw, render), "interventions") != Null
    ensures Get(Normalized(raw, render), "phases") != Null
    ensures Get(Normalized(raw, render), "parsed_eligibility") == Null ==>
      Get(Normalized(raw, render), "eligibility") == Null
  {
    NormalizedShape(raw, render);
    var n := Normalized(raw, render);
    var m1 := TitleStep(raw);
    TitleRules(raw);
    TitleIdempotent(raw);
    TitleStepKeeps(raw);
    AfterTitle(m1, render);
    TitleAgrees(m1, n);
  }

  /** The steps after `process_title` keep every key, the title and its sources,
      and leave both lists set. */
  lemma AfterTitle(m1: map<string, Value>, render: string -> string)
    requires RecordShaped(m1)
    ensures var n := EligibilityStep(PhasesStep(InterventionsStep(m1)), render);
      && m1.Keys <= n.Keys
      && Get(n, "title") == Get(m1, "title")
      && Get(n, "brief_title") == Get(m1, "brief_title")
      && Get(n, "official_title") == Get(m1, "official_title")
      && Get(n, "acronym") == Get(m1, "acronym")
      && Get(n, "interventions") != Null && Get(n, "phases") != Null
      && (Get(n, "parsed_eligibility") == Null ==> Get(n, "eligibility") == Null)
  {
    var m2 := InterventionsStep(m1);
    InterventionFrame(m1);
    var m3 := PhasesStep(m2);
    PhaseFrame(m2);
    EligibilityFrame(m3, render);
    EligibilityStepShaped(m3, render);
  }

  /** Two maps that agree on the title and its sources derive the same title. */
  lemma TitleAgrees(m: map<string, Value>, n: map<string, Value>)
    requires TitleShaped(m) && TitleShaped(n) && TitleStep(m) == m && m.Keys <= n.Keys
    requires Get(n, "title") == Get(m, "title")
    requires Get(n, "brief_title") == Get(m, "brief_title")
    requires Get(n, "official_title") == Get(m, "official_title")
    requires Get(n, "acronym") == Get(m, "acronym")
    ensures TitleStep(n) == n
  {
    if !Truthy(Get(n, "title")) {
      assert DerivedTitle(n) == DerivedTitle(m) == Get(m, "title");
      assert "title" in m;
      assert n["title" := DerivedTitle(n)] == n;
    }
  }

  /** Normalizing a normalized record changes nothing: each field is derived once. */
  lemma NormalizeIdempotent(raw: map<string, Value>, render: string -> string)
    requires RecordShaped(raw)
    ensures RecordShaped(Normalized(raw, render))
    ensures Normalized(Normalized(raw, render), render) == Normalized(raw, render)
  {
    NormalizedFixed(raw, render);
    var n := Normalized(raw, render);
    InterventionRules(n);
    PhaseRules(n);
    if Get(n, "parsed_eligibility") == Null {
      assert "parsed_eligibility" in n;
      assert n["parsed_eligibility" := Null] == n;
    }
  }
}
