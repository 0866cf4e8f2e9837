# py-clinical-trials core, modelled in Dafny

This project models the core of the `py-clinical-trials` client library. That core has two parts.

The first is the trial record model (`trial.py`). A `Trial` is built from a raw JSON record of a
ClinicalTrials.gov-style registry, and its constructor derives fields from that record:

- the best title;
- the set of intervention types;
- the set of phases;
- the list of trial sites (`TrialLocation`);
- the pre-processed eligibility text.

On top of the record sit:

- the site status colour, the `is_open` test and the contact fallback chain of a site;
- `trial_contact_parts`, which formats a contact;
- keyword clean-up;
- the ranking of sites by distance;
- the allowlisted JSON sent to API clients.

The second is the search protocol of a trial server (`trialserver.py`) and of Lilly's v2 dialect
(`lillyserver.py`):

- how a request is composed from the base URL, an endpoint string and the headers;
- how a parameter dictionary becomes a `path?k=v&…` query;
- how a response becomes a list of trials, a meta dictionary and an optional continuation request.

Module layout:

| file | module | what it holds |
|---|---|---|
| `json.dfy` | `Json` | JSON values, Python's `dict.get` (a missing key reads as `null`) and Python truthiness |
| `seqs.dfy` | `Seqs` | first-occurrence de-duplication, which stands in for `list(set(...))` |
| `strings.dfy` | `Strings` | `str.split`, `str.join`, `str.replace` and decimal rendering, with their round trips |
| `contacts.dfy` | `Contacts` | `trial_contact_parts` |
| `locations.dfy` | `Locations` | `TrialLocation`: status colour, `is_open`, `best_contact` and `for_api` |
| `eligibility.dfy` | `Eligibility` | the eligibility text pre-processing applied before the Markdown renderer |
| `keywords.dfy` | `Keywords` | the `;\s+` split and the `[,\.]+\s*$` trim of `cleanup_keywords` |
| `ranking.dfy` | `Ranking` | the stable sort by distance and the truncation of `locations_closest_to` |
| `records.dfy` | `Records` | the derivation steps of the constructor, as functions on the record map, and their rules |
| `trials.dfy` | `Trials` | class `Trial`, whose constructor runs the `process_*` methods in place on its fields |
| `trialserver.dfy` | `TrialServers` | class `TrialServer`, class `ParamDict` (the caller's parameter dictionary) and the query encoding |
| `lilly.dfy` | `Lilly` | classes `LillyV2Server` and `LillyTrial` |

Design decisions:

- **JSON objects.** A JSON object is a `map<string, Value>`, and `Json.Get` reads a missing key as
  `null`. The attributes of a `Trial` are that map. `as_json` is that map plus `_id`, without
  `locations`.
- **Object state.** Objects whose fields the source assigns in place are Dafny classes:
  - `Trial` has fields `attrs` and `locations`.
  - `TrialServer` has fields `headers`, `trial_headers`, `search_headers` and the endpoints.
  - The caller's parameter dictionary is a `ParamDict` with the fields `keys` (dictionary order)
    and `vals`.
- **Aliasing.** The base `search_prepare_parts` deletes `countries` from the caller's own
  dictionary, so its contract `modifies params`. Lilly's works on a copy and has no `modifies`
  clause at all.
- **Inheritance.** The subclasses are modelled by composition. A `LillyV2Server` holds the
  `TrialServer` whose fields it sets, and a `LillyTrial` holds its `Trial` and its `score`.
  `LillyV2Server.SearchRequest` runs the base `search_request` steps with Lilly's own
  `search_prepare_parts`, as Python's dynamic dispatch does.
- **Failures.** The source raises exceptions for some inputs. These become `Result.Failure`: an
  empty base URL, a malformed endpoint, a `None` key secret and `None` search parameters. Inputs on
  which the source crashes with a `TypeError` or `AttributeError` are excluded by shape predicates
  (`Records.RecordShaped`, `Lilly.LillyShaped`, …). Examples are a non-string `phase` and a
  non-string search parameter value.
- **Regular expressions.** Each pattern is an explicit predicate over the string:
  - the colour patterns `not\s+[\w\s]*\s+recruiting` and `recruiting` (case-insensitive);
  - `^ +` in multiline mode;
  - `;\s+` as a split;
  - `[,\.]+\s*$` as a substitution.

  `\s` and `\w` are taken over ASCII.

## Model

| member | source | states |
|---|---|---|
| Trials.Trial.constructor | trial.py:26-32 | the new trial's attributes are exactly the raw record after the title, intervention, phase and eligibility derivations in that order; its sites are built from the record's `location` list; the id is the one given |
| Trials.Trial.ProcessTitle | trial.py:48-61 | the attributes become `TitleStep` of the old ones and the sites are untouched |
| Records.TitleRules | trial.py:48-61 | a truthy title is left as is; otherwise the title is the brief title, falling back to the official title; a truthy acronym gives `"ACR: title"`, or the acronym alone when neither title is truthy; no other key changes |
| Records.TitleIdempotent | trial.py:48-61 | deriving the title a second time changes nothing |
| Trials.Trial.ProcessInterventions | trial.py:79-93 | the attributes become `InterventionsStep` of the old ones and the sites are untouched |
| Records.InterventionRules | trial.py:79-93 | a non-null `interventions` is kept; otherwise it becomes a list of distinct strings that holds exactly the truthy `intervention_type` values of the `intervention` entries, or exactly `["Observational"]` when there are none; no other key changes and no key is dropped |
| Records.TypesOfMembers | trial.py:85-88 | a string is among the collected types iff some intervention entry has it as a truthy `intervention_type` |
| Trials.Trial.ProcessPhases | trial.py:95-105 | the attributes become `PhasesStep` of the old ones and the sites are untouched |
| Records.PhaseRules | trial.py:95-105 | a non-null `phases` is kept; otherwise it becomes a list of distinct strings that is exactly `["N/A"]` when `phase` is falsy or `"N/A"`, and otherwise holds exactly the pieces of `phase` split on `/` (and joins back to `phase` when those pieces are distinct); no other key changes |
| Trials.Trial.ProcessLocations | trial.py:107-112 | when no sites exist yet, the sites become one `TrialLocation` per entry of `location` (none when `location` is absent); existing sites and the attributes are untouched |
| Trials.SitesOf | trial.py:107-112 | sites exist iff `location` is a list; there is one site per entry, built by `NewLocation` from that entry |
| Trials.Trial.ParseEligibility | trial.py:114-132 | the attributes become `EligibilityStep` of the old ones and the sites are untouched |
| Records.EligibilityRules | trial.py:114-132 | a set `parsed_eligibility` is kept; otherwise it becomes the `eligibility` object (or null); in that object, `criteria` is removed and `html` is added (as the rendered, pre-processed `textblock`) only when `criteria` had a non-empty `textblock`; every other key is kept and no key outside eligibility changes |
| Eligibility.PreparedHasNoAngles | trial.py:125-127 | the text handed to the Markdown renderer contains no `<` and no `>` |
| Eligibility.LeadingSpaceRule | trial.py:125-127 | the text keeps its number of lines; a line that started with spaces starts with exactly one space (the next character is not a space); every other line only has its angle brackets escaped and still does not start with a space |
| Eligibility.PreparedTextLines | trial.py:125-127 | the prepared text splits on newlines into the prepared lines of the input, one for one |
| Records.NormalizedShape | trial.py:26-32 | the derived record is well formed again and agrees with the raw record on every key that no derivation writes |
| Records.NormalizedFixed | trial.py:26-32 | after construction the title is final, `interventions` and `phases` are set, and a null `parsed_eligibility` comes with a null `eligibility` |
| Records.NormalizeIdempotent | trial.py:26-32 | running the constructor's derivations on an already derived record changes nothing |
| Records.LocationKept | trial.py:26-32 | the derivations never touch the `location` list that the sites are built from |
| Trials.Trial.AsJson | trial.py:34-39 | the JSON holds `_id` (the trial's id) and every attribute except `locations`, with the attribute's value |
| Trials.Trial.ForApi | trial.py:163-186 | an allowlisted key is present iff its value in `as_json` is truthy, and then carries that value; `eligibility` is present iff `parsed_eligibility` is truthy; `locations` is present iff sites exist, and is then each site's `for_api`; no other key appears |
| Trials.PickTruthy | trial.py:169-179 | the picked map has a key iff the key is in the list and its value is truthy, and then holds that value |
| Trials.AllowlistedFacts | trial.py:169-179 | the reference definition of the allowlist filter has the same membership and values as `PickTruthy` promises |
| Trials.Trial.LocationsClosestTo | trial.py:191-214 | the result is the truncation of the stable distance sort of the sites kept by the open filter; it is sorted by distance, every entry is open when `open_only` is set, and it has at most `limit` entries when `limit > 0` |
| Trials.CandidatesFacts | trial.py:201-206 | with `open_only` every kept site is open; without it every site is kept, in input order, with its own distance |
| Trials.OpenCandidates | trial.py:201-206 | with `open_only` the candidates are exactly the unfiltered candidates of the open entries: every open site is kept, in input order, with its own distance |
| Trials.OpenEntriesMembers | trial.py:205 | an entry is kept by the open filter iff it is an input entry whose site is open |
| Trials.ClosestFacts | trial.py:208-214 | the sorted, truncated list is sorted, is a prefix of the sorted list, has at most `limit` entries when `limit > 0` and is the whole sorted list otherwise |
| Ranking.SortByDistance | trial.py:209 | the result is sorted by distance, a permutation of the input, and keeps the entries of each distance in input order (a stable sort) |
| Ranking.StableSortUnique | trial.py:209 | any sorted list that keeps the entries of each distance in input order is the result of `SortByDistance` |
| Ranking.Truncate | trial.py:211-212 | with `limit > 0` the result is the first `limit` entries, or the whole list when it is shorter; otherwise it is the whole list |
| Ranking.TruncateSorted | trial.py:211-212 | truncating a sorted list leaves it sorted |
| Trials.Trial.CleanupKeywords | trial.py:219-231 | the result is the concatenation, in input order, of each keyword's non-empty `;\s+` pieces with their trailing `[,\.]+\s*` removed; no result ends with `,` or `.` |
| Keywords.NoSeparatorIsOnePiece | trial.py:222 | a keyword with no `;` followed by whitespace is one piece, itself, so commas and bare `;` never split |
| Keywords.SplitAtSeparator | trial.py:222 | `a;<whitespace>b` splits into `a` followed by the pieces of `b`, whenever `a` holds no `;` followed by whitespace (a bare `;` in `a` stays in the piece) |
| Keywords.BareSemicolonStays | trial.py:222 | `a;b; c` splits into `a;b` and `c` |
| Keywords.PiecesHaveNoSeparator | trial.py:222 | no piece contains `;` followed by whitespace |
| Keywords.TrimIsLeftmostMatch | trial.py:224 | the trim removes exactly the leftmost suffix of the form `[,\.]+\s*` that reaches the end, and nothing when there is none |
| Keywords.CleanedKeywordsAppend | trial.py:225-229 | cleaning a concatenation of keyword lists is the concatenation of the cleaned lists, so input order is kept |
| Keywords.CleanedKeywordsEndClean | trial.py:228-229 | no cleaned keyword ends with `,` or `.` |
| Locations.NewLocation | trial.py:238-253 | the site carries the entry's `status`, `contact`, `contact_backup`, `facility` and `investigator` (null when missing), and its colour is the corrected `StatusColor` of its status |
| Locations.StatusColor | trial.py:240-249 | the corrected colour rule: red, orange or green; orange iff the status contains `not`, then a gap of at least one character made of word characters and whitespace that starts and ends with whitespace, then `recruiting` (case-insensitive), so a single space suffices; green iff it is not orange and contains `recruiting`; a null or empty status is red |
| Locations.OrangePhraseAlsoMatchesGreen | trial.py:246-249 | every status the orange pattern matches also contains `recruiting`, so the order of the two tests matters |
| Locations.AsWrittenOrangeIsOrange | trial.py:246 | every status coloured orange by the pattern as written is orange in the corrected model too |
| Locations.NotThenRecruitingIsOrange | trial.py:246 | `not`, a gap of spaces and word characters that starts and ends with whitespace, then `recruiting` is orange whatever surrounds it |
| Locations.ColorsDifferOnlyOnSingleGap | trial.py:246-249 | the colour as written and the corrected colour differ exactly on statuses with a not-recruiting phrase whose every occurrence has a one-character gap; there the program gives green and the corrected rule orange |
| Locations.OpenIsVerbatim | trial.py:280-288 | `Locations.IsOpen`, the model of `is_open`, holds iff the status is exactly one of `Recruiting`, `Not yet recruiting` and `Enrolling by invitation`, compared verbatim; a lower-case `recruiting`, green under the case-insensitive colour rule, is not open, and neither is a missing status |
| Locations.StatusColorAsWritten | trial.py:246 | the colour the pattern gives as written, where the gap between `not` and `recruiting` needs at least two whitespace characters |
| Locations.ActiveNotRecruitingIsGreenAsWritten | trial.py:246 | `"Active, not recruiting"` is green as written and orange in the corrected model |
| Locations.RecruitingIsGreen | trial.py:248-249 | `"Recruiting"` is green, as written and corrected |
| Locations.NotYetRecruitingIsOrange | trial.py:246-247 | `"Not yet recruiting"` is orange, as written and corrected |
| Locations.EnrollingByInvitationIsRed | trial.py:240 | `"Enrolling by invitation"` matches neither pattern and stays red, as written and corrected |
| Locations.OpenStatusColors | trial.py:286-288 | each of the three open statuses gives an open site with its own colour, so `"Not yet recruiting"` is both orange and open; on every open site the colour equals the colour as written |
| Locations.BestContact | trial.py:263-277 | the parts are those of the first of `contact`, `contact_backup` and the trial's `overall_contact` that has an email or a phone; when none has, they are those of `overall_contact_backup` as it is |
| Locations.LocationForApi | trial.py:307-315 | exactly the keys `status`, `status_color`, `facility`, `investigator`, `contact` and `geodata`; status, colour, facility and investigator are the site's; `geodata` is null; the contact is the `best_contact` dictionary, key for key and value for value, and always has `name` |
| Contacts.ContactParts | trial.py:318-351 | a falsy contact gives exactly `{"name": "No contact"}`; otherwise the name is the truthy first, middle and last names joined by spaces (or `Unknown contact`), followed by `", degrees"` iff degrees are truthy; `email` and `phone` are present iff truthy; the phone gets ` (ext)` when the extension is truthy; there are no other keys |
| Contacts.ContactNameSplits | trial.py:325-332 | a name without degrees splits on spaces back into its truthy name parts, when these have no spaces |
| Trials.SitesForApi | trial.py:183-184 | one `for_api` object per site, in order |
| TrialServers.TrialServer.constructor | trialserver.py:13-20 | the base and API key are the given ones, the three header dictionaries are empty, and the endpoints are `GET /trials/{id}` and `GET /trials/search` |
| TrialServers.DefaultTrialRoute | trialserver.py:17 | the default trial endpoint splits into `GET` and `/trials/{id}` |
| TrialServers.DefaultSearchRoute | trialserver.py:19 | the default search endpoint splits into `GET` and `/trials/search` |
| TrialServers.TrialServer.BaseRequest | trialserver.py:25-30 | extra headers are merged into the server's own headers, which keep them for later requests; without extra headers they are unchanged; the request carries the method, the URL, the merged headers and the body |
| TrialServers.TrialServer.ApiRequest | trialserver.py:32-40 | it fails iff the base URL is empty, and the headers are then unchanged; otherwise the URL is the override verbatim when given, else base followed by the path |
| TrialServers.EndpointParts | trialserver.py:43-45 | a successful split gives a non-empty method and path without spaces that rebuild the endpoint around one space |
| TrialServers.EndpointPartsOf | trialserver.py:43-45 | an endpoint of a non-empty method, one space and a non-empty path splits into exactly those two |
| TrialServers.TrialServer.TrialRequest | trialserver.py:42-47 | it fails on a malformed endpoint or an empty base; otherwise it is the endpoint's method, at base plus the endpoint path with `{id}` replaced by the trial id, with the trial headers merged in and no body |
| TrialServers.TrialPathOf | trialserver.py:47 | replacing `{id}` in `prefix{id}` gives `prefix` followed by the trial id |
| TrialServers.TrialServer.SearchRequest | trialserver.py:78-100 | it fails on a malformed search endpoint or an empty base; otherwise it is the endpoint's method with the search headers merged in and no body, at the override URL when given, else at base plus the prepared search path; the caller's parameters lose `countries` whenever the endpoint is well formed and no override URL is given, even when the request then fails on an empty base, and are untouched otherwise |
| TrialServers.TrialServer.SearchPrepareParts | trialserver.py:102-118 | `countries` is deleted from the caller's own dictionary; the path is `path?` followed by one `key=value` term per remaining key in dictionary order, spaces in values turned into `+`; there is no body |
| TrialServers.ParamDict.Copy | lillyserver.py:37 | `params.copy()`: a new dictionary, distinct from the caller's, with the same keys in the same order and the same values |
| TrialServers.ParamDict.Delete | trialserver.py:110-111 | the key leaves both the key order and the values, and nothing else changes |
| TrialServers.AppendParamTerms | trialserver.py:113-115 | the loop appends one `key=value` term per key, in order |
| TrialServers.TextPairs | trialserver.py:114 | one pair per key, in order, holding the key and its string value |
| TrialServers.WithoutFacts | trialserver.py:110-111 | after deletion a key remains iff it was present and is not the deleted one; a key that was absent deletes nothing |
| TrialServers.QueryRoundTrip | trialserver.py:113-117 | decoding the query string gives back exactly the key/value pairs, in order, when keys have no `=` or `&` and values no `+` or `&` |
| TrialServers.TermRoundTrip | trialserver.py:115 | one `key=value` term decodes to its key and its value |
| TrialServers.ResultList | trialserver.py:136 | the results are the `results` list when it is truthy and empty otherwise |
| TrialServers.TrialServer.SearchProcessResponse | trialserver.py:120-141 | one fresh trial per entry of `results`, in order, with id `result["id"]` and attributes derived from the entry; `meta` is passed through; the continuation is always absent |
| Lilly.LillyV2Server.constructor | lillyserver.py:19-29 | base `https://data.lillycoi.com/`, batch size 50, headers exactly `Authorization: Basic <key_secret>`, trial endpoint `GET /trial/nct/{id}`, trial and search headers `Accept: application/json` |
| Lilly.LillyV2Server.Create | lillyserver.py:19-29 | it fails iff the key secret is `None`; otherwise it is a fresh server with the Lilly base, no API key, batch size 50, headers `Authorization: Basic <key_secret>`, trial endpoint `GET /trial/nct/{id}`, the default search endpoint, and trial and search headers `Accept: application/json` |
| Lilly.LillyV2Server.SearchPrepareParts | lillyserver.py:32-57 | it fails iff the parameters are `None`; otherwise the path is `path?size=<batch>&` followed by the Lilly terms, there is no body, and the caller's dictionary is not modified |
| Lilly.PassedOn | lillyserver.py:37-53 | a key is passed on as a plain term iff it is a parameter that neither the countries rule nor the recruiting rule removed |
| Lilly.CountryTerms | lillyserver.py:40-45 | the countries give the terms `country1=…` to `countryN=…` in list order, spaces turned into `+` |
| Lilly.OpenStudiesTerm | lillyserver.py:48 | the recruiting term is exactly `overall_status=Open+Studies` |
| Lilly.RecruitingTerms | lillyserver.py:47-50 | the recruiting part of the query is that one term or nothing |
| Lilly.PrepareMatches | lillyserver.py:36-54 | the terms the method builds are the reference list: the recruiting term first when `recruiting` is truthy, then the country terms, then the remaining parameters in dictionary order |
| Lilly.HandledRemoved | lillyserver.py:40-50 | after the two rules the remaining dictionary is the parameters without the handled keys, in dictionary order |
| Lilly.LillyKeepsParams | lillyserver.py:53-54 | every parameter not handled by a rule appears as its own `key=value` term |
| Lilly.LillyQueryDecodes | lillyserver.py:56 | when at least one Lilly pair remains and every pair is encodable (keys without `&` and `=`, values without `&` and `+`), the query after `?` decodes to `size=<batch>` followed by the Lilly pairs |
| Lilly.LillyEmptyQueryDecodes | lillyserver.py:56 | when no Lilly pair remains, the query still ends in `&` and decodes to `size=<batch>` followed by one empty pair |
| Lilly.BatchSizeText | lillyserver.py:24 | the batch size renders as `50` |
| Lilly.LillyV2Server.SearchRequest | trialserver.py:78-100 | as the base `search_request`, with Lilly's prepared path, and a failure when the parameters are `None` and no override URL is given |
| Lilly.LillyV2Server.SearchProcessResponse | lillyserver.py:59-78 | `meta` is exactly `{total: total_count}`, 0 when that is falsy; one Lilly trial per entry of `results`, in order, with id `id_info.nct_id` (null when `id_info` is falsy), attributes derived from the entry, its sites built from them, and the entry's score; the continuation exists iff `_links.next.href` exists, and is then a GET to it with the server's unchanged headers |
| Lilly.LillyTrial.constructor | lillyserver.py:87-89 | the trial is built as a base trial from the record, and the score is `_meta.score`, null when either is missing |

## Left out

- HTTP execution is not modelled: `TrialServer.request`, `get`, `get_trial`, `find` and the
  `requests` session. A request is the record `Request(verb, url, headers, body)`.
- `Trials.Trial.LocationsClosestTo` takes the distance of each site as a parameter (a function of
  the site's JSON). It does not compute the haversine distance of `geo.py`, which is floating-point
  trigonometry.
  - As written, a site's `geo` is never assigned from JSON (trial.py:241), so `km_distance_from`
    always returns `None` (trial.py:296-297).
  - Python 3 cannot order `None` keys, so the sort at trial.py:209 raises on two or more
    candidate sites.
  - Sites without geo data therefore do not sort last: the sort fails instead. The model follows
    the code as far as ordering goes, and requires a distance for every site.
- Markdown rendering (trial.py:128) and the `<li>`/`<p>` unwrap after it (trial.py:129) are an
  external library. Both are the `render` parameter, a function on strings.
- The `JSONDocument` base class is not part of this model. Attribute reads are `Json.Get` on the
  attribute map, and its `as_json` is that map plus `_id`.
- `Trial.entered`, `last_updated` and `date` are left out. They read the wall clock and parse dates
  with `strptime`.
- `LillyTrial.retrieve_profile`, `LillyTargetProfile` and the profile cache are left out, because
  they do network and file I/O.
- The `trial_class` parameter of the `search_process_response` methods is left out. The model
  always builds the default class.
- Python's `set` has no defined order. `list(set(...))` for interventions and phases is modelled in
  first-occurrence order, and the contracts speak only of membership and distinctness.
- `\s` and `\w` are taken over ASCII. Python's Unicode classes also match other whitespace and
  letters.
- `Locations.Lower` folds ASCII letters only. With `re.IGNORECASE` on text, Python also matches
  some non-ASCII letters case-insensitively, such as U+0130 and U+0131 against `i` and U+212A
  (Kelvin sign) against `k`; the colour rule does not model those.
- Non-string search parameter values are excluded by preconditions. Examples are a falsy but present
  `recruiting`, and `countries=None` for Lilly. On these the source fails inside `.replace`.
- Locations.NewLocation: colours a site with the corrected rule `Locations.StatusColor`, not with
  the pattern as written at trial.py:246. The two differ only where `Locations.ColorsDifferOnlyOnSingleGap`
  says: a status such as `"Active, not recruiting"` is green in the program and orange here. The
  same holds for everything built from sites (`ProcessLocations`, `ForApi`, `LocationsClosestTo`).
  `is_open` and the open filter do not depend on the colour.
- `TrialServers.TrialServer.BaseRequest`: the request captures the headers by value. In the source,
  `requests.Request` keeps a reference to the server's dictionary, so later merges also show in
  earlier requests.
- `Lilly.LillyV2Server.constructor` models the trial and search headers as two equal maps. In the
  source they are one shared dictionary (lillyserver.py:29), and the model does not capture that
  sharing.
- A record whose `locations` attribute is already set before construction is excluded by
  `Records.RecordShaped`. In the source, such a value comes only from the `JSONDocument` base.

## Findings

| source | as written | input that shows it | evidently intended | confidence | as-written member | corrected member |
|---|---|---|---|---|---|---|
| trial.py:246 | `not\s+[\w\s]*\s+recruiting` needs a whitespace character both after `not` and before `recruiting`, so a single space between the words does not match and the status falls through to green | `"Active, not recruiting"` (the registry's own status for closed studies) gets `green` | any `not … recruiting` status, including one with a single space, is orange | not executed | Locations.StatusColorAsWritten, Locations.ActiveNotRecruitingIsGreenAsWritten | Locations.StatusColor |
