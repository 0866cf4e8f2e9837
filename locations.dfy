/** `TrialLocation` (trial.py:234-315): one site of a trial, its status colour, whether it
    is open, and the contact shown for it. */
module Locations {
  import opened Json
  import Contacts
  import opened Strings

  /** A site as `TrialLocation.__init__` stores it. `geo` is never assigned from the
      record (trial.py:241), so it is not a field here. */
  datatype TrialLocation = TrialLocation(
    status: Value,
    statusColor: string,
    contact: Value,
    contactBackup: Value,
    facility: Value,
    investigator: Value)

  /** The character class `\w` of the status pattern, over ASCII. */
  predicate IsWordChar(c: char)
  {
    ('a' <= c <= 'z') || ('A' <= c <= 'Z') || ('0' <= c <= '9') || c == '_'
  }

  /** ASCII lower case, for the case-insensitive matches. */
  function Lower(c: char): char
  {
    if 'A' <= c <= 'Z' then (c as int + 32) as char else c
  }

  /** `s` holds the lower-case `word` at position `i`, ignoring case. */
  predicate MatchesAt(s: string, i: int, word: string)
  {
    0 <= i && i + |word| <= |s| && forall k :: 0 <= k < |word| ==> Lower(s[i + k]) == word[k]
  }

  /** `re.search(word, s, flags=re.IGNORECASE)` for a literal lower-case word. */
  predicate ContainsWord(s: string, word: string)
  {
    exists i | 0 <= i <= |s| - |word| :: MatchesAt(s, i, word)
  }

  /** An occurrence of `not`, a gap, and `recruiting` at positions `i` and `j`. The gap
      `s[i+3..j]` starts and ends with whitespace, holds only word characters and
      whitespace, and is at least `minGap` characters long. */
  predicate NotRecruitingAt(s: string, i: int, j: int, minGap: nat)
  {
    && MatchesAt(s, i, "not")
    && MatchesAt(s, j, "recruiting")
    && i + 3 + minGap <= j
    && minGap >= 1
    && IsSpace(s[i + 3]) && IsSpace(s[j - 1])
    && forall k :: i + 3 <= k < j ==> IsWordChar(s[k]) || IsSpace(s[k])
  }

  predicate NotRecruiting(s: string, minGap: nat)
  {
    exists i, j | 0 <= i <= |s| && 0 <= j <= |s| :: NotRecruitingAt(s, i, j, minGap)
  }

  /** The colour rule of trial.py:240-249 with the gap bound as a parameter: red by
      default, orange for a not-recruiting phrase, else green for `recruiting`. */
  function ColorFor(status: Value, minGap: nat): string
    requires TextOrNull(status)
  {
    if !Truthy(status) then "red"
    else if NotRecruiting(status.s, minGap) then "orange"
    else if ContainsWord(status.s, "recruiting") then "green"
    else "red"
  }

  /** The colour exactly as trial.py:246 writes it: `not\s+[\w\s]*\s+recruiting` needs two
      whitespace characters at least (one per `\s+`) between `not` and `recruiting`. */
  function StatusColorAsWritten(status: Value): string
    requires TextOrNull(status)
  {
    ColorFor(status, 2)
  }

  /** The colour as evidently intended: any non-empty run of whitespace and words between
      `not` and `recruiting` makes the site orange. */
  function StatusColor(status: Value): (color: string)
    requires TextOrNull(status)
    ensures color == "red" || color == "orange" || color == "green"
    ensures color == "orange" <==> status.Str? && NotRecruiting(status.s, 1)
    ensures color == "green" <==>
      status.Str? && !NotRecruiting(status.s, 1) && ContainsWord(status.s, "recruiting")
  {
    ColorFor(status, 1)
  }

  /** Every not-recruiting phrase also contains `recruiting`: the orange test must come
      first, or no site would ever be orange. */
  lemma OrangePhraseAlsoMatchesGreen(s: string, minGap: nat)
    requires NotRecruiting(s, minGap)
    ensures ContainsWord(s, "recruiting")
  {
    var i, j :| 0 <= i <= |s| && 0 <= j <= |s| && NotRecruitingAt(s, i, j, minGap);
    assert MatchesAt(s, j, "recruiting");
  }

  /** Whatever the written pattern colours orange, the corrected one does too. */
  lemma AsWrittenOrangeIsOrange(status: Value)
    requires TextOrNull(status)
    requires StatusColorAsWritten(status) == "orange"
    ensures StatusColor(status) == "orange"
  {
    var s := status.s;
    var i, j :| 0 <= i <= |s| && 0 <= j <= |s| && NotRecruitingAt(s, i, j, 2);
    assert NotRecruitingAt(s, i, j, 1);
  }

  /** A phrase with a gap of at least two characters also has one of at least one. */
  lemma WiderGapIsGap(s: string)
    requires NotRecruiting(s, 2)
    ensures NotRecruiting(s, 1)
  {
    var i, j :| 0 <= i <= |s| && 0 <= j <= |s| && NotRecruitingAt(s, i, j, 2);
    assert NotRecruitingAt(s, i, j, 1);
  }

  /** The written and the corrected colour differ exactly on the statuses whose only
      not-recruiting phrases have a gap of one character (`not recruiting` with a single
      space); there the program says green and the corrected rule orange. */
  lemma ColorsDifferOnlyOnSingleGap(status: Value)
    requires TextOrNull(status)
    ensures StatusColorAsWritten(status) != StatusColor(status) <==>
      status.Str? && NotRecruiting(status.s, 1) && !NotRecruiting(status.s, 2)
    ensures StatusColorAsWritten(status) != StatusColor(status) ==>
      StatusColorAsWritten(status) == "green" && StatusColor(status) == "orange"
  {
    if status.Str? {
      if NotRecruiting(status.s, 2) {
        WiderGapIsGap(status.s);
      } else if NotRecruiting(status.s, 1) {
        OrangePhraseAlsoMatchesGreen(status.s, 1);
      }
    }
  }

  /** `not`, a gap that starts and ends with whitespace and holds only words and
      whitespace, then `recruiting`: orange under the corrected rule, however short the gap. */
  lemma NotThenRecruitingIsOrange(a: string, gap: string, b: string)
    requires gap != [] && IsSpace(gap[0]) && IsSpace(gap[|gap| - 1])
    requires forall k :: 0 <= k < |gap| ==> IsWordChar(gap[k]) || IsSpace(gap[k])
    ensures StatusColor(Str(a + "not" + gap + "recruiting" + b)) == "orange"
  {
    var s := a + "not" + gap + "recruiting" + b;
    var i, j := |a|, |a| + 3 + |gap|;
    assert s[i..i + 3] == "not";
    assert s[i + 3..j] == gap;
    assert s[j..j + 10] == "recruiting";
    assert MatchesAt(s, i, "not");
    assert MatchesAt(s, j, "recruiting");
    assert NotRecruitingAt(s, i, j, 1);
  }

  /** A witness of the not-recruiting phrase makes the corrected colour orange. */
  lemma OrangeAt(s: string, i: int, j: int)
    requires NotRecruitingAt(s, i, j, 1)
    ensures StatusColor(Str(s)) == "orange"
  {
    assert 0 <= i <= |s| && 0 <= j <= |s|;
  }

  /** A match fixes the first two characters, ignoring case. */
  lemma MatchStart(s: string, i: int, word: string)
    requires |word| >= 2 && MatchesAt(s, i, word)
    ensures Lower(s[i]) == word[0] && Lower(s[i + 1]) == word[1]
  {
    assert Lower(s[i + 0]) == word[0];
  }

  /** A not-recruiting phrase starts with an `n` and holds an `r` far enough behind it. */
  lemma PhraseLetters(s: string, i: int, j: int, minGap: nat)
    requires NotRecruitingAt(s, i, j, minGap)
    ensures Lower(s[i]) == 'n' && Lower(s[j]) == 'r' && Lower(s[j + 1]) == 'e'
    ensures i + 3 + minGap <= j && j + 10 <= |s|
  {
    MatchStart(s, i, "not");
    MatchStart(s, j, "recruiting");
  }

  /** Where the letters of "Active, not recruiting" sit. */
  lemma ActiveLetters()
    ensures forall k | 0 <= k < 12 :: Lower("Active, not recruiting"[k]) != 'r'
    ensures forall k | 0 <= k < 8 :: Lower("Active, not recruiting"[k]) != 'n'
  {
  }

  /** In "Active, not recruiting" the written pattern finds no not-recruiting phrase. */
  lemma ActiveNotRecruitingHasNoWrittenPhrase()
    ensures !NotRecruiting("Active, not recruiting", 2)
  {
    var s := "Active, not recruiting";
    forall i, j | 0 <= i <= |s| && 0 <= j <= |s|
      ensures !NotRecruitingAt(s, i, j, 2)
    {
      if NotRecruitingAt(s, i, j, 2) {
        PhraseLetters(s, i, j, 2);
        ActiveLetters();
      }
    }
  }

  /** The status "Active, not recruiting" is green as written: its one space between `not`
      and `recruiting` cannot satisfy both `\s+` of the pattern. The corrected rule makes
      it orange. */
  lemma ActiveNotRecruitingIsGreenAsWritten()
    ensures StatusColorAsWritten(Str("Active, not recruiting")) == "green"
    ensures StatusColor(Str("Active, not recruiting")) == "orange"
  {
    var s := "Active, not recruiting";
    ActiveNotRecruitingHasNoWrittenPhrase();
    assert MatchesAt(s, 12, "recruiting");
    assert MatchesAt(s, 8, "not");
    OrangeAt(s, 8, 12);
  }

  /** `TrialLocation.is_open`: exactly one of three statuses, compared verbatim. */
  predicate IsOpen(loc: TrialLocation)
  {
    loc.status == Str("Recruiting")
    || loc.status == Str("Not yet recruiting")
    || loc.status == Str("Enrolling by invitation")
  }

  /** `is_open` compares the status verbatim: a site is open only on the three exact
      strings, so a lower-case `recruiting`, which the case-insensitive colour rule calls
      green, is not open, and neither is a site without a status. */
  lemma OpenIsVerbatim(loc: TrialLocation)
    ensures IsOpen(loc) ==> loc.status.Str? && loc.status.s in {"Recruiting", "Not yet recruiting", "Enrolling by invitation"}
    ensures loc.status.Str? && loc.status.s in {"Recruiting", "Not yet recruiting", "Enrolling by invitation"} ==> IsOpen(loc)
    ensures loc.status == Str("recruiting") ==> !IsOpen(loc) && StatusColor(loc.status) == "green"
    ensures loc.status == Null ==> !IsOpen(loc)
  {
    assert MatchesAt("recruiting", 0, "recruiting");
  }

  /** A raw site entry: an object whose status is text or null and whose contacts are
      contact-shaped (the source calls `re.search` and `.get` on them). */
  predicate LocationShaped(m: map<string, Value>)
  {
    && TextOrNull(Get(m, "status"))
    && Contacts.ContactShaped(Get(m, "contact"))
    && Contacts.ContactShaped(Get(m, "contact_backup"))
  }

  /** `TrialLocation(trial, json_loc)`: the raw fields, and the colour of the status. */
  function NewLocation(m: map<string, Value>): (loc: TrialLocation)
    requires LocationShaped(m)
    ensures loc.status == Get(m, "status") && loc.contact == Get(m, "contact")
    ensures loc.contactBackup == Get(m, "contact_backup")
    ensures loc.facility == Get(m, "facility") && loc.investigator == Get(m, "investigator")
    ensures loc.statusColor == StatusColor(loc.status)
  {
    var status := Get(m, "status");
    TrialLocation(status, StatusColor(status), Get(m, "contact"),
                  Get(m, "contact_backup"), Get(m, "facility"), Get(m, "investigator"))
  }

  /** "Recruiting" is green. */
  lemma RecruitingIsGreen()
    ensures StatusColor(Str("Recruiting")) == "green"
    ensures StatusColorAsWritten(Str("Recruiting")) == "green"
  {
    assert MatchesAt("Recruiting", 0, "recruiting");
  }

  /** "Not yet recruiting" is orange. */
  lemma NotYetRecruitingIsOrange()
    ensures StatusColor(Str("Not yet recruiting")) == "orange"
    ensures StatusColorAsWritten(Str("Not yet recruiting")) == "orange"
  {
    var t := "Not yet recruiting";
    assert MatchesAt(t, 0, "not") && MatchesAt(t, 8, "recruiting");
    assert NotRecruitingAt(t, 0, 8, 2);
    OrangeAt(t, 0, 8);
  }

  /** No `r` of "Enrolling by invitation" is followed by an `e`. */
  lemma EnrollingLetters()
    ensures forall k | 0 <= k < 22 ::
      Lower("Enrolling by invitation"[k]) != 'r' || Lower("Enrolling by invitation"[k + 1]) != 'e'
  {
  }

  /** "Enrolling by invitation" does not mention recruiting, so it is red. */
  lemma EnrollingByInvitationIsRed()
    ensures StatusColor(Str("Enrolling by invitation")) == "red"
    ensures StatusColorAsWritten(Str("Enrolling by invitation")) == "red"
  {
    var s := "Enrolling by invitation";
    forall i | 0 <= i <= |s| - 10 ensures !MatchesAt(s, i, "recruiting") {
      if MatchesAt(s, i, "recruiting") {
        MatchStart(s, i, "recruiting");
        EnrollingLetters();
      }
    }
    forall i, j | 0 <= i <= |s| && 0 <= j <= |s| ensures !NotRecruitingAt(s, i, j, 1) {
      if NotRecruitingAt(s, i, j, 1) {
        PhraseLetters(s, i, j, 1);
        EnrollingLetters();
      }
    }
    ColorsDifferOnlyOnSingleGap(Str(s));
  }

  /** The colours of the three open statuses: "Recruiting" is green, "Not yet recruiting"
      is both orange and open, and "Enrolling by invitation" is open but red. The written
      pattern gives the same three colours. */
  lemma OpenStatusColors(m: map<string, Value>)
    requires LocationShaped(m)
    ensures Get(m, "status") == Str("Recruiting") ==>
      NewLocation(m).statusColor == "green" && IsOpen(NewLocation(m))
    ensures Get(m, "status") == Str("Not yet recruiting") ==>
      NewLocation(m).statusColor == "orange" && IsOpen(NewLocation(m))
    ensures Get(m, "status") == Str("Enrolling by invitation") ==>
      NewLocation(m).statusColor == "red" && IsOpen(NewLocation(m))
    ensures IsOpen(NewLocation(m)) ==>
      NewLocation(m).statusColor == StatusColorAsWritten(Get(m, "status"))
  {
    RecruitingIsGreen();
    NotYetRecruitingIsOrange();
    EnrollingByInvitationIsRed();
  }

  /** A contact that can be reached: an object with an e-mail or a phone that is not null. */
  predicate Reachable(c: Value)
  {
    c.Obj? && (Get(c.fields, "email") != Null || Get(c.fields, "phone") != Null)
  }

  /** `TrialLocation.best_contact`: the parts of the first reachable contact among the
      site's contact, its backup and the trial's overall contact; failing all three, the
      trial's overall backup contact as it is. */
  function BestContact(loc: TrialLocation, trial: map<string, Value>): (parts: map<string, string>)
    requires Contacts.ContactShaped(loc.contact) && Contacts.ContactShaped(loc.contactBackup)
    requires Contacts.ContactShaped(Get(trial, "overall_contact"))
    requires Contacts.ContactShaped(Get(trial, "overall_contact_backup"))
    ensures var chain := [loc.contact, loc.contactBackup, Get(trial, "overall_contact")];
      || (exists k | 0 <= k < 3 ::
            && Reachable(chain[k])
            && (forall j :: 0 <= j < k ==> !Reachable(chain[j]))
            && parts == Contacts.ContactParts(chain[k]))
      || ((forall j :: 0 <= j < 3 ==> !Reachable(chain[j]))
          && parts == Contacts.ContactParts(Get(trial, "overall_contact_backup")))
  {
    var chain := [loc.contact, loc.contactBackup, Get(trial, "overall_contact")];
    var c := if Reachable(loc.contact) then loc.contact
             else if Reachable(loc.contactBackup) then loc.contactBackup
             else if Reachable(Get(trial, "overall_contact")) then Get(trial, "overall_contact")
             else Get(trial, "overall_contact_backup");
    assert Reachable(chain[0]) ==> c == chain[0];
    assert !Reachable(chain[0]) && Reachable(chain[1]) ==> c == chain[1];
    assert !Reachable(chain[0]) && !Reachable(chain[1]) && Reachable(chain[2]) ==> c == chain[2];
    Contacts.ContactParts(c)
  }

  /** `TrialLocation.for_api`: the site as the API returns it; `geodata` is always null. */
  function LocationForApi(loc: TrialLocation, trial: map<string, Value>): (js: map<string, Value>)
    requires Contacts.ContactShaped(loc.contact) && Contacts.ContactShaped(loc.contactBackup)
    requires Contacts.ContactShaped(Get(trial, "overall_contact"))
    requires Contacts.ContactShaped(Get(trial, "overall_contact_backup"))
    ensures js.Keys == {"status", "status_color", "facility", "investigator", "contact", "geodata"}
    ensures js["status"] == loc.status && js["status_color"] == Str(loc.statusColor)
    ensures js["geodata"] == Null
    ensures js["facility"] == loc.facility && js["investigator"] == loc.investigator
    ensures js["contact"].Obj? && js["contact"].fields.Keys == BestContact(loc, trial).Keys
    ensures forall k :: k in BestContact(loc, trial) ==>
      js["contact"].fields[k] == Str(BestContact(loc, trial)[k])
    ensures "name" in js["contact"].fields
  {
    var contact := BestContact(loc, trial);
    map[
      "status" := loc.status,
      "status_color" := Str(loc.statusColor),
      "facility" := loc.facility,
      "investigator" := loc.investigator,
      "contact" := Obj(map k | k in contact :: Str(contact[k])),
      "geodata" := Null
    ]
  }
}
