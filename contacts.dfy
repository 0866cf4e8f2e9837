/** `trial_contact_parts`: the name, e-mail and phone shown for a trial contact
    (trial.py:318-351). */
module Contacts {
  import opened Json
  import Strings

  /** A contact is null or an object whose name, degree, e-mail and phone fields are
      text or null; the source formats them with `%s` and joins them as strings. */
  predicate ContactShaped(c: Value)
  {
    c.Null? ||
    (c.Obj?
     && TextOrNull(Get(c.fields, "first_name"))
     && TextOrNull(Get(c.fields, "middle_name"))
     && TextOrNull(Get(c.fields, "last_name"))
     && TextOrNull(Get(c.fields, "degrees"))
     && TextOrNull(Get(c.fields, "email"))
     && TextOrNull(Get(c.fields, "phone"))
     && TextOrNull(Get(c.fields, "phone_ext")))
  }

  /** The non-empty first, middle and last names, in that order. */
  function NameParts(m: map<string, Value>): seq<string>
  {
    (if Truthy(Get(m, "first_name")) then [Text(Get(m, "first_name"))] else [])
    + (if Truthy(Get(m, "middle_name")) then [Text(Get(m, "middle_name"))] else [])
    + (if Truthy(Get(m, "last_name")) then [Text(Get(m, "last_name"))] else [])
  }

  /** The display name before degrees are appended. */
  function BaseName(m: map<string, Value>): string
  {
    if NameParts(m) != [] then Strings.Join(" ", NameParts(m)) else "Unknown contact"
  }

  /** The phone number, followed by the extension in parentheses when there is one. */
  function PhoneText(m: map<string, Value>): string
  {
    Text(Get(m, "phone"))
    + (if Truthy(Get(m, "phone_ext")) then " (" + Text(Get(m, "phone_ext")) + ")" else "")
  }

  /** The parts shown for a contact: exactly `{name: "No contact"}` for a falsy contact;
      otherwise a name, and the e-mail and phone only when they are non-empty. */
  function ContactParts(c: Value): (parts: map<string, string>)
    requires ContactShaped(c)
    ensures !Truthy(c) ==> parts == map["name" := "No contact"]
    ensures Truthy(c) ==>
      var m := c.fields;
      && "name" in parts
      && ("email" in parts <==> Truthy(Get(m, "email")))
      && ("phone" in parts <==> Truthy(Get(m, "phone")))
      && parts.Keys <= {"name", "email", "phone"}
      && ("email" in parts ==> parts["email"] == Text(Get(m, "email")))
      && ("phone" in parts ==> parts["phone"] == PhoneText(m))
      && |parts["name"]| >= |BaseName(m)|
      && parts["name"][..|BaseName(m)|] == BaseName(m)
      && (Truthy(Get(m, "degrees")) <==> |parts["name"]| > |BaseName(m)|)
      && (Truthy(Get(m, "degrees")) ==> parts["name"][|BaseName(m)|..] == ", " + Text(Get(m, "degrees")))
  {
    if !Truthy(c) then map["name" := "No contact"]
    else
      var m := c.fields;
      var name := BaseName(m);
      var name := if Truthy(Get(m, "degrees")) then name + ", " + Text(Get(m, "degrees")) else name;
      var parts := map["name" := name];
      var parts := if Truthy(Get(m, "email")) then parts["email" := Text(Get(m, "email"))] else parts;
      if Truthy(Get(m, "phone")) then
        var phone := Text(Get(m, "phone"));
        var phone := if Truthy(Get(m, "phone_ext")) then phone + " (" + Text(Get(m, "phone_ext")) + ")" else phone;
        parts["phone" := phone]
      else parts
  }

  /** Without degrees, the name of a contact whose name parts hold no space splits on
      spaces back into exactly those parts. */
  lemma ContactNameSplits(c: Value)
    requires ContactShaped(c) && c.Obj? && Truthy(c)
    requires !Truthy(Get(c.fields, "degrees"))
    requires NameParts(c.fields) != []
    requires forall i :: 0 <= i < |NameParts(c.fields)| ==> ' ' !in NameParts(c.fields)[i]
    ensures Strings.Split(ContactParts(c)["name"], ' ') == NameParts(c.fields)
  {
    Strings.SplitJoin(NameParts(c.fields), ' ');
  }
}
