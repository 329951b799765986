/** The membership application form: its validation schema and the
    areas-of-interest checkboxes. */
module JoinForm {
  import opened Wrappers
  import opened Schema
  import opened Sequences

  datatype MembershipForm = MembershipForm(
    firstName: string,
    lastName: string,
    email: string,
    phone: Option<string>,
    address: string,
    city: string,
    postalCode: string,
    country: string,
    membershipType: string,
    interests: seq<string>,
    experience: Option<string>,
    howHeard: string,
    agreeTerms: bool)

  /** The fields that carry a rule; `experience` and `howHeard` accept any string. */
  datatype Field =
    | FirstName | LastName | Email | Phone | Address | City | PostalCode | Country
    | MembershipType | Interests | AgreeTerms

  /** The values of `z.enum` for the membership type. */
  const MembershipTypes: seq<string> := ["standard", "student", "family", "supporter"]

  /** The values the form starts with. */
  const DefaultForm: MembershipForm :=
    MembershipForm("", "", "", Some(""), "", "", "", "", "standard", [], Some(""), "", false)

  /** Every rule of `membershipFormSchema` except the phone's that a form
      breaks, as the keys of the form's error object. `isEmail` stands for
      zod's e-mail check. */
  function OtherIssues(f: MembershipForm, isEmail: string -> bool): set<Field>
  {
    Check(MinLength(f.firstName, 2), FirstName)
    + Check(MinLength(f.lastName, 2), LastName)
    + Check(isEmail(f.email), Email)
    + Check(MinLength(f.address, 5), Address)
    + Check(MinLength(f.city, 2), City)
    + Check(MinLength(f.postalCode, 4), PostalCode)
    + Check(MinLength(f.country, 2), Country)
    + Check(f.membershipType in MembershipTypes, MembershipType)
    + Check(|f.interests| > 0, Interests)
    + Check(f.agreeTerms == true, AgreeTerms)
  }

  /** The schema as written: the phone may be left out, but a present phone,
      even the empty one the form starts with, needs ten characters. */
  function IssuesAsWritten(f: MembershipForm, isEmail: string -> bool): set<Field>
  {
    OtherIssues(f, isEmail) + Check(OptionalMinLength(f.phone, 10), Phone)
  }

  /** The schema with the phone optional as its label says: left blank, it is
      accepted like an absent one. */
  function Issues(f: MembershipForm, isEmail: string -> bool): set<Field>
  {
    OtherIssues(f, isEmail) + Check(BlankOrMinLength(f.phone, 10), Phone)
  }

  predicate Valid(f: MembershipForm, isEmail: string -> bool)
  {
    Issues(f, isEmail) == {}
  }

  /** Each field is reported exactly when its own rule fails. */
  lemma IssuesPerField(f: MembershipForm, isEmail: string -> bool)
    ensures FirstName in Issues(f, isEmail) <==> |f.firstName| < 2
    ensures LastName in Issues(f, isEmail) <==> |f.lastName| < 2
    ensures Email in Issues(f, isEmail) <==> !isEmail(f.email)
    ensures Phone in Issues(f, isEmail) <==> f.phone.Some? && f.phone.value != "" && |f.phone.value| < 10
    ensures Address in Issues(f, isEmail) <==> |f.address| < 5
    ensures City in Issues(f, isEmail) <==> |f.city| < 2
    ensures PostalCode in Issues(f, isEmail) <==> |f.postalCode| < 4
    ensures Country in Issues(f, isEmail) <==> |f.country| < 2
    ensures MembershipType in Issues(f, isEmail) <==>
              f.membershipType !in {"standard", "student", "family", "supporter"}
    ensures Interests in Issues(f, isEmail) <==> f.interests == []
    ensures AgreeTerms in Issues(f, isEmail) <==> !f.agreeTerms
  {
  }

  /** The schema as written differs from the corrected one on the phone alone,
      and there only for the empty phone. */
  lemma AsWrittenDiffersOnBlankPhone(f: MembershipForm, isEmail: string -> bool)
    ensures IssuesAsWritten(f, isEmail) - {Phone} == Issues(f, isEmail) - {Phone}
    ensures Phone in IssuesAsWritten(f, isEmail) <==> f.phone.Some? && |f.phone.value| < 10
    ensures Phone in IssuesAsWritten(f, isEmail) <==> Phone in Issues(f, isEmail) || f.phone == Some("")
  {
  }

  /** A form passes exactly when every rule holds. */
  lemma ValidIff(f: MembershipForm, isEmail: string -> bool)
    ensures Valid(f, isEmail) <==>
      && |f.firstName| >= 2 && |f.lastName| >= 2 && isEmail(f.email)
      && (f.phone.None? || f.phone.value == "" || |f.phone.value| >= 10)
      && |f.address| >= 5 && |f.city| >= 2 && |f.postalCode| >= 4 && |f.country| >= 2
      && f.membershipType in {"standard", "student", "family", "supporter"}
      && f.interests != [] && f.agreeTerms
  {
    IssuesPerField(f, isEmail);
  }

  /** The schema as written passes a form exactly when every rule holds, the
      phone being absent or at least ten characters long. */
  lemma ValidAsWrittenIff(f: MembershipForm, isEmail: string -> bool)
    ensures IssuesAsWritten(f, isEmail) == {} <==>
      && |f.firstName| >= 2 && |f.lastName| >= 2 && isEmail(f.email)
      && (f.phone.None? || |f.phone.value| >= 10)
      && |f.address| >= 5 && |f.city| >= 2 && |f.postalCode| >= 4 && |f.country| >= 2
      && f.membershipType in {"standard", "student", "family", "supporter"}
      && f.interests != [] && f.agreeTerms
  {
    IssuesPerField(f, isEmail);
    AsWrittenDiffersOnBlankPhone(f, isEmail);
  }

  /** No interest selected, or the terms not accepted: the application is
      refused, by the schema as written and by the corrected one. */
  lemma InterestsAndTermsRequired(f: MembershipForm, isEmail: string -> bool)
    requires f.interests == [] || !f.agreeTerms
    ensures !Valid(f, isEmail) && IssuesAsWritten(f, isEmail) != {}
  {
    IssuesPerField(f, isEmail);
  }

  /** The form as first shown is refused whatever the e-mail check says: as
      written the default phone is present but empty; with either schema no
      interest is selected and the terms are not accepted. */
  lemma DefaultFormRejected(isEmail: string -> bool)
    ensures Phone in IssuesAsWritten(DefaultForm, isEmail)
    ensures Interests in IssuesAsWritten(DefaultForm, isEmail) && AgreeTerms in IssuesAsWritten(DefaultForm, isEmail)
    ensures !Valid(DefaultForm, isEmail)
  {
    IssuesPerField(DefaultForm, isEmail);
  }

  /** An application complete in every respect except that the optional phone
      was left blank. */
  const BlankPhoneApplication: MembershipForm :=
    MembershipForm("Marcus", "Aurelius", "marcus@example.org", Some(""), "1 Forum Way", "Rome", "00100", "Italy",
      "standard", ["reenactment"], Some(""), "Other", true)

  /** As written, that application is refused for its phone alone; the
      corrected schema accepts it. */
  lemma BlankPhoneRejectedAsWritten(isEmail: string -> bool)
    requires isEmail(BlankPhoneApplication.email)
    ensures IssuesAsWritten(BlankPhoneApplication, isEmail) == {Phone}
    ensures Valid(BlankPhoneApplication, isEmail)
  {
    IssuesPerField(BlankPhoneApplication, isEmail);
    assert BlankPhoneApplication.membershipType in MembershipTypes;
  }

  /** With the corrected schema, leaving the phone blank is the same as leaving it out. */
  lemma BlankPhoneSameAsAbsent(f: MembershipForm, isEmail: string -> bool)
    ensures Issues(f.(phone := Some("")), isEmail) == Issues(f.(phone := None), isEmail)
  {
    assert OtherIssues(f.(phone := Some("")), isEmail) == OtherIssues(f.(phone := None), isEmail);
  }

  // ---------------------------------------------------------------------------
  // The interests checkboxes

  /** A checkbox is shown checked when its identifier is in the list. */
  predicate IsChecked(interests: seq<string>, id: string)
  {
    id in interests
  }

  /** `interests.filter(value => value !== id)` */
  function Without(interests: seq<string>, id: string): (r: seq<string>)
    ensures id !in r
    ensures forall x :: x != id ==> multiset(r)[x] == multiset(interests)[x]
  {
    if interests == [] then []
    else
      assert interests == [interests[0]] + interests[1..];
      var rest := Without(interests[1..], id);
      if interests[0] != id then [interests[0]] + rest else rest
  }

  /** `onCheckedChange`: checking appends the identifier, unchecking drops
      every copy of it. */
  function OnCheckedChange(interests: seq<string>, id: string, checked: bool): seq<string>
  {
    if checked then interests + [id] else Without(interests, id)
  }

  /** Checking shows the box checked, keeps the earlier selection as it was and
      adds the identifier once, at the end. */
  lemma CheckAppends(interests: seq<string>, id: string)
    ensures var r := OnCheckedChange(interests, id, true);
      && IsChecked(r, id)
      && r[..|interests|] == interests && |r| == |interests| + 1 && r[|interests|] == id
      && multiset(r)[id] == multiset(interests)[id] + 1
  {
    var r := OnCheckedChange(interests, id, true);
    assert r[..|interests|] == interests;
  }

  /** Unchecking shows the box unchecked and keeps every other identifier, as
      often as it was there and in its order. */
  lemma {:induction false} UncheckRemoves(interests: seq<string>, id: string)
    ensures var r := OnCheckedChange(interests, id, false);
      && !IsChecked(r, id)
      && (forall x :: x != id ==> multiset(r)[x] == multiset(interests)[x])
      && IsSubsequence(r, interests)
  {
    if interests != [] {
      UncheckRemoves(interests[1..], id);
      var rest := Without(interests[1..], id);
      if interests[0] != id {
        assert ([interests[0]] + rest)[1..] == rest;
      } else if rest != [] {
        assert rest[0] != interests[0];
      }
    }
  }

  /** Unchecking an identifier that is not selected changes nothing. */
  lemma {:induction false} UncheckAbsent(interests: seq<string>, id: string)
    requires id !in interests
    ensures Without(interests, id) == interests
  {
    if interests != [] {
      UncheckAbsent(interests[1..], id);
      assert interests == [interests[0]] + interests[1..];
    }
  }

  /** Checking and then unchecking a box that was unchecked restores the selection. */
  lemma {:induction false} CheckThenUncheck(interests: seq<string>, id: string)
    requires !IsChecked(interests, id)
    ensures OnCheckedChange(OnCheckedChange(interests, id, true), id, false) == interests
  {
    if interests == [] {
      assert interests + [id] == [id] && [id][1..] == [];
      assert Without([id], id) == Without([], id) == [];
    } else {
      CheckThenUncheck(interests[1..], id);
      assert interests + [id] == [interests[0]] + (interests[1..] + [id]);
      assert (interests + [id])[1..] == interests[1..] + [id];
      assert interests == [interests[0]] + interests[1..];
    }
  }
}
