/** The contact form's validation schema. */
module ContactForm {
  import opened Wrappers
  import opened Schema

  datatype Contact = Contact(
    name: string,
    email: string,
    phone: Option<string>,
    subject: string,
    message: string)

  datatype Field = Name | Email | Phone | Subject | Message

  /** The values the form starts with; the subject select starts unselected. */
  const DefaultContact: Contact := Contact("", "", Some(""), "", "")

  /** Every rule of `contactFormSchema` except the phone's that a form
      breaks, as the keys of the form's error object. `isEmail` stands for
      zod's e-mail check. */
  function OtherIssues(c: Contact, isEmail: string -> bool): set<Field>
  {
    Check(MinLength(c.name, 2), Name)
    + Check(isEmail(c.email), Email)
    + Check(MinLength(c.subject, 2), Subject)
    + Check(MinLength(c.message, 10), Message)
  }

  /** The schema as written: the phone may be left out, but a present phone,
      even the empty one the form starts with, needs ten characters. */
  function IssuesAsWritten(c: Contact, isEmail: string -> bool): set<Field>
  {
    OtherIssues(c, isEmail) + Check(OptionalMinLength(c.phone, 10), Phone)
  }

  /** The schema with the phone optional as its label says: left blank, it is
      accepted like an absent one. */
  function Issues(c: Contact, isEmail: string -> bool): set<Field>
  {
    OtherIssues(c, isEmail) + Check(BlankOrMinLength(c.phone, 10), Phone)
  }

  predicate Valid(c: Contact, isEmail: string -> bool)
  {
    Issues(c, isEmail) == {}
  }

  /** Each field is reported exactly when its own rule fails. */
  lemma IssuesPerField(c: Contact, isEmail: string -> bool)
    ensures Name in Issues(c, isEmail) <==> |c.name| < 2
    ensures Email in Issues(c, isEmail) <==> !isEmail(c.email)
    ensures Phone in Issues(c, isEmail) <==> c.phone.Some? && c.phone.value != "" && |c.phone.value| < 10
    ensures Subject in Issues(c, isEmail) <==> |c.subject| < 2
    ensures Message in Issues(c, isEmail) <==> |c.message| < 10
  {
  }

  /** The schema as written differs from the corrected one on the phone alone,
      and there only for the empty phone. */
  lemma AsWrittenDiffersOnBlankPhone(c: Contact, isEmail: string -> bool)
    ensures IssuesAsWritten(c, isEmail) - {Phone} == Issues(c, isEmail) - {Phone}
    ensures Phone in IssuesAsWritten(c, isEmail) <==> c.phone.Some? && |c.phone.value| < 10
    ensures Phone in IssuesAsWritten(c, isEmail) <==> Phone in Issues(c, isEmail) || c.phone == Some("")
  {
  }

  /** A form passes exactly when every rule holds. */
  lemma ValidIff(c: Contact, isEmail: string -> bool)
    ensures Valid(c, isEmail) <==>
      && |c.name| >= 2 && isEmail(c.email)
      && (c.phone.None? || c.phone.value == "" || |c.phone.value| >= 10)
      && |c.subject| >= 2 && |c.message| >= 10
  {
    IssuesPerField(c, isEmail);
  }

  /** The schema as written passes a form exactly when every rule holds, the
      phone being absent or at least ten characters long. */
  lemma ValidAsWrittenIff(c: Contact, isEmail: string -> bool)
    ensures IssuesAsWritten(c, isEmail) == {} <==>
      && |c.name| >= 2 && isEmail(c.email)
      && (c.phone.None? || |c.phone.value| >= 10)
      && |c.subject| >= 2 && |c.message| >= 10
  {
    IssuesPerField(c, isEmail);
    AsWrittenDiffersOnBlankPhone(c, isEmail);
  }

  /** The form as first shown is refused whatever the e-mail check says: the
      name, subject and message are empty, and as written the default phone,
      present but empty, fails too. */
  lemma DefaultContactRejected(isEmail: string -> bool)
    ensures Name in IssuesAsWritten(DefaultContact, isEmail) && Phone in IssuesAsWritten(DefaultContact, isEmail)
    ensures Subject in IssuesAsWritten(DefaultContact, isEmail) && Message in IssuesAsWritten(DefaultContact, isEmail)
    ensures !Valid(DefaultContact, isEmail)
  {
    IssuesPerField(DefaultContact, isEmail);
  }

  /** A message complete in every respect except that the optional phone was left blank. */
  const BlankPhoneMessage: Contact :=
    Contact("Julia", "julia@example.org", Some(""), "General Inquiry", "When is the next festival?")

  /** As written, that message is refused for its phone alone; the corrected schema accepts it. */
  lemma BlankPhoneRejectedAsWritten(isEmail: string -> bool)
    requires isEmail(BlankPhoneMessage.email)
    ensures IssuesAsWritten(BlankPhoneMessage, isEmail) == {Phone}
    ensures Valid(BlankPhoneMessage, isEmail)
  {
    IssuesPerField(BlankPhoneMessage, isEmail);
  }

  /** With the corrected schema, leaving the phone blank is the same as leaving it out. */
  lemma BlankPhoneSameAsAbsent(c: Contact, isEmail: string -> bool)
    ensures Issues(c.(phone := Some("")), isEmail) == Issues(c.(phone := None), isEmail)
  {
    assert OtherIssues(c.(phone := Some("")), isEmail) == OtherIssues(c.(phone := None), isEmail);
  }
}
