/** The public takedown request form (`TakedownRequestForm.tsx`): its
    fields, the client-side validation, and editing a field. */
module TakedownForm {
  import opened Wrappers
  import Text

  /** The form's fields, by the keys the form state and the error map use. */
  datatype Field =
    | FullName | Email | Phone | Organization
    | WorkTitle | WorkDoi | CopyrightRegistration | Relationship
    | WastedbUrl | MiuId | ContentDescription
    | GoodFaithBelief | AccuracyStatement | MisrepresentationWarning
    | Signature | SignatureDate | Honeypot

  /** The three legal statements are checkboxes; every other field is text. */
  predicate IsCheckbox(f: Field) {
    f == GoodFaithBelief || f == AccuracyStatement || f == MisrepresentationWarning
  }

  /** A field's value: the text of an input or the state of a checkbox. */
  datatype Value = Str(text: string) | Flag(checked: bool)

  /** `formData`: the text of every input and the state of every
      checkbox, by field. */
  datatype Form = Form(text: Field -> string, checked: Field -> bool)

  /** The form as it opens: everything empty or unchecked, dated `today`. */
  function Initial(today: string): (f: Form)
    ensures forall g :: !IsCheckbox(g) && g != SignatureDate ==> Get(f, g) == Str("")
    ensures forall g :: IsCheckbox(g) ==> Get(f, g) == Flag(false)
    ensures Get(f, SignatureDate) == Str(today)
  {
    Form((g: Field) => if g == SignatureDate then today else "", (g: Field) => false)
  }

  /** The value stored under a field. */
  function Get(f: Form, g: Field): (v: Value)
    ensures v.Flag? <==> IsCheckbox(g)
  {
    if IsCheckbox(g) then Flag(f.checked(g)) else Str(f.text(g))
  }

  /** `{ ...prev, [field]: value }`: the field takes the value and every
      other field keeps its own. */
  function Set(f: Form, g: Field, v: Value): (r: Form)
    requires v.Flag? <==> IsCheckbox(g)
    ensures Get(r, g) == v
    ensures forall h :: h != g ==> Get(r, h) == Get(f, h)
  {
    match v
    case Str(s) => f.(text := (h: Field) => if h == g then s else f.text(h))
    case Flag(b) => f.(checked := (h: Field) => if h == g then b else f.checked(h))
  }

  /** The fields the form validates. */
  const ValidatedFields: set<Field> := {
    FullName, Email, WorkTitle, Relationship, WastedbUrl, ContentDescription,
    GoodFaithBelief, AccuracyStatement, MisrepresentationWarning, Signature}

  /** The signature test: the signature lower-cased must equal the full
      name lower-cased and then trimmed; the signature itself is not
      trimmed. */
  predicate SignatureMatches(f: Form) {
    Text.Lower(f.text(Signature)) == Text.Trim(Text.Lower(f.text(FullName)))
  }

  /** The message `validateForm` leaves under a field, if any. The form
      checks the fields in order and a later message for the same field
      replaces an earlier one: a missing '@' overrides a blank email, and a
      mismatch overrides a blank signature. */
  function Message(f: Form, g: Field): (m: Option<string>)
    ensures m.Some? ==> m.value != "" && g in ValidatedFields
  {
    match g
    case FullName => if Text.IsBlank(f.text(FullName)) then Some("Full name is required") else None
    case Email =>
      if '@' !in f.text(Email) then Some("Valid email is required")
      else if Text.IsBlank(f.text(Email)) then Some("Email is required")
      else None
    case WorkTitle => if Text.IsBlank(f.text(WorkTitle)) then Some("Work title is required") else None
    case Relationship =>
      if Text.IsBlank(f.text(Relationship)) then Some("Relationship to copyright is required") else None
    case WastedbUrl => if Text.IsBlank(f.text(WastedbUrl)) then Some("WasteDB URL is required") else None
    case ContentDescription =>
      if Text.IsBlank(f.text(ContentDescription)) then Some("Content description is required") else None
    case GoodFaithBelief => if !f.checked(GoodFaithBelief) then Some("This statement is required") else None
    case AccuracyStatement => if !f.checked(AccuracyStatement) then Some("This statement is required") else None
    case MisrepresentationWarning =>
      if !f.checked(MisrepresentationWarning) then Some("You must acknowledge this warning") else None
    case Signature =>
      if !SignatureMatches(f) then Some("Signature must match your full name exactly")
      else if Text.IsBlank(f.text(Signature)) then Some("Electronic signature is required")
      else None
    case _ => None
  }

  /** `validateForm`'s error map: each validated field's message, if it
      has one. */
  function Errors(f: Form): map<Field, string> {
    map g | g in ValidatedFields && Message(f, g).Some? :: Message(f, g).value
  }

  /** Only validated fields are reported, each with a non-empty message. */
  lemma ErrorsHaveMessages(f: Form)
    ensures forall g :: g in Errors(f) ==> g in ValidatedFields && Errors(f)[g] != ""
  {
  }

  /** The required text fields are reported exactly when blank. */
  lemma RequiredTextRule(f: Form)
    ensures FullName in Errors(f) <==> Text.IsBlank(f.text(FullName))
    ensures WorkTitle in Errors(f) <==> Text.IsBlank(f.text(WorkTitle))
    ensures Relationship in Errors(f) <==> Text.IsBlank(f.text(Relationship))
    ensures WastedbUrl in Errors(f) <==> Text.IsBlank(f.text(WastedbUrl))
    ensures ContentDescription in Errors(f) <==> Text.IsBlank(f.text(ContentDescription))
  {
  }

  /** Each legal statement is reported exactly when unchecked. */
  lemma StatementRule(f: Form)
    ensures GoodFaithBelief in Errors(f) <==> !f.checked(GoodFaithBelief)
    ensures AccuracyStatement in Errors(f) <==> !f.checked(AccuracyStatement)
    ensures MisrepresentationWarning in Errors(f) <==> !f.checked(MisrepresentationWarning)
  {
  }

  /** The email is reported when blank or without '@', and a missing '@'
      decides the message. */
  lemma EmailRule(f: Form)
    ensures Email in Errors(f) <==> Text.IsBlank(f.text(Email)) || '@' !in f.text(Email)
    ensures Email in Errors(f) ==>
      Errors(f)[Email] == (if '@' !in f.text(Email) then "Valid email is required" else "Email is required")
  {
  }

  /** The signature is reported when blank or not matching the name, and a
      mismatch decides the message. */
  lemma SignatureRule(f: Form)
    ensures Signature in Errors(f) <==> Text.IsBlank(f.text(Signature)) || !SignatureMatches(f)
    ensures Signature in Errors(f) ==>
      Errors(f)[Signature] == (if !SignatureMatches(f) then "Signature must match your full name exactly"
                               else "Electronic signature is required")
  {
  }

  /** What the form requires, stated field by field. */
  predicate Acceptable(f: Form) {
    !Text.IsBlank(f.text(FullName)) && !Text.IsBlank(f.text(Email)) && '@' in f.text(Email)
    && !Text.IsBlank(f.text(WorkTitle)) && !Text.IsBlank(f.text(Relationship))
    && !Text.IsBlank(f.text(WastedbUrl)) && !Text.IsBlank(f.text(ContentDescription))
    && f.checked(GoodFaithBelief) && f.checked(AccuracyStatement) && f.checked(MisrepresentationWarning)
    && !Text.IsBlank(f.text(Signature)) && SignatureMatches(f)
  }

  /** `validateForm`: the errors it stores and whether the form may be sent. */
  function Validate(f: Form): (r: (map<Field, string>, bool))
    ensures r.0 == Errors(f)
    ensures r.1 <==> |r.0| == 0
  {
    var e := Errors(f);
    (e, |e| == 0)
  }

  /** The form passes validation exactly when it meets every requirement. */
  lemma ValidateIff(f: Form)
    ensures Validate(f).1 <==> Acceptable(f)
  {
    var e := Errors(f);
    RequiredTextRule(f);
    StatementRule(f);
    EmailRule(f);
    SignatureRule(f);
    if Acceptable(f) {
      assert forall g :: g !in e;
      assert e.Keys == {};
    } else {
      assert exists g :: g in e;
    }
  }

  /** An address without '@' never passes, whatever else is filled in. */
  lemma EmailWithoutAtFails(f: Form)
    requires '@' !in f.text(Email)
    ensures !Validate(f).1
    ensures Errors(f)[Email] == "Valid email is required"
  {
    EmailRule(f);
  }

  /** Since only the full name is trimmed, a signature ending in
      whitespace never matches. */
  lemma TrailingSpaceSignatureFails(f: Form)
    requires |f.text(Signature)| > 0 && Text.IsWhite(f.text(Signature)[|f.text(Signature)| - 1])
    ensures Signature in Errors(f)
    ensures !Validate(f).1
  {
    SignatureRule(f);
    var lowered := Text.Lower(f.text(Signature));
    var name := Text.Trim(Text.Lower(f.text(FullName)));
    Text.TrimIsTrimmed(Text.Lower(f.text(FullName)));
    Text.LowerCharWhite(f.text(Signature)[|f.text(Signature)| - 1]);
    assert Text.IsWhite(lowered[|lowered| - 1]);
    assert lowered != name by {
      if |name| == |lowered| {
        assert !Text.IsWhite(name[|name| - 1]);
      }
    }
  }

  /** For a full name without surrounding spaces, a non-blank signature
      that differs from it only in letter case is accepted. */
  lemma CaseInsensitiveSignature(f: Form)
    requires Text.IsTrimmed(f.text(FullName)) && !Text.IsBlank(f.text(Signature))
    requires Text.Lower(f.text(Signature)) == Text.Lower(f.text(FullName))
    ensures Signature !in Errors(f)
  {
    SignatureRule(f);
    Text.LowerTrimmed(f.text(FullName));
    Text.TrimOfTrimmed(Text.Lower(f.text(FullName)));
  }

  /** `handleChange`: the field takes the value, and the field's own error,
      if it has a message, is cleared; other errors stay. */
  function Change(f: Form, e: map<Field, string>, g: Field, v: Value): (r: (Form, map<Field, string>))
    requires v.Flag? <==> IsCheckbox(g)
    ensures Get(r.0, g) == v && forall h :: h != g ==> Get(r.0, h) == Get(f, h)
    ensures forall h :: h != g ==> (h in r.1 <==> h in e) && (h in r.1 ==> r.1[h] == e[h])
    ensures g in r.1 <==> g in e && e[g] == ""
  {
    (Set(f, g, v), if g in e && e[g] != "" then e - {g} else e)
  }

  /** When every error has a message, editing a field clears exactly
      that field's error. */
  lemma ChangeClears(f: Form, e: map<Field, string>, g: Field, v: Value)
    requires v.Flag? <==> IsCheckbox(g)
    requires forall h :: h in e ==> e[h] != ""
    ensures Change(f, e, g, v).1 == e - {g}
  {
  }

  /** After validation every error has a message, so editing a field always
      clears that field's error and no other. */
  lemma ChangeAfterValidate(f: Form, g: Field, v: Value)
    requires v.Flag? <==> IsCheckbox(g)
    ensures Change(f, Errors(f), g, v).1 == Errors(f) - {g}
  {
    var e := Errors(f);
    ErrorsHaveMessages(f);
    ChangeClears(f, e, g, v);
  }
}
