/**
 * The contact form of the marketing site (`Contact`): the phone field keeps
 * only digits, the email field is checked against the site's email
 * pattern, and Send clears the form when every field is filled in and the
 * shared "invalid input" flag is clear.
 *
 * The first name, last name, email and message fields are uncontrolled
 * inputs whose values the page reads from the DOM; the model keeps them as
 * fields of the form object.
 */
module Contact {
  import opened Seqs
  import opened JsText

  // ---------------------------------------------------------------------------
  // The phone field.

  /** `inputValue.replace(/\D/g, '')` keeps exactly the digits, in their order, and is idempotent. */
  lemma {:induction false} StrippedNumber(s: string)
    ensures KeepDigits(s) == Filter(s, IsDigit)
    ensures IsSubsequence(KeepDigits(s), s)
    ensures forall ch :: ch in KeepDigits(s) <==> ch in s && IsDigit(ch)
    ensures KeepDigits(KeepDigits(s)) == KeepDigits(s)
    decreases |s|
  {
    if s != [] {
      StrippedNumber(s[1..]);
    }
    FilterIsSubsequence(s, IsDigit);
  }

  // ---------------------------------------------------------------------------
  // The email pattern `^[\w-]+(\.[\w-]+)*@([\w-]+\.)+[a-zA-Z]{2,7}$`.

  /** The class `[\w-]`: ASCII letters, digits, `_` and `-`. */
  predicate IsWordChar(ch: char)
  {
    ('a' <= ch <= 'z') || ('A' <= ch <= 'Z') || IsDigit(ch) || ch == '_' || ch == '-'
  }

  predicate IsLetter(ch: char)
  {
    ('a' <= ch <= 'z') || ('A' <= ch <= 'Z')
  }

  /** `[\w-]+(\.[\w-]+)*`: one or more non-empty runs of word characters separated by single dots. */
  predicate DottedWords(s: string)
  {
    && |s| > 0
    && s[0] != '.' && s[|s| - 1] != '.'
    && (forall i :: 0 <= i < |s| ==> IsWordChar(s[i]) || s[i] == '.')
    && (forall i :: 0 <= i < |s| - 1 ==> s[i] != '.' || s[i + 1] != '.')
  }

  /** `[a-zA-Z]{2,7}`. */
  predicate TopLevel(t: string)
  {
    2 <= |t| <= 7 && forall i :: 0 <= i < |t| ==> IsLetter(t[i])
  }

  /** `([\w-]+\.)+[a-zA-Z]{2,7}`: dotted words, a dot, and a top-level label of 2 to 7 letters. */
  predicate Domain(d: string)
  {
    exists k :: 0 < k < |d| && d[k] == '.' && DottedWords(d[..k]) && TopLevel(d[k + 1..])
  }

  /** The whole pattern: a dotted local part, `@`, and a domain. */
  predicate EmailValid(s: string)
  {
    exists a :: 0 <= a < |s| && s[a] == '@' && DottedWords(s[..a]) && Domain(s[a + 1..])
  }

  /** Every address the pattern accepts contains `@`, so none consists of digits only. */
  lemma EmailNotDigits(s: string)
    ensures EmailValid(s) ==> !AllDigits(s)
  {
    if EmailValid(s) {
      var a :| 0 <= a < |s| && s[a] == '@' && DottedWords(s[..a]) && Domain(s[a + 1..]);
      assert !IsDigit(s[a]);
    }
  }

  /** An ordinary address matches the pattern. */
  lemma SampleEmailValid()
    ensures EmailValid("a@b.co")
  {
    var s := "a@b.co";
    var d := s[2..];
    assert d[1] == '.' && DottedWords(d[..1]) && TopLevel(d[2..]);
    assert s[1] == '@' && DottedWords(s[..1]) && Domain(d);
  }

  /** `handlemailvalidation` as written: the flag is `!/^\d*$/.test(v) || !isEmailValid`. */
  function EmailFlagAsWritten(v: string): bool
  {
    !AllDigits(v) || !EmailValid(v)
  }

  /** As written, every keystroke in the email field marks the input invalid, a valid address included. */
  lemma EmailFlagAsWrittenAlwaysSet(v: string)
    ensures EmailFlagAsWritten(v)
    ensures EmailFlagAsWritten("a@b.co") && EmailValid("a@b.co")
  {
    EmailNotDigits(v);
    SampleEmailValid();
  }

  /** The flag the email handler evidently means to set: the address does not match the pattern. */
  function EmailFlag(v: string): (invalid: bool)
    ensures !invalid <==> EmailValid(v)
    ensures AllDigits(v) ==> invalid
    ensures v == "a@b.co" ==> !invalid
  {
    EmailNotDigits(v);
    SampleEmailValid();
    !EmailValid(v)
  }

  // ---------------------------------------------------------------------------
  // The form.

  /** The plain text fields, typed into directly. */
  datatype Field = FirstName | LastName | Message

  /** What Send does: warn about a missing field, do nothing, or submit the number and clear the form. */
  datatype Outcome = MissingFields | Blocked | Sent(contactNumber: string)

  class ContactForm {
    var firstName: string
    var lastName: string
    var email: string
    var message: string
    /** The `contactNumber` state, shown in the phone field. */
    var contactNumber: string
    /** The `isInvalidInput` state, shared by the phone and email fields. */
    var invalid: bool

    constructor()
      ensures firstName == "" && lastName == "" && email == "" && message == ""
      ensures contactNumber == "" && !invalid
    {
      firstName, lastName, email, message := "", "", "", "";
      contactNumber := "";
      invalid := false;
    }

    /** Some field Send requires is empty. */
    predicate Incomplete()
      reads this
    {
      contactNumber == "" || firstName == "" || lastName == "" || email == "" || message == ""
    }

    /** Typing into a plain text field replaces its value. */
    method Edit(f: Field, v: string)
      modifies this
      ensures f == FirstName ==> firstName == v
      ensures f != FirstName ==> firstName == old(firstName)
      ensures f == LastName ==> lastName == v
      ensures f != LastName ==> lastName == old(lastName)
      ensures f == Message ==> message == v
      ensures f != Message ==> message == old(message)
      ensures email == old(email) && contactNumber == old(contactNumber) && invalid == old(invalid)
    {
      match f {
        case FirstName => firstName := v;
        case LastName => lastName := v;
        case Message => message := v;
      }
    }

    /** `handleContactNumberChange`: keep the digits; the flag says whether anything else was typed. */
    method ContactNumberChange(input: string)
      modifies this
      ensures contactNumber == KeepDigits(input) && AllDigits(contactNumber)
      ensures invalid <==> exists i :: 0 <= i < |input| && !IsDigit(input[i])
      ensures firstName == old(firstName) && lastName == old(lastName)
      ensures email == old(email) && message == old(message)
    {
      contactNumber := KeepDigits(input);
      invalid := !AllDigits(input);
    }

    /** `handlemailvalidation`, with the flag set only when the address does not match the pattern. */
    method EmailChange(input: string)
      modifies this
      ensures email == input
      ensures invalid <==> !EmailValid(input)
      ensures firstName == old(firstName) && lastName == old(lastName)
      ensures message == old(message) && contactNumber == old(contactNumber)
    {
      email := input;
      invalid := EmailFlag(input);
    }

    /**
     * `handleSubmit`: with a required field empty it only warns; with the
     * flag set it does nothing; otherwise it submits the number and clears
     * all five fields, so an immediate second Send only warns.
     */
    method Submit() returns (o: Outcome)
      modifies this
      ensures old(Incomplete()) ==> o == MissingFields
      ensures !old(Incomplete()) && old(invalid) ==> o == Blocked
      ensures !old(Incomplete()) && !old(invalid) ==> o == Sent(old(contactNumber))
      ensures !o.Sent? ==> (
        && firstName == old(firstName) && lastName == old(lastName)
        && email == old(email) && message == old(message) && contactNumber == old(contactNumber))
      ensures o.Sent? ==> (
        && firstName == "" && lastName == "" && email == "" && message == ""
        && contactNumber == "" && Incomplete())
      ensures invalid == old(invalid)
    {
      if Incomplete() {
        return MissingFields;
      }
      if !invalid {
        o := Sent(contactNumber);
        contactNumber := "";
        firstName := "";
        lastName := "";
        email := "";
        message := "";
      } else {
        o := Blocked;
      }
    }
  }
}
