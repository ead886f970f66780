/**
 * The contact form (client/src/components/AddContactModal.tsx): the schema's
 * name, phone and email rules, the object handed to `onSubmit`, and the
 * values the form is reset to. The email format check belongs to the
 * validation library and is a parameter here.
 */
module ContactForm {
  import opened Common
  import opened Schema
  import Storage

  /** The form's values; `email` is `None` when the field is undefined. */
  datatype FormData = FormData(name: string, phone: string, email: Option<string>, sendSms: bool, sendEmail: bool)

  /** Line 17. */
  predicate NameValid(name: string) {
    |name| >= 2
  }

  /**
   * Line 18: `^\+?[1-9]\d{1,14}$`, read left to right. An accepted number
   * is 2 to 16 characters long and ends in a digit.
   */
  predicate PhoneValid(phone: string): (ok: bool)
    ensures ok ==> 2 <= |phone| <= 16 && IsDigit(phone[|phone| - 1])
  {
    var rest := if StartsWith(phone, "+") then phone[1..] else phone;
    && 2 <= |rest| <= 15
    && '1' <= rest[0] <= '9'
    && AllDigits(rest[1..])
  }

  /**
   * The pattern in other words: at most one `+`, only in front, and then
   * 2 to 15 digits of which the first is not `0`. Spaces, dashes and
   * parentheses are refused.
   */
  lemma PhoneValidIff(phone: string)
    ensures PhoneValid(phone) <==>
      var digits := DigitsOnly(phone);
      && (phone == digits || phone == "+" + digits)
      && 2 <= |digits| <= 15
      && digits[0] != '0'
  {
    var digits := DigitsOnly(phone);
    var rest := if StartsWith(phone, "+") then phone[1..] else phone;
    DigitsAfterPlus(phone);
    if PhoneValid(phone) {
      assert rest == [rest[0]] + rest[1..];
      assert AllDigits(rest);
      DigitsOnlyOfDigits(rest);
    }
    if (phone == digits || phone == "+" + digits) && 2 <= |digits| <= 15 && digits[0] != '0' {
      if phone == "+" + digits {
        assert rest == digits;
      } else {
        assert AllDigits(phone);
      }
    }
  }

  /** A leading `+` contributes no digit. */
  lemma DigitsAfterPlus(phone: string)
    ensures StartsWith(phone, "+") ==> phone == "+" + phone[1..] && DigitsOnly(phone) == DigitsOnly(phone[1..])
  {
    if StartsWith(phone, "+") {
      assert phone == "+" + phone[1..];
      DigitsOnlyAppend("+", phone[1..]);
      assert DigitsOnly("+") == "";
    }
  }

  /** The field's own placeholder is refused: it holds spaces, parentheses and a dash. */
  lemma PlaceholderRejected()
    ensures !PhoneValid("+1 (123) 456-7890")
  {
    var rest := "1 (123) 456-7890";
    assert "+1 (123) 456-7890"[1..] == rest;
    assert !IsDigit(rest[1..][0]);
  }

  /** Line 21: left out, empty, or accepted by the email check. */
  predicate EmailValid(email: Option<string>, isEmail: string -> bool) {
    email.None? || email.value == "" || isEmail(email.value)
  }

  /** Lines 16-24: the whole schema; a valid form has a name of two or more characters and a phone of 2 to 16. */
  predicate FormValid(d: FormData, isEmail: string -> bool): (ok: bool)
    ensures ok ==> |d.name| >= 2 && 2 <= |d.phone| <= 16
  {
    NameValid(d.name) && PhoneValid(d.phone) && EmailValid(d.email, isEmail)
  }

  /**
   * The characters `String.prototype.trim` removes (ECMAScript 2024,
   * sections 12.2 and 12.3): tab, vertical tab, form feed, space, no-break
   * space, the byte order mark, the other space separators of Unicode, and
   * the four line terminators.
   */
  predicate IsTrimmed(c: char) {
    var n := c as int;
    || n == 0x09 || n == 0x0B || n == 0x0C || n == 0x20 || n == 0xA0 || n == 0xFEFF
    || n == 0x1680 || (0x2000 <= n <= 0x200A) || n == 0x202F || n == 0x205F || n == 0x3000
    || n == 0x0A || n == 0x0D || n == 0x2028 || n == 0x2029
  }

  function TrimStart(s: string): (r: string)
    ensures |r| <= |s| && r == s[|s| - |r|..]
    ensures r != [] ==> !IsTrimmed(r[0])
    ensures forall i :: 0 <= i < |s| - |r| ==> IsTrimmed(s[i])
  {
    if s != [] && IsTrimmed(s[0]) then TrimStart(s[1..]) else s
  }

  function TrimEnd(s: string): (r: string)
    ensures |r| <= |s| && r == s[..|r|]
    ensures r != [] ==> !IsTrimmed(r[|r| - 1])
    ensures forall i :: |r| <= i < |s| ==> IsTrimmed(s[i])
  {
    if s != [] && IsTrimmed(s[|s| - 1]) then TrimEnd(s[..|s| - 1]) else s
  }

  /** `s.trim()`. */
  function Trim(s: string): string {
    TrimEnd(TrimStart(s))
  }

  /** What is left after trimming is empty exactly when every character is white space. */
  lemma TrimEmptyIff(s: string)
    ensures Trim(s) == "" <==> forall i :: 0 <= i < |s| ==> IsTrimmed(s[i])
  {
  }

  /** Line 74: `email && email.trim() !== ''` keeps the email untrimmed, otherwise null. */
  function SubmittedEmail(email: Option<string>): (r: Input<string>)
    ensures r.Given? <==> email.Some? && exists i :: 0 <= i < |email.value| && !IsTrimmed(email.value[i])
    ensures r.Given? ==> r.value == email.value
    ensures !r.Given? ==> r.Null?
  {
    TrimEmptyIffExists(email);
    if email.Some? && email.value != "" && Trim(email.value) != "" then Given(email.value) else Null
  }

  lemma TrimEmptyIffExists(email: Option<string>)
    ensures email.Some? ==>
      (email.value != "" && Trim(email.value) != "" <==> exists i :: 0 <= i < |email.value| && !IsTrimmed(email.value[i]))
  {
    if email.Some? {
      TrimEmptyIff(email.value);
    }
  }

  /** Lines 68-79: the contact handed to `onSubmit`. */
  function Submit(d: FormData): (c: NewContact)
    ensures c.name == d.name && c.phone == d.phone
    ensures c.email == SubmittedEmail(d.email)
    ensures c.sendSms == Given(d.sendSms) && c.sendEmail == Given(d.sendEmail)
    ensures c.userId == Null
  {
    NewContact(d.name, d.phone, SubmittedEmail(d.email), Given(d.sendSms), Given(d.sendEmail), Null)
  }

  /**
   * Once stored, a submitted contact keeps the form's choices: both flags as
   * ticked, no user, and an email only when it has a visible character.
   */
  lemma SubmittedContactStored(d: FormData, id: int)
    ensures var c := Storage.WithDefaults(Submit(d), id);
      && c.name == d.name && c.phone == d.phone
      && c.sendSms == Some(d.sendSms) && c.sendEmail == Some(d.sendEmail)
      && c.userId.None?
      && (c.email.Some? <==> d.email.Some? && exists i :: 0 <= i < |d.email.value| && !IsTrimmed(d.email.value[i]))
      && (c.email.Some? ==> c.email == d.email)
  {
  }

  /** Lines 37-43 and 57-63: an empty form with SMS on and email off. */
  const EmptyForm := FormData("", "", Some(""), true, false)

  /**
   * The empty form cannot be submitted: its name and phone are refused,
   * while its empty email passes, and so does any name of two characters.
   */
  lemma EmptyFormRejected(isEmail: string -> bool, a: char, b: char)
    ensures !NameValid(EmptyForm.name) && !PhoneValid(EmptyForm.phone)
    ensures EmailValid(EmptyForm.email, isEmail)
    ensures !FormValid(EmptyForm, isEmail)
    ensures !NameValid([a]) && NameValid([a, b])
  {
  }

  /** Lines 47-64: the values the form shows for a contact being edited, or the empty form. */
  function ResetValues(contact: Option<Contact>): (d: FormData)
    ensures contact.None? ==> d == EmptyForm
    ensures contact.Some? ==>
      && d.name == contact.value.name && d.phone == contact.value.phone
      && d.email == Some(if contact.value.email.Some? then contact.value.email.value else "")
      && d.sendSms == (contact.value.sendSms != Some(false))
      && d.sendEmail == (contact.value.sendEmail == Some(true))
  {
    match contact
    case None => EmptyForm
    case Some(c) =>
      FormData(c.name, c.phone,
               Some(if c.email.Some? && c.email.value != "" then c.email.value else ""),
               if c.sendSms.None? then true else c.sendSms.value,
               if c.sendEmail.None? then false else c.sendEmail.value)
  }

  /**
   * Editing a contact and submitting without changes gives back its fields,
   * with null flags replaced by their defaults, a blank email dropped, and no user.
   */
  lemma ResubmitKeepsContact(c: Contact)
    ensures var n := Submit(ResetValues(Some(c)));
      && n.name == c.name && n.phone == c.phone
      && n.sendSms == Given(c.sendSms != Some(false))
      && n.sendEmail == Given(c.sendEmail == Some(true))
      && n.userId == Null
      && (c.email.Some? && (exists i :: 0 <= i < |c.email.value| && !IsTrimmed(c.email.value[i])) ==>
            n.email == Given(c.email.value))
      && (c.email.None? ==> n.email == Null)
  {
  }
}
