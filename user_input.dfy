/**
 * `validate_user_input_tool` (tools/user_input.py): the agent's tool that
 * checks one field of user input ("email", "phone" or "date") and answers
 * with a sentence saying whether it is acceptable.
 */
module UserInput {
  import opened Calendar
  import opened Validators
  import opened DateParsing

  /** What the tool gives back: its return string, or the exception it lets through. */
  datatype Reply = Says(text: string) | Raises(error: string)

  // The longer replies are written as concatenations of short literals so
  // that the verifier can see their first characters, which tell them apart.
  const ValidEmailReply: string := "Valid email address"
  const BadEmailReply: string := "Invalid email format. " + "Please enter a valid email (e.g., user@example.com)"
  const ValidPhoneReply: string := "Valid phone number"
  const BadPhoneReply: string := "Invalid phone number. " + "Please enter a valid phone number (e.g., +977XXXXXXXXXX)"
  const DateReplyPrefix: string := "Date parsed as: "
  const BadDateReply: string :=
    "Could not parse date. " + "Please specify a date (e.g., 'next Monday', '2024-12-25', 'tomorrow')"
  const UnknownFieldReply: string := "Field validation not implemented " + "for this field type"

  /**
   * `validate_user_input_tool(field, value)` at the moment `now`. Only a
   * date raises, and only the overflow past year 9999 from the last days of
   * December 9999; any field other than the three known ones is answered
   * with the "not implemented" sentence.
   */
  function ValidateUserInput(field: string, value: string, now: Moment): (r: Reply)
    requires IsValidMoment(now)
    ensures r.Raises? ==>
      field == "date" && r.error == OverflowMessage
      && now.date.year == MaxYear && now.date.month == 12 && now.date.day > 24
    ensures field != "email" && field != "phone" && field != "date" ==> r == Says(UnknownFieldReply)
  {
    if field == "email" then
      Says(if ValidateEmail(value) then ValidEmailReply else BadEmailReply)
    else if field == "phone" then
      Says(if ValidatePhone(value) then ValidPhoneReply else BadPhoneReply)
    else if field == "date" then
      match ParseDateFromText(value, now)
      case OutOfRange => Raises(OverflowMessage)
      case NotFound => Says(BadDateReply)
      case Found(s) => Says(if s != "" then DateReplyPrefix + s else BadDateReply)
    else Says(UnknownFieldReply)
  }

  /**
   * For an email, the tool says "valid" exactly when the text has the
   * shape `local@domain.tld` (allowing one final newline), and otherwise
   * it says "invalid"; it never raises.
   */
  lemma EmailVerdict(value: string, now: Moment)
    requires IsValidMoment(now)
    ensures var r := ValidateUserInput("email", value, now);
      && (r == Says(ValidEmailReply) <==>
            EmailShape(value) || (|value| > 0 && value[|value| - 1] == '\n' && EmailShape(value[..|value| - 1])))
      && (r != Says(ValidEmailReply) ==> r == Says(BadEmailReply))
  {
    assert ValidEmailReply != BadEmailReply by {
      assert ValidEmailReply[0] != BadEmailReply[0];
    }
  }

  /**
   * For a phone number, the tool says "valid" exactly when its digits and
   * `+` signs spell a Nepali mobile number, bare, after `0` or after `+977`.
   */
  lemma PhoneVerdict(value: string, now: Moment)
    requires IsValidMoment(now)
    ensures var r := ValidateUserInput("phone", value, now);
      && (r == Says(ValidPhoneReply) <==> NepaliMobile(CleanPhone(value)))
      && (r != Says(ValidPhoneReply) ==> r == Says(BadPhoneReply))
  {
    assert ValidPhoneReply != BadPhoneReply by {
      assert ValidPhoneReply[0] != BadPhoneReply[0];
    }
  }

  /**
   * For a date, the tool reports the resolved date, a real calendar date
   * written `YYYY-MM-DD`, exactly when the resolver finds one; it raises
   * only when the resolver overflows past year 9999.
   */
  lemma DateVerdict(value: string, now: Moment)
    requires IsValidMoment(now)
    ensures var r := ValidateUserInput("date", value, now);
      var p := ParseDateFromText(value, now);
      && (p.Found? ==> r == Says(DateReplyPrefix + p.iso) && IsIsoDate(p.iso))
      && (p.NotFound? ==> r == Says(BadDateReply))
      && (r.Raises? <==> p.OutOfRange?)
      && (r.Raises? ==> now.date.year == MaxYear && now.date.month == 12)
  {
  }

  /** Any field name other than the three exact, lower-case ones is not handled. */
  lemma OtherFieldsNotHandled(field: string, value: string, now: Moment)
    requires IsValidMoment(now)
    ensures ValidateUserInput(field, value, now) == Says(UnknownFieldReply)
      <==> field != "email" && field != "phone" && field != "date"
  {
    var r := ValidateUserInput(field, value, now);
    assert UnknownFieldReply[0] == 'F';
    assert ValidEmailReply[0] == 'V' && BadEmailReply[0] == 'I';
    assert ValidPhoneReply[0] == 'V' && BadPhoneReply[0] == 'I';
    assert BadDateReply[0] == 'C';
    assert forall s :: (DateReplyPrefix + s)[0] == 'D';
  }
}
