/**
 * `book_appointment_tool` (tools/booking.py): check the email and the phone
 * number, append the booking as a row of the spreadsheet, send the
 * confirmation email, and report in one reply string how far it got.
 * The spreadsheet and the mail server are collaborators whose outcome is
 * a parameter; the calls made to them are part of the result.
 */
module Booking {
  import opened Text
  import opened Validators
  import opened Effects

  // Replies are written as concatenations of short literals so that the
  // verifier can see their characters, which tells the replies apart.
  const InvalidEmailReply: string := "Invalid email format. " + "Please provide a valid email address."
  const InvalidPhoneReply: string := "Invalid phone number. " + "Please provide a valid phone number."
  const SheetFailurePrefix: string := "\U{26A0}\U{FE0F} Could not log to Google Sheet: "
  const EmailFailureReply: string := "\U{26A0}\U{FE0F} Booked, but failed to send email"

  /** The lines of the source's triple-quoted confirmation template around the four fields. */
  const ConfirmationHead: string := "\n    \U{2705} Appointment Successfully Booked!" + "\n    \n    "
  const LineBreak: string := "\n    "
  const ConfirmationTail: string := "\n    \n    " + "You will receive a confirmation email shortly." + "\n    "

  /** The four labelled lines of the confirmation. */
  function FieldLines(name: string, phone: string, email: string, date: string): string {
    ("Name: " + name) + (LineBreak + (("Phone: " + phone) + (LineBreak
    + (("Email: " + email) + (LineBreak + ("Date: " + date))))))
  }

  /** The confirmation text: a heading, one labelled line per field, a closing sentence. */
  function Confirmation(name: string, phone: string, email: string, date: string): string {
    ConfirmationHead + (FieldLines(name, phone, email, date) + ConfirmationTail)
  }

  /** The tool's reply and the calls it made to its collaborators, in order. */
  datatype ToolRun = ToolRun(reply: string, calls: seq<Call>)

  /**
   * `book_appointment_tool(name, phone, email, appointment_date)` when
   * appending the row ends as `sheet` and sending the email as `mail`.
   * A collaborator is called only for valid inputs, the spreadsheet row
   * first, and at most the row and the email are attempted.
   */
  function BookAppointment(name: string, phone: string, email: string, date: string,
                           sheet: Outcome, mail: Outcome): (r: ToolRun)
    ensures |r.calls| <= 2
    ensures r.calls != [] ==> InputsValid(phone, email) && r.calls[0] == AppendRow(name, phone, email, date)
    ensures r.calls == [] ==> r.reply == InvalidEmailReply || r.reply == InvalidPhoneReply
  {
    if !ValidateEmail(email) then ToolRun(InvalidEmailReply, [])
    else if !ValidatePhone(phone) then ToolRun(InvalidPhoneReply, [])
    else
      var row := AppendRow(name, phone, email, date);
      match sheet
      case Fails(e) => ToolRun(SheetFailurePrefix + e, [row])
      case Succeeds =>
        var calls := [row, SendEmail(email, name, date)];
        match mail
        case Fails(_) => ToolRun(EmailFailureReply, calls)
        case Succeeds => ToolRun(Confirmation(name, phone, email, date), calls)
  }

  /** Both the email and the phone number pass their validators. */
  predicate InputsValid(phone: string, email: string) {
    ValidateEmail(email) && ValidatePhone(phone)
  }

  /**
   * Nothing is written and nothing is sent unless both inputs are valid;
   * the email is checked first, so a bad email is reported even when the
   * phone number is bad too.
   */
  lemma InvalidInputsTouchNothing(name: string, phone: string, email: string, date: string,
                                  sheet: Outcome, mail: Outcome)
    ensures var r := BookAppointment(name, phone, email, date, sheet, mail);
      && (r.calls == [] <==> !InputsValid(phone, email))
      && (r.reply == InvalidEmailReply <==> !ValidateEmail(email))
      && (r.reply == InvalidPhoneReply <==> ValidateEmail(email) && !ValidatePhone(phone))
  {
    FirstCharsDiffer(name, phone, email, date);
  }

  /**
   * The row is always appended before the email is sent, and the email is
   * sent only when the row was appended: the calls made are a prefix of
   * `[AppendRow(...), SendEmail(...)]`, cut after the first failure.
   */
  lemma RowBeforeEmail(name: string, phone: string, email: string, date: string,
                       sheet: Outcome, mail: Outcome)
    ensures var r := BookAppointment(name, phone, email, date, sheet, mail);
      var all := [AppendRow(name, phone, email, date), SendEmail(email, name, date)];
      && |r.calls| <= 2 && r.calls == all[..|r.calls|]
      && (|r.calls| == 2 <==> InputsValid(phone, email) && sheet.Succeeds?)
  {
  }

  /** The first character of every kind of reply, which tells them apart. */
  lemma FirstCharsDiffer(name: string, phone: string, email: string, date: string)
    ensures Confirmation(name, phone, email, date)[0] == '\n'
    ensures InvalidEmailReply[0] == 'I' && InvalidPhoneReply[0] == 'I'
    ensures InvalidEmailReply != InvalidPhoneReply
    ensures EmailFailureReply[0] == '\U{26A0}'
    ensures forall e :: (SheetFailurePrefix + e)[0] == '\U{26A0}' && (SheetFailurePrefix + e)[3] == 'C'
    ensures EmailFailureReply[3] == 'B'
  {
    assert InvalidEmailReply[8] != InvalidPhoneReply[8];
    assert ConfirmationHead[0] == '\n';
  }

  /**
   * The reply says truthfully how far the booking got: the full
   * confirmation exactly when the row was appended and the email sent, the
   * "booked, but" warning exactly when only the row was appended, and the
   * spreadsheet warning exactly when valid inputs could not be recorded.
   */
  lemma ReplyTellsWhatHappened(name: string, phone: string, email: string, date: string,
                               sheet: Outcome, mail: Outcome)
    ensures var r := BookAppointment(name, phone, email, date, sheet, mail);
      && (r.reply == Confirmation(name, phone, email, date) <==>
            InputsValid(phone, email) && sheet.Succeeds? && mail.Succeeds?)
      && (r.reply == EmailFailureReply <==>
            InputsValid(phone, email) && sheet.Succeeds? && mail.Fails?)
      && (StartsWith(r.reply, SheetFailurePrefix) <==>
            InputsValid(phone, email) && sheet.Fails?)
  {
    var c := Confirmation(name, phone, email, date);
    FirstCharsDiffer(name, phone, email, date);
    SheetFailureStart(c);
    SheetFailureStart(EmailFailureReply);
    SheetFailureStart(InvalidEmailReply);
    SheetFailureStart(InvalidPhoneReply);
    if InputsValid(phone, email) && sheet.Fails? {
      assert (SheetFailurePrefix + sheet.error)[..|SheetFailurePrefix|] == SheetFailurePrefix;
    }
  }

  /** What every reply starting with the spreadsheet warning starts with. */
  lemma SheetFailureStart(s: string)
    ensures StartsWith(s, SheetFailurePrefix) ==> s[0] == '\U{26A0}' && s[3] == 'C'
  {
    if StartsWith(s, SheetFailurePrefix) {
      assert s[0] == s[..|SheetFailurePrefix|][0];
      assert s[3] == s[..|SheetFailurePrefix|][3];
    }
  }

  /** An occurrence in a part is an occurrence in the whole. */
  lemma ContainsInConcat(x: string, y: string, p: string)
    ensures Contains(x, p) ==> Contains(x + y, p)
    ensures Contains(y, p) ==> Contains(x + y, p)
  {
    if Contains(x, p) {
      var i :| OccursAt(x, p, i);
      assert OccursAt(x, p, i);
      assert (x + y)[i..i + |p|] == x[i..i + |p|];
      assert OccursAt(x + y, p, i);
    }
    if Contains(y, p) {
      var i :| OccursAt(y, p, i);
      assert OccursAt(y, p, i);
      assert (x + y)[|x| + i..|x| + i + |p|] == y[i..i + |p|];
      assert OccursAt(x + y, p, |x| + i);
    }
  }

  lemma ContainsItself(p: string)
    ensures Contains(p, p)
  {
    assert OccursAt(p, p, 0);
  }

  /** The confirmation repeats every one of the four booked fields, each on its own labelled line. */
  lemma ConfirmationNamesFields(name: string, phone: string, email: string, date: string)
    ensures var c := Confirmation(name, phone, email, date);
      && Contains(c, "Name: " + name) && Contains(c, "Phone: " + phone)
      && Contains(c, "Email: " + email) && Contains(c, "Date: " + date)
  {
    var a, b, m, d := "Name: " + name, "Phone: " + phone, "Email: " + email, "Date: " + date;
    var r3 := LineBreak + d;
    var r2 := LineBreak + (m + r3);
    var r1 := LineBreak + (b + r2);
    ContainsItself(a);
    ContainsItself(b);
    ContainsItself(m);
    ContainsItself(d);
    ContainsInConcat(LineBreak, d, d);
    ContainsInConcat(m, r3, m);
    ContainsInConcat(m, r3, d);
    ContainsInConcat(LineBreak, m + r3, m);
    ContainsInConcat(LineBreak, m + r3, d);
    ContainsInConcat(b, r2, b);
    ContainsInConcat(b, r2, m);
    ContainsInConcat(b, r2, d);
    ContainsInConcat(LineBreak, b + r2, b);
    ContainsInConcat(LineBreak, b + r2, m);
    ContainsInConcat(LineBreak, b + r2, d);
    var f := a + r1;
    assert f == FieldLines(name, phone, email, date);
    ContainsInConcat(a, r1, a);
    ContainsInConcat(a, r1, b);
    ContainsInConcat(a, r1, m);
    ContainsInConcat(a, r1, d);
    FieldsSurviveFrame(f, a);
    FieldsSurviveFrame(f, b);
    FieldsSurviveFrame(f, m);
    FieldsSurviveFrame(f, d);
  }

  lemma FieldsSurviveFrame(f: string, p: string)
    requires Contains(f, p)
    ensures Contains(ConfirmationHead + (f + ConfirmationTail), p)
  {
    ContainsInConcat(f, ConfirmationTail, p);
    ContainsInConcat(ConfirmationHead, f + ConfirmationTail, p);
  }
}
