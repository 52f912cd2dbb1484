/**
 * `ChatbotAgent` (agents/chatbot_agent.py): one conversational turn.
 *
 * A turn either starts the booking conversation (the user asked to be
 * called), continues it (asking for name, phone, email and date in that
 * order, then booking), or answers a general question from the uploaded
 * documents, falling back to the tool-calling agent.
 *
 * The decision is modelled as pure functions over a snapshot of the
 * user's details (`Respond`, `CollectInfo`); the classes `UserInfo` and
 * `ChatbotAgent` carry the mutable state and their methods are proved to
 * do what those functions say. The document chain, the agent, the
 * spreadsheet, the mail server and the clock are collaborators whose
 * behaviour during the turn is a parameter (`World`).
 */
module Chatbot {
  import opened Wrappers
  import opened Text
  import opened Calendar
  import opened Validators
  import opened DateParsing
  import opened Effects
  import opened Booking

  /** `ConversationState`; `BookingAppointment` is declared but never entered. */
  datatype ConversationState = General | CollectingInfo | BookingAppointment

  /** A snapshot of the four fields of a `UserInfo`. */
  datatype Info = Info(name: Option<string>, phone: Option<string>, email: Option<string>,
                       appointmentDate: Option<string>)

  /** `UserInfo()`: nothing collected yet. */
  const NoInfo: Info := Info(None, None, None, None)

  /** Python truthiness of an optional string: present and not empty. */
  predicate Filled(f: Option<string>) {
    f.Some? && f.value != ""
  }

  /** How the collaborators behave during one turn, and the moment it happens. */
  datatype World = World(now: Moment, sheet: Outcome, mail: Outcome, qa: QaOutcome, agent: AgentOutcome)

  /** `get_response` returns a `(reply, state)` pair, or lets an exception through. */
  datatype Answer = Returns(reply: string, state: ConversationState) | Raised(error: string)

  /** One turn: the answer, the user's details afterwards, the collaborator calls made. */
  datatype Turn = Turn(answer: Answer, info: Info, calls: seq<Call>)

  const CallKeywords: seq<string> :=
    ["call me", "book appointment", "schedule appointment", "book a call", "contact me"]

  const AskNameReply: string :=
    "I'd be happy to help you book an appointment! Let me collect some information from you. What's your full name?"
  const AskPhoneReply: string := "Great! Now, could you please provide your phone number?"
  const BadPhoneReply: string := "Please provide a valid phone number (e.g., +91XXXXXXXXXX or 10-digit number)."
  const AskEmailReply: string := "Perfect! Now, please provide your email address."
  const BadEmailReply: string := "Please provide a valid email address (e.g., user@example.com)."
  const AskDateReply: string :=
    "Excellent! Finally, when would you like to schedule the appointment? (e.g., 'next Monday', 'tomorrow', or '2024-12-25')"
  const BadDateReply: string :=
    "I couldn't understand the date. Please specify when you'd like to book (e.g., 'next Monday', 'tomorrow', or '2024-12-25')."
  const ThankYouReply: string := "Thank you for the information!"
  const SorryReply: string := "I'm sorry, I couldn't process your request."
  const AgentErrorPrefix: string := "I encountered an error: "
  const DocumentsErrorPrefix: string := "Error querying documents: "
  const DontKnow: string := "I don't know"

  /** Some call keyword occurs in the lower-cased query. */
  predicate AsksForCall(query: string) {
    exists k | 0 <= k < |CallKeywords| :: Contains(Lower(query), CallKeywords[k])
  }

  /**
   * `_handle_info_collection(query, user_info)`: store the answer to the
   * first question not yet answered, or book once all four are known.
   * The turn stays in collection or ends in the general state; it raises
   * only the date overflow, changing nothing; and the only calls are those
   * of booking the collected name, phone and email with the date the query
   * resolves to, after which the details are reset.
   */
  function CollectInfo(query: string, info: Info, w: World): (t: Turn)
    requires IsValidMoment(w.now)
    ensures t.answer.Returns? ==> t.answer.state == CollectingInfo || t.answer.state == General
    ensures t.answer.Raised? ==> t.answer.error == OverflowMessage && t.info == info && t.calls == []
    ensures t.calls != [] ==>
      && t.answer.Returns? && t.answer.state == General && t.info == NoInfo
      && Filled(info.name) && Filled(info.phone) && Filled(info.email)
      && ParseDateFromText(query, w.now).Found?
      && t.calls == BookAppointment(info.name.value, info.phone.value, info.email.value,
                                    ParseDateFromText(query, w.now).iso, w.sheet, w.mail).calls
  {
    if !Filled(info.name) then
      Turn(Returns(AskPhoneReply, CollectingInfo), info.(name := Some(Strip(query))), [])
    else if !Filled(info.phone) then
      if ValidatePhone(query) then
        Turn(Returns(AskEmailReply, CollectingInfo), info.(phone := Some(Strip(query))), [])
      else Turn(Returns(BadPhoneReply, CollectingInfo), info, [])
    else if !Filled(info.email) then
      if ValidateEmail(query) then
        Turn(Returns(AskDateReply, CollectingInfo), info.(email := Some(Strip(query))), [])
      else Turn(Returns(BadEmailReply, CollectingInfo), info, [])
    else if !Filled(info.appointmentDate) then
      match ParseDateFromText(query, w.now)
      case OutOfRange => Turn(Raised(OverflowMessage), info, [])
      case NotFound => Turn(Returns(BadDateReply, CollectingInfo), info, [])
      case Found(date) =>
        if date == "" then Turn(Returns(BadDateReply, CollectingInfo), info, [])
        else
          var booked := BookAppointment(info.name.value, info.phone.value, info.email.value, date,
                                        w.sheet, w.mail);
          Turn(Returns(booked.reply, General), NoInfo, booked.calls)
    else Turn(Returns(ThankYouReply, General), info, [])
  }

  /**
   * The document step of `get_response`: the chain's answer when there is
   * a chain and its answer is usable, and the calls the step made. The
   * chain is asked the query exactly when there is one, and an answer is
   * used only when it is not empty and does not say "I don't know".
   */
  function ConsultDocuments(query: string, hasQaChain: bool, qa: QaOutcome): (r: (Option<string>, seq<Call>))
    ensures r.1 == [] <==> !hasQaChain
    ensures r.1 != [] ==> r.1[0] == RunQa(query)
    ensures r.0.Some? ==> qa == QaAnswer(r.0.value) && r.0.value != "" && !Contains(r.0.value, DontKnow)
  {
    if !hasQaChain then (None, [])
    else match qa
      case QaAnswer(text) =>
        (if text != "" && !Contains(text, DontKnow) then Some(text) else None, [RunQa(query)])
      case QaFails(e) => (None, [RunQa(query), ShowError(DocumentsErrorPrefix + e)])
  }

  /**
   * The agent step of `get_response`: it always returns, in the state it
   * was given, with the agent's output when there is one.
   */
  function AskAgent(state: ConversationState, agent: AgentOutcome): (a: Answer)
    ensures a.Returns? && a.state == state
    ensures agent.AgentOutput? && agent.output.Some? ==> a.reply == agent.output.value
  {
    match agent
    case AgentOutput(output) => Returns(output.GetOr(SorryReply), state)
    case AgentFails(e) => Returns(AgentErrorPrefix + e, state)
  }

  /**
   * `get_response(query, user_info, conversation_state)`. The state moves
   * only into collection, on a call request, or from collection back to
   * general; the user's details change only during collection; and only
   * collection can raise.
   */
  function Respond(query: string, info: Info, state: ConversationState, hasQaChain: bool, w: World): (t: Turn)
    requires IsValidMoment(w.now)
    ensures t.answer.Returns? && t.answer.state != state ==>
      (AsksForCall(query) && t.answer.state == CollectingInfo)
      || (state == CollectingInfo && t.answer.state == General)
    ensures t.info != info ==> state == CollectingInfo && !AsksForCall(query)
    ensures t.answer.Raised? ==> state == CollectingInfo && !AsksForCall(query)
  {
    if AsksForCall(query) then Turn(Returns(AskNameReply, CollectingInfo), info, [])
    else if state == CollectingInfo then CollectInfo(query, info, w)
    else
      var (answer, qaCalls) := ConsultDocuments(query, hasQaChain, w.qa);
      match answer
      case Some(text) => Turn(Returns(text, state), info, qaCalls)
      case None => Turn(AskAgent(state, w.agent), info, qaCalls + [InvokeAgent(query)])
  }

  // ---------------------------------------------------------------------
  // The mutable objects.
  // ---------------------------------------------------------------------

  /** The `UserInfo` dataclass, updated in place by the collection step. */
  class UserInfo {
    var name: Option<string>
    var phone: Option<string>
    var email: Option<string>
    var appointmentDate: Option<string>

    constructor()
      ensures Snapshot() == NoInfo
    {
      name, phone, email, appointmentDate := None, None, None, None;
    }

    function Snapshot(): Info
      reads this
    {
      Info(name, phone, email, appointmentDate)
    }
  }

  /**
   * The agent object. Of its fields only whether a vector store and a
   * retrieval chain exist matters to the turn logic.
   */
  class ChatbotAgent {
    var hasVectorstore: bool
    var hasQaChain: bool

    constructor()
      ensures !hasVectorstore && !hasQaChain
    {
      hasVectorstore, hasQaChain := false, false;
    }

    /**
     * `load_documents`: `built` says whether document processing produced
     * a vector store. A failed load keeps the chain of an earlier load.
     */
    method LoadDocuments(built: bool) returns (loaded: bool)
      modifies this
      ensures loaded == built && hasVectorstore == built
      ensures hasQaChain == (built || old(hasQaChain))
    {
      hasVectorstore := built;
      if hasVectorstore {
        hasQaChain := true;
        return true;
      }
      return false;
    }

    /** `_handle_info_collection`: updates `user` in place as `CollectInfo` says. */
    method HandleInfoCollection(query: string, user: UserInfo, w: World)
      returns (answer: Answer, calls: seq<Call>)
      requires IsValidMoment(w.now)
      modifies user
      ensures Turn(answer, user.Snapshot(), calls) == CollectInfo(query, old(user.Snapshot()), w)
    {
      if !Filled(user.name) {
        user.name := Some(Strip(query));
        return Returns(AskPhoneReply, CollectingInfo), [];
      } else if !Filled(user.phone) {
        if ValidatePhone(query) {
          user.phone := Some(Strip(query));
          return Returns(AskEmailReply, CollectingInfo), [];
        } else {
          return Returns(BadPhoneReply, CollectingInfo), [];
        }
      } else if !Filled(user.email) {
        if ValidateEmail(query) {
          user.email := Some(Strip(query));
          return Returns(AskDateReply, CollectingInfo), [];
        } else {
          return Returns(BadEmailReply, CollectingInfo), [];
        }
      } else if !Filled(user.appointmentDate) {
        var parsed := ParseDateFromText(query, w.now);
        if parsed.OutOfRange? {
          return Raised(OverflowMessage), [];
        }
        if parsed.Found? && parsed.iso != "" {
          user.appointmentDate := Some(parsed.iso);
          var booked := BookAppointment(user.name.value, user.phone.value, user.email.value,
                                        user.appointmentDate.value, w.sheet, w.mail);
          user.name, user.phone, user.email, user.appointmentDate := None, None, None, None;
          return Returns(booked.reply, General), booked.calls;
        } else {
          return Returns(BadDateReply, CollectingInfo), [];
        }
      }
      return Returns(ThankYouReply, General), [];
    }

    /** `get_response`: answers as `Respond` says, updating `user` in place. */
    method GetResponse(query: string, user: UserInfo, state: ConversationState, w: World)
      returns (answer: Answer, calls: seq<Call>)
      requires IsValidMoment(w.now)
      modifies user
      ensures Turn(answer, user.Snapshot(), calls)
              == Respond(query, old(user.Snapshot()), state, hasQaChain, w)
    {
      if AsksForCall(query) {
        return Returns(AskNameReply, CollectingInfo), [];
      }
      if state == CollectingInfo {
        answer, calls := HandleInfoCollection(query, user, w);
        return;
      }
      calls := [];
      if hasQaChain {
        calls := [RunQa(query)];
        match w.qa
        case QaAnswer(text) =>
          if text != "" && !Contains(text, DontKnow) {
            return Returns(text, state), calls;
          }
        case QaFails(e) =>
          calls := calls + [ShowError(DocumentsErrorPrefix + e)];
      }
      calls := calls + [InvokeAgent(query)];
      answer := AskAgent(state, w.agent);
    }
  }

  // ---------------------------------------------------------------------
  // Properties of a turn.
  // ---------------------------------------------------------------------

  /**
   * What the collection step keeps true of the user's details between
   * turns: the date is only ever held during the booking turn itself, a
   * phone number is stored only after a name, an email only after a phone
   * number, and what is stored passes the validators.
   */
  predicate Valid(i: Info) {
    && i.appointmentDate == None
    && (i.phone.Some? ==> Filled(i.name) && Filled(i.phone) && ValidatePhone(i.phone.value))
    && (i.email.Some? ==> i.phone.Some? && Filled(i.email) && ValidateEmail(i.email.value))
  }

  lemma FreshInfoValid()
    ensures Valid(NoInfo)
  {
  }

  /** A query accepted as a phone number is still one after `strip()`, and is not empty. */
  lemma StoredPhoneValid(query: string)
    requires ValidatePhone(query)
    ensures Filled(Some(Strip(query))) && ValidatePhone(Strip(query))
  {
    PhoneStrip(query);
  }

  /** A query accepted as an email address is still one after `strip()`, and is not empty. */
  lemma StoredEmailValid(query: string)
    requires ValidateEmail(query)
    ensures Filled(Some(Strip(query))) && ValidateEmail(Strip(query))
  {
    ValidEmailStrip(query);
    EmailBodyNoSpace(Strip(query));
  }

  /** Every turn, whatever the query, state and collaborators, keeps the details `Valid`. */
  lemma TurnKeepsValid(query: string, info: Info, state: ConversationState, hasQaChain: bool, w: World)
    requires IsValidMoment(w.now) && Valid(info)
    ensures Valid(Respond(query, info, state, hasQaChain, w).info)
  {
    if !AsksForCall(query) && state == CollectingInfo {
      CollectKeepsValid(query, info, w);
    }
  }

  lemma CollectKeepsValid(query: string, info: Info, w: World)
    requires IsValidMoment(w.now) && Valid(info)
    ensures Valid(CollectInfo(query, info, w).info)
  {
    if !Filled(info.name) {
    } else if !Filled(info.phone) {
      if ValidatePhone(query) {
        StoredPhoneValid(query);
      }
    } else if !Filled(info.email) {
      if ValidateEmail(query) {
        StoredEmailValid(query);
      }
    }
  }

  /** How many of the four fields differ. */
  function Changed(a: Info, b: Info): nat {
    (if a.name != b.name then 1 else 0) + (if a.phone != b.phone then 1 else 0)
    + (if a.email != b.email then 1 else 0) + (if a.appointmentDate != b.appointmentDate then 1 else 0)
  }

  /**
   * A collection turn stores at most one answer, in the first field not
   * yet answered, and never overwrites an answered field; the only other
   * change is the reset to empty details after a booking attempt, which
   * happens only once name, phone and email are known and the date resolved.
   */
  lemma CollectTouchesFirstMissing(query: string, info: Info, w: World)
    requires IsValidMoment(w.now)
    ensures var r := CollectInfo(query, info, w).info;
      || r == NoInfo
      || (Changed(info, r) <= 1
          && (Filled(info.name) ==> r.name == info.name)
          && (Filled(info.phone) || !Filled(info.name) ==> r.phone == info.phone)
          && (Filled(info.email) || !Filled(info.phone) || !Filled(info.name) ==> r.email == info.email)
          && r.appointmentDate == info.appointmentDate)
    ensures var t := CollectInfo(query, info, w);
      t.info == NoInfo && info != NoInfo ==>
        && Filled(info.name) && Filled(info.phone) && Filled(info.email)
        && ParseDateFromText(query, w.now).Found?
        && t.answer.Returns? && t.answer.state == General
  {
  }

  /**
   * With a name known and no phone number yet, the answer is stored
   * (stripped) exactly when it passes the phone validator, and what is
   * stored passes it too; otherwise nothing changes and the phone is asked
   * for again. Collection goes on either way.
   */
  lemma PhoneStoredOnlyIfValid(query: string, info: Info, w: World)
    requires IsValidMoment(w.now) && Filled(info.name) && !Filled(info.phone)
    ensures var t := CollectInfo(query, info, w);
      && t.answer.Returns? && t.answer.state == CollectingInfo && t.calls == []
      && (t.info != info <==> ValidatePhone(query))
      && t.answer.reply == (if ValidatePhone(query) then AskEmailReply else BadPhoneReply)
      && (t.info != info ==> t.info == info.(phone := Some(Strip(query))) && ValidatePhone(Strip(query)))
  {
    if ValidatePhone(query) {
      StoredPhoneValid(query);
    }
  }

  /**
   * With name and phone number known and no email address yet, the answer
   * is stored (stripped) exactly when it passes the email validator, and
   * what is stored passes it too; otherwise nothing changes and the email
   * address is asked for again.
   */
  lemma EmailStoredOnlyIfValid(query: string, info: Info, w: World)
    requires IsValidMoment(w.now) && Filled(info.name) && Filled(info.phone) && !Filled(info.email)
    ensures var t := CollectInfo(query, info, w);
      && t.answer.Returns? && t.answer.state == CollectingInfo && t.calls == []
      && (t.info != info <==> ValidateEmail(query))
      && t.answer.reply == (if ValidateEmail(query) then AskDateReply else BadEmailReply)
      && (t.info != info ==> t.info == info.(email := Some(Strip(query))) && ValidateEmail(Strip(query)))
  {
    if ValidateEmail(query) {
      StoredEmailValid(query);
    }
  }

  /**
   * With name, phone and email known, an answer the date resolver cannot
   * read changes nothing and collection goes on; one that overflows past
   * year 9999 raises, also changing nothing.
   */
  lemma UnreadDateChangesNothing(query: string, info: Info, w: World)
    requires IsValidMoment(w.now) && Valid(info)
    requires Filled(info.name) && Filled(info.phone) && Filled(info.email)
    requires !ParseDateFromText(query, w.now).Found?
    ensures var t := CollectInfo(query, info, w);
      && t.info == info && t.calls == []
      && (t.answer.Returns? <==> ParseDateFromText(query, w.now).NotFound?)
      && (t.answer.Returns? ==> t.answer == Returns(BadDateReply, CollectingInfo))
  {
  }

  /**
   * Under `Valid`, the last answer books exactly the collected details and
   * the resolved date: the row is always appended (the tool's own email
   * and phone checks pass), the details are reset, and the conversation
   * returns to the general state with the tool's reply.
   */
  lemma CompletionBooksCollected(query: string, info: Info, w: World)
    requires IsValidMoment(w.now) && Valid(info)
    requires Filled(info.name) && Filled(info.phone) && Filled(info.email)
    requires ParseDateFromText(query, w.now).Found?
    ensures var t := CollectInfo(query, info, w);
      var date := ParseDateFromText(query, w.now).iso;
      var booked := BookAppointment(info.name.value, info.phone.value, info.email.value, date, w.sheet, w.mail);
      && IsIsoDate(date)
      && t == Turn(Returns(booked.reply, General), NoInfo, booked.calls)
      && |t.calls| >= 1 && t.calls[0] == AppendRow(info.name.value, info.phone.value, info.email.value, date)
      && t.answer.reply != InvalidEmailReply && t.answer.reply != InvalidPhoneReply
  {
    var date := ParseDateFromText(query, w.now).iso;
    InvalidInputsTouchNothing(info.name.value, info.phone.value, info.email.value, date, w.sheet, w.mail);
  }

  /**
   * Under `Valid`, collection ends (the state goes back to general) only
   * by a booking: the details are reset and the spreadsheet row was
   * attempted. The closing "thank you" of the source cannot be reached.
   */
  lemma CollectionEndsOnlyByBooking(query: string, info: Info, w: World)
    requires IsValidMoment(w.now) && Valid(info)
    ensures var t := CollectInfo(query, info, w);
      t.answer.Returns? && t.answer.state == General ==>
        t.info == NoInfo && |t.calls| >= 1 && t.calls[0].AppendRow?
  {
    if Filled(info.name) && Filled(info.phone) && Filled(info.email)
       && ParseDateFromText(query, w.now).Found? {
      CompletionBooksCollected(query, info, w);
    }
  }

  /**
   * A blank answer to the name question is stored as the empty name, so
   * the question about the phone number is asked but the next answer is
   * taken as the name again.
   */
  lemma BlankNameAskedAgain(query: string, next: string, info: Info, w: World)
    requires IsValidMoment(w.now) && !Filled(info.name) && Strip(query) == ""
    ensures var t := CollectInfo(query, info, w);
      && t.answer == Returns(AskPhoneReply, CollectingInfo)
      && !Filled(t.info.name)
      && CollectInfo(next, t.info, w).info.name == Some(Strip(next))
  {
  }

  /**
   * A call keyword anywhere in the query, in any letter case, restarts
   * collection whatever the state: the name is asked for, nothing is
   * called, and the details collected so far are kept.
   */
  lemma CallRequestRestarts(query: string, info: Info, state: ConversationState, hasQaChain: bool,
                            w: World, k: nat)
    requires IsValidMoment(w.now) && k < |CallKeywords| && Contains(Lower(query), CallKeywords[k])
    ensures Respond(query, info, state, hasQaChain, w) == Turn(Returns(AskNameReply, CollectingInfo), info, [])
  {
  }

  /**
   * Outside collection, a turn never raises, never changes the state and
   * never touches the details; the agent is invoked exactly when the
   * documents gave no usable answer (no chain, an exception, an empty
   * answer, or one saying "I don't know"), and then its answer is the
   * reply: its output, or the fixed replies for a missing output or an
   * error. The chain is run exactly when there is one. The turn's own
   * code makes no spreadsheet or mail call; a booking the agent makes
   * through its own tools happens inside the `InvokeAgent` call and is not
   * modelled.
   */
  lemma GeneralTurn(query: string, info: Info, state: ConversationState, hasQaChain: bool, w: World)
    requires IsValidMoment(w.now) && !AsksForCall(query) && state != CollectingInfo
    ensures var t := Respond(query, info, state, hasQaChain, w);
      var usable := hasQaChain && w.qa.QaAnswer? && w.qa.text != "" && !Contains(w.qa.text, DontKnow);
      && t.info == info
      && t.answer.Returns? && t.answer.state == state
      && (usable ==> t == Turn(Returns(w.qa.text, state), info, [RunQa(query)]))
      && (InvokeAgent(query) in t.calls <==> !usable)
      && (RunQa(query) in t.calls <==> hasQaChain)
      && (!usable && w.agent.AgentFails? ==> t.answer.reply == AgentErrorPrefix + w.agent.error)
      && (!usable && w.agent == AgentOutput(None) ==> t.answer.reply == SorryReply)
      && (!usable && w.agent.AgentOutput? && w.agent.output.Some? ==> t.answer.reply == w.agent.output.value)
      && (!usable ==> t.answer == AskAgent(state, w.agent))
      && (forall c :: c in t.calls ==> !c.AppendRow? && !c.SendEmail?)
  {
  }

  /** The collection step calls only the spreadsheet and the mail server. */
  lemma CollectCallsOnlyBook(query: string, info: Info, w: World)
    requires IsValidMoment(w.now)
    ensures forall c :: c in CollectInfo(query, info, w).calls ==> c.AppendRow? || c.SendEmail?
  {
    var calls := CollectInfo(query, info, w).calls;
    if calls != [] {
      var name, phone, email := info.name.value, info.phone.value, info.email.value;
      var d := ParseDateFromText(query, w.now).iso;
      RowBeforeEmail(name, phone, email, d, w.sheet, w.mail);
      var row := AppendRow(name, phone, email, d);
      assert calls == [row] || calls == [row, SendEmail(email, name, d)];
    }
  }

  /** A collection turn consults neither the documents nor the agent. */
  lemma CollectingNeverAsksAgent(query: string, info: Info, hasQaChain: bool, w: World)
    requires IsValidMoment(w.now)
    ensures var t := Respond(query, info, CollectingInfo, hasQaChain, w);
      forall c :: c in t.calls ==> c.AppendRow? || c.SendEmail?
  {
    if !AsksForCall(query) {
      assert Respond(query, info, CollectingInfo, hasQaChain, w) == CollectInfo(query, info, w);
      CollectCallsOnlyBook(query, info, w);
    }
  }

  /**
   * Four answers in a row, none asking to be called, from fresh details:
   * a name, a valid phone number, a valid email address and a resolvable
   * date are stored one per turn, each turn asking the next question, and
   * the fourth books exactly those (stripped) answers and the resolved date.
   */
  lemma FourAnswersBook(q1: string, q2: string, q3: string, q4: string, hasQaChain: bool,
                        w1: World, w2: World, w3: World, w4: World)
    requires IsValidMoment(w1.now) && IsValidMoment(w2.now) && IsValidMoment(w3.now) && IsValidMoment(w4.now)
    requires !AsksForCall(q1) && !AsksForCall(q2) && !AsksForCall(q3) && !AsksForCall(q4)
    requires Strip(q1) != "" && ValidatePhone(q2) && ValidateEmail(q3)
    requires ParseDateFromText(q4, w4.now).Found?
    ensures var i1 := Info(Some(Strip(q1)), None, None, None);
      var i2 := i1.(phone := Some(Strip(q2)));
      var i3 := i2.(email := Some(Strip(q3)));
      && Respond(q1, NoInfo, CollectingInfo, hasQaChain, w1) == Turn(Returns(AskPhoneReply, CollectingInfo), i1, [])
      && Respond(q2, i1, CollectingInfo, hasQaChain, w2) == Turn(Returns(AskEmailReply, CollectingInfo), i2, [])
      && Respond(q3, i2, CollectingInfo, hasQaChain, w3) == Turn(Returns(AskDateReply, CollectingInfo), i3, [])
      && BooksWith(Respond(q4, i3, CollectingInfo, hasQaChain, w4),
                   Strip(q1), Strip(q2), Strip(q3), ParseDateFromText(q4, w4.now).iso)
  {
    var i1 := Info(Some(Strip(q1)), None, None, None);
    var i2 := i1.(phone := Some(Strip(q2)));
    var i3 := i2.(email := Some(Strip(q3)));
    FreshInfoValid();
    NameTurn(q1, NoInfo, hasQaChain, w1);
    PhoneTurn(q2, i1, hasQaChain, w2);
    StoredPhoneValid(q2);
    EmailTurn(q3, i2, hasQaChain, w3);
    StoredEmailValid(q3);
    assert Valid(i3);
    DateTurn(q4, i3, hasQaChain, w4);
  }

  /**
   * While the name is missing or blank, the answer is stored as the stripped
   * name, whatever it is, and the phone is asked for; valid details without
   * a name hold nothing else, so the name is then all they hold.
   */
  lemma NameTurn(query: string, info: Info, hasQaChain: bool, w: World)
    requires IsValidMoment(w.now) && !AsksForCall(query)
    requires Valid(info) && !Filled(info.name)
    ensures Respond(query, info, CollectingInfo, hasQaChain, w)
         == Turn(Returns(AskPhoneReply, CollectingInfo), Info(Some(Strip(query)), None, None, None), [])
  {
    RespondWhileCollecting(query, info, hasQaChain, w);
  }

  lemma PhoneTurn(query: string, info: Info, hasQaChain: bool, w: World)
    requires IsValidMoment(w.now) && !AsksForCall(query) && ValidatePhone(query)
    requires Filled(info.name) && !Filled(info.phone)
    ensures Respond(query, info, CollectingInfo, hasQaChain, w)
         == Turn(Returns(AskEmailReply, CollectingInfo), info.(phone := Some(Strip(query))), [])
  {
    RespondWhileCollecting(query, info, hasQaChain, w);
  }

  lemma EmailTurn(query: string, info: Info, hasQaChain: bool, w: World)
    requires IsValidMoment(w.now) && !AsksForCall(query) && ValidateEmail(query)
    requires Filled(info.name) && Filled(info.phone) && !Filled(info.email)
    ensures Respond(query, info, CollectingInfo, hasQaChain, w)
         == Turn(Returns(AskDateReply, CollectingInfo), info.(email := Some(Strip(query))), [])
  {
    RespondWhileCollecting(query, info, hasQaChain, w);
  }

  lemma DateTurn(query: string, info: Info, hasQaChain: bool, w: World)
    requires IsValidMoment(w.now) && !AsksForCall(query) && Valid(info)
    requires Filled(info.name) && Filled(info.phone) && Filled(info.email)
    requires ParseDateFromText(query, w.now).Found?
    ensures BooksWith(Respond(query, info, CollectingInfo, hasQaChain, w),
                      info.name.value, info.phone.value, info.email.value, ParseDateFromText(query, w.now).iso)
  {
    RespondWhileCollecting(query, info, hasQaChain, w);
    CompletionBooksCollected(query, info, w);
  }

  /** The turn reset the details, returned to the general state and appended this row first. */
  predicate BooksWith(t: Turn, name: string, phone: string, email: string, date: string) {
    && t.info == NoInfo && t.answer.Returns? && t.answer.state == General
    && |t.calls| >= 1 && t.calls[0] == AppendRow(name, phone, email, date)
  }

  lemma RespondWhileCollecting(query: string, info: Info, hasQaChain: bool, w: World)
    requires IsValidMoment(w.now) && !AsksForCall(query)
    ensures Respond(query, info, CollectingInfo, hasQaChain, w) == CollectInfo(query, info, w)
  {
  }
}
