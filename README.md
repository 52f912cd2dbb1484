# Appointment chatbot: validators, date resolver, booking tools and turn logic

This project models the core of a document question-answering chatbot that
can also book appointments. The model covers four parts:

- **Validators** (`utils/validators.py`):
  - `validate_email`, a fixed regular expression;
  - `validate_phone`, for Nepali mobile numbers after all characters other
    than digits and `+` are removed;
  - `parse_date_from_text`, which resolves phrases such as "today",
    "tomorrow", "next friday", "26th may" and "2024-12-25" into a
    `YYYY-MM-DD` date relative to the current moment.
- **Booking tool** (`tools/booking.py`): checks the email and the phone,
  appends a row to the spreadsheet, sends the confirmation email, and says in
  its reply how far it got.
- **Input validation tool** (`tools/user_input.py`): answers whether an
  email, phone or date field is acceptable.
- **Chatbot agent** (`agents/chatbot_agent.py`): one conversational turn.
  - A turn starts the booking conversation when the user asks to be called.
  - While booking, it asks for name, phone, email and date in that order and
    stores each answer in the mutable `UserInfo`.
  - With all four answers it books and resets the details.
  - Otherwise it answers from the uploaded documents, falling back to the
    tool-calling agent.

Modules:

- `Text`: character classes, `str.lower`, `str.strip`, substring search.
- `Calendar`: the proleptic Gregorian calendar of years 1 to 9999, ordinals,
  weekdays, adding days, and the `%Y-%m-%d` text form with its parse.
- `Validators`: the email and phone validators.
- `DateParsing`: the date resolver, with the current moment as a parameter.
- `Effects`: what the flow can observe of the spreadsheet, the mail server,
  the retrieval chain and the agent (an outcome per call, and the calls
  made, in order).
- `Booking`, `UserInput`: the two tools.
- `Chatbot`:
  - pure turn functions `CollectInfo` and `Respond` over a snapshot of the
    user's details;
  - the classes `UserInfo` (fields updated in place) and `ChatbotAgent`,
    whose methods are proved to do what those functions say.

The collaborators' behaviour during a turn is a parameter (`World`). That
covers the clock, the spreadsheet, the mail server, the retrieval chain and
the agent.

## Behaviour notes

- "book me a call" does not start the booking conversation: none of the five
  call keywords occurs in it.
- The phone error reply of the collection step offers `+91` as an example,
  although only `+977` numbers are accepted.
- A month and day equal to today's date, asked for after midnight, rolls over
  to next year (`OwnDateRollsOver`). The source compares the date at midnight
  with the current moment including its time of day.
- A first answer made only of whitespace is stored as an empty name. The
  reply still asks for the phone number, but the next answer is taken as the
  name (`BlankNameAskedAgain`).

## Model

| member | source | states |
|---|---|---|
| Text.Lower | utils/validators.py:34 | lower-casing keeps the length, maps every character through the ASCII case map, and leaves no upper-case letter |
| Text.LowerKeepsLowered | utils/validators.py:34 | lower-casing text with no upper-case letter changes nothing |
| Text.Strip | utils/validators.py:34 | `strip()` never lengthens the text and leaves no whitespace at either end |
| Text.StripEmpty | utils/validators.py:34 | `strip()` gives the empty string exactly for all-whitespace text |
| Text.StripSpan | utils/validators.py:34 | `strip()` keeps one contiguous slice; only whitespace is cut on either side and none is left at its ends |
| Text.StripNoSpace | utils/validators.py:34 | stripping text without whitespace leaves it unchanged |
| Text.ContainsStrip | utils/validators.py:34-42 | a phrase that neither starts nor ends with whitespace occurs in the stripped text exactly when it occurs in the text |
| Text.FirstIndex | utils/validators.py:9 | the first position of a character, or none when it does not occur |
| Text.LastIndex | utils/validators.py:9 | the last position of a character, or none when it does not occur |
| Calendar.NextDay | utils/validators.py:41 | the day after a date is a well-formed date one ordinal later |
| Calendar.NextDayPastMaxYear | utils/validators.py:40-41 | the day after a valid date is past year 9999 exactly for December 31, 9999 |
| Calendar.AddDays | utils/validators.py:41-66 | adding `n` days gives the well-formed date `n` ordinals later |
| Calendar.WeekdayAfter | utils/validators.py:43-46 | `n` days later the weekday has advanced by `n` modulo 7 |
| Calendar.AddDaysYearBound | utils/validators.py:41-66 | adding at most a week moves at most into the next year |
| Calendar.AddDaysPastMaxYear | utils/validators.py:41-66 | adding at most a week passes year 9999 only from the last days of December 9999 |
| Calendar.OrdinalOrder | utils/validators.py:106 | dates compare as their ordinals do |
| Calendar.DecimalValue | utils/validators.py:39 | reading back the zero-padded decimal digits of a number gives the number |
| Calendar.ValueDecimal | utils/validators.py:118 | writing a digit string's value back at the same width gives the same digits |
| Calendar.IsoFormatParses | utils/validators.py:39 | `strftime('%Y-%m-%d')` of a valid date is text `strptime` accepts, and it parses back to that date |
| Calendar.IsoDateFormats | utils/validators.py:118-119 | text accepted by `strptime('%Y-%m-%d')` is exactly the formatting of the date it parses to |
| Validators.EmailBodyIsShape | utils/validators.py:9 | the character-level test accepts exactly the texts `local@domain.tld` with the pattern's character classes and a tld of two or more letters |
| Validators.ValidateEmail | utils/validators.py:7-10 | `validate_email` holds exactly for `local@domain.tld`, optionally followed by one newline, which `$` lets through |
| Validators.ValidEmailHasOneAt | utils/validators.py:9 | an accepted address contains exactly one `@` |
| Validators.EmailNeedsAt | utils/validators.py:9-10 | text without `@` is rejected |
| Validators.EmailBodyNoSpace | utils/validators.py:9 | a matched address is non-empty and contains no whitespace |
| Validators.ValidEmailStrip | agents/chatbot_agent.py:116-117 | the stripped form of an accepted address, the one the chatbot stores, is itself accepted |
| Validators.CleanPhone | utils/validators.py:22 | the cleaned text holds only digits and `+` |
| Validators.CleanPhoneConcat | utils/validators.py:22 | cleaning distributes over concatenation |
| Validators.CleanPhoneKeeps | utils/validators.py:22 | cleaning keeps text made only of digits and `+` unchanged |
| Validators.CleanPhoneDrops | utils/validators.py:22 | cleaning removes text with no digit and no `+` entirely |
| Validators.PatternMeaning | utils/validators.py:24-28 | each of the three patterns matches exactly: `+977` and a mobile number; a bare mobile number (`9`, one of `6`-`8`, eight digits); `0` and a mobile number |
| Validators.PatternsMeanMobile | utils/validators.py:24-28 | one of the three patterns matches the cleaned text exactly when it is a Nepali mobile number in one of the three forms |
| Validators.ValidatePhone | utils/validators.py:13-29 | `validate_phone` holds exactly when the cleaned text is a Nepali mobile number in one of the three forms |
| Validators.PhoneDependsOnlyOnClean | utils/validators.py:21-29 | the verdict depends only on the digits and `+` signs, in order |
| Validators.PhoneIgnoresSeparator | utils/validators.py:22 | inserting any character other than a digit or `+` never changes the verdict |
| Validators.PhoneStrip | agents/chatbot_agent.py:109-110 | stripping changes neither the cleaned text nor the verdict, so a stored phone number is still valid |
| DateParsing.DaysAhead | utils/validators.py:43-45 | `days_ahead` is between 1 and 7 and congruent to target minus today's weekday modulo 7 |
| DateParsing.NextWeekdayPhrase | utils/validators.py:42-66 | the first of the five "next <weekday>" phrases, Monday first, that occurs in the text, or none when none occurs |
| DateParsing.MatchAt | utils/validators.py:69-72 | a month/day match has two groups and its day group is one or two digits; an ISO match is the ten characters at the position, shaped `dddd-dd-dd` |
| DateParsing.DayThenMonthGroups | utils/validators.py:70 | the day-first pattern matches at a position exactly when it splits there into one or two digits, an optional `st`/`nd`/`rd`/`th`, a non-empty whitespace run and a word; its groups are those digits and the whole word run |
| DateParsing.MonthThenDayGroups | utils/validators.py:71 | the month-first pattern matches at a position exactly when it splits there into a word, a non-empty whitespace run and one or two digits; its groups are the whole word run and the digits, two when two follow |
| DateParsing.Search | utils/validators.py:82 | `re.search` finds the leftmost position where the pattern matches, or none when it matches nowhere |
| DateParsing.MonthsTable | utils/validators.py:74-79 | every month name is at least three letters, all lower-case, and maps to a month from 1 to 12 |
| DateParsing.MonthKeysSurviveLower | utils/validators.py:87-94 | lower-casing leaves every month name unchanged, so each one can be found in lower-cased text |
| DateParsing.RollForward | utils/validators.py:102-111 | a resolved month and day is a valid date not before the current moment, in this year or the next, and in the next exactly when this year's date at midnight is already past; there is none exactly when this year's date is invalid, or it is past and next year's is invalid |
| DateParsing.TryMonthDay | utils/validators.py:82-111 | a pattern's turn yields a date only when the pattern matched, and then a valid date not before the current moment, in this year or the next |
| DateParsing.FirstMatchDecides | utils/validators.py:82-111 | the first match decides the pattern's turn: a month name in the first group, else in the second, gives what `RollForward` makes of that month and the other group's digits; no month name gives nothing |
| DateParsing.MonthDayLoop | utils/validators.py:81-111 | a date found by the month/day patterns is valid, not before the current moment, and in this year or the next |
| DateParsing.IsoFallback | utils/validators.py:113-121 | the `YYYY-MM-DD` fallback never overflows, and what it returns is a real date that occurs in the text |
| DateParsing.IsoFallbackLeftmost | utils/validators.py:114-121 | only the leftmost `dddd-dd-dd` substring counts: it is returned when it is a real date, and nothing otherwise |
| DateParsing.IsoFallbackNone | utils/validators.py:114-123 | text with no `dddd-dd-dd` substring gives nothing |
| DateParsing.DaysLater | utils/validators.py:41-66 | adding days gives the `YYYY-MM-DD` text of exactly that date, or overflows exactly past year 9999, which within a week happens only from the last days of December 9999 |
| DateParsing.ParseDateFromText | utils/validators.py:32-123 | every date returned is text `strptime('%Y-%m-%d')` accepts, and the resolver overflows only in the last week of December 9999 |
| DateParsing.PhrasesStripSafe | utils/validators.py:34-42 | stripping never changes whether "today", "tomorrow" or a "next <weekday>" phrase occurs |
| DateParsing.TodayWins | utils/validators.py:38-39 | text containing "today" resolves to the current date, whatever else it contains |
| DateParsing.TomorrowBranch | utils/validators.py:38-41 | "tomorrow" without "today" is resolved by adding one day to today |
| DateParsing.TomorrowIsNextDay | utils/validators.py:40-41 | "tomorrow" without "today" resolves to the date one ordinal after today, and overflows exactly on 9999-12-31 |
| DateParsing.NextWeekdayDate | utils/validators.py:42-66 | the date `days_ahead` later falls on the named weekday, 1 to 7 days after today, a full week when today is that weekday |
| DateParsing.LandsOnTarget | utils/validators.py:43-45 | today's weekday plus `days_ahead` is the target weekday, and `days_ahead` is 7 when they coincide |
| DateParsing.NextWeekdayBranch | utils/validators.py:42-66 | with no "today" or "tomorrow", the first "next <weekday>" phrase present decides the result |
| DateParsing.NextWeekdayResult | utils/validators.py:42-66 | the weekday branch returns a `YYYY-MM-DD` date on the named weekday within the coming week, or overflows only in the last week of 9999 |
| DateParsing.NextWeekdayLands | utils/validators.py:42-66 | text naming "next <weekday>" resolves to a later date on that weekday |
| DateParsing.MonthDayNotPast | utils/validators.py:102-109 | a month/day result is never before today, equals today only at midnight, and is in this year or the next |
| DateParsing.OwnDateRollsOver | utils/validators.py:103-108 | today's own month and day resolves to today at midnight, and to next year's date at any later time |
| DateParsing.LeapDayRolledIsSkipped | utils/validators.py:104-111 | "february 29" after that day of a leap year has no date next year and is skipped |
| DateParsing.DigitsAreNoMonth | utils/validators.py:87-98 | a digit group is never a month name |
| DateParsing.IntSeesOnlyDigits | utils/validators.py:84-98 | whichever group names the month, `int()` is applied to one or two ASCII digits |
| DateParsing.MonthDayNamesTheDate | utils/validators.py:84-109 | a month/day result has the month named by one group and the day value of the other group's digits |
| DateParsing.NoSpaceNoMonthDay | utils/validators.py:69-72 | text without whitespace never matches the month/day patterns |
| DateParsing.IsoTextIsReturned | utils/validators.py:113-121 | a valid `YYYY-MM-DD` text is returned unchanged at any moment |
| DateParsing.MonthDayLoopOrder | utils/validators.py:69-111 | the day-first pattern is tried first: its date wins whenever it gives one, and only otherwise is the month-first pattern's date (or nothing) taken |
| DateParsing.MonthDayBranch | utils/validators.py:81-111 | with no relative day or weekday phrase, a date found by the month/day patterns is the result, in `YYYY-MM-DD` form |
| DateParsing.LateIsoBranch | utils/validators.py:113-123 | with no relative day, weekday phrase or usable month/day, the result is the leftmost `dddd-dd-dd` substring when it is a real date, and nothing otherwise or when there is none |
| DateParsing.ResolveIdempotent | utils/validators.py:32-123 | resolving a returned date again, at any later moment, returns the same date |
| Booking.BookAppointment | tools/booking.py:7-35 | at most the row and the email are attempted; a collaborator is called only for valid inputs, the row first; without calls the reply is one of the two invalid-input replies |
| Booking.InvalidInputsTouchNothing | tools/booking.py:10-14 | nothing is written or sent exactly when the email or the phone is invalid; the email is checked first |
| Booking.RowBeforeEmail | tools/booking.py:16-24 | the calls made are a prefix of [append row, send email]; the email is sent exactly when the inputs are valid and the row was appended |
| Booking.FirstCharsDiffer | tools/booking.py:10-35 | the confirmation and the error replies are told apart by their first characters |
| Booking.ReplyTellsWhatHappened | tools/booking.py:16-35 | the reply is the confirmation, the "booked, but" warning or the spreadsheet warning exactly when the row and the email, only the row, or neither succeeded |
| Booking.ConfirmationNamesFields | tools/booking.py:26-35 | the confirmation contains a labelled line with each of the four booked fields |
| UserInput.ValidateUserInput | tools/user_input.py:5-26 | only the date field raises, only with the overflow from the last days of December 9999; other field names get the not-implemented reply |
| UserInput.EmailVerdict | tools/user_input.py:7-11 | the email field is reported valid exactly for `local@domain.tld`, optionally followed by one newline, and otherwise invalid |
| UserInput.PhoneVerdict | tools/user_input.py:13-17 | the phone field is reported valid exactly when its cleaned text is a Nepali mobile number |
| UserInput.DateVerdict | tools/user_input.py:19-24 | the date field reports the resolved `YYYY-MM-DD` date, or the parse failure, and raises only when resolution overflows in December 9999 |
| UserInput.OtherFieldsNotHandled | tools/user_input.py:6-26 | exactly the field names other than "email", "phone" and "date" get the not-implemented reply |
| Chatbot.UserInfo.constructor | agents/chatbot_agent.py:19-24 | a new `UserInfo` holds no details |
| Chatbot.ChatbotAgent.constructor | agents/chatbot_agent.py:27-33 | a new agent has neither a vector store nor a retrieval chain |
| Chatbot.ChatbotAgent.LoadDocuments | agents/chatbot_agent.py:58-69 | the load succeeds exactly when processing built a vector store, and then a chain exists; a failed load keeps an earlier chain |
| Chatbot.ChatbotAgent.HandleInfoCollection | agents/chatbot_agent.py:100-145 | the in-place update of `user`, the answer and the calls are those `CollectInfo` gives for the details before the call |
| Chatbot.ChatbotAgent.GetResponse | agents/chatbot_agent.py:71-98 | the in-place update of `user`, the answer and the calls are those `Respond` gives for the details before the call |
| Chatbot.CollectInfo | agents/chatbot_agent.py:100-145 | collection stays in collection or ends in the general state; it raises only the date overflow and then changes nothing; its only calls are those of booking the collected name, phone and email with the resolved date, after which the details are reset |
| Chatbot.ConsultDocuments | agents/chatbot_agent.py:84-91 | the chain is asked the query exactly when there is one; its answer is used only when it is non-empty and does not say "I don't know" |
| Chatbot.AskAgent | agents/chatbot_agent.py:93-98 | the agent step always returns, in the given state, with the agent's output when there is one |
| Chatbot.Respond | agents/chatbot_agent.py:71-98 | the state moves only into collection on a call request or from collection to general; the details change and an exception escapes only during collection |
| Chatbot.FreshInfoValid | agents/chatbot_agent.py:19-24 | empty details satisfy the collection invariant |
| Chatbot.StoredPhoneValid | agents/chatbot_agent.py:108-110 | a phone number that passed validation is non-empty and still valid once stripped |
| Chatbot.StoredEmailValid | agents/chatbot_agent.py:115-117 | an email that passed validation is non-empty and still valid once stripped |
| Chatbot.TurnKeepsValid | agents/chatbot_agent.py:71-145 | every turn keeps the invariant: no date held between turns, phone only after name, email only after phone, stored values valid |
| Chatbot.CollectKeepsValid | agents/chatbot_agent.py:100-145 | the collection step keeps that invariant |
| Chatbot.CollectTouchesFirstMissing | agents/chatbot_agent.py:100-145 | a collection step changes at most the first missing field and nothing before it; a reset happens only by booking, when all three fields were known and the date was resolved |
| Chatbot.PhoneStoredOnlyIfValid | agents/chatbot_agent.py:108-113 | the phone answer is stored, stripped, exactly when it passes validation; the reply then asks for the email, and otherwise asks for a valid phone number again; collection continues either way |
| Chatbot.EmailStoredOnlyIfValid | agents/chatbot_agent.py:115-120 | the email answer is stored, stripped, exactly when it passes validation; the reply then asks for the date, and otherwise asks for a valid email address again; collection continues either way |
| Chatbot.UnreadDateChangesNothing | agents/chatbot_agent.py:122-143 | a date answer that does not resolve changes nothing and calls nothing; the turn raises exactly when resolution overflowed, and otherwise asks again |
| Chatbot.CompletionBooksCollected | agents/chatbot_agent.py:122-141 | a resolved date books the stored name, phone and email with that date, resets the details, returns to the general state, and never gets an invalid-input reply |
| Chatbot.CollectionEndsOnlyByBooking | agents/chatbot_agent.py:100-145 | under the invariant, collection returns to the general state only through a booking that appended a row; the "thank you" fallthrough is unreachable |
| Chatbot.BlankNameAskedAgain | agents/chatbot_agent.py:104-106 | a whitespace-only name is stored empty with the phone question as the reply, and the next answer is taken as the name |
| Chatbot.CallRequestRestarts | agents/chatbot_agent.py:74-78 | any query containing a call keyword, in any state, asks for the name, enters collection, and keeps the details |
| Chatbot.GeneralTurn | agents/chatbot_agent.py:84-98 | outside collection: a usable document answer is returned as is; otherwise the agent is asked and its answer is the turn's answer: its output when it gives one, the fixed replies for a missing output or an error; the turn's own code makes no spreadsheet or mail call (bookings the agent makes through its tools are not modelled) and the state is kept |
| Chatbot.CollectCallsOnlyBook | agents/chatbot_agent.py:100-145 | the collection step calls only the spreadsheet and the mail server |
| Chatbot.CollectingNeverAsksAgent | agents/chatbot_agent.py:80-82 | during collection the only calls made are the booking's row and email |
| Chatbot.RespondWhileCollecting | agents/chatbot_agent.py:80-82 | during collection, a query without a call keyword is handled by the collection step alone |
| Chatbot.NameTurn | agents/chatbot_agent.py:104-106 | from any valid details whose name is missing or blank, the answer is stored as the stripped name and the phone is asked for; the details then hold only that name |
| Chatbot.PhoneTurn | agents/chatbot_agent.py:108-111 | a valid phone answer is stored stripped and the email is asked for |
| Chatbot.EmailTurn | agents/chatbot_agent.py:115-118 | a valid email answer is stored stripped and the date is asked for |
| Chatbot.DateTurn | agents/chatbot_agent.py:122-141 | a resolvable date answer books the stored details, resets them and appends the row first |
| Chatbot.FourAnswersBook | agents/chatbot_agent.py:100-141 | a name, a valid phone, a valid email and a resolvable date, one per turn, are stored in order and then booked together |

## Left out

- Document processing, the vector store and the retrieval chain: document loading, chunking, embedding, retrieval and the language model are not modelled. Only their outcome in a turn is a parameter: a chain exists or not; its answer or its exception.
- The tool-calling agent (its system prompt, the tools it may call on its own, the language model): modelled only as an outcome, an output that may be missing or an exception.
- Chatbot.GeneralTurn: states only the calls the turn's own code makes. The agent is built with `book_appointment_tool` and `validate_user_input_tool` and may book through them inside `InvokeAgent`; those tool calls are not modelled.
- The spreadsheet and the mail server: only success or failure of `append_to_google_sheet` and `send_confirmation_email` is modelled, with the arguments passed.
- The Streamlit interface and session storage: `st.error` is modelled as a `ShowError` call in the turn's calls. The caller owns the session state.
- The clock: `datetime.now()` is the parameter `now`, a date with microseconds since midnight.
- Regular expressions are modelled as direct tests on characters for these fixed patterns, not as a general regex engine.
- `\d`, `\w` and `lower()` are modelled for ASCII only. Python's Unicode digits, letters and case mappings are not modelled. `\s` and `strip()` use Python's full whitespace set.
- DateParsing.ToInt: `int()` is modelled only for ASCII digit strings. It never sees anything else here (`IntSeesOnlyDigits`), so signs, underscores and Unicode digits are not modelled.
- Calendar.IsoFormat: `%Y` is always four zero-padded digits. Platforms whose `strftime` does not pad years below 1000 are not modelled.
- Calendar.DaysBeforeYear counts days recursively. This equals Python's closed formula but is not written as that formula.
- `Info` is a snapshot of `UserInfo`. The details are held by one object per session, so aliasing between sessions is not modelled.
- The `BookingAppointment` state is declared but never entered; in a turn it behaves like the general state.
