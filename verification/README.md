# Leave submission actions of the Officekit chat bot, in Dafny

The chat bot's Rasa actions collect four slots for a leave application:
leave type, first day, last day and reason. `ActionSubmitLeave` turns them
into the `Commonparam` record that the HR backend's `SaveLeaveApplication`
endpoint expects. `ActionSayLeave` confirms the leave type and end date.
This project models both actions and the calendar arithmetic underneath them:

- `calendar.dfy` (`Calendar`): civil dates as Python's `datetime` holds them
  (years 1 to 9999, Gregorian leap years). It defines day ordinals, where date
  subtraction is the difference of ordinals. It defines `NextDay`, which is
  `+ timedelta(days=1)` and overflows past 31/12/9999.
- `date_text.dfy` (`DateText`): reading dates with `strptime` using
  `%d/%m/%Y` or `%m/%d/%Y`, and writing them with `strftime`.
- `leave_actions.dfy` (`LeaveActions`): the four helpers of
  `ActionSubmitLeave`, its `run` (the completeness gate, the record, the
  messages and the returned events), and `ActionSayLeave.run`.
- `wrappers.dfy` (`Wrappers`): `Option`.

Everything here is pure, so it is all functions and lemmas. A slot is an
`Option<string>`. Python treats both `None` and `""` as missing (`Filled`).
Messages to the user are outcome tags. The HTTP request is not performed: its
outcome (`HttpOutcome`) is an input to `SubmitLeave`.

Date reading follows what `%d/%m/%Y` accepts in `strptime`:
- the day and the month are one or two ASCII digits, each followed by `/`;
- the year is exactly four digits, and nothing may follow it;
- the numbers must form a date `datetime` accepts: year 1 to 9999, month 1 to
  12, and a day that exists in that month.

So `5/8/2025` is read as 5 August 2025, and `29/02/2023` is refused. Writing
always pads the day and month to two digits and the year to four.

`str.lower` is modelled for every character whose lower case is a single
ASCII letter. Those are `A`-`Z` and U+212A KELVIN SIGN, which lowers to `k`.
Any other character lowers either to a non-ASCII character or to more than
one character, so it can never complete one of the four ASCII keys. The model
of `map_leave_type_to_id` is therefore exact for every string.

Two facts about the code worth knowing:
- `calculate_leave_days` does not check that the first day is on or before
  the last. The count is then 0 or negative, and the request is still sent.
- Dates go to the backend as `MM/DD/YYYY`.

## Model

| member | source | states |
|---|---|---|
| Calendar.NextDay | actions/actions.py:77-79 | the day after a valid date is a valid date whose ordinal is one higher and which comes later in calendar order; there is none exactly for 31/12/9999 (Python's overflow) |
| Calendar.NextDays | actions/actions.py:68-69 | stepping k days from a valid date gives, when it does not overflow, a valid date whose ordinal is k higher |
| Calendar.OrdinalOrder | actions/actions.py:66-69 | for valid dates, a smaller ordinal means an earlier calendar date, and equal ordinals mean equal dates, so the day difference orders and identifies dates |
| Calendar.NextDaysReaches | actions/actions.py:66-69 | stepping k days from a reaches b exactly when b's ordinal is a's plus k, in both directions |
| DateText.ParseDMY | actions/actions.py:66-67 | whatever `%d/%m/%Y` reads is a valid calendar date |
| DateText.ParseDMYWritings | actions/actions.py:66-67 | `%d/%m/%Y` reads a text as date d exactly when d is valid and the text is `DD/MM/YYYY` for d, with the leading zero of the day, the month or both optionally dropped; every other text is refused |
| DateText.ParseMDYSpellings | actions/actions.py:97-98 | `%m/%d/%Y` reads a text as date d exactly when d is valid and the text spells month, day and year in that order, each of the first two with or without a leading zero |
| DateText.ParseOneDigitFields | actions/actions.py:66 | `5/8/2025` is read as 5 August 2025 |
| DateText.ParseFormatDMY | actions/actions.py:77-79 | a date written `DD/MM/YYYY` is read back as the same date |
| DateText.FormatParseDMY | actions/actions.py:77-79 | a ten-character text that `%d/%m/%Y` reads is exactly the `DD/MM/YYYY` writing of that date |
| DateText.ParseFormatMDY | actions/actions.py:97-98 | a date written `MM/DD/YYYY` is read back with `%m/%d/%Y` as the same date |
| LeaveActions.CalculateLeaveDays | actions/actions.py:63-72 | the count is 1 when either date does not parse; for two parsed dates it is at least 1 exactly when the last day does not precede the first, and 0 or below otherwise |
| LeaveActions.LeaveDaysCountsCalendarDays | actions/actions.py:63-72 | for two parsed dates the count is k + 1 exactly when the last day is k calendar days after the first |
| LeaveActions.CalculateReturnDate | actions/actions.py:74-82 | an unparseable date, or 31/12/9999, is returned unchanged; otherwise the result is a ten-character `DD/MM/YYYY` text of the date whose ordinal is one higher |
| LeaveActions.ReturnDateIsNextDay | actions/actions.py:74-82 | the return date comes after the last leave day, and no valid date lies between them |
| LeaveActions.LeaveDaysMatchReturnDate | actions/actions.py:63-82 | for parsed dates, when the last day is not 31/12/9999, the day count equals the ordinal of the return date minus the ordinal of the first leave day |
| LeaveActions.MapLeaveTypeToId | actions/actions.py:84-92 | the id is always between 1 and 4 |
| LeaveActions.LeaveTypeIdCases | actions/actions.py:84-92 | the id is 2, 3 or 4 exactly when the lower-cased type is "sick", "compensatory" or "lop", and 1 exactly for everything else (including "casual") |
| LeaveActions.LeaveTypeIgnoresCase | actions/actions.py:92 | two types that agree after lower-casing each character get the same id |
| LeaveActions.FormatDateForApi | actions/actions.py:94-101 | an unparseable text is returned verbatim; a parsed date becomes a ten-character text that `%m/%d/%Y` reads as the same date |
| LeaveActions.FormatDateForApiSwapsFields | actions/actions.py:94-101 | on zero-padded `DD/MM/YYYY` input the output is the input with day and month fields exchanged and the year kept |
| LeaveActions.BuildCommonParam | actions/actions.py:136-163 | the record carries `Mode` "save", `Timemode` 1, `Approvalstatus` "P" and every other flag at 0, "" or null. Both from fields are the API form of the first day, and both to fields are the API form of the last day. `Noofleavedays` is the leave-day count, and `Returndate` is the API form of the return date. `LeaveID` is the mapped type, and `Reason` is the reason as given |
| LeaveActions.SubmitLeave | actions/actions.py:103-225 | a request is sent exactly when all four slots are filled. Otherwise the only message is the missing-information one. When sent, the record is the one built from the four slots. "Submitting" is uttered first. Then comes one message per outcome: the success message with the typed dates, the day count and the `DD/MM/YYYY` return date on status 200; the failure message with the status code on another status; and the timeout, connection-error or unexpected-error message for the three exception kinds. The returned events are `[AllSlotsReset]` on every path |
| LeaveActions.SubmitLeaveRequestIgnoresHttp | actions/actions.py:115-176 | the record sent does not depend on the HTTP outcome, and with a slot missing nothing does |
| LeaveActions.SubmittedDates | actions/actions.py:121-163 | for parsed dates, when the last day is not 31/12/9999, the from/to pairs are equal. They are the zero-padded `MM/DD/YYYY` writings of the typed dates. The return date is the `MM/DD/YYYY` writing of the day after the last leave day. `Noofleavedays` is the distance from `Leavefrom` to `Returndate`. `LeaveID` and `Reason` come from the slots |
| LeaveActions.SubmittedUnparsedDates | actions/actions.py:121-129 | a first or last day that does not parse is sent exactly as typed in both of its fields, an unparseable last day is also the return date, and the day count is then 1 |
| LeaveActions.SubmittedReturnOnLastDate | actions/actions.py:74-82 | leave ending on 31/12/9999 is sent with a return date equal to its last day |
| LeaveActions.SubmitLeaveExample | actions/actions.py:121-193 | casual leave from 20/08/2025 to 22/08/2025 sends id 1, 08/20/2025 to 08/22/2025, 3 days, return 08/23/2025, and confirms with return date 23/08/2025 |
| LeaveActions.SayLeave | actions/actions.py:43-52 | the missing message is emitted exactly when the leave type or the end date is unset or empty; otherwise the confirmation carries both values; no events are returned |

## Left out

- The HTTP request itself is not modelled: the URL, the `OfficeContent` credentials, `json.dumps` of both blobs and the 30-second timeout are left out. It is replaced by the `HttpOutcome` input, which has a status code or one of the three caught exception kinds.
- Logging and `print` output are left out. The exact text, emoji and markdown of the user messages are also left out; in particular `leave_type.title()` in the success message is not modelled, and the message carries the raw type.
- The text of the caught exception in the unexpected-error message is left out (`UnexpectedError` carries nothing).
- Slot values that are not strings are not modelled. Rasa could hold lists or numbers, where `.lower()` or `strptime` would raise.
- Two `strptime` leniencies are not modelled: a space-padded day (`" 5/08/2025"`) and non-ASCII Unicode digits. Both are library behaviour, and the model refuses both.
- DateText.FormatDMY: always pads the year to four digits. Python's `strftime("%Y")` on glibc writes years below 1000 without padding, so the model differs there for years 1 to 999.
- DateText.FormatMDY: has the same four-digit year padding, and so differs in the same way for years 1 to 999.
- LeaveActions.FormatDateForApi: its "ten characters" result, and through it every date field of the record sent, assumes that four-digit year padding, so it does not hold for years 1 to 999.
- LeaveActions.CalculateReturnDate: its "ten characters" result assumes the same padding, so it does not hold for years 1 to 999.
- LeaveActions.Lower: it lowers `A`-`Z` and the Kelvin sign, not every character. This is the part of `str.lower` that decides the id lookup.
- The time-of-day part of `datetime` is not modelled. It is always midnight here and does not affect day differences.
- `main.py` is not part of this model: its FastAPI endpoints, model loading, Whisper transcription and intent string comparison are I/O and foreign libraries.
- `leave_service.py` is not part of this model: it is an asynchronous HTTP GET.
