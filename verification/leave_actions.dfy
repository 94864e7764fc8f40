/**
 * The two leave actions of the chat bot: `ActionSubmitLeave`, which turns the
 * four collected slots into the backend's `Commonparam` record, and
 * `ActionSayLeave`, which confirms the leave type and end date.
 *
 * Slots are optional strings; Python treats both None and "" as missing.
 * Messages to the user are outcome tags, and the HTTP call is an input
 * (`HttpOutcome`) rather than something the model performs.
 */
module LeaveActions {
  import opened Wrappers
  import opened Calendar
  import opened DateText

  // ---------------------------------------------------------------------
  // ActionSubmitLeave helpers

  /** `calculate_leave_days`: inclusive day count, or 1 when either date does not parse. */
  function CalculateLeaveDays(leaveFrom: string, leaveTo: string): (n: int)
    ensures ParseDMY(leaveFrom).None? || ParseDMY(leaveTo).None? ==> n == 1
    ensures ParseDMY(leaveFrom).Some? && ParseDMY(leaveTo).Some? ==>
      (n >= 1 <==> !Before(ParseDMY(leaveTo).value, ParseDMY(leaveFrom).value))
  {
    match (ParseDMY(leaveFrom), ParseDMY(leaveTo))
    case (Some(f), Some(t)) =>
      OrdinalOrder(t, f);
      ToOrdinal(t) - ToOrdinal(f) + 1
    case _ => 1
  }

  /** `calculate_return_date`: the next calendar day as `DD/MM/YYYY`, or the input unchanged. */
  function CalculateReturnDate(leaveTo: string): (r: string)
    ensures ParseDMY(leaveTo).None? || ParseDMY(leaveTo) == Some(LastDate) ==> r == leaveTo
    ensures ParseDMY(leaveTo).Some? && ParseDMY(leaveTo) != Some(LastDate) ==>
      |r| == 10 && ParseDMY(r).Some?
      && ToOrdinal(ParseDMY(r).value) == ToOrdinal(ParseDMY(leaveTo).value) + 1
  {
    match ParseDMY(leaveTo)
    case None => leaveTo
    case Some(t) =>
      match NextDay(t)
      case None => leaveTo
      case Some(n) =>
        ParseFormatDMY(n);
        FormatDMY(n)
  }

  /** `str.lower` on one character, for every character whose lower case is an ASCII letter. */
  function LowerChar(c: char): char {
    if 'A' <= c <= 'Z' then (c as int + 32) as char
    else if c == '\U{212A}' then 'k'  // KELVIN SIGN lowers to a plain 'k'
    else c
  }

  function Lower(s: string): (r: string)
    ensures |r| == |s|
  {
    seq(|s|, i requires 0 <= i < |s| => LowerChar(s[i]))
  }

  const LeaveTypeMapping: map<string, int> := map["casual" := 1, "sick" := 2, "compensatory" := 3, "lop" := 4]

  /** `map_leave_type_to_id`: case-insensitive lookup, 1 for anything unknown. */
  function MapLeaveTypeToId(leaveType: string): (id: int)
    ensures 1 <= id <= 4
  {
    var key := Lower(leaveType);
    if key in LeaveTypeMapping then LeaveTypeMapping[key] else 1
  }

  /** `format_date_for_api`: `DD/MM/YYYY` rewritten as `MM/DD/YYYY`, or the input unchanged. */
  function FormatDateForApi(date: string): (r: string)
    ensures ParseDMY(date).None? ==> r == date
    ensures ParseDMY(date).Some? ==> |r| == 10 && ParseMDY(r) == ParseDMY(date)
  {
    match ParseDMY(date)
    case None => date
    case Some(d) =>
      ParseFormatMDY(d);
      FormatMDY(d)
  }

  /** Leave from `f` to `t` counts `k + 1` days exactly when `t` is `k` calendar days after `f`. */
  lemma LeaveDaysCountsCalendarDays(leaveFrom: string, leaveTo: string, k: nat)
    requires ParseDMY(leaveFrom).Some? && ParseDMY(leaveTo).Some?
    ensures CalculateLeaveDays(leaveFrom, leaveTo) == k + 1 <==> NextDays(ParseDMY(leaveFrom).value, k) == ParseDMY(leaveTo)
  {
    NextDaysReaches(ParseDMY(leaveFrom).value, ParseDMY(leaveTo).value, k);
  }

  /** The day count is the distance from the first leave day to the return date. */
  lemma LeaveDaysMatchReturnDate(leaveFrom: string, leaveTo: string)
    requires ParseDMY(leaveFrom).Some? && ParseDMY(leaveTo).Some? && ParseDMY(leaveTo) != Some(LastDate)
    ensures ParseDMY(CalculateReturnDate(leaveTo)).Some?
    ensures CalculateLeaveDays(leaveFrom, leaveTo)
         == ToOrdinal(ParseDMY(CalculateReturnDate(leaveTo)).value) - ToOrdinal(ParseDMY(leaveFrom).value)
  {
  }

  /** The return date is the day after the leave ends: later, with no date in between. */
  lemma ReturnDateIsNextDay(leaveTo: string, d: Date)
    requires ParseDMY(leaveTo).Some? && ParseDMY(leaveTo) != Some(LastDate) && ValidDate(d)
    ensures Before(ParseDMY(leaveTo).value, ParseDMY(CalculateReturnDate(leaveTo)).value)
    ensures !(Before(ParseDMY(leaveTo).value, d) && Before(d, ParseDMY(CalculateReturnDate(leaveTo)).value))
  {
    var t, r := ParseDMY(leaveTo).value, ParseDMY(CalculateReturnDate(leaveTo)).value;
    OrdinalOrder(t, r);
    OrdinalOrder(t, d);
    OrdinalOrder(d, r);
  }

  /** Each known key maps to its own id, and only that key (in any case) does. */
  lemma LeaveTypeIdCases(leaveType: string)
    ensures MapLeaveTypeToId(leaveType) == 2 <==> Lower(leaveType) == "sick"
    ensures MapLeaveTypeToId(leaveType) == 3 <==> Lower(leaveType) == "compensatory"
    ensures MapLeaveTypeToId(leaveType) == 4 <==> Lower(leaveType) == "lop"
    ensures MapLeaveTypeToId(leaveType) == 1 <==> Lower(leaveType) !in {"sick", "compensatory", "lop"}
  {
  }

  /** Texts that differ only in letter case get the same id. */
  lemma LeaveTypeIgnoresCase(a: string, b: string)
    requires |a| == |b| && forall i :: 0 <= i < |a| ==> LowerChar(a[i]) == LowerChar(b[i])
    ensures MapLeaveTypeToId(a) == MapLeaveTypeToId(b)
  {
    assert Lower(a) == Lower(b);
  }

  /** On a zero-padded `DD/MM/YYYY` text, the API form swaps the first two fields and keeps the year. */
  lemma FormatDateForApiSwapsFields(date: string)
    requires |date| == 10 && ParseDMY(date).Some?
    ensures FormatDateForApi(date) == date[3..5] + "/" + date[..2] + "/" + date[6..]
  {
    FormatParseDMY(date);
    var d := ParseDMY(date).value;
    assert date[..2] == Pad2(d.day) && date[3..5] == Pad2(d.month) && date[6..] == Pad4(d.year);
  }

  // ---------------------------------------------------------------------
  // ActionSubmitLeave.run

  datatype Slots = Slots(leaveType: Option<string>, leaveFrom: Option<string>, leaveTo: Option<string>, reason: Option<string>)

  /** Python truthiness of a string slot: set and non-empty. */
  predicate Filled(v: Option<string>) {
    v.Some? && v.value != ""
  }

  predicate AllFilled(s: Slots) {
    Filled(s.leaveType) && Filled(s.leaveFrom) && Filled(s.leaveTo) && Filled(s.reason)
  }

  /** The `Commonparam` record sent to SaveLeaveApplication; `Roldleavetrantype` is JSON null. */
  datatype CommonParam = CommonParam(
    Mode: string,
    LeaveID: int,
    Leavefrom: string,
    Leaveto: string,
    Offdaysfrom: string,
    Offdaysto: string,
    Noofleavedays: int,
    Timemode: int,
    Reason: string,
    Holiday: int,
    Weekend: int,
    Daysleaveclubbing: int,
    LeavePolicyInstanceLimitID: int,
    Returndate: string,
    Approvalstatus: string,
    Firsthalf: int,
    Lasthalf: int,
    Roledeligation: int,
    Contactaddress: string,
    Contactnumber: string,
    Salaryadvance: int,
    IsNoticePeriod: int,
    Passportrequest: int,
    Roldleavetrantype: Option<int>,
    Duallaps: int,
    Balancedaystofuture: int)

  /** The flags the backend's schema requires, always sent as zero, blank or null. */
  predicate ConstantFields(p: CommonParam) {
    && p.Mode == "save" && p.Timemode == 1 && p.Approvalstatus == "P"
    && p.Holiday == 0 && p.Weekend == 0 && p.Daysleaveclubbing == 0 && p.LeavePolicyInstanceLimitID == 0
    && p.Firsthalf == 0 && p.Lasthalf == 0 && p.Roledeligation == 0
    && p.Contactaddress == "" && p.Contactnumber == ""
    && p.Salaryadvance == 0 && p.IsNoticePeriod == 0 && p.Passportrequest == 0
    && p.Roldleavetrantype == None && p.Duallaps == 0 && p.Balancedaystofuture == 0
  }

  function BuildCommonParam(leaveType: string, leaveFrom: string, leaveTo: string, reason: string): (p: CommonParam)
    ensures ConstantFields(p)
    ensures p.Leavefrom == p.Offdaysfrom == FormatDateForApi(leaveFrom)
    ensures p.Leaveto == p.Offdaysto == FormatDateForApi(leaveTo)
    ensures p.Noofleavedays == CalculateLeaveDays(leaveFrom, leaveTo)
    ensures p.Returndate == FormatDateForApi(CalculateReturnDate(leaveTo))
    ensures p.LeaveID == MapLeaveTypeToId(leaveType)
    ensures p.Reason == reason
  {
    var apiFrom := FormatDateForApi(leaveFrom);
    var apiTo := FormatDateForApi(leaveTo);
    CommonParam(
      Mode := "save",
      LeaveID := MapLeaveTypeToId(leaveType),
      Leavefrom := apiFrom,
      Leaveto := apiTo,
      Offdaysfrom := apiFrom,
      Offdaysto := apiTo,
      Noofleavedays := CalculateLeaveDays(leaveFrom, leaveTo),
      Timemode := 1,
      Reason := reason,
      Holiday := 0,
      Weekend := 0,
      Daysleaveclubbing := 0,
      LeavePolicyInstanceLimitID := 0,
      Returndate := FormatDateForApi(CalculateReturnDate(leaveTo)),
      Approvalstatus := "P",
      Firsthalf := 0,
      Lasthalf := 0,
      Roledeligation := 0,
      Contactaddress := "",
      Contactnumber := "",
      Salaryadvance := 0,
      IsNoticePeriod := 0,
      Passportrequest := 0,
      Roldleavetrantype := None,
      Duallaps := 0,
      Balancedaystofuture := 0)
  }

  /** What `requests.get` did: a response with a status code, or one of the caught exceptions. */
  datatype HttpOutcome = Response(status: int) | Timeout | ConnectionError | OtherError

  datatype SubmitMessage =
    | MissingInformation
    | Submitting
    | Submitted(leaveType: string, leaveFrom: string, leaveTo: string, days: int, returnDate: string, reason: string)
    | SubmitFailed(status: int)
    | RequestTimedOut
    | ConnectionFailed
    | UnexpectedError

  datatype Event = AllSlotsReset

  /** The messages uttered, the parameters sent (None: no request), and the events returned. */
  datatype SubmitResult = SubmitResult(messages: seq<SubmitMessage>, request: Option<CommonParam>, events: seq<Event>)

  function OutcomeMessage(http: HttpOutcome, leaveType: string, leaveFrom: string, leaveTo: string, reason: string): SubmitMessage
  {
    match http
    case Response(status) =>
      if status == 200 then
        Submitted(leaveType, leaveFrom, leaveTo, CalculateLeaveDays(leaveFrom, leaveTo), CalculateReturnDate(leaveTo), reason)
      else SubmitFailed(status)
    case Timeout => RequestTimedOut
    case ConnectionError => ConnectionFailed
    case OtherError => UnexpectedError
  }

  /** `ActionSubmitLeave.run`. */
  function SubmitLeave(slots: Slots, http: HttpOutcome): (r: SubmitResult)
    ensures r.events == [AllSlotsReset]
    ensures r.request.Some? <==> AllFilled(slots)
    ensures !AllFilled(slots) ==> r.messages == [MissingInformation]
    ensures AllFilled(slots) ==>
      && |r.messages| == 2 && r.messages[0] == Submitting
      && (r.messages[1].Submitted? <==> http == Response(200))
      && (r.messages[1].SubmitFailed? <==> http.Response? && http.status != 200)
      && r.request == Some(BuildCommonParam(slots.leaveType.value, slots.leaveFrom.value, slots.leaveTo.value, slots.reason.value))
    ensures AllFilled(slots) && http == Response(200) ==>
      r.messages[1] == Submitted(slots.leaveType.value, slots.leaveFrom.value, slots.leaveTo.value,
                                 CalculateLeaveDays(slots.leaveFrom.value, slots.leaveTo.value),
                                 CalculateReturnDate(slots.leaveTo.value), slots.reason.value)
    ensures AllFilled(slots) && http.Response? && http.status != 200 ==> r.messages[1] == SubmitFailed(http.status)
    ensures AllFilled(slots) && http == Timeout ==> r.messages[1] == RequestTimedOut
    ensures AllFilled(slots) && http == ConnectionError ==> r.messages[1] == ConnectionFailed
    ensures AllFilled(slots) && http == OtherError ==> r.messages[1] == UnexpectedError
  {
    if !AllFilled(slots) then
      SubmitResult([MissingInformation], None, [AllSlotsReset])
    else
      var leaveType, leaveFrom, leaveTo, reason := slots.leaveType.value, slots.leaveFrom.value, slots.leaveTo.value, slots.reason.value;
      var params := BuildCommonParam(leaveType, leaveFrom, leaveTo, reason);
      SubmitResult([Submitting, OutcomeMessage(http, leaveType, leaveFrom, leaveTo, reason)], Some(params), [AllSlotsReset])
  }

  /** Whether and what is sent does not depend on how the request fares; with a slot missing nothing does. */
  lemma SubmitLeaveRequestIgnoresHttp(slots: Slots, h1: HttpOutcome, h2: HttpOutcome)
    ensures SubmitLeave(slots, h1).request == SubmitLeave(slots, h2).request
    ensures !AllFilled(slots) ==> SubmitLeave(slots, h1) == SubmitLeave(slots, h2)
  {
  }

  /**
   * The parameters sent for parseable dates: both date pairs carry the typed
   * dates month first, the return date is the day after the leave ends, and
   * the day count is the distance from the first leave day to the return date.
   */
  lemma SubmittedDates(slots: Slots, http: HttpOutcome)
    requires AllFilled(slots)
    requires ParseDMY(slots.leaveFrom.value).Some? && ParseDMY(slots.leaveTo.value).Some?
    requires ParseDMY(slots.leaveTo.value) != Some(LastDate)
    ensures var p := SubmitLeave(slots, http).request.value;
      && p.Offdaysfrom == p.Leavefrom && p.Offdaysto == p.Leaveto
      && p.Leavefrom == FormatMDY(ParseDMY(slots.leaveFrom.value).value)
      && p.Leaveto == FormatMDY(ParseDMY(slots.leaveTo.value).value)
      && p.Returndate == FormatMDY(NextDay(ParseDMY(slots.leaveTo.value).value).value)
      && ParseMDY(p.Leavefrom) == ParseDMY(slots.leaveFrom.value)
      && ParseMDY(p.Leaveto) == ParseDMY(slots.leaveTo.value)
      && ParseMDY(p.Returndate).Some?
      && ToOrdinal(ParseMDY(p.Returndate).value) == ToOrdinal(ParseDMY(slots.leaveTo.value).value) + 1
      && p.Noofleavedays == ToOrdinal(ParseMDY(p.Returndate).value) - ToOrdinal(ParseMDY(p.Leavefrom).value)
      && p.LeaveID == MapLeaveTypeToId(slots.leaveType.value)
      && p.Reason == slots.reason.value
  {
    var leaveFrom, leaveTo := slots.leaveFrom.value, slots.leaveTo.value;
    var f, t := ParseDMY(leaveFrom).value, ParseDMY(leaveTo).value;
    var n := NextDay(t).value;
    var p := BuildCommonParam(slots.leaveType.value, leaveFrom, leaveTo, slots.reason.value);
    assert SubmitLeave(slots, http).request == Some(p);
    ParseFormatDMY(n);
    assert CalculateReturnDate(leaveTo) == FormatDMY(n);
    assert p.Leavefrom == FormatMDY(f) && p.Leaveto == FormatMDY(t) && p.Returndate == FormatMDY(n);
    ParseFormatMDY(f);
    ParseFormatMDY(t);
    ParseFormatMDY(n);
    LeaveDaysMatchReturnDate(leaveFrom, leaveTo);
  }

  /** An unreadable first or last day is sent as typed, and the day count falls back to 1. */
  lemma SubmittedUnparsedDates(slots: Slots, http: HttpOutcome)
    requires AllFilled(slots)
    ensures var p := SubmitLeave(slots, http).request.value;
      && (ParseDMY(slots.leaveFrom.value).None? ==> p.Leavefrom == p.Offdaysfrom == slots.leaveFrom.value && p.Noofleavedays == 1)
      && (ParseDMY(slots.leaveTo.value).None? ==>
            p.Leaveto == p.Offdaysto == slots.leaveTo.value && p.Returndate == slots.leaveTo.value && p.Noofleavedays == 1)
  {
  }

  /** Leave ending on the last representable date returns that same date. */
  lemma SubmittedReturnOnLastDate(slots: Slots, http: HttpOutcome)
    requires AllFilled(slots) && ParseDMY(slots.leaveTo.value) == Some(LastDate)
    ensures SubmitLeave(slots, http).request.value.Returndate == SubmitLeave(slots, http).request.value.Leaveto
  {
  }

  lemma ExampleDates()
    ensures ParseDMY("20/08/2025") == Some(Date(2025, 8, 20))
    ensures ParseDMY("22/08/2025") == Some(Date(2025, 8, 22))
    ensures ParseDMY("23/08/2025") == Some(Date(2025, 8, 23))
  {
    assert FormatDMY(Date(2025, 8, 20)) == "20/08/2025";
    assert FormatDMY(Date(2025, 8, 22)) == "22/08/2025";
    assert FormatDMY(Date(2025, 8, 23)) == "23/08/2025";
    ParseFormatDMY(Date(2025, 8, 20));
    ParseFormatDMY(Date(2025, 8, 22));
    ParseFormatDMY(Date(2025, 8, 23));
  }

  lemma ExampleHelpers()
    ensures CalculateLeaveDays("20/08/2025", "22/08/2025") == 3
    ensures CalculateReturnDate("22/08/2025") == "23/08/2025"
    ensures FormatDateForApi("20/08/2025") == "08/20/2025"
    ensures FormatDateForApi("22/08/2025") == "08/22/2025"
    ensures FormatDateForApi("23/08/2025") == "08/23/2025"
    ensures MapLeaveTypeToId("Casual") == 1
  {
    ExampleDates();
    assert NextDay(Date(2025, 8, 22)) == Some(Date(2025, 8, 23));
    assert FormatMDY(Date(2025, 8, 20)) == "08/20/2025";
    assert FormatMDY(Date(2025, 8, 22)) == "08/22/2025";
    assert FormatMDY(Date(2025, 8, 23)) == "08/23/2025";
    assert Lower("Casual") == "casual";
  }

  /** Casual leave from 20/08/2025 to 22/08/2025: three days, back on 23 August. */
  lemma SubmitLeaveExample()
    ensures var r := SubmitLeave(Slots(Some("Casual"), Some("20/08/2025"), Some("22/08/2025"), Some("family function")), Response(200));
      && r.request.Some?
      && r.request.value.LeaveID == 1
      && r.request.value.Leavefrom == "08/20/2025"
      && r.request.value.Leaveto == "08/22/2025"
      && r.request.value.Noofleavedays == 3
      && r.request.value.Returndate == "08/23/2025"
      && r.messages[1] == Submitted("Casual", "20/08/2025", "22/08/2025", 3, "23/08/2025", "family function")
  {
    ExampleHelpers();
    var slots := Slots(Some("Casual"), Some("20/08/2025"), Some("22/08/2025"), Some("family function"));
    assert AllFilled(slots);
    var p := BuildCommonParam("Casual", "20/08/2025", "22/08/2025", "family function");
    assert p.LeaveID == 1 && p.Noofleavedays == 3;
    assert p.Leavefrom == "08/20/2025" && p.Leaveto == "08/22/2025" && p.Returndate == "08/23/2025";
    var m := OutcomeMessage(Response(200), "Casual", "20/08/2025", "22/08/2025", "family function");
    assert m == Submitted("Casual", "20/08/2025", "22/08/2025", 3, "23/08/2025", "family function");
    assert SubmitLeave(slots, Response(200)) == SubmitResult([Submitting, m], Some(p), [AllSlotsReset]);
  }

  // ---------------------------------------------------------------------
  // ActionSayLeave.run

  datatype SayMessage = SomeLeaveInformationMissing | LeaveConfirmed(leaveType: string, until: string)

  datatype SayResult = SayResult(message: SayMessage, events: seq<Event>)

  /** `ActionSayLeave.run`: confirm when both the leave type and the end date are set. */
  function SayLeave(leaveType: Option<string>, leaveTo: Option<string>): (r: SayResult)
    ensures r.events == []
    ensures r.message == SomeLeaveInformationMissing <==> !Filled(leaveType) || !Filled(leaveTo)
    ensures r.message.LeaveConfirmed? ==> r.message == LeaveConfirmed(leaveType.value, leaveTo.value)
  {
    if !Filled(leaveType) || !Filled(leaveTo) then
      SayResult(SomeLeaveInformationMissing, [])
    else
      SayResult(LeaveConfirmed(leaveType.value, leaveTo.value), [])
  }
}
