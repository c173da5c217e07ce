/** The shift creation screen: the workplace spinner and its wage, the From date-time and To time
    pickers, and the Create button, which validates the form, looks for an identical shift of the
    same workplace and saves a new one whose earnings are its hours times the wage. */
module ShiftCreation {
  import opened Wrappers
  import opened Text
  import opened Dates
  import opened ShiftBean
  import opened Backend
  import MonthlyReport

  const FILL_ALL_FIELDS := "Please fill all fields."
  const SELECT_FROM_FIRST := "Please select 'From' date and time first."
  const TO_AFTER_FROM := "'To' time should be after 'From' time."
  const ALREADY_OCCUPIED := "Shift already Occupied"
  const USER_NOT_LOGGED_IN := "User not logged in"
  const NO_WORKPLACES := "No workplaces found for the user"

  // ---------------------------------------------------------------- the date part of a stamp

  /** The index of the first space in s, or |s| when there is none. */
  function SpaceIndex(s: string): (k: nat)
    ensures k <= |s| && (k < |s| ==> s[k] == ' ')
    ensures forall j :: 0 <= j < k ==> s[j] != ' '
  {
    if s == [] || s[0] == ' ' then 0 else 1 + SpaceIndex(s[1..])
  }

  predicate AllSpaces(s: string) {
    forall k :: 0 <= k < |s| ==> s[k] == ' '
  }

  /** split(" ")[0]: the text before the first space. split drops trailing empty parts, so a
      non-empty text of spaces only yields no part at all and indexing it throws; None stands for
      that exception. */
  function SplitHead(s: string): (r: Option<string>)
    ensures r.None? <==> s != [] && AllSpaces(s)
    ensures r.Some? ==> r.value <= s && (|r.value| < |s| ==> s[|r.value|] == ' ')
    ensures r.Some? ==> forall k :: 0 <= k < |r.value| ==> r.value[k] != ' '
  {
    if s != [] && AllSpaces(s) then None else Some(s[..SpaceIndex(s)])
  }

  /** The head of a stamp is its "yyyy-MM-dd" date. */
  lemma {:induction false} SplitHeadOfStamp(s: string)
    requires IsStamp(s)
    ensures SplitHead(s) == Some(s[..10])
  {
    assert !AllSpaces(s) by {
      assert s[0] != ' ';
    }
    var k := SpaceIndex(s);
    assert k == 10;
  }

  // ---------------------------------------------------------------- hours and earnings

  /** calculateTotalHours: (toMillis - fromMillis) / 3,600,000 where each millis starts at 0 and
      is set by a successful parse; the end is parsed only when the start parses. */
  function TotalHours(fromDateTime: string, toDateTime: string): (h: real)
    ensures ParseStamp(fromDateTime).None? ==> h == 0.0
    ensures ParseStamp(fromDateTime).Some? && ParseStamp(toDateTime).None? ==>
              h * 3_600_000.0 == -Millis(ParseStamp(fromDateTime).value) as real
    ensures ParseStamp(fromDateTime).Some? && ParseStamp(toDateTime).Some? ==>
              (h >= 0.0 <==> ParseStamp(fromDateTime).value <= ParseStamp(toDateTime).value)
  {
    match ParseStamp(fromDateTime)
    case None => 0.0
    case Some(from) =>
      var toMillis := match ParseStamp(toDateTime) case Some(to) => Millis(to) case None => 0;
      (toMillis - Millis(from)) as real / 3_600_000.0
  }

  /** The shift saveShift writes, or None when the database gives no push key (nothing is
      written). The owner email is "" when nobody is signed in. */
  function ShiftToSave(fromDateTime: string, toDateTime: string, workplace: string,
                       pushKey: Option<string>, user: Option<Account>, hourlyWage: real): (r: Option<ShiftData>)
    ensures r.None? <==> pushKey.None?
    ensures r.Some? ==> && r.value.shiftId == pushKey
                        && r.value.fromDateTime == Some(fromDateTime)
                        && r.value.toDateTime == Some(toDateTime)
                        && r.value.workplaceName == Some(workplace)
                        && r.value.userEmail == (if user.None? then Some("") else user.value.email)
                        && r.value.totalEarnings == TotalHours(fromDateTime, toDateTime) * hourlyWage
  {
    if pushKey.None? then None
    else
      var userEmail := if user.Some? then user.value.email else Some("");
      Some(ShiftData(pushKey, Some(fromDateTime), Some(toDateTime), Some(workplace), userEmail,
                     TotalHours(fromDateTime, toDateTime) * hourlyWage))
  }

  /** The monthly report recomputes the same hours whose product with the wage was saved. */
  lemma {:induction false} SavedShiftReportHours(fromDateTime: string, toDateTime: string, workplace: string,
                                                 pushKey: string, user: Option<Account>, hourlyWage: real)
    requires IsStamp(fromDateTime) && IsStamp(toDateTime)
    ensures var s := ShiftToSave(fromDateTime, toDateTime, workplace, Some(pushKey), user, hourlyWage).value;
      && MonthlyReport.ShiftHours(s) == Some(TotalHours(fromDateTime, toDateTime))
      && s.totalEarnings == TotalHours(fromDateTime, toDateTime) * hourlyWage
  {
    var s := ShiftToSave(fromDateTime, toDateTime, workplace, Some(pushKey), user, hourlyWage).value;
    ReportHoursAgree(s);
  }

  /** The report's hours of a shift with two stamps are the hours the form computes. */
  lemma ReportHoursAgree(s: ShiftData)
    requires s.fromDateTime.Some? && s.toDateTime.Some?
    requires IsStamp(s.fromDateTime.value) && IsStamp(s.toDateTime.value)
    ensures MonthlyReport.ShiftHours(s) == Some(TotalHours(s.fromDateTime.value, s.toDateTime.value))
  {
  }

  /** A shift picked on the form: the hours are the difference of the two clock times. */
  lemma {:induction false} PickedShiftHours(c: Civil, hour: nat, minute: nat, toHour: nat, toMinute: nat)
    requires 1 <= c.year <= 9999 && 1 <= c.month <= 12 && 1 <= c.day <= MonthLength(c.year, c.month)
    requires hour < 24 && minute < 60 && toHour < 24 && toMinute < 60
    ensures var from := StampText(c, hour, minute);
      && SplitHead(from) == Some(DateText(c))
      && TotalHours(from, DateText(c) + " " + ClockText(toHour, toMinute)) * 60.0
         == ((toHour * 60 + toMinute) - (hour * 60 + minute)) as real
  {
    var from := StampText(c, hour, minute);
    var to := DateText(c) + " " + ClockText(toHour, toMinute);
    StampRoundTrip(c, hour, minute);
    StampRoundTrip(c, toHour, toMinute);
    SplitHeadOfStamp(from);
    var a := StampMinutes(c.year, c.month, c.day, hour, minute);
    var b := StampMinutes(c.year, c.month, c.day, toHour, toMinute);
    assert b - a == (toHour * 60 + toMinute) - (hour * 60 + minute);
    assert TotalHours(from, to) == (Millis(b) - Millis(a)) as real / 3_600_000.0;
    HoursOfMinutes(b - a);
  }

  lemma HoursOfMinutes(k: int)
    ensures (Millis(k) as real / 3_600_000.0) * 60.0 == k as real
  {
  }

  /** The date text of a picked date has the ten characters "yyyy-MM-dd". */
  lemma {:induction false} DateTextLength(c: Civil)
    requires 1 <= c.year <= 9999 && 1 <= c.month <= 12 && 0 <= c.day < 100
    ensures |DateText(c)| == 10
  {
    assert Pow10(2) == 100 && Pow10(4) == 10000;
    ZeroPadRoundTrip(c.year, 4);
    ZeroPadRoundTrip(c.month, 2);
    ZeroPadRoundTrip(c.day, 2);
  }

  // ---------------------------------------------------------------- the Create button

  /** What createShift decides before it queries the database. */
  datatype ShiftCheck =
    | MissingFields
    | SplitFailure
    | OrderRejected
    | Proceed(from: string, to: string, workplace: string)

  /** createShift as written: the end is the start's date part, a space and the To text, and the
      order check compares the From and To calendars rather than the two texts it saves. */
  function CreateShiftCheckAsWritten(fromText: string, toText: string, selected: Option<string>,
                                     fromInstant: int, toInstant: int): (r: ShiftCheck)
    ensures r == MissingFields <==> fromText == [] || toText == [] || selected.None?
    ensures r == SplitFailure <==> r != MissingFields && SplitHead(fromText).None?
    ensures r == OrderRejected <==> r != MissingFields && r != SplitFailure && fromInstant > toInstant
    ensures r.Proceed? ==> && r.from == fromText && r.workplace == selected.value
                           && r.to == SplitHead(fromText).value + " " + toText
  {
    if fromText == [] || toText == [] || selected.None? then MissingFields
    else match SplitHead(fromText)
      case None => SplitFailure
      case Some(head) =>
        if fromInstant > toInstant then OrderRejected
        else Proceed(fromText, head + " " + toText, selected.value)
  }

  /** createShift with the order check it evidently intends: the start and end that will be
      saved are compared, so a saved shift never has negative hours; a text that does not parse
      is refused by the same check. */
  function CreateShiftCheck(fromText: string, toText: string, selected: Option<string>): (r: ShiftCheck)
    ensures r == MissingFields <==> fromText == [] || toText == [] || selected.None?
    ensures r == SplitFailure <==> r != MissingFields && SplitHead(fromText).None?
    ensures r.Proceed? ==> && r.from == fromText && r.workplace == selected.value
                           && r.to == SplitHead(fromText).value + " " + toText
    ensures r.Proceed? ==> && ParseStamp(r.from).Some? && ParseStamp(r.to).Some?
                           && ParseStamp(r.from).value <= ParseStamp(r.to).value
  {
    if fromText == [] || toText == [] || selected.None? then MissingFields
    else match SplitHead(fromText)
      case None => SplitFailure
      case Some(head) =>
        var toDateTime := head + " " + toText;
        match (ParseStamp(fromText), ParseStamp(toDateTime))
        case (Some(from), Some(to)) =>
          if from > to then OrderRejected else Proceed(fromText, toDateTime, selected.value)
        case _ => OrderRejected
  }

  /** A shift the corrected check lets through never has negative hours. */
  lemma CheckedHoursNonNegative(fromText: string, toText: string, selected: Option<string>)
    requires CreateShiftCheck(fromText, toText, selected).Proceed?
    ensures var r := CreateShiftCheck(fromText, toText, selected); TotalHours(r.from, r.to) >= 0.0
  {
  }

  /** While the To text belongs to the current From pick, the two checks agree. */
  lemma {:induction false} ChecksAgreeOnFreshTo(c: Civil, hour: nat, minute: nat, toHour: nat, toMinute: nat,
                                                selected: Option<string>)
    requires 1 <= c.year <= 9999 && 1 <= c.month <= 12 && 1 <= c.day <= MonthLength(c.year, c.month)
    requires hour < 24 && minute < 60 && toHour < 24 && toMinute < 60
    ensures CreateShiftCheck(StampText(c, hour, minute), ClockText(toHour, toMinute), selected)
         == CreateShiftCheckAsWritten(StampText(c, hour, minute), ClockText(toHour, toMinute), selected,
                                      StampMinutes(c.year, c.month, c.day, hour, minute),
                                      StampMinutes(c.year, c.month, c.day, toHour, toMinute))
  {
    var from := StampText(c, hour, minute);
    var to := DateText(c) + " " + ClockText(toHour, toMinute);
    PickedShiftHours(c, hour, minute, toHour, toMinute);
    StampRoundTrip(c, hour, minute);
    StampRoundTrip(c, toHour, toMinute);
    assert to == StampText(c, toHour, toMinute);
  }

  // ---------------------------------------------------------------- the duplicate scan

  /** The two stamps of an existing shift of the same workplace, each null when missing. */
  datatype Slot = Slot(fromDateTime: Option<string>, toDateTime: Option<string>)

  /** An existing shift is a duplicate when both its stamps are present and string-equal. */
  predicate SameSlot(e: Slot, fromDateTime: string, toDateTime: string) {
    e.fromDateTime == Some(fromDateTime) && e.toDateTime == Some(toDateTime)
  }

  /** checkForOverlappingShifts' loop: stop at the first identical shift. */
  method CheckForOverlappingShifts(existing: seq<Slot>, fromDateTime: string, toDateTime: string)
    returns (isOverlapping: bool)
    ensures isOverlapping <==> exists i :: 0 <= i < |existing| && SameSlot(existing[i], fromDateTime, toDateTime)
  {
    isOverlapping := false;
    var i := 0;
    while i < |existing|
      invariant 0 <= i <= |existing|
      invariant forall j :: 0 <= j < i ==> !SameSlot(existing[j], fromDateTime, toDateTime)
    {
      var e := existing[i];
      if e.fromDateTime.Some? && e.toDateTime.Some?
         && e.fromDateTime.value == fromDateTime && e.toDateTime.value == toDateTime {
        isOverlapping := true;
        break;
      }
      i := i + 1;
    }
  }

  /** Both texts parse and the first instant comes before the second. */
  predicate Earlier(s: string, t: string) {
    ParseStamp(s).Some? && ParseStamp(t).Some? && ParseStamp(s).value < ParseStamp(t).value
  }

  /** The scan is not an interval test: a new shift that starts after an existing one starts,
      or ends before it ends, is never its duplicate, however much the two overlap. */
  lemma OverlapIsNotDuplicate(e: Slot, fromDateTime: string, toDateTime: string)
    requires e.fromDateTime.Some? && e.toDateTime.Some?
    requires Earlier(e.fromDateTime.value, fromDateTime) || Earlier(toDateTime, e.toDateTime.value)
    ensures !SameSlot(e, fromDateTime, toDateTime)
  {
  }

  /** Such shifts exist on every day: 10:00 to 12:00 lies inside 9:00 to 17:00. */
  lemma {:induction false} ContainedShiftOnAnyDay(c: Civil)
    requires 1 <= c.year <= 9999 && 1 <= c.month <= 12 && 1 <= c.day <= MonthLength(c.year, c.month)
    ensures var existing := Slot(Some(StampText(c, 9, 0)), Some(StampText(c, 17, 0)));
      && Earlier(StampText(c, 9, 0), StampText(c, 10, 0))
      && Earlier(StampText(c, 12, 0), StampText(c, 17, 0))
      && !SameSlot(existing, StampText(c, 10, 0), StampText(c, 12, 0))
  {
    StampRoundTrip(c, 9, 0);
    StampRoundTrip(c, 10, 0);
    StampRoundTrip(c, 12, 0);
    StampRoundTrip(c, 17, 0);
    OverlapIsNotDuplicate(Slot(Some(StampText(c, 9, 0)), Some(StampText(c, 17, 0))),
                          StampText(c, 10, 0), StampText(c, 12, 0));
  }

  // ---------------------------------------------------------------- the spinner's wage

  /** The wage after the wage query's callback has run over the non-null wage texts, each
      replacing the last; None stands for the NumberFormatException of a text that is not a
      number. */
  function WageAfter(initial: real, wages: seq<Option<string>>): Option<real> {
    Replay(initial, Outcomes(wages))
  }

  /** What the callback makes of one wage text: nothing for a null text, otherwise the outcome of
      parseDouble. */
  function WageOutcome(wage: Option<string>): Option<Option<real>> {
    if wage.None? then None else Some(ParseDecimal(wage.value))
  }

  function Outcomes(wages: seq<Option<string>>): (r: seq<Option<Option<real>>>)
    ensures |r| == |wages|
  {
    seq(|wages|, i requires 0 <= i < |wages| => WageOutcome(wages[i]))
  }

  /** One record of the wage callback: a null text keeps the wage, a number replaces it, and any
      other text throws. */
  method ReadWage(text: Option<string>, wage: real) returns (failed: bool, wage': real)
    ensures failed <==> text.Some? && ParseDecimal(text.value).None?
    ensures !failed && text.None? ==> wage' == wage
    ensures !failed && text.Some? ==> ParseDecimal(text.value) == Some(wage')
  {
    failed, wage' := false, wage;
    if text.Some? {
      var parsed := ParseDecimal(text.value);
      if parsed.None? {
        return true, wage;
      }
      wage' := parsed.value;
    }
  }

  /** Replaying one more outcome. */
  lemma ReplayStep(initial: real, outcomes: seq<Option<Option<real>>>, i: nat)
    requires i < |outcomes|
    ensures Replay(initial, outcomes[..i + 1])
         == match Replay(initial, outcomes[..i])
            case None => None
            case Some(w) => if outcomes[i].None? then Some(w) else outcomes[i].value
  {
    assert outcomes[..i + 1][..i] == outcomes[..i];
  }

  /** Replays the outcomes in order from the initial wage: a parsed wage replaces the current one,
      a failed parse ends the callback. */
  function Replay(initial: real, outcomes: seq<Option<Option<real>>>): Option<real> {
    if outcomes == [] then Some(initial)
    else
      match Replay(initial, outcomes[..|outcomes| - 1])
      case None => None
      case Some(w) =>
        var last := outcomes[|outcomes| - 1];
        if last.None? then Some(w) else last.value
  }

  /** A replay fails exactly when some outcome is a failed parse. */
  lemma {:induction false} ReplayFails(initial: real, outcomes: seq<Option<Option<real>>>)
    ensures Replay(initial, outcomes).None? <==> exists i :: 0 <= i < |outcomes| && outcomes[i] == Some(None)
  {
    if outcomes != [] {
      var init := outcomes[..|outcomes| - 1];
      ReplayFails(initial, init);
      assert forall i :: 0 <= i < |init| ==> init[i] == outcomes[i];
    }
  }

  /** Once a replay has failed on a prefix it has failed for good. */
  lemma {:induction false} ReplayStaysFailed(initial: real, outcomes: seq<Option<Option<real>>>, n: nat)
    requires n <= |outcomes| && Replay(initial, outcomes[..n]).None?
    ensures Replay(initial, outcomes).None?
    decreases |outcomes| - n
  {
    if n < |outcomes| {
      assert outcomes[..n + 1][..n] == outcomes[..n];
      ReplayStaysFailed(initial, outcomes, n + 1);
    } else {
      assert outcomes[..n] == outcomes;
    }
  }

  /** Without a parsed wage the replay ends where it started. */
  lemma {:induction false} ReplayNoWage(initial: real, outcomes: seq<Option<Option<real>>>)
    requires forall i :: 0 <= i < |outcomes| ==> outcomes[i].None?
    ensures Replay(initial, outcomes) == Some(initial)
  {
    if outcomes != [] {
      ReplayNoWage(initial, outcomes[..|outcomes| - 1]);
    }
  }

  /** A replay that does not fail ends with the last parsed wage. */
  lemma {:induction false} ReplayLast(initial: real, outcomes: seq<Option<Option<real>>>, k: nat)
    requires k < |outcomes| && outcomes[k].Some?
    requires forall j :: k < j < |outcomes| ==> outcomes[j].None?
    requires Replay(initial, outcomes).Some?
    ensures Replay(initial, outcomes) == outcomes[k].value
    decreases |outcomes|
  {
    if k < |outcomes| - 1 {
      ReplayLast(initial, outcomes[..|outcomes| - 1], k);
    }
  }

  /** The callback fails exactly when some non-null wage text is not a number. */
  lemma WageAfterFails(initial: real, wages: seq<Option<string>>)
    ensures WageAfter(initial, wages).None? <==>
              exists i :: 0 <= i < |wages| && wages[i].Some? && ParseDecimal(wages[i].value).None?
  {
    var outcomes := Outcomes(wages);
    ReplayFails(initial, outcomes);
    assert forall i :: 0 <= i < |wages| ==>
      (outcomes[i] == Some(None) <==> wages[i].Some? && ParseDecimal(wages[i].value).None?);
  }

  /** Without any wage text the wage is unchanged. */
  lemma WageAfterNoWage(initial: real, wages: seq<Option<string>>)
    requires forall i :: 0 <= i < |wages| ==> wages[i].None?
    ensures WageAfter(initial, wages) == Some(initial)
  {
    ReplayNoWage(initial, Outcomes(wages));
  }

  /** Otherwise the last non-null wage wins. */
  lemma WageAfterLast(initial: real, wages: seq<Option<string>>, k: nat)
    requires k < |wages| && wages[k].Some?
    requires forall j :: k < j < |wages| ==> wages[j].None?
    requires WageAfter(initial, wages).Some?
    ensures WageAfter(initial, wages) == ParseDecimal(wages[k].value)
  {
    var outcomes := Outcomes(wages);
    assert forall j :: k < j < |wages| ==> outcomes[j].None?;
    ReplayLast(initial, outcomes, k);
  }

  // ---------------------------------------------------------------- the form

  /** What pressing Create ends in: a rejecting toast, the exception of an unsplittable From
      text, no push key (nothing happens), or the write of a shift, which either succeeds (the
      fields are cleared) or fails. */
  datatype CreateOutcome =
    | Rejected(message: string)
    | IndexOutOfBounds
    | NoPushKey
    | Written(shift: ShiftData, succeeded: bool)

  /** An instant splits into its day and its minute of the day. */
  lemma DayAndTime(day: int, k: int)
    requires 0 <= k < 1440
    ensures (day * 1440 + k) / 1440 == day && (day * 1440 + k) % 1440 == k
  {
  }

  /** The time picker sets the hour and minute of a calendar on the picked date: the instant of
      that date and time, and a time of day of hour and minute. */
  lemma PickedInstant(c: Civil, hour: nat, minute: nat, before: int)
    requires 1 <= c.month <= 12 && 1 <= c.day <= MonthLength(c.year, c.month)
    requires hour < 24 && minute < 60
    requires CivilFromDays(before / 1440) == c
    ensures (before / 1440) * 1440 + hour * 60 + minute == StampMinutes(c.year, c.month, c.day, hour, minute)
    ensures ((before / 1440) * 1440 + hour * 60 + minute) % 1440 == hour * 60 + minute
  {
    assert before / 1440 == DaysFromCivil(c.year, c.month, c.day);
  }

  /** What pressing Create ends in once the order check has decided: the toast of missing fields,
      the exception of an unsplittable From text, the order toast, or else the duplicate scan over
      the existing shifts and then, with a push key, the write of the shift to save. */
  predicate Submits(check: ShiftCheck, existing: seq<Slot>, pushKey: Option<string>, user: Option<Account>,
                    hourlyWage: real, writeSucceeds: bool, r: CreateOutcome)
  {
    && (check == MissingFields ==> r == Rejected(FILL_ALL_FIELDS))
    && (check == SplitFailure ==> r == IndexOutOfBounds)
    && (check == OrderRejected ==> r == Rejected(TO_AFTER_FROM))
    && (check.Proceed? ==>
          if exists i :: 0 <= i < |existing| && SameSlot(existing[i], check.from, check.to)
          then r == Rejected(ALREADY_OCCUPIED)
          else match ShiftToSave(check.from, check.to, check.workplace, pushKey, user, hourlyWage)
               case None => r == NoPushKey
               case Some(s) => r == Written(s, writeSucceeds))
  }

  /** The fragment's state: the spinner's list and selection, the wage, the From and To texts and
      the From and To calendars (as minutes). */
  class ShiftForm {
    var workplaceList: seq<string>
    var selectedWorkplace: Option<string>
    var hourlyWage: real
    var fromText: string
    var toText: string
    var fromInstant: int
    var toInstant: int

    /** The From text, once picked, is a stamp showing the From calendar's time of day. Its date
        can differ from the calendar's: a From pick whose time dialog is cancelled has already
        moved the calendar to the new date. */
    predicate Valid()
      reads this
    {
      fromText == [] || (IsStamp(fromText) && ClockMinutes(fromText) == fromInstant % 1440)
    }

    /** The spinner's part of the state. */
    function Spinner(): (seq<string>, Option<string>, real)
      reads this
    {
      (workplaceList, selectedWorkplace, hourlyWage)
    }

    /** The pickers' part of the state. */
    function Pickers(): (string, string, int, int)
      reads this
    {
      (fromText, toText, fromInstant, toInstant)
    }

    /** onCreateView: both calendars start at the current time. */
    constructor (now: int)
      ensures Valid()
      ensures Spinner() == ([], None, 0.0) && Pickers() == ("", "", now, now)
    {
      workplaceList, selectedWorkplace, hourlyWage := [], None, 0.0;
      fromText, toText, fromInstant, toInstant := "", "", now, now;
    }

    /** loadWorkplaces' callback, given the workplace names of the user's workplace records:
        non-null names are appended to the list, which is not cleared first. */
    method LoadWorkplaces(signedIn: bool, names: seq<Option<string>>) returns (toast: Option<string>)
      modifies this
      ensures !signedIn ==> toast == Some(USER_NOT_LOGGED_IN) && workplaceList == old(workplaceList)
      ensures signedIn && names == [] ==> toast == Some(NO_WORKPLACES) && workplaceList == old(workplaceList)
      ensures signedIn && names != [] ==> toast == None && workplaceList == old(workplaceList) + Somes(names)
      ensures selectedWorkplace == old(selectedWorkplace) && hourlyWage == old(hourlyWage)
      ensures Pickers() == old(Pickers())
    {
      if !signedIn {
        return Some(USER_NOT_LOGGED_IN);
      }
      if names == [] {
        return Some(NO_WORKPLACES);
      }
      var list := workplaceList;
      var i := 0;
      while i < |names|
        invariant 0 <= i <= |names|
        invariant list == workplaceList + Somes(names[..i])
      {
        assert names[..i + 1][..i] == names[..i];
        if names[i].Some? {
          list := list + [names[i].value];
        }
        i := i + 1;
      }
      assert names[..i] == names;
      workplaceList := list;
      return None;
    }

    /** onItemSelected: an index inside the list selects that workplace and asks for its wage
        (the name the wage query uses is returned); any other index clears both. */
    method OnItemSelected(position: int) returns (wageQuery: Option<string>)
      modifies this
      ensures 0 <= position < |workplaceList| ==>
                && selectedWorkplace == Some(workplaceList[position])
                && wageQuery == selectedWorkplace && hourlyWage == old(hourlyWage)
      ensures !(0 <= position < |workplaceList|) ==>
                selectedWorkplace == None && hourlyWage == 0.0 && wageQuery == None
      ensures workplaceList == old(workplaceList) && Pickers() == old(Pickers())
    {
      if 0 <= position < |workplaceList| {
        selectedWorkplace := Some(workplaceList[position]);
        wageQuery := selectedWorkplace;
      } else {
        selectedWorkplace := None;
        hourlyWage := 0.0;
        wageQuery := None;
      }
    }

    /** onNothingSelected. */
    method OnNothingSelected()
      modifies this
      ensures selectedWorkplace == None && hourlyWage == 0.0
      ensures workplaceList == old(workplaceList) && Pickers() == old(Pickers())
    {
      selectedWorkplace := None;
      hourlyWage := 0.0;
    }

    /** fetchHourlyWage's callback, given the hourlyWage texts of the records with the selected
        workplace's name (of any user): each non-null text is parsed and replaces the wage. */
    method OnHourlyWage(wages: seq<Option<string>>) returns (crashed: bool)
      modifies this
      ensures crashed <==> WageAfter(old(hourlyWage), wages).None?
      ensures !crashed ==> hourlyWage == WageAfter(old(hourlyWage), wages).value
      ensures workplaceList == old(workplaceList) && selectedWorkplace == old(selectedWorkplace)
      ensures Pickers() == old(Pickers())
    {
      ghost var outcomes := Outcomes(wages);
      var i := 0;
      while i < |wages|
        invariant 0 <= i <= |wages|
        invariant Replay(old(hourlyWage), outcomes[..i]) == Some(hourlyWage)
        invariant workplaceList == old(workplaceList) && selectedWorkplace == old(selectedWorkplace)
        invariant Pickers() == old(Pickers())
      {
        var failed, wage := ReadWage(wages[i], hourlyWage);
        ReplayStep(old(hourlyWage), outcomes, i);
        if failed {
          ReplayStaysFailed(old(hourlyWage), outcomes, i + 1);
          return true;
        }
        hourlyWage := wage;
        i := i + 1;
      }
      assert outcomes[..i] == outcomes;
      return false;
    }

    /** The From field's date listener: the From calendar moves to the picked date and keeps its
        time of day. When the time dialog it opens is cancelled, that is the whole effect, and the
        From text still shows the previous pick. */
    method PickFromDate(c: Civil)
      requires 1 <= c.year <= 9999 && 1 <= c.month <= 12 && 1 <= c.day <= MonthLength(c.year, c.month)
      modifies this
      ensures CivilFromDays(fromInstant / 1440) == c && fromInstant % 1440 == old(fromInstant) % 1440
      ensures fromText == old(fromText) && toText == old(toText) && toInstant == old(toInstant)
      ensures Valid() == old(Valid()) && Spinner() == old(Spinner())
    {
      var day := DaysFromCivil(c.year, c.month, c.day);
      fromInstant := day * 1440 + fromInstant % 1440;
      assert fromInstant / 1440 == day;
      CivilRoundTrip(c);
    }

    /** The From field's date and time pickers, both completed: the From calendar and text take
        the picked date and time, and the To calendar is set to the same instant; the To text is
        left as it was. */
    method PickFrom(c: Civil, hour: nat, minute: nat)
      requires 1 <= c.year <= 9999 && 1 <= c.month <= 12 && 1 <= c.day <= MonthLength(c.year, c.month)
      requires hour < 24 && minute < 60
      modifies this
      ensures Valid()
      ensures fromText == StampText(c, hour, minute)
      ensures fromInstant == StampMinutes(c.year, c.month, c.day, hour, minute)
      ensures toInstant == fromInstant && toText == old(toText)
      ensures Spinner() == old(Spinner())
    {
      PickFromDate(c);
      PickedInstant(c, hour, minute, fromInstant);
      fromInstant := (fromInstant / 1440) * 1440 + hour * 60 + minute;
      fromText := StampText(c, hour, minute);
      toInstant := fromInstant;
      StampRoundTrip(c, hour, minute);
    }

    /** A click on the To field: refused until a From is picked; otherwise the To time picker
        sets the hour and minute of the To calendar, keeping its date, and the To text. */
    method ClickTo(hour: nat, minute: nat) returns (toast: Option<string>)
      requires Valid() && hour < 24 && minute < 60
      modifies this
      ensures Valid()
      ensures fromText == [] ==> toast == Some(SELECT_FROM_FIRST) && Pickers() == old(Pickers())
      ensures fromText != [] ==> && toast == None && toText == ClockText(hour, minute)
                                 && toInstant == (old(toInstant) / 1440) * 1440 + hour * 60 + minute
                                 && fromText == old(fromText) && fromInstant == old(fromInstant)
      ensures Spinner() == old(Spinner())
    {
      if fromText == [] {
        return Some(SELECT_FROM_FIRST);
      }
      toInstant := (toInstant / 1440) * 1440 + hour * 60 + minute;
      toText := ClockText(hour, minute);
      return None;
    }

    /** The Create button, given the existing shifts of the selected workplace, the push key,
        the signed-in account and whether the write succeeds. Its order check is the one of
        CreateShiftCheckAsWritten, on the From and To calendars. */
    method CreateShift(existing: seq<Slot>, pushKey: Option<string>, user: Option<Account>, writeSucceeds: bool)
      returns (r: CreateOutcome)
      requires Valid()
      modifies this
      ensures Valid() && Spinner() == old(Spinner())
      ensures Submits(CreateShiftCheckAsWritten(old(fromText), old(toText), old(selectedWorkplace),
                                                old(fromInstant), old(toInstant)),
                      existing, pushKey, user, old(hourlyWage), writeSucceeds, r)
      ensures r.Written? && r.succeeded ==> fromText == "" && toText == ""
      ensures !(r.Written? && r.succeeded) ==> fromText == old(fromText) && toText == old(toText)
      ensures fromInstant == old(fromInstant) && toInstant == old(toInstant)
    {
      var check := CreateShiftCheckAsWritten(fromText, toText, selectedWorkplace, fromInstant, toInstant);
      r := Submit(check, existing, pushKey, user, writeSucceeds);
    }

    /** The Create button with the corrected order check of CreateShiftCheck, which compares the
        two texts that are saved. */
    method CreateShiftCorrected(existing: seq<Slot>, pushKey: Option<string>, user: Option<Account>,
                                writeSucceeds: bool)
      returns (r: CreateOutcome)
      requires Valid()
      modifies this
      ensures Valid() && Spinner() == old(Spinner())
      ensures Submits(CreateShiftCheck(old(fromText), old(toText), old(selectedWorkplace)),
                      existing, pushKey, user, old(hourlyWage), writeSucceeds, r)
      ensures r.Written? ==> TotalHours(r.shift.fromDateTime.value, r.shift.toDateTime.value) >= 0.0
      ensures r.Written? && r.succeeded ==> fromText == "" && toText == ""
      ensures !(r.Written? && r.succeeded) ==> fromText == old(fromText) && toText == old(toText)
      ensures fromInstant == old(fromInstant) && toInstant == old(toInstant)
    {
      var check := CreateShiftCheck(fromText, toText, selectedWorkplace);
      if check.Proceed? {
        CheckedHoursNonNegative(fromText, toText, selectedWorkplace);
      }
      r := Submit(check, existing, pushKey, user, writeSucceeds);
    }

    /** What follows the order check: its toast or exception for a refusal, then the duplicate
        scan and the write of the shift. */
    method Submit(check: ShiftCheck, existing: seq<Slot>, pushKey: Option<string>, user: Option<Account>,
                  writeSucceeds: bool)
      returns (r: CreateOutcome)
      requires Valid()
      modifies this
      ensures Valid() && Spinner() == old(Spinner())
      ensures Submits(check, existing, pushKey, user, old(hourlyWage), writeSucceeds, r)
      ensures r.Written? && r.succeeded ==> fromText == "" && toText == ""
      ensures !(r.Written? && r.succeeded) ==> fromText == old(fromText) && toText == old(toText)
      ensures fromInstant == old(fromInstant) && toInstant == old(toInstant)
    {
      match check {
        case MissingFields => return Rejected(FILL_ALL_FIELDS);
        case SplitFailure => return IndexOutOfBounds;
        case OrderRejected => return Rejected(TO_AFTER_FROM);
        case Proceed(from, to, workplace) =>
          var isOverlapping := CheckForOverlappingShifts(existing, from, to);
          if isOverlapping {
            return Rejected(ALREADY_OCCUPIED);
          }
          var shift := ShiftToSave(from, to, workplace, pushKey, user, hourlyWage);
          if shift.None? {
            return NoPushKey;
          }
          if writeSucceeds {
            ClearFields();
          }
          return Written(shift.value, writeSucceeds);
      }
    }

    /** clearFields: both texts emptied. */
    method ClearFields()
      modifies this
      ensures fromText == "" && toText == "" && Valid()
      ensures fromInstant == old(fromInstant) && toInstant == old(toInstant)
      ensures Spinner() == old(Spinner())
    {
      fromText := "";
      toText := "";
    }
  }

  /** Re-picking From after To: the To calendar follows the new From but the To text keeps the
      old time, so the Create button saves a shift that ends an hour before it starts, with
      negative earnings. */
  method StaleToAccepted(c: Civil) returns (asWritten: CreateOutcome)
    requires 1 <= c.year <= 9999 && 1 <= c.month <= 12 && 1 <= c.day <= MonthLength(c.year, c.month)
    ensures asWritten == Written(StaleShift(c), true)
    ensures TotalHours(StampText(c, 13, 0), StampText(c, 12, 0)) == -1.0
  {
    var form := PickTwice(c);
    StaleToChecks(c, 13, 0, 12, 0, "Cafe", form.fromInstant);
    StaleShiftSaved(c);
    asWritten := form.CreateShift([], Some("shift"), None, true);
  }

  /** The shift those picks save: from 13:00 to 12:00, with earnings of minus one hour's wage. */
  function StaleShift(c: Civil): ShiftData {
    ShiftData(Some("shift"), Some(StampText(c, 13, 0)), Some(StampText(c, 12, 0)), Some("Cafe"), Some(""), -15.0)
  }

  lemma StaleShiftSaved(c: Civil)
    requires 1 <= c.year <= 9999 && 1 <= c.month <= 12 && 1 <= c.day <= MonthLength(c.year, c.month)
    ensures TotalHours(StampText(c, 13, 0), StampText(c, 12, 0)) == -1.0
    ensures ShiftToSave(StampText(c, 13, 0), StampText(c, 12, 0), "Cafe", Some("shift"), None, 15.0)
         == Some(StaleShift(c))
  {
    StaleToChecks(c, 13, 0, 12, 0, "Cafe", 0);
  }

  /** The same picks on the corrected Create button: the saved texts are compared, and the shift
      is refused. */
  method StaleToRefused(c: Civil) returns (corrected: CreateOutcome)
    requires 1 <= c.year <= 9999 && 1 <= c.month <= 12 && 1 <= c.day <= MonthLength(c.year, c.month)
    ensures corrected == Rejected(TO_AFTER_FROM)
  {
    var form := PickTwice(c);
    StaleToChecks(c, 13, 0, 12, 0, "Cafe", form.fromInstant);
    corrected := form.CreateShiftCorrected([], Some("shift"), None, true);
  }

  /** The form after selecting the only workplace, whose wage is "15", picking From at 10:00,
      To at 12:00 and From again at 13:00 on the same date. */
  method PickTwice(c: Civil) returns (form: ShiftForm)
    requires 1 <= c.year <= 9999 && 1 <= c.month <= 12 && 1 <= c.day <= MonthLength(c.year, c.month)
    ensures fresh(form) && form.Valid()
    ensures form.fromText == StampText(c, 13, 0) && form.toText == ClockText(12, 0)
    ensures form.selectedWorkplace == Some("Cafe") && form.hourlyWage == 15.0
    ensures form.fromInstant == form.toInstant == StampMinutes(c.year, c.month, c.day, 13, 0)
  {
    form := new ShiftForm(0);
    var _ := form.LoadWorkplaces(true, [Some("Cafe")]);
    var _ := form.OnItemSelected(0);
    assert Decimal(15) == "15";
    ParseDecimalOfDecimal(15);
    WageAfterFails(0.0, [Some("15")]);
    WageAfterLast(0.0, [Some("15")], 0);
    var _ := form.OnHourlyWage([Some("15")]);
    form.PickFrom(c, 10, 0);
    var _ := form.ClickTo(12, 0);
    form.PickFrom(c, 13, 0);
  }

  /** A From pick whose time dialog is cancelled: From 10:00 and To 12:00 on one date, then a
      later date picked for From and its time dialog cancelled. Both texts still show 10:00 to
      12:00 on the first date, two hours, but the From calendar has moved to the later date, so
      the Create button refuses the shift. */
  method CancelledPickRefused(c: Civil, later: Civil) returns (fromText: string, toText: string, r: CreateOutcome)
    requires 1 <= c.year <= 9999 && 1 <= c.month <= 12 && 1 <= c.day <= MonthLength(c.year, c.month)
    requires 1 <= later.year <= 9999 && 1 <= later.month <= 12 && 1 <= later.day <= MonthLength(later.year, later.month)
    requires DaysFromCivil(c.year, c.month, c.day) < DaysFromCivil(later.year, later.month, later.day)
    ensures fromText == StampText(c, 10, 0) && toText == ClockText(12, 0)
    ensures TotalHours(fromText, DateText(c) + " " + toText) == 2.0
    ensures r == Rejected(TO_AFTER_FROM)
  {
    var form := PickThenCancel(c, later);
    SplitHeadOfStamp(form.fromText);
    PickedShiftHours(c, 10, 0, 12, 0);
    fromText, toText := form.fromText, form.toText;
    r := form.CreateShift([], Some("shift"), None, true);
  }

  /** The form after selecting the only workplace, picking From at 10:00 and To at 12:00 on c,
      then picking the date later for From and cancelling its time dialog. */
  method PickThenCancel(c: Civil, later: Civil) returns (form: ShiftForm)
    requires 1 <= c.year <= 9999 && 1 <= c.month <= 12 && 1 <= c.day <= MonthLength(c.year, c.month)
    requires 1 <= later.year <= 9999 && 1 <= later.month <= 12 && 1 <= later.day <= MonthLength(later.year, later.month)
    ensures fresh(form) && form.Valid()
    ensures form.fromText == StampText(c, 10, 0) && form.toText == ClockText(12, 0)
    ensures form.selectedWorkplace == Some("Cafe") && IsStamp(form.fromText)
    ensures form.fromInstant == DaysFromCivil(later.year, later.month, later.day) * 1440 + 600
    ensures form.toInstant == DaysFromCivil(c.year, c.month, c.day) * 1440 + 720
  {
    form := new ShiftForm(0);
    var _ := form.LoadWorkplaces(true, [Some("Cafe")]);
    var _ := form.OnItemSelected(0);
    form.PickFrom(c, 10, 0);
    var _ := form.ClickTo(12, 0);
    var day := DaysFromCivil(c.year, c.month, c.day);
    DayAndTime(day, 600);
    form.PickFromDate(later);
    DayAndTime(DaysFromCivil(later.year, later.month, later.day), 600);
    StampRoundTrip(c, 10, 0);
  }

  /** On any date, a To time earlier than the From time passes the check as written when both
      calendars hold the same instant, giving negative hours, and the corrected check refuses it. */
  lemma StaleToChecks(c: Civil, hour: nat, minute: nat, toHour: nat, toMinute: nat, workplace: string,
                      instant: int)
    requires 1 <= c.year <= 9999 && 1 <= c.month <= 12 && 1 <= c.day <= MonthLength(c.year, c.month)
    requires hour < 24 && minute < 60 && toHour < 24 && toMinute < 60
    requires toHour * 60 + toMinute < hour * 60 + minute
    ensures var from, to := StampText(c, hour, minute), ClockText(toHour, toMinute);
      && CreateShiftCheckAsWritten(from, to, Some(workplace), instant, instant)
         == Proceed(from, StampText(c, toHour, toMinute), workplace)
      && TotalHours(from, StampText(c, toHour, toMinute)) * 60.0
         == ((toHour * 60 + toMinute) - (hour * 60 + minute)) as real
      && CreateShiftCheck(from, to, Some(workplace)) == OrderRejected
  {
    PickedShiftHours(c, hour, minute, toHour, toMinute);
    StampRoundTrip(c, toHour, toMinute);
  }

}
