/**
 * Validation of the journey form (src/utils/validate.js): three single-field
 * checkers, each returning `{isValid, message}`, and the aggregate check run
 * before a deep link is built, which collects one message per failing field
 * into an insertion-ordered error object.
 */
module Validate {
  import opened Wrappers
  import opened JsString
  import opened JsObject

  /** The messages the checkers report. */
  datatype Message =
    | EnterAddress | AddressTooShort | InvalidDate | InvalidTime
    | EnterStartAddress | ChooseDate | ChooseTime | ChooseStop

  /** The text shown for each message. */
  function Text(m: Message): (t: string)
    ensures t != ""
  {
    match m
    case EnterAddress => "Bitte geben Sie eine Adresse ein"
    case AddressTooShort => "Die Adresse muss mindestens 3 Zeichen lang sein"
    case InvalidDate => "Bitte geben Sie ein gültiges Datum ein"
    case InvalidTime => "Bitte geben Sie eine gültige Zeit im Format HH:MM ein"
    case EnterStartAddress => "Bitte geben Sie eine Startadresse ein"
    case ChooseDate => "Bitte wählen Sie ein Datum"
    case ChooseTime => "Bitte wählen Sie eine Uhrzeit"
    case ChooseStop => "Bitte wählen Sie eine Haltestelle aus der Liste"
  }

  /** The result of a single-field checker. */
  datatype FieldCheck = FieldCheck(isValid: bool, message: string)

  /** `validateAddress`: a start address needs at least three code units once trimmed. */
  function ValidateAddress(address: string): (r: FieldCheck)
    ensures r.isValid <==> r.message == ""
    ensures r.isValid <==> Utf16Length(Trim(address)) >= 3
    ensures r.message == Text(EnterAddress) <==> AllWhitespace(address)
    ensures r.message == Text(AddressTooShort) <==> !AllWhitespace(address) && Utf16Length(Trim(address)) < 3
  {
    BlankIffAllWhitespace(address);
    if IsBlank(address) then
      FieldCheck(false, Text(EnterAddress))
    else if Utf16Length(Trim(address)) < 3 then
      FieldCheck(false, Text(AddressTooShort))
    else
      FieldCheck(true, "")
  }

  /**
   * `validateDate`: an empty date is accepted (the field is optional here);
   * otherwise the text must be accepted by the date parser `parsesAsDate`,
   * which stands for `!isNaN(new Date(date).getTime())`.
   */
  function ValidateDate(date: string, parsesAsDate: string -> bool): (r: FieldCheck)
    ensures r.isValid <==> r.message == ""
    ensures r.isValid <==> AllWhitespace(date) || parsesAsDate(date)
    ensures !r.isValid ==> r.message == Text(InvalidDate)
  {
    BlankIffAllWhitespace(date);
    if IsBlank(date) then
      FieldCheck(true, "")
    else if !parsesAsDate(date) then
      FieldCheck(false, Text(InvalidDate))
    else
      FieldCheck(true, "")
  }

  predicate IsDigit(c: char)
  {
    '0' <= c <= '9'
  }

  predicate AllDigits(s: string)
  {
    forall i :: 0 <= i < |s| ==> IsDigit(s[i])
  }

  function DigitValue(c: char): nat
    requires IsDigit(c)
  {
    c as int - '0' as int
  }

  /** The number a string of decimal digits denotes. */
  function DecimalValue(s: string): nat
    requires AllDigits(s)
  {
    if s == [] then 0 else 10 * DecimalValue(s[..|s| - 1]) + DigitValue(s[|s| - 1])
  }

  /** The group `([0-1]?[0-9]|2[0-3])` of the time pattern, matched against the whole of `h`. */
  predicate HourGroup(h: string)
  {
    (|h| == 1 && IsDigit(h[0])) ||
    (|h| == 2 && '0' <= h[0] <= '1' && IsDigit(h[1])) ||
    (|h| == 2 && h[0] == '2' && '0' <= h[1] <= '3')
  }

  /** `[0-5][0-9]`, matched against the whole of `m`. */
  predicate MinuteGroup(m: string)
  {
    |m| == 2 && '0' <= m[0] <= '5' && IsDigit(m[1])
  }

  /**
   * `/^([0-1]?[0-9]|2[0-3]):[0-5][0-9]$/.test(s)`: the hour group takes one or
   * two characters, then comes the colon, then the minute group up to the end.
   */
  predicate MatchesTimePattern(s: string)
  {
    (|s| >= 2 && s[1] == ':' && HourGroup(s[..1]) && MinuteGroup(s[2..])) ||
    (|s| >= 3 && s[2] == ':' && HourGroup(s[..2]) && MinuteGroup(s[3..]))
  }

  /**
   * A time of day on the 24-hour clock: an hour of one or two digits
   * with value at most 23, a colon, and a minute of exactly two digits with
   * value at most 59.
   */
  predicate IsClockTime(s: string)
  {
    4 <= |s| <= 5 && s[|s| - 3] == ':' &&
    AllDigits(s[..|s| - 3]) && DecimalValue(s[..|s| - 3]) <= 23 &&
    AllDigits(s[|s| - 2..]) && DecimalValue(s[|s| - 2..]) <= 59
  }

  lemma TwoDigitValue(s: string)
    requires |s| == 2 && AllDigits(s)
    ensures DecimalValue(s) == 10 * DigitValue(s[0]) + DigitValue(s[1])
  {
    assert s[..1][..0] == [] && s[..1][0] == s[0];
    assert DecimalValue(s[..1]) == DigitValue(s[0]);
  }

  /** The time pattern accepts exactly the clock times. */
  lemma TimePatternIsClockTime(s: string)
    ensures MatchesTimePattern(s) <==> IsClockTime(s)
  {
    if 4 <= |s| <= 5 {
      var h, m := s[..|s| - 3], s[|s| - 2..];
      if AllDigits(m) {
        TwoDigitValue(m);
      }
      if |h| == 1 {
        assert h[..0] == [];
      } else if AllDigits(h) {
        TwoDigitValue(h);
      }
      assert |s| == 4 ==> s[..1] == h && s[2..] == m;
      assert |s| == 5 ==> s[..2] == h && s[3..] == m;
    }
  }

  /** `validateTime`: an empty time is accepted; otherwise it must be a clock time. No trimming happens before the pattern test. */
  function ValidateTime(time: string): (r: FieldCheck)
    ensures r.isValid <==> r.message == ""
    ensures r.isValid <==> AllWhitespace(time) || IsClockTime(time)
    ensures !r.isValid ==> r.message == Text(InvalidTime)
  {
    BlankIffAllWhitespace(time);
    TimePatternIsClockTime(time);
    if IsBlank(time) then
      FieldCheck(true, "")
    else if !MatchesTimePattern(time) then
      FieldCheck(false, Text(InvalidTime))
    else
      FieldCheck(true, "")
  }

  /** Times the time field accepts: hours with and without a leading zero, up to 23:59. */
  lemma AcceptedTimes()
    ensures ValidateTime("0:00").isValid && ValidateTime("09:30").isValid && ValidateTime("23:59").isValid
  {
    assert IsClockTime("0:00") by {
      assert "0:00"[..1][..0] == [];
      TwoDigitValue("00");
      assert "0:00"[2..] == "00";
    }
    assert IsClockTime("09:30") by {
      TwoDigitValue("09");
      TwoDigitValue("30");
      assert "09:30"[..2] == "09" && "09:30"[3..] == "30";
    }
    assert IsClockTime("23:59") by {
      TwoDigitValue("23");
      TwoDigitValue("59");
      assert "23:59"[..2] == "23" && "23:59"[3..] == "59";
    }
  }

  /** Times the time field rejects: hour 24, minute 60, no digits, a leading space. */
  lemma RejectedTimes()
    ensures !ValidateTime("24:00").isValid && !ValidateTime("9:60").isValid
    ensures !ValidateTime("abc").isValid && !ValidateTime(" 9:30").isValid
  {
    assert !AllWhitespace("24:00") && !IsClockTime("24:00") by {
      assert !IsWhitespace("24:00"[0]);
      TwoDigitValue("24");
      assert "24:00"[..2] == "24";
    }
    assert !AllWhitespace("9:60") && !IsClockTime("9:60") by {
      assert !IsWhitespace("9:60"[0]);
      TwoDigitValue("60");
      assert "9:60"[2..] == "60";
    }
    assert !AllWhitespace("abc") && !IsClockTime("abc") by {
      assert !IsWhitespace("abc"[0]);
    }
    assert !AllWhitespace(" 9:30") && !IsClockTime(" 9:30") by {
      assert !IsWhitespace(" 9:30"[1]);
      assert !IsDigit(" 9:30"[..2][0]);
    }
  }

  /** The fields `validateNavigation` reports on, named as the form's input elements. */
  datatype Field = FromAddress | Date | Time

  /** What `validateNavigation` reads: the three input values and whether a stop is selected. */
  datatype NavigationForm = NavigationForm(date: string, time: string, fromAddress: string, selectedLocation: bool)

  /** What `validateNavigation` returns. */
  datatype NavigationResult = NavigationResult(isValid: bool, errors: Object<Field, Message>, firstError: string)

  /** The message the date field ends up with: unlike ValidateDate, a blank date is an error here. */
  function DateError(date: string, parsesAsDate: string -> bool): (e: Option<Message>)
    ensures e == Some(ChooseDate) <==> AllWhitespace(date)
    ensures e == Some(InvalidDate) <==> !AllWhitespace(date) && !parsesAsDate(date)
    ensures e.None? <==> !AllWhitespace(date) && parsesAsDate(date)
  {
    if AllWhitespace(date) then Some(ChooseDate)
    else if !parsesAsDate(date) then Some(InvalidDate)
    else None
  }

  /** The message the time field ends up with: unlike ValidateTime, a blank time is an error here. */
  function TimeError(time: string): (e: Option<Message>)
    ensures e == Some(ChooseTime) <==> AllWhitespace(time)
    ensures e == Some(InvalidTime) <==> !AllWhitespace(time) && !IsClockTime(time)
    ensures e.None? <==> !AllWhitespace(time) && IsClockTime(time)
  {
    if AllWhitespace(time) then Some(ChooseTime)
    else if !IsClockTime(time) then Some(InvalidTime)
    else None
  }

  /**
   * On a non-blank value the navigation check and the single-field checker
   * agree: the same verdict, and the same message when it fails.
   */
  lemma FieldErrorsAgreeWithCheckers(date: string, time: string, parsesAsDate: string -> bool)
    ensures !AllWhitespace(date) ==>
      (DateError(date, parsesAsDate).None? <==> ValidateDate(date, parsesAsDate).isValid) &&
      (DateError(date, parsesAsDate).Some? ==> Text(DateError(date, parsesAsDate).value) == ValidateDate(date, parsesAsDate).message)
    ensures !AllWhitespace(time) ==>
      (TimeError(time).None? <==> ValidateTime(time).isValid) &&
      (TimeError(time).Some? ==> Text(TimeError(time).value) == ValidateTime(time).message)
  {
  }

  /**
   * The message the address field ends up with: a missing stop selection
   * replaces the blank-address message rather than adding a fourth field.
   */
  function AddressError(form: NavigationForm): (e: Option<Message>)
    ensures e == Some(ChooseStop) <==> !form.selectedLocation
    ensures e == Some(EnterStartAddress) <==> form.selectedLocation && AllWhitespace(form.fromAddress)
    ensures e.None? <==> form.selectedLocation && !AllWhitespace(form.fromAddress)
  {
    if !form.selectedLocation then Some(ChooseStop)
    else if AllWhitespace(form.fromAddress) then Some(EnterStartAddress)
    else None
  }

  /** DateError, phrased with the conditions the code evaluates. */
  lemma DateErrorAsCoded(date: string, parsesAsDate: string -> bool)
    ensures DateError(date, parsesAsDate) ==
      if IsBlank(date) then Some(ChooseDate)
      else if !parsesAsDate(date) then Some(InvalidDate)
      else None
  {
    BlankIffAllWhitespace(date);
  }

  /** TimeError, phrased with the conditions the code evaluates. */
  lemma TimeErrorAsCoded(time: string)
    ensures TimeError(time) ==
      if IsBlank(time) then Some(ChooseTime)
      else if !MatchesTimePattern(time) then Some(InvalidTime)
      else None
  {
    BlankIffAllWhitespace(time);
    TimePatternIsClockTime(time);
  }

  function FieldError(form: NavigationForm, parsesAsDate: string -> bool, f: Field): (e: Option<Message>)
  {
    match f
    case FromAddress => AddressError(form)
    case Date => DateError(form.date, parsesAsDate)
    case Time => TimeError(form.time)
  }

  /** A form from which a deep link may be built. */
  predicate FormComplete(form: NavigationForm, parsesAsDate: string -> bool)
  {
    form.selectedLocation && !AllWhitespace(form.fromAddress) &&
    !AllWhitespace(form.date) && parsesAsDate(form.date) && IsClockTime(form.time)
  }

  /** A clock time starts with a digit, so it is never blank. */
  lemma ClockTimeIsNotBlank(s: string)
    requires IsClockTime(s)
    ensures !AllWhitespace(s)
  {
    assert s[0] == s[..|s| - 3][0];
    assert !IsWhitespace(s[0]);
  }

  /** The form is complete exactly when no field has an error. */
  lemma FormCompleteIffNoFieldError(form: NavigationForm, parsesAsDate: string -> bool)
    ensures FormComplete(form, parsesAsDate) <==>
      AddressError(form).None? && DateError(form.date, parsesAsDate).None? && TimeError(form.time).None?
  {
    if IsClockTime(form.time) {
      ClockTimeIsNotBlank(form.time);
    }
  }

  /**
   * The order in which the error keys are first inserted, given which checks
   * fail: the address key comes first when the address is blank, and after
   * date and time when only the missing stop selection sets it.
   */
  function KeyOrder(blank: bool, dateBad: bool, timeBad: bool, selected: bool): seq<Field>
  {
    var middle := (if dateBad then [Date] else []) + (if timeBad then [Time] else []);
    if blank then [FromAddress] + middle
    else if !selected then middle + [FromAddress]
    else middle
  }

  /**
   * The keys are distinct, a key is present exactly when its check failed,
   * and the address key leads when the blank-address check set it, or when
   * the missing stop is the only error.
   */
  lemma KeyOrderFacts(blank: bool, dateBad: bool, timeBad: bool, selected: bool)
    ensures Distinct(KeyOrder(blank, dateBad, timeBad, selected))
    ensures FromAddress in KeyOrder(blank, dateBad, timeBad, selected) <==> blank || !selected
    ensures Date in KeyOrder(blank, dateBad, timeBad, selected) <==> dateBad
    ensures Time in KeyOrder(blank, dateBad, timeBad, selected) <==> timeBad
    ensures KeyOrder(blank, dateBad, timeBad, selected) != [] ==>
      KeyOrder(blank, dateBad, timeBad, selected)[0] == if blank then FromAddress else if dateBad then Date else if timeBad then Time else FromAddress
  {
  }

  /** KeyOrder grows by one conditional key per step of `validateNavigation`. */
  lemma KeyOrderSteps(b: bool, d: bool, t: bool, s: bool)
    ensures KeyOrder(b, false, false, true) == if b then [FromAddress] else []
    ensures KeyOrder(b, d, false, true) == KeyOrder(b, false, false, true) + if d then [Date] else []
    ensures KeyOrder(b, d, t, true) == KeyOrder(b, d, false, true) + if t then [Time] else []
    ensures KeyOrder(b, d, t, s) == if s || b then KeyOrder(b, d, t, true) else KeyOrder(b, d, t, true) + [FromAddress]
  {
  }

  /** The keys of the error object of `form`, in insertion order. */
  function ErrorKeys(form: NavigationForm, parsesAsDate: string -> bool): (ks: seq<Field>)
    ensures Distinct(ks)
    ensures FromAddress in ks <==> AddressError(form).Some?
    ensures Date in ks <==> DateError(form.date, parsesAsDate).Some?
    ensures Time in ks <==> TimeError(form.time).Some?
    ensures ks == [] <==> FormComplete(form, parsesAsDate)
    ensures ks != [] ==>
      ks[0] == if AllWhitespace(form.fromAddress) then FromAddress
               else if DateError(form.date, parsesAsDate).Some? then Date
               else if TimeError(form.time).Some? then Time
               else FromAddress
  {
    FormCompleteIffNoFieldError(form, parsesAsDate);
    KeyOrderFacts(AllWhitespace(form.fromAddress), DateError(form.date, parsesAsDate).Some?,
                  TimeError(form.time).Some?, form.selectedLocation);
    KeyOrder(AllWhitespace(form.fromAddress), DateError(form.date, parsesAsDate).Some?,
             TimeError(form.time).Some?, form.selectedLocation)
  }

  /**
   * A non-blank address without a selected stop is reported after the date:
   * with a blank date and a valid time, the keys are the date's, then the
   * address field's, so the first error is the date's.
   */
  lemma MissingStopReportedLast(form: NavigationForm, parsesAsDate: string -> bool)
    requires AllWhitespace(form.date) && IsClockTime(form.time)
    requires !AllWhitespace(form.fromAddress) && !form.selectedLocation
    ensures ErrorKeys(form, parsesAsDate) == [Date, FromAddress]
  {
    ClockTimeIsNotBlank(form.time);
    KeyOrderFacts(false, true, false, false);
  }

  /** An error object holding exactly the field errors of `form`, in key order, is a valid object. */
  lemma ErrorObjectValid(o: Object<Field, Message>, form: NavigationForm, parsesAsDate: string -> bool)
    requires o.keys == ErrorKeys(form, parsesAsDate)
    requires forall f :: Lookup(o, f) == FieldError(form, parsesAsDate, f)
    ensures Valid(o)
  {
    assert forall f :: f in o.props <==> Lookup(o, f).Some?;
  }

  /**
   * An error object whose keys and values follow the conditions the code evaluates
   * holds exactly the field errors, in ErrorKeys order.
   */
  lemma CodedErrorsAreFieldErrors(form: NavigationForm, parsesAsDate: string -> bool, errors: Object<Field, Message>)
    requires errors.keys ==
      KeyOrder(IsBlank(form.fromAddress), IsBlank(form.date) || !parsesAsDate(form.date),
               IsBlank(form.time) || !MatchesTimePattern(form.time), form.selectedLocation)
    requires Lookup(errors, FromAddress) ==
      if !form.selectedLocation then Some(ChooseStop)
      else if IsBlank(form.fromAddress) then Some(EnterStartAddress)
      else None
    requires Lookup(errors, Date) ==
      if IsBlank(form.date) then Some(ChooseDate)
      else if !parsesAsDate(form.date) then Some(InvalidDate)
      else None
    requires Lookup(errors, Time) ==
      if IsBlank(form.time) then Some(ChooseTime)
      else if !MatchesTimePattern(form.time) then Some(InvalidTime)
      else None
    ensures errors.keys == ErrorKeys(form, parsesAsDate)
    ensures forall f :: Lookup(errors, f) == FieldError(form, parsesAsDate, f)
  {
    BlankIffAllWhitespace(form.fromAddress);
    DateErrorAsCoded(form.date, parsesAsDate);
    TimeErrorAsCoded(form.time);
    assert AllWhitespace(form.fromAddress) == IsBlank(form.fromAddress);
    assert DateError(form.date, parsesAsDate).Some? == (IsBlank(form.date) || !parsesAsDate(form.date));
    assert TimeError(form.time).Some? == (IsBlank(form.time) || !MatchesTimePattern(form.time));
    assert Lookup(errors, FromAddress) == FieldError(form, parsesAsDate, FromAddress);
    assert Lookup(errors, Date) == FieldError(form, parsesAsDate, Date);
    assert Lookup(errors, Time) == FieldError(form, parsesAsDate, Time);
    assert ErrorKeys(form, parsesAsDate) ==
      KeyOrder(AllWhitespace(form.fromAddress), DateError(form.date, parsesAsDate).Some?,
               TimeError(form.time).Some?, form.selectedLocation);
    assert errors.keys == ErrorKeys(form, parsesAsDate);
    forall f ensures Lookup(errors, f) == FieldError(form, parsesAsDate, f) {
      match f
      case FromAddress =>
      case Date =>
      case Time =>
    }
  }

  /**
   * The body of `validateNavigation` up to its return: one assignment to the
   * error object per failed condition, in source order, given the conditions' outcomes.
   */
  method CollectErrors(addressBlank: bool, dateBlank: bool, dateParses: bool,
                       timeBlank: bool, timeMatches: bool, selected: bool)
    returns (errors: Object<Field, Message>)
    ensures errors.keys == KeyOrder(addressBlank, dateBlank || !dateParses, timeBlank || !timeMatches, selected)
    ensures Lookup(errors, FromAddress) ==
      if !selected then Some(ChooseStop) else if addressBlank then Some(EnterStartAddress) else None
    ensures Lookup(errors, Date) ==
      if dateBlank then Some(ChooseDate) else if !dateParses then Some(InvalidDate) else None
    ensures Lookup(errors, Time) ==
      if timeBlank then Some(ChooseTime) else if !timeMatches then Some(InvalidTime) else None
  {
    ghost var dateBad, timeBad := dateBlank || !dateParses, timeBlank || !timeMatches;
    KeyOrderSteps(addressBlank, dateBad, timeBad, selected);
    errors := Empty();
    if addressBlank {
      errors := Assign(errors, FromAddress, EnterStartAddress);
    }
    assert errors.keys == KeyOrder(addressBlank, false, false, true);
    assert Lookup(errors, FromAddress) == if addressBlank then Some(EnterStartAddress) else None;
    assert Lookup(errors, Date) == None && Lookup(errors, Time) == None;
    if dateBlank {
      errors := Assign(errors, Date, ChooseDate);
    } else if !dateParses {
      errors := Assign(errors, Date, InvalidDate);
    }
    assert errors.keys == KeyOrder(addressBlank, dateBad, false, true);
    assert Lookup(errors, FromAddress) == if addressBlank then Some(EnterStartAddress) else None;
    assert Lookup(errors, Date) == if dateBlank then Some(ChooseDate) else if !dateParses then Some(InvalidDate) else None;
    assert Lookup(errors, Time) == None;
    if timeBlank {
      errors := Assign(errors, Time, ChooseTime);
    } else if !timeMatches {
      errors := Assign(errors, Time, InvalidTime);
    }
    assert errors.keys == KeyOrder(addressBlank, dateBad, timeBad, true);
    assert Lookup(errors, FromAddress) == if addressBlank then Some(EnterStartAddress) else None;
    assert Lookup(errors, Date) == if dateBlank then Some(ChooseDate) else if !dateParses then Some(InvalidDate) else None;
    if !selected {
      errors := Assign(errors, FromAddress, ChooseStop);
    }
  }

  /**
   * `validateNavigation`: runs the tests, builds the error object, then reads
   * its key count and its first value.
   */
  method ValidateNavigation(form: NavigationForm, parsesAsDate: string -> bool) returns (r: NavigationResult)
    ensures Valid(r.errors)
    ensures r.errors.keys == ErrorKeys(form, parsesAsDate)
    ensures forall f :: Lookup(r.errors, f) == FieldError(form, parsesAsDate, f)
    ensures r.isValid <==> r.errors.keys == []
    ensures r.isValid <==> FormComplete(form, parsesAsDate)
    ensures r.firstError == "" <==> r.isValid
    ensures !r.isValid ==> r.firstError == Text(FieldError(form, parsesAsDate, r.errors.keys[0]).value)
  {
    var addressBlank := IsBlank(form.fromAddress);
    var dateBlank := IsBlank(form.date);
    var dateParses := parsesAsDate(form.date);
    var timeBlank := IsBlank(form.time);
    var timeMatches := MatchesTimePattern(form.time);
    var errors := CollectErrors(addressBlank, dateBlank, dateParses, timeBlank, timeMatches, form.selectedLocation);
    CodedErrorsAreFieldErrors(form, parsesAsDate, errors);
    ErrorObjectValid(errors, form, parsesAsDate);

    var isValid := |errors.keys| == 0;
    var firstError := match FirstValue(errors) case None => "" case Some(m) => Text(m);
    r := NavigationResult(isValid, errors, firstError);
  }
}
