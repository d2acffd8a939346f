/**
 * The decision logic of the page script: the address search guard, the
 * destination lookup at start-up, the single selection in the stop list and
 * the validation gate in front of the deep link.
 *
 * The helpers the script imports from its utility module (the best-stop
 * choice, the date formatting for the link and the link itself) are passed
 * in as functions; their results are not constrained. The best-stop choice
 * may fail (`None`), standing for an error thrown while choosing the stop or
 * reading its fields, which the start-up handler catches. The date
 * formatting and the link builder are taken to return normally. Network
 * replies are passed in as values.
 */
module App {
  import opened Wrappers
  import opened JsString
  import opened JsObject
  import opened Validate

  /** The fixed destination whose stop is looked up when the page loads. */
  const ToAddress := "Mergelteichstraße 80, 44225 Dortmund"

  /** A stop as the stop finder describes it: its id and its display name. */
  datatype Stop = Stop(id: string, name: string)

  /** The outcome of a stop finder request: a thrown error, or `response.data.locations` (absent or a list). */
  datatype StopFinderReply = Failed | Replied(locations: Option<seq<Stop>>)

  /** What the results panel last showed because of the search handler. */
  datatype ResultsPanel = Untouched | Searching | NoStopsFound | SearchFailed

  /** What the best-stop line shows. */
  datatype BestStopLine = Pending | Shown(stop: Stop) | NoCoordinates

  /** What a click on the go-to button does: show the errors, or open a deep link. */
  datatype Navigation = Blocked(errors: Object<Field, Message>) | Opened(url: string)

  /** A reply that carries at least one stop. */
  predicate HasStops(reply: StopFinderReply)
  {
    reply.Replied? && reply.locations.Some? && |reply.locations.value| > 0
  }

  /**
   * The panel a search leaves behind, as far as the page script decides it;
   * rendering the list is taken to return normally for any reply.
   */
  function SearchOutcome(reply: StopFinderReply): (p: ResultsPanel)
    ensures p == SearchFailed <==> reply.Failed?
    ensures p == NoStopsFound <==> reply.Replied? && !HasStops(reply)
    ensures p == Searching <==> HasStops(reply)
  {
    if reply.Failed? then SearchFailed
    else if !HasStops(reply) then NoStopsFound
    else Searching
  }

  /**
   * `document.querySelector('.location-item[aria-selected="true"]')`: the
   * index of the first item whose selection flag is set.
   */
  function FirstSelected(flags: seq<bool>): (r: Option<nat>)
    ensures r.Some? <==> true in flags
    ensures r.Some? ==> r.value < |flags| && flags[r.value] && true !in flags[..r.value]
  {
    if flags == [] then None
    else if flags[0] then Some(0)
    else match FirstSelected(flags[1..])
      case None => None
      case Some(i) =>
        assert flags[..i + 1] == [flags[0]] + flags[1..][..i];
        Some(i + 1)
  }

  /** At most one item of the list is selected. */
  predicate AtMostOneSelected(flags: seq<bool>)
  {
    forall i, j :: 0 <= i < j < |flags| ==> !(flags[i] && flags[j])
  }

  /** With at most one item selected, the first selected item is the only one. */
  lemma {:induction false} FirstSelectedIsOnlySelected(flags: seq<bool>, k: nat)
    requires AtMostOneSelected(flags)
    requires k < |flags| && flags[k]
    ensures FirstSelected(flags) == Some(k)
  {
    var r := FirstSelected(flags);
    assert true in flags;
    assert forall j :: 0 <= j < r.value ==> !flags[j] by {
      forall j | 0 <= j < r.value ensures !flags[j] {
        assert flags[..r.value][j] == flags[j];
      }
    }
  }

  /** Under the single-selection invariant, every selected item is the first selected one. */
  lemma FirstSelectedIsSelection(flags: seq<bool>)
    requires AtMostOneSelected(flags)
    ensures forall k :: 0 <= k < |flags| && flags[k] ==> FirstSelected(flags) == Some(k)
  {
    forall k | 0 <= k < |flags| && flags[k] ensures FirstSelected(flags) == Some(k) {
      FirstSelectedIsOnlySelected(flags, k);
    }
  }

  /** `time.replace(':', '')` */
  function FormatTime(time: string): string
  {
    RemoveFirst(time, ':')
  }

  /** Appending a digit multiplies the value by ten and adds the digit. */
  lemma AppendDigit(s: string, c: char)
    requires AllDigits(s) && IsDigit(c)
    ensures AllDigits(s + [c])
    ensures DecimalValue(s + [c]) == 10 * DecimalValue(s) + DigitValue(c)
  {
    var t := s + [c];
    assert t[..|t| - 1] == s;
  }

  /**
   * For a time that passed validation, the formatted time drops the colon:
   * three or four digits whose value is the hour times one hundred plus the
   * minute, and putting the colon back before the last two digits gives the
   * time again.
   */
  lemma {:induction false} FormattedClockTime(time: string)
    requires IsClockTime(time)
    ensures |FormatTime(time)| == |time| - 1
    ensures 3 <= |FormatTime(time)| <= 4 && AllDigits(FormatTime(time))
    ensures DecimalValue(FormatTime(time)) ==
      100 * DecimalValue(time[..|time| - 3]) + DecimalValue(time[|time| - 2..])
    ensures var r := FormatTime(time); r[..|r| - 2] + ":" + r[|r| - 2..] == time
  {
    var hour, minute := time[..|time| - 3], time[|time| - 2..];
    var i := IndexOf(time, ':');
    assert forall j :: 0 <= j < |time| - 3 ==> time[j] == hour[j] && time[j] != ':';
    assert forall j :: 0 <= j < i ==> time[..i][j] == time[j];
    var r := FormatTime(time);
    assert r == hour + minute;
    AppendDigit(hour, minute[0]);
    assert r[..|r| - 1] == hour + [minute[0]];
    AppendDigit(hour + [minute[0]], minute[1]);
    assert r == hour + [minute[0]] + [minute[1]];
    TwoDigitValue(minute);
    assert r[..|r| - 2] == hour && r[|r| - 2..] == minute;
    assert time == hour + ":" + minute;
  }

  /**
   * The page: the three inputs, the module-level destination id, the stop
   * list items with their `aria-selected` flags, and the two text areas the
   * handlers write.
   */
  class Page {
    var fromAddress: string
    var date: string
    var time: string
    var destinationId: string
    /** The stop each list item stands for (its `data-location-info`). */
    const items: seq<Stop>
    /** The items' `aria-selected` flags. */
    const selected: array<bool>
    var results: ResultsPanel
    var bestStopLine: BestStopLine

    /** The flags describe the items, and no two items are selected. */
    ghost predicate Valid()
      reads this, selected
    {
      selected.Length == |items| && AtMostOneSelected(selected[..])
    }

    /** The page as loaded with the given inputs and list: nothing selected, no destination yet. */
    constructor (fromAddress: string, date: string, time: string, items: seq<Stop>)
      ensures Valid() && fresh(selected)
      ensures this.fromAddress == fromAddress && this.date == date && this.time == time
      ensures this.items == items && selected[..] == seq(|items|, _ => false)
      ensures destinationId == "" && results == Untouched && bestStopLine == Pending
    {
      this.fromAddress := fromAddress;
      this.date := date;
      this.time := time;
      this.items := items;
      selected := new bool[|items|](_ => false);
      destinationId := "";
      results := Untouched;
      bestStopLine := Pending;
    }

    /**
     * `fetchInitialData`: looks up the destination's stops and keeps the id
     * of the best one; a reply without stops only changes the line shown, and
     * a failed request, or a failure while choosing the best stop, changes
     * nothing.
     */
    method FetchInitialData(reply: StopFinderReply, findBestStop: seq<Stop> -> Option<Stop>) returns (query: string)
      requires Valid()
      modifies this`destinationId, this`bestStopLine
      ensures Valid()
      ensures query == ToAddress
      ensures HasStops(reply) && findBestStop(reply.locations.value).Some? ==>
        destinationId == findBestStop(reply.locations.value).value.id &&
        bestStopLine == Shown(findBestStop(reply.locations.value).value)
      ensures !(HasStops(reply) && findBestStop(reply.locations.value).Some?) ==>
        destinationId == old(destinationId)
      ensures reply.Replied? && !HasStops(reply) ==> bestStopLine == NoCoordinates
      ensures reply.Failed? || (HasStops(reply) && findBestStop(reply.locations.value).None?) ==>
        bestStopLine == old(bestStopLine)
    {
      query := ToAddress;
      if reply.Failed? {
        return;
      }
      if HasStops(reply) {
        var choice := findBestStop(reply.locations.value);
        if choice.None? {
          return;
        }
        var bestStop := choice.value;
        bestStopLine := Shown(bestStop);
        destinationId := bestStop.id;
      } else {
        bestStopLine := NoCoordinates;
      }
    }

    /**
     * `handleSearch`: a blank address sends no request and changes nothing;
     * otherwise the address is looked up and the panel shows the outcome.
     */
    method HandleSearch(reply: StopFinderReply) returns (query: Option<string>)
      requires Valid()
      modifies this`results
      ensures Valid()
      ensures query.None? <==> IsBlank(fromAddress)
      ensures query.Some? ==> query.value == fromAddress && results == SearchOutcome(reply)
      ensures query.None? ==> results == old(results)
    {
      if IsBlank(fromAddress) {
        return None;
      }
      results := Searching;
      query := Some(fromAddress);
      if reply.Failed? {
        results := SearchFailed;
      } else if !HasStops(reply) {
        results := NoStopsFound;
      }
    }

    /**
     * `handleLocationSelection`: the address input takes the stop's name,
     * every item is deselected, then the clicked item `k` is selected.
     */
    method HandleLocationSelection(location: Stop, k: nat)
      requires Valid() && k < selected.Length
      modifies this`fromAddress, selected
      ensures Valid()
      ensures fromAddress == location.name
      ensures forall i :: 0 <= i < selected.Length ==> selected[i] == (i == k)
      ensures FirstSelected(selected[..]) == Some(k)
    {
      fromAddress := location.name;
      var i := 0;
      while i < selected.Length
        invariant 0 <= i <= selected.Length
        invariant forall j :: 0 <= j < i ==> !selected[j]
        invariant fromAddress == location.name
      {
        selected[i] := false;
        i := i + 1;
      }
      selected[k] := true;
      assert AtMostOneSelected(selected[..]);
      FirstSelectedIsOnlySelected(selected[..], k);
    }

    /** The form `handleNavigation` hands to validation. */
    ghost function Form(): NavigationForm
      reads this, selected
    {
      NavigationForm(date, time, fromAddress, FirstSelected(selected[..]).Some?)
    }

    /**
     * `handleNavigation`: validates the form; an invalid form shows its
     * errors and builds no link, a valid one builds the deep link from the
     * selected stop, the formatted date and time and the destination id.
     */
    method HandleNavigation(parsesAsDate: string -> bool, formatDate: string -> string,
                            generateDeepLink: (string, string, string, string) -> string)
      returns (nav: Navigation)
      requires Valid()
      ensures nav.Blocked? <==> !FormComplete(Form(), parsesAsDate)
      ensures nav.Blocked? ==>
        nav.errors.keys == ErrorKeys(Form(), parsesAsDate) &&
        forall f :: Lookup(nav.errors, f) == FieldError(Form(), parsesAsDate, f)
      ensures nav.Opened? ==>
        FirstSelected(selected[..]).Some? && IsClockTime(time) &&
        nav.url == generateDeepLink(items[FirstSelected(selected[..]).value].id,
                                    formatDate(date), FormatTime(time), destinationId)
      ensures nav.Opened? ==> forall k :: 0 <= k < selected.Length && selected[k] ==>
        nav.url == generateDeepLink(items[k].id, formatDate(date), FormatTime(time), destinationId)
    {
      var chosen := FirstSelected(selected[..]);
      var form := NavigationForm(date, time, fromAddress, chosen.Some?);
      var validation := ValidateNavigation(form, parsesAsDate);
      if !validation.isValid {
        return Blocked(validation.errors);
      }
      FirstSelectedIsSelection(selected[..]);
      var location := items[chosen.value];
      var formattedDate := formatDate(date);
      var formattedTime := FormatTime(time);
      nav := Opened(generateDeepLink(location.id, formattedDate, formattedTime, destinationId));
    }
  }
}
