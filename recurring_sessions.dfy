/**
 * The recurring-sessions dialog (components/CreateRecurringSessionsModal.tsx):
 * expanding a start date, a pair of check-in times, an interval and a count
 * into a list of occurrences, cancelling and restoring single occurrences,
 * and the hidden form fields that carry the surviving ones to the server.
 */
module RecurringSessions {
  import opened Wrappers
  import opened CivilDate
  import JsStrings

  /** `Occurrence` */
  datatype Occurrence = Occurrence(date: string, checkinOpen: string, checkinClose: string, removed: bool)

  datatype Step = FormStep | PreviewStep

  const DefaultRepeatCount: int := 4
  const DefaultIntervalDays: int := 7
  const MaxRepeatCount: int := 52

  /**
   * Occurrence `i` of a batch: the date `i * intervalDays` days after
   * `startDate` by calendar addition (`addDays` as intended, see
   * `CivilDate.AddDaysToIsoDate`), with both times appended, not cancelled.
   * `None` where `addDays` throws.
   */
  function OccurrenceAt(startDate: string, openTime: string, closeTime: string, intervalDays: nat, i: nat)
    : (r: Option<Occurrence>)
    ensures r.None? <==> AddDaysToIsoDate(startDate, i * intervalDays).None?
    ensures r.Some? ==>
              r.value.date == AddDaysToIsoDate(startDate, i * intervalDays).value &&
              r.value.checkinOpen == r.value.date + "T" + openTime &&
              r.value.checkinClose == r.value.date + "T" + closeTime &&
              !r.value.removed
  {
    match AddDaysToIsoDate(startDate, i * intervalDays)
    case None => None
    case Some(date) => Some(Occurrence(date, date + "T" + openTime, date + "T" + closeTime, false))
  }

  /**
   * The loop of `generateOccurrences`: `repeatCount` occurrences in index
   * order, or `None` when one of the dates cannot be produced (the source
   * throws there, and the dialog keeps its previous state).
   */
  method BuildOccurrences(startDate: string, openTime: string, closeTime: string, repeatCount: nat, intervalDays: nat)
    returns (items: Option<seq<Occurrence>>)
    ensures items.Some? <==>
              forall i :: 0 <= i < repeatCount ==> OccurrenceAt(startDate, openTime, closeTime, intervalDays, i).Some?
    ensures items.Some? ==>
              |items.value| == repeatCount &&
              forall i :: 0 <= i < repeatCount ==>
                OccurrenceAt(startDate, openTime, closeTime, intervalDays, i) == Some(items.value[i])
  {
    var acc: seq<Occurrence> := [];
    for i := 0 to repeatCount
      invariant |acc| == i
      invariant forall j :: 0 <= j < i ==> OccurrenceAt(startDate, openTime, closeTime, intervalDays, j) == Some(acc[j])
    {
      var date := AddDaysToIsoDate(startDate, i * intervalDays);
      if date.None? {
        assert OccurrenceAt(startDate, openTime, closeTime, intervalDays, i).None?;
        return None;
      }
      var d := date.value;
      acc := acc + [Occurrence(d, d + "T" + openTime, d + "T" + closeTime, false)];
    }
    items := Some(acc);
  }

  /**
   * What an occurrence holds: the times sit on its own date, it starts out
   * not cancelled, and its date is `i * intervalDays` days after the start
   * on the calendar, whatever the other occurrences are.
   */
  lemma OccurrenceShape(startDate: string, openTime: string, closeTime: string, intervalDays: nat, i: nat)
    requires ParseIsoDate(startDate).Some?
    requires 0 <= AddDays(ParseIsoDate(startDate).value, i * intervalDays).year <= 9999
    ensures var o := OccurrenceAt(startDate, openTime, closeTime, intervalDays, i);
      && o.Some?
      && o.value.checkinOpen == o.value.date + "T" + openTime
      && o.value.checkinClose == o.value.date + "T" + closeTime
      && !o.value.removed
      && ParseIsoDate(o.value.date).Some?
      && DayNumber(ParseIsoDate(o.value.date).value) == DayNumber(ParseIsoDate(startDate).value) + i * intervalDays
  {
    AddDaysToIsoDateCounts(startDate, i * intervalDays);
  }

  /** With an interval of at least one day, two different indices never share a date. */
  lemma OccurrenceDatesDistinct(startDate: string, openTime: string, closeTime: string, intervalDays: nat, i: nat, j: nat)
    requires intervalDays >= 1 && i < j
    requires ParseIsoDate(startDate).Some?
    requires 0 <= AddDays(ParseIsoDate(startDate).value, j * intervalDays).year <= 9999
    requires 0 <= AddDays(ParseIsoDate(startDate).value, i * intervalDays).year <= 9999
    ensures var oi := OccurrenceAt(startDate, openTime, closeTime, intervalDays, i);
      var oj := OccurrenceAt(startDate, openTime, closeTime, intervalDays, j);
      oi.Some? && oj.Some? && oi.value.date != oj.value.date
  {
    OccurrenceShape(startDate, openTime, closeTime, intervalDays, i);
    OccurrenceShape(startDate, openTime, closeTime, intervalDays, j);
    ScaleStrict(i, j, intervalDays);
  }

  lemma ScaleStrict(i: nat, j: nat, k: nat)
    requires i < j && k >= 1
    ensures i * k < j * k
  {
    assert j * k == i * k + (j - i) * k;
  }

  /** `toggleOccurrence(index)`'s update: flip `removed` at `index`, keep everything else. */
  function Toggled(occurrences: seq<Occurrence>, index: int): (r: seq<Occurrence>)
    ensures |r| == |occurrences|
    ensures forall i :: 0 <= i < |r| && i != index ==> r[i] == occurrences[i]
    ensures 0 <= index < |r| ==>
              r[index] == occurrences[index].(removed := !occurrences[index].removed)
  {
    seq(|occurrences|, i requires 0 <= i < |occurrences| =>
      if i == index then occurrences[i].(removed := !occurrences[i].removed) else occurrences[i])
  }

  /** Cancelling and restoring the same occurrence is no change at all. */
  lemma ToggleTwice(occurrences: seq<Occurrence>, index: int)
    ensures Toggled(Toggled(occurrences, index), index) == occurrences
  {
  }

  /** Toggling never moves a date or a time: dates come from the original index. */
  lemma ToggleKeepsSchedule(occurrences: seq<Occurrence>, index: int, i: int)
    requires 0 <= i < |occurrences|
    ensures var t := Toggled(occurrences, index)[i];
      t.date == occurrences[i].date && t.checkinOpen == occurrences[i].checkinOpen &&
      t.checkinClose == occurrences[i].checkinClose
  {
  }

  /** `activeOccurrences`: the occurrences not cancelled, in their original order. */
  function Active(occurrences: seq<Occurrence>): (r: seq<Occurrence>)
    ensures |r| <= |occurrences|
    ensures forall o :: o in r <==> o in occurrences && !o.removed
    ensures r == [] <==> forall i :: 0 <= i < |occurrences| ==> occurrences[i].removed
  {
    if occurrences == [] then []
    else
      var rest := Active(occurrences[1..]);
      assert forall o :: o in occurrences <==> o == occurrences[0] || o in occurrences[1..];
      if occurrences[0].removed then rest else [occurrences[0]] + rest
  }

  /** Filtering respects concatenation, so the survivors keep their relative order. */
  lemma {:induction false} ActiveAppend(a: seq<Occurrence>, b: seq<Occurrence>)
    ensures Active(a + b) == Active(a) + Active(b)
  {
    if a == [] {
      assert a + b == b;
    } else {
      assert (a + b)[0] == a[0];
      assert (a + b)[1..] == a[1..] + b;
      ActiveAppend(a[1..], b);
    }
  }

  /** The value a hidden field carries: `checkinOpen|checkinClose`. */
  function Encode(o: Occurrence): (s: string)
    ensures |s| == |o.checkinOpen| + 1 + |o.checkinClose|
    ensures s[..|o.checkinOpen|] == o.checkinOpen && s[|o.checkinOpen|] == '|'
    ensures s[|o.checkinOpen| + 1..] == o.checkinClose
  {
    o.checkinOpen + "|" + o.checkinClose
  }

  /** Splitting the field value on `|` gives back the two instants, as long as neither holds a `|`. */
  lemma EncodeSplits(o: Occurrence)
    requires '|' !in o.checkinOpen && '|' !in o.checkinClose
    ensures JsStrings.Split(Encode(o), '|') == [o.checkinOpen, o.checkinClose]
  {
    var parts := [o.checkinOpen, o.checkinClose];
    assert JsStrings.Join(parts, '|') == Encode(o) by {
      assert parts[1..] == [o.checkinClose];
    }
    JsStrings.SplitJoin(parts, '|');
  }

  /** One hidden `<input>`: a cancelled occurrence gets no name and is disabled. */
  datatype HiddenInput = HiddenInput(name: Option<string>, value: string, disabled: bool)

  /** The hidden inputs rendered for the occurrences, one each, in order. */
  function HiddenInputs(occurrences: seq<Occurrence>): (r: seq<HiddenInput>)
    ensures |r| == |occurrences|
    ensures forall i :: 0 <= i < |r| ==>
              r[i].value == Encode(occurrences[i]) &&
              r[i].disabled == occurrences[i].removed &&
              r[i].name == (if occurrences[i].removed then None else Some("occurrences"))
  {
    seq(|occurrences|, i requires 0 <= i < |occurrences| =>
      var o := occurrences[i];
      HiddenInput(if o.removed then None else Some("occurrences"), Encode(o), o.removed))
  }

  /** The values a browser submits under `name`: enabled inputs with that name, in document order. */
  function SubmittedValues(inputs: seq<HiddenInput>, name: string): seq<string> {
    if inputs == [] then []
    else
      var rest := SubmittedValues(inputs[1..], name);
      if !inputs[0].disabled && inputs[0].name == Some(name) then [inputs[0].value] + rest else rest
  }

  function EncodeAll(occurrences: seq<Occurrence>): (r: seq<string>)
    ensures |r| == |occurrences|
    ensures forall i :: 0 <= i < |r| ==> r[i] == Encode(occurrences[i])
  {
    seq(|occurrences|, i requires 0 <= i < |occurrences| => Encode(occurrences[i]))
  }

  lemma EncodeAllCons(o: Occurrence, rest: seq<Occurrence>)
    ensures EncodeAll([o] + rest) == [Encode(o)] + EncodeAll(rest)
  {
  }

  lemma HiddenInputsCons(occurrences: seq<Occurrence>)
    requires occurrences != []
    ensures var o := occurrences[0];
      SubmittedValues(HiddenInputs(occurrences), "occurrences") ==
        (if o.removed then [] else [Encode(o)]) + SubmittedValues(HiddenInputs(occurrences[1..]), "occurrences")
  {
    var inputs := HiddenInputs(occurrences);
    assert inputs[1..] == HiddenInputs(occurrences[1..]);
  }

  /** Exactly the active occurrences are submitted, each as `open|close`, in order. */
  lemma {:induction false} SubmittedAreActive(occurrences: seq<Occurrence>)
    ensures SubmittedValues(HiddenInputs(occurrences), "occurrences") == EncodeAll(Active(occurrences))
  {
    if occurrences != [] {
      var o, rest := occurrences[0], occurrences[1..];
      HiddenInputsCons(occurrences);
      SubmittedAreActive(rest);
      if o.removed {
        assert Active(occurrences) == Active(rest);
      } else {
        assert Active(occurrences) == [o] + Active(rest);
        EncodeAllCons(o, Active(rest));
      }
    }
  }

  /** The dialog's state. */
  class RecurringSessionsModal {
    var startDate: string
    var checkinOpenTime: string
    var checkinCloseTime: string
    var repeatCount: int
    var intervalDays: int
    var occurrences: seq<Occurrence>
    var step: Step

    /** The number inputs' clamping keeps these ranges. */
    ghost predicate Valid()
      reads this
    {
      1 <= repeatCount <= MaxRepeatCount && intervalDays >= 1
    }

    /** The state `reset` establishes. */
    ghost predicate IsReset()
      reads this
    {
      && startDate == "" && checkinOpenTime == "" && checkinCloseTime == ""
      && repeatCount == DefaultRepeatCount && intervalDays == DefaultIntervalDays
      && occurrences == [] && step == FormStep
    }

    constructor ()
      ensures Valid() && IsReset()
    {
      startDate, checkinOpenTime, checkinCloseTime := "", "", "";
      repeatCount, intervalDays := DefaultRepeatCount, DefaultIntervalDays;
      occurrences, step := [], FormStep;
    }

    /** `reset` */
    method Reset()
      modifies this
      ensures Valid() && IsReset()
    {
      startDate, checkinOpenTime, checkinCloseTime := "", "", "";
      repeatCount, intervalDays := DefaultRepeatCount, DefaultIntervalDays;
      occurrences, step := [], FormStep;
    }

    /** The date and time inputs' `onChange`. */
    method SetFields(start: string, openTime: string, closeTime: string)
      requires Valid()
      modifies this
      ensures Valid()
      ensures startDate == start && checkinOpenTime == openTime && checkinCloseTime == closeTime
      ensures repeatCount == old(repeatCount) && intervalDays == old(intervalDays)
      ensures occurrences == old(occurrences) && step == old(step)
    {
      startDate, checkinOpenTime, checkinCloseTime := start, openTime, closeTime;
    }

    /** The interval input's `onChange`: at least 1. */
    method SetIntervalDays(input: int)
      requires Valid()
      modifies this`intervalDays
      ensures Valid()
      ensures intervalDays == Max(1, input)
    {
      intervalDays := Max(1, input);
    }

    /** The count input's `onChange`: clamped to 1..52. */
    method SetRepeatCount(input: int)
      requires Valid()
      modifies this`repeatCount
      ensures Valid()
      ensures repeatCount == Max(1, Min(MaxRepeatCount, input))
    {
      repeatCount := Max(1, Min(MaxRepeatCount, input));
    }

    /**
     * `generateOccurrences`: nothing happens with a field left empty; otherwise
     * the batch replaces the occurrences and the preview step is shown.
     */
    method GenerateOccurrences()
      requires Valid()
      modifies this`occurrences, this`step
      ensures Valid()
      ensures startDate == "" || checkinOpenTime == "" || checkinCloseTime == "" ==>
                occurrences == old(occurrences) && step == old(step)
      ensures occurrences != old(occurrences) || step != old(step) ==>
                step == PreviewStep && |occurrences| == repeatCount &&
                forall i :: 0 <= i < repeatCount ==>
                  OccurrenceAt(startDate, checkinOpenTime, checkinCloseTime, intervalDays, i) == Some(occurrences[i])
      ensures startDate != "" && checkinOpenTime != "" && checkinCloseTime != "" &&
              (forall i :: 0 <= i < repeatCount ==>
                 OccurrenceAt(startDate, checkinOpenTime, checkinCloseTime, intervalDays, i).Some?) ==>
                step == PreviewStep && |occurrences| == repeatCount &&
                forall i :: 0 <= i < repeatCount ==>
                  OccurrenceAt(startDate, checkinOpenTime, checkinCloseTime, intervalDays, i) == Some(occurrences[i])
    {
      if startDate == "" || checkinOpenTime == "" || checkinCloseTime == "" || repeatCount < 1 {
        return;
      }
      var items := BuildOccurrences(startDate, checkinOpenTime, checkinCloseTime, repeatCount, intervalDays);
      if items.Some? {
        occurrences := items.value;
        step := PreviewStep;
      }
    }

    /** `toggleOccurrence(index)` */
    method ToggleOccurrence(index: int)
      requires Valid()
      modifies this`occurrences
      ensures Valid()
      ensures occurrences == Toggled(old(occurrences), index)
    {
      occurrences := Toggled(occurrences, index);
    }

    /** The "Back" button. */
    method Back()
      requires Valid()
      modifies this`step
      ensures Valid() && step == FormStep
    {
      step := FormStep;
    }

    /** The submit button is disabled exactly when every occurrence is cancelled. */
    function SubmitDisabled(): (disabled: bool)
      reads this
      ensures disabled <==> forall i :: 0 <= i < |occurrences| ==> occurrences[i].removed
    {
      |Active(occurrences)| == 0
    }

    /** The `occurrences` values the form submits. */
    function Submitted(): (values: seq<string>)
      reads this
      ensures values == EncodeAll(Active(occurrences))
    {
      SubmittedAreActive(occurrences);
      SubmittedValues(HiddenInputs(occurrences), "occurrences")
    }
  }
}
