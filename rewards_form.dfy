/**
 * The reward-threshold editor (components/RewardsForm.tsx): a list of text
 * inputs, one per reward, started from the series' saved thresholds, with
 * edit, add and remove handlers. The remove button is disabled while only
 * one input is left.
 */
module RewardsForm {
  import opened Decimal

  /** The number of decimal digits of `n` written without leading zeros. */
  function DigitCount(n: nat): (k: nat)
    ensures k >= 1
    ensures n < Pow10(k)
    ensures k > 1 ==> Pow10(k - 1) <= n
  {
    if n < 10 then 1 else 1 + DigitCount(n / 10)
  }

  /** The shortest decimal digit string of `m`: it reads back as `m` and has no leading `0`. */
  function Digits(m: nat): (s: string)
    ensures |s| == DigitCount(m)
    ensures forall i :: 0 <= i < |s| ==> IsDigit(s[i])
    ensures DecimalValue(s) == m
    ensures |s| > 1 ==> s[0] != '0'
  {
    PaddedValue(m, DigitCount(m));
    LeadingDigitIfLong(m);
    Padded(m, DigitCount(m))
  }

  lemma LeadingDigitIfLong(m: nat)
    ensures DigitCount(m) > 1 ==> Padded(m, DigitCount(m))[0] != '0'
  {
    if DigitCount(m) > 1 {
      LeadingDigit(m, DigitCount(m));
    }
  }

  /** The decimal form of a whole number, as `String(value)` writes it. */
  function NumberToString(n: int): (s: string)
    ensures n >= 0 ==> s == Digits(n)
    ensures |s| >= 1
    ensures n < 0 ==> s[0] == '-' && s[1..] == Digits(-n)
  {
    if n < 0 then
      var digits := Digits(-n);
      assert ("-" + digits)[1..] == digits;
      "-" + digits
    else Digits(n)
  }

  /** A number written in exactly as many digits as it needs does not start with `0`. */
  lemma {:induction false} LeadingDigit(n: nat, width: nat)
    requires width > 1 && Pow10(width - 1) <= n < Pow10(width)
    ensures Padded(n, width)[0] != '0'
  {
    if width == 2 {
      assert Padded(n, 2) == Padded(n / 10, 1) + [DigitChar(n % 10)];
      assert Padded(n / 10, 1) == Padded(n / 100, 0) + [DigitChar(n / 10 % 10)];
      assert 1 <= n / 10 <= 9;
    } else {
      LeadingDigit(n / 10, width - 1);
      assert Padded(n, width) == Padded(n / 10, width - 1) + [DigitChar(n % 10)];
    }
  }

  /** Different numbers never share a text form. */
  lemma NumberToStringInjective(a: int, b: int)
    requires NumberToString(a) == NumberToString(b)
    ensures a == b
  {
    var s := NumberToString(a);
    assert a >= 0 ==> IsDigit(s[0]);
    assert b >= 0 ==> IsDigit(s[0]);
  }

  /** The starting inputs: each saved threshold as text, or one empty input when there are none. */
  function InitialThresholds(initialRewards: seq<int>): (r: seq<string>)
    ensures |r| >= 1
    ensures initialRewards == [] ==> r == [""]
    ensures initialRewards != [] ==>
              |r| == |initialRewards| &&
              forall i :: 0 <= i < |r| ==> r[i] == NumberToString(initialRewards[i])
  {
    if |initialRewards| > 0 then seq(|initialRewards|, i requires 0 <= i < |initialRewards| => NumberToString(initialRewards[i]))
    else [""]
  }

  /** `handleChange(index, value)`: the list with the input at `index`, if any, replaced. */
  function Changed(list: seq<string>, index: int, value: string): (r: seq<string>)
    ensures |r| == |list|
    ensures forall i :: 0 <= i < |list| && i != index ==> r[i] == list[i]
    ensures 0 <= index < |list| ==> r[index] == value
  {
    seq(|list|, i requires 0 <= i < |list| => if i == index then value else list[i])
  }

  /** `handleAdd()`: one more, empty, input at the end. */
  function Added(list: seq<string>): (r: seq<string>)
    ensures |r| == |list| + 1 && r[..|list|] == list && r[|list|] == ""
  {
    list + [""]
  }

  /** `handleRemove(index)`: the list without the input at `index`; an index outside it removes nothing. */
  function Removed(list: seq<string>, index: int): (r: seq<string>)
    ensures 0 <= index < |list| ==> r == list[..index] + list[index + 1..]
    ensures !(0 <= index < |list|) ==> r == list
  {
    if list == [] then []
    else
      var rest := Removed(list[1..], index - 1);
      if index == 0 then rest else [list[0]] + rest
  }

  /** The remove buttons are disabled while at most one input is left. */
  predicate RemoveDisabled(list: seq<string>) {
    |list| <= 1
  }

  /** Only the first input must be filled before the form submits. */
  predicate IsRequired(index: int) {
    index == 0
  }

  /** A list of inputs has exactly one required input, the first. */
  lemma OneRequiredInput(list: seq<string>)
    requires |list| >= 1
    ensures (set i | 0 <= i < |list| && IsRequired(i)) == {0}
  {
    var req := set i | 0 <= i < |list| && IsRequired(i);
    assert 0 in req;
    assert forall i :: i in req ==> i == 0;
  }

  /** Removing through an enabled button leaves at least one input, and exactly one fewer. */
  lemma RemoveKeepsOne(list: seq<string>, index: int)
    requires !RemoveDisabled(list) && 0 <= index < |list|
    ensures |Removed(list, index)| == |list| - 1 >= 1
  {
  }

  /** Removing the input just added gives the old list back. */
  lemma RemoveUndoesAdd(list: seq<string>)
    ensures Removed(Added(list), |list|) == list
  {
    assert Added(list)[..|list|] == list;
  }

  /** Writing back the old text undoes an edit. */
  lemma ChangeBack(list: seq<string>, index: int, value: string)
    requires 0 <= index < |list|
    ensures Changed(Changed(list, index, value), index, list[index]) == list
  {
  }

  /** Of two edits to the same input, the second one wins. */
  lemma LastChangeWins(list: seq<string>, index: int, v1: string, v2: string)
    ensures Changed(Changed(list, index, v1), index, v2) == Changed(list, index, v2)
  {
  }

  /** An edit at an index outside the list changes nothing. */
  lemma ChangeOutsideIsIdentity(list: seq<string>, index: int, value: string)
    requires !(0 <= index < |list|)
    ensures Changed(list, index, value) == list
  {
  }

  /** The `thresholds` state of the form. */
  class ThresholdList {
    var thresholds: seq<string>

    /** Through the form's own buttons the list never becomes empty. */
    ghost predicate Valid()
      reads this
    {
      |thresholds| >= 1
    }

    constructor (initialRewards: seq<int>)
      ensures Valid()
      ensures thresholds == InitialThresholds(initialRewards)
    {
      thresholds := InitialThresholds(initialRewards);
    }

    /** Typing into input `index`. */
    method HandleChange(index: int, value: string)
      requires Valid()
      modifies this
      ensures Valid()
      ensures thresholds == Changed(old(thresholds), index, value)
    {
      thresholds := Changed(thresholds, index, value);
    }

    /** The "Add reward" button. */
    method HandleAdd()
      requires Valid()
      modifies this
      ensures Valid()
      ensures thresholds == Added(old(thresholds))
    {
      thresholds := Added(thresholds);
    }

    /** A click on the remove button of input `index`: ignored while the button is disabled. */
    method ClickRemove(index: int)
      requires Valid()
      modifies this
      ensures Valid()
      ensures RemoveDisabled(old(thresholds)) ==> thresholds == old(thresholds)
      ensures !RemoveDisabled(old(thresholds)) ==> thresholds == Removed(old(thresholds), index)
    {
      if !RemoveDisabled(thresholds) {
        thresholds := Removed(thresholds, index);
      }
    }
  }
}
