/** Input validation of simulate mode, and the settings a run is started
    with. The switch preference comes from a read-only drop-down that starts
    on a placeholder; the number of trials is free text. */
module Validation {
  import opened Wrappers

  const Placeholder := "-- Select --"
  const SwitchMessage := "Please select a switch preference (Yes or No)."
  const CountMessage := "Please enter a positive number."

  datatype Verdict = Accepted | Rejected(message: string)

  /** The settings of a simulation run. */
  datatype RunSettings = RunSettings(willSwitch: bool, n: int)

  predicate IsDigit(c: char)
  {
    '0' <= c <= '9'
  }

  /** `s.isdigit()`: non-empty, and every character a digit. */
  predicate IsDigits(s: string)
  {
    |s| > 0 && forall i :: 0 <= i < |s| ==> IsDigit(s[i])
  }

  /** `int(s)` for a string of digits. */
  function DecimalValue(s: string): (v: nat)
    requires forall i :: 0 <= i < |s| ==> IsDigit(s[i])
    ensures v == 0 <==> forall i :: 0 <= i < |s| ==> s[i] == '0'
  {
    if s == [] then 0
    else
      var init := s[..|s| - 1];
      assert forall i :: 0 <= i < |init| ==> init[i] == s[i];
      var d := s[|s| - 1] as int - '0' as int;
      assert IsDigit(s[|s| - 1]) && 0 <= d <= 9 && (d == 0 <==> s[|s| - 1] == '0');
      var v := DecimalValue(init) * 10 + d;
      assert (forall i :: 0 <= i < |s| ==> s[i] == '0')
         <==> (forall i :: 0 <= i < |init| ==> init[i] == '0') && s[|s| - 1] == '0';
      v
  }

  /** The decimal digits of `n`, without leading zeros: the inverse of
      `DecimalValue`, used to state that every positive count is accepted. */
  function Decimal(n: nat): (s: string)
    ensures IsDigits(s)
    ensures DecimalValue(s) == n
    decreases n
  {
    var last := [('0' as int + n % 10) as char];
    if n < 10 then last
    else
      var init := Decimal(n / 10);
      assert (init + last)[..|init + last| - 1] == init;
      init + last
  }

  /** The check made before a run: a switch preference must have been chosen
      and the trial count must be a whole number of at least one. */
  function Validate(switchChoice: string, count: string): (v: Verdict)
    ensures v == Accepted <==>
      switchChoice != Placeholder && IsDigits(count) && DecimalValue(count) >= 1
    ensures switchChoice == Placeholder ==> v == Rejected(SwitchMessage)
    ensures switchChoice != Placeholder && v != Accepted ==> v == Rejected(CountMessage)
  {
    if switchChoice == Placeholder then Rejected(SwitchMessage)
    else if !IsDigits(count) || DecimalValue(count) < 1 then Rejected(CountMessage)
    else Accepted
  }

  /** A count string passes validation exactly when it is all digits and not
      all zeros. */
  lemma {:induction false} CountAcceptedIffNonzero(switchChoice: string, count: string)
    requires switchChoice != Placeholder
    ensures Validate(switchChoice, count) == Accepted <==>
      IsDigits(count) && exists i :: 0 <= i < |count| && count[i] != '0'
  {
  }

  /** Every positive count, written out in decimal, passes validation. */
  lemma {:induction false} ValidateAcceptsPositive(switchChoice: string, n: int)
    requires switchChoice != Placeholder && n >= 1
    ensures Validate(switchChoice, Decimal(n)) == Accepted
  {
  }

  /** The run handler: nothing starts unless validation passes; otherwise the
      run switches exactly when "Yes" was chosen, with the count typed in. */
  function StartRun(switchChoice: string, count: string): (r: Option<RunSettings>)
    ensures r.Some? <==> Validate(switchChoice, count) == Accepted
    ensures r.Some? ==> r.value.n >= 1 && (r.value.willSwitch <==> switchChoice == "Yes")
    ensures r.Some? ==> IsDigits(count) && r.value.n == DecimalValue(count)
  {
    if Validate(switchChoice, count) != Accepted then None
    else Some(RunSettings(switchChoice == "Yes", DecimalValue(count)))
  }
}
