/** src/components/CreateEditTrigger.tsx: the runtime-variable list of the
    trigger form, the frequency that gets submitted, and the hint shown under
    a custom cron expression. */
module CreateEditTrigger {
  import opened Wrappers
  import opened Text
  import opened DateUtils

  datatype RuntimeVariable = RuntimeVariable(uuid: string, value: string)

  /** The variables added so far and the two input fields for the next one. */
  datatype VariableForm = VariableForm(variables: seq<RuntimeVariable>, newUuid: string, newValue: string)

  /** The add button is disabled while either input is empty, that is while
      either is falsy in JavaScript's sense. */
  predicate AddDisabled(form: VariableForm): (disabled: bool)
    ensures disabled <==> !Present(Some(form.newUuid)) || !Present(Some(form.newValue))
  {
    form.newUuid == "" || form.newValue == ""
  }

  /** `addRuntimeVariable`: with both inputs filled, the pair is appended
      after the existing variables (an existing uuid is not rejected) and both
      inputs are cleared; otherwise nothing changes. */
  function AddRuntimeVariable(form: VariableForm): (r: VariableForm)
    ensures !AddDisabled(form) ==>
      && r.variables == form.variables + [RuntimeVariable(form.newUuid, form.newValue)]
      && r.newUuid == "" && r.newValue == ""
    ensures AddDisabled(form) ==> r == form
  {
    if form.newUuid != "" && form.newValue != "" then
      VariableForm(form.variables + [RuntimeVariable(form.newUuid, form.newValue)], "", "")
    else form
  }

  /** The button is disabled exactly when pressing it would change nothing. */
  lemma AddDisabledIffNoChange(form: VariableForm)
    ensures AddDisabled(form) <==> AddRuntimeVariable(form) == form
  {
    if !AddDisabled(form) {
      assert |AddRuntimeVariable(form).variables| == |form.variables| + 1;
    }
  }

  /** `removeRuntimeVariable(index)`: keeps every variable whose position is
      not `index`, in order; an index outside the list keeps them all. */
  function RemoveRuntimeVariable(vs: seq<RuntimeVariable>, index: int): (r: seq<RuntimeVariable>)
    ensures 0 <= index < |vs| ==> r == vs[..index] + vs[index + 1..]
    ensures !(0 <= index < |vs|) ==> r == vs
    decreases |vs|
  {
    if |vs| == 0 then []
    else
      var kept := RemoveRuntimeVariable(vs[..|vs| - 1], index);
      if |vs| - 1 == index then kept else kept + [vs[|vs| - 1]]
  }

  /** Removing the variable just added restores the list as it was. */
  lemma RemoveUndoesAdd(form: VariableForm)
    requires !AddDisabled(form)
    ensures RemoveRuntimeVariable(AddRuntimeVariable(form).variables, |form.variables|) == form.variables
  {
    var after := AddRuntimeVariable(form).variables;
    assert after[..|form.variables|] == form.variables;
  }

  /** Removing an index in range drops exactly one element: the one at that
      index, with every later element moved up by one. */
  lemma RemoveShifts(vs: seq<RuntimeVariable>, index: int)
    requires 0 <= index < |vs|
    ensures var r := RemoveRuntimeVariable(vs, index);
      && |r| == |vs| - 1
      && (forall k :: 0 <= k < index ==> r[k] == vs[k])
      && (forall k :: index <= k < |r| ==> r[k] == vs[k + 1])
  {
  }

  // ---------------------------------------------------------------------------
  // handleSubmit's frequency

  const CustomFrequency := "custom"

  /** The options of the frequency menu: seven distinct values, "custom"
      last. */
  function FrequencyOptions(): (options: seq<string>)
    ensures |options| == 7 && options[6] == CustomFrequency
    ensures forall i, j :: 0 <= i < j < |options| ==> options[i] != options[j]
  {
    ["once", "hourly", "daily", "weekly", "monthly", "always_on", CustomFrequency]
  }

  /** The submitted frequency: the custom cron expression when "custom" is
      chosen, the chosen option otherwise. */
  function ResolveFrequency(frequency: string, customCron: string): (r: string)
    ensures frequency == CustomFrequency ==> r == customCron
    ensures frequency != CustomFrequency ==> r == frequency
  {
    if frequency == CustomFrequency then customCron else frequency
  }

  /** With a menu option chosen, what is submitted is either one of the fixed
      options other than "custom", or the custom cron expression. */
  lemma ResolvedFrequencyIsScheduleOrCron(frequency: string, customCron: string)
    requires frequency in FrequencyOptions()
    ensures var r := ResolveFrequency(frequency, customCron);
      (r in FrequencyOptions() && r != CustomFrequency) || (frequency == CustomFrequency && r == customCron)
  {
  }

  // ---------------------------------------------------------------------------
  // The cron hint effect

  // Written as two literals so that the verifier can read its first
  // character, which it cannot do this deep into a single long literal.
  const CronHintFallback := "Enter " + "a valid cron expression (e.g., \"0 0 * * *\" for daily at midnight)"

  /** The hint under the cron field: empty while the field is empty, otherwise
      `defineCron` of it, falling back to a fixed prompt when that is empty. */
  function CronHint(customCron: string): (r: string)
    ensures customCron == "" <==> r == ""
  {
    if customCron == "" then ""
    else
      var definition := DefineCron(customCron);
      if definition != "" then definition else CronHintFallback
  }

  /** The fallback prompt never shows, because `defineCron` never returns "";
      a non-empty field shows exactly `defineCron` of it, which is the invalid
      message exactly when the field does not hold four spaces. */
  lemma CronHintIsDefinition(customCron: string)
    requires customCron != ""
    ensures CronHint(customCron) == DefineCron(customCron)
    ensures CronHint(customCron) != CronHintFallback
    ensures CronHint(customCron) == InvalidCron <==> Occurrences(customCron, ' ') != 4
  {
    CronInvalidIffNotFourSpaces(customCron);
    var d := DefineCron(customCron);
    assert CronHintFallback[0] == 'E';
    if ParseCron(customCron).Some? {
      assert StartsWith(d, "Runs ");
      assert d[0] == 'R';
    } else {
      assert d[0] == 'I';
    }
  }
}
