/** src/components/PipelineRuns.tsx: how a run's status is coloured and drawn,
    when a run can be cancelled, the summary counts, the finished and duration
    cells, and the enable/disable trigger button. */
module PipelineRuns {
  import opened Wrappers
  import opened Text
  import opened Api

  /** A run as the run list carries it; a missing or empty time is `None`
      or "". */
  datatype Run = Run(id: string, status: string, startedAt: string, completedAt: Option<string>)


  // ---------------------------------------------------------------------------
  // Status colour and icon

  /** `getStatusColor`: matched on the lower-cased status. */
  function StatusColor(status: string): (color: string)
    ensures color == "success" <==> Lower(status) == "completed"
    ensures color == "error" <==> Lower(status) == "failed"
    ensures color == "processing" <==> Lower(status) == "running"
    ensures color == "warning" <==> Lower(status) == "initial"
    ensures color == "default" <==> Lower(status) !in {"completed", "failed", "running", "initial"}
  {
    match Lower(status)
    case "completed" => "success"
    case "failed" => "error"
    case "running" => "processing"
    case "initial" => "warning"
    case _ => "default"
  }

  datatype Icon = CheckCircle | CloseCircle | Sync | ClockCircle | QuestionCircle

  /** `getStatusIcon`: matched on the lower-cased status. */
  function StatusIcon(status: string): (icon: Icon)
    ensures icon == CheckCircle <==> Lower(status) == "completed"
    ensures icon == CloseCircle <==> Lower(status) == "failed"
    ensures icon == Sync <==> Lower(status) == "running"
    ensures icon == ClockCircle <==> Lower(status) == "initial"
    ensures icon == QuestionCircle <==> Lower(status) !in {"completed", "failed", "running", "initial"}
  {
    match Lower(status)
    case "completed" => CheckCircle
    case "failed" => CloseCircle
    case "running" => Sync
    case "initial" => ClockCircle
    case _ => QuestionCircle
  }

  /** Colour and icon sort statuses into the same five classes: two statuses
      share a colour exactly when they share an icon. */
  lemma ColorAndIconAgree(a: string, b: string)
    ensures StatusColor(a) == StatusColor(b) <==> StatusIcon(a) == StatusIcon(b)
  {
  }

  /** Letter case does not matter: a status is coloured as its lower-cased
      form is. */
  lemma ColorIgnoresCase(status: string)
    ensures StatusColor(Lower(status)) == StatusColor(status)
    ensures StatusIcon(Lower(status)) == StatusIcon(status)
  {
    LowerIdempotent(status);
  }

  // ---------------------------------------------------------------------------
  // Cancelling

  /** The cancel action is offered for a run that is running or initial, in
      any letter case. */
  predicate CanCancel(status: string): (can: bool)
    ensures can <==> StatusIcon(status) in {Sync, ClockCircle}
  {
    Lower(status) == "running" || Lower(status) == "initial"
  }

  /** A run can be cancelled exactly when its colour is "processing" or
      "warning". */
  lemma CancelIffActiveColor(status: string)
    ensures CanCancel(status) <==> StatusColor(status) in {"processing", "warning"}
  {
  }

  // ---------------------------------------------------------------------------
  // Summary counts

  /** How many runs have the given lower-cased status. */
  function CountStatus(runs: seq<Run>, word: string): (n: nat)
    ensures n <= |runs|
    decreases |runs|
  {
    if |runs| == 0 then 0
    else CountStatus(runs[..|runs| - 1], word) + (if Lower(runs[|runs| - 1].status) == word then 1 else 0)
  }

  /** No run is counted both as successful and as failed. */
  lemma {:induction false} SuccessfulAndFailedDisjoint(runs: seq<Run>)
    ensures CountStatus(runs, "completed") + CountStatus(runs, "failed") <= |runs|
    decreases |runs|
  {
    if |runs| > 0 {
      SuccessfulAndFailedDisjoint(runs[..|runs| - 1]);
    }
  }

  /** The three summary statistics: all runs, the successful ones and the
      failed ones. */
  method Summarize(runs: seq<Run>) returns (total: nat, successful: nat, failed: nat)
    ensures total == |runs|
    ensures successful == CountStatus(runs, "completed")
    ensures failed == CountStatus(runs, "failed")
    ensures successful + failed <= total
  {
    total, successful, failed := 0, 0, 0;
    var i := 0;
    while i < |runs|
      invariant 0 <= i <= |runs|
      invariant total == i
      invariant successful == CountStatus(runs[..i], "completed")
      invariant failed == CountStatus(runs[..i], "failed")
    {
      assert runs[..i + 1][..i] == runs[..i];
      var word := Lower(runs[i].status);
      if word == "completed" {
        successful := successful + 1;
      } else if word == "failed" {
        failed := failed + 1;
      }
      total := total + 1;
      i := i + 1;
    }
    assert runs[..i] == runs;
    SuccessfulAndFailedDisjoint(runs);
  }

  // ---------------------------------------------------------------------------
  // Finished and duration cells

  /** The finished cell: "-" without a completion time, otherwise the time as
      the date formatter (the parameter `render`) writes it. */
  function FinishedCell(completedAt: Option<string>, render: string -> string): (cell: string)
    ensures !Present(completedAt) ==> cell == "-"
    ensures Present(completedAt) ==> cell == render(completedAt.value)
  {
    if Present(completedAt) then render(completedAt.value) else "-"
  }

  /** Where a run's duration is measured to. */
  datatype Endpoint = CompletedAt(time: string) | Now

  /** A finished run's duration runs to its completion time; an unfinished
      one's to the present instant. */
  function DurationEnd(run: Run): (end: Endpoint)
    ensures end.CompletedAt? <==> Present(run.completedAt)
    ensures end.CompletedAt? ==> end.time == run.completedAt.value
  {
    if Present(run.completedAt) then CompletedAt(run.completedAt.value) else Now
  }

  /** The finished cell shows "-" exactly when the duration is measured to
      the present instant, whatever the formatter writes for a real time. */
  lemma FinishedDashIffDurationToNow(run: Run, render: string -> string)
    requires forall t :: render(t) != "-"
    ensures FinishedCell(run.completedAt, render) == "-" <==> DurationEnd(run) == Now
  {
    if Present(run.completedAt) {
      assert render(run.completedAt.value) != "-";
    }
  }

  // ---------------------------------------------------------------------------
  // The trigger button

  /** `status || ''`: the route's status, with a missing one passed as "". */
  function ToggleArgument(status: Option<string>): (arg: string)
    ensures status.Some? ==> arg == status.value
    ensures status.None? ==> arg == ""
  {
    status.GetOr("")
  }

  /** The button's tooltip. */
  function TriggerLabel(status: Option<string>): (tip: string)
    ensures tip == "Disable Trigger" <==> status == Some("active")
    ensures tip != "Disable Trigger" ==> tip == "Enable Trigger"
  {
    if status == Some("active") then "Disable Trigger" else "Enable Trigger"
  }

  /** The tooltip says what pressing the button asks for: "Disable Trigger"
      exactly when the toggle sends "inactive". A missing status toggles to
      "active". */
  lemma LabelMatchesToggle(status: Option<string>)
    ensures TriggerLabel(status) == "Disable Trigger" <==> ToggleStatus(ToggleArgument(status)) == "inactive"
    ensures status.None? ==> ToggleStatus(ToggleArgument(status)) == "active"
  {
  }
}
