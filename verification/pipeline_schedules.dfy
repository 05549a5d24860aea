/** src/components/PipelineSchedules.tsx: the cells of a schedule row and the
    route a click on the row leads to. */
module PipelineSchedules {
  import opened Wrappers
  import opened Text
  import opened DateUtils
  import opened Uri
  import Api
  import PipelineRuns

  /** `field || 'N/A'`: the field as written, or "N/A" when it is missing or
      empty. The interval cell and the last-run chip both read this way. */
  function OrNotAvailable(field: Option<string>): (text: string)
    ensures Present(field) ==> text == field.value
    ensures !Present(field) ==> text == NotAvailable
    ensures text != ""
  {
    if Present(field) then field.value else NotAvailable
  }

  // ---------------------------------------------------------------------------
  // Last run status

  /** `getStatusColor` of this page: an exact, case-sensitive match, so a
      missing status, "success" and "Completed" all show as a warning. */
  function LastRunColor(status: Option<string>): (color: string)
    ensures color == "success" <==> status == Some("completed")
    ensures color == "error" <==> status == Some("failed")
    ensures color == "info" <==> status == Some("running")
    ensures color == "warning" <==> status !in {Some("completed"), Some("failed"), Some("running")}
  {
    match status
    case Some("completed") => "success"
    case Some("failed") => "error"
    case Some("running") => "info"
    case _ => "warning"
  }

  /** Unlike the run list, which ignores letter case, this page colours any
      other spelling of "completed" as a warning; and the "success" status
      the schedule type declares is a warning too. */
  lemma LastRunColorIsCaseSensitive(status: string)
    requires Lower(status) == "completed" && status != "completed"
    ensures PipelineRuns.StatusColor(status) == "success"
    ensures LastRunColor(Some(status)) == "warning"
    ensures LastRunColor(Some("success")) == "warning"
  {
  }

  /** A chip reading "N/A" is always a warning chip. */
  lemma NotAvailableChipIsWarning(status: Option<string>)
    requires OrNotAvailable(status) == NotAvailable
    ensures LastRunColor(status) == "warning"
  {
  }

  // ---------------------------------------------------------------------------
  // Schedule cells

  /** The caption under the interval: its `defineCron` sentence, or "N/A". */
  function CronCaption(interval: Option<string>): (text: string)
    ensures Present(interval) ==> text == DefineCron(interval.value)
    ensures !Present(interval) ==> text == NotAvailable
  {
    if Present(interval) then DefineCron(interval.value) else NotAvailable
  }

  /** The caption reads "N/A" exactly when there is no interval, since a
      described interval never reads "N/A"; a present interval is described
      as invalid exactly when it does not hold four spaces. */
  lemma CronCaptionCases(interval: Option<string>)
    ensures CronCaption(interval) == NotAvailable <==> !Present(interval)
    ensures Present(interval) ==>
      (CronCaption(interval) == InvalidCron <==> Occurrences(interval.value, ' ') != 4)
  {
    if Present(interval) {
      var d := DefineCron(interval.value);
      CronInvalidIffNotFourSpaces(interval.value);
      if ParseCron(interval.value).Some? {
        assert StartsWith(d, "Runs ");
        assert d[0] == 'R';
      } else {
        assert d[0] == 'I';
      }
    }
  }

  /** The status chip is green for an active schedule and blue otherwise. */
  function StatusChipColor(status: string): (color: string)
    ensures color == "success" <==> status == "active"
    ensures color != "success" ==> color == "info"
  {
    if status == "active" then "success" else "info"
  }

  /** A green chip marks exactly the schedules the toggle would deactivate. */
  lemma GreenChipIffToggleDeactivates(status: string)
    ensures StatusChipColor(status) == "success" <==> Api.ToggleStatus(status) == "inactive"
  {
  }

  /** The next-run and last-enabled cells: "N/A" without a date, otherwise
      `formatDate` of it (with the date library as the parameter `render`). */
  function DateCell(date: Option<string>, render: string -> Option<string>): (text: string)
    ensures !Present(date) ==> text == NotAvailable
    ensures Present(date) ==> text == FormatDate(date, render)
  {
    if Present(date) then FormatDate(date, render) else NotAvailable
  }

  /** The row's guard adds nothing to `formatDate`'s own: the cell is always
      `formatDate` of the date. */
  lemma DateCellIsFormatDate(date: Option<string>, render: string -> Option<string>)
    ensures DateCell(date, render) == FormatDate(date, render)
  {
  }

  // ---------------------------------------------------------------------------
  // handleRowClick

  /** `/pipelines/{scheduleId}/runs/{encodeURIComponent(name)}/{token}/{status}`. */
  function RowPath(scheduleId: string, name: string, token: string, status: string): string {
    "/pipelines/" + scheduleId + "/runs/" + EncodeUriComponent(name) + "/" + token + "/" + status
  }

  /** The path, with its concatenations grouped from the right. */
  lemma RowPathNested(id: string, enc: string, token: string, status: string)
    ensures "/pipelines/" + id + "/runs/" + enc + "/" + token + "/" + status ==
      "" + "/" + ("pipelines" + "/" + (id + "/" + ("runs" + "/" + (enc + "/" + (token + "/" + status)))))
  {
    var p5 := token + "/" + status;
    var p4 := enc + "/" + p5;
    var p3 := "runs" + "/" + p4;
    var p2 := id + "/" + p3;
    var p1 := "pipelines" + "/" + p2;
    assert "/pipelines/" == "/" + "pipelines" + "/";
    assert "/runs/" == "/" + "runs" + "/";
    calc {
      "/pipelines/" + id + "/runs/" + enc + "/" + token + "/" + status;
      ("/pipelines/" + id + "/runs/" + enc + "/") + p5;
      ("/pipelines/" + id + "/runs/") + p4;
      ("/pipelines/" + id + "/") + p3;
      "/pipelines/" + p2;
      "" + "/" + p1;
    }
  }

  /** Seven segments joined by '/', grouped from the right. */
  lemma JoinSeven(a: string, b: string, c: string, d: string, e: string, f: string, g: string)
    ensures Join([a, b, c, d, e, f, g], '/') ==
      a + "/" + (b + "/" + (c + "/" + (d + "/" + (e + "/" + (f + "/" + g)))))
  {
    JoinCons(f, [g], '/');
    assert [f] + [g] == [f, g];
    JoinCons(e, [f, g], '/');
    assert [e] + [f, g] == [e, f, g];
    JoinCons(d, [e, f, g], '/');
    assert [d] + [e, f, g] == [d, e, f, g];
    JoinCons(c, [d, e, f, g], '/');
    assert [c] + [d, e, f, g] == [c, d, e, f, g];
    JoinCons(b, [c, d, e, f, g], '/');
    assert [b] + [c, d, e, f, g] == [b, c, d, e, f, g];
    JoinCons(a, [b, c, d, e, f, g], '/');
    assert [a] + [b, c, d, e, f, g] == [a, b, c, d, e, f, g];
  }

  /** The path as its '/'-separated segments. */
  lemma RowPathIsJoin(scheduleId: string, name: string, token: string, status: string)
    ensures RowPath(scheduleId, name, token, status) ==
      Join(["", "pipelines", scheduleId, "runs", EncodeUriComponent(name), token, status], '/')
  {
    RowPathNested(scheduleId, EncodeUriComponent(name), token, status);
    JoinSeven("", "pipelines", scheduleId, "runs", EncodeUriComponent(name), token, status);
  }

  /** A row click leads to seven segments in this order: an empty one,
      "pipelines", the schedule id, "runs", the encoded name, the token and the status,
      whenever the schedule id, token and status hold no '/'. Whatever the name holds, it
      takes exactly one segment, and decoding that segment gives it back. */
  lemma RowPathSegments(scheduleId: string, name: string, token: string, status: string)
    requires '/' !in scheduleId && '/' !in token && '/' !in status
    ensures Split(RowPath(scheduleId, name, token, status), '/') ==
      ["", "pipelines", scheduleId, "runs", EncodeUriComponent(name), token, status]
    ensures DecodeUriComponent(Split(RowPath(scheduleId, name, token, status), '/')[4]) == Some(name)
  {
    var parts := ["", "pipelines", scheduleId, "runs", EncodeUriComponent(name), token, status];
    RowPathIsJoin(scheduleId, name, token, status);
    EncodedAlphabet(name);
    assert forall i :: 0 <= i < |parts| ==> '/' !in parts[i];
    SplitJoin(parts, '/');
    UriRoundTrip(name);
  }
}
