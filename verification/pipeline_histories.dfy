/** src/components/pipeline-histories.tsx: the "load more" pagination of the
    run history, the status colour and icon, the end-time and duration guards,
    and the block-progress label. */
module PipelineHistories {
  import opened Wrappers
  import opened Text
  import PipelineRuns

  /** The fields of a history row the model looks at. */
  datatype HistoryRun = HistoryRun(status: string, startedAt: Option<string>, completedAt: Option<string>,
                                   completedBlocks: nat, totalBlocks: nat)

  // ---------------------------------------------------------------------------
  // Pagination

  /** `_limit`: the page size asked for. */
  const PageLimit := 30

  /** The rows held, the offset the next page starts at, and whether more
      pages are expected. */
  datatype PageState = PageState(data: seq<HistoryRun>, offset: nat, hasMore: bool)

  const InitialPage := PageState([], 0, true)

  /** The offset sent with the request, and the state once the response (or
      its failure, `None`) has been applied. */
  datatype Fetch = Fetch(requestOffset: nat, state: PageState)

  /** `fetchData(loadMore)`. A plain fetch first resets the rows and the
      offset; either way the request carries the offset as it was when the
      call began. A page received is appended (load more) or replaces the
      rows, `hasMore` records whether it was full, and the offset advances by
      its length. A failed request keeps the state left by the reset. */
  function FetchData(s: PageState, loadMore: bool, response: Option<seq<HistoryRun>>): (r: Fetch)
    ensures r.requestOffset == s.offset
    ensures response.Some? && loadMore ==>
      r.state.data == s.data + response.value && r.state.offset == s.offset + |response.value|
    ensures response.Some? && !loadMore ==>
      r.state.data == response.value && r.state.offset == |response.value|
    ensures response.Some? ==> (r.state.hasMore <==> |response.value| == PageLimit)
    ensures response.None? && loadMore ==> r.state == s
    ensures response.None? && !loadMore ==> r.state == PageState([], 0, s.hasMore)
  {
    var reset := if loadMore then s else s.(data := [], offset := 0);
    match response
    case None => Fetch(s.offset, reset)
    case Some(page) =>
      var rows := if loadMore then reset.data + page else page;
      Fetch(s.offset, PageState(rows, reset.offset + |page|, |page| == PageLimit))
  }

  /** The offset is the number of rows held. */
  predicate OffsetCountsRows(s: PageState) {
    s.offset == |s.data|
  }

  /** Every fetch keeps the offset equal to the number of rows held, and
      load more only ever adds rows after those already shown. */
  lemma FetchKeepsOffsetAtRowCount(s: PageState, loadMore: bool, response: Option<seq<HistoryRun>>)
    requires OffsetCountsRows(s)
    ensures OffsetCountsRows(FetchData(s, loadMore, response).state)
    ensures loadMore ==> s.data <= FetchData(s, loadMore, response).state.data
    ensures loadMore ==> FetchData(s, loadMore, response).requestOffset == |s.data|
  {
  }

  /** One call of `fetchData` with what the server answered. */
  datatype FetchCall = FetchCall(loadMore: bool, response: Option<seq<HistoryRun>>)

  /** The state after the calls, one after the other. */
  function Replay(s: PageState, calls: seq<FetchCall>): PageState
    decreases |calls|
  {
    if |calls| == 0 then s
    else
      var last := calls[|calls| - 1];
      FetchData(Replay(s, calls[..|calls| - 1]), last.loadMore, last.response).state
  }

  /** From the initial state, after any calls, the offset is the number of
      rows held, so each load-more request asks for the rows right after the
      ones shown. */
  lemma {:induction false} ReplayKeepsOffsetAtRowCount(calls: seq<FetchCall>)
    ensures OffsetCountsRows(Replay(InitialPage, calls))
    decreases |calls|
  {
    if |calls| > 0 {
      ReplayKeepsOffsetAtRowCount(calls[..|calls| - 1]);
      var last := calls[|calls| - 1];
      FetchKeepsOffsetAtRowCount(Replay(InitialPage, calls[..|calls| - 1]), last.loadMore, last.response);
    }
  }

  /** The first fetch, made from the initial state, asks for offset 0. */
  lemma FirstFetchStartsAtZero(loadMore: bool, response: Option<seq<HistoryRun>>)
    ensures FetchData(InitialPage, loadMore, response).requestOffset == 0
  {
  }

  // ---------------------------------------------------------------------------
  // Status colour and icon

  /** `getStatusColor` of this page: matched on the lower-cased status, with
      "cancelled" (not "initial") as the warning. */
  function StatusColor(status: string): (color: string)
    ensures color == "success" <==> Lower(status) == "completed"
    ensures color == "error" <==> Lower(status) == "failed"
    ensures color == "processing" <==> Lower(status) == "running"
    ensures color == "warning" <==> Lower(status) == "cancelled"
    ensures color == "default" <==> Lower(status) !in {"completed", "failed", "running", "cancelled"}
  {
    match Lower(status)
    case "completed" => "success"
    case "failed" => "error"
    case "running" => "processing"
    case "cancelled" => "warning"
    case _ => "default"
  }

  /** `getStatusIcon` of this page: cancelled and unknown statuses share the
      clock icon. */
  function StatusIcon(status: string): (icon: PipelineRuns.Icon)
    ensures icon == PipelineRuns.CheckCircle <==> Lower(status) == "completed"
    ensures icon == PipelineRuns.CloseCircle <==> Lower(status) == "failed"
    ensures icon == PipelineRuns.Sync <==> Lower(status) == "running"
    ensures icon != PipelineRuns.QuestionCircle
    ensures icon == PipelineRuns.ClockCircle <==> Lower(status) !in {"completed", "failed", "running"}
  {
    match Lower(status)
    case "completed" => PipelineRuns.CheckCircle
    case "failed" => PipelineRuns.CloseCircle
    case "running" => PipelineRuns.Sync
    case _ => PipelineRuns.ClockCircle
  }

  /** The colour determines the icon; only the clock icon covers two colours,
      "warning" and "default". */
  lemma ColorDeterminesIcon(a: string, b: string)
    ensures StatusColor(a) == StatusColor(b) ==> StatusIcon(a) == StatusIcon(b)
    ensures StatusIcon(a) == PipelineRuns.ClockCircle <==> StatusColor(a) in {"warning", "default"}
  {
  }

  // ---------------------------------------------------------------------------
  // End time and duration


  /** The end-time cell: "-" without a completion time, otherwise the time as
      the date formatter (the parameter `render`) writes it. */
  function EndTimeCell(run: HistoryRun, render: string -> string): (cell: string)
    ensures !Present(run.completedAt) ==> cell == "-"
    ensures Present(run.completedAt) ==> cell == render(run.completedAt.value)
  {
    if Present(run.completedAt) then render(run.completedAt.value) else "-"
  }

  /** The duration cell: "-" unless both the start and the completion time
      are present, otherwise the span between them as the duration formatter
      (the parameter `span`) writes it. */
  function DurationCell(run: HistoryRun, span: (string, string) -> string): (cell: string)
    ensures !(Present(run.completedAt) && Present(run.startedAt)) ==> cell == "-"
    ensures Present(run.completedAt) && Present(run.startedAt) ==>
      cell == span(run.startedAt.value, run.completedAt.value)
  {
    if Present(run.completedAt) && Present(run.startedAt)
    then span(run.startedAt.value, run.completedAt.value)
    else "-"
  }

  /** A row without an end time has no duration either; a row with an end
      time but no start time has an end time and no duration. */
  lemma NoEndNoDuration(run: HistoryRun, render: string -> string, span: (string, string) -> string)
    requires forall t :: render(t) != "-"
    requires forall a, b :: span(a, b) != "-"
    ensures EndTimeCell(run, render) == "-" ==> DurationCell(run, span) == "-"
    ensures DurationCell(run, span) != "-" ==> EndTimeCell(run, render) != "-"
    ensures Present(run.completedAt) && !Present(run.startedAt) ==>
      EndTimeCell(run, render) != "-" && DurationCell(run, span) == "-"
  {
    if Present(run.completedAt) {
      assert render(run.completedAt.value) != "-";
    }
  }

  // ---------------------------------------------------------------------------
  // Block progress

  /** "<completed>/<total> blocks": digits and slashes, starting with a
      digit and ending in " blocks". */
  function BlockLabel(completed: nat, total: nat): (text: string)
    ensures |text| >= 10 && text[|text| - 7..] == " blocks"
    ensures IsDigit(text[0])
    ensures forall i :: 0 <= i < |text| - 7 ==> IsDigit(text[i]) || text[i] == '/'
  {
    NatToDecimal(completed) + "/" + NatToDecimal(total) + " blocks"
  }

  predicate AllDigits(s: string) {
    forall i :: 0 <= i < |s| ==> IsDigit(s[i])
  }

  /** Reads the two counts back from a block label, if it is one. */
  function ReadBlockLabel(text: string): Option<(nat, nat)> {
    var words := Split(text, ' ');
    if |words| != 2 || words[1] != "blocks" then None
    else
      var counts := Split(words[0], '/');
      if |counts| != 2 || !AllDigits(counts[0]) || !AllDigits(counts[1]) then None
      else Some((ParseDecimal(counts[0]), ParseDecimal(counts[1])))
  }

  /** A string of digits holds neither a space nor a slash. */
  lemma DigitsHoldNoSeparator(s: string)
    requires AllDigits(s)
    ensures ' ' !in s && '/' !in s
  {
  }

  /** The label loses nothing: both counts can be read back from it. */
  lemma BlockLabelRoundTrip(completed: nat, total: nat)
    ensures ReadBlockLabel(BlockLabel(completed, total)) == Some((completed, total))
  {
    var c, t := NatToDecimal(completed), NatToDecimal(total);
    DigitsHoldNoSeparator(c);
    DigitsHoldNoSeparator(t);
    var ratio := c + "/" + t;
    JoinCons(c, [t], '/');
    assert Join([c, t], '/') == ratio;
    SplitJoin([c, t], '/');
    assert '/' !in " " + "blocks";
    assert ' ' !in ratio by {
      assert forall i :: 0 <= i < |ratio| ==> ratio[i] != ' ' by {
        forall i | 0 <= i < |ratio|
          ensures ratio[i] != ' '
        {
          if i < |c| {
            assert ratio[i] == c[i];
          } else if i > |c| {
            assert ratio[i] == t[i - |c| - 1];
          }
        }
      }
    }
    JoinCons(ratio, ["blocks"], ' ');
    assert BlockLabel(completed, total) == Join([ratio, "blocks"], ' ');
    SplitJoin([ratio, "blocks"], ' ');
    DecimalRoundTrip(completed);
    DecimalRoundTrip(total);
  }
}
