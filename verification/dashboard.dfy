/** src/components/Dashboard.tsx: folding the monitor payload
    (pipeline -> date -> pipeline type -> status -> count) into per-category and
    total counters (`calculateStats`), into one day's counters
    (`calculateDailyStats`), and assembling the week shown on the dashboard. */
module Dashboard {
  import opened Wrappers

  // ---------------------------------------------------------------------------
  // The payload, with every JSON object kept as its entries in key order

  /** A JSON value under a status key: only numbers are counted. */
  datatype Count = Number(n: int) | NotNumber

  datatype StatusCount = StatusCount(status: string, count: Count)

  /** One pipeline type's entry of a date: its status counts. */
  datatype TypeBucket = TypeBucket(pipelineType: string, counts: seq<StatusCount>)

  /** One date key of a pipeline's `data`. */
  datatype DateBucket = DateBucket(date: string, types: seq<TypeBucket>)

  /** One value of `monitor_stat.stats`: a pipeline's `data`, date keys in order. */
  datatype PipelineMonitor = PipelineMonitor(data: seq<DateBucket>)

  // ---------------------------------------------------------------------------
  // Counters

  datatype Status = Completed | Failed | Running | Cancelled

  /** The four status keys a counter object has. */
  function StatusNamed(name: string): Option<Status> {
    if name == "completed" then Some(Completed)
    else if name == "failed" then Some(Failed)
    else if name == "running" then Some(Running)
    else if name == "cancelled" then Some(Cancelled)
    else None
  }

  datatype Counters = Counters(completed: int, failed: int, running: int, cancelled: int) {

    function Of(s: Status): int {
      match s
      case Completed => completed
      case Failed => failed
      case Running => running
      case Cancelled => cancelled
    }

    /** `counters[s] += n`. */
    function Add(s: Status, n: int): (r: Counters)
      ensures r.Of(s) == Of(s) + n
      ensures forall t :: t != s ==> r.Of(t) == Of(t)
    {
      match s
      case Completed => this.(completed := completed + n)
      case Failed => this.(failed := failed + n)
      case Running => this.(running := running + n)
      case Cancelled => this.(cancelled := cancelled + n)
    }
  }

  const Zero := Counters(0, 0, 0, 0)

  datatype Category = Streaming | Integration | Standard

  /** Only the exact type names "streaming" and "integration" have their own
      category; every other type is "standard". */
  function CategoryOf(pipelineType: string): Category {
    if pipelineType == "streaming" then Streaming
    else if pipelineType == "integration" then Integration
    else Standard
  }

  datatype PipelineStats = PipelineStats(streaming: Counters, integration: Counters,
                                         standard: Counters, total: Counters) {

    function In(c: Category): Counters {
      match c
      case Streaming => streaming
      case Integration => integration
      case Standard => standard
    }

    /** One numeric count goes both to its category and to the total. */
    function AddCount(c: Category, s: Status, n: int): (r: PipelineStats)
      ensures r.total == total.Add(s, n)
      ensures r.In(c) == In(c).Add(s, n)
      ensures forall d :: d != c ==> r.In(d) == In(d)
    {
      var total' := total.Add(s, n);
      match c
      case Streaming => this.(streaming := streaming.Add(s, n), total := total')
      case Integration => this.(integration := integration.Add(s, n), total := total')
      case Standard => this.(standard := standard.Add(s, n), total := total')
    }
  }

  /** `initialStats`: every counter zero, which satisfies the conservation
      law. */
  function InitialStats(): (stats: PipelineStats)
    ensures forall c: Category, s: Status :: stats.In(c).Of(s) == 0
    ensures forall s: Status :: stats.total.Of(s) == 0
    ensures Conserved(stats)
  {
    PipelineStats(Zero, Zero, Zero, Zero)
  }

  /** The conservation law: for every status the total is the sum of the three
      categories. */
  ghost predicate Conserved(p: PipelineStats) {
    forall s: Status :: p.total.Of(s) == p.streaming.Of(s) + p.integration.Of(s) + p.standard.Of(s)
  }

  // ---------------------------------------------------------------------------
  // Reference sums

  /** Sum of the numeric counts filed under status `s`. */
  function StatusSum(counts: seq<StatusCount>, s: Status): int
    decreases |counts|
  {
    if |counts| == 0 then 0
    else
      var here := match counts[0].count
        case Number(n) => if StatusNamed(counts[0].status) == Some(s) then n else 0
        case NotNumber => 0;
      here + StatusSum(counts[1..], s)
  }

  /** Sum over the types of category `c`. */
  function CategorySum(types: seq<TypeBucket>, c: Category, s: Status): int
    decreases |types|
  {
    if |types| == 0 then 0
    else (if CategoryOf(types[0].pipelineType) == c then StatusSum(types[0].counts, s) else 0)
         + CategorySum(types[1..], c, s)
  }

  /** Sum over all types, whatever their category. */
  function DaySum(types: seq<TypeBucket>, s: Status): int
    decreases |types|
  {
    if |types| == 0 then 0 else StatusSum(types[0].counts, s) + DaySum(types[1..], s)
  }

  /** Every pipeline has at least one date key; otherwise reading its first
      date gives `undefined` and `Object.entries` throws. */
  predicate HasDates(data: seq<PipelineMonitor>) {
    forall i :: 0 <= i < |data| ==> |data[i].data| > 0
  }

  /** The types of the first date key of a pipeline that has one. */
  function FirstTypes(p: PipelineMonitor): seq<TypeBucket>
    requires |p.data| > 0
  {
    p.data[0].types
  }

  function PayloadCategorySum(data: seq<PipelineMonitor>, c: Category, s: Status): int
    requires HasDates(data)
    decreases |data|
  {
    if |data| == 0 then 0 else CategorySum(FirstTypes(data[0]), c, s) + PayloadCategorySum(data[1..], c, s)
  }

  function PayloadDaySum(data: seq<PipelineMonitor>, s: Status): int
    requires HasDates(data)
    decreases |data|
  {
    if |data| == 0 then 0 else DaySum(FirstTypes(data[0]), s) + PayloadDaySum(data[1..], s)
  }

  /** Every numeric count of a first date is filed under one of the four known
      statuses (an unknown key would make `calculateStats` write NaN). */
  predicate CountsKnown(counts: seq<StatusCount>) {
    forall k :: 0 <= k < |counts| ==> counts[k].count.Number? ==> StatusNamed(counts[k].status).Some?
  }

  predicate TypesKnown(types: seq<TypeBucket>) {
    forall t :: 0 <= t < |types| ==> CountsKnown(types[t].counts)
  }

  predicate FirstDatesKnown(data: seq<PipelineMonitor>) {
    forall i :: 0 <= i < |data| ==> |data[i].data| > 0 ==> TypesKnown(data[i].data[0].types)
  }

  // ---------------------------------------------------------------------------
  // calculateStats

  /** The innermost `forEach`: every numeric count of one type, into its
      category and into the total. */
  function AddCounts(acc: PipelineStats, c: Category, counts: seq<StatusCount>): (r: PipelineStats)
    requires CountsKnown(counts)
    ensures Conserved(acc) ==> Conserved(r)
    ensures forall s :: r.total.Of(s) == acc.total.Of(s) + StatusSum(counts, s)
    ensures forall s :: r.In(c).Of(s) == acc.In(c).Of(s) + StatusSum(counts, s)
    ensures forall d :: d != c ==> r.In(d) == acc.In(d)
    decreases |counts|
  {
    if |counts| == 0 then acc
    else
      var next := match counts[0].count
        case Number(n) => acc.AddCount(c, StatusNamed(counts[0].status).value, n)
        case NotNumber => acc;
      AddCounts(next, c, counts[1..])
  }

  /** The middle `forEach`: every type of the first date, under its category. */
  function AddTypes(acc: PipelineStats, types: seq<TypeBucket>): (r: PipelineStats)
    requires TypesKnown(types)
    ensures Conserved(acc) ==> Conserved(r)
    ensures forall s :: r.total.Of(s) == acc.total.Of(s) + DaySum(types, s)
    ensures forall c, s :: r.In(c).Of(s) == acc.In(c).Of(s) + CategorySum(types, c, s)
    decreases |types|
  {
    if |types| == 0 then acc
    else AddTypes(AddCounts(acc, CategoryOf(types[0].pipelineType), types[0].counts), types[1..])
  }

  /** The outer `forEach` over pipelines; `None` when a pipeline has no date. */
  function AddPipelines(acc: PipelineStats, data: seq<PipelineMonitor>): (r: Option<PipelineStats>)
    requires FirstDatesKnown(data)
    ensures r.Some? <==> HasDates(data)
    ensures r.Some? && Conserved(acc) ==> Conserved(r.value)
    ensures r.Some? ==> forall s :: r.value.total.Of(s) == acc.total.Of(s) + PayloadDaySum(data, s)
    ensures r.Some? ==> forall c, s :: r.value.In(c).Of(s) == acc.In(c).Of(s) + PayloadCategorySum(data, c, s)
    decreases |data|
  {
    if |data| == 0 then Some(acc)
    else if |data[0].data| == 0 then None
    else AddPipelines(AddTypes(acc, data[0].data[0].types), data[1..])
  }

  /** `calculateStats`: starts from a fresh all-zero copy of `initialStats`.
      It fails exactly when some pipeline has no date. Otherwise every
      category counter is the sum of that category's numeric counts on each
      pipeline's first date, every total is the sum over all types, and the
      totals are the sums of the three categories. */
  function CalculateStats(data: seq<PipelineMonitor>): (r: Option<PipelineStats>)
    requires FirstDatesKnown(data)
    ensures r.Some? <==> HasDates(data)
    ensures r.Some? ==> Conserved(r.value)
    ensures r.Some? ==> forall s :: r.value.total.Of(s) == PayloadDaySum(data, s)
    ensures r.Some? ==> forall c, s :: r.value.In(c).Of(s) == PayloadCategorySum(data, c, s)
  {
    AddPipelines(InitialStats(), data)
  }

  // ---------------------------------------------------------------------------
  // calculateDailyStats

  function AddDailyCounts(acc: Counters, counts: seq<StatusCount>): (r: Counters)
    ensures forall s :: r.Of(s) == acc.Of(s) + StatusSum(counts, s)
    decreases |counts|
  {
    if |counts| == 0 then acc
    else
      var next := match (counts[0].count, StatusNamed(counts[0].status))
        case (Number(n), Some(s)) => acc.Add(s, n)
        case _ => acc;
      AddDailyCounts(next, counts[1..])
  }

  function AddDailyTypes(acc: Counters, types: seq<TypeBucket>): (r: Counters)
    ensures forall s :: r.Of(s) == acc.Of(s) + DaySum(types, s)
    decreases |types|
  {
    if |types| == 0 then acc else AddDailyTypes(AddDailyCounts(acc, types[0].counts), types[1..])
  }

  function AddDailyPipelines(acc: Counters, data: seq<PipelineMonitor>): (r: Option<Counters>)
    ensures r.Some? <==> HasDates(data)
    ensures r.Some? ==> forall s :: r.value.Of(s) == acc.Of(s) + PayloadDaySum(data, s)
    decreases |data|
  {
    if |data| == 0 then Some(acc)
    else if |data[0].data| == 0 then None
    else AddDailyPipelines(AddDailyTypes(acc, data[0].data[0].types), data[1..])
  }

  /** `calculateDailyStats`: the four counters, each the sum of the numeric
      counts filed under that status on every pipeline's first date, whatever
      the type; other status keys are skipped. Fails exactly when some
      pipeline has no date. */
  function CalculateDailyStats(data: seq<PipelineMonitor>): (r: Option<Counters>)
    ensures r.Some? <==> HasDates(data)
    ensures r.Some? ==> forall s :: r.value.Of(s) == PayloadDaySum(data, s)
  {
    AddDailyPipelines(Zero, data)
  }

  // ---------------------------------------------------------------------------
  // Properties

  /** When only the four known statuses carry numbers, a day's counters are
      exactly the totals `calculateStats` computes for the same payload. */
  lemma DailyStatsAreTotals(data: seq<PipelineMonitor>)
    requires FirstDatesKnown(data) && HasDates(data)
    ensures CalculateDailyStats(data) == Some(CalculateStats(data).value.total)
  {
    var d, t := CalculateDailyStats(data).value, CalculateStats(data).value.total;
    assert d.Of(Completed) == t.Of(Completed) && d.Of(Failed) == t.Of(Failed);
    assert d.Of(Running) == t.Of(Running) && d.Of(Cancelled) == t.Of(Cancelled);
  }

  /** An empty payload gives all-zero counters. */
  lemma EmptyPayloadIsZero()
    ensures CalculateStats([]) == Some(InitialStats())
    ensures CalculateDailyStats([]) == Some(Zero)
  {
  }

  predicate SameFirstDates(a: seq<PipelineMonitor>, b: seq<PipelineMonitor>)
    requires HasDates(a) && HasDates(b)
  {
    |a| == |b| && forall i :: 0 <= i < |a| ==> a[i].data[0] == b[i].data[0]
  }

  lemma {:induction false} PayloadSumsOnlyReadFirstDates(a: seq<PipelineMonitor>, b: seq<PipelineMonitor>)
    requires HasDates(a) && HasDates(b) && SameFirstDates(a, b)
    ensures forall s :: PayloadDaySum(a, s) == PayloadDaySum(b, s)
    ensures forall c, s :: PayloadCategorySum(a, c, s) == PayloadCategorySum(b, c, s)
    decreases |a|
  {
    if |a| > 0 {
      PayloadSumsOnlyReadFirstDates(a[1..], b[1..]);
    }
  }

  /** Only the first date key of each pipeline is read: payloads that agree on
      those give the same statistics, whatever their other dates hold. */
  lemma OnlyFirstDateCounts(a: seq<PipelineMonitor>, b: seq<PipelineMonitor>)
    requires HasDates(a) && HasDates(b) && SameFirstDates(a, b)
    requires FirstDatesKnown(a) && FirstDatesKnown(b)
    ensures CalculateStats(a) == CalculateStats(b)
    ensures CalculateDailyStats(a) == CalculateDailyStats(b)
  {
    PayloadSumsOnlyReadFirstDates(a, b);
    var x, y := CalculateStats(a).value, CalculateStats(b).value;
    forall c ensures x.In(c) == y.In(c) {
      assert x.In(c).Of(Completed) == y.In(c).Of(Completed);
      assert x.In(c).Of(Failed) == y.In(c).Of(Failed);
      assert x.In(c).Of(Running) == y.In(c).Of(Running);
      assert x.In(c).Of(Cancelled) == y.In(c).Of(Cancelled);
    }
    assert x.In(Streaming) == y.In(Streaming) && x.In(Integration) == y.In(Integration);
    assert x.In(Standard) == y.In(Standard);
    assert x.total.Of(Completed) == y.total.Of(Completed) && x.total.Of(Failed) == y.total.Of(Failed);
    assert x.total.Of(Running) == y.total.Of(Running) && x.total.Of(Cancelled) == y.total.Of(Cancelled);
    var p, q := CalculateDailyStats(a).value, CalculateDailyStats(b).value;
    assert p.Of(Completed) == q.Of(Completed) && p.Of(Failed) == q.Of(Failed);
    assert p.Of(Running) == q.Of(Running) && p.Of(Cancelled) == q.Of(Cancelled);
  }

  predicate NoNamedCategory(types: seq<TypeBucket>) {
    forall t :: 0 <= t < |types| ==> CategoryOf(types[t].pipelineType) == Standard
  }

  lemma {:induction false} UnnamedTypesAreStandard(types: seq<TypeBucket>, s: Status)
    requires NoNamedCategory(types)
    ensures CategorySum(types, Streaming, s) == 0 && CategorySum(types, Integration, s) == 0
    ensures CategorySum(types, Standard, s) == DaySum(types, s)
    decreases |types|
  {
    if |types| > 0 {
      UnnamedTypesAreStandard(types[1..], s);
    }
  }

  lemma {:induction false} UnnamedPayloadIsStandard(data: seq<PipelineMonitor>, s: Status)
    requires HasDates(data)
    requires forall i :: 0 <= i < |data| ==> NoNamedCategory(FirstTypes(data[i]))
    ensures PayloadCategorySum(data, Streaming, s) == 0 && PayloadCategorySum(data, Integration, s) == 0
    ensures PayloadCategorySum(data, Standard, s) == PayloadDaySum(data, s)
    decreases |data|
  {
    if |data| > 0 {
      UnnamedTypesAreStandard(FirstTypes(data[0]), s);
      UnnamedPayloadIsStandard(data[1..], s);
    }
  }

  /** Types other than exactly "streaming" and "integration" (for instance
      "Streaming" or "batch") are all counted as standard: with no such names
      in the payload, the standard counters are the totals. */
  lemma OtherTypesCountAsStandard(data: seq<PipelineMonitor>)
    requires HasDates(data) && FirstDatesKnown(data)
    requires forall i :: 0 <= i < |data| ==> NoNamedCategory(FirstTypes(data[i]))
    ensures CalculateStats(data).value.streaming == Zero
    ensures CalculateStats(data).value.integration == Zero
    ensures CalculateStats(data).value.standard == CalculateStats(data).value.total
  {
    var r := CalculateStats(data).value;
    forall s ensures r.In(Streaming).Of(s) == 0 && r.In(Integration).Of(s) == 0
      && r.standard.Of(s) == r.total.Of(s)
    {
      UnnamedPayloadIsStandard(data, s);
    }
    assert r.streaming.Of(Completed) == 0 && r.streaming.Of(Failed) == 0;
    assert r.streaming.Of(Running) == 0 && r.streaming.Of(Cancelled) == 0;
    assert r.integration.Of(Completed) == 0 && r.integration.Of(Failed) == 0;
    assert r.integration.Of(Running) == 0 && r.integration.Of(Cancelled) == 0;
    assert r.standard.Of(Completed) == r.total.Of(Completed);
    assert r.standard.Of(Failed) == r.total.Of(Failed);
    assert r.standard.Of(Running) == r.total.Of(Running);
    assert r.standard.Of(Cancelled) == r.total.Of(Cancelled);
  }

  // ---------------------------------------------------------------------------
  // The week

  datatype DailyEntry = DailyEntry(date: string, counts: Counters)

  /** What the dashboard shows: one entry per day, and today's statistics. */
  datatype DashboardView = DashboardView(weekly: seq<DailyEntry>, today: PipelineStats)

  const InitialView := DashboardView([], InitialStats())

  /** `fetchStats` after the responses arrived: `responses[i]` is the payload
      fetched for `dates[i]`. Weekly entries follow the dates, each labelled
      with its date; today's statistics come from the last response. If any
      step throws (a pipeline with no date, or no dates at all) nothing is
      set and the view keeps its initial state. */
  method LoadDashboard(dates: seq<string>, responses: seq<seq<PipelineMonitor>>)
      returns (view: DashboardView)
    requires |responses| == |dates|
    requires |dates| > 0 ==> FirstDatesKnown(responses[|dates| - 1])
    ensures (|dates| > 0 && forall i :: 0 <= i < |responses| ==> HasDates(responses[i]))
      ==> && |view.weekly| == |dates|
          && (forall i :: 0 <= i < |dates| ==>
                view.weekly[i] == DailyEntry(dates[i], CalculateDailyStats(responses[i]).value))
          && view.today == CalculateStats(responses[|dates| - 1]).value
    ensures !(|dates| > 0 && forall i :: 0 <= i < |responses| ==> HasDates(responses[i]))
      ==> view == InitialView
  {
    var weekly: seq<DailyEntry> := [];
    var i := 0;
    while i < |dates|
      invariant 0 <= i <= |dates|
      invariant |weekly| == i
      invariant forall j :: 0 <= j < i ==> HasDates(responses[j])
      invariant forall j :: 0 <= j < i ==>
        weekly[j] == DailyEntry(dates[j], CalculateDailyStats(responses[j]).value)
    {
      var daily := CalculateDailyStats(responses[i]);
      if daily.None? {
        return InitialView;
      }
      weekly := weekly + [DailyEntry(dates[i], daily.value)];
      i := i + 1;
    }
    if |dates| == 0 {
      return InitialView;
    }
    var today := CalculateStats(responses[|dates| - 1]);
    view := DashboardView(weekly, today.value);
  }
}
