/** The evaluation counters: per-query success, store growth, tool usage, response and loop
    statistics, and the growth totals of the summary. */
module EvaluationMetrics {
  import opened Wrappers
  import opened Text

  /** How much of the query a growth record keeps. */
  const QueryPrefixLength: nat := 50

  datatype GrowthRecord = GrowthRecord(query: string, growth: int, before: int, after: int)

  /** What a query run reports. A key absent from the dictionary is None for the numbers
      and false for the flags, whose truth value is all the source reads. */
  datatype ExecutionInfo = ExecutionInfo(
    vectorDbCalled: bool,
    arxivSearched: bool,
    papersAdded: Option<int>,
    papersFiltered: Option<int>,
    iterations: Option<int>,
    responseHasContext: bool)

  /** `info.get(key, default)` */
  function OrDefault(value: Option<int>, default: int): int
  {
    if value.Some? then value.value else default
  }

  /** A query counts as successful when its response is non-empty after stripping. */
  predicate Succeeded(response: string)
  {
    response != "" && |Strip(response)| > 0
  }

  /** A response succeeds exactly when it has a character that is not whitespace. */
  lemma SucceededMeaning(response: string)
    ensures Succeeded(response) <==> exists k :: 0 <= k < |response| && !IsSpace(response[k])
  {
    StripBlank(response);
  }

  /** Every record is a positive growth, the difference of its two counts. */
  predicate PositiveGrowths(records: seq<GrowthRecord>)
  {
    forall r :: r in records ==> r.growth > 0 && r.growth == r.after - r.before
  }

  /** `sum(g["growth"] for g in vector_db_growth)` */
  function TotalGrowth(records: seq<GrowthRecord>): int
  {
    if records == [] then 0
    else TotalGrowth(records[..|records| - 1]) + records[|records| - 1].growth
  }

  lemma TotalGrowthAppend(records: seq<GrowthRecord>, more: seq<GrowthRecord>)
    requires |more| <= 1
    ensures TotalGrowth(records + more) == TotalGrowth(records) + (if more == [] then 0 else more[0].growth)
  {
    if more != [] {
      assert (records + more)[..|records|] == records;
    } else {
      assert records + more == records;
    }
  }

  /** With only positive growths recorded, the total is at least the number of events, and
      positive exactly when there was one. */
  lemma {:induction false} TotalGrowthBounds(records: seq<GrowthRecord>)
    requires PositiveGrowths(records)
    ensures TotalGrowth(records) >= |records|
    ensures TotalGrowth(records) > 0 <==> records != []
  {
    if records != [] {
      var init := records[..|records| - 1];
      assert forall r :: r in init ==> r in records;
      TotalGrowthBounds(init);
    }
  }

  datatype ToolUsage = ToolUsage(vectorDbQueries: nat, arxivSearches: nat, papersAdded: nat, papersFiltered: nat)

  datatype ResponseQuality = ResponseQuality(totalLength: nat, responsesWithContext: nat, responsesWithoutContext: nat)

  datatype LoopEfficiency = LoopEfficiency(totalIterations: int, queriesWithLoop: nat)

  /** The collector's metrics dictionary, without the averages (floats) and the query times
      (never filled). */
  datatype Metrics = Metrics(
    totalQueries: nat,
    successfulQueries: nat,
    failedQueries: nat,
    vectorDbGrowth: seq<GrowthRecord>,
    toolUsage: ToolUsage,
    responseQuality: ResponseQuality,
    loopEfficiency: LoopEfficiency)

  /** Every query is successful or failed; each collected query answered with or without
      context, looped at most once and grew the store at most once; every growth record is
      a positive difference of its counts. */
  predicate Consistent(m: Metrics)
  {
    var answered := m.responseQuality.responsesWithContext + m.responseQuality.responsesWithoutContext;
    && m.totalQueries == m.successfulQueries + m.failedQueries
    && answered <= m.totalQueries
    && m.loopEfficiency.queriesWithLoop <= answered
    && |m.vectorDbGrowth| <= answered
    && PositiveGrowths(m.vectorDbGrowth)
  }

  const Empty := Metrics(0, 0, 0, [], ToolUsage(0, 0, 0, 0), ResponseQuality(0, 0, 0), LoopEfficiency(0, 0))

  /** A counter advanced by one when its condition holds. */
  function Tally(condition: bool): nat
  {
    if condition then 1 else 0
  }

  /** A reported amount added only when it is positive. */
  function PositivePart(amount: int): nat
  {
    if amount > 0 then amount else 0
  }

  /** The growth record of a query, present exactly when the store grew. */
  function GrowthOf(query: string, countBefore: int, countAfter: int): seq<GrowthRecord>
  {
    var growth := countAfter - countBefore;
    if growth > 0 then [GrowthRecord(Take(query, QueryPrefixLength), growth, countBefore, countAfter)] else []
  }

  /** The tool counters advanced by what a query reports. */
  predicate ToolsCounted(t0: ToolUsage, t: ToolUsage, info: ExecutionInfo)
  {
    && t.vectorDbQueries == t0.vectorDbQueries + Tally(info.vectorDbCalled)
    && t.arxivSearches == t0.arxivSearches + Tally(info.arxivSearched)
    && t.papersAdded == t0.papersAdded + PositivePart(OrDefault(info.papersAdded, 0))
    && t.papersFiltered == t0.papersFiltered + PositivePart(OrDefault(info.papersFiltered, 0))
  }

  /** The response counters advanced by one response. */
  predicate ResponseCounted(q0: ResponseQuality, q: ResponseQuality, response: string, info: ExecutionInfo)
  {
    && q.totalLength == q0.totalLength + |response|
    && q.responsesWithContext == q0.responsesWithContext + Tally(info.responseHasContext)
    && q.responsesWithoutContext == q0.responsesWithoutContext + Tally(!info.responseHasContext)
  }

  /** The loop counters advanced by one query's iterations (1 when not reported). */
  predicate LoopCounted(l0: LoopEfficiency, l: LoopEfficiency, info: ExecutionInfo)
  {
    && l.totalIterations == l0.totalIterations + OrDefault(info.iterations, 1)
    && l.queriesWithLoop == l0.queriesWithLoop + Tally(OrDefault(info.iterations, 1) > 1)
  }

  /** What collecting one query does to the metrics: one more query, counted once as a
      success or a failure; a growth record exactly when the store grew; the tool, response
      and loop counters advanced by what the query reports. */
  predicate Collected(m0: Metrics, m: Metrics, query: string, response: string, countBefore: int, countAfter: int, info: ExecutionInfo)
  {
    && m.totalQueries == m0.totalQueries + 1
    && m.successfulQueries == m0.successfulQueries + Tally(Succeeded(response))
    && m.failedQueries == m0.failedQueries + Tally(!Succeeded(response))
    && m.vectorDbGrowth == m0.vectorDbGrowth + GrowthOf(query, countBefore, countAfter)
    && ToolsCounted(m0.toolUsage, m.toolUsage, info)
    && ResponseCounted(m0.responseQuality, m.responseQuality, response, info)
    && LoopCounted(m0.loopEfficiency, m.loopEfficiency, info)
  }

  /** The tool-usage section of `collect_query_metrics`. */
  method CountTools(t0: ToolUsage, info: ExecutionInfo) returns (t: ToolUsage)
    ensures ToolsCounted(t0, t, info)
  {
    t := t0;
    if info.vectorDbCalled {
      t := t.(vectorDbQueries := t.vectorDbQueries + 1);
    }
    if info.arxivSearched {
      t := t.(arxivSearches := t.arxivSearches + 1);
    }
    if OrDefault(info.papersAdded, 0) > 0 {
      t := t.(papersAdded := t.papersAdded + info.papersAdded.value);
    }
    if OrDefault(info.papersFiltered, 0) > 0 {
      t := t.(papersFiltered := t.papersFiltered + info.papersFiltered.value);
    }
  }

  /** The response-quality section of `collect_query_metrics`. */
  method CountResponse(q0: ResponseQuality, response: string, info: ExecutionInfo) returns (q: ResponseQuality)
    ensures ResponseCounted(q0, q, response, info)
  {
    q := q0.(totalLength := q0.totalLength + |response|);
    if info.responseHasContext {
      q := q.(responsesWithContext := q.responsesWithContext + 1);
    } else {
      q := q.(responsesWithoutContext := q.responsesWithoutContext + 1);
    }
  }

  /** The loop-efficiency section of `collect_query_metrics`. */
  method CountLoop(l0: LoopEfficiency, info: ExecutionInfo) returns (l: LoopEfficiency)
    ensures LoopCounted(l0, l, info)
  {
    var iterations := OrDefault(info.iterations, 1);
    l := l0.(totalIterations := l0.totalIterations + iterations);
    if iterations > 1 {
      l := l.(queriesWithLoop := l.queriesWithLoop + 1);
    }
  }

  /** The body of `collect_query_metrics`, on the metrics dictionary's value. */
  method CollectInto(m0: Metrics, query: string, response: string, countBefore: int, countAfter: int, info: ExecutionInfo)
    returns (m: Metrics)
    ensures Collected(m0, m, query, response, countBefore, countAfter, info)
  {
    m := m0.(totalQueries := m0.totalQueries + 1);

    if response != "" && |Strip(response)| > 0 {
      m := m.(successfulQueries := m.successfulQueries + 1);
    } else {
      m := m.(failedQueries := m.failedQueries + 1);
    }

    var growth := countAfter - countBefore;
    if growth > 0 {
      var record := GrowthRecord(Take(query, QueryPrefixLength), growth, countBefore, countAfter);
      m := m.(vectorDbGrowth := m.vectorDbGrowth + [record]);
    } else {
      assert m.vectorDbGrowth + [] == m.vectorDbGrowth;
    }

    var tools := CountTools(m.toolUsage, info);
    var quality := CountResponse(m.responseQuality, response, info);
    var loops := CountLoop(m.loopEfficiency, info);
    m := m.(toolUsage := tools, responseQuality := quality, loopEfficiency := loops);
  }

  /** Collecting a query keeps the metrics consistent. */
  lemma CollectedKeepsConsistent(m0: Metrics, m: Metrics, query: string, response: string, countBefore: int, countAfter: int, info: ExecutionInfo)
    requires Consistent(m0) && Collected(m0, m, query, response, countBefore, countAfter, info)
    ensures Consistent(m)
  {
  }

  /** Each collected query is counted exactly once, as a success exactly when its response
      holds a character that is not whitespace. */
  lemma CollectedCountsOutcome(m0: Metrics, m: Metrics, query: string, response: string, countBefore: int, countAfter: int, info: ExecutionInfo)
    requires Collected(m0, m, query, response, countBefore, countAfter, info)
    ensures (m.successfulQueries - m0.successfulQueries) + (m.failedQueries - m0.failedQueries) == 1
    ensures m.successfulQueries == m0.successfulQueries + 1 <==> exists k :: 0 <= k < |response| && !IsSpace(response[k])
  {
    SucceededMeaning(response);
  }

  /** Collecting a query adds its growth to the total growth when the store grew, and
      nothing otherwise. */
  lemma CollectedGrowth(m0: Metrics, m: Metrics, query: string, response: string, countBefore: int, countAfter: int, info: ExecutionInfo)
    requires Collected(m0, m, query, response, countBefore, countAfter, info)
    ensures TotalGrowth(m.vectorDbGrowth) == TotalGrowth(m0.vectorDbGrowth) + PositivePart(countAfter - countBefore)
    ensures |m.vectorDbGrowth| == |m0.vectorDbGrowth| + Tally(countAfter > countBefore)
  {
    TotalGrowthAppend(m0.vectorDbGrowth, GrowthOf(query, countBefore, countAfter));
  }

  class MetricsCollector {
    var metrics: Metrics

    predicate Valid()
      reads this
    {
      Consistent(metrics)
    }

    constructor ()
      ensures metrics == Empty
      ensures Valid()
    {
      metrics := Empty;
    }

    /** `collect_query_metrics` */
    method CollectQueryMetrics(query: string, response: string, countBefore: int, countAfter: int, info: ExecutionInfo)
      requires Valid()
      modifies this
      ensures Collected(old(metrics), metrics, query, response, countBefore, countAfter, info)
      ensures Valid()
    {
      var m := CollectInto(metrics, query, response, countBefore, countAfter, info);
      CollectedKeepsConsistent(metrics, m, query, response, countBefore, countAfter, info);
      metrics := m;
    }

    /** The exception path of the evaluation loop: the query counts as failed and nothing
        else changes. */
    method RecordFailedQuery()
      requires Valid()
      modifies this
      ensures Valid()
      ensures metrics == old(metrics).(failedQueries := old(metrics).failedQueries + 1,
                                       totalQueries := old(metrics).totalQueries + 1)
    {
      metrics := metrics.(failedQueries := metrics.failedQueries + 1, totalQueries := metrics.totalQueries + 1);
    }

    /** The integer part of the summary's store section: total growth and growth events.
        With no growth event the total growth is 0. */
    function GrowthSummary(): (r: (int, nat))
      reads this
      ensures r.1 == |metrics.vectorDbGrowth|
      ensures r.1 == 0 ==> r.0 == 0
    {
      (TotalGrowth(metrics.vectorDbGrowth), |metrics.vectorDbGrowth|)
    }
  }

  /** Every growth event adds at least one document, so the summary's total growth is at
      least its number of events and positive exactly when there was one. */
  lemma GrowthSummaryBounds(c: MetricsCollector)
    requires c.Valid()
    ensures var (total, events) := c.GrowthSummary();
      total >= events && (total > 0 <==> events > 0)
  {
    TotalGrowthBounds(c.metrics.vectorDbGrowth);
  }
}
