/**
 * The process-wide bandwidth statistics: a request counter, inbound and
 * outbound byte totals, the instant tracking started and the request log.
 *
 * `Aggregate` is the value of the store at one instant and `Step` what one
 * event does to it; `StatsStore` is the store itself, whose fields the
 * middleware updates in place and the reset route replaces.
 */
module Bandwidth {
  import opened Wrappers
  import opened JsNumbers
  import opened ByteCounter
  import opened RequestLog

  /** How many log records the report shows (`slice(-5)`). */
  const ReportWindow: int := 5

  /** The statistics record: its fields are those of the store. */
  datatype Aggregate = Aggregate(
    totalRequests: nat,
    totalBytesIn: Number,
    totalBytesOut: nat,
    startTime: int,
    requestsLog: seq<RequestRecord>)

  /** The record a store starts with, at process start and after every reset. */
  function Fresh(now: int): Aggregate {
    Aggregate(0, Finite(0), 0, now, [])
  }

  /**
   * What the wrapper keeps from the arrival for the response: the parsed
   * Content-Length and the arrival instant. Method and URL are read from the
   * live request only when the response is sent.
   */
  datatype InFlight = InFlight(bytesIn: Number, startedAt: int)

  /**
   * The log record for `request` answered with `bytesOut` bytes at `now`,
   * with the method and URL the request carries at that moment.
   */
  function Answered(request: InFlight, httpMethod: string, url: string, bytesOut: nat, now: int): RequestRecord {
    RequestRecord(now, httpMethod, url, request.bytesIn, bytesOut, now - request.startedAt)
  }

  /** What the store observes: an arrival, a response sent, or a reset. */
  datatype Event =
    | Arrival(bytesIn: Number)
    | Completion(record: RequestRecord)
    | ResetAt(now: int)

  /** The store after one event. */
  function Step(a: Aggregate, e: Event): Aggregate {
    match e
    case Arrival(n) => a.(totalRequests := a.totalRequests + 1, totalBytesIn := Add(a.totalBytesIn, n))
    case Completion(r) => a.(totalBytesOut := a.totalBytesOut + r.bytesOut, requestsLog := Logged(a.requestsLog, r))
    case ResetAt(now) => Fresh(now)
  }

  /** The store after the events in order. */
  function Run(a: Aggregate, events: seq<Event>): Aggregate
    decreases |events|
  {
    if events == [] then a else Run(Step(a, events[0]), events[1..])
  }

  /** The log bound that every reachable store keeps. */
  predicate Bounded(a: Aggregate) {
    |a.requestsLog| <= Capacity
  }

  /** Every event keeps the log within `Capacity` records. */
  lemma {:induction false} RunKeepsLogBounded(a: Aggregate, events: seq<Event>)
    requires Bounded(a)
    ensures Bounded(Run(a, events))
    decreases |events|
  {
    if events != [] {
      RunKeepsLogBounded(Step(a, events[0]), events[1..]);
    }
  }

  predicate NoReset(events: seq<Event>) {
    forall i :: 0 <= i < |events| ==> !events[i].ResetAt?
  }

  function Arrivals(events: seq<Event>): nat
    decreases |events|
  {
    if events == [] then 0 else (if events[0].Arrival? then 1 else 0) + Arrivals(events[1..])
  }

  /** The sum of the inbound sizes of the arrivals, NaN as soon as one of them is. */
  function BytesIn(events: seq<Event>): Number
    decreases |events|
  {
    if events == [] then Finite(0)
    else Add(if events[0].Arrival? then events[0].bytesIn else Finite(0), BytesIn(events[1..]))
  }

  function BytesOut(events: seq<Event>): nat
    decreases |events|
  {
    if events == [] then 0 else (if events[0].Completion? then events[0].record.bytesOut else 0) + BytesOut(events[1..])
  }

  /** The records of the responses, in the order they were sent. */
  function Records(events: seq<Event>): seq<RequestRecord>
    decreases |events|
  {
    if events == [] then [] else (if events[0].Completion? then [events[0].record] else []) + Records(events[1..])
  }

  /**
   * Between resets the totals are lifetime sums: one request per arrival,
   * the inbound sizes added up (NaN poisons the sum), the outbound sizes
   * added up; and the log is the last `Capacity` records sent.
   */
  lemma {:induction false} RunWithoutReset(a: Aggregate, events: seq<Event>)
    requires NoReset(events)
    ensures Run(a, events).totalRequests == a.totalRequests + Arrivals(events)
    ensures Run(a, events).totalBytesIn == Add(a.totalBytesIn, BytesIn(events))
    ensures Run(a, events).totalBytesOut == a.totalBytesOut + BytesOut(events)
    ensures Run(a, events).startTime == a.startTime
    ensures Run(a, events).requestsLog == LogAll(a.requestsLog, Records(events))
    decreases |events|
  {
    if events != [] {
      var e, rest := events[0], events[1..];
      NoResetSplits(events);
      RunWithoutReset(Step(a, e), rest);
      RecordsSplit(a.requestsLog, events);
    }
  }

  /** The events after the first of a reset-free run are reset-free, and so is the first. */
  lemma NoResetSplits(events: seq<Event>)
    requires NoReset(events) && events != []
    ensures !events[0].ResetAt? && NoReset(events[1..])
  {
    var rest := events[1..];
    forall i | 0 <= i < |rest| ensures !rest[i].ResetAt? {
      assert rest[i] == events[i + 1];
    }
  }

  /** Logging the records of a run is logging the first event's record, then the others'. */
  lemma RecordsSplit(log: seq<RequestRecord>, events: seq<Event>)
    requires events != []
    ensures LogAll(log, Records(events))
              == LogAll(if events[0].Completion? then Logged(log, events[0].record) else log, Records(events[1..]))
  {
    if events[0].Completion? {
      var records := Records(events);
      assert records[0] == events[0].record;
      assert records[1..] == Records(events[1..]);
    } else {
      assert Records(events) == Records(events[1..]);
    }
  }

  /**
   * The request count and the outbound total never decrease between resets.
   * The inbound total does not decrease either as long as every
   * Content-Length read was a non-negative number.
   */
  lemma TotalsGrowWithoutReset(a: Aggregate, events: seq<Event>)
    requires NoReset(events)
    ensures Run(a, events).totalRequests >= a.totalRequests
    ensures Run(a, events).totalBytesOut >= a.totalBytesOut
    ensures a.totalBytesIn.Finite? && BytesIn(events).Finite? && BytesIn(events).value >= 0
            ==> Run(a, events).totalBytesIn.Finite? && Run(a, events).totalBytesIn.value >= a.totalBytesIn.value
  {
    RunWithoutReset(a, events);
  }

  /** Once the inbound total is NaN it stays NaN until the next reset. */
  lemma NaNPoisonsBytesIn(a: Aggregate, events: seq<Event>)
    requires NoReset(events) && a.totalBytesIn == NaN
    ensures Run(a, events).totalBytesIn == NaN
  {
    RunWithoutReset(a, events);
  }

  /** A reset forgets everything before it: the run continues as from a fresh store. */
  lemma {:induction false} ResetForgetsHistory(a: Aggregate, before: seq<Event>, now: int, after: seq<Event>)
    ensures Run(a, before + [ResetAt(now)] + after) == Run(Fresh(now), after)
    decreases |before|
  {
    if before == [] {
      assert before + [ResetAt(now)] + after == [ResetAt(now)] + after;
      assert ([ResetAt(now)] + after)[1..] == after;
    } else {
      ResetForgetsHistory(Step(a, before[0]), before[1..], now, after);
      assert (before + [ResetAt(now)] + after)[1..] == before[1..] + [ResetAt(now)] + after;
    }
  }

  /** The report of the bandwidth route, without its unit conversions and uptime. */
  datatype BandwidthReport = BandwidthReport(
    sessionRequests: nat,
    sessionBytesIn: Number,
    sessionBytesOut: nat,
    recentRequests: seq<RequestRecord>,
    trackingSince: int)

  /** The report: the raw totals, the last `ReportWindow` log records oldest first, and the start instant. */
  function ReportOf(a: Aggregate): (r: BandwidthReport)
    ensures r.sessionRequests == a.totalRequests
    ensures r.sessionBytesIn == a.totalBytesIn && r.sessionBytesOut == a.totalBytesOut
    ensures r.trackingSince == a.startTime
    ensures |r.recentRequests| == Min(ReportWindow, |a.requestsLog|)
    ensures forall i :: 0 <= i < |r.recentRequests| ==>
              r.recentRequests[i] == a.requestsLog[|a.requestsLog| - |r.recentRequests| + i]
  {
    BandwidthReport(a.totalRequests, a.totalBytesIn, a.totalBytesOut, Slice(a.requestsLog, -ReportWindow), a.startTime)
  }

  /** A report right after a reset shows zero totals and no requests, whatever came before. */
  lemma ReportAfterReset(a: Aggregate, now: int)
    ensures ReportOf(Step(a, ResetAt(now))) == BandwidthReport(0, Finite(0), 0, [], now)
  {
  }

  /**
   * A header like `-5` is read as a negative length, so an arrival can lower
   * the inbound total: the totals are not monotone in general.
   */
  lemma NegativeContentLengthLowersBytesIn(a: Aggregate, n: nat)
    requires n > 0 && a.totalBytesIn.Finite?
    ensures Step(a, Arrival(ContentLength(Some("-" + Format(n, 10))))).totalBytesIn.value < a.totalBytesIn.value
  {
    ContentLengthReadsDecimal("", "-", n);
    assert "" + "-" + Format(n, 10) == "-" + Format(n, 10);
  }

  /** A header that is not a number makes the inbound total NaN. */
  lemma NonNumericContentLengthPoisons(a: Aggregate, c: char, rest: string)
    requires !IsDigit(c, 10) && !IsStrWhiteSpace(c) && c != '+' && c != '-'
    ensures Step(a, Arrival(ContentLength(Some([c] + rest)))).totalBytesIn == NaN
  {
    ContentLengthNonNumeric(c, rest);
  }

  /**
   * The reset request itself straddles two epochs: it is counted on arrival in
   * the store it then replaces, and its response is measured and logged in the
   * fresh one, which therefore reports no requests yet holds one record.
   */
  lemma ResetRequestSpansTwoEpochs(a: Aggregate, bytesIn: Number, now: int, response: RequestRecord)
    ensures var b := Run(a, [Arrival(bytesIn), ResetAt(now), Completion(response)]);
            b.totalRequests == 0 && b.totalBytesIn == Finite(0) && b.totalBytesOut == response.bytesOut
            && b.startTime == now && b.requestsLog == [response]
            && ReportOf(b).sessionRequests == 0 && ReportOf(b).recentRequests == [response]
  {
    var events := [Arrival(bytesIn), ResetAt(now), Completion(response)];
    assert events[1..] == [ResetAt(now), Completion(response)];
    assert events[1..][1..] == [Completion(response)];
    assert Run(a, events) == Run(Fresh(now), [Completion(response)]);
  }

  /**
   * The store at one instant. Its fields are updated in place by the
   * tracking middleware and all replaced at once by the reset route.
   */
  class StatsStore {
    var totalRequests: nat
    var totalBytesIn: Number
    var totalBytesOut: nat
    var startTime: int
    var requestsLog: seq<RequestRecord>

    ghost predicate Valid()
      reads this
    {
      |requestsLog| <= Capacity
    }

    function Snapshot(): (a: Aggregate)
      reads this
    {
      Aggregate(totalRequests, totalBytesIn, totalBytesOut, startTime, requestsLog)
    }

    /** The store created at process start. */
    constructor (now: int)
      ensures Valid() && Snapshot() == Fresh(now)
    {
      totalRequests, totalBytesIn, totalBytesOut, startTime, requestsLog := 0, Finite(0), 0, now, [];
    }

    /**
     * A request arrives: count it and add its declared Content-Length to the
     * inbound total. What the response will need is returned.
     */
    method Arrive(contentLengthHeader: Option<string>, now: int) returns (request: InFlight)
      modifies this
      ensures Valid() == old(Valid())
      ensures request == InFlight(ContentLength(contentLengthHeader), now)
      ensures totalRequests == old(totalRequests) + 1
      ensures totalBytesIn == Add(old(totalBytesIn), request.bytesIn)
      ensures totalBytesOut == old(totalBytesOut) && startTime == old(startTime) && requestsLog == old(requestsLog)
      ensures Snapshot() == Step(old(Snapshot()), Arrival(request.bytesIn))
    {
      var contentLength := ContentLength(contentLengthHeader);
      totalBytesIn := Add(totalBytesIn, contentLength);
      totalRequests := totalRequests + 1;
      request := InFlight(contentLength, now);
    }

    /**
     * The response to `request` is sent with `data`: add its size to the
     * outbound total and log it, keeping the last `Capacity` records. The
     * method and URL are those the live request carries at this moment.
     */
    method Send(request: InFlight, httpMethod: string, url: string, data: Payload, now: int)
      modifies this
      ensures Valid()
      ensures totalBytesOut == old(totalBytesOut) + ResponseSize(data)
      ensures totalRequests == old(totalRequests) && totalBytesIn == old(totalBytesIn) && startTime == old(startTime)
      ensures requestsLog == Logged(old(requestsLog), Answered(request, httpMethod, url, ResponseSize(data), now))
      ensures requestsLog[|requestsLog| - 1].httpMethod == httpMethod && requestsLog[|requestsLog| - 1].url == url
      ensures requestsLog[|requestsLog| - 1].bytesIn == request.bytesIn
      ensures requestsLog[|requestsLog| - 1].bytesOut == ResponseSize(data)
      ensures Snapshot() == Step(old(Snapshot()), Completion(Answered(request, httpMethod, url, ResponseSize(data), now)))
    {
      var responseSize := ResponseSize(data);
      totalBytesOut := totalBytesOut + responseSize;
      requestsLog := requestsLog + [Answered(request, httpMethod, url, responseSize, now)];
      if |requestsLog| > Capacity {
        requestsLog := Slice(requestsLog, -Capacity);
      }
    }

    /** The reset route: every field replaced at once by those of a fresh store. */
    method Reset(now: int)
      modifies this
      ensures Valid() && Snapshot() == Fresh(now)
    {
      totalRequests, totalBytesIn, totalBytesOut, startTime, requestsLog := 0, Finite(0), 0, now, [];
    }

    /** The bandwidth route: a read-only projection of the store. */
    method Report() returns (r: BandwidthReport)
      ensures r == ReportOf(Snapshot())
    {
      r := BandwidthReport(totalRequests, totalBytesIn, totalBytesOut, Slice(requestsLog, -ReportWindow), startTime);
    }
  }
}
