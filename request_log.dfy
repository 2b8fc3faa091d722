/**
 * The request log of the bandwidth store: one record per response sent,
 * oldest first, of which only the last ten are kept.
 */
module RequestLog {
  import opened JsNumbers

  /** How many records the log keeps (`slice(-10)` after each push). */
  const Capacity: int := 10

  /** What the middleware logs when a response is sent; times are milliseconds. */
  datatype RequestRecord = RequestRecord(
    timestamp: int,     // the instant the response was sent
    httpMethod: string, // the request's HTTP method (`req.method`)
    url: string,        // the request's URL (`req.url`) when the response is sent
    bytesIn: Number,    // the Content-Length read on arrival (possibly NaN)
    bytesOut: nat,      // the UTF-8 size of the payload sent
    responseTime: int)  // send instant minus arrival instant

  function Min(a: int, b: int): int {
    if a <= b then a else b
  }

  function Max(a: int, b: int): int {
    if a <= b then b else a
  }

  /**
   * `Array.prototype.slice(start)`: a negative `start` counts from the end, so
   * `slice(-k)` keeps the last `k` elements, or all of them when there are fewer.
   */
  function Slice<T>(s: seq<T>, start: int): (r: seq<T>)
    ensures start < 0 ==> |r| == Min(-start, |s|)
    ensures 0 <= start ==> |r| == Max(|s| - start, 0)
    ensures forall i :: 0 <= i < |r| ==> r[i] == s[|s| - |r| + i]
  {
    var from := if start < 0 then Max(|s| + start, 0) else Min(start, |s|);
    s[from..]
  }

  /** The log after a response: push the record, then keep the last `Capacity` if it grew past it. */
  function Logged(log: seq<RequestRecord>, record: RequestRecord): (r: seq<RequestRecord>)
    ensures |r| == Min(|log| + 1, Capacity)
    ensures r[|r| - 1] == record
    ensures forall i :: 0 <= i < |r| - 1 ==> r[i] == log[|log| + 1 - |r| + i]
    ensures |log| < Capacity ==> r == log + [record]
    ensures |log| == Capacity ==> r == log[1..] + [record]
  {
    var pushed := log + [record];
    if |pushed| > Capacity then Slice(pushed, -Capacity) else pushed
  }

  /** The log after sending `records` in order, starting from `log`. */
  function LogAll(log: seq<RequestRecord>, records: seq<RequestRecord>): seq<RequestRecord>
    decreases |records|
  {
    if records == [] then log else LogAll(Logged(log, records[0]), records[1..])
  }

  /** Keeping the last `k` twice, with more appended in between, is keeping the last `k` once. */
  lemma SliceOfSliceAppend<T>(s: seq<T>, t: seq<T>, k: int)
    requires k > 0
    ensures Slice(Slice(s, -k) + t, -k) == Slice(s + t, -k)
  {
    var a := Slice(Slice(s, -k) + t, -k);
    var b := Slice(s + t, -k);
    assert |a| == |b|;
    forall i | 0 <= i < |a| ensures a[i] == b[i] {
      var u := Slice(s, -k) + t;
      var j := |u| - |a| + i;
      if j >= |Slice(s, -k)| {
        assert u[j] == t[j - |Slice(s, -k)|];
      } else {
        assert u[j] == s[|s| - |Slice(s, -k)| + j];
      }
    }
  }

  /** A log within capacity is its own last `Capacity` records. */
  lemma SliceWithinCapacity(log: seq<RequestRecord>)
    requires |log| <= Capacity
    ensures Slice(log, -Capacity) == log
  {
  }

  /** One push within capacity is the last `Capacity` of the log with the record appended. */
  lemma LoggedIsSlice(log: seq<RequestRecord>, record: RequestRecord)
    requires |log| <= Capacity
    ensures Logged(log, record) == Slice(log + [record], -Capacity)
  {
    if |log| < Capacity { SliceWithinCapacity(log + [record]); }
  }

  /**
   * However many responses are sent, the log holds exactly the last
   * `Capacity` records of the old log followed by the new ones, in order.
   */
  lemma {:induction false} LogAllKeepsLast(log: seq<RequestRecord>, records: seq<RequestRecord>)
    requires |log| <= Capacity
    ensures LogAll(log, records) == Slice(log + records, -Capacity)
    decreases |records|
  {
    if records == [] {
      assert log + records == log;
      SliceWithinCapacity(log);
    } else {
      var pushed := log + [records[0]];
      var rest := records[1..];
      assert pushed + rest == log + records;
      LoggedIsSlice(log, records[0]);
      LogAllKeepsLast(Slice(pushed, -Capacity), rest);
      SliceOfSliceAppend(pushed, rest, Capacity);
    }
  }

  /**
   * Sending `Capacity + 1` responses into an empty log evicts exactly the
   * first: the log starts with the second record and ends with the last.
   */
  lemma FirstOfElevenIsEvicted(records: seq<RequestRecord>)
    requires |records| == Capacity + 1
    ensures LogAll([], records) == records[1..]
  {
    LogAllKeepsLast([], records);
    assert [] + records == records;
  }
}
