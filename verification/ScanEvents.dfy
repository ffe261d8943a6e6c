/** The progress events a scan job publishes, and the language of complete event traces. */
module ScanEvents {

  datatype EventType = ProgressType | CompletedType | FailedType

  datatype EventStatus =
    | PendingPhase | RunningPhase | FetchingPhase | ParsingPhase | DetectingPhase
    | CompletedPhase | FailedPhase

  datatype Event = Event(kind: EventType, status: EventStatus, progress: nat)

  const QUEUED := Event(ProgressType, PendingPhase, 0)
  const PICKED_UP := Event(ProgressType, RunningPhase, 10)
  const FETCHING := Event(ProgressType, FetchingPhase, 20)
  const PARSING := Event(ProgressType, ParsingPhase, 60)
  const DETECTING := Event(ProgressType, DetectingPhase, 90)
  const EMAILS := Event(ProgressType, DetectingPhase, 95)
  const CRAWLED_EMAILS := Event(ProgressType, DetectingPhase, 96)
  const SCAN_COMPLETED := Event(CompletedType, CompletedPhase, 100)
  const SCAN_FAILED := Event(FailedType, FailedPhase, 0)

  /** The type test that ends a subscriber's stream. */
  predicate Terminal(e: Event) {
    e.kind == CompletedType || e.kind == FailedType
  }

  // The complete traces: a cache hit, a failed scan, and a successful scan whose e-mail
  // search emitted none, one or two extra events.
  const CACHE_HIT_TRACE: seq<Event> := [QUEUED, PICKED_UP]
  const FAILED_TRACE: seq<Event> := [QUEUED, PICKED_UP, FETCHING, SCAN_FAILED]
  const SCAN_PREFIX: seq<Event> := [QUEUED, PICKED_UP, FETCHING, PARSING, DETECTING]

  function EmailEvents(n: nat): seq<Event>
    requires n <= 2
  {
    [EMAILS, CRAWLED_EMAILS][..n]
  }

  ghost predicate SuccessTrace(t: seq<Event>) {
    exists n: nat :: n <= 2 && t == SCAN_PREFIX + EmailEvents(n) + [SCAN_COMPLETED]
  }

  ghost predicate CompleteTrace(t: seq<Event>) {
    t == CACHE_HIT_TRACE || t == FAILED_TRACE || SuccessTrace(t)
  }

  /** Some complete trace extends t. */
  ghost predicate TracePrefix(t: seq<Event>) {
    exists full :: CompleteTrace(full) && t <= full
  }

  /** What a reader of the stream may rely on at any moment. */
  ghost predicate WellOrdered(t: seq<Event>) {
    && (forall i :: 0 <= i < |t| - 1 ==> !Terminal(t[i]))
    && (forall i, j :: 0 <= i < j < |t| && !Terminal(t[j]) ==> t[i].progress < t[j].progress)
    && (|t| > 0 ==> t[0] == QUEUED)
    && |t| <= 8
  }

  lemma SuccessIsWellOrdered(t: seq<Event>)
    requires SuccessTrace(t)
    ensures WellOrdered(t)
  {
    var n: nat :| n <= 2 && t == SCAN_PREFIX + EmailEvents(n) + [SCAN_COMPLETED];
    var longest := SCAN_PREFIX + [EMAILS, CRAWLED_EMAILS] + [SCAN_COMPLETED];
    assert forall i :: 0 <= i < 7 && i < |t| - 1 ==> t[i] == longest[i];
  }

  /** Progress rises strictly until the terminal event, which is unique and last. */
  lemma PrefixIsWellOrdered(t: seq<Event>)
    requires TracePrefix(t)
    ensures WellOrdered(t)
  {
    var full :| CompleteTrace(full) && t <= full;
    if SuccessTrace(full) {
      SuccessIsWellOrdered(full);
    }
    assert WellOrdered(full);
    assert forall i :: 0 <= i < |t| ==> t[i] == full[i];
  }
}
