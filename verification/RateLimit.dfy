/**
 * The in-memory branch of the rate limiter: a fixed window per key that opens with the first
 * request after the previous window has ended. Times are milliseconds.
 */
module RateLimit {
  import opened Prelude

  datatype Record = Record(hits: nat, resetTime: int)

  /** `docs` marks a path under /api/docs, `bypass` a caller whose role is exempt. */
  datatype Request = Request(key: string, now: int, docs: bool, bypass: bool)

  datatype Headers = Headers(limit: nat, remaining: nat, resetSecs: int)

  datatype Response =
    | Unlimited
    | Next(headers: Headers)
    | TooManyRequests(headers: Headers, retryAfter: int)

  /** The record after one more counted request. */
  function Hit(found: Option<Record>, now: int, windowMs: int): Record {
    if found.None? || found.value.resetTime < now then Record(1, now + windowMs)
    else Record(found.value.hits + 1, found.value.resetTime)
  }

  function Respond(record: Record, now: int, max: nat): Response {
    var headers := Headers(max, MaxInt(0, max - record.hits), CeilDiv(record.resetTime, 1000));
    if record.hits > max then TooManyRequests(headers, MaxInt(1, CeilDiv(record.resetTime - now, 1000)))
    else Next(headers)
  }

  predicate Counted(r: Request, key: string) {
    !r.docs && !r.bypass && r.key == key
  }

  class RateLimiter {
    const windowMs: nat
    const max: nat
    var memoryCache: map<string, Record>

    constructor (windowMs: nat, max: nat)
      ensures this.windowMs == windowMs && this.max == max && memoryCache == map[]
    {
      this.windowMs := windowMs;
      this.max := max;
      this.memoryCache := map[];
    }

    function Found(key: string): Option<Record>
      reads this`memoryCache
    {
      if key in memoryCache then Some(memoryCache[key]) else None
    }

    method Handle(r: Request) returns (response: Response)
      modifies this`memoryCache
      ensures r.docs || r.bypass ==> response == Unlimited && memoryCache == old(memoryCache)
      ensures !(r.docs || r.bypass) ==>
        && memoryCache == old(memoryCache)[r.key := Hit(old(Found(r.key)), r.now, windowMs)]
        && response == Respond(memoryCache[r.key], r.now, max)
    {
      if r.docs || r.bypass {
        return Unlimited;
      }
      var found := Found(r.key);
      var record: Record;
      if found.None? || found.value.resetTime < r.now {
        record := Record(1, r.now + windowMs);
      } else {
        record := found.value.(hits := found.value.hits + 1);
      }
      memoryCache := memoryCache[r.key := record];
      return Respond(record, r.now, max);
    }

    /** A whole trace: every counted request is answered as ResponseTo says. */
    method HandleAll(trace: seq<Request>) returns (responses: seq<Response>)
      requires memoryCache == map[]
      modifies this`memoryCache
      ensures |responses| == |trace|
      ensures forall i | 0 <= i < |trace| :: responses[i] == ResponseTo(trace, i, windowMs, max)
    {
      responses := [];
      for n := 0 to |trace|
        invariant |responses| == n
        invariant forall i | 0 <= i < n :: responses[i] == ResponseTo(trace, i, windowMs, max)
        invariant forall k :: Found(k) == RecordAfter(trace[..n], k, windowMs)
      {
        assert trace[..n + 1][..n] == trace[..n];
        var response := Handle(trace[n]);
        responses := responses + [response];
      }
    }
  }

  // ----- traces -----

  /** What the cache holds for a key after a trace. */
  function RecordAfter(trace: seq<Request>, key: string, windowMs: nat): Option<Record> {
    if trace == [] then None
    else
      var r, before := trace[|trace| - 1], RecordAfter(trace[..|trace| - 1], key, windowMs);
      if Counted(r, key) then Some(Hit(before, r.now, windowMs)) else before
  }

  function ResponseTo(trace: seq<Request>, i: nat, windowMs: nat, max: nat): Response
    requires i < |trace|
  {
    var r := trace[i];
    if r.docs || r.bypass then Unlimited
    else Respond(Hit(RecordAfter(trace[..i], r.key, windowMs), r.now, windowMs), r.now, max)
  }

  ghost predicate Chronological(trace: seq<Request>) {
    forall i, j | 0 <= i <= j < |trace| :: trace[i].now <= trace[j].now
  }

  /** The record that the i-th request finds or makes. */
  function RecordAt(trace: seq<Request>, key: string, windowMs: nat, i: int): Record {
    if 0 <= i < |trace| then RecordAfter(trace[..i + 1], key, windowMs).GetOr(Record(0, 0)) else Record(0, 0)
  }

  predicate CountedAt(trace: seq<Request>, key: string, i: int) {
    0 <= i < |trace| && Counted(trace[i], key)
  }

  predicate AdmittedAt(trace: seq<Request>, key: string, windowMs: nat, max: nat, i: int) {
    CountedAt(trace, key, i) && RecordAt(trace, key, windowMs, i).hits <= max
  }

  /** Admission is what the response says. */
  lemma AdmissionIsNext(trace: seq<Request>, i: nat, windowMs: nat, max: nat)
    requires i < |trace| && Counted(trace[i], trace[i].key)
    ensures ResponseTo(trace, i, windowMs, max) == Respond(RecordAt(trace, trace[i].key, windowMs, i), trace[i].now, max)
    ensures ResponseTo(trace, i, windowMs, max).Next? <==> AdmittedAt(trace, trace[i].key, windowMs, max, i)
  {
    assert trace[..i + 1][..i] == trace[..i];
  }

  /** Between two points of a trace a window has either grown or been replaced by one that opened after its end. */
  lemma {:induction false} WindowsFollow(trace: seq<Request>, key: string, windowMs: nat, m: nat)
    requires m <= |trace| && RecordAfter(trace[..m], key, windowMs).Some?
    ensures RecordAfter(trace, key, windowMs).Some?
    ensures var r, s := RecordAfter(trace[..m], key, windowMs).value, RecordAfter(trace, key, windowMs).value;
      (s.resetTime == r.resetTime && s.hits >= r.hits) || s.resetTime > r.resetTime + windowMs
    decreases |trace|
  {
    if m == |trace| {
      assert trace[..m] == trace;
    } else {
      var init := trace[..|trace| - 1];
      assert init[..m] == trace[..m];
      WindowsFollow(init, key, windowMs, m);
    }
  }

  lemma CountedRecord(trace: seq<Request>, key: string, windowMs: nat, i: int)
    requires CountedAt(trace, key, i)
    ensures RecordAfter(trace[..i + 1], key, windowMs) == Some(RecordAt(trace, key, windowMs, i))
    ensures RecordAt(trace, key, windowMs, i) == Hit(RecordAfter(trace[..i], key, windowMs), trace[i].now, windowMs)
  {
    assert trace[..i + 1][..i] == trace[..i];
  }

  /** Two counted requests share a window, and then the later one has more hits, or are in windows apart. */
  lemma PairOfRequests(trace: seq<Request>, key: string, windowMs: nat, i: int, j: int)
    requires i < j && CountedAt(trace, key, i) && CountedAt(trace, key, j)
    ensures var r, s := RecordAt(trace, key, windowMs, i), RecordAt(trace, key, windowMs, j);
      (s.resetTime == r.resetTime && s.hits > r.hits) || s.resetTime > r.resetTime + windowMs
  {
    CountedRecord(trace, key, windowMs, i);
    CountedRecord(trace, key, windowMs, j);
    assert trace[..j][..i + 1] == trace[..i + 1];
    WindowsFollow(trace[..j], key, windowMs, i + 1);
  }

  /** A counted request falls inside its window. */
  lemma {:induction false} InsideWindow(trace: seq<Request>, key: string, windowMs: nat, i: int)
    requires Chronological(trace) && CountedAt(trace, key, i)
    ensures var r := RecordAt(trace, key, windowMs, i);
      r.hits >= 1 && r.resetTime - windowMs <= trace[i].now <= r.resetTime
  {
    CountedRecord(trace, key, windowMs, i);
    OpenedBefore(trace, key, windowMs, i);
  }

  lemma {:induction false} OpenedBefore(trace: seq<Request>, key: string, windowMs: nat, n: nat)
    requires Chronological(trace) && n < |trace|
    ensures var r := RecordAfter(trace[..n], key, windowMs);
      r.Some? ==> r.value.resetTime - windowMs <= trace[n].now
  {
    if n > 0 {
      assert trace[..n][..n - 1] == trace[..n - 1];
      OpenedBefore(trace, key, windowMs, n - 1);
    }
  }

  // ----- the bounds -----

  function AdmittedIn(trace: seq<Request>, key: string, windowMs: nat, max: nat, from: int, to: int): set<int> {
    set i | 0 <= i < |trace| && AdmittedAt(trace, key, windowMs, max, i) && from <= trace[i].now <= to
  }

  function AdmittedInWindow(trace: seq<Request>, key: string, windowMs: nat, max: nat, resetTime: int): set<int> {
    set i | 0 <= i < |trace| && AdmittedAt(trace, key, windowMs, max, i)
            && RecordAt(trace, key, windowMs, i).resetTime == resetTime
  }

  /** No window admits more than max requests. */
  lemma WindowAdmitsAtMostMax(trace: seq<Request>, key: string, windowMs: nat, max: nat, resetTime: int)
    requires Chronological(trace)
    ensures |AdmittedInWindow(trace, key, windowMs, max, resetTime)| <= max
  {
    var s := AdmittedInWindow(trace, key, windowMs, max, resetTime);
    var f := i => RecordAt(trace, key, windowMs, i).hits - 1;
    forall i | i in s ensures 0 <= f(i) < max {
      InsideWindow(trace, key, windowMs, i);
    }
    forall i, j | i in s && j in s && i != j ensures f(i) != f(j) {
      if i < j { PairOfRequests(trace, key, windowMs, i, j); } else { PairOfRequests(trace, key, windowMs, j, i); }
    }
    InjectionBound(s, f, max);
  }

  /** No interval as long as a window admits more than twice max requests. */
  lemma IntervalAdmitsAtMostTwiceMax(trace: seq<Request>, key: string, windowMs: nat, max: nat, from: int)
    requires Chronological(trace)
    ensures |AdmittedIn(trace, key, windowMs, max, from, from + windowMs)| <= 2 * max
  {
    var s := AdmittedIn(trace, key, windowMs, max, from, from + windowMs);
    if some :| some in s {
      var first := LeastElement(s, some);
      var opening := RecordAt(trace, key, windowMs, first).resetTime;
      var f := i => RecordAt(trace, key, windowMs, i).hits - 1
                    + (if RecordAt(trace, key, windowMs, i).resetTime == opening then 0 else max);
      forall i | i in s ensures 0 <= f(i) < 2 * max {
        InsideWindow(trace, key, windowMs, i);
      }
      forall i, j | i in s && j in s && i != j ensures f(i) != f(j) {
        TwoWindowsOnly(trace, key, windowMs, from, first, i, j);
        InsideWindow(trace, key, windowMs, i);
        InsideWindow(trace, key, windowMs, j);
      }
      InjectionBound(s, f, 2 * max);
    } else {
      assert s == {};
    }
  }

  /** Requests within one window's length of each other come from the first one's window or from one other. */
  lemma TwoWindowsOnly(trace: seq<Request>, key: string, windowMs: nat, from: int, first: int, i: int, j: int)
    requires Chronological(trace) && i != j && first <= i && first <= j
    requires forall n | n in {first, i, j} :: CountedAt(trace, key, n) && from <= trace[n].now <= from + windowMs
    ensures var w, r, s := RecordAt(trace, key, windowMs, first), RecordAt(trace, key, windowMs, i), RecordAt(trace, key, windowMs, j);
      && (r.resetTime == s.resetTime ==> r.hits != s.hits)
      && (r.resetTime == s.resetTime || r.resetTime == w.resetTime || s.resetTime == w.resetTime)
  {
    assert first in {first, i, j} && i in {first, i, j} && j in {first, i, j};
    InsideWindow(trace, key, windowMs, first);
    InsideWindow(trace, key, windowMs, i);
    InsideWindow(trace, key, windowMs, j);
    if first < i { PairOfRequests(trace, key, windowMs, first, i); }
    if first < j { PairOfRequests(trace, key, windowMs, first, j); }
    if i < j { PairOfRequests(trace, key, windowMs, i, j); } else { PairOfRequests(trace, key, windowMs, j, i); }
  }

  /** One more request adds itself to its window's admissions, if it is admitted. */
  lemma AdmissionsSnoc(trace: seq<Request>, key: string, windowMs: nat, max: nat, resetTime: int)
    requires trace != []
    ensures var n := |trace| - 1;
      AdmittedInWindow(trace, key, windowMs, max, resetTime)
      == AdmittedInWindow(trace[..n], key, windowMs, max, resetTime)
         + if AdmittedAt(trace, key, windowMs, max, n) && RecordAt(trace, key, windowMs, n).resetTime == resetTime then {n} else {}
  {
    var n := |trace| - 1;
    var init := trace[..n];
    forall i | 0 <= i < n ensures RecordAt(trace, key, windowMs, i) == RecordAt(init, key, windowMs, i) {
      assert init[..i + 1] == trace[..i + 1];
    }
  }

  /** The window on record has admitted one request per hit, up to max. */
  lemma {:induction false} WindowIsFilled(trace: seq<Request>, key: string, windowMs: nat, max: nat)
    requires RecordAfter(trace, key, windowMs).Some?
    ensures var r := RecordAfter(trace, key, windowMs).value;
      |AdmittedInWindow(trace, key, windowMs, max, r.resetTime)| == if r.hits <= max then r.hits else max
  {
    var n := |trace| - 1;
    var r := RecordAfter(trace, key, windowMs).value;
    AdmissionsSnoc(trace, key, windowMs, max, r.resetTime);
    if !Counted(trace[n], key) {
      WindowIsFilled(trace[..n], key, windowMs, max);
    } else {
      CountedRecord(trace, key, windowMs, n);
      assert trace[..n + 1] == trace;
      if r.hits > 1 {
        WindowIsFilled(trace[..n], key, windowMs, max);
      } else {
        NothingAdmittedBefore(trace, key, windowMs, max);
      }
    }
  }

  lemma NothingAdmittedBefore(trace: seq<Request>, key: string, windowMs: nat, max: nat)
    requires trace != [] && CountedAt(trace, key, |trace| - 1)
    requires RecordAt(trace, key, windowMs, |trace| - 1).hits <= 1
    ensures var n := |trace| - 1;
      AdmittedInWindow(trace[..n], key, windowMs, max, RecordAt(trace, key, windowMs, n).resetTime) == {}
  {
    var n := |trace| - 1;
    var init := trace[..n];
    var before := AdmittedInWindow(init, key, windowMs, max, RecordAt(trace, key, windowMs, n).resetTime);
    forall i ensures i !in before {
      if CountedAt(init, key, i) {
        assert init[..i + 1] == trace[..i + 1];
        NewWindow(trace, key, windowMs, i, n);
      }
    }
  }

  lemma NewWindow(trace: seq<Request>, key: string, windowMs: nat, i: int, n: int)
    requires i < n && CountedAt(trace, key, i) && CountedAt(trace, key, n)
    requires RecordAt(trace, key, windowMs, n).hits <= 1
    ensures RecordAt(trace, key, windowMs, i).resetTime != RecordAt(trace, key, windowMs, n).resetTime
  {
    PairOfRequests(trace, key, windowMs, i, n);
    CountedRecord(trace, key, windowMs, i);
  }

  /** A request is turned away exactly when its window has already admitted max others. */
  lemma RejectedIffWindowIsFull(trace: seq<Request>, i: nat, windowMs: nat, max: nat)
    requires i < |trace| && Counted(trace[i], trace[i].key)
    ensures var key := trace[i].key;
      ResponseTo(trace, i, windowMs, max).TooManyRequests? <==>
      (var found := RecordAfter(trace[..i], key, windowMs);
       if found.None? || found.value.resetTime < trace[i].now then max == 0
       else |AdmittedInWindow(trace[..i], key, windowMs, max, found.value.resetTime)| == max)
  {
    var key := trace[i].key;
    if RecordAfter(trace[..i], key, windowMs).Some? {
      WindowIsFilled(trace[..i], key, windowMs, max);
    }
  }

  /** Documentation paths and exempt callers are let through, exactly they, and leave no trace for any key. */
  lemma {:induction false} ExemptLeaveNoTrace(trace: seq<Request>, r: Request, key: string, windowMs: nat, max: nat)
    ensures ResponseTo(trace + [r], |trace|, windowMs, max).Unlimited? <==> r.docs || r.bypass
    ensures r.docs || r.bypass ==> RecordAfter(trace + [r], key, windowMs) == RecordAfter(trace, key, windowMs)
  {
    assert (trace + [r])[..|trace|] == trace;
  }

  /** What every answer's headers say: the maximum, what is left of it in the window, and the second in which the window ends. */
  lemma {:induction false} HeadersCount(trace: seq<Request>, i: nat, windowMs: nat, max: nat)
    requires i < |trace| && Counted(trace[i], trace[i].key)
    ensures var response := ResponseTo(trace, i, windowMs, max);
      var r := RecordAt(trace, trace[i].key, windowMs, i);
      && !response.Unlimited? && response.headers.limit == max
      && response.headers.remaining == max - |AdmittedInWindow(trace[..i + 1], trace[i].key, windowMs, max, r.resetTime)|
      && (forall second: int :: second >= response.headers.resetSecs <==> 1000 * second >= r.resetTime)
  {
    var key := trace[i].key;
    AdmissionIsNext(trace, i, windowMs, max);
    CountedRecord(trace, key, windowMs, i);
    WindowIsFilled(trace[..i + 1], key, windowMs, max);
    forall second: int ensures second >= CeilDiv(RecordAt(trace, key, windowMs, i).resetTime, 1000)
      <==> 1000 * second >= RecordAt(trace, key, windowMs, i).resetTime { }
  }

  /** Every 429 says when to come back: after the least whole number of seconds, but at least one, that reaches the window's end. */
  lemma {:induction false} RetryAfterIsLeast(trace: seq<Request>, i: nat, windowMs: nat, max: nat)
    requires i < |trace| && ResponseTo(trace, i, windowMs, max).TooManyRequests?
    ensures var end := RecordAt(trace, trace[i].key, windowMs, i).resetTime;
      var retryAfter := ResponseTo(trace, i, windowMs, max).retryAfter;
      forall seconds: int :: seconds >= retryAfter <==> seconds >= 1 && trace[i].now + 1000 * seconds >= end
  {
    AdmissionIsNext(trace, i, windowMs, max);
  }

  /** That is within a window. */
  lemma RetryAfterBounds(trace: seq<Request>, i: nat, windowMs: nat, max: nat)
    requires Chronological(trace) && i < |trace| && windowMs > 0
    ensures var response := ResponseTo(trace, i, windowMs, max);
      response.TooManyRequests? ==> 1 <= response.retryAfter <= CeilDiv(windowMs, 1000)
  {
    var r := trace[i];
    if Counted(r, r.key) {
      InsideWindow(trace, r.key, windowMs, i);
      AdmissionIsNext(trace, i, windowMs, max);
      CeilDivGrows(RecordAt(trace, r.key, windowMs, i).resetTime - r.now, windowMs, 1000);
      CeilDivGrows(1, windowMs, 1000);
    }
  }
}
