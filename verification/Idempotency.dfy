/**
 * The idempotency middleware as steps of concurrent requests on one collection of records. A
 * record is the lock and, later, the stored response; saving or releasing it is a separate step
 * after the response has gone out. The records' expiry after a day is not part of this model.
 */
module Idempotency {
  import opened Prelude

  type RequestId = nat

  datatype Reply = Reply(status: int, body: string)

  /** `owner` is a history variable: the request that inserted the record. */
  datatype Record = Record(inFlight: bool, response: Reply, owner: RequestId)

  const NO_RESPONSE := Reply(0, "")

  /**
   * Where a request stands. Looked: it found no record. Running: it holds the lock and its handler
   * runs. Settling: its response is out and its save (below 500) or release is under way. Errored:
   * the insert failed for another reason than a duplicate, and the error was passed on.
   */
  datatype Phase =
    | Looked
    | Running
    | Settling(reply: Reply)
    | Finished(own: Reply)
    | Conflict
    | Errored
    | Replayed(stored: Reply)

  datatype Request = Request(key: string, phase: Phase)

  /** `started` and `kept` are history variables: the handlers started, and per key the first response to be kept. */
  datatype State = State(records: map<string, Record>, requests: map<RequestId, Request>,
                         started: seq<RequestId>, kept: map<string, Reply>)

  datatype Step =
    | Find(id: RequestId, key: string)
    | Create(id: RequestId)
    | CreateFails(id: RequestId)
    | Respond(id: RequestId, reply: Reply)
    | Settle(id: RequestId, stored: bool)

  predicate Cacheable(reply: Reply) {
    200 <= reply.status < 500
  }

  function DoFind(s: State, id: RequestId, key: string): State {
    if id in s.requests then s
    else
      var phase := if key !in s.records then Looked
                   else if s.records[key].inFlight then Conflict
                   else Replayed(s.records[key].response);
      s.(requests := s.requests[id := Request(key, phase)])
  }

  function DoCreate(s: State, id: RequestId): State {
    if !At(s, id, Looked) then s
    else
      var key := s.requests[id].key;
      if key in s.records then s.(requests := s.requests[id := Request(key, Conflict)])
      else s.(records := s.records[key := Record(true, NO_RESPONSE, id)],
              requests := s.requests[id := Request(key, Running)],
              started := s.started + [id])
  }

  function DoCreateFails(s: State, id: RequestId): State {
    if !At(s, id, Looked) then s else s.(requests := s.requests[id := s.requests[id].(phase := Errored)])
  }

  function DoRespond(s: State, id: RequestId, reply: Reply): State {
    if !At(s, id, Running) then s
    else
      var key := s.requests[id].key;
      s.(requests := s.requests[id := Request(key, Settling(reply))],
         kept := if Cacheable(reply) && key !in s.kept then s.kept[key := reply] else s.kept)
  }

  /** The settling write may fail, and is then only logged. */
  function DoSettle(s: State, id: RequestId, stored: bool): State {
    if id !in s.requests || !s.requests[id].phase.Settling? then s
    else
      var key, reply := s.requests[id].key, s.requests[id].phase.reply;
      s.(requests := s.requests[id := Request(key, Finished(reply))],
         records := if !stored || key !in s.records then s.records
                    else if Cacheable(reply) then s.records[key := s.records[key].(inFlight := false, response := reply)]
                    else s.records - {key})
  }

  /** A step that does not apply changes nothing. */
  function Next(s: State, step: Step): State {
    match step
    case Find(id, key) => DoFind(s, id, key)
    case Create(id) => DoCreate(s, id)
    case CreateFails(id) => DoCreateFails(s, id)
    case Respond(id, reply) => DoRespond(s, id, reply)
    case Settle(id, stored) => DoSettle(s, id, stored)
  }

  predicate At(s: State, id: RequestId, phase: Phase) {
    id in s.requests && s.requests[id].phase == phase
  }

  const INITIAL := State(map[], map[], [], map[])

  function After(steps: seq<Step>): State {
    if steps == [] then INITIAL else Next(After(steps[..|steps| - 1]), steps[|steps| - 1])
  }

  /** The middleware as it runs: each method is what one request does between two awaits. */
  class Middleware {
    var records: map<string, Record>
    var requests: map<RequestId, Request>
    ghost var started: seq<RequestId>
    ghost var kept: map<string, Reply>

    ghost function View(): State
      reads this
    {
      State(records, requests, started, kept)
    }

    constructor ()
      ensures View() == INITIAL
    {
      records, requests, started, kept := map[], map[], [], map[];
    }

    /** Without a key the handler runs unguarded, and nothing is recorded. */
    method OnRequest(id: RequestId, header: Option<string>) returns (phase: Option<Phase>)
      requires id !in requests
      modifies this
      ensures header.None? || header.value == "" ==> phase == None && View() == old(View())
      ensures header.Some? && header.value != "" ==>
        View() == Next(old(View()), Find(id, header.value)) && phase == Some(requests[id].phase)
    {
      if header.None? || header.value == "" {
        return None;
      }
      var key := header.value;
      if key in records {
        if records[key].inFlight {
          phase := Some(Conflict);
        } else {
          phase := Some(Replayed(records[key].response));
        }
      } else {
        phase := Some(Looked);
      }
      requests := requests[id := Request(key, phase.value)];
    }

    /** The insert; `failed` is an error other than that of the unique index. */
    method Acquire(id: RequestId, failed: bool)
      requires At(View(), id, Looked)
      modifies this
      ensures View() == Next(old(View()), if failed then CreateFails(id) else Create(id))
    {
      var key := requests[id].key;
      if failed {
        requests := requests[id := Request(key, Errored)];
        return;
      }
      if key in records {
        requests := requests[id := Request(key, Conflict)];
        return;
      }
      records := records[key := Record(true, NO_RESPONSE, id)];
      requests := requests[id := Request(key, Running)];
      started := started + [id];
    }

    method Json(id: RequestId, reply: Reply)
      requires At(View(), id, Running)
      modifies this
      ensures View() == Next(old(View()), Respond(id, reply))
    {
      var key := requests[id].key;
      requests := requests[id := Request(key, Settling(reply))];
      if Cacheable(reply) && key !in kept {
        kept := kept[key := reply];
      }
    }

    method SaveOrRelease(id: RequestId, stored: bool)
      requires id in requests && requests[id].phase.Settling?
      modifies this
      ensures View() == Next(old(View()), Settle(id, stored))
    {
      var key, reply := requests[id].key, requests[id].phase.reply;
      requests := requests[id := Request(key, Finished(reply))];
      if stored && key in records {
        if Cacheable(reply) {
          records := records[key := records[key].(inFlight := false, response := reply)];
        } else {
          records := records - {key};
        }
      }
    }
  }

  // ----- the invariant -----

  /** A request that holds its key's lock, up to and including its late write. */
  predicate Holds(s: State, id: RequestId) {
    id in s.requests && (s.requests[id].phase.Running? || s.requests[id].phase.Settling?)
  }

  /** Holders own the in-flight record of their key. */
  ghost predicate HoldersOwn(s: State) {
    forall id | Holds(s, id) ::
      && s.requests[id].key in s.records
      && s.records[s.requests[id].key].inFlight
      && s.records[s.requests[id].key].owner == id
  }

  /** A kept response stays behind a record: either stored there, or the lock of the request that gave it. */
  ghost predicate KeptIsGuarded(s: State) {
    forall key | key in s.kept ::
      && key in s.records
      && (!s.records[key].inFlight ==> s.records[key].response == s.kept[key])
      && (forall id | Holds(s, id) && s.requests[id].key == key :: s.requests[id].phase == Settling(s.kept[key]))
  }

  ghost predicate StoredIsKept(s: State) {
    forall key | key in s.records && !s.records[key].inFlight :: key in s.kept
  }

  ghost predicate CacheableEndsAreKept(s: State) {
    forall id | id in s.requests && s.requests[id].phase.Settling? && Cacheable(s.requests[id].phase.reply) ::
      s.requests[id].key in s.kept
  }

  ghost predicate ReplaysAreKept(s: State) {
    forall id | id in s.requests && s.requests[id].phase.Replayed? ::
      s.requests[id].key in s.kept && s.requests[id].phase.stored == s.kept[s.requests[id].key]
  }

  ghost predicate Inv(s: State) {
    HoldersOwn(s) && KeptIsGuarded(s) && StoredIsKept(s) && CacheableEndsAreKept(s) && ReplaysAreKept(s)
    && forall key | key in s.kept :: Cacheable(s.kept[key])
  }

  lemma {:induction false} FindKeepsInv(s: State, id: RequestId, key: string)
    requires Inv(s)
    ensures Inv(DoFind(s, id, key))
  {
    var t := DoFind(s, id, key);
    assert forall i :: Holds(t, i) <==> Holds(s, i);
  }

  lemma {:induction false} CreateKeepsInv(s: State, id: RequestId)
    requires Inv(s)
    ensures Inv(DoCreate(s, id))
  {
    if At(s, id, Looked) {
      if s.requests[id].key in s.records { MeetingKeepsInv(s, id); } else { LockingKeepsInv(s, id); }
    }
  }

  lemma {:induction false} MeetingKeepsInv(s: State, id: RequestId)
    requires Inv(s) && At(s, id, Looked) && s.requests[id].key in s.records
    ensures Inv(DoCreate(s, id))
  {
    var t := DoCreate(s, id);
    assert forall i :: Holds(t, i) <==> Holds(s, i);
  }

  lemma {:induction false} LockingKeepsInv(s: State, id: RequestId)
    requires Inv(s) && At(s, id, Looked) && s.requests[id].key !in s.records
    ensures Inv(DoCreate(s, id))
  {
    var t := DoCreate(s, id);
    assert forall i | i != id :: Holds(t, i) <==> Holds(s, i);
  }

  lemma {:induction false} CreateFailsKeepsInv(s: State, id: RequestId)
    requires Inv(s)
    ensures Inv(DoCreateFails(s, id))
  {
    var t := DoCreateFails(s, id);
    assert forall i :: Holds(t, i) <==> Holds(s, i);
  }

  lemma {:induction false} RespondKeepsInv(s: State, id: RequestId, reply: Reply)
    requires Inv(s)
    ensures Inv(DoRespond(s, id, reply))
  {
    if At(s, id, Running) { RunningKeepsInv(s, id, reply); }
  }

  lemma {:induction false} RunningKeepsInv(s: State, id: RequestId, reply: Reply)
    requires Inv(s) && At(s, id, Running)
    ensures Inv(DoRespond(s, id, reply))
  {
    var t := DoRespond(s, id, reply);
    assert forall i :: Holds(t, i) <==> Holds(s, i);
    assert Holds(s, id);
    RunningKeepsGuard(s, id, reply);
  }

  lemma {:induction false} RunningKeepsGuard(s: State, id: RequestId, reply: Reply)
    requires HoldersOwn(s) && KeptIsGuarded(s) && At(s, id, Running)
    ensures s.requests[id].key !in s.kept && KeptIsGuarded(DoRespond(s, id, reply))
  {
    var t := DoRespond(s, id, reply);
    assert forall i :: Holds(t, i) <==> Holds(s, i);
    assert Holds(s, id);
  }

  lemma {:induction false} SettleKeepsInv(s: State, id: RequestId, stored: bool)
    requires Inv(s)
    ensures Inv(DoSettle(s, id, stored))
  {
    var t := DoSettle(s, id, stored);
    if t != s {
      assert Holds(s, id);
      assert forall i | i != id :: Holds(t, i) <==> Holds(s, i);
      assert forall i | Holds(t, i) :: t.requests[i].key != s.requests[id].key;
    }
  }

  lemma {:induction false} StepKeepsInv(s: State, step: Step)
    requires Inv(s)
    ensures Inv(Next(s, step))
  {
    match step
    case Find(id, key) => FindKeepsInv(s, id, key);
    case Create(id) => CreateKeepsInv(s, id);
    case CreateFails(id) => CreateFailsKeepsInv(s, id);
    case Respond(id, reply) => RespondKeepsInv(s, id, reply);
    case Settle(id, stored) => SettleKeepsInv(s, id, stored);
  }

  lemma {:induction false} InvAlways(steps: seq<Step>)
    ensures Inv(After(steps))
  {
    if steps != [] {
      InvAlways(steps[..|steps| - 1]);
      StepKeepsInv(After(steps[..|steps| - 1]), steps[|steps| - 1]);
    }
  }

  // ----- what every run guarantees -----

  lemma {:induction false} AfterSnoc(steps: seq<Step>, step: Step)
    ensures After(steps + [step]) == Next(After(steps), step)
  {
    assert (steps + [step])[..|steps|] == steps;
  }

  /** At most one request per key runs its handler or has a write under way, and that write will hit its own record. */
  lemma MutualExclusion(steps: seq<Step>, a: RequestId, b: RequestId)
    requires Holds(After(steps), a) && Holds(After(steps), b)
    requires After(steps).requests[a].key == After(steps).requests[b].key
    ensures a == b
    ensures var s := After(steps);
      var key := s.requests[a].key;
      key in s.records && s.records[key].inFlight && s.records[key].owner == a
  {
    InvAlways(steps);
  }

  /** What has happened stays: responses kept, and requests known under their keys. */
  ghost predicate Remembers(s: State, t: State) {
    && (forall key | key in s.kept :: key in t.kept && t.kept[key] == s.kept[key])
    && (forall id | id in s.requests :: id in t.requests && t.requests[id].key == s.requests[id].key)
  }

  lemma {:induction false} StepRemembers(s: State, step: Step)
    ensures Remembers(s, Next(s, step))
  {
  }

  lemma {:induction false} HistoryStays(steps: seq<Step>, more: seq<Step>)
    ensures Remembers(After(steps), After(steps + more))
  {
    if more == [] {
      assert steps + more == steps;
    } else {
      var init, last := more[..|more| - 1], more[|more| - 1];
      HistoryStays(steps, init);
      assert steps + more == steps + init + [last];
      AfterSnoc(steps + init, last);
      StepRemembers(After(steps + init), last);
    }
  }

  /** The handlers started for one key. */
  function StartedFor(s: State, key: string): seq<RequestId> {
    StartedIn(s.started, s.requests, key)
  }

  function StartedIn(started: seq<RequestId>, requests: map<RequestId, Request>, key: string): seq<RequestId> {
    if started == [] then []
    else
      var last := started[|started| - 1];
      StartedIn(started[..|started| - 1], requests, key)
      + if last in requests && requests[last].key == key then [last] else []
  }

  lemma {:induction false} StartedInSame(started: seq<RequestId>, r: map<RequestId, Request>, t: map<RequestId, Request>, key: string)
    requires forall id | id in started :: id in r && id in t && r[id].key == t[id].key
    ensures StartedIn(started, r, key) == StartedIn(started, t, key)
  {
    if started != [] { StartedInSame(started[..|started| - 1], r, t, key); }
  }

  ghost predicate StartedAreKnown(s: State) {
    forall id | id in s.started :: id in s.requests
  }

  lemma {:induction false} StartedAlwaysKnown(steps: seq<Step>)
    ensures StartedAreKnown(After(steps))
  {
    if steps != [] { StartedAlwaysKnown(steps[..|steps| - 1]); }
  }

  lemma StepAfterKept(s: State, step: Step, key: string)
    requires Inv(s) && StartedAreKnown(s) && key in s.kept
    ensures StartedFor(Next(s, step), key) == StartedFor(s, key)
  {
    var t := Next(s, step);
    forall id | id in s.started ensures id in s.requests && id in t.requests && s.requests[id].key == t.requests[id].key { }
    StartedInSame(s.started, s.requests, t.requests, key);
    if t.started != s.started {
      StartedElsewhere(s, step.id, key);
    }
  }

  lemma {:induction false} StartedElsewhere(s: State, id: RequestId, key: string)
    requires KeptIsGuarded(s) && key in s.kept && DoCreate(s, id).started != s.started
    ensures var t := DoCreate(s, id); StartedIn(t.started, t.requests, key) == StartedIn(s.started, t.requests, key)
  {
    var t := DoCreate(s, id);
    assert t.started[..|s.started|] == s.started;
    assert t.requests[id].key != key;
  }

  /** Once a handler has ended with a status that is kept, no handler for its key ever starts again. */
  lemma {:induction false} KeptKeyNeverRunsAgain(steps: seq<Step>, more: seq<Step>, key: string)
    requires key in After(steps).kept
    ensures StartedFor(After(steps + more), key) == StartedFor(After(steps), key)
  {
    if more == [] {
      assert steps + more == steps;
    } else {
      var init, last := more[..|more| - 1], more[|more| - 1];
      KeptKeyNeverRunsAgain(steps, init, key);
      HistoryStays(steps, init);
      InvAlways(steps + init);
      StartedAlwaysKnown(steps + init);
      assert steps + more == steps + init + [last];
      AfterSnoc(steps + init, last);
      StepAfterKept(After(steps + init), last, key);
    }
  }

  /** A request that arrives after that is answered at once: with 409, or with exactly the kept response. */
  lemma LaterRequestsReplay(steps: seq<Step>, id: RequestId, key: string)
    requires key in After(steps).kept && id !in After(steps).requests
    ensures var s := After(steps + [Find(id, key)]);
      s.requests[id].phase == Conflict || s.requests[id].phase == Replayed(After(steps).kept[key])
  {
    InvAlways(steps);
    assert (steps + [Find(id, key)])[..|steps|] == steps;
  }

  /** A request that has found no record, and will not find the lock free either */
  predicate Barred(s: State, id: RequestId) {
    id in s.requests && s.requests[id].key in s.kept && (At(s, id, Looked) || At(s, id, Conflict) || At(s, id, Errored))
  }

  lemma {:induction false} StepKeepsBarred(s: State, step: Step, id: RequestId)
    requires Inv(s) && Barred(s, id)
    ensures Barred(Next(s, step), id)
  {
  }

  /** A request that had looked before the response was kept never runs: it stays there, meets the lock, or fails to insert. */
  lemma {:induction false} EarlierLookNeverRuns(steps: seq<Step>, more: seq<Step>, id: RequestId)
    requires Barred(After(steps), id)
    ensures Barred(After(steps + more), id)
  {
    if more == [] {
      assert steps + more == steps;
    } else {
      var init, last := more[..|more| - 1], more[|more| - 1];
      EarlierLookNeverRuns(steps, init, id);
      InvAlways(steps + init);
      assert steps + more == steps + init + [last];
      AfterSnoc(steps + init, last);
      StepKeepsBarred(After(steps + init), last, id);
    }
  }

  /** And its insert, when it comes, ends in 409. */
  lemma {:induction false} EarlierLookEndsInConflict(steps: seq<Step>, id: RequestId)
    requires At(After(steps), id, Looked) && After(steps).requests[id].key in After(steps).kept
    ensures At(After(steps + [Create(id)]), id, Conflict)
  {
    InvAlways(steps);
    assert (steps + [Create(id)])[..|steps|] == steps;
  }

  /** And whatever is ever replayed, to anyone, is the one response kept for the key. */
  lemma ReplaysAreExact(steps: seq<Step>, id: RequestId)
    requires id in After(steps).requests && After(steps).requests[id].phase.Replayed?
    ensures var s := After(steps);
      var key := s.requests[id].key;
      key in s.kept && s.requests[id].phase.stored == s.kept[key] && Cacheable(s.kept[key])
  {
    InvAlways(steps);
  }

  /** The key is free for another try exactly when its record is gone, and then nothing was kept for it. */
  lemma {:induction false} ReleaseAllowsRetry(steps: seq<Step>, id: RequestId, key: string)
    requires id !in After(steps).requests
    ensures var s := After(steps + [Find(id, key)] + [Create(id)]);
      At(s, id, Running) <==> key !in After(steps).records
    ensures key !in After(steps).records ==> key !in After(steps).kept
  {
    InvAlways(steps);
    AfterSnoc(steps, Find(id, key));
    AfterSnoc(steps + [Find(id, key)], Create(id));
  }

  /** The response of a handler that holds its key, and the write behind it */
  function Ending(id: RequestId, reply: Reply, stored: bool): seq<Step> {
    [Respond(id, reply)] + [Settle(id, stored)]
  }

  lemma {:induction false} AfterEnding(steps: seq<Step>, id: RequestId, reply: Reply, stored: bool)
    requires At(After(steps), id, Running)
    ensures var s, t := After(steps), After(steps + Ending(id, reply, stored));
      var key := s.requests[id].key;
      && key in s.records && key !in s.kept && t.requests == s.requests[id := Request(key, Finished(reply))] && t.started == s.started
      && t.kept == (if 200 <= reply.status < 500 then s.kept[key := reply] else s.kept)
      && t.records == (if !stored then s.records
                       else if 200 <= reply.status < 500 then s.records[key := Record(false, reply, id)]
                       else s.records - {key})
  {
    var s := After(steps);
    InvAlways(steps);
    assert Holds(s, id);
    RunningKeepsGuard(s, id, reply);
    AfterSnoc(steps, Respond(id, reply));
    AfterSnoc(steps + [Respond(id, reply)], Settle(id, stored));
    assert steps + Ending(id, reply, stored) == steps + [Respond(id, reply)] + [Settle(id, stored)];
    assert s.requests[id := Request(s.requests[id].key, Settling(reply))][id := Request(s.requests[id].key, Finished(reply))]
        == s.requests[id := Request(s.requests[id].key, Finished(reply))];
  }

  /** An insert that fails for another reason than a duplicate passes the error on, and takes no lock. */
  lemma {:induction false} OtherErrorsTakeNoLock(steps: seq<Step>, id: RequestId)
    requires At(After(steps), id, Looked)
    ensures var s, t := After(steps), After(steps + [CreateFails(id)]);
      At(t, id, Errored) && t.records == s.records && t.started == s.started
  {
    AfterSnoc(steps, CreateFails(id));
  }

  /** A handler that has ended with a status from 200 to 499, client errors included, was the last for its key, in every continuation. */
  lemma {:induction false} EndedBelow500NeverRunsAgain(steps: seq<Step>, more: seq<Step>, id: RequestId, reply: Reply)
    requires At(After(steps), id, Running) && 200 <= reply.status < 500
    ensures var s, t := After(steps), After(steps + [Respond(id, reply)] + more);
      var key := s.requests[id].key;
      key in t.kept && t.kept[key] == reply && StartedFor(t, key) == StartedFor(s, key)
  {
    var s := After(steps);
    var key := s.requests[id].key;
    InvAlways(steps);
    assert Holds(s, id);
    RunningKeepsGuard(s, id, reply);
    AfterSnoc(steps, Respond(id, reply));
    StartedAlwaysKnown(steps);
    StartedInSame(s.started, s.requests, After(steps + [Respond(id, reply)]).requests, key);
    KeptKeyNeverRunsAgain(steps + [Respond(id, reply)], more, key);
    HistoryStays(steps + [Respond(id, reply)], more);
  }

  /** A new request that comes to its insert right away */
  function Trying(id: RequestId, key: string): seq<Step> {
    [Find(id, key)] + [Create(id)]
  }

  /** A new request is answered with exactly that response, if its write has been made, and with 409 if the write was lost. */
  lemma {:induction false} EndedBelow500IsReplayed(steps: seq<Step>, id: RequestId, reply: Reply, stored: bool, other: RequestId)
    requires At(After(steps), id, Running) && 200 <= reply.status < 500 && other !in After(steps).requests
    ensures var key := After(steps).requests[id].key;
      At(After(steps + Ending(id, reply, stored) + [Find(other, key)]), other, if stored then Replayed(reply) else Conflict)
  {
    AfterEnding(steps, id, reply, stored);
    InvAlways(steps);
    assert Holds(After(steps), id);
    AfterSnoc(steps + Ending(id, reply, stored), Find(other, After(steps).requests[id].key));
  }

  /** A handler that has ended with any other status leaves the key free, for a new request to run, exactly if its delete is made. */
  lemma {:induction false} EndedOtherwiseRunsAgainIff(steps: seq<Step>, id: RequestId, reply: Reply, stored: bool, other: RequestId)
    requires At(After(steps), id, Running) && (reply.status < 200 || reply.status >= 500) && other !in After(steps).requests
    ensures var key := After(steps).requests[id].key;
      At(After(steps + Ending(id, reply, stored) + Trying(other, key)), other, Running) <==> stored
  {
    var key := After(steps).requests[id].key;
    var ended := steps + Ending(id, reply, stored);
    AfterEnding(steps, id, reply, stored);
    ReleaseAllowsRetry(ended, other, key);
    assert ended + Trying(other, key) == ended + [Find(other, key)] + [Create(other)];
  }
}
