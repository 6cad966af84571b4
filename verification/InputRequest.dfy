/** One input request of a holder: coalescing, serving its events one by one, and its report. */
module InputRequest {
  import opened Wrappers
  import opened Vocabulary
  import opened ControlState

  // ----- coalescing -----

  /** Only the last of each run of consecutive pointer moves. */
  function Coalesced(events: seq<RawInput>): seq<RawInput> {
    if |events| <= 1 then events
    else if events[0].PointerMove? && events[1].PointerMove? then Coalesced(events[1..])
    else [events[0]] + Coalesced(events[1..])
  }

  ghost predicate NoAdjacentMoves(events: seq<RawInput>) {
    forall i :: 0 < i < |events| ==> !(events[i - 1].PointerMove? && events[i].PointerMove?)
  }

  /** An event the session sees, with the pointer position it acts at. */
  datatype Sight = Sight(event: RawInput, at: Option<(nat, nat)>)

  datatype Seen = Seen(sights: seq<Sight>, held: set<Held>, pointer: Option<(nat, nat)>)

  /** What the session sees of `events`: every event but the moves, and where everything ends. */
  function Watch(events: seq<RawInput>, held: set<Held>, pointer: Option<(nat, nat)>): Seen
    decreases |events|
  {
    if events == [] then Seen([], held, pointer)
    else if events[0].PointerMove? then Watch(events[1..], held, Some((events[0].x, events[0].y)))
    else
      var rest := Watch(events[1..], Track(held, events[0]), pointer);
      rest.(sights := [Sight(events[0], pointer)] + rest.sights)
  }

  lemma {:induction false} CoalescedStartsAlike(events: seq<RawInput>)
    ensures events != [] ==> Coalesced(events) != [] && Coalesced(events)[0].PointerMove? == events[0].PointerMove?
    ensures events != [] && !events[0].PointerMove? ==> Coalesced(events)[0] == events[0]
    ensures NoAdjacentMoves(Coalesced(events))
    decreases |events|
  {
    if |events| > 1 {
      CoalescedStartsAlike(events[1..]);
    }
  }

  /** The session sees the same with and without coalescing, whatever is down and wherever the pointer is. */
  lemma {:induction false} CoalescingIsInvisible(events: seq<RawInput>, held: set<Held>, pointer: Option<(nat, nat)>)
    ensures Watch(Coalesced(events), held, pointer) == Watch(events, held, pointer)
    decreases |events|
  {
    if |events| > 1 {
      var rest := events[1..];
      if events[0].PointerMove? && rest[0].PointerMove? {
        CoalescingIsInvisible(rest, held, pointer);
        assert Watch(rest, held, pointer) == Watch(events, held, pointer);
      } else {
        assert Coalesced(events)[1..] == Coalesced(rest);
        if events[0].PointerMove? {
          CoalescingIsInvisible(rest, held, Some((events[0].x, events[0].y)));
        } else {
          CoalescingIsInvisible(rest, Track(held, events[0]), pointer);
        }
      }
    }
  }

  /** Coalescing drops moves only, and at most that. */
  lemma {:induction false} OnlyMovesAreDropped(events: seq<RawInput>)
    ensures |Coalesced(events)| <= |events|
    ensures Others(Coalesced(events)) == Others(events)
    decreases |events|
  {
    if |events| > 1 {
      OnlyMovesAreDropped(events[1..]);
      if !(events[0].PointerMove? && events[1].PointerMove?) {
        assert Coalesced(events)[1..] == Coalesced(events[1..]);
      }
    }
  }

  /** The events that are not moves, in order. */
  function Others(events: seq<RawInput>): seq<RawInput> {
    if events == [] then []
    else (if events[0].PointerMove? then [] else [events[0]]) + Others(events[1..])
  }

  lemma {:induction false} EarlierMoveIsDropped(before: seq<RawInput>, first: RawInput, after: seq<RawInput>)
    requires first.PointerMove? && after != [] && after[0].PointerMove?
    ensures Coalesced(before + [first] + after) == Coalesced(before + after)
    decreases |before|
  {
    if before == [] {
      assert before + [first] + after == [first] + after;
      assert ([first] + after)[1..] == after;
      assert before + after == after;
    } else {
      assert (before + [first] + after)[1..] == before[1..] + [first] + after;
      assert (before + after)[1..] == before[1..] + after;
      EarlierMoveIsDropped(before[1..], first, after);
    }
  }

  lemma {:induction false} CoalescedIsStable(events: seq<RawInput>)
    requires NoAdjacentMoves(events)
    ensures Coalesced(events) == events
    decreases |events|
  {
    if |events| > 1 {
      assert !(events[0].PointerMove? && events[1].PointerMove?);
      assert forall i :: 0 < i < |events[1..]| ==> events[1..][i - 1] == events[i] && events[1..][i] == events[i + 1];
      CoalescedIsStable(events[1..]);
    }
  }

  /** What is kept of the output when `event` comes next. */
  function Kept(out: seq<RawInput>, event: RawInput): seq<RawInput> {
    if out != [] && out[|out| - 1].PointerMove? && event.PointerMove? then out[..|out| - 1] else out
  }

  lemma KeptStaysApart(out: seq<RawInput>, event: RawInput)
    requires NoAdjacentMoves(out)
    ensures NoAdjacentMoves(Kept(out, event) + [event])
  {
    var next := Kept(out, event) + [event];
    assert forall i :: 0 <= i < |next| - 1 ==> next[i] == out[i];
  }

  /** One turn of the loop: what is out and what is left mean the same before and after. */
  lemma KeptMeansTheSame(out: seq<RawInput>, event: RawInput, rest: seq<RawInput>)
    ensures Coalesced(Kept(out, event) + [event] + rest) == Coalesced(out + ([event] + rest))
  {
    var kept := Kept(out, event);
    assert kept + [event] + rest == kept + ([event] + rest);
    if kept != out {
      EarlierMoveIsDropped(kept, out[|out| - 1], [event] + rest);
      assert out == kept + [out[|out| - 1]];
    }
  }

  /** One turn of the loop over `events`. */
  lemma KeepNext(out: seq<RawInput>, events: seq<RawInput>, i: nat)
    requires NoAdjacentMoves(out) && i < |events| && Coalesced(out + events[i..]) == Coalesced(events)
    ensures var next := Kept(out, events[i]) + [events[i]];
            NoAdjacentMoves(next) && Coalesced(next + events[i + 1..]) == Coalesced(events)
  {
    KeptStaysApart(out, events[i]);
    KeptMeansTheSame(out, events[i], events[i + 1..]);
    assert events[i..] == [events[i]] + events[i + 1..];
  }

  method Coalesce(events: seq<RawInput>) returns (out: seq<RawInput>)
    ensures out == Coalesced(events)
  {
    out := [];
    var i := 0;
    assert [] + events[0..] == events;
    while i < |events|
      invariant 0 <= i <= |events|
      invariant NoAdjacentMoves(out)
      invariant Coalesced(out + events[i..]) == Coalesced(events)
    {
      KeepNext(out, events, i);
      ghost var before := out;
      if out != [] && out[|out| - 1].PointerMove? && events[i].PointerMove? {
        out := out[..|out| - 1];
      }
      assert out == Kept(before, events[i]);
      out := out + [events[i]];
      i := i + 1;
    }
    assert out + events[i..] == out;
    CoalescedIsStable(out);
  }

  // ----- serving -----

  datatype SendAnswer = Accepted | RefusedAsStale | NotTaken

  /**
   What the request finds when it serves one event: the frame, the control state as the other tasks
   left it, the answer of the session loop to the send, and the control state after a refusal.
   */
  datatype Moment = Moment(frame: Option<(nat, nat)>, others: Control, now: nat, answer: SendAnswer, after: Control)

  /** A batch the request sends: one event, or the releases of a fence. */
  datatype Batch = EventBatch(event: RawInput, at: Epoch) | FenceBatch(buttons: set<Held>, at: Epoch)

  datatype Report = Report(applied: nat, stale: nat, geometry: nat, generation: nat, lost: Option<NotHeld>)

  datatype Served = Served(report: Report, available: bool, batches: seq<Batch>)

  const Nothing := Served(Report(0, 0, 0, 0, None), true, [])

  function LossAt(c: Control, id: LeaseId): Option<NotHeld> {
    if Holds(c, id) then None else Some(LossOf(c.ended, id))
  }

  /** What was served so far, and then the rest. */
  function Plus(done: Served, rest: Served): Served {
    rest.(report := rest.report.(applied := done.report.applied + rest.report.applied,
                                 geometry := done.report.geometry + rest.report.geometry),
          batches := done.batches + rest.batches)
  }

  /** One event that did not end the request. */
  function Step(done: Served, applied: nat, geometry: nat, batches: seq<Batch>): Served {
    Plus(done, Served(Report(applied, 0, geometry, 0, None), true, batches))
  }

  function FenceBatches(buttons: set<Held>, at: Epoch): seq<Batch> {
    if buttons == {} then [] else [FenceBatch(buttons, at)]
  }

  /** Serving one event ends the request or goes on to the next event. */
  datatype One = Ends(served: Served) | Goes(applied: nat, geometry: nat, batches: seq<Batch>)

  function EpochAt(m: Moment, captured: Option<Epoch>): Epoch {
    if captured.Some? then captured.value else m.others.epoch
  }

  /** Serve one event, when `left` events are not served yet, this one included. */
  function ServeOne(id: LeaseId, aimed: (nat, nat), event: RawInput, m: Moment, at: Epoch, left: nat): One {
    match CheckInput(m.others, id, event, aimed, m.frame, m.now).1
    case InputLost(why) => Ends(Served(Report(0, left, 0, 0, Some(why)), true, []))
    case Fenced(buttons) => Goes(0, 1, FenceBatches(buttons, at))
    case Tracked =>
      match m.answer
      case Accepted => Goes(1, 0, [EventBatch(event, at)])
      case RefusedAsStale => Ends(Served(Report(0, left, 0, 0, LossAt(m.after, id)), true, [EventBatch(event, at)]))
      case NotTaken => Ends(Served(Report(0, 0, 0, 0, None), false, [EventBatch(event, at)]))
  }

  /** Serve the events from `i` on in turn, where `captured` is the epoch of the first lease check. */
  function Serve(id: LeaseId, aimed: (nat, nat), events: seq<RawInput>, moments: seq<Moment>,
                 i: nat, captured: Option<Epoch>): Served
    requires i <= |events| <= |moments|
    decreases |events| - i
  {
    if i == |events| then Nothing
    else
      var at := EpochAt(moments[i], captured);
      match ServeOne(id, aimed, events[i], moments[i], at, |events| - i)
      case Ends(served) => served
      case Goes(applied, geometry, batches) =>
        Plus(Step(Nothing, applied, geometry, batches), Serve(id, aimed, events, moments, i + 1, Some(at)))
  }

  /** Whether the request ends with this event. */
  predicate EndsWith(id: LeaseId, aimed: (nat, nat), event: RawInput, m: Moment) {
    var check := CheckInput(m.others, id, event, aimed, m.frame, m.now).1;
    check.InputLost? || (check.Tracked? && !m.answer.Accepted?)
  }

  /** The control state after one event. */
  function AfterOne(id: LeaseId, aimed: (nat, nat), event: RawInput, m: Moment): Control {
    var (checked, answer) := CheckInput(m.others, id, event, aimed, m.frame, m.now);
    if answer.Tracked? && m.answer.RefusedAsStale? then m.after else checked
  }

  /** The control state after the events from `i` on, which start in `c`. */
  function AfterAll(id: LeaseId, aimed: (nat, nat), events: seq<RawInput>, moments: seq<Moment>, i: nat, c: Control)
    : Control
    requires i <= |events| <= |moments|
    decreases |events| - i
  {
    if i == |events| then c
    else
      var next := AfterOne(id, aimed, events[i], moments[i]);
      if EndsWith(id, aimed, events[i], moments[i]) then next
      else AfterAll(id, aimed, events, moments, i + 1, next)
  }

  lemma PlusAssociates(done: Served, applied: nat, geometry: nat, batches: seq<Batch>, rest: Served)
    ensures Plus(done, Plus(Step(Nothing, applied, geometry, batches), rest))
         == Plus(Step(done, applied, geometry, batches), rest)
  {
    assert done.batches + (batches + rest.batches) == (done.batches + batches) + rest.batches;
    assert [] + batches == batches;
  }

  /** What is served so far and the rest, before and after one event that goes on. */
  lemma ServeGoesOn(id: LeaseId, aimed: (nat, nat), events: seq<RawInput>, moments: seq<Moment>, i: nat,
                    captured: Option<Epoch>, done: Served, one: One)
    requires i < |events| <= |moments| && one.Goes?
    requires one == ServeOne(id, aimed, events[i], moments[i], EpochAt(moments[i], captured), |events| - i)
    ensures Plus(done, Serve(id, aimed, events, moments, i, captured))
         == Plus(Step(done, one.applied, one.geometry, one.batches),
                 Serve(id, aimed, events, moments, i + 1, Some(EpochAt(moments[i], captured))))
  {
    PlusAssociates(done, one.applied, one.geometry, one.batches,
                   Serve(id, aimed, events, moments, i + 1, Some(EpochAt(moments[i], captured))));
  }

  // ----- the report -----

  /** The lease is held when the event is checked, and the event aims at another frame. */
  predicate IsFenced(id: LeaseId, aimed: (nat, nat), event: RawInput, m: Moment) {
    Holds(m.others, id) && OffFrame(m.others.lease.value.held, event, aimed, m.frame)
  }

  /** The lease is held when the event is checked, and the event may be sent. */
  predicate IsSent(id: LeaseId, aimed: (nat, nat), event: RawInput, m: Moment) {
    Holds(m.others, id) && !OffFrame(m.others.lease.value.held, event, aimed, m.frame)
  }

  /** The first event from `i` on that finds the lease lost, or whose send is not accepted. */
  function StopAt(id: LeaseId, aimed: (nat, nat), events: seq<RawInput>, moments: seq<Moment>, i: nat): (stop: nat)
    requires i <= |events| <= |moments|
    ensures i <= stop <= |events|
    decreases |events| - i
  {
    if i == |events| || !Holds(moments[i].others, id) then i
    else if IsSent(id, aimed, events[i], moments[i]) && !moments[i].answer.Accepted? then i
    else StopAt(id, aimed, events, moments, i + 1)
  }

  /** How many of the events from `i` up to `n` are sent, or are fenced. */
  function HowMany(id: LeaseId, aimed: (nat, nat), events: seq<RawInput>, moments: seq<Moment>, i: nat, n: nat,
                   sent: bool): nat
    requires i <= n <= |events| <= |moments|
    decreases n - i
  {
    if i == n then 0
    else
      (if sent && IsSent(id, aimed, events[i], moments[i]) then 1
       else if !sent && IsFenced(id, aimed, events[i], moments[i]) then 1 else 0) +
      HowMany(id, aimed, events, moments, i + 1, n, sent)
  }

  /** Why the request stopped early: what the lease check found, or what the lease is after a stale send. */
  function WhyStopped(id: LeaseId, m: Moment): Option<NotHeld> {
    if !Holds(m.others, id) then Some(LossOf(m.others.ended, id))
    else if !Holds(m.after, id) then Some(LossOf(m.after.ended, id))
    else None
  }

  /**
   The whole report: up to where the request stops, the sent events are counted as applied and the fenced
   ones as fenced; from there on all are stale. There is no report exactly when the session does not take
   the event it stops at.
   */
  lemma {:induction false} ReportIsExact(id: LeaseId, aimed: (nat, nat), events: seq<RawInput>,
                                         moments: seq<Moment>, i: nat, captured: Option<Epoch>)
    requires i <= |events| <= |moments|
    ensures var served := Serve(id, aimed, events, moments, i, captured);
            var stop := StopAt(id, aimed, events, moments, i);
            && (!served.available <==>
                  stop < |events| && Holds(moments[stop].others, id) && moments[stop].answer.NotTaken?)
            && (served.available ==>
                  served.report ==
                  Report(HowMany(id, aimed, events, moments, i, stop, true), |events| - stop,
                         HowMany(id, aimed, events, moments, i, stop, false), 0,
                         if stop < |events| then WhyStopped(id, moments[stop]) else None))
    decreases |events| - i
  {
    if i < |events| {
      ReportIsExact(id, aimed, events, moments, i + 1, Some(EpochAt(moments[i], captured)));
    }
  }

  /** Every event is counted once: applied, stale or fenced. */
  lemma {:induction false} EveryEventIsCounted(id: LeaseId, aimed: (nat, nat), events: seq<RawInput>,
                                               moments: seq<Moment>, i: nat, captured: Option<Epoch>)
    requires i <= |events| <= |moments|
    ensures var served := Serve(id, aimed, events, moments, i, captured);
            && (served.available ==>
                  served.report.applied + served.report.stale + served.report.geometry == |events| - i)
            && (served.report.lost.Some? ==> served.report.stale > 0) && served.report.generation == 0
    decreases |events| - i
  {
    if i < |events| {
      EveryEventIsCounted(id, aimed, events, moments, i + 1, Some(EpochAt(moments[i], captured)));
    }
  }

  /** The whole request sends with the one epoch of its first lease check. */
  lemma {:induction false} OneEpochPerRequest(id: LeaseId, aimed: (nat, nat), events: seq<RawInput>,
                                              moments: seq<Moment>, i: nat, captured: Option<Epoch>)
    requires i < |events| <= |moments|
    ensures forall j :: 0 <= j < |Serve(id, aimed, events, moments, i, captured).batches| ==>
              Serve(id, aimed, events, moments, i, captured).batches[j].at == EpochAt(moments[i], captured)
    decreases |events| - i
  {
    if i + 1 < |events| {
      OneEpochPerRequest(id, aimed, events, moments, i + 1, Some(EpochAt(moments[i], captured)));
    }
  }

  /** The events of the batches. */
  function Sent(batches: seq<Batch>): seq<RawInput> {
    if batches == [] then []
    else (if batches[0].EventBatch? then [batches[0].event] else []) + Sent(batches[1..])
  }

  predicate Subsequence(part: seq<RawInput>, whole: seq<RawInput>) {
    if part == [] then true
    else if whole == [] then false
    else if part[0] == whole[0] && Subsequence(part[1..], whole[1..]) then true
    else Subsequence(part, whole[1..])
  }

  lemma {:induction false} SentAppend(first: seq<Batch>, second: seq<Batch>)
    ensures Sent(first + second) == Sent(first) + Sent(second)
  {
    if first == [] {
      assert first + second == second;
    } else {
      assert (first + second)[1..] == first[1..] + second;
      SentAppend(first[1..], second);
      var head := if first[0].EventBatch? then [first[0].event] else [];
      assert head + (Sent(first[1..]) + Sent(second)) == head + Sent(first[1..]) + Sent(second);
    }
  }

  lemma SubsequenceGrows(part: seq<RawInput>, event: RawInput, whole: seq<RawInput>)
    requires Subsequence(part, whole)
    ensures Subsequence(part, [event] + whole) && Subsequence([event] + part, [event] + whole)
  {
    assert ([event] + whole)[1..] == whole && ([event] + part)[1..] == part;
  }

  function BatchesOf(one: One): seq<Batch> {
    match one
    case Ends(served) => served.batches
    case Goes(_, _, batches) => batches
  }

  /** What a request sends from event `i` on, by batches. */
  lemma BatchesUnfold(id: LeaseId, aimed: (nat, nat), events: seq<RawInput>, moments: seq<Moment>, i: nat,
                      captured: Option<Epoch>)
    requires i < |events| <= |moments|
    ensures var at := EpochAt(moments[i], captured);
            Serve(id, aimed, events, moments, i, captured).batches ==
            BatchesOf(ServeOne(id, aimed, events[i], moments[i], at, |events| - i)) +
            if EndsWith(id, aimed, events[i], moments[i]) then []
            else Serve(id, aimed, events, moments, i + 1, Some(at)).batches
  {
  }

  /** The events from `i` on that pass their lease check, up to the one the request ends with. */
  function Passed(id: LeaseId, aimed: (nat, nat), events: seq<RawInput>, moments: seq<Moment>, i: nat): seq<RawInput>
    requires i <= |events| <= |moments|
    decreases |events| - i
  {
    if i == |events| then []
    else
      var m := moments[i];
      (if CheckInput(m.others, id, events[i], aimed, m.frame, m.now).1.Tracked? then [events[i]] else []) +
      (if EndsWith(id, aimed, events[i], m) then [] else Passed(id, aimed, events, moments, i + 1))
  }

  lemma OneIsSentIfPassed(id: LeaseId, aimed: (nat, nat), event: RawInput, m: Moment, at: Epoch, left: nat)
    ensures Sent(BatchesOf(ServeOne(id, aimed, event, m, at, left))) ==
            if CheckInput(m.others, id, event, aimed, m.frame, m.now).1.Tracked? then [event] else []
  {
  }

  /** Exactly the events that pass their check are sent, in the order of the request. */
  lemma {:induction false} EventsAreSentInOrder(id: LeaseId, aimed: (nat, nat), events: seq<RawInput>,
                                                moments: seq<Moment>, i: nat, captured: Option<Epoch>)
    requires i <= |events| <= |moments|
    ensures Sent(Serve(id, aimed, events, moments, i, captured).batches) == Passed(id, aimed, events, moments, i)
    decreases |events| - i
  {
    if i < |events| {
      var at := EpochAt(moments[i], captured);
      var one := BatchesOf(ServeOne(id, aimed, events[i], moments[i], at, |events| - i));
      var rest := if EndsWith(id, aimed, events[i], moments[i]) then []
                  else Serve(id, aimed, events, moments, i + 1, Some(at)).batches;
      EventsAreSentInOrder(id, aimed, events, moments, i + 1, Some(at));
      BatchesUnfold(id, aimed, events, moments, i, captured);
      OneIsSentIfPassed(id, aimed, events[i], moments[i], at, |events| - i);
      SentAppend(one, rest);
    }
  }

  /** So each is sent at most once, and none is invented or moved. */
  lemma {:induction false} PassedIsInOrder(id: LeaseId, aimed: (nat, nat), events: seq<RawInput>,
                                           moments: seq<Moment>, i: nat)
    requires i <= |events| <= |moments|
    ensures Subsequence(Passed(id, aimed, events, moments, i), events[i..])
    decreases |events| - i
  {
    if i < |events| {
      var rest := if EndsWith(id, aimed, events[i], moments[i]) then [] else Passed(id, aimed, events, moments, i + 1);
      PassedIsInOrder(id, aimed, events, moments, i + 1);
      SubsequenceGrows(rest, events[i], events[i + 1..]);
      assert events[i..] == [events[i]] + events[i + 1..] && [] + rest == rest;
    }
  }

  // ----- what the lease holds afterwards -----

  /** What the batches leave down of `held`. */
  function AfterBatches(held: set<Held>, batches: seq<Batch>): set<Held>
    decreases |batches|
  {
    if batches == [] then held
    else
      match batches[0]
      case EventBatch(event, _) => AfterBatches(Track(held, event), batches[1..])
      case FenceBatch(buttons, _) => AfterBatches(held - buttons, batches[1..])
  }

  /** Nobody else changes the control state while the events from `i` on are served, and none is refused as stale. */
  ghost predicate Undisturbed(id: LeaseId, aimed: (nat, nat), events: seq<RawInput>, moments: seq<Moment>, i: nat,
                              c: Control)
    requires i <= |events| <= |moments|
    decreases |events| - i
  {
    i < |events| ==>
      && moments[i].others == c && !moments[i].answer.RefusedAsStale?
      && (!EndsWith(id, aimed, events[i], moments[i]) ==>
            Undisturbed(id, aimed, events, moments, i + 1, AfterOne(id, aimed, events[i], moments[i])))
  }

  lemma {:induction false} AfterBatchesAppend(held: set<Held>, first: seq<Batch>, second: seq<Batch>)
    ensures AfterBatches(held, first + second) == AfterBatches(AfterBatches(held, first), second)
    decreases |first|
  {
    if first == [] {
      assert first + second == second;
    } else {
      assert (first + second)[1..] == first[1..] + second;
      match first[0]
      case EventBatch(event, _) => AfterBatchesAppend(Track(held, event), first[1..], second);
      case FenceBatch(buttons, _) => AfterBatchesAppend(held - buttons, first[1..], second);
    }
  }

  /** One event: the lease holds what its batches leave down. */
  lemma OneHoldsWhatItSends(id: LeaseId, aimed: (nat, nat), event: RawInput, m: Moment, at: Epoch, left: nat)
    requires Holds(m.others, id) && !m.answer.RefusedAsStale?
    ensures Holds(AfterOne(id, aimed, event, m), id)
    ensures AfterOne(id, aimed, event, m).lease.value.held ==
            AfterBatches(m.others.lease.value.held, BatchesOf(ServeOne(id, aimed, event, m, at, left)))
  {
  }

  /**
   Undisturbed, the lease keeps to hold exactly what the batches of the request leave down: every press
   that is sent is held, and what a release or a fence lets go is not.
   */
  lemma {:induction false} LeaseHoldsWhatWasSent(id: LeaseId, aimed: (nat, nat), events: seq<RawInput>,
                                                 moments: seq<Moment>, i: nat, captured: Option<Epoch>, c: Control)
    requires i <= |events| <= |moments| && Holds(c, id) && Undisturbed(id, aimed, events, moments, i, c)
    ensures var after := AfterAll(id, aimed, events, moments, i, c);
            && Holds(after, id)
            && after.lease.value.held ==
               AfterBatches(c.lease.value.held, Serve(id, aimed, events, moments, i, captured).batches)
    decreases |events| - i
  {
    if i < |events| {
      var at := EpochAt(moments[i], captured);
      var one := BatchesOf(ServeOne(id, aimed, events[i], moments[i], at, |events| - i));
      var rest := if EndsWith(id, aimed, events[i], moments[i]) then []
                  else Serve(id, aimed, events, moments, i + 1, Some(at)).batches;
      OneHoldsWhatItSends(id, aimed, events[i], moments[i], at, |events| - i);
      BatchesUnfold(id, aimed, events, moments, i, captured);
      AfterBatchesAppend(c.lease.value.held, one, rest);
      if !EndsWith(id, aimed, events[i], moments[i]) {
        LeaseHoldsWhatWasSent(id, aimed, events, moments, i + 1, Some(at), AfterOne(id, aimed, events[i], moments[i]));
      }
    }
  }
}
