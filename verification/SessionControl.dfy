/** The control lease of one session, changed in place under its mutex. */
module SessionControl {
  import opened Wrappers
  import opened Vocabulary
  import opened ControlState
  import opened InputRequest

  /** The holder gave no sign for more than five seconds. */
  predicate Gone(lease: Lease, now: nat) {
    now > lease.lastHeartbeat + 5000
  }

  /** The holder did not act for the idle timeout. */
  predicate Idle(lease: Lease, now: nat, idleTimeout: nat) {
    now >= lease.lastInput + idleTimeout || idleTimeout == 0
  }

  class SessionControl {
    const generation: nat
    const hasInput: bool
    var lease: Option<Lease>
    var epoch: Epoch
    var inflight: nat
    var ended: seq<(LeaseId, Loss)>
    var pending: nat

    function View(): Control
      reads this
    {
      Control(lease, epoch, inflight, ended, pending)
    }

    constructor (generation: nat, hasInput: bool)
      ensures View() == Initial && this.generation == generation && this.hasInput == hasInput
    {
      this.generation, this.hasInput := generation, hasInput;
      lease, epoch, inflight, ended, pending := None, 0, 0, [], 0;
    }

    // ----- the last lease ends -----

    method Remember(id: LeaseId, loss: Loss)
      modifies this`ended
      ensures ended == ControlState.Remember(old(ended), id, loss)
    {
      if |ended| >= RECENT_ENDS {
        ended := ended[1..];
      }
      ended := ended + [(id, loss)];
    }

    method LossOf(id: LeaseId) returns (loss: NotHeld)
      ensures loss == ControlState.LossOf(ended, id)
    {
      var i := |ended|;
      assert ended[..i] == ended;
      while i > 0
        invariant 0 <= i <= |ended|
        invariant ControlState.LossOf(ended, id) == ControlState.LossOf(ended[..i], id)
      {
        assert ended[..i][..i - 1] == ended[..i - 1];
        if ended[i - 1].0 == id {
          return Lost(ended[i - 1].1);
        }
        i := i - 1;
      }
      loss := Unknown;
    }

    // ----- transitions -----

    method NewTransition(held: set<Held>) returns (t: Transition)
      modifies this`pending
      ensures (View(), t) == Begin(old(View()), held)
    {
      pending := pending + 1;
      t := Transition(held, epoch, None);
    }

    method Advance() returns (t: Transition)
      modifies this`epoch, this`pending
      ensures (View(), t) == ControlState.Advance(old(View()))
    {
      epoch := NextEpoch(epoch);
      t := NewTransition({});
      t := t.(change := Some(epoch));
    }

    /** A transition is discharged, or its caller is gone. */
    method DropTransition()
      requires pending > 0
      modifies this`pending
      ensures View() == Discharged(old(View()))
    {
      pending := pending - 1;
    }

    // ----- the agent -----

    method PollAgent() returns (answer: Admission)
      ensures answer == ControlState.PollAgent(View())
      ensures answer == if lease.Some? then Refused(lease.value.address)
                        else if pending == 0 then Admitted(epoch) else Wait
    {
      if lease.Some? {
        answer := Refused(lease.value.address);
      } else if pending == 0 {
        answer := Admitted(epoch);
      } else {
        answer := Wait;
      }
    }

    method AdmitCua(count: nat, takeover: bool) returns (answer: CuaAnswer)
      modifies this
      ensures (View(), answer) == ControlState.AdmitCua(old(View()), count, takeover)
      ensures answer.CuaRefused? <==> old(lease).Some? && !takeover
      ensures answer.CuaRefused? ==> View() == old(View()) && answer.address == lease.value.address
      ensures answer.CuaAdmitted? ==> lease.None? && inflight == old(inflight) + count
      ensures answer.CuaAdmitted? ==> (answer.transition.Some? <==> old(lease).Some?)
    {
      var transition: Option<Transition> := None;
      if lease.Some? {
        if !takeover {
          return CuaRefused(lease.value.address);
        }
        transition := AgentTakeover();
      }
      inflight := inflight + count;
      answer := CuaAdmitted(transition);
    }

    method CuaFinished(count: nat)
      modifies this`inflight
      ensures View() == FinishCua(old(View()), count)
    {
      if count == 0 {
        return;
      }
      inflight := if count <= inflight then inflight - count else 0;
    }

    method AgentTakeover() returns (t: Option<Transition>)
      modifies this
      ensures (View(), t) == ControlState.AgentTakeover(old(View()))
      ensures lease.None? && (t.Some? <==> old(lease).Some?)
      ensures epoch == if old(lease).Some? && old(lease).value.granted then NextEpoch(old(epoch)) else old(epoch)
      ensures old(lease).Some? ==> ended != [] && ended[|ended| - 1] == (old(lease).value.id, LostTo(AgentController))
    {
      if lease.None? {
        return None;
      }
      var taken := lease.value;
      lease := None;
      Remember(taken.id, LostTo(AgentController));
      var transition := EndLease(taken);
      t := Some(transition);
    }

    // ----- lease ends -----

    method EndLease(taken: Lease) returns (t: Transition)
      modifies this`epoch, this`pending
      ensures (View(), t) == ControlState.EndLease(old(View()), taken)
    {
      if taken.granted {
        t := Advance();
      } else {
        t := NewTransition({});
      }
    }

    method TakeHuman(reason: EndReason) returns (taken: Option<Lease>)
      modifies this
      ensures (View(), taken) == ControlState.TakeHuman(old(View()), reason)
    {
      taken := lease;
      if taken.Some? {
        lease := None;
        Remember(taken.value.id, LostBy(reason));
      }
    }

    method EndHuman(reason: EndReason) returns (t: Option<Transition>)
      modifies this
      ensures (View(), t) == ControlState.EndHuman(old(View()), reason)
      ensures lease.None? && (t.Some? <==> old(lease).Some?)
      ensures epoch == if old(lease).Some? && old(lease).value.granted then NextEpoch(old(epoch)) else old(epoch)
      ensures old(lease).Some? ==> ended != [] && ended[|ended| - 1] == (old(lease).value.id, LostBy(reason))
    {
      var taken := TakeHuman(reason);
      if taken.None? {
        return None;
      }
      var transition := EndLease(taken.value);
      t := Some(transition);
    }

    method EndHumanEnded() returns (t: Option<Transition>)
      modifies this
      ensures (View(), t) == ControlState.EndHumanEnded(old(View()))
      ensures lease.None? && (t.Some? <==> old(lease).Some?) && epoch == old(epoch)
      ensures old(lease).Some? ==> ended != [] && ended[|ended| - 1] == (old(lease).value.id, LostBy(SessionEnded))
    {
      var taken := TakeHuman(SessionEnded);
      if taken.None? {
        return None;
      }
      var transition := NewTransition({});
      t := Some(transition);
    }

    /** The first section of an expiry: whether the granted lease is to end, and why. */
    method CheckExpired(now: nat, idleTimeout: nat) returns (reason: Option<EndReason>)
      ensures reason == ExpireReason(View(), now, idleTimeout)
    {
      if lease.None? || !lease.value.granted {
        reason := None;
      } else if Since(now, lease.value.lastHeartbeat) > HEARTBEAT_TIMEOUT {
        reason := Some(HeartbeatLost);
      } else if Since(now, lease.value.lastInput) >= idleTimeout {
        reason := Some(IdleTimeout);
      } else {
        reason := None;
      }
    }

    /** An expiry whose two sections no other task comes between. A pending take is never expired. */
    method Expire(now: nat, idleTimeout: nat) returns (t: Option<Transition>)
      modifies this
      ensures t.Some? <==>
                && old(lease).Some? && old(lease).value.granted
                && (Gone(old(lease).value, now) || Idle(old(lease).value, now, idleTimeout))
      ensures t.None? ==> View() == old(View())
      ensures t.Some? ==>
                && lease.None? && epoch == NextEpoch(old(epoch)) && t.value.change == Some(epoch)
                && inflight == old(inflight) && pending == old(pending) + 1
                && ended == ControlState.Remember(old(ended), old(lease).value.id,
                       LostBy(if Gone(old(lease).value, now) then HeartbeatLost else IdleTimeout))
    {
      var reason := CheckExpired(now, idleTimeout);
      if reason.None? {
        return None;
      }
      t := EndHuman(reason.value);
    }

    // ----- the holder -----

    method CheckLease(id: LeaseId) returns (lost: Option<NotHeld>)
      ensures lost == LossAt(View(), id)
    {
      if lease.Some? && lease.value.id == id && lease.value.granted {
        return None;
      }
      var loss := LossOf(id);
      lost := Some(loss);
    }

    method Heartbeat(id: LeaseId, now: nat) returns (answer: Result<(), NotHeld>)
      modifies this`lease
      ensures (View(), answer) == ControlState.Heartbeat(old(View()), id, now)
    {
      var lost := CheckLease(id);
      if lost.Some? {
        return Err(lost.value);
      }
      lease := Some(lease.value.(lastHeartbeat := now));
      answer := Ok(());
    }

    method Blur(id: LeaseId, now: nat) returns (answer: Result<Transition, NotHeld>)
      modifies this`lease, this`pending
      ensures (View(), answer) == ControlState.Blur(old(View()), id, now)
      ensures answer.Ok? <==> Holds(old(View()), id)
      ensures answer.Ok? ==> Holds(View(), id) && lease.value.held == {}
      ensures answer.Ok? ==> answer.value.release == old(lease).value.held && answer.value.at == epoch
    {
      var lost := CheckLease(id);
      if lost.Some? {
        return Err(lost.value);
      }
      var held := lease.value.held;
      lease := Some(lease.value.(lastHeartbeat := now, held := {}));
      var transition := NewTransition(held);
      answer := Ok(transition);
    }

    method Release(id: LeaseId) returns (answer: Result<Transition, NotHeld>)
      modifies this
      ensures (View(), answer) == ReleaseLease(old(View()), id)
      ensures answer.Ok? <==> Holds(old(View()), id)
      ensures answer.Ok? ==> lease.None? && epoch == NextEpoch(old(epoch)) && answer.value.change == Some(epoch)
      ensures answer.Ok? ==> ended != [] && ended[|ended| - 1] == (id, LostByRelease)
    {
      var lost := CheckLease(id);
      if lost.Some? {
        return Err(lost.value);
      }
      lease := None;
      Remember(id, LostByRelease);
      var transition := Advance();
      answer := Ok(transition);
    }

    /** The lease check of one event. */
    method CheckEvent(id: LeaseId, event: RawInput, aimed: (nat, nat), frame: Option<(nat, nat)>, now: nat)
      returns (answer: InputAnswer)
      modifies this`lease
      ensures (View(), answer) == CheckInput(old(View()), id, event, aimed, frame, now)
    {
      var lost := CheckLease(id);
      if lost.Some? {
        return InputLost(lost.value);
      }
      var held := lease.value.held;
      if OffFrame(held, event, aimed, frame) {
        var buttons := Buttons(held);
        lease := Some(lease.value.(held := held - buttons));
        answer := Fenced(buttons);
      } else {
        lease := Some(lease.value.(held := Track(held, event), lastInput := now, lastHeartbeat := now));
        answer := Tracked;
      }
    }

    /** What the other tasks left when this one gets the mutex back after an await. */
    method Resume(c: Control)
      modifies this
      ensures View() == c
    {
      lease, epoch, inflight, ended, pending := c.lease, c.epoch, c.inflight, c.ended, c.pending;
    }

    /** Serve one event of a request; `left` events are not served yet. */
    method ServeEvent(id: LeaseId, aimed: (nat, nat), event: RawInput, m: Moment, captured: Option<Epoch>, left: nat)
      returns (one: One, at: Epoch)
      modifies this
      ensures at == EpochAt(m, captured) && one == ServeOne(id, aimed, event, m, at, left)
      ensures View() == AfterOne(id, aimed, event, m) && (one.Ends? <==> EndsWith(id, aimed, event, m))
    {
      Resume(m.others);
      at := if captured.Some? then captured.value else epoch;
      var check := CheckEvent(id, event, aimed, m.frame, m.now);
      match check {
        case InputLost(why) =>
          one := Ends(Served(Report(0, left, 0, 0, Some(why)), true, []));
        case Fenced(buttons) =>
          one := Goes(0, 1, FenceBatches(buttons, at));
        case Tracked =>
          if m.answer.Accepted? {
            one := Goes(1, 0, [EventBatch(event, at)]);
          } else if m.answer.RefusedAsStale? {
            Resume(m.after);
            var lost := CheckLease(id);
            one := Ends(Served(Report(0, left, 0, 0, lost), true, [EventBatch(event, at)]));
          } else {
            one := Ends(Served(Report(0, 0, 0, 0, None), false, [EventBatch(event, at)]));
          }
      }
    }

    /** Serve the events of a request in turn, under the input lock. */
    method ServeAll(id: LeaseId, aimed: (nat, nat), events: seq<RawInput>, moments: seq<Moment>)
      returns (served: Served)
      requires |moments| >= |events|
      modifies this
      ensures served == Serve(id, aimed, events, moments, 0, None)
      ensures View() == AfterAll(id, aimed, events, moments, 0, old(View()))
    {
      served := Nothing;
      var captured: Option<Epoch> := None;
      var i := 0;
      while i < |events|
        invariant 0 <= i <= |events|
        invariant served.available && served.report.stale == 0
        invariant served.report.generation == 0 && served.report.lost.None?
        invariant AfterAll(id, aimed, events, moments, 0, old(View()))
               == AfterAll(id, aimed, events, moments, i, View())
        invariant Serve(id, aimed, events, moments, 0, None)
               == Plus(served, Serve(id, aimed, events, moments, i, captured))
      {
        var one, at := ServeEvent(id, aimed, events[i], moments[i], captured, |events| - i);
        if one.Ends? {
          return Plus(served, one.served);
        }
        ServeGoesOn(id, aimed, events, moments, i, captured, served, one);
        served := Step(served, one.applied, one.geometry, one.batches);
        captured := Some(at);
        i := i + 1;
      }
    }

    /** Apply the holder's input; `moments` is what the request finds at each of its events. */
    method Input(id: LeaseId, requested: nat, aimed: (nat, nat), events: seq<RawInput>, moments: seq<Moment>)
      returns (answer: Option<Report>, batches: seq<Batch>)
      requires |moments| >= |events|
      modifies this
      ensures requested != generation ==>
                answer == Some(Report(0, 0, 0, |events|, LossAt(old(View()), id))) && batches == []
      ensures requested == generation && !hasInput ==> answer == None && batches == []
      ensures requested != generation || !hasInput ==> View() == old(View())
      ensures requested == generation && hasInput ==>
                && |Coalesced(events)| <= |moments|
                && var served := Serve(id, aimed, Coalesced(events), moments, 0, None);
                   batches == served.batches && answer == if served.available then Some(served.report) else None
      ensures requested == generation && hasInput ==>
                && |Coalesced(events)| <= |moments|
                && View() == AfterAll(id, aimed, Coalesced(events), moments, 0, old(View()))
      ensures requested == generation && hasInput ==>
                && |Coalesced(events)| <= |moments|
                && var queued := Coalesced(events);
                   var stop := StopAt(id, aimed, queued, moments, 0);
                   if stop < |queued| && Holds(moments[stop].others, id) && moments[stop].answer.NotTaken? then
                     answer == None
                   else
                     answer == Some(Report(HowMany(id, aimed, queued, moments, 0, stop, true), |queued| - stop,
                                           HowMany(id, aimed, queued, moments, 0, stop, false), 0,
                                           if stop < |queued| then WhyStopped(id, moments[stop]) else None))
    {
      OnlyMovesAreDropped(events);
      if requested != generation {
        var lost := CheckLease(id);
        return Some(Report(0, 0, 0, |events|, lost)), [];
      }
      if !hasInput {
        return None, [];
      }
      var queued := Coalesce(events);
      var served := ServeAll(id, aimed, queued, moments);
      ReportIsExact(id, aimed, queued, moments, 0, None);
      return if served.available then Some(served.report) else None, served.batches;
    }

    // ----- a human take -----

    method MarkTake(id: LeaseId, address: string, now: nat) returns (t: Option<Transition>)
      modifies this
      ensures (View(), t) == ControlState.MarkTake(old(View()), id, address, now)
      ensures lease == Some(Lease(id, address, false, now, now, {}))
      ensures t.Some? <==> old(lease).Some? && old(lease).value.granted
      ensures old(lease).Some? ==>
                ended != [] && ended[|ended| - 1] == (old(lease).value.id, LostTo(HumanController(address)))
    {
      var replaced := lease;
      lease := Some(Lease(id, address, false, now, now, {}));
      if replaced.None? {
        return None;
      }
      Remember(replaced.value.id, LostTo(HumanController(address)));
      if !replaced.value.granted {
        return None;
      }
      var transition := Advance();
      t := Some(transition);
    }

    method LostTake(id: LeaseId) returns (loss: Loss)
      ensures loss == ControlState.LostTake(View(), id)
    {
      var found := LossOf(id);
      loss := if found.Lost? then found.loss else LostTo(AgentController);
    }

    method SettleTake(id: LeaseId, settled: bool) returns (answer: SettleAnswer)
      modifies this
      ensures (View(), answer) == ControlState.SettleTake(old(View()), id, settled)
      ensures answer.SettleAdvanced? <==> IsLease(old(View()), id) && settled
    {
      if lease.None? || lease.value.id != id {
        var loss := LostTake(id);
        return SettleLost(loss);
      }
      if !settled {
        lease := None;
        return SettleBusy;
      }
      var transition := Advance();
      answer := SettleAdvanced(transition);
    }

    method FinishTake(id: LeaseId, confirmed: bool, now: nat) returns (answer: FinishAnswer)
      modifies this`lease
      ensures (View(), answer) == ControlState.FinishTake(old(View()), id, confirmed, now)
      ensures answer.FinishGranted? <==> IsLease(old(View()), id) && confirmed
      ensures answer.FinishGranted? ==>
                lease == Some(old(lease).value.(granted := true, lastHeartbeat := now, lastInput := now))
    {
      if lease.None? || lease.value.id != id {
        var loss := LostTake(id);
        return FinishLost(loss);
      }
      if !confirmed {
        lease := None;
        return FinishBusy;
      }
      lease := Some(lease.value.(granted := true, lastHeartbeat := now, lastInput := now));
      answer := FinishGranted;
    }

    method UndoTake(id: LeaseId)
      modifies this`lease
      ensures View() == ControlState.UndoTake(old(View()), id)
      ensures IsLease(View(), id) ==> Holds(View(), id)
      ensures Holds(old(View()), id) || !IsLease(old(View()), id) ==> View() == old(View())
    {
      if lease.Some? && lease.value.id == id && !lease.value.granted {
        lease := None;
      }
    }
  }
}
