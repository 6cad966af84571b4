/** What only moves on: the loop's epoch with what it applied, and every take. */
module ControlProgress {
  import opened Wrappers
  import opened Vocabulary
  import opened ControlState
  import opened ControlWorld
  import opened ControlInvariant
  import opened ControlRuns
  import opened ControlExpiry

  // ----- the loop -----

  /** The loop is at the same or a later epoch, and applied nothing new below where it was. */
  ghost predicate MovesOn(n: Net, n': Net) {
    && n.loop.epoch <= n'.loop.epoch
    && n.applied <= n'.applied
    && forall i :: |n.applied| <= i < |n'.applied| ==> n'.applied[i].0 >= n.loop.epoch
  }

  lemma WayMovesOn(w: World, a: WayAction, w': World)
    requires ApplyWay(w, a) == Some(w')
    ensures MovesOn(w.net, w'.net)
  {
  }

  lemma TakeMovesOn(w: World, a: TakeAction, w': World)
    requires ApplyTake(w, a) == Some(w')
    ensures w'.net.loop == w.net.loop && w'.net.applied == w.net.applied
  {
  }

  lemma LeadMovesOn(w: World, a: LeaseAction, w': World)
    requires ApplyLease(w, a) == Some(w')
    ensures w'.net.loop == w.net.loop && w'.net.applied == w.net.applied
  {
  }

  lemma HolderMovesOn(w: World, a: HolderAction, w': World)
    requires ApplyHolder(w, a) == Some(w')
    ensures w'.net.loop == w.net.loop && w'.net.applied == w.net.applied
  {
    if a.CheckA? {
      CheckMovesOn(w, a.event, a.aimed, a.frame, a.now, a.order, w');
    }
  }

  lemma CheckMovesOn(w: World, event: RawInput, aimed: (nat, nat), frame: Option<(nat, nat)>, now: nat,
                     order: seq<Held>, w': World)
    requires Check(w, event, aimed, frame, now, order) == Some(w')
    ensures w'.net.loop == w.net.loop && w'.net.applied == w.net.applied && w'.takes == w.takes
  {
  }

  lemma StepMovesOn(w: World, a: Action, w': World)
    requires Apply(w, a) == Some(w')
    ensures MovesOn(w.net, w'.net)
  {
    match a
    case Taking(take) => TakeMovesOn(w, take, w');
    case OnTheWay(way) => WayMovesOn(w, way, w');
    case Leading(lead) => LeadMovesOn(w, lead, w');
    case Holding(hold) => HolderMovesOn(w, hold, w');
  }

  lemma {:induction false} RunMovesOn(before: seq<Action>, more: seq<Action>, w: World, w': World)
    requires Execute(before) == Some(w) && Execute(before + more) == Some(w')
    ensures MovesOn(w.net, w'.net)
    decreases |more|
  {
    if more == [] {
      assert before + more == before;
    } else {
      var init := more[..|more| - 1];
      assert (before + more)[..|before + more| - 1] == before + init;
      var w1 := Execute(before + init).value;
      RunMovesOn(before, init, w, w1);
      StepMovesOn(w1, more[|more| - 1], w');
    }
  }

  /**
   Once the loop adopted an epoch, however the run goes on: it applies no batch of an earlier one, and
   whatever is down was pressed by a controller that captured this epoch or a later one.
   */
  lemma OldEpochIsRefused(before: seq<Action>, more: seq<Action>, w: World, w': World)
    requires Execute(before) == Some(w) && Execute(before + more) == Some(w') && !w'.net.saturated && !w'.over
    ensures w.net.applied <= w'.net.applied
    ensures forall i :: |w.net.applied| <= i < |w'.net.applied| ==> w'.net.applied[i].0 >= w.net.loop.epoch
    ensures forall k :: k in w'.net.loop.held ==>
              exists e :: e >= w.net.loop.epoch && (e, w'.net.loop.held[k]) in w'.net.claims
  {
    RunMovesOn(before, more, w, w');
    RunKeeps(before + more, w');
    forall k | k in w'.net.loop.held
      ensures exists e :: e >= w.net.loop.epoch && (e, w'.net.loop.held[k]) in w'.net.claims
    {
      assert (w'.net.loop.epoch, w'.net.loop.held[k]) in w'.net.claims;
    }
  }

  // ----- takes -----

  /** How many of its own steps a take has left, at most. */
  function StepsLeft(p: Phase): nat {
    match p
    case Settling => 6
    case Releasing => 5
    case Settled(_) => 4
    case Changing(_) => 3
    case Moving(_) => 3
    case Draining => 2
    case Deciding(_) => 1
    case Abandoned => 1
  }

  /** The take is over, or where it was, or further. */
  ghost predicate Advances(w: World, w': World, id: LeaseId) {
    && id in w.takes
    && (id in w'.takes ==>
          w'.takes[id] == w.takes[id] || StepsLeft(w'.takes[id]) < StepsLeft(w.takes[id]))
  }

  lemma TakeAdvances(w: World, a: TakeAction, w': World, id: LeaseId)
    requires ApplyTake(w, a) == Some(w') && id in w.takes && id in w.issued
    ensures Advances(w, w', id)
  {
  }

  lemma OthersLeaveTakes(w: World, a: Action, w': World)
    requires Apply(w, a) == Some(w') && !a.Taking?
    ensures w'.takes == w.takes
  {
    if a.Holding? && a.hold.CheckA? {
      CheckMovesOn(w, a.hold.event, a.hold.aimed, a.hold.frame, a.hold.now, a.hold.order, w');
    }
  }

  /** No step of anyone moves a take back. */
  lemma TakesOnlyAdvance(run: seq<Action>, w: World, a: Action, w': World, id: LeaseId)
    requires Execute(run) == Some(w) && !w.net.saturated && !w.over && Apply(w, a) == Some(w') && id in w.takes
    ensures Advances(w, w', id)
  {
    if a.Taking? {
      TakesAreIssued(run, w, id);
      TakeAdvances(w, a.take, w', id);
    } else {
      OthersLeaveTakes(w, a, w');
    }
  }

  lemma TakesAreIssued(run: seq<Action>, w: World, id: LeaseId)
    requires Execute(run) == Some(w) && !w.net.saturated && !w.over && id in w.takes
    ensures id in w.issued
  {
    RunKeeps(run, w);
  }

  /** A step that can always be the next of a take. */
  function NextOf(id: LeaseId, p: Phase): TakeAction {
    match p
    case Moving(_) => TakeDischargedA(id, false)
    case Changing(_) => TakeDischargedA(id, false)
    case Settling => TimeOutA(id)
    case Releasing => TimeOutA(id)
    case Draining => TimeOutA(id)
    case Settled(_) => SettleA(id)
    case Deciding(_) => FinishA(id, 0)
    case Abandoned => UndoA(id)
  }

  /**
   No take is ever stuck: at every point of every run one of its own steps is possible and brings it
   nearer to its end, so it decides or undoes its lease after six of them at most.
   */
  lemma EveryTakeCanGoOn(run: seq<Action>, w: World, id: LeaseId)
    requires Execute(run) == Some(w) && !w.net.saturated && !w.over && id in w.takes
    ensures var next := Apply(w, Taking(NextOf(id, w.takes[id])));
            next.Some? && (id in next.value.takes ==> StepsLeft(next.value.takes[id]) < StepsLeft(w.takes[id]))
  {
    RunKeeps(run, w);
    PairedCanGoOn(w, id);
  }

  lemma PairedCanGoOn(w: World, id: LeaseId)
    requires Paired(w.net, w.takes, w.issued) && id in w.takes
    ensures var next := ApplyTake(w, NextOf(id, w.takes[id]));
            next.Some? && (id in next.value.takes ==> StepsLeft(next.value.takes[id]) < StepsLeft(w.takes[id]))
  {
  }

  /** The two steps in which a take is abandoned and undone. */
  function Undone(w: World, id: LeaseId): Option<World> {
    match Abandon(w, id)
    case None => None
    case Some(w1) => Undo(w1, id)
  }

  /** The transition that a take discharges, if it does. */
  function OwnTransition(p: Phase): set<nat> {
    if TidOf(p).Some? then {TidOf(p).value} else {}
  }

  /** The take is gone with its lease and its transition, and nothing else changed. */
  ghost predicate IsUndone(w: World, w': World, id: LeaseId)
    requires id in w.takes
  {
    && id !in w'.takes && !IsLease(w'.c, id) && w'.c.epoch == w.c.epoch && w'.c.ended == w.c.ended
    && (!IsLease(w.c, id) ==> w'.c.lease == w.c.lease)
    && w'.net.trans == w.net.trans - OwnTransition(w.takes[id]) && w'.c.pending == |w'.net.trans|
  }

  /**
   The caller of a take may go away at each of its five awaits, and only there; the take is then undone:
   its lease and its transition are gone, and the epoch stays where it is.
   */
  lemma TakesAreAbandonedExactly(run: seq<Action>, w: World, id: LeaseId)
    requires Execute(run) == Some(w) && !w.net.saturated && !w.over && id in w.takes
    ensures var p := w.takes[id];
            Undone(w, id).Some? <==> p.Moving? || p.Draining? || p.Settling? || p.Releasing? || p.Changing?
    ensures Undone(w, id).Some? ==> IsUndone(w, Undone(w, id).value, id)
  {
    RunKeeps(run, w);
    if Abandon(w, id).Some? {
      AbandonShape(w, id);
      UndoShape(w, Abandon(w, id).value, id);
    } else {
      AwaitsAreFive(w, id);
    }
  }

  lemma AwaitsAreFive(w: World, id: LeaseId)
    requires Paired(w.net, w.takes, w.issued) && id in w.takes
    ensures var p := w.takes[id];
            Abandon(w, id).Some? <==> p.Moving? || p.Draining? || p.Settling? || p.Releasing? || p.Changing?
  {
  }

  lemma AbandonShape(w: World, id: LeaseId)
    requires Paired(w.net, w.takes, w.issued) && Counted(w.c, w.net) && Abandon(w, id).Some?
    ensures var p, w' := w.takes[id], Abandon(w, id).value;
            && (p.Moving? || p.Draining? || p.Settling? || p.Releasing? || p.Changing?)
            && w'.takes == w.takes[id := Abandoned] && w'.c == w.c.(pending := w'.c.pending)
            && w'.net.trans == w.net.trans - OwnTransition(p) && w'.c.pending == |w'.net.trans|
  {
    AwaitsAreFive(w, id);
    if TidOf(w.takes[id]).Some? {
      var tid := TidOf(w.takes[id]).value;
      assert w.net.trans.Keys == (w.net.trans - {tid}).Keys + {tid};
    } else {
      assert w.net.trans - {} == w.net.trans;
    }
  }

  lemma UndoShape(w: World, w1: World, id: LeaseId)
    requires id in w.takes && w1.takes == w.takes[id := Abandoned] && w1.c == w.c.(pending := w1.c.pending)
    requires w1.net.trans == w.net.trans - OwnTransition(w.takes[id]) && w1.c.pending == |w1.net.trans|
    requires IsLease(w.c, id) ==> !w.c.lease.value.granted
    ensures Undo(w1, id).Some? && IsUndone(w, Undo(w1, id).value, id)
  {
  }

  /** What the others may do at any time: nothing of it waits for anyone. */
  lemma OthersMayAlwaysAct(w: World, id: LeaseId, address: string, now: nat, count: nat, reason: EndReason)
    requires !w.over
    ensures Mark(w, id, address, now).Some? <==> id !in w.issued
    ensures CuaAdmit(w, count, true).Some? && CuaFinish(w, count).Some? && Takeover(w).Some? && End(w, reason).Some?
    ensures CuaAdmit(w, count, false).Some? <==> w.c.lease.None?
    ensures AdmitAgent(w).Some? <==> w.c.lease.None? && w.c.pending == 0
    ensures Bootstrap(w).Some? <==> w.c.lease.None?
    ensures BlurLease(w, id, now).Some? <==> Holds(w.c, id)
    ensures GiveUp(w, id).Some? <==> Holds(w.c, id)
    ensures Acquire(w.net, id).Some? <==> w.net.lock.Free?
    ensures LoseHand(w.net).Some? <==> w.net.lock.Busy?
    ensures forall tid :: tid in w.net.trans ==> (EndDischarge(w, tid, false).Some? <==> w.net.trans[tid].take.None?)
    ensures forall epoch: Epoch, events :: AgentSend(w.net, epoch, events).Some? <==> (epoch, Agent) in w.net.claims
  {
  }
}
