/** A take that nobody displaces is never stuck: from every point of every run it can still be granted. */
module ControlLiveness {
  import opened Wrappers
  import opened Vocabulary
  import opened ControlState
  import opened ControlWorld
  import opened ControlInvariant
  import opened ControlRuns

  // ----- what is sent is on its way -----

  /** An epoch change that was sent and is not answered yet waits in the queue of the loop. */
  ghost predicate Waits(n: Net, tid: nat)
    requires tid in n.trans
  {
    n.trans[tid].t.change.Some? && n.trans[tid].delivery.Sent? ==>
      exists i :: 0 <= i < |n.queue| && n.queue[i] == SetEpoch(n.trans[tid].t.change.value, tid)
  }

  ghost predicate SentIsQueued(n: Net) {
    forall tid :: tid in n.trans ==> Waits(n, tid)
  }

  /** More of the queue, and other or fewer transitions. */
  lemma StaysQueued(n: Net, n': Net)
    requires SentIsQueued(n) && n.queue <= n'.queue
    requires forall tid :: tid in n'.trans ==>
               (tid in n.trans && n'.trans[tid] == n.trans[tid]) || !n'.trans[tid].delivery.Sent?
               || n'.trans[tid].t.change.None?
    ensures SentIsQueued(n')
  {
    forall tid | tid in n'.trans ensures Waits(n', tid) {
      if tid in n.trans && n'.trans[tid] == n.trans[tid] && n.trans[tid].t.change.Some?
         && n.trans[tid].delivery.Sent? {
        var i :| 0 <= i < |n.queue| && n.queue[i] == SetEpoch(n.trans[tid].t.change.value, tid);
        assert n'.queue[i] == n.queue[i];
      }
    }
  }

  lemma TakeKeepsQueued(w: World, a: TakeAction, w': World)
    requires ApplyTake(w, a) == Some(w') && SentIsQueued(w.net)
    ensures SentIsQueued(w'.net)
  {
    StaysQueued(w.net, w'.net);
  }

  lemma LeadKeepsQueued(w: World, a: LeaseAction, w': World)
    requires ApplyLease(w, a) == Some(w') && SentIsQueued(w.net)
    ensures SentIsQueued(w'.net)
  {
    StaysQueued(w.net, w'.net);
  }

  lemma HolderKeepsQueued(w: World, a: HolderAction, w': World)
    requires ApplyHolder(w, a) == Some(w') && SentIsQueued(w.net)
    ensures SentIsQueued(w'.net)
  {
    StaysQueued(w.net, w'.net);
  }

  lemma SendEpochKeepsQueued(n: Net, tid: nat, n': Net)
    requires SendEpoch(n, tid) == Some(n') && SentIsQueued(n)
    ensures SentIsQueued(n')
  {
    forall other | other in n'.trans ensures Waits(n', other) {
      if other == tid {
        assert n'.queue[|n.queue|] == SetEpoch(n.trans[tid].t.change.value, tid);
      } else if n.trans[other].t.change.Some? && n.trans[other].delivery.Sent? {
        var i :| 0 <= i < |n.queue| && n.queue[i] == SetEpoch(n.trans[other].t.change.value, other);
        assert n'.queue[i] == n.queue[i];
      }
    }
  }

  lemma LoopKeepsQueued(n: Net, n': Net)
    requires LoopStep(n) == Some(n') && SentIsQueued(n)
    ensures SentIsQueued(n')
  {
    forall tid | tid in n'.trans ensures Waits(n', tid) {
      if n'.trans[tid].t.change.Some? && n'.trans[tid].delivery.Sent? {
        var i :| 0 <= i < |n.queue| && n.queue[i] == SetEpoch(n.trans[tid].t.change.value, tid);
        assert n'.queue[i - 1] == n.queue[i];
      }
    }
  }

  lemma WayKeepsQueued(w: World, a: WayAction, w': World)
    requires ApplyWay(w, a) == Some(w') && SentIsQueued(w.net)
    ensures SentIsQueued(w'.net)
  {
    if a.SendEpochA? {
      SendEpochKeepsQueued(w.net, a.tid, w'.net);
    } else if a.LoopStepA? {
      LoopKeepsQueued(w.net, w'.net);
    } else {
      StaysQueued(w.net, w'.net);
    }
  }

  lemma {:induction false} RunKeepsQueued(run: seq<Action>, w: World)
    requires Execute(run) == Some(w)
    ensures SentIsQueued(w.net)
  {
    if run != [] {
      var before := Execute(run[..|run| - 1]).value;
      RunKeepsQueued(run[..|run| - 1], before);
      match run[|run| - 1]
      case Taking(take) => TakeKeepsQueued(before, take, w);
      case OnTheWay(way) => WayKeepsQueued(before, way, w);
      case Leading(lead) => LeadKeepsQueued(before, lead, w);
      case Holding(hold) => HolderKeepsQueued(before, hold, w);
    }
  }

  /** Whoever has something in hand knows the epoch to send it with. */
  ghost predicate HandHasEpoch(n: Net) {
    n.lock.Busy? && n.lock.hand != [] ==> n.lock.captured.Some?
  }

  lemma TakeKeepsLock(w: World, a: TakeAction, w': World)
    requires ApplyTake(w, a) == Some(w')
    ensures w'.net.lock == w.net.lock
  {
  }

  lemma LeadKeepsLock(w: World, a: LeaseAction, w': World)
    requires ApplyLease(w, a) == Some(w')
    ensures w'.net.lock == w.net.lock
  {
  }

  lemma HolderKeepsHand(w: World, a: HolderAction, w': World)
    requires ApplyHolder(w, a) == Some(w') && HandHasEpoch(w.net)
    ensures HandHasEpoch(w'.net)
  {
  }

  lemma WayKeepsHand(w: World, a: WayAction, w': World)
    requires ApplyWay(w, a) == Some(w') && HandHasEpoch(w.net)
    ensures HandHasEpoch(w'.net)
  {
  }

  lemma {:induction false} RunKeepsHand(run: seq<Action>, w: World)
    requires Execute(run) == Some(w)
    ensures HandHasEpoch(w.net)
  {
    if run != [] {
      var before := Execute(run[..|run| - 1]).value;
      RunKeepsHand(run[..|run| - 1], before);
      match run[|run| - 1]
      case Taking(take) => TakeKeepsLock(before, take, w);
      case OnTheWay(way) => WayKeepsHand(before, way, w);
      case Leading(lead) => LeadKeepsLock(before, lead, w);
      case Holding(hold) => HolderKeepsHand(before, hold, w);
    }
  }

  // ----- going on with a run -----

  /** `more` goes on from `run` and ends in `w'`. */
  ghost predicate GoesOn(run: seq<Action>, more: seq<Action>, w': World) {
    run <= more && Execute(more) == Some(w')
  }

  lemma Go(run: seq<Action>, w: World, a: Action, w': World) returns (more: seq<Action>)
    requires Execute(run) == Some(w) && Apply(w, a) == Some(w')
    ensures GoesOn(run, more, w')
  {
    more := run + [a];
    assert more[..|more| - 1] == run;
  }

  /** The same session, apart from what is on its way to the loop. */
  ghost predicate SameSession(w: World, w': World) {
    w'.c == w.c && w'.takes == w.takes && w'.over == w.over && w'.net.saturated == w.net.saturated
  }

  /** Every transition is where it was, or was answered. */
  ghost predicate OnlyAnswered(n: Net, n': Net) {
    && n'.trans.Keys == n.trans.Keys
    && forall tid :: tid in n.trans ==>
         n'.trans[tid] == n.trans[tid] || n'.trans[tid] == n.trans[tid].(delivery := Confirmed)
  }

  /** What the queue gets from the lock holder. */
  function FromHand(lock: InputLock): seq<Command> {
    if lock.Free? || lock.hand == [] || lock.captured.None? then []
    else [Input(lock.captured.value, lock.hand, lock.sender)]
  }

  /** The holder of the input lock sends what it has in hand. */
  lemma EmptyHand(run: seq<Action>, w: World) returns (more: seq<Action>, w': World)
    requires Execute(run) == Some(w) && !w.over && w.net.lock.Busy?
    ensures GoesOn(run, more, w') && SameSession(w, w') && w'.net.trans == w.net.trans
    ensures w'.net.lock.Busy? && w'.net.lock.hand == [] && w'.net.queue == w.net.queue + FromHand(w.net.lock)
    ensures w'.net.lost == w.net.lost
  {
    more, w' := run, w;
    RunKeepsHand(run, w);
    if w.net.lock.hand != [] {
      w' := ApplyWay(w, SendHandA).value;
      more := Go(run, w, OnTheWay(SendHandA), w');
    }
  }

  /** The holder of the input lock sends what it has in hand and gives the lock back. */
  lemma FreeLock(run: seq<Action>, w: World) returns (more: seq<Action>, w': World)
    requires Execute(run) == Some(w) && !w.over
    ensures GoesOn(run, more, w') && SameSession(w, w') && w'.net.lock.Free? && w'.net.trans == w.net.trans
    ensures w'.net.queue == w.net.queue + FromHand(w.net.lock)
    ensures w'.net.lost == w.net.lost
  {
    more, w' := run, w;
    if w.net.lock.Busy? {
      var w1;
      more, w1 := EmptyHand(run, w);
      w' := ApplyWay(w1, UnlockA).value;
      more := Go(more, w1, OnTheWay(UnlockA), w');
    }
  }

  lemma StepAnswers(n: Net, n': Net)
    requires LoopStep(n) == Some(n')
    ensures OnlyAnswered(n, n') && n'.queue == n.queue[1..] && n'.lock == n.lock && n'.saturated == n.saturated
    ensures n'.lost == n.lost
    ensures n.queue[0].SetEpoch? && n.queue[0].tid in n.trans ==> n'.trans[n.queue[0].tid].delivery.Confirmed?
  {
  }

  /** The loop answers everything in its queue. */
  lemma {:induction false} DrainQueue(run: seq<Action>, w: World) returns (more: seq<Action>, w': World)
    requires Execute(run) == Some(w) && !w.over
    ensures GoesOn(run, more, w') && SameSession(w, w') && w'.net.queue == [] && w'.net.lock == w.net.lock
    ensures OnlyAnswered(w.net, w'.net) && w'.net.lost == w.net.lost
    ensures forall tid :: tid in w.net.trans && w.net.trans[tid].delivery.Confirmed? ==>
              w'.net.trans[tid].delivery.Confirmed?
    ensures forall i :: 0 <= i < |w.net.queue| && w.net.queue[i].SetEpoch? && w.net.queue[i].tid in w.net.trans ==>
              w'.net.trans[w.net.queue[i].tid].delivery.Confirmed?
    decreases |w.net.queue|
  {
    more, w' := run, w;
    if w.net.queue != [] {
      var w1 := ApplyWay(w, LoopStepA).value;
      more := Go(run, w, OnTheWay(LoopStepA), w1);
      StepAnswers(w.net, w1.net);
      more, w' := DrainQueue(more, w1);
      forall i | 0 <= i < |w.net.queue| && w.net.queue[i].SetEpoch? && w.net.queue[i].tid in w.net.trans
        ensures w'.net.trans[w.net.queue[i].tid].delivery.Confirmed?
      {
        assert i > 0 ==> w1.net.queue[i - 1] == w.net.queue[i];
      }
    }
  }

  // ----- discharging -----

  /** Any set can be listed. */
  lemma {:induction false} SomeOrder(held: set<Held>) returns (order: seq<Held>)
    ensures Lists(order, held)
    decreases |held|
  {
    if held == {} {
      order := [];
    } else {
      var k :| k in held;
      var rest := SomeOrder(held - {k});
      order := [k] + rest;
      ListsOneMore(rest, held - {k}, k);
      assert held == held - {k} + {k};
    }
  }

  lemma ListsOneMore(order: seq<Held>, held: set<Held>, k: Held)
    requires Lists(order, held) && k !in held
    ensures Lists([k] + order, held + {k})
  {
    var more := [k] + order;
    assert more[0] == k && forall i :: 0 <= i < |order| ==> more[i + 1] == order[i];
    assert forall i :: 0 <= i < |order| ==> order[i] in held;
    forall x | x in held + {k} ensures x in set i | 0 <= i < |more| :: more[i] {
      if x in held {
        var i :| 0 <= i < |order| && order[i] == x;
        assert more[i + 1] == x;
      }
    }
  }

  /** Nothing is on the way to the loop and nobody holds the input lock. */
  ghost predicate WayIsFree(w: World) {
    w.net.queue == [] && w.net.lock.Free? && !w.over
  }

  /** The releases of a transition without an epoch change are sent and applied. */
  lemma SendReleases(run: seq<Action>, w: World, tid: nat) returns (more: seq<Action>, w': World)
    requires Execute(run) == Some(w) && WayIsFree(w) && tid in w.net.trans
    requires w.net.trans[tid].t.change.None? && w.net.trans[tid].delivery.Unsent?
    ensures GoesOn(run, more, w') && SameSession(w, w') && WayIsFree(w') && w'.net.lost == w.net.lost
    ensures w'.net.trans.Keys == w.net.trans.Keys && !w'.net.trans[tid].delivery.Unsent?
    ensures w'.net.trans[tid].t == w.net.trans[tid].t && w'.net.trans[tid].take == w.net.trans[tid].take
  {
    var order := SomeOrder(w.net.trans[tid].t.release);
    var w1 := ApplyWay(w, LockDischargeA(tid, order)).value;
    more := Go(run, w, OnTheWay(LockDischargeA(tid, order)), w1);
    var w2;
    more, w2 := FreeLock(more, w1);
    more, w' := DrainQueue(more, w2);
  }

  /** An epoch change is sent and answered. */
  lemma SendChange(run: seq<Action>, w: World, tid: nat) returns (more: seq<Action>, w': World)
    requires Execute(run) == Some(w) && WayIsFree(w) && tid in w.net.trans && w.net.trans[tid].t.change.Some?
    ensures GoesOn(run, more, w') && SameSession(w, w') && WayIsFree(w') && w'.net.lost == w.net.lost
    ensures w'.net.trans.Keys == w.net.trans.Keys && w'.net.trans[tid].delivery.Confirmed?
    ensures w'.net.trans[tid].t == w.net.trans[tid].t && w'.net.trans[tid].take == w.net.trans[tid].take
  {
    RunKeepsQueued(run, w);
    assert Waits(w.net, tid);
    more, w' := run, w;
    if w.net.trans[tid].delivery.Unsent? {
      var w1 := ApplyWay(w, SendEpochA(tid)).value;
      more := Go(run, w, OnTheWay(SendEpochA(tid)), w1);
      assert w1.net.queue[0] == SetEpoch(w.net.trans[tid].t.change.value, tid);
      more, w' := DrainQueue(more, w1);
    }
  }

  /** Where a take is once its epoch change is confirmed. */
  function AfterConfirm(p: Phase): Phase {
    match p
    case Moving(_) => Draining
    case Changing(_) => Deciding(true)
    case _ => p
  }

  /** Every take is where it was, or further by its confirmed change. */
  ghost predicate OnlyConfirmed(w: World, w': World) {
    && w'.takes.Keys == w.takes.Keys
    && forall id :: id in w.takes ==> w'.takes[id] == w.takes[id] || w'.takes[id] == AfterConfirm(w.takes[id])
  }

  /** A transition that was sent, and answered if it changes the epoch, ends. */
  lemma EndOne(run: seq<Action>, w: World, tid: nat) returns (more: seq<Action>, w': World)
    requires Execute(run) == Some(w) && Core(w) && WayIsFree(w) && tid in w.net.trans
    requires !w.net.trans[tid].delivery.Unsent?
    requires w.net.trans[tid].t.change.Some? ==> w.net.trans[tid].delivery.Confirmed?
    ensures GoesOn(run, more, w') && WayIsFree(w') && w'.net.saturated == w.net.saturated && w'.net.lost == w.net.lost
    ensures w'.net.trans == w.net.trans - {tid} && w'.c == w.c.(pending := w'.c.pending) && OnlyConfirmed(w, w')
  {
    var take := w.net.trans[tid].take;
    if take.None? {
      w' := EndDischarge(w, tid, true).value;
      more := Go(run, w, OnTheWay(EndDischargeA(tid, true)), w');
    } else {
      w' := TakeDischarged(w, take.value, true).value;
      more := Go(run, w, Taking(TakeDischargedA(take.value, true)), w');
    }
  }

  /** One transition is delivered and ends; nothing is given up. */
  lemma DischargeOne(run: seq<Action>, w: World, tid: nat) returns (more: seq<Action>, w': World)
    requires Execute(run) == Some(w) && WayIsFree(w) && !w.net.saturated && tid in w.net.trans
    ensures GoesOn(run, more, w') && WayIsFree(w') && !w'.net.saturated && w'.net.lost == w.net.lost
    ensures w'.net.trans.Keys == w.net.trans.Keys - {tid} && w'.c == w.c.(pending := w'.c.pending)
    ensures OnlyConfirmed(w, w')
  {
    var w1 := w;
    more := run;
    if w.net.trans[tid].t.change.Some? {
      more, w1 := SendChange(run, w, tid);
    } else if w.net.trans[tid].delivery.Unsent? {
      more, w1 := SendReleases(run, w, tid);
    }
    RunKeeps(more, w1);
    more, w' := EndOne(more, w1, tid);
  }

  lemma {:induction false} DischargeAll(run: seq<Action>, w: World) returns (more: seq<Action>, w': World)
    requires Execute(run) == Some(w) && WayIsFree(w) && !w.net.saturated
    ensures GoesOn(run, more, w') && WayIsFree(w') && !w'.net.saturated && w'.net.lost == w.net.lost
    ensures w'.net.trans == map[] && w'.c == w.c.(pending := 0) && OnlyConfirmed(w, w')
    decreases |w.net.trans.Keys|
  {
    more, w' := run, w;
    RunKeeps(run, w);
    if w.net.trans.Keys != {} {
      var tid :| tid in w.net.trans;
      var w1;
      more, w1 := DischargeOne(run, w, tid);
      more, w' := DischargeAll(more, w1);
    }
  }

  // ----- going quiet -----

  /** Nothing is pending, on the way or in flight. */
  ghost predicate AllQuiet(w: World) {
    WayIsFree(w) && w.net.trans == map[] && w.c.pending == 0 && w.c.inflight == 0
  }

  /**
   From every point of every run everything on the way can be delivered: the queue is answered, every
   release and every epoch change is sent and applied, and no call stays open. The lease is untouched and
   every take is where it was, or further by its confirmed change; nothing is given up.
   */
  lemma EverythingCanBeDelivered(run: seq<Action>, w: World) returns (more: seq<Action>, w': World)
    requires Execute(run) == Some(w) && !w.net.saturated && !w.over
    ensures GoesOn(run, more, w') && AllQuiet(w') && !w'.net.saturated
    ensures w'.c == w.c.(pending := 0, inflight := 0) && OnlyConfirmed(w, w') && w'.net.lost == w.net.lost
  {
    var w1, w2, w3;
    more, w1 := FreeLock(run, w);
    more, w2 := DrainQueue(more, w1);
    more, w3 := DischargeAll(more, w2);
    w' := CuaFinish(w3, w3.c.inflight).value;
    more := Go(more, w3, Leading(CuaFinishA(w3.c.inflight)), w');
  }

  // ----- granting -----

  /** The take was not too late and is not abandoned. */
  predicate OnTrack(p: Phase) {
    match p
    case Settled(inTime) => inTime
    case Deciding(confirmed) => confirmed
    case Abandoned => false
    case _ => true
  }

  lemma GrantDecided(run: seq<Action>, w: World, id: LeaseId) returns (more: seq<Action>, w': World)
    requires Execute(run) == Some(w) && !w.over && IsLease(w.c, id)
    requires id in w.takes && w.takes[id] == Deciding(true)
    ensures GoesOn(run, more, w') && Holds(w'.c, id)
  {
    w' := Finish(w, id, 0).value;
    more := Go(run, w, Taking(FinishA(id, 0)), w');
  }

  /** The loop gets an epoch change from an empty queue and answers it. */
  lemma ConfirmChange(run: seq<Action>, w: World, tid: nat) returns (more: seq<Action>, w': World)
    requires Execute(run) == Some(w) && WayIsFree(w) && tid in w.net.trans
    requires w.net.trans[tid].t.change.Some? && w.net.trans[tid].delivery.Unsent?
    ensures GoesOn(run, more, w') && w'.c == w.c && w'.takes == w.takes && !w'.over
    ensures tid in w'.net.trans && w'.net.trans[tid].delivery.Confirmed?
  {
    var w1 := ApplyWay(w, SendEpochA(tid)).value;
    more := Go(run, w, OnTheWay(SendEpochA(tid)), w1);
    w' := ApplyWay(w1, LoopStepA).value;
    more := Go(more, w1, OnTheWay(LoopStepA), w');
    StepAnswers(w1.net, w'.net);
  }

  /** A take from the agent whose waits are over changes the epoch, has it confirmed, and is granted. */
  lemma GrantSettled(run: seq<Action>, w: World, id: LeaseId) returns (more: seq<Action>, w': World)
    requires Execute(run) == Some(w) && AllQuiet(w) && IsLease(w.c, id)
    requires id in w.takes && w.takes[id] == Settled(true)
    ensures GoesOn(run, more, w') && Holds(w'.c, id)
  {
    var tid := w.net.nextTid;
    var w1 := Settle(w, id).value;
    more := Go(run, w, Taking(SettleA(id)), w1);
    var w2;
    more, w2 := ConfirmChange(more, w1, tid);
    var w3 := TakeDischarged(w2, id, true).value;
    more := Go(more, w2, Taking(TakeDischargedA(id, true)), w3);
    more, w' := GrantDecided(more, w3, id);
  }

  /** A take that waits is answered by its polls when everything is quiet. */
  lemma {:induction false} GrantQuiet(run: seq<Action>, w: World, id: LeaseId)
    returns (more: seq<Action>, w': World)
    requires Execute(run) == Some(w) && AllQuiet(w) && IsLease(w.c, id)
    requires id in w.takes && OnTrack(w.takes[id]) && TidOf(w.takes[id]).None?
    ensures GoesOn(run, more, w') && Holds(w'.c, id)
    decreases if w.takes[id].Settling? then 2 else if w.takes[id].Releasing? || w.takes[id].Draining? then 1 else 0
  {
    if w.takes[id].Settled? {
      more, w' := GrantSettled(run, w, id);
    } else if w.takes[id].Deciding? {
      more, w' := GrantDecided(run, w, id);
    } else {
      var w1 := Poll(w, id).value;
      more := Go(run, w, Taking(PollA(id)), w1);
      more, w' := GrantQuiet(more, w1, id);
    }
  }

  /**
   At every point of every run a take that still has its lease, was not too late and was not abandoned can
   be granted: some continuation, in which nobody else does anything but finish, ends with its grant.
   */
  lemma EveryTakeCanBeGranted(run: seq<Action>, w: World, id: LeaseId) returns (more: seq<Action>, w': World)
    requires Execute(run) == Some(w) && !w.net.saturated && !w.over
    requires IsLease(w.c, id) && id in w.takes && OnTrack(w.takes[id])
    ensures GoesOn(run, more, w') && Holds(w'.c, id)
  {
    var w1;
    more, w1 := EverythingCanBeDelivered(run, w);
    RunKeeps(more, w1);
    more, w' := GrantQuiet(more, w1, id);
  }
}
