/** Runs that show what the promises of the control lease do not cover. */
module ControlExamples {
  import opened Wrappers
  import opened Vocabulary
  import opened ControlState
  import opened ControlWorld
  import opened ControlInvariant

  lemma Extend(run: seq<Action>, w: World, a: Action, w': World)
    requires Execute(run) == Some(w) && Apply(w, a) == Some(w')
    ensures Execute(run + [a]) == Some(w')
  {
    assert (run + [a])[..|run + [a]| - 1] == run;
  }

  /** Nobody has the lease, nothing is on the way, nobody captured anything, and `e` leases were drawn. */
  ghost predicate Idle(w: World, e: Epoch) {
    && w.c.lease.None? && w.c.epoch == e && w.c.inflight == 0 && w.c.pending == 0
    && w.net.loop == Loop(0, map[]) && w.net.queue == [] && w.net.trans == map[] && w.net.lock.Free?
    && w.net.claims == {} && !w.net.saturated && !w.over
    && w.takes == map[] && (forall id :: id in w.issued ==> id < e)
  }

  /** From an idle session, the take `id` waits for nothing and changes the epoch. */
  lemma TakeChanges(run: seq<Action>, w: World, id: LeaseId) returns (run': seq<Action>, w': World)
    requires Execute(run) == Some(w) && !w.over && id !in w.issued
    requires w.c.lease.None? && w.c.inflight == 0 && w.c.pending == 0 && w.net.trans == map[]
    ensures run <= run' && Execute(run') == Some(w') && !w'.over
    ensures w'.c == w.c.(lease := Some(Lease(id, "", false, 0, 0, {})), epoch := NextEpoch(w.c.epoch), pending := 1)
    ensures w'.net == Register(w.net, w.c.epoch, Transition({}, w'.c.epoch, Some(w'.c.epoch)), Agent, Some(id))
    ensures w'.takes == w.takes[id := Changing(w.net.nextTid)] && w'.issued == w.issued + {id}
  {
    var w1 := Mark(w, id, "", 0).value;
    Extend(run, w, Taking(MarkA(id, "", 0)), w1);
    var w2 := Poll(w1, id).value;
    Extend(run + [Taking(MarkA(id, "", 0))], w1, Taking(PollA(id)), w2);
    var w3 := Poll(w2, id).value;
    Extend(run + [Taking(MarkA(id, "", 0))] + [Taking(PollA(id))], w2, Taking(PollA(id)), w3);
    w' := Settle(w3, id).value;
    Extend(run + [Taking(MarkA(id, "", 0))] + [Taking(PollA(id))] + [Taking(PollA(id))], w3, Taking(SettleA(id)), w');
    run' := run + [Taking(MarkA(id, "", 0))] + [Taking(PollA(id))] + [Taking(PollA(id))] + [Taking(SettleA(id))];
    assert w1.takes[id := Releasing][id := Settled(true)][id := Changing(w.net.nextTid)]
        == w.takes[id := Changing(w.net.nextTid)];
  }

  /** The only take gives up its unconfirmed change and finds itself busy. */
  lemma TakeIsBusy(run: seq<Action>, w: World, id: LeaseId, tid: nat) returns (run': seq<Action>, w': World)
    requires Execute(run) == Some(w) && !w.over && w.c.pending == 1 && IsLease(w.c, id)
    requires w.takes == map[id := Changing(tid)] && w.net.trans.Keys == {tid}
    ensures Execute(run') == Some(w') && w'.takes == map[] && w'.net.trans == map[]
    ensures w'.c == w.c.(lease := None, pending := 0) && w'.issued == w.issued && !w'.over
    ensures w'.net == Drop(w.net, tid, false)
  {
    var w1 := TakeDischarged(w, id, false).value;
    Extend(run, w, Taking(TakeDischargedA(id, false)), w1);
    w' := Finish(w1, id, 0).value;
    Extend(run + [Taking(TakeDischargedA(id, false))], w1, Taking(FinishA(id, 0)), w');
    run' := run + [Taking(TakeDischargedA(id, false))] + [Taking(FinishA(id, 0))];
    assert w'.net.trans == map[] && w'.takes == map[];
  }

  /** Every epoch is reached: each take whose change is not confirmed in time advances it by one. */
  lemma {:induction false} EveryEpochIsReached(e: Epoch) returns (run: seq<Action>, w: World)
    ensures Execute(run) == Some(w) && Idle(w, e)
    decreases e
  {
    if e == 0 {
      run, w := [], Start;
    } else {
      var before, idle := EveryEpochIsReached(e - 1);
      var changed, w1 := TakeChanges(before, idle, e - 1);
      assert w1.net.trans.Keys == {idle.net.nextTid};
      run, w := TakeIsBusy(changed, w1, e - 1, idle.net.nextTid);
    }
  }

  lemma ChangeRoundTrip(n: Net, epoch: Epoch, tid: nat) returns (sent: Net, confirmed: Net)
    requires n.queue == [] && tid in n.trans && n.trans.Keys == {tid}
    requires n.trans[tid].t.change == Some(epoch) && n.trans[tid].delivery.Unsent?
    ensures SendEpoch(n, tid) == Some(sent) && LoopStep(sent) == Some(confirmed)
    ensures confirmed == n.(loop := AdoptBy(n.loop, epoch), trans := map[tid := n.trans[tid].(delivery := Confirmed)])
  {
    sent := SendEpoch(n, tid).value;
    confirmed := LoopStep(sent).value;
    assert confirmed.queue == [];
  }

  /** The epoch change of the take `id` reaches the loop, which adopts and confirms it. */
  lemma ChangeIsConfirmed(run: seq<Action>, w: World, id: LeaseId, tid: nat) returns (run': seq<Action>, w': World)
    requires Execute(run) == Some(w) && !w.over && w.net.queue == []
    requires w.net.trans == map[tid := Live(Transition({}, w.c.epoch, Some(w.c.epoch)), Agent, Some(id), Unsent)]
    ensures run <= run' && Execute(run') == Some(w')
    ensures w' == w.(net := w.net.(loop := AdoptBy(w.net.loop, w.c.epoch),
                                   trans := map[tid := w.net.trans[tid].(delivery := Confirmed)]))
  {
    var sent, confirmed := ChangeRoundTrip(w.net, w.c.epoch, tid);
    Extend(run, w, OnTheWay(SendEpochA(tid)), w.(net := sent));
    w' := w.(net := confirmed);
    Extend(run + [OnTheWay(SendEpochA(tid))], w.(net := sent), OnTheWay(LoopStepA), w');
    run' := run + [OnTheWay(SendEpochA(tid))] + [OnTheWay(LoopStepA)];
  }

  /** The take in `w` gets its change confirmed by the loop and is granted. */
  lemma TakeIsGranted(run: seq<Action>, w: World, id: LeaseId, tid: nat) returns (run': seq<Action>, w': World)
    requires Execute(run) == Some(w) && !w.over && w.c.pending == 1
    requires w.c.lease == Some(Lease(id, "", false, 0, 0, {}))
    requires id in w.takes && w.takes[id] == Changing(tid) && w.net.queue == []
    requires w.net.trans == map[tid := Live(Transition({}, w.c.epoch, Some(w.c.epoch)), Agent, Some(id), Unsent)]
    ensures run <= run' && Execute(run') == Some(w') && !w'.over && Holds(w'.c, id)
    ensures w'.c.epoch == w.c.epoch && w'.c.pending == 0
    ensures w'.net == w.net.(trans := map[], loop := AdoptBy(w.net.loop, w.c.epoch), lost := {})
  {
    var confirmed, w1 := ChangeIsConfirmed(run, w, id, tid);
    var w2 := TakeDischarged(w1, id, true).value;
    Extend(confirmed, w1, Taking(TakeDischargedA(id, true)), w2);
    w' := Finish(w2, id, 0).value;
    Extend(confirmed + [Taking(TakeDischargedA(id, true))], w2, Taking(FinishA(id, 0)), w');
    run' := confirmed + [Taking(TakeDischargedA(id, true))] + [Taking(FinishA(id, 0))];
    assert w2.net.trans == map[];
  }

  /** A granted holder presses `event`: its lease check is answered and the event is in hand. */
  lemma HolderPresses(run: seq<Action>, w: World, id: LeaseId, event: RawInput) returns (run': seq<Action>, w': World)
    requires Execute(run) == Some(w) && !w.over && Holds(w.c, id) && w.net.lock.Free? && event.KeyInput?
    ensures run <= run' && Execute(run') == Some(w') && !w'.over
    ensures w'.c.epoch == w.c.epoch && w'.c.pending == w.c.pending && Holds(w'.c, id)
    ensures w'.net == w.net.(claims := w.net.claims + {(w.c.epoch, Human(id))},
                             lock := Busy(true, Human(id), Some(w.c.epoch), [event]))
  {
    var w1 := w.(net := Acquire(w.net, id).value);
    Extend(run, w, OnTheWay(AcquireA(id)), w1);
    w' := Check(w1, event, (0, 0), None, 0, []).value;
    Extend(run + [OnTheWay(AcquireA(id))], w1, Holding(CheckA(event, (0, 0), None, 0, [])), w');
    run' := run + [OnTheWay(AcquireA(id))] + [Holding(CheckA(event, (0, 0), None, 0, []))];
  }

  /**
   Once the epoch counter is at its maximum, the next change keeps the epoch: a human then captures an
   epoch the agent captured before.
   */
  lemma SaturationSharesAnEpoch() returns (run: seq<Action>, w: World)
    ensures Execute(run) == Some(w) && w.c.epoch == 0xFFFF_FFFF_FFFF_FFFF && !Exclusive(w.net.claims)
  {
    var before, idle := EveryEpochIsReached(MAX_EPOCH);
    var w1 := AdmitAgent(idle).value;
    Extend(before, idle, Leading(AdmitAgentA), w1);
    var changed, w2 := TakeChanges(before + [Leading(AdmitAgentA)], w1, MAX_EPOCH);
    var granted, w3 := TakeIsGranted(changed, w2, MAX_EPOCH, w1.net.nextTid);
    run, w := HolderPresses(granted, w3, MAX_EPOCH, KeyInput(42, false, true));
    assert (MAX_EPOCH, Agent) in w.net.claims && (MAX_EPOCH, Human(MAX_EPOCH)) in w.net.claims;
  }

  lemma HandRoundTrip(n: Net, id: LeaseId, event: RawInput) returns (sent: Net, applied: Net)
    requires n.queue == [] && n.lock == Busy(true, Human(id), Some(n.loop.epoch), [event])
    ensures SendHand(n) == Some(sent) && LoopStep(sent) == Some(applied)
    ensures applied.loop == n.loop.(held := TrackBy(n.loop.held, event, Human(id)))
    ensures applied.newestKept == n.newestKept && applied.trans == n.trans
  {
    sent := SendHand(n).value;
    applied := LoopStep(sent).value;
    assert sent.queue == [Input(n.loop.epoch, [event], Human(id))];
    assert [event][1..] == [];
    assert TrackAllBy(n.loop.held, [event], Human(id))
        == TrackAllBy(TrackBy(n.loop.held, event, Human(id)), [event][1..], Human(id));
  }

  /** What is in hand at the epoch of the loop is applied. */
  lemma HandIsApplied(run: seq<Action>, w: World, id: LeaseId, event: RawInput) returns (run': seq<Action>, w': World)
    requires Execute(run) == Some(w) && !w.over && w.net.queue == []
    requires w.net.lock == Busy(true, Human(id), Some(w.net.loop.epoch), [event])
    ensures run <= run' && Execute(run') == Some(w') && !w'.over && w'.c == w.c
    ensures w'.net.newestKept == w.net.newestKept && w'.net.trans == w.net.trans
    ensures w'.net.loop == w.net.loop.(held := TrackBy(w.net.loop.held, event, Human(id)))
  {
    var sent, applied := HandRoundTrip(w.net, id, event);
    Extend(run, w, OnTheWay(SendHandA), w.(net := sent));
    w' := w.(net := applied);
    Extend(run + [OnTheWay(SendHandA)], w.(net := sent), OnTheWay(LoopStepA), w');
    run' := run + [OnTheWay(SendHandA)] + [OnTheWay(LoopStepA)];
  }

  /**
   An acting call without an id is admitted but not counted. A take does not wait for it, so when its
   wait for earlier releases is over a human can hold the lease with a key down.
   */
  lemma UncountedCallMeetsAHuman() returns (run: seq<Action>, w: World, k: Held)
    ensures run != [] && run[0] == Leading(CuaAdmitA(0, false))
    ensures Execute(run) == Some(w) && w.net.newestKept && w.c.pending == 0
    ensures !w.over && Holds(w.c, 7) && w.net.trans == map[]
    ensures k in w.net.loop.held && w.net.loop.held[k] == Human(7)
  {
    var admitted := CuaAdmit(Start, 0, false).value;
    Extend([], Start, Leading(CuaAdmitA(0, false)), admitted);
    assert [] + [Leading(CuaAdmitA(0, false))] == [Leading(CuaAdmitA(0, false))];
    var changed, w1 := TakeChanges([Leading(CuaAdmitA(0, false))], admitted, 7);
    var granted, w2 := TakeIsGranted(changed, w1, 7, 0);
    var pressed, w3 := HolderPresses(granted, w2, 7, KeyInput(42, false, true));
    run, w := HandIsApplied(pressed, w3, 7, KeyInput(42, false, true));
    k := Key(42, false);
  }

  /**
   When the discharge of an epoch change is given up, the agent is admitted although the loop still
   has down what a human pressed.
   */
  lemma UnconfirmedChangeLeavesAKeyDown() returns (run: seq<Action>, w: World, k: Held)
    ensures Execute(run) == Some(w) && !w.net.newestKept && PollAgent(w.c).Admitted?
    ensures k in w.net.loop.held && w.net.loop.held[k] == Human(7)
  {
    var pressed, w1, key := UncountedCallMeetsAHuman();
    var w2 := GiveUp(w1, 7).value;
    Extend(pressed, w1, Leading(ReleaseA(7)), w2);
    w := EndDischarge(w2, w1.net.nextTid, false).value;
    Extend(pressed + [Leading(ReleaseA(7))], w2, OnTheWay(EndDischargeA(w1.net.nextTid, false)), w);
    run := pressed + [Leading(ReleaseA(7))] + [OnTheWay(EndDischargeA(w1.net.nextTid, false))];
    k := key;
  }
}
