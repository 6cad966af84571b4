/** Every action of a session keeps `Core`, unless the epoch counter saturates. */
module ControlPreserved {
  import opened Wrappers
  import opened Vocabulary
  import opened ControlState
  import opened ControlWorld
  import opened ControlInvariant
  import opened NetPreserved

  lemma NothingPending(n: Net)
    requires |n.trans| == 0
    ensures n.trans == map[]
  {
  }

  lemma FramePairs(n: Net, n': Net, takes: map<LeaseId, Phase>, issued: set<LeaseId>)
    requires Paired(n, takes, issued) && Frame(n, n')
    ensures Paired(n', takes, issued)
  {
  }

  lemma FrameControls(c: Control, n: Net, n': Net, takes: map<LeaseId, Phase>, issued: set<LeaseId>)
    requires Controlled(c, n, takes, issued) && Paired(n, takes, issued) && Frame(n, n')
    requires n'.loop.epoch <= c.epoch && |n'.trans| == |n.trans|
    ensures Controlled(c, n', takes, issued)
  {
  }

  /** A change on the way to the loop is invisible to the lease and its takes. */
  lemma FrameKeeps(w: World, n: Net)
    requires Core(w) && NetInv(w.c.epoch, n) && Frame(w.net, n) && |n.trans| == |w.net.trans|
    ensures Core(w.(net := n))
  {
    FramePairs(w.net, n, w.takes, w.issued);
    FrameControls(w.c, w.net, n, w.takes, w.issued);
  }

  lemma PhaseKeeps(w: World, id: LeaseId, phase: Phase)
    requires Core(w) && id in w.takes && TidOf(w.takes[id]).None? && TidOf(phase).None?
    requires PhaseInv(w.c, w.net, w.takes[id]) ==> PhaseInv(w.c, w.net, phase)
    ensures Core(w.(takes := w.takes[id := phase]))
  {
  }

  lemma PollKeeps(w: World, id: LeaseId, w': World)
    requires Core(w) && Poll(w, id) == Some(w')
    ensures Core(w')
  {
    if w.c.pending == 0 {
      NothingPending(w.net);
    }
    PhaseKeeps(w, id, AfterPoll(w.takes[id], w.c).value);
  }

  lemma TimeOutKeeps(w: World, id: LeaseId, w': World)
    requires Core(w) && TimeOut(w, id) == Some(w')
    ensures Core(w')
  {
    PhaseKeeps(w, id, AfterTimeout(w.takes[id]).value);
  }

  lemma PairedBegin(n: Net, takes: map<LeaseId, Phase>, issued: set<LeaseId>, before: Epoch, t: Transition,
                    id: LeaseId, phase: Phase)
    requires Paired(n, takes, issued) && n.nextTid !in n.trans && t.change.Some?
    requires id in takes ==> TidOf(takes[id]).None?
    requires TidOf(phase) == Some(n.nextTid)
    ensures Paired(Register(n, before, t, Agent, Some(id)), takes[id := phase], issued + {id})
  {
  }

  lemma PairedMark(n: Net, takes: map<LeaseId, Phase>, issued: set<LeaseId>, id: LeaseId)
    requires Paired(n, takes, issued) && id !in issued
    ensures Paired(n, takes[id := Settling], issued + {id})
  {
  }

  lemma PairedGone(n: Net, takes: map<LeaseId, Phase>, issued: set<LeaseId>, id: LeaseId)
    requires Paired(n, takes, issued) && id in takes && TidOf(takes[id]).None?
    ensures Paired(n, takes - {id}, issued)
  {
  }

  lemma PairedEnd(n: Net, takes: map<LeaseId, Phase>, issued: set<LeaseId>, tid: nat, confirmed: bool,
                  id: LeaseId, phase: Phase)
    requires Paired(n, takes, issued) && id in takes && TidOf(takes[id]) == Some(tid) && TidOf(phase).None?
    ensures Paired(Drop(n, tid, confirmed), takes[id := phase], issued)
  {
  }

  /** A pending lease without a granted one before it. */
  lemma MarkFromAgent(w: World, id: LeaseId, address: string, now: nat, w': World)
    requires Led(w) && Mark(w, id, address, now) == Some(w') && MarkTake(w.c, id, address, now).1.None?
    ensures Controlled(w'.c, w'.net, w'.takes, w'.issued)
  {
  }

  /** A pending lease in the place of a granted one: the epoch is new. */
  lemma MarkFromHuman(w: World, id: LeaseId, address: string, now: nat, w': World)
    requires Led(w) && Mark(w, id, address, now) == Some(w') && !w'.net.saturated
    requires MarkTake(w.c, id, address, now).1.Some?
    ensures Controlled(w'.c, w'.net, w'.takes, w'.issued)
  {
  }

  lemma MarkLeads(w: World, id: LeaseId, address: string, now: nat, w': World)
    requires Led(w) && Mark(w, id, address, now) == Some(w') && !w'.net.saturated
    requires w.net.nextTid !in w.net.trans
    ensures Led(w')
  {
    var moved := MarkTake(w.c, id, address, now).1;
    if moved.Some? {
      MarkFromHuman(w, id, address, now, w');
      PairedBegin(w.net, w.takes, w.issued, w.c.epoch, moved.value, id, Moving(w.net.nextTid));
    } else {
      MarkFromAgent(w, id, address, now, w');
      PairedMark(w.net, w.takes, w.issued, id);
    }
  }

  lemma MarkKeeps(w: World, id: LeaseId, address: string, now: nat, w': World)
    requires Core(w) && Mark(w, id, address, now) == Some(w') && !w'.net.saturated
    ensures Core(w')
  {
    MarkLeads(w, id, address, now, w');
    var (c, moved) := MarkTake(w.c, id, address, now);
    if moved.Some? {
      RegisterKeeps(w.c.epoch, w.net, c.epoch, moved.value, Agent, Some(id));
    }
  }

  /** A take that is lost or late is over. */
  lemma SettleEnds(w: World, id: LeaseId, w': World)
    requires Led(w) && Settle(w, id) == Some(w') && !SettleTake(w.c, id, w.takes[id].inTime).1.SettleAdvanced?
    ensures Controlled(w'.c, w'.net, w'.takes, w'.issued) && w'.net == w.net
  {
  }

  /** A take that is in time changes the epoch. */
  lemma SettleChanges(w: World, id: LeaseId, w': World)
    requires Led(w) && Settle(w, id) == Some(w') && !w'.net.saturated
    requires SettleTake(w.c, id, w.takes[id].inTime).1.SettleAdvanced?
    ensures Controlled(w'.c, w'.net, w'.takes, w'.issued)
  {
  }

  lemma SettleLeads(w: World, id: LeaseId, w': World)
    requires Led(w) && Settle(w, id) == Some(w') && !w'.net.saturated
    requires w.net.nextTid !in w.net.trans
    ensures Led(w')
  {
    var answer := SettleTake(w.c, id, w.takes[id].inTime).1;
    if answer.SettleAdvanced? {
      SettleChanges(w, id, w');
      PairedBegin(w.net, w.takes, w.issued, w.c.epoch, answer.transition, id, Changing(w.net.nextTid));
      assert w.issued + {id} == w.issued;
    } else {
      SettleEnds(w, id, w');
      PairedGone(w.net, w.takes, w.issued, id);
    }
  }

  lemma SettleKeeps(w: World, id: LeaseId, w': World)
    requires Core(w) && Settle(w, id) == Some(w') && !w'.net.saturated
    ensures Core(w')
  {
    SettleLeads(w, id, w');
    var (c, answer) := SettleTake(w.c, id, w.takes[id].inTime);
    if answer.SettleAdvanced? {
      RegisterKeeps(w.c.epoch, w.net, c.epoch, answer.transition, Agent, Some(id));
    }
  }

  lemma DischargedControls(w: World, id: LeaseId, confirmed: bool, w': World)
    requires Led(w) && Answered(w.net) && TakeDischarged(w, id, confirmed) == Some(w')
    ensures Controlled(w'.c, w'.net, w'.takes, w'.issued)
  {
  }

  lemma DischargedLeads(w: World, id: LeaseId, confirmed: bool, w': World)
    requires Led(w) && Answered(w.net) && TakeDischarged(w, id, confirmed) == Some(w')
    ensures Led(w')
  {
    DischargedControls(w, id, confirmed, w');
    PairedEnd(w.net, w.takes, w.issued, TidOf(w.takes[id]).value, confirmed, id, w'.takes[id]);
  }

  lemma DischargedKeeps(w: World, id: LeaseId, confirmed: bool, w': World)
    requires Core(w) && TakeDischarged(w, id, confirmed) == Some(w')
    ensures Core(w')
  {
    DischargedLeads(w, id, confirmed, w');
    DropKeeps(w.c.epoch, w.net, TidOf(w.takes[id]).value, confirmed);
  }

  lemma FinishLeads(w: World, id: LeaseId, now: nat, w': World)
    requires Led(w) && Finish(w, id, now) == Some(w')
    ensures Led(w')
  {
    PairedGone(w.net, w.takes, w.issued, id);
  }

  lemma FinishKeeps(w: World, id: LeaseId, now: nat, w': World)
    requires Core(w) && Finish(w, id, now) == Some(w')
    ensures Core(w')
  {
    FinishLeads(w, id, now, w');
  }

  /** A take that does not discharge `tid` relies on nothing that its end changes. */
  lemma PhaseSurvivesDrop(c: Control, n: Net, phase: Phase, tid: nat, confirmed: bool)
    requires PhaseInv(c, n, phase) && tid in n.trans && TidOf(phase) != Some(tid)
    ensures PhaseInv(c, Drop(n, tid, confirmed), phase)
  {
  }

  lemma AbandonControls(w: World, id: LeaseId, tid: nat)
    requires Led(w) && id in w.takes && TidOf(w.takes[id]) == Some(tid) && tid in w.net.trans
    ensures Controlled(Discharged(w.c), Drop(w.net, tid, false), w.takes[id := Abandoned], w.issued)
  {
    if w.c.lease.Some? && !w.c.lease.value.granted && w.c.lease.value.id != id {
      PhaseSurvivesDrop(w.c, w.net, w.takes[w.c.lease.value.id], tid, false);
    }
  }

  lemma PairedPhase(n: Net, takes: map<LeaseId, Phase>, issued: set<LeaseId>, id: LeaseId, phase: Phase)
    requires Paired(n, takes, issued) && id in takes && TidOf(takes[id]).None? && TidOf(phase).None?
    ensures Paired(n, takes[id := phase], issued)
  {
  }

  lemma AbandonLeads(w: World, id: LeaseId, w': World)
    requires Led(w) && Abandon(w, id) == Some(w')
    ensures Led(w')
  {
    if TidOf(w.takes[id]).Some? {
      AbandonControls(w, id, TidOf(w.takes[id]).value);
      PairedEnd(w.net, w.takes, w.issued, TidOf(w.takes[id]).value, false, id, Abandoned);
    } else {
      PairedPhase(w.net, w.takes, w.issued, id, Abandoned);
    }
  }

  lemma AbandonKeeps(w: World, id: LeaseId, w': World)
    requires Core(w) && Abandon(w, id) == Some(w')
    ensures Core(w')
  {
    AbandonLeads(w, id, w');
    if TidOf(w.takes[id]).Some? {
      DropKeeps(w.c.epoch, w.net, TidOf(w.takes[id]).value, false);
    }
  }

  lemma UndoKeeps(w: World, id: LeaseId, w': World)
    requires Core(w) && Undo(w, id) == Some(w')
    ensures Core(w')
  {
  }

  lemma CaptureKeeps(w: World, w': World)
    requires Core(w) && (AdmitAgent(w) == Some(w') || Bootstrap(w) == Some(w'))
    ensures Core(w')
  {
    ClaimKeeps(w.c.epoch, w.net, Agent);
  }

  lemma PairedAlone(n: Net, takes: map<LeaseId, Phase>, issued: set<LeaseId>, before: Epoch, t: Transition,
                    holder: Owner)
    requires Paired(n, takes, issued) && n.nextTid !in n.trans
    ensures Paired(Register(n, before, t, holder, None), takes, issued)
  {
  }

  /** The end of any lease in favour of the agent. */
  lemma AgentRegains(w: World, c: Control, t: Option<Transition>)
    requires Core(w) && c.lease.None?
    requires t.None? ==> c.epoch == w.c.epoch && c.pending == w.c.pending && w.c.lease.None?
    requires t.Some? ==>
               && w.c.lease.Some? && c.pending == w.c.pending + 1
               && t.value.at == c.epoch && t.value.release == {}
    requires t.Some? && w.c.lease.value.granted ==>
               t.value.change == Some(c.epoch) && c.epoch == NextEpoch(w.c.epoch) && w.c.epoch < MAX_EPOCH
    requires t.Some? && !w.c.lease.value.granted ==> t.value.change.None? && c.epoch == w.c.epoch
    ensures Core(w.(c := c, net := RegisterIf(w.net, w.c.epoch, t)))
  {
    if t.Some? {
      RegisterKeeps(w.c.epoch, w.net, c.epoch, t.value, Agent, None);
      PairedAlone(w.net, w.takes, w.issued, w.c.epoch, t.value, Agent);
    }
  }

  lemma CuaAdmitKeeps(w: World, count: nat, takeover: bool, w': World)
    requires Core(w) && CuaAdmit(w, count, takeover) == Some(w') && !w'.net.saturated
    ensures Core(w')
  {
    AgentRegains(w, w'.c, AdmitCua(w.c, count, takeover).1.transition);
  }

  lemma TakeoverKeeps(w: World, w': World)
    requires Core(w) && Takeover(w) == Some(w') && !w'.net.saturated
    ensures Core(w')
  {
    AgentRegains(w, w'.c, AgentTakeover(w.c).1);
  }

  lemma EndKeeps(w: World, reason: EndReason, w': World)
    requires Core(w) && End(w, reason) == Some(w') && !w'.net.saturated
    ensures Core(w')
  {
    AgentRegains(w, w'.c, EndHuman(w.c, reason).1);
  }

  lemma SeeExpiredKeeps(w: World, op: nat, now: nat, idleTimeout: nat, w': World)
    requires Core(w) && SeeExpired(w, op, now, idleTimeout) == Some(w')
    ensures Core(w')
  {
  }

  lemma ExpireKeeps(w: World, op: nat, w': World)
    requires Core(w) && Expire(w, op) == Some(w') && !w'.net.saturated
    ensures Core(w')
  {
    EndKeeps(w.(expiring := w.expiring - {op}), w.expiring[op].reason, w');
  }

  lemma GiveUpKeeps(w: World, id: LeaseId, w': World)
    requires Core(w) && GiveUp(w, id) == Some(w') && !w'.net.saturated
    ensures Core(w')
  {
    AgentRegains(w, w'.c, Some(ReleaseLease(w.c, id).1.value));
  }

  lemma HolderKeeps(w: World, c: Control)
    requires Core(w) && w.c.lease.Some? && w.c.lease.value.granted
    requires c.lease.Some? && c.lease.value.id == w.c.lease.value.id && c.lease.value.granted
    requires c.epoch == w.c.epoch && c.inflight == w.c.inflight && c.pending == w.c.pending
    ensures Core(w.(c := c))
  {
  }

  lemma CountKeeps(w: World, count: nat, w': World)
    requires Core(w) && CuaFinish(w, count) == Some(w')
    ensures Core(w')
  {
  }

  lemma BeatKeeps(w: World, id: LeaseId, now: nat, w': World)
    requires Core(w) && Beat(w, id, now) == Some(w')
    ensures Core(w')
  {
    if Holds(w.c, id) {
      HolderKeeps(w, w'.c);
    }
  }

  lemma BlurKeeps(w: World, id: LeaseId, now: nat, w': World)
    requires Core(w) && BlurLease(w, id, now) == Some(w')
    ensures Core(w')
  {
    ClaimKeeps(w.c.epoch, w.net, Human(id));
    var blurred := Blur(w.c, id, now).1.value;
    RegisterKeeps(w.c.epoch, Claim(w.net, w.c.epoch, Human(id)), w.c.epoch, blurred, Human(id), None);
  }

  /** An answered check changes only what the holder holds, and takes the event or the releases in hand. */
  lemma CheckShape(w: World, event: RawInput, aimed: (nat, nat), frame: Option<(nat, nat)>, now: nat,
                   order: seq<Held>, w': World) returns (c: Control, at: Epoch, hand: seq<RawInput>)
    requires Check(w, event, aimed, frame, now, order) == Some(w')
    requires !CheckInput(w.c, w.net.lock.sender.id, event, aimed, frame, now).1.InputLost?
    ensures Holds(w.c, w.net.lock.sender.id) && Holds(c, w.net.lock.sender.id)
    ensures c.epoch == w.c.epoch && c.inflight == w.c.inflight && c.pending == w.c.pending
    ensures at == w.c.epoch || w.net.lock.captured == Some(at)
    ensures w.net.lock.Busy? && w.net.lock.request && w' == TakeUp(w.(c := c), w.net.lock.sender.id, at, hand)
  {
    c := w'.c;
    at := w'.net.lock.captured.value;
    hand := w'.net.lock.hand;
  }

  lemma CheckKeeps(w: World, event: RawInput, aimed: (nat, nat), frame: Option<(nat, nat)>, now: nat,
                   order: seq<Held>, w': World)
    requires Core(w) && Check(w, event, aimed, frame, now, order) == Some(w')
    ensures Core(w')
  {
    if CheckInput(w.c, w.net.lock.sender.id, event, aimed, frame, now).1.InputLost? {
      LostCheckKeeps(w);
    } else {
      var c, at, hand := CheckShape(w, event, aimed, frame, now, order, w');
      HeldCheckKeeps(w, c, at, hand);
    }
  }

  lemma LostCheckKeeps(w: World)
    requires Core(w)
    ensures Core(w.(net := w.net.(lock := Free)))
  {
    LockOnlyKeeps(w.c.epoch, w.net, Free);
    FrameKeeps(w, w.net.(lock := Free));
  }

  lemma HeldCheckKeeps(w: World, c: Control, at: Epoch, hand: seq<RawInput>)
    requires Core(w) && w.net.lock.Busy? && w.net.lock.request && w.net.lock.sender.Human?
    requires Holds(w.c, w.net.lock.sender.id) && Holds(c, w.net.lock.sender.id)
    requires c.epoch == w.c.epoch && c.inflight == w.c.inflight && c.pending == w.c.pending
    requires at == w.c.epoch || w.net.lock.captured == Some(at)
    ensures Core(TakeUp(w.(c := c), w.net.lock.sender.id, at, hand))
  {
    HolderKeeps(w, c);
    CaptureOnlyKeeps(w.(c := c), w.net.lock.sender.id, at, hand);
  }

  lemma CaptureOnlyKeeps(w: World, id: LeaseId, at: Epoch, hand: seq<RawInput>)
    requires Core(w) && Holds(w.c, id) && w.net.lock.Busy? && w.net.lock.sender == Human(id)
    requires at == w.c.epoch || (w.net.lock.request && w.net.lock.captured == Some(at))
    ensures Core(TakeUp(w, id, at, hand))
  {
    ClaimKeeps(w.c.epoch, w.net, Human(id));
    InHandKeeps(w.c.epoch, Claim(w.net, w.c.epoch, Human(id)), at, hand);
  }

  lemma EndDischargeKeeps(w: World, tid: nat, confirmed: bool, w': World)
    requires Core(w) && EndDischarge(w, tid, confirmed) == Some(w')
    ensures Core(w')
  {
    DropKeeps(w.c.epoch, w.net, tid, confirmed);
  }
}
