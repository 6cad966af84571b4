/** The invariant holds in every run before the session ends and the epoch counter saturates. */
module ControlRuns {
  import opened Wrappers
  import opened Vocabulary
  import opened ControlState
  import opened ControlWorld
  import opened ControlInvariant
  import opened NetPreserved
  import opened ControlPreserved

  lemma SameSize(m: map<nat, Live>, tid: nat, live: Live)
    requires tid in m
    ensures |m[tid := live]| == |m|
  {
    assert m[tid := live].Keys == m.Keys;
  }

  lemma AgentSendStep(w: World, at: Epoch, events: seq<RawInput>, w': World)
    requires Core(w) && Lift(w, AgentSend(w.net, at, events)) == Some(w')
    ensures Core(w')
  {
    AgentSendKeeps(w.c.epoch, w.net, at, events, w'.net);
    FrameKeeps(w, w'.net);
  }

  lemma SendHandStep(w: World, w': World)
    requires Core(w) && Lift(w, SendHand(w.net)) == Some(w')
    ensures Core(w')
  {
    SendHandKeeps(w.c.epoch, w.net, w'.net);
    FrameKeeps(w, w'.net);
  }

  /** A step of the loop ends no transition. */
  lemma LoopStepSize(n: Net, n': Net)
    requires LoopStep(n) == Some(n')
    ensures |n'.trans| == |n.trans|
  {
    var command := n.queue[0];
    if command.SetEpoch? && command.tid in n.trans {
      SameSize(n.trans, command.tid, n'.trans[command.tid]);
    }
  }

  lemma LoopStepStep(w: World, w': World)
    requires Core(w) && Lift(w, LoopStep(w.net)) == Some(w')
    ensures Core(w')
  {
    LoopStepKeeps(w.c.epoch, w.net, w'.net);
    LoopStepSize(w.net, w'.net);
    FrameKeeps(w, w'.net);
  }

  lemma AcquireStep(w: World, id: LeaseId, w': World)
    requires Core(w) && Lift(w, Acquire(w.net, id)) == Some(w')
    ensures Core(w')
  {
    LockOnlyKeeps(w.c.epoch, w.net, w'.net.lock);
    FrameKeeps(w, w'.net);
  }

  lemma LoseHandStep(w: World, w': World)
    requires Core(w) && Lift(w, LoseHand(w.net)) == Some(w')
    ensures Core(w')
  {
    LoseHandKeeps(w.c.epoch, w.net, w'.net);
    FrameKeeps(w, w'.net);
  }

  lemma UnlockStep(w: World, w': World)
    requires Core(w) && Lift(w, Unlock(w.net)) == Some(w')
    ensures Core(w')
  {
    LockOnlyKeeps(w.c.epoch, w.net, Free);
    FrameKeeps(w, w'.net);
  }

  lemma LockDischargeStep(w: World, tid: nat, order: seq<Held>, w': World)
    requires Core(w) && Lift(w, LockDischarge(w.net, tid, order)) == Some(w')
    ensures Core(w')
  {
    LockDischargeKeeps(w.c.epoch, w.net, tid, order, w'.net);
    SameSize(w.net.trans, tid, w'.net.trans[tid]);
    FrameKeeps(w, w'.net);
  }

  lemma SendEpochStep(w: World, tid: nat, w': World)
    requires Core(w) && Lift(w, SendEpoch(w.net, tid)) == Some(w')
    ensures Core(w')
  {
    SendEpochKeeps(w.c.epoch, w.net, tid, w'.net);
    SameSize(w.net.trans, tid, w'.net.trans[tid]);
    FrameKeeps(w, w'.net);
  }

  lemma TakeStepKeeps(w: World, a: TakeAction, w': World)
    requires Core(w) && ApplyTake(w, a) == Some(w') && !w'.net.saturated
    ensures Core(w')
  {
    match a
    case MarkA(id, address, now) => MarkKeeps(w, id, address, now, w');
    case PollA(id) => PollKeeps(w, id, w');
    case TimeOutA(id) => TimeOutKeeps(w, id, w');
    case SettleA(id) => SettleKeeps(w, id, w');
    case TakeDischargedA(id, confirmed) => DischargedKeeps(w, id, confirmed, w');
    case FinishA(id, now) => FinishKeeps(w, id, now, w');
    case AbandonA(id) => AbandonKeeps(w, id, w');
    case UndoA(id) => UndoKeeps(w, id, w');
  }

  lemma WayStepKeeps(w: World, a: WayAction, w': World)
    requires Core(w) && ApplyWay(w, a) == Some(w') && !w'.net.saturated
    ensures Core(w')
  {
    match a
    case AgentSendA(at, events) => AgentSendStep(w, at, events, w');
    case AcquireA(id) => AcquireStep(w, id, w');
    case SendHandA => SendHandStep(w, w');
    case LoseHandA => LoseHandStep(w, w');
    case UnlockA => UnlockStep(w, w');
    case LockDischargeA(tid, order) => LockDischargeStep(w, tid, order, w');
    case SendEpochA(tid) => SendEpochStep(w, tid, w');
    case EndDischargeA(tid, confirmed) => EndDischargeKeeps(w, tid, confirmed, w');
    case LoopStepA => LoopStepStep(w, w');
  }

  lemma LeaseStepKeeps(w: World, a: LeaseAction, w': World)
    requires Core(w) && ApplyLease(w, a) == Some(w') && !w'.net.saturated && !a.SessionEndsA?
    ensures Core(w')
  {
    match a
    case AdmitAgentA => CaptureKeeps(w, w');
    case BootstrapA => CaptureKeeps(w, w');
    case CuaAdmitA(count, takeover) => CuaAdmitKeeps(w, count, takeover, w');
    case CuaFinishA(count) => CountKeeps(w, count, w');
    case TakeoverA => TakeoverKeeps(w, w');
    case EndA(reason) => EndKeeps(w, reason, w');
    case SeeExpiredA(op, now, idleTimeout) => SeeExpiredKeeps(w, op, now, idleTimeout, w');
    case ExpireA(op) => ExpireKeeps(w, op, w');
    case ReleaseA(id) => GiveUpKeeps(w, id, w');
  }

  lemma HolderStepKeeps(w: World, a: HolderAction, w': World)
    requires Core(w) && ApplyHolder(w, a) == Some(w') && !w'.net.saturated
    ensures Core(w')
  {
    match a
    case BeatA(id, now) => BeatKeeps(w, id, now, w');
    case BlurA(id, now) => BlurKeeps(w, id, now, w');
    case CheckA(event, aimed, frame, now, order) => CheckKeeps(w, event, aimed, frame, now, order, w');
  }

  /** One action keeps the invariant, whatever the action is. */
  lemma StepKeeps(w: World, a: Action, w': World)
    requires Core(w) && Apply(w, a) == Some(w') && !w'.net.saturated && !w'.over
    ensures Core(w')
  {
    match a
    case Taking(take) => TakeStepKeeps(w, take, w');
    case OnTheWay(way) => WayStepKeeps(w, way, w');
    case Leading(lead) => LeaseStepKeeps(w, lead, w');
    case Holding(hold) => HolderStepKeeps(w, hold, w');
  }

  lemma TakeKeepsSaturated(w: World, a: TakeAction, w': World)
    requires ApplyTake(w, a) == Some(w') && w.net.saturated
    ensures w'.net.saturated
  {
  }

  lemma WayKeepsSaturated(w: World, a: WayAction, w': World)
    requires ApplyWay(w, a) == Some(w') && w.net.saturated
    ensures w'.net.saturated
  {
  }

  lemma LeaseKeepsSaturated(w: World, a: LeaseAction, w': World)
    requires ApplyLease(w, a) == Some(w') && w.net.saturated
    ensures w'.net.saturated
  {
  }

  lemma HolderKeepsSaturated(w: World, a: HolderAction, w': World)
    requires ApplyHolder(w, a) == Some(w') && w.net.saturated
    ensures w'.net.saturated
  {
  }

  /** Saturation is never taken back. */
  lemma SaturationStays(w: World, a: Action, w': World)
    requires Apply(w, a) == Some(w') && w.net.saturated
    ensures w'.net.saturated
  {
    match a
    case Taking(take) => TakeKeepsSaturated(w, take, w');
    case OnTheWay(way) => WayKeepsSaturated(w, way, w');
    case Leading(lead) => LeaseKeepsSaturated(w, lead, w');
    case Holding(hold) => HolderKeepsSaturated(w, hold, w');
  }

  lemma {:induction false} RunKeeps(run: seq<Action>, w: World)
    requires Execute(run) == Some(w) && !w.net.saturated && !w.over
    ensures Core(w)
  {
    if run != [] {
      var before := Execute(run[..|run| - 1]).value;
      if before.net.saturated {
        SaturationStays(before, run[|run| - 1], w);
      }
      RunKeeps(run[..|run| - 1], before);
      StepKeeps(before, run[|run| - 1], w);
    }
  }
}
