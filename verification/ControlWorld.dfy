/**
 One session as a step machine: the control state, every operation in progress between two of its
 awaits, and the session loop behind its queue. Each action is one critical section, one answered
 await or one step of the loop; actions interleave freely.
 */
module ControlWorld {
  import opened Wrappers
  import opened Vocabulary
  import opened ControlState
  import L = SessionLoop

  /** Who sends input. */
  datatype Owner = Agent | Human(id: LeaseId)

  /** A command in the queue of the session loop. */
  datatype Command =
    | Input(epoch: Epoch, events: seq<RawInput>, sender: Owner)
    | SetEpoch(epoch: Epoch, tid: nat)

  /** The session loop. `held` also says who pressed each key; the loop itself keeps only the keys. */
  datatype Loop = Loop(epoch: Epoch, held: map<Held, Owner>)

  /** How far the discharge of a transition is. */
  datatype Delivery = Unsent | Sent | Confirmed

  /** A transition that is neither discharged nor dropped. `holder` pressed what it releases. */
  datatype Live = Live(t: Transition, holder: Owner, take: Option<LeaseId>, delivery: Delivery)

  /** Where a human take is. */
  datatype Phase =
    | Moving(tid: nat)           // from another tab: its epoch change is being discharged
    | Draining                   // from another tab: waits for earlier releases
    | Settling                   // from the agent: waits for calls in flight
    | Releasing                  // from the agent: waits for earlier releases
    | Settled(inTime: bool)      // from the agent: the waits are over or timed out
    | Changing(tid: nat)         // from the agent: its epoch change is being discharged
    | Deciding(confirmed: bool)  // the last section is next
    | Abandoned                  // the caller went away; the take is about to be undone

  /** Who holds the input lock, the epoch it sends with, and what it still has to send. */
  datatype InputLock =
    | Free
    | Busy(request: bool, sender: Owner, captured: Option<Epoch>, hand: seq<RawInput>)

  /**
   Everything on the way to the session loop. `changer` is the transition of the last epoch change.
   The fields after `lock` are history: which controller captured which epoch, what the loop
   applied, which releases were not delivered since the last grant, whether the newest epoch change
   was not given up unconfirmed, and whether the epoch counter saturated.
   */
  datatype Net = Net(
    loop: Loop,
    queue: seq<Command>,
    trans: map<nat, Live>,
    nextTid: nat,
    changer: Option<nat>,
    lock: InputLock,
    claims: set<(Epoch, Owner)>,
    applied: seq<(Epoch, Owner)>,
    lost: set<Held>,
    newestKept: bool,
    saturated: bool)

  /** An expiry between its two sections: the lease it found expired, and why. */
  datatype Expiry = Expiry(found: LeaseId, reason: EndReason)

  /** The session; `issued` holds every lease id ever drawn, `expiring` the expiries between their sections. */
  datatype World = World(
    c: Control,
    net: Net,
    takes: map<LeaseId, Phase>,
    issued: set<LeaseId>,
    expiring: map<nat, Expiry>,
    over: bool)

  const Quiet := Net(Loop(0, map[]), [], map[], 0, None, Free, {}, [], {}, true, false)

  const Start := World(Initial, Quiet, map[], {}, map[], false)

  // ----- transitions -----

  /** A new transition waits for its discharge; `before` is the epoch before it was created. */
  function Register(n: Net, before: Epoch, t: Transition, holder: Owner, take: Option<LeaseId>): Net {
    n.(trans := n.trans[n.nextTid := Live(t, holder, take, Unsent)],
       nextTid := n.nextTid + 1,
       changer := if t.change.Some? then Some(n.nextTid) else n.changer,
       newestKept := n.newestKept || t.change.Some?,
       saturated := n.saturated || (t.change.Some? && before == MAX_EPOCH))
  }

  function RegisterIf(n: Net, before: Epoch, t: Option<Transition>): Net {
    if t.Some? then Register(n, before, t.value, Agent, None) else n
  }

  /** The transition `tid` ends, with or without the answer of the loop. */
  function Drop(n: Net, tid: nat, confirmed: bool): Net
    requires tid in n.trans
  {
    var live := n.trans[tid];
    n.(trans := n.trans - {tid},
       lost := if live.delivery.Unsent? then n.lost + live.t.release else n.lost,
       newestKept := n.newestKept && (n.changer == Some(tid) ==> confirmed))
  }

  /** A controller captures `epoch` for what it will send. */
  function Claim(n: Net, epoch: Epoch, owner: Owner): Net {
    n.(claims := n.claims + {(epoch, owner)})
  }

  // ----- human takes -----

  /** The transition a take is discharging. */
  function TidOf(p: Phase): Option<nat> {
    if p.Moving? || p.Changing? then Some(p.tid) else None
  }

  /** A take marks the lease: the old lease ends at once. */
  function Mark(w: World, id: LeaseId, address: string, now: nat): Option<World> {
    if id in w.issued then None
    else
      var (c, moved) := MarkTake(w.c, id, address, now);
      if moved.None? then Some(w.(c := c, takes := w.takes[id := Settling], issued := w.issued + {id}))
      else
        Some(w.(c := c, net := Register(w.net, w.c.epoch, moved.value, Agent, Some(id)),
                takes := w.takes[id := Moving(w.net.nextTid)], issued := w.issued + {id}))
  }

  /** Where a take is after the poll that ends its wait. */
  function AfterPoll(p: Phase, c: Control): Option<Phase> {
    match p
    case Settling => if c.inflight == 0 then Some(Releasing) else None
    case Releasing => if c.pending == 0 then Some(Settled(true)) else None
    case Draining => if c.pending == 0 then Some(Deciding(true)) else None
    case _ => None
  }

  /** A poll of `wait_settled` or `wait_released` in a take finds its condition true. */
  function Poll(w: World, id: LeaseId): Option<World> {
    if id !in w.takes || AfterPoll(w.takes[id], w.c).None? then None
    else Some(w.(takes := w.takes[id := AfterPoll(w.takes[id], w.c).value]))
  }

  /** Where a take is when its bound expires while it waits. */
  function AfterTimeout(p: Phase): Option<Phase> {
    match p
    case Settling => Some(Settled(false))
    case Releasing => Some(Settled(false))
    case Draining => Some(Deciding(false))
    case _ => None
  }

  function TimeOut(w: World, id: LeaseId): Option<World> {
    if id !in w.takes || AfterTimeout(w.takes[id]).None? then None
    else Some(w.(takes := w.takes[id := AfterTimeout(w.takes[id]).value]))
  }

  /** A take from the agent changes the epoch, or finds itself displaced or too late. */
  function Settle(w: World, id: LeaseId): Option<World> {
    if id !in w.takes || !w.takes[id].Settled? then None
    else
      var (c, answer) := SettleTake(w.c, id, w.takes[id].inTime);
      if !answer.SettleAdvanced? then Some(w.(c := c, takes := w.takes - {id}))
      else
        Some(w.(c := c, net := Register(w.net, w.c.epoch, answer.transition, Agent, Some(id)),
                takes := w.takes[id := Changing(w.net.nextTid)]))
  }

  /** The discharge of a take returns; it is confirmed only when the loop answered. */
  function TakeDischarged(w: World, id: LeaseId, confirmed: bool): Option<World> {
    if id !in w.takes || TidOf(w.takes[id]).None? then None
    else
      var tid := TidOf(w.takes[id]).value;
      if tid !in w.net.trans || (confirmed && !w.net.trans[tid].delivery.Confirmed?) then None
      else
        Some(w.(c := Discharged(w.c), net := Drop(w.net, tid, confirmed),
                takes := w.takes[id := if w.takes[id].Moving? && confirmed then Draining else Deciding(confirmed)]))
  }

  /** The last section of a take. */
  function Finish(w: World, id: LeaseId, now: nat): Option<World> {
    if id !in w.takes || !w.takes[id].Deciding? then None
    else
      var (c, answer) := FinishTake(w.c, id, w.takes[id].confirmed, now);
      Some(w.(c := c, net := if answer.FinishGranted? then w.net.(lost := {}) else w.net, takes := w.takes - {id}))
  }

  /** A take can be abandoned only at an await. */
  predicate Awaits(p: Phase) {
    !p.Settled? && !p.Deciding? && !p.Abandoned?
  }

  /** The caller of a take goes away at an await: what it discharges is dropped first. */
  function Abandon(w: World, id: LeaseId): Option<World> {
    if id !in w.takes || !Awaits(w.takes[id]) then None
    else if TidOf(w.takes[id]).None? then Some(w.(takes := w.takes[id := Abandoned]))
    else if TidOf(w.takes[id]).value !in w.net.trans then None
    else
      Some(w.(c := Discharged(w.c), net := Drop(w.net, TidOf(w.takes[id]).value, false),
              takes := w.takes[id := Abandoned]))
  }

  /** An abandoned take undoes its lease. */
  function Undo(w: World, id: LeaseId): Option<World> {
    if id in w.takes && w.takes[id].Abandoned?
    then Some(w.(c := UndoTake(w.c, id), takes := w.takes - {id})) else None
  }

  // ----- the agent -----

  /** A native agent action is admitted and captures the epoch. */
  function AdmitAgent(w: World): Option<World> {
    match PollAgent(w.c)
    case Admitted(epoch) => Some(w.(net := Claim(w.net, epoch, Agent)))
    case _ => None
  }

  /** The bootstrap captures the epoch; takes are refused while it is marked, so no lease exists. */
  function Bootstrap(w: World): Option<World> {
    if w.c.lease.None? then Some(w.(net := Claim(w.net, w.c.epoch, Agent))) else None
  }

  function CuaAdmit(w: World, count: nat, takeover: bool): Option<World> {
    var (c, answer) := AdmitCua(w.c, count, takeover);
    if answer.CuaRefused? then None
    else Some(w.(c := c, net := RegisterIf(w.net, w.c.epoch, answer.transition)))
  }

  function CuaFinish(w: World, count: nat): Option<World> {
    Some(w.(c := FinishCua(w.c, count)))
  }

  // ----- lease ends -----

  function Takeover(w: World): Option<World> {
    var (c, t) := AgentTakeover(w.c);
    Some(w.(c := c, net := RegisterIf(w.net, w.c.epoch, t)))
  }

  /** A lease ends for `reason`. */
  function End(w: World, reason: EndReason): Option<World> {
    var (c, t) := EndHuman(w.c, reason);
    Some(w.(c := c, net := RegisterIf(w.net, w.c.epoch, t)))
  }

  /** The first section of an expiry finds the granted lease expired. */
  function SeeExpired(w: World, op: nat, now: nat, idleTimeout: nat): Option<World> {
    var reason := ExpireReason(w.c, now, idleTimeout);
    if op in w.expiring || reason.None? then None
    else Some(w.(expiring := w.expiring[op := Expiry(w.c.lease.value.id, reason.value)]))
  }

  /** Its second section ends the lease it meets. */
  function Expire(w: World, op: nat): Option<World> {
    if op !in w.expiring then None else End(w.(expiring := w.expiring - {op}), w.expiring[op].reason)
  }

  /** The session ends: the last action of a run. */
  function SessionEnds(w: World): Option<World> {
    var (c, t) := EndHumanEnded(w.c);
    Some(w.(c := c, net := RegisterIf(w.net, w.c.epoch, t), over := true))
  }

  function GiveUp(w: World, id: LeaseId): Option<World> {
    var (c, answer) := ReleaseLease(w.c, id);
    if answer.Err? then None
    else Some(w.(c := c, net := Register(w.net, w.c.epoch, answer.value, Agent, None)))
  }

  // ----- the holder -----

  function Beat(w: World, id: LeaseId, now: nat): Option<World> {
    Some(w.(c := Heartbeat(w.c, id, now).0))
  }

  function BlurLease(w: World, id: LeaseId, now: nat): Option<World> {
    var (c, answer) := Blur(w.c, id, now);
    if answer.Err? then None
    else
      Some(w.(c := c, net := Register(Claim(w.net, w.c.epoch, Human(id)), w.c.epoch, answer.value, Human(id), None)))
  }

  /** The request at the input lock checks its lease for the next event. `order` lists what a fence releases. */
  function Check(w: World, event: RawInput, aimed: (nat, nat), frame: Option<(nat, nat)>, now: nat,
                 order: seq<Held>): Option<World>
  {
    if w.net.lock.Free? || !w.net.lock.request || !w.net.lock.sender.Human? || w.net.lock.hand != [] then None
    else
      var id := w.net.lock.sender.id;
      var (c, answer) := CheckInput(w.c, id, event, aimed, frame, now);
      if answer.InputLost? then Some(w.(net := w.net.(lock := Free)))
      else if answer.Fenced? && !Lists(order, answer.buttons) then None
      else
        var at := if w.net.lock.captured.Some? then w.net.lock.captured.value else w.c.epoch;
        var hand := if answer.Fenced? then ReleasesOf(order) else [event];
        Some(TakeUp(w.(c := c), id, at, hand))
  }

  /** The holder `id` captures the epoch and takes `hand` in hand. */
  function TakeUp(w: World, id: LeaseId, at: Epoch, hand: seq<RawInput>): World
    requires w.net.lock.Busy?
  {
    w.(net := TakeInHand(Claim(w.net, w.c.epoch, Human(id)), at, hand))
  }

  function TakeInHand(n: Net, at: Epoch, hand: seq<RawInput>): Net
    requires n.lock.Busy?
  {
    n.(lock := n.lock.(captured := Some(at), hand := hand))
  }

  // ----- sending -----

  function Send(n: Net, command: Command): Net {
    n.(queue := n.queue + [command])
  }

  /** An admitted agent operation sends a batch with the epoch it captured. */
  function AgentSend(n: Net, epoch: Epoch, events: seq<RawInput>): Option<Net> {
    if (epoch, Agent) in n.claims then Some(Send(n, Input(epoch, events, Agent))) else None
  }

  /** An input request gets the input lock. */
  function Acquire(n: Net, id: LeaseId): Option<Net> {
    if n.lock.Free? then Some(n.(lock := Busy(true, Human(id), None, []))) else None
  }

  /** The queue of the loop takes what the lock holder has in hand. */
  function SendHand(n: Net): Option<Net> {
    if n.lock.Free? || n.lock.hand == [] || n.lock.captured.None? then None
    else
      Some(Send(n.(lock := n.lock.(hand := [])),
                Input(n.lock.captured.value, n.lock.hand, n.lock.sender)))
  }

  /** The keys and buttons that `events` release. */
  function Lifted(events: seq<RawInput>): set<Held> {
    set i | 0 <= i < |events| && (events[i].ButtonInput? || events[i].KeyInput?) && !events[i].down
      :: Subject(events[i])
  }

  /** What is in hand is not taken in time, or its sender goes away. */
  function LoseHand(n: Net): Option<Net> {
    if n.lock.Free? then None
    else Some(n.(lost := n.lost + Lifted(n.lock.hand), lock := n.lock.(hand := [])))
  }

  /** The input lock is given back. */
  function Unlock(n: Net): Option<Net> {
    if n.lock.Busy? && n.lock.hand == [] then Some(n.(lock := Free)) else None
  }

  /** The discharge of a transition without an epoch change gets the input lock. */
  function LockDischarge(n: Net, tid: nat, order: seq<Held>): Option<Net> {
    if !n.lock.Free? || tid !in n.trans then None
    else
      var live := n.trans[tid];
      if live.t.change.Some? || !live.delivery.Unsent? || !Lists(order, live.t.release) then None
      else
        Some(n.(lock := Busy(false, live.holder, Some(live.t.at), ReleasesOf(order)),
                trans := n.trans[tid := live.(delivery := Sent)]))
  }

  /** The queue of the loop takes an epoch change. */
  function SendEpoch(n: Net, tid: nat): Option<Net> {
    if tid !in n.trans then None
    else
      var live := n.trans[tid];
      if live.t.change.None? || !live.delivery.Unsent? then None
      else
        Some(Send(n.(trans := n.trans[tid := live.(delivery := Sent)]), SetEpoch(live.t.change.value, tid)))
  }

  /** A discharge outside a take returns or is dropped. */
  function EndDischarge(w: World, tid: nat, confirmed: bool): Option<World> {
    if tid !in w.net.trans then None
    else
      var live := w.net.trans[tid];
      if live.take.Some? || (confirmed && live.t.change.Some? && !live.delivery.Confirmed?) then None
      else Some(w.(c := Discharged(w.c), net := Drop(w.net, tid, confirmed)))
  }

  // ----- the session loop -----

  function TrackBy(held: map<Held, Owner>, event: RawInput, sender: Owner): map<Held, Owner> {
    match event
    case ButtonInput(button, down) => if down then held[Button(button) := sender] else held - {Button(button)}
    case KeyInput(code, extended, down) =>
      if down then held[Key(code, extended) := sender] else held - {Key(code, extended)}
    case PointerMove(_, _) => held
    case Wheel(_, _) => held
  }

  function TrackAllBy(held: map<Held, Owner>, events: seq<RawInput>, sender: Owner): map<Held, Owner>
    decreases |events|
  {
    if events == [] then held else TrackAllBy(TrackBy(held, events[0], sender), events[1..], sender)
  }

  function AdoptBy(loop: Loop, epoch: Epoch): Loop {
    if epoch > loop.epoch then Loop(epoch, map[]) else loop
  }

  function ApplyBy(loop: Loop, epoch: Epoch, events: seq<RawInput>, sender: Owner): Loop {
    var adopted := AdoptBy(loop, epoch);
    adopted.(held := TrackAllBy(adopted.held, events, sender))
  }

  /** The loop takes the next command of its queue and answers it. */
  function LoopStep(n: Net): Option<Net> {
    if n.queue == [] then None
    else
      var rest := n.(queue := n.queue[1..]);
      match n.queue[0]
      case Input(epoch, events, sender) =>
        if epoch < n.loop.epoch then Some(rest)
        else
          Some(rest.(loop := ApplyBy(n.loop, epoch, events, sender), applied := n.applied + [(epoch, sender)]))
      case SetEpoch(epoch, tid) =>
        Some(rest.(loop := AdoptBy(n.loop, epoch),
                   trans := if tid in n.trans then n.trans[tid := n.trans[tid].(delivery := Confirmed)] else n.trans))
  }

  /** An action that touches only what is on the way to the loop. */
  function Lift(w: World, n: Option<Net>): Option<World> {
    if n.None? then None else Some(w.(net := n.value))
  }

  // ----- runs -----

  /** A step of a human take. */
  datatype TakeAction =
    | MarkA(id: LeaseId, address: string, now: nat)
    | PollA(id: LeaseId)
    | TimeOutA(id: LeaseId)
    | SettleA(id: LeaseId)
    | TakeDischargedA(id: LeaseId, confirmed: bool)
    | FinishA(id: LeaseId, now: nat)
    | AbandonA(id: LeaseId)
    | UndoA(id: LeaseId)

  /** A step on the way to the session loop. */
  datatype WayAction =
    | AgentSendA(epoch: Epoch, events: seq<RawInput>)
    | AcquireA(id: LeaseId)
    | SendHandA
    | LoseHandA
    | UnlockA
    | LockDischargeA(tid: nat, order: seq<Held>)
    | SendEpochA(tid: nat)
    | EndDischargeA(tid: nat, confirmed: bool)
    | LoopStepA

  /** A step of the agent, or the end of a lease. */
  datatype LeaseAction =
    | AdmitAgentA
    | BootstrapA
    | CuaAdmitA(count: nat, takeover: bool)
    | CuaFinishA(count: nat)
    | TakeoverA
    | EndA(reason: EndReason)
    | SeeExpiredA(op: nat, now: nat, idleTimeout: nat)
    | ExpireA(op: nat)
    | SessionEndsA
    | ReleaseA(id: LeaseId)

  /** A step of the holder. */
  datatype HolderAction =
    | BeatA(id: LeaseId, now: nat)
    | BlurA(id: LeaseId, now: nat)
    | CheckA(event: RawInput, aimed: (nat, nat), frame: Option<(nat, nat)>, now: nat, order: seq<Held>)

  datatype Action =
    | Taking(take: TakeAction)
    | OnTheWay(way: WayAction)
    | Leading(lead: LeaseAction)
    | Holding(hold: HolderAction)

  function ApplyTake(w: World, a: TakeAction): Option<World> {
    match a
    case MarkA(id, address, now) => Mark(w, id, address, now)
    case PollA(id) => Poll(w, id)
    case TimeOutA(id) => TimeOut(w, id)
    case SettleA(id) => Settle(w, id)
    case TakeDischargedA(id, confirmed) => TakeDischarged(w, id, confirmed)
    case FinishA(id, now) => Finish(w, id, now)
    case AbandonA(id) => Abandon(w, id)
    case UndoA(id) => Undo(w, id)
  }

  function ApplyWay(w: World, a: WayAction): Option<World> {
    match a
    case AgentSendA(epoch, events) => Lift(w, AgentSend(w.net, epoch, events))
    case AcquireA(id) => Lift(w, Acquire(w.net, id))
    case SendHandA => Lift(w, SendHand(w.net))
    case LoseHandA => Lift(w, LoseHand(w.net))
    case UnlockA => Lift(w, Unlock(w.net))
    case LockDischargeA(tid, order) => Lift(w, LockDischarge(w.net, tid, order))
    case SendEpochA(tid) => Lift(w, SendEpoch(w.net, tid))
    case EndDischargeA(tid, confirmed) => EndDischarge(w, tid, confirmed)
    case LoopStepA => Lift(w, LoopStep(w.net))
  }

  function ApplyLease(w: World, a: LeaseAction): Option<World> {
    match a
    case AdmitAgentA => AdmitAgent(w)
    case BootstrapA => Bootstrap(w)
    case CuaAdmitA(count, takeover) => CuaAdmit(w, count, takeover)
    case CuaFinishA(count) => CuaFinish(w, count)
    case TakeoverA => Takeover(w)
    case EndA(reason) => End(w, reason)
    case SeeExpiredA(op, now, idleTimeout) => SeeExpired(w, op, now, idleTimeout)
    case ExpireA(op) => Expire(w, op)
    case SessionEndsA => SessionEnds(w)
    case ReleaseA(id) => GiveUp(w, id)
  }

  function ApplyHolder(w: World, a: HolderAction): Option<World> {
    match a
    case BeatA(id, now) => Beat(w, id, now)
    case BlurA(id, now) => BlurLease(w, id, now)
    case CheckA(event, aimed, frame, now, order) => Check(w, event, aimed, frame, now, order)
  }

  /** One action, if it is possible now. Nothing happens after the session ended. */
  function Apply(w: World, a: Action): Option<World> {
    if w.over then None
    else match a
    case Taking(take) => ApplyTake(w, take)
    case OnTheWay(way) => ApplyWay(w, way)
    case Leading(lead) => ApplyLease(w, lead)
    case Holding(hold) => ApplyHolder(w, hold)
  }

  /** The session after `run`, if every action of it is possible in turn. */
  function Execute(run: seq<Action>): Option<World> {
    if run == [] then Some(Start)
    else match Execute(run[..|run| - 1])
    case None => None
    case Some(w) => Apply(w, run[|run| - 1])
  }
}
