/** While a lease stays granted, everything that is down in the loop is accounted for. */
module ControlOrphans {
  import SessionLoop
  import opened Wrappers
  import opened Vocabulary
  import opened ControlState
  import opened ControlWorld
  import opened ControlInvariant
  import opened ControlRuns

  // ----- what will be down once everything on the way is applied -----

  function AfterCommand(held: set<Held>, command: Command, epoch: Epoch): set<Held> {
    if command.Input? && command.epoch == epoch then TrackAll(held, command.events) else held
  }

  function AfterQueue(held: set<Held>, queue: seq<Command>, epoch: Epoch): set<Held>
    decreases |queue|
  {
    if queue == [] then held else AfterQueue(AfterCommand(held, queue[0], epoch), queue[1..], epoch)
  }

  function AfterHand(held: set<Held>, lock: InputLock, epoch: Epoch): set<Held> {
    if lock.Busy? && lock.captured == Some(epoch) then TrackAll(held, lock.hand) else held
  }

  function Outcome(n: Net, epoch: Epoch): set<Held> {
    AfterHand(AfterQueue(n.loop.held.Keys, n.queue, epoch), n.lock, epoch)
  }

  /** A transition of `epoch` that nobody sent yet releases `k`. */
  ghost predicate Owed(n: Net, epoch: Epoch, k: Held) {
    exists tid :: tid in n.trans && n.trans[tid].delivery.Unsent? && n.trans[tid].t.at == epoch
                  && k in n.trans[tid].t.release
  }

  /** Whatever stays down is held by the lease, released by an unsent blur, or its release was lost. */
  ghost predicate Covered(c: Control, n: Net) {
    c.lease.Some? && c.lease.value.granted ==>
      forall k :: k in Outcome(n, c.epoch) ==> k in c.lease.value.held || k in n.lost || Owed(n, c.epoch, k)
  }

  /** A lease owns the epoch it was granted with and no other. */
  ghost predicate Single(w: World) {
    && (forall e, id :: (e, Human(id)) in w.net.claims ==> id in w.issued)
    && (forall e, e', id :: (e, Human(id)) in w.net.claims && (e', Human(id)) in w.net.claims ==> e == e')
    && (w.c.lease.Some? ==> forall e :: (e, Human(w.c.lease.value.id)) in w.net.claims ==>
          w.c.lease.value.granted && e == w.c.epoch)
  }

  ghost predicate Accounted(w: World) {
    Core(w) && Single(w) && Covered(w.c, w.net)
  }

  // ----- folds -----

  lemma {:induction false} QueueAppend(held: set<Held>, queue: seq<Command>, command: Command, epoch: Epoch)
    ensures AfterQueue(held, queue + [command], epoch) == AfterCommand(AfterQueue(held, queue, epoch), command, epoch)
    decreases |queue|
  {
    if queue == [] {
      assert queue + [command] == [command];
    } else {
      assert (queue + [command])[1..] == queue[1..] + [command];
      QueueAppend(AfterCommand(held, queue[0], epoch), queue[1..], command, epoch);
    }
  }

  lemma {:induction false} QueueOfOthers(held: set<Held>, queue: seq<Command>, epoch: Epoch)
    requires forall i :: 0 <= i < |queue| && queue[i].Input? ==> queue[i].epoch != epoch
    ensures AfterQueue(held, queue, epoch) == held
    decreases |queue|
  {
    if queue != [] {
      QueueOfOthers(held, queue[1..], epoch);
    }
  }

  /** The loop keeps the same keys whether or not it remembers who pressed them. */
  lemma {:induction false} BatchKeys(held: map<Held, Owner>, events: seq<RawInput>, sender: Owner)
    ensures TrackAllBy(held, events, sender).Keys == TrackAll(held.Keys, events)
    decreases |events|
  {
    if events != [] {
      assert TrackBy(held, events[0], sender).Keys == Track(held.Keys, events[0]);
      BatchKeys(TrackBy(held, events[0], sender), events[1..], sender);
    }
  }

  function Plain(loop: Loop): SessionLoop.LoopState {
    SessionLoop.LoopState(loop.epoch, loop.held.Keys)
  }

  /** The loop of the step machine, without its notes on who pressed what, is the session loop. */
  lemma LoopStepIsTheLoop(n: Net, n': Net)
    requires LoopStep(n) == Some(n')
    ensures match n.queue[0]
            case Input(epoch, events, _) =>
              && Plain(n'.loop) == SessionLoop.ApplyBatch(Plain(n.loop), epoch, events).0
              && (n'.applied == n.applied <==> SessionLoop.ApplyBatch(Plain(n.loop), epoch, events).1.Err?)
            case SetEpoch(epoch, _) => Plain(n'.loop) == SessionLoop.Adopt(Plain(n.loop), epoch).0
  {
    assert Plain(AdoptBy(n.loop, n.queue[0].epoch)).held == SessionLoop.Adopt(Plain(n.loop), n.queue[0].epoch).0.held;
    if n.queue[0].Input? {
      var command := n.queue[0];
      BatchKeys(AdoptBy(n.loop, command.epoch).held, command.events, command.sender);
      assert |n'.applied| == |n.applied| + if command.epoch < n.loop.epoch then 0 else 1;
    }
  }

  /** Losing what is in hand can only leave down what it was to release. */
  lemma LostHand(held: set<Held>, hand: seq<RawInput>, k: Held)
    requires k in held
    ensures k in TrackAll(held, hand) || k in Lifted(hand)
  {
    OnlyReleasesLift(held, hand, k);
    if k !in TrackAll(held, hand) {
      var i :| 0 <= i < |hand| && Releases(hand[i], k);
      assert Subject(hand[i]) in Lifted(hand);
    }
  }

  // ----- the actions -----

  /** A grant starts with nothing down and nothing on the way. */
  lemma GrantCovers(c: Control, n: Net)
    requires NetInv(c.epoch, n) && Fresh(c.epoch, n) && n.loop.epoch == c.epoch
    ensures n.loop.held == map[] && Outcome(n, c.epoch) == {}
  {
    assert forall k :: k !in n.loop.held;
    forall i | 0 <= i < |n.queue| && n.queue[i].Input? ensures n.queue[i].epoch != c.epoch {
      assert (n.queue[i].epoch, n.queue[i].sender) in n.claims;
    }
    assert n.loop.held.Keys == {};
    QueueOfOthers({}, n.queue, c.epoch);
    if n.lock.Busy? && n.lock.captured == Some(c.epoch) {
      assert (c.epoch, n.lock.sender) !in n.claims;
      assert n.lock.hand == [];
    }
  }

  lemma SendCovers(c: Control, n: Net, n': Net)
    requires Covered(c, n) && SendHand(n) == Some(n')
    ensures Covered(c, n')
  {
    var command := Input(n.lock.captured.value, n.lock.hand, n.lock.sender);
    QueueAppend(n.loop.held.Keys, n.queue, command, c.epoch);
    assert forall k :: Owed(n, c.epoch, k) ==> Owed(n', c.epoch, k);
  }

  lemma AgentSendCovers(c: Control, n: Net, at: Epoch, events: seq<RawInput>, n': Net)
    requires Covered(c, n) && AgentSend(n, at, events) == Some(n')
    requires c.lease.Some? && c.lease.value.granted ==> ClaimedBy(c.epoch, n, Human(c.lease.value.id))
    ensures Covered(c, n')
  {
    QueueAppend(n.loop.held.Keys, n.queue, Input(at, events, Agent), c.epoch);
    assert forall k :: Owed(n, c.epoch, k) ==> Owed(n', c.epoch, k);
  }

  lemma EpochSendCovers(c: Control, n: Net, tid: nat, n': Net)
    requires Covered(c, n) && NetInv(c.epoch, n) && SendEpoch(n, tid) == Some(n')
    ensures Covered(c, n')
  {
    QueueAppend(n.loop.held.Keys, n.queue, SetEpoch(n.trans[tid].t.change.value, tid), c.epoch);
    forall k | Owed(n, c.epoch, k) ensures Owed(n', c.epoch, k) {
      var owing :| owing in n.trans && n.trans[owing].delivery.Unsent? && n.trans[owing].t.at == c.epoch
                   && k in n.trans[owing].t.release;
      assert n'.trans[owing] == n.trans[owing];
    }
  }

  lemma LoseCovers(c: Control, n: Net, n': Net)
    requires Covered(c, n) && LoseHand(n) == Some(n')
    ensures Covered(c, n')
  {
    var queued := AfterQueue(n.loop.held.Keys, n.queue, c.epoch);
    forall k | k in queued ensures k in Outcome(n, c.epoch) || k in n'.lost {
      LostHand(queued, n.lock.hand, k);
    }
    assert forall k :: Owed(n, c.epoch, k) ==> Owed(n', c.epoch, k);
  }

  lemma LockCovers(c: Control, n: Net, n': Net)
    requires Covered(c, n) && (Unlock(n) == Some(n') || exists id :: Acquire(n, id) == Some(n'))
    ensures Covered(c, n')
  {
    assert forall k :: Owed(n, c.epoch, k) ==> Owed(n', c.epoch, k);
  }

  lemma DischargeCovers(c: Control, n: Net, tid: nat, order: seq<Held>, n': Net)
    requires Covered(c, n) && LockDischarge(n, tid, order) == Some(n')
    ensures Covered(c, n')
  {
    var queued := AfterQueue(n.loop.held.Keys, n.queue, c.epoch);
    var live := n.trans[tid];
    if live.t.at == c.epoch {
      ReleasesEmpty(queued, order);
      assert Outcome(n', c.epoch) == queued - live.t.release;
    }
    forall k | Owed(n, c.epoch, k) && !(live.t.at == c.epoch && k in live.t.release) ensures Owed(n', c.epoch, k) {
      var owing :| owing in n.trans && n.trans[owing].delivery.Unsent? && n.trans[owing].t.at == c.epoch
                   && k in n.trans[owing].t.release;
      assert n'.trans[owing] == n.trans[owing];
    }
  }

  lemma DropCovers(c: Control, n: Net, tid: nat, confirmed: bool)
    requires Covered(c, n) && tid in n.trans
    ensures Covered(c, Drop(n, tid, confirmed))
  {
    var n' := Drop(n, tid, confirmed);
    forall k | Owed(n, c.epoch, k) ensures Owed(n', c.epoch, k) || k in n'.lost {
      var owing :| owing in n.trans && n.trans[owing].delivery.Unsent? && n.trans[owing].t.at == c.epoch
                   && k in n.trans[owing].t.release;
      assert owing != tid ==> owing in n'.trans && n'.trans[owing] == n.trans[owing];
    }
  }

  lemma LoopCovers(c: Control, n: Net, n': Net)
    requires Covered(c, n) && NetInv(c.epoch, n) && LoopStep(n) == Some(n')
    requires c.lease.Some? && c.lease.value.granted ==> n.loop.epoch == c.epoch
    ensures Covered(c, n')
  {
    if c.lease.Some? && c.lease.value.granted {
      var command := n.queue[0];
      if command.Input? && command.epoch == c.epoch {
        BatchKeys(n.loop.held, command.events, command.sender);
      }
      assert Outcome(n', c.epoch) == Outcome(n, c.epoch);
      forall k | Owed(n, c.epoch, k) ensures Owed(n', c.epoch, k) {
        var owing :| owing in n.trans && n.trans[owing].delivery.Unsent? && n.trans[owing].t.at == c.epoch
                     && k in n.trans[owing].t.release;
        assert !(command.SetEpoch? && command.tid == owing);
        assert n'.trans[owing] == n.trans[owing];
      }
    }
  }

  lemma BlurCovers(w: World, id: LeaseId, now: nat, w': World)
    requires Covered(w.c, w.net) && w.net.nextTid !in w.net.trans && BlurLease(w, id, now) == Some(w')
    ensures Covered(w'.c, w'.net)
  {
    var n := w.net;
    var n' := w'.net;
    assert n'.trans[n.nextTid].t.release == w.c.lease.value.held;
    forall k | k in w.c.lease.value.held || Owed(n, w.c.epoch, k) ensures Owed(n', w.c.epoch, k) {
      if k in w.c.lease.value.held {
        assert n'.trans[n.nextTid].delivery.Unsent?;
      } else {
        var owing :| owing in n.trans && n.trans[owing].delivery.Unsent? && n.trans[owing].t.at == w.c.epoch
                     && k in n.trans[owing].t.release;
        assert n'.trans[owing] == n.trans[owing];
      }
    }
  }

  /** Taking `hand` in hand is fine when it leaves down only what the lease then holds, or did not hold before. */
  lemma HandCovers(c: Control, n: Net, c': Control, n': Net, hand: seq<RawInput>)
    requires Covered(c, n) && c.lease.Some? && c.lease.value.granted && c'.lease.Some? && c'.epoch == c.epoch
    requires n.lock.Busy? && n.lock.hand == [] && n'.lock == n.lock.(captured := Some(c.epoch), hand := hand)
    requires n'.loop == n.loop && n'.queue == n.queue && n'.trans == n.trans && n'.lost == n.lost
    requires var queued := AfterQueue(n.loop.held.Keys, n.queue, c.epoch);
             forall k :: k in TrackAll(queued, hand) ==>
               k in c'.lease.value.held || (k in queued && k !in c.lease.value.held)
    ensures Covered(c', n')
  {
    assert forall k :: Owed(n, c.epoch, k) ==> Owed(n', c.epoch, k);
  }

  /** A check of the current lease sends with the current epoch. */
  lemma CheckIsCurrent(w: World, event: RawInput, aimed: (nat, nat), frame: Option<(nat, nat)>, now: nat,
                       order: seq<Held>, w': World)
    requires Authentic(w.net) && Single(w) && Check(w, event, aimed, frame, now, order) == Some(w')
    requires !CheckInput(w.c, w.net.lock.sender.id, event, aimed, frame, now).1.InputLost?
    ensures w'.net.lock.captured == Some(w.c.epoch)
  {
  }

  /** A tracked event moves the held set and the loop alike; a fence releases the buttons it forgets. */
  lemma CheckCovers(w: World, event: RawInput, aimed: (nat, nat), frame: Option<(nat, nat)>, now: nat,
                    order: seq<Held>, w': World)
    requires Authentic(w.net) && Single(w) && Covered(w.c, w.net)
    requires Check(w, event, aimed, frame, now, order) == Some(w')
    ensures Covered(w'.c, w'.net)
  {
    var n := w.net;
    var (c, answer) := CheckInput(w.c, n.lock.sender.id, event, aimed, frame, now);
    if answer.InputLost? {
      LostCheckCovers(w.c, n);
    } else {
      var queued := AfterQueue(n.loop.held.Keys, n.queue, w.c.epoch);
      CheckIsCurrent(w, event, aimed, frame, now, order, w');
      if answer.Fenced? {
        ReleasesEmpty(queued, order);
      } else {
        assert TrackAll(queued, [event]) == Track(queued, event);
      }
      HandCovers(w.c, n, c, w'.net, w'.net.lock.hand);
    }
  }

  lemma LostCheckCovers(c: Control, n: Net)
    requires Covered(c, n) && n.lock.Busy? && n.lock.hand == []
    ensures Covered(c, n.(lock := Free))
  {
    assert forall k :: Owed(n, c.epoch, k) ==> Owed(n.(lock := Free), c.epoch, k);
  }

  lemma TakeDischargeCovers(w: World, id: LeaseId, confirmed: bool, w': World)
    requires Covered(w.c, w.net) && TakeDischarged(w, id, confirmed) == Some(w')
    ensures Covered(w'.c, w'.net)
  {
    DropCovers(w.c, w.net, TidOf(w.takes[id]).value, confirmed);
  }

  lemma AbandonCovers(w: World, id: LeaseId, w': World)
    requires Covered(w.c, w.net) && Abandon(w, id) == Some(w')
    ensures Covered(w'.c, w'.net)
  {
    if TidOf(w.takes[id]).Some? {
      DropCovers(w.c, w.net, TidOf(w.takes[id]).value, false);
    }
  }

  lemma FinishCovers(w: World, id: LeaseId, now: nat, w': World)
    requires Core(w) && Covered(w.c, w.net) && Finish(w, id, now) == Some(w')
    ensures Covered(w'.c, w'.net)
  {
    if IsLease(w.c, id) && w.takes[id].confirmed {
      GrantCovers(w.c, w.net);
    }
  }

  /** Actions of a take that leave no granted lease, or change nothing the account is about. */
  lemma WaitCovers(w: World, a: TakeAction, w': World)
    requires Core(w) && Covered(w.c, w.net) && ApplyTake(w, a) == Some(w')
    requires a.MarkA? || a.PollA? || a.TimeOutA? || a.SettleA? || a.UndoA?
    ensures Covered(w'.c, w'.net)
  {
  }

  lemma TakeCovers(w: World, a: TakeAction, w': World)
    requires Core(w) && Covered(w.c, w.net) && ApplyTake(w, a) == Some(w')
    ensures Covered(w'.c, w'.net)
  {
    match a
    case TakeDischargedA(id, confirmed) => TakeDischargeCovers(w, id, confirmed, w');
    case AbandonA(id) => AbandonCovers(w, id, w');
    case FinishA(id, now) => FinishCovers(w, id, now, w');
    case _ => WaitCovers(w, a, w');
  }

  /** Actions of the agent, and lease ends, leave no granted lease or change nothing on the way. */
  lemma LeaseCovers(w: World, a: LeaseAction, w': World)
    requires Covered(w.c, w.net) && ApplyLease(w, a) == Some(w')
    ensures Covered(w'.c, w'.net)
  {
  }

  lemma WayCovers(w: World, a: WayAction, w': World)
    requires Core(w) && Covered(w.c, w.net) && ApplyWay(w, a) == Some(w')
    ensures Covered(w'.c, w'.net)
  {
    match a
    case AgentSendA(at, events) => AgentSendCovers(w.c, w.net, at, events, w'.net);
    case AcquireA(id) => LockCovers(w.c, w.net, w'.net);
    case SendHandA => SendCovers(w.c, w.net, w'.net);
    case LoseHandA => LoseCovers(w.c, w.net, w'.net);
    case UnlockA => LockCovers(w.c, w.net, w'.net);
    case LockDischargeA(tid, order) => DischargeCovers(w.c, w.net, tid, order, w'.net);
    case SendEpochA(tid) => EpochSendCovers(w.c, w.net, tid, w'.net);
    case EndDischargeA(tid, confirmed) => DropCovers(w.c, w.net, tid, confirmed);
    case LoopStepA => LoopCovers(w.c, w.net, w'.net);
  }

  lemma HolderCovers(w: World, a: HolderAction, w': World)
    requires Core(w) && Single(w) && Covered(w.c, w.net) && ApplyHolder(w, a) == Some(w')
    ensures Covered(w'.c, w'.net)
  {
    match a
    case BeatA(id, now) => assert Outcome(w'.net, w'.c.epoch) == Outcome(w.net, w.c.epoch);
    case BlurA(id, now) => BlurCovers(w, id, now, w');
    case CheckA(event, aimed, frame, now, order) => CheckCovers(w, event, aimed, frame, now, order, w');
  }

  lemma StepCovers(w: World, a: Action, w': World)
    requires Core(w) && Single(w) && Covered(w.c, w.net) && Apply(w, a) == Some(w')
    ensures Covered(w'.c, w'.net)
  {
    match a
    case Taking(take) => TakeCovers(w, take, w');
    case OnTheWay(way) => WayCovers(w, way, w');
    case Leading(lead) => LeaseCovers(w, lead, w');
    case Holding(hold) => HolderCovers(w, hold, w');
  }

  /** The ids that were drawn and the epochs that humans captured say all that `Single` needs. */
  lemma SingleFrame(w: World, w': World)
    requires Single(w) && w'.net.claims == w.net.claims && w.issued <= w'.issued
    requires w'.c.lease.Some? ==>
               || (w'.c.lease.value.id !in w.issued)
               || (w.c.lease.Some? && w'.c.lease.value.id == w.c.lease.value.id && w'.c.epoch == w.c.epoch
                   && (w.c.lease.value.granted ==> w'.c.lease.value.granted))
               || (w.c.lease.Some? && w'.c.lease.value.id == w.c.lease.value.id && !w.c.lease.value.granted)
    ensures Single(w')
  {
  }

  lemma SingleWay(w: World, a: WayAction, w': World)
    requires Single(w) && ApplyWay(w, a) == Some(w')
    ensures Single(w')
  {
    SingleFrame(w, w');
  }

  lemma SingleTake(w: World, a: TakeAction, w': World)
    requires Controlled(w.c, w.net, w.takes, w.issued) && Single(w) && ApplyTake(w, a) == Some(w')
    ensures Single(w')
  {
    SingleFrame(w, w');
  }

  lemma SingleLease(w: World, a: LeaseAction, w': World)
    requires Single(w) && ApplyLease(w, a) == Some(w')
    ensures Single(w')
  {
  }

  /** The holder captures the current epoch. */
  lemma SingleClaim(w: World, w': World, id: LeaseId)
    requires Single(w) && Holds(w.c, id) && Holds(w'.c, id) && id in w.issued && w'.issued == w.issued
    requires w'.c.epoch == w.c.epoch && w'.net.claims == w.net.claims + {(w.c.epoch, Human(id))}
    ensures Single(w')
  {
  }

  lemma SingleBeat(w: World, id: LeaseId, now: nat, w': World)
    requires Single(w) && Beat(w, id, now) == Some(w')
    ensures Single(w')
  {
    SingleFrame(w, w');
  }

  lemma SingleBlur(w: World, id: LeaseId, now: nat, w': World)
    requires Controlled(w.c, w.net, w.takes, w.issued) && Single(w) && BlurLease(w, id, now) == Some(w')
    ensures Single(w')
  {
    SingleClaim(w, w', id);
  }

  lemma SingleCheck(w: World, event: RawInput, aimed: (nat, nat), frame: Option<(nat, nat)>, now: nat,
                    order: seq<Held>, w': World)
    requires Controlled(w.c, w.net, w.takes, w.issued) && Single(w)
    requires Check(w, event, aimed, frame, now, order) == Some(w')
    ensures Single(w')
  {
    if CheckInput(w.c, w.net.lock.sender.id, event, aimed, frame, now).1.InputLost? {
      SingleFrame(w, w');
    } else {
      SingleClaim(w, w', w.net.lock.sender.id);
    }
  }

  lemma SingleHolder(w: World, a: HolderAction, w': World)
    requires Controlled(w.c, w.net, w.takes, w.issued) && Single(w) && ApplyHolder(w, a) == Some(w')
    ensures Single(w')
  {
    match a
    case BeatA(id, now) => SingleBeat(w, id, now, w');
    case BlurA(id, now) => SingleBlur(w, id, now, w');
    case CheckA(event, aimed, frame, now, order) => SingleCheck(w, event, aimed, frame, now, order, w');
  }

  /** Lease ids are never drawn twice, so a lease captures only the epoch it was granted with. */
  lemma StepSingle(w: World, a: Action, w': World)
    requires Core(w) && Single(w) && Apply(w, a) == Some(w')
    ensures Single(w')
  {
    match a
    case Taking(take) => SingleTake(w, take, w');
    case OnTheWay(way) => SingleWay(w, way, w');
    case Leading(lead) => SingleLease(w, lead, w');
    case Holding(hold) => SingleHolder(w, hold, w');
  }

  lemma {:induction false} RunAccounts(run: seq<Action>, w: World)
    requires Execute(run) == Some(w) && !w.net.saturated && !w.over
    ensures Accounted(w)
  {
    RunKeeps(run, w);
    if run != [] {
      var a := run[|run| - 1];
      var before := Execute(run[..|run| - 1]).value;
      if before.net.saturated {
        SaturationStays(before, a, w);
      }
      RunAccounts(run[..|run| - 1], before);
      StepSingle(before, a, w);
      StepCovers(before, a, w);
    }
  }
}
