/** The way to the session loop keeps its invariant under every change. */
module NetPreserved {
  import opened Wrappers
  import opened Vocabulary
  import opened ControlState
  import opened ControlWorld
  import opened ControlInvariant

  /** What a change on the way to the loop leaves to the lease and its takes. */
  ghost predicate Frame(n: Net, n': Net) {
    && n'.claims == n.claims && n.loop.epoch <= n'.loop.epoch && n'.saturated == n.saturated
    && n'.trans.Keys <= n.trans.Keys
    && (forall tid :: tid in n.trans && n.trans[tid].take.Some? ==> tid in n'.trans)
    && (forall tid :: tid in n'.trans ==> n'.trans[tid].t == n.trans[tid].t && n'.trans[tid].take == n.trans[tid].take)
  }

  lemma RegisterKeeps(before: Epoch, n: Net, epoch: Epoch, t: Transition, holder: Owner, take: Option<LeaseId>)
    requires NetInv(before, n)
    requires t.at == epoch && (t.change.None? ==> epoch == before)
    requires t.change.Some? ==> t.change == Some(epoch) && epoch == NextEpoch(before) && t.release == {}
    requires t.release != {} ==> (epoch, holder) in n.claims
    ensures NetInv(epoch, Register(n, before, t, holder, take))
  {
  }

  lemma DropKeeps(epoch: Epoch, n: Net, tid: nat, confirmed: bool)
    requires NetInv(epoch, n) && tid in n.trans
    requires confirmed && n.trans[tid].t.change.Some? ==> n.trans[tid].delivery.Confirmed?
    ensures NetInv(epoch, Drop(n, tid, confirmed))
  {
  }

  lemma ClaimKeeps(epoch: Epoch, n: Net, owner: Owner)
    requires NetInv(epoch, n) && ClaimedBy(epoch, n, owner)
    ensures NetInv(epoch, Claim(n, epoch, owner))
  {
  }

  lemma InHandKeeps(epoch: Epoch, n: Net, at: Epoch, hand: seq<RawInput>)
    requires NetInv(epoch, n) && n.lock.Busy? && (at, n.lock.sender) in n.claims
    ensures NetInv(epoch, TakeInHand(n, at, hand))
  {
  }

  lemma AgentSendKeeps(epoch: Epoch, n: Net, at: Epoch, events: seq<RawInput>, n': Net)
    requires NetInv(epoch, n) && AgentSend(n, at, events) == Some(n')
    ensures NetInv(epoch, n') && Frame(n, n')
  {
  }

  lemma LockOnlyKeeps(epoch: Epoch, n: Net, lock: InputLock)
    requires NetInv(epoch, n)
    requires lock.Busy? && lock.captured.Some? && (lock.request || lock.hand != []) ==>
               (lock.captured.value, lock.sender) in n.claims
    ensures NetInv(epoch, n.(lock := lock)) && Frame(n, n.(lock := lock))
  {
  }

  lemma LoseHandKeeps(epoch: Epoch, n: Net, n': Net)
    requires NetInv(epoch, n) && LoseHand(n) == Some(n')
    ensures NetInv(epoch, n') && Frame(n, n')
  {
  }

  lemma SendHandKeeps(epoch: Epoch, n: Net, n': Net)
    requires NetInv(epoch, n) && SendHand(n) == Some(n')
    ensures NetInv(epoch, n') && Frame(n, n')
  {
  }

  lemma LockDischargeKeeps(epoch: Epoch, n: Net, tid: nat, order: seq<Held>, n': Net)
    requires NetInv(epoch, n) && LockDischarge(n, tid, order) == Some(n')
    ensures NetInv(epoch, n') && Frame(n, n')
  {
    if order != [] {
      assert order[0] in n.trans[tid].t.release;
    }
  }

  lemma SendEpochKeeps(epoch: Epoch, n: Net, tid: nat, n': Net)
    requires NetInv(epoch, n) && SendEpoch(n, tid) == Some(n')
    ensures NetInv(epoch, n') && Frame(n, n')
  {
  }

  /** Whatever is down after a batch was down before it or was pressed by its sender. */
  lemma {:induction false} BatchPresses(held: map<Held, Owner>, events: seq<RawInput>, sender: Owner)
    ensures forall k :: k in TrackAllBy(held, events, sender) ==>
              || TrackAllBy(held, events, sender)[k] == sender
              || (k in held && TrackAllBy(held, events, sender)[k] == held[k])
    decreases |events|
  {
    if events != [] {
      BatchPresses(TrackBy(held, events[0], sender), events[1..], sender);
    }
  }

  lemma ApplyKeeps(epoch: Epoch, n: Net, command: Command, n': Net)
    requires NetInv(epoch, n) && n.queue != [] && n.queue[0] == command && command.Input?
    requires command.epoch >= n.loop.epoch && LoopStep(n) == Some(n')
    ensures NetInv(epoch, n') && Frame(n, n')
  {
    BatchPresses(AdoptBy(n.loop, command.epoch).held, command.events, command.sender);
    assert Pressed(n');
    assert Traced(n');
  }

  lemma AdoptKeeps(epoch: Epoch, n: Net, command: Command, n': Net)
    requires NetInv(epoch, n) && n.queue != [] && n.queue[0] == command && command.SetEpoch?
    requires LoopStep(n) == Some(n')
    ensures NetInv(epoch, n') && Frame(n, n')
  {
  }

  lemma RefuseKeeps(epoch: Epoch, n: Net, command: Command, n': Net)
    requires NetInv(epoch, n) && n.queue != [] && n.queue[0] == command && command.Input?
    requires command.epoch < n.loop.epoch && LoopStep(n) == Some(n')
    ensures NetInv(epoch, n') && Frame(n, n')
  {
  }

  lemma LoopStepKeeps(epoch: Epoch, n: Net, n': Net)
    requires NetInv(epoch, n) && LoopStep(n) == Some(n')
    ensures NetInv(epoch, n') && Frame(n, n')
  {
    match n.queue[0]
    case SetEpoch(_, _) => AdoptKeeps(epoch, n, n.queue[0], n');
    case Input(at, _, _) =>
      if at >= n.loop.epoch {
        ApplyKeeps(epoch, n, n.queue[0], n');
      } else {
        RefuseKeeps(epoch, n, n.queue[0], n');
      }
  }
}
